# S3O model decoder

A Dafny model of the Spring engine's S3O model loader,
`rts/Rendering/Models/S3OParser.cpp`. It covers five parts:

- **Load and LoadPiece** (module `Loader`). These read the model file. The
  piece tree is built recursively from the record at the header's root
  offset. Every piece read bumps the model's `numobjects` counter.
- **The draw-order table** (module `DrawOrder`). It is read as signed
  little-endian words (module `ByteReader`). A strip restart `-1` that is not
  the table's last word is pushed twice and followed by a copy of the next
  word.
- **SetVertexTangents** (module `Tangents`). This is the triangle schedule of
  the tangent pass. Triangle lists use stride 3. Strips use stride 1, with
  the winding flipped at odd starts. A window holding a restart is skipped
  with `vrtNr += 3`. Each processed triangle adds its S and T directions to
  its three corners.
- **FindMinMax** (module `Extents`). A post-order pass gives each piece the
  extents of its own vertex positions and of its children's translated
  extents. It starts from the sentinels -1000 and 10000 and adds the box
  collision volume that spans them.
- **SS3OPiece::Shatter** (module `Shatter`). Each iteration draws a random
  float. If the float does not exceed the piece chance, the iteration sends
  four vertices and a jittered speed to the flying-piece registry.

Each loop of the source is a method with a `while` loop. Each method is
proved equal to a specification function, and the lemmas state the
properties of those functions:

- `LoadPiece` is proved equal to `DecodePiece`.
- `DecodeDrawOrder` is proved equal to `Decode`.
- `SetVertexTangents` is proved equal to `Accumulated`.
- `FindMinMax` is proved equal to `WithExtents`.
- `Shatter` is proved equal to `Shattering`.

The model (a `class`) holds the fields Load assigns. The flying-piece
registry is a class whose list Shatter appends to.

The source has no error path except a missing file. A read it would make
outside the file buffer, a vector or the vertex array is undefined
behaviour there. The model returns an `Err` value naming that read
instead. For the tangent pass, `Tangents.SourceLoop` walks the window loop
exactly as written: the unsigned limit, the stride the switch leaves at 0
for an unknown primitive type, and the skip test on v1 and v2 only. It ends
in a fault at the first draw-order or vertex read out of range, or at a
window an unknown type would process forever. A piece is rejected exactly
when that walk faults, so:

- An unknown primitive type loads when every window its loop meets is
  skipped, and is rejected as `EndlessTangentLoop` when one is processed.
- A triangle list whose length is not a multiple of 3 loads when the loop
  jumps past the partial triangle, and is rejected when it reads past the
  draw order.
- The inputs behind both Findings are rejected, since the source's loop
  reads past the draw order or reads vertex -1 there.

Wherever the walk ends, the corrected pass the accumulation runs processes
the same triangles (`Tangents.PassFault`). A triangle list of whole
triangles, or a strip of at least two entries, whose entries all name
existing vertices always passes (`Tangents.WellFormedPiecePasses`).

## Model

| member | source | states |
|---|---|---|
| ByteReader.ReadInt32LE | rts/Rendering/Models/S3OParser.cpp:100 | The word read is a signed 32-bit value, and it is -1 exactly when its four bytes are all 0xFF. |
| ByteReader.ReadEncode | rts/Rendering/Models/S3OParser.cpp:100 | Encoding a signed 32-bit value little-endian and reading it back gives the value. |
| ByteReader.EncodeRead | rts/Rendering/Models/S3OParser.cpp:100 | Any four bytes read as a word and encoded again are the same four bytes, so the read loses nothing. |
| ByteReader.Words | rts/Rendering/Models/S3OParser.cpp:97-103 | A table of `count` words has `count` entries (none for a count below 1), and entry i is the word at byte base + 4i. |
| ByteReader.CStringAt | rts/Rendering/Models/S3OParser.cpp:80 | The name is the bytes from the offset up to, not including, the first NUL inside the buffer. There is no result when no NUL follows. |
| DrawOrder.DecodeDrawOrder | rts/Rendering/Models/S3OParser.cpp:96-113 | The loop's draw order equals Decode of the table words. |
| DrawOrder.Decode | rts/Rendering/Models/S3OParser.cpp:99-113 | The draw order of the table words, one Step per word. It has between one and three entries per word. |
| DrawOrder.Step | rts/Rendering/Models/S3OParser.cpp:100-111 | What one word contributes: the word, and for a restart that is not the last word a second restart and the next word (defined by cases). |
| DrawOrder.ReadEntry | rts/Rendering/Models/S3OParser.cpp:100-112 | One iteration pushes the word. For a non-final restart it pushes the restart again and then the next word, read without moving the table offset. |
| DrawOrder.DecodeLength | rts/Rendering/Models/S3OParser.cpp:99-113 | The draw order is the table length plus two entries per non-final restart. |
| DrawOrder.DecodeWithoutRestarts | rts/Rendering/Models/S3OParser.cpp:99-113 | A table with no restart before its last word decodes to itself. |
| DrawOrder.DecodeEmpty | rts/Rendering/Models/S3OParser.cpp:115 | `isEmpty` (an empty draw order) holds exactly when the table has no entries. |
| DrawOrder.CollapseDecode | rts/Rendering/Models/S3OParser.cpp:99-113 | Decoding is injective: Collapse recovers the table from the draw order. |
| DrawOrder.DecodeAt | rts/Rendering/Models/S3OParser.cpp:105-112 | Word i lands at position i + 2·(restarts before it). A non-final restart is followed by a second restart and a copy of the next word, and positions advance by 3 after a restart and by 1 otherwise. |
| DrawOrder.DecodeDrawsFromTable | rts/Rendering/Models/S3OParser.cpp:99-113 | Every decoded entry is a table word or the restart marker. |
| Tangents.StripLimitAsWritten | rts/Rendering/Models/S3OParser.cpp:272-274 | The unsigned `size() - 2` lies below 2^32. It is exactly size - 2 when no wrap occurs. |
| Tangents.StripLimitWraps | rts/Rendering/Models/S3OParser.cpp:272-286 | For every one-entry strip the limit as written is 2^32 - 1, so the source's loop runs window 0 and faults reading draw-order position 1, past the end. The corrected limit is 0 and the corrected schedule empty. |
| Tangents.WindowLimit | rts/Rendering/Models/S3OParser.cpp:272-274 | The corrected limit never exceeds the draw order. A positive limit is the size minus 2, for strips and triangle lists alike, so every window started below it lies inside the draw order. |
| Tangents.WindowLimitCorrects | rts/Rendering/Models/S3OParser.cpp:272-274 | For a strip, the corrected limit equals the source's wherever the subtraction does not wrap; where it wraps, the corrected limit is 0 while the source's is at least 2^32 - 2. For a triangle list of whole triangles the limits differ (size - 2 against size), but they admit the same multiple-of-3 starts. |
| Tangents.WindowFits | rts/Rendering/Models/S3OParser.cpp:277-286 | Every window start below the limit (a multiple of 3 for lists) has its three draw-order reads inside the draw order. |
| Tangents.WindowAt | rts/Rendering/Models/S3OParser.cpp:281-286 | The window at start i: v0 is entry i, and v1 and v2 are entries i + 1 and i + 2, swapped at odd strip starts. |
| Tangents.WindowHoldsItsEntries | rts/Rendering/Models/S3OParser.cpp:281-286 | The flip only reorders: a window holds the entries at i, i + 1 and i + 2, with v0 first. |
| Tangents.SourceLoop | rts/Rendering/Models/S3OParser.cpp:258-296 | The loop as written, from window start i. Whatever ends has read only existing vertices. With stride 0 it ends only having processed nothing, since a processed window repeats forever. |
| Tangents.SourceLoopEndings | rts/Rendering/Models/S3OParser.cpp:258-296 | An unknown type whose only window is skipped ends, and one whose window is processed never ends. A five-entry triangle list ends when its skip jumps past the partial triangle, and faults when it reads it. |
| Tangents.Sweep | rts/Rendering/Models/S3OParser.cpp:277-292 | The corrected loop from window start i: the stride, the `vrtNr += 3` skip on top of it, and the skip test on all three corners (defined by recursion). |
| Tangents.Schedule | rts/Rendering/Models/S3OParser.cpp:258-292 | The corrected schedule from window 0, empty for any type other than triangle lists and strips (defined by cases). |
| Tangents.SourceLoopAgrees | rts/Rendering/Models/S3OParser.cpp:258-296 | Wherever the source's loop ends, it has processed exactly the corrected schedule, for draw orders below 2^31 entries. |
| Tangents.PassFault | rts/Rendering/Models/S3OParser.cpp:249-296 | A fault is reported exactly when the pass runs and either the draw order reaches 2^31 entries (DrawOrderTooLong) or the source's loop faults, whose error it then is. Without one, the corrected pass reads only existing vertices, and the source's loop ends having processed exactly the corrected schedule. |
| Tangents.WellFormedOrderEnds | rts/Rendering/Models/S3OParser.cpp:272-296 | The source's loop ends, from any start the kind allows, over a triangle list of whole triangles or a strip of at least two entries whose entries all name existing vertices. |
| Tangents.WellFormedPiecePasses | rts/Rendering/Models/S3OParser.cpp:249-296 | Such a piece draws no fault from the pass, so the loader does not reject it for its tangents. |
| Tangents.SweepWindows | rts/Rendering/Models/S3OParser.cpp:277-292 | Every triangle the corrected loop processes is the window at its own start, with a start in [i, limit), a multiple of 3 for lists, and no restart at any corner. |
| Tangents.SweepWithoutRestarts | rts/Rendering/Models/S3OParser.cpp:277-292 | Without restarts no window is skipped: the schedule is every window. |
| Tangents.AllWindowsCount | rts/Rendering/Models/S3OParser.cpp:258-277 | A strip has size - 2 windows and a triangle list has size / 3. |
| Tangents.ScheduleSkipsRestarts | rts/Rendering/Models/S3OParser.cpp:288-292 | The corrected schedule processes no triangle that has a restart at any corner. |
| Tangents.AsWrittenReadsVertexMinusOne | rts/Rendering/Models/S3OParser.cpp:284-296 | The table [-1, -1, 0, 1] decodes to [-1, -1, -1, -1, -1, 0, 0, 1]. The source's loop processes window (-1, 0, 0); the corrected loop processes nothing. |
| Tangents.ValidOrderScheduleInRange | rts/Rendering/Models/S3OParser.cpp:294-296 | With every draw-order entry a restart or a vertex index, every processed corner is a vertex index. |
| Tangents.ContributionsCount | rts/Rendering/Models/S3OParser.cpp:323-329 | Vertex v's accumulator holds each processed triangle once per corner of it that is v, and nothing else. |
| Tangents.AccumulatedCounts | rts/Rendering/Models/S3OParser.cpp:255-329 | The accumulators are sized to the vertex count, and each vertex holds exactly its processed triangles, counted per corner. |
| Tangents.SetVertexTangents | rts/Rendering/Models/S3OParser.cpp:249-330 | Both accumulator arrays equal Accumulated: none for an empty or quad piece, otherwise the per-vertex sums over the schedule. |
| Tangents.Pass | rts/Rendering/Models/S3OParser.cpp:255-330 | The window loop leaves each vertex's S and T accumulators equal to its contributions from the schedule. |
| Tangents.AddTriangle | rts/Rendering/Models/S3OParser.cpp:323-329 | Adding one triangle extends every vertex's S and T sums by exactly that triangle's hits. |
| Tangents.AddToCorners | rts/Rendering/Models/S3OParser.cpp:323-325 | The three `+=` add the triangle to the sums of its corners, once per matching corner, and change nothing else. |
| Tangents.Stride | rts/Rendering/Models/S3OParser.cpp:258-267 | The stride is positive exactly for triangle lists and strips; any other type keeps the initial 0. |
| Tangents.LimitAsWritten | rts/Rendering/Models/S3OParser.cpp:272-274 | The source's `vrtMaxNr`: the wrapping strip limit for strips, the draw-order size for every other type (defined directly). |
| Tangents.Runs | rts/Rendering/Models/S3OParser.cpp:251-253 | The pass runs unless the piece is empty or a quad list (defined directly). |
| Tangents.Hits | rts/Rendering/Models/S3OParser.cpp:323-329 | What one triangle adds to a vertex's accumulator holds only that triangle; HitsCount gives how many times. |
| Tangents.Contributions | rts/Rendering/Models/S3OParser.cpp:323-329 | A vertex's accumulator after a list of triangles, in processing order (defined directly; ContributionsCount is its partner). |
| Tangents.Accumulated | rts/Rendering/Models/S3OParser.cpp:255-256 | The accumulators after the pass: none when it does not run, otherwise one per vertex (defined directly; AccumulatedCounts is its partner). |
| Tangents.HitsCount | rts/Rendering/Models/S3OParser.cpp:323-325 | One triangle adds itself to vertex v once per corner that is v. |
| Tangents.Reciprocal | rts/Rendering/Models/S3OParser.cpp:313-316 | r is 1 for a degenerate determinant (\|d\| < 0.0001) and the inverse of d otherwise. |
| Tangents.SolveAxis | rts/Rendering/Models/S3OParser.cpp:320-321 | On one axis, sdir·s + tdir·t reproduces both position edges when r·d = 1. |
| Tangents.SolveEdges | rts/Rendering/Models/S3OParser.cpp:320-321 | The solved directions reproduce both edges of the triangle on all three axes. |
| Tangents.DirsReproduceEdges | rts/Rendering/Models/S3OParser.cpp:306-321 | For a non-degenerate mapping, sdir and tdir are the object-space directions of the texture axes: each edge p_i - p_0 is its texture edge's combination of them. |
| Tangents.TriangleDirs | rts/Rendering/Models/S3OParser.cpp:306-321 | sdir and tdir of one triangle over the reals, from the edges, the texture edges and the reciprocal of the determinant (defined directly). |
| Extents.BoxFor | rts/Rendering/Models/S3OParser.cpp:170-174 | The box volume is enabled, and offset ± scales/2 are exactly mins and maxs. |
| Extents.Max | rts/Rendering/Models/S3OParser.cpp:147-166 | std::max: at least both arguments, and equal to one of them. |
| Extents.Min | rts/Rendering/Models/S3OParser.cpp:152-167 | std::min: at most both arguments, and equal to one of them. |
| Extents.ExtentsMax | rts/Rendering/Models/S3OParser.cpp:142-166 | Upper extents: the running maximum over the vertex positions, then over the children's translated maxima, from -1000 (defined as two folds). |
| Extents.ExtentsMin | rts/Rendering/Models/S3OParser.cpp:143-167 | Lower extents: the running minimum over the vertex positions, then over the children's translated minima, from 10000 (defined as two folds). |
| Extents.WithExtents | rts/Rendering/Models/S3OParser.cpp:134-175 | The pass over a tree: children first, each with its own extents, then the piece's extents and box (defined by recursion). |
| Extents.FindMinMax | rts/Rendering/Models/S3OParser.cpp:134-175 | The method returns WithExtents of the tree: children first, then the piece's own extents and box. |
| Extents.VertexExtents | rts/Rendering/Models/S3OParser.cpp:142-155 | The vertex loop gives the running maximum and minimum of the positions from the sentinels. |
| Extents.ChildExtents | rts/Rendering/Models/S3OParser.cpp:157-165 | The child loop folds every child's offset + maxs and offset + mins into those extents. |
| Extents.FoldMaxIsMax | rts/Rendering/Models/S3OParser.cpp:147-150 | The running maximum bounds the start value and every point, and each component is attained by one of them. |
| Extents.FoldMinIsMin | rts/Rendering/Models/S3OParser.cpp:152-154 | The running minimum bounds the start value and every point from below, and each component is attained. |
| Extents.ExtentsBound | rts/Rendering/Models/S3OParser.cpp:142-168 | The extents contain the sentinel box, every vertex position and every translated child extent. With neither vertices nor children they are the sentinels. |
| Extents.VertexInside | rts/Rendering/Models/S3OParser.cpp:147-155 | Vertex k's position lies inside the piece's extents. |
| Extents.ChildCornerInside | rts/Rendering/Models/S3OParser.cpp:157-165 | Child i's extents, translated by its offset, lie inside the piece's extents. |
| Extents.ExtentsOfPiece | rts/Rendering/Models/S3OParser.cpp:134-175 | After the pass, a piece has its children after the pass in order, extents over its vertices and those children, the box over them, and all the containments above. |
| Extents.MaxAttained | rts/Rendering/Models/S3OParser.cpp:142-167 | Each component of maxs is -1000 or that component of a vertex position or of a translated child maximum. |
| Extents.MinAttained | rts/Rendering/Models/S3OParser.cpp:143-168 | Each component of mins is 10000 or that component of a vertex position or of a translated child minimum. |
| Extents.ChildInside | rts/Rendering/Models/S3OParser.cpp:157-165 | The extents of child i after the pass, translated by its offset, lie inside the parent's. |
| Extents.SubtreeContained | rts/Rendering/Models/S3OParser.cpp:134-168 | Every vertex of the subtree, placed by the offsets of the pieces above it, lies inside the root's extents. |
| Extents.WithExtentsKeepsShape | rts/Rendering/Models/S3OParser.cpp:134-175 | The pass leaves vertices, draw order, offset, primitive type, tangents and the piece count unchanged. |
| Extents.WithExtentsIdempotent | rts/Rendering/Models/S3OParser.cpp:134-175 | Running the pass again changes nothing. |
| Shatter.FlyingPieceRegistry.constructor | rts/Rendering/Models/S3OParser.cpp:375 | A new registry holds no flying pieces. |
| Shatter.FlyingPieceRegistry.AddFlyingPiece | rts/Rendering/Models/S3OParser.cpp:375 | The piece is appended to the registry's list, and nothing else changes. |
| Shatter.IndexNext | rts/Rendering/Models/S3OParser.cpp:364-396 | Iteration 0 runs at the first index, and each iteration advances the index by the step: 0 and 3 for lists, 2 and 1 for strips, 0 and 4 for quads. |
| Shatter.IterationsRun | rts/Rendering/Models/S3OParser.cpp:361-409 | For a known type, iteration k runs exactly when its index is below the draw-order size. |
| Shatter.Iterations | rts/Rendering/Models/S3OParser.cpp:361-412 | An unknown type runs no iteration. |
| Shatter.IndexOf | rts/Rendering/Models/S3OParser.cpp:364-396 | Iteration k's loop index, 3k for lists, 2 + k for strips and 4k for quads, is at least the first index plus k. |
| Shatter.Slots | rts/Rendering/Models/S3OParser.cpp:370-405 | The four draw-order positions read are ordered and end at or after the loop index. For lists and strips the middle one is read twice. |
| Shatter.FragmentVerts | rts/Rendering/Models/S3OParser.cpp:370-405 | The read succeeds exactly when all four positions lie inside the draw order and name existing vertices. It then gives those four vertices. |
| Shatter.Emit | rts/Rendering/Models/S3OParser.cpp:364-408 | The first k iterations send at most k fragments. |
| Shatter.Shatter | rts/Rendering/Models/S3OParser.cpp:359-414 | The registry gains exactly the fragments of Shattering, in order. The fault returned is Shattering's. |
| Shatter.Iteration | rts/Rendering/Models/S3OParser.cpp:364-408 | One loop iteration takes the registry, the sent count and the fault from the first k iterations' result to the first k + 1's. |
| Shatter.Shattering | rts/Rendering/Models/S3OParser.cpp:359-414 | The fragments and fault of the whole call: Emit over every iteration the type and size allow (defined directly). |
| Shatter.FaultPersists | rts/Rendering/Models/S3OParser.cpp:364-408 | After a faulting read, later iterations send nothing more. |
| Shatter.Drawn | rts/Rendering/Models/S3OParser.cpp:365-366 | The count of drawn iterations among the first k is at most k. |
| Shatter.DrawnBounds | rts/Rendering/Models/S3OParser.cpp:365-366 | The count is k when every float is within the chance, and 0 when none is. |
| Shatter.DrawnIterations | rts/Rendering/Models/S3OParser.cpp:364-408 | The drawn iterations among the first k, in order: at most k of them. |
| Shatter.DrawnIterationsExactly | rts/Rendering/Models/S3OParser.cpp:364-408 | They are exactly the iterations below k whose float is within the chance, strictly increasing, so each appears once. |
| Shatter.DrawnIterationsCount | rts/Rendering/Models/S3OParser.cpp:364-408 | There are Drawn of them. |
| Shatter.EmitCount | rts/Rendering/Models/S3OParser.cpp:364-408 | The call faults exactly when a drawn iteration reads outside the draw order or the vertex array. Otherwise it sends one fragment per drawn iteration. |
| Shatter.EmitOrigin | rts/Rendering/Models/S3OParser.cpp:364-408 | The m-th fragment comes from the m-th drawn iteration: it carries the caller's texture, team and position, the speed plus twice the m-th random vector, and that iteration's four vertices. Without a fault every drawn iteration sends exactly one fragment. With one, the fragments are those of the drawn iterations before the first whose read faults, and the fault is that read's. |
| Shatter.FragmentsRepeatMiddleCorner | rts/Rendering/Models/S3OParser.cpp:370-389 | Triangle and strip fragments have four vertices, with the second equal to the third. |
| Shatter.WellFormedNeverFaults | rts/Rendering/Models/S3OParser.cpp:361-409 | A draw order of whole primitives and valid vertex indices never faults. It then sends exactly one fragment per drawn iteration. |
| Shatter.StripRestartReadsOutside | rts/Rendering/Models/S3OParser.cpp:380-391 | A strip whose draw order holds a restart reads vertex -1 at the window over it: [0, 1, -1, -1, 2, 2] faults at the first iteration. |
| Loader.ReadVertices | rts/Rendering/Models/S3OParser.cpp:84-93 | The vertex array succeeds exactly when every record of the count is present. It then has one vertex per record, in file order. |
| Loader.ReadVertexArray | rts/Rendering/Models/S3OParser.cpp:84-93 | The vertex loop returns ReadVertices. |
| Loader.MissingVertexPersists | rts/Rendering/Models/S3OParser.cpp:86-93 | Once a record is missing, the whole array is that failure. |
| Loader.ReadPiece | rts/Rendering/Models/S3OParser.cpp:66-120 | A successful read found the record and an in-bounds child table, and has no children yet. |
| Loader.ReadPieceAccepts | rts/Rendering/Models/S3OParser.cpp:66-120 | A piece reads exactly when its record, name, vertex records and draw-order table are there, PassFault finds no fault, and its child table is in bounds. Where PassFault finds one, the read fails with it. |
| Loader.Bare | rts/Rendering/Models/S3OParser.cpp:76-80 | The piece as read before its tangents and children: the record's offset and type, the name, the vertices and draw order, isEmpty as an empty draw order (line 115) and the vertex count (line 116) (defined directly). |
| Loader.DecodePiece | rts/Rendering/Models/S3OParser.cpp:66-132 | One piece and its subtree: the record read, then the children, failing with the first failure and TooDeep past the fuel (defined by recursion). |
| Loader.DecodeChildren | rts/Rendering/Models/S3OParser.cpp:120-129 | The children at the table's offsets, in table order, with the first failure winning (defined by recursion). |
| Loader.LoadPiece | rts/Rendering/Models/S3OParser.cpp:66-132 | The method returns DecodePiece. On success the counter has grown by the number of pieces in the subtree. |
| Loader.LoadChildren | rts/Rendering/Models/S3OParser.cpp:120-129 | The child loop returns DecodeChildren of the child-offset words and counts every piece of every child subtree. |
| Loader.CountsAppend | rts/Rendering/Models/S3OParser.cpp:68 | One more child adds its subtree's piece count to the total. |
| S3OTypes.PieceCount | rts/Rendering/Models/S3OParser.cpp:68 | The pieces in a tree, the root included, at least one plus the number of children. |
| Loader.ChildFailurePersists | rts/Rendering/Models/S3OParser.cpp:122-129 | Once a child fails, the whole child list is that failure. |
| Loader.ChildrenDecoded | rts/Rendering/Models/S3OParser.cpp:120-129 | The child list decodes exactly when every child does. It then holds each child's piece in table order. |
| Loader.DecodedPieceFields | rts/Rendering/Models/S3OParser.cpp:66-132 | A decoded piece has the record's name, offset, type and vertices in order, the decoded draw order (empty exactly when the table is), the vertex count, the tangent sums, and one child per child word, in order. |
| Loader.ClampMidY | rts/Rendering/Models/S3OParser.cpp:56-57 | The mid height is at least 1 and at least the header's, and is one of the two. |
| Loader.S3DModel.constructor | rts/Rendering/Models/S3OParser.cpp:39-42 | A new model has its name, zero pieces and no root. |
| Loader.SetRoot | rts/Rendering/Models/S3OParser.cpp:52-60 | The model gets the root, the radius and height, the clamped mid position and the root's extents. The name, textures and counter are kept. |
| Loader.DecodeModel | rts/Rendering/Models/S3OParser.cpp:26-63 | The model Load builds: a missing file or unterminated texture name fails; otherwise the root after FindMinMax, the header's fields, the clamped mid position and the root's extents (defined directly). |
| Loader.Load | rts/Rendering/Models/S3OParser.cpp:26-64 | A missing file or a failed decode is reported. Otherwise a fresh model holds DecodeModel's contents, and its counter is the number of pieces in the tree. |
| Loader.LoadedModelShape | rts/Rendering/Models/S3OParser.cpp:50-60 | The model's extents are the root's, the root's box spans them, and the root is a fixed point of the extents pass. The mid height is at least 1 and keeps the header's value when that is at least 1. |
| Loader.ModelBoundsContainEveryVertex | rts/Rendering/Models/S3OParser.cpp:50-60 | Every vertex of the tree, placed by its ancestors' offsets, lies inside the model's mins and maxs. |

## Left out

- Draw (S3OParser.cpp:177-245): it only issues OpenGL calls.
- The smoothing loop of SetVertexTangents (S3OParser.cpp:332-353). It uses NaN tests, cross products and normalisation, which are floating point. The accumulators are kept as formal sums: each vertex holds the list of triangles added to it.
- The float arithmetic of sdir and tdir. These are modelled over the reals as a separate function (TriangleDirs), not as stored values. There is no rounding.
- File I/O, the texture handler call, the byte-order swaps of the header and records, and `MODELTYPE_S3O`. The header, piece and vertex records are given already decoded, at their byte offsets. The table words are read from the bytes.
- The CollisionVolume object. Only the descriptor it is built from (shape, scales, offset, enabled) is modelled. The `COLVOL_TEST_CONT` test-type argument of its constructor is left out, since it is the same constant for every piece.
- The global random number generator. Shatter takes the floats it would draw (one per iteration) and the vectors (one per fragment sent) as input sequences.
- The internals of AddFlyingPiece. The registry only records what it is given.
- Loader.LoadPiece: recursion depth is bounded by a fuel parameter, and deeper nesting is reported as TooDeep. The source has no bound, and a child offset that points back at an ancestor recurses until the stack overflows.
- Loader.LoadPiece: after an `Err` the piece counter is left unspecified. The source has no error path there, so it does not say what the counter would be.
- Loader.Load: reads the source would make outside the buffer are reported as errors rather than modelled as undefined behaviour.
- Tangents.SetVertexTangents: runs the corrected window limit and skip test (see Findings), not the source's. This changes nothing the model accepts, since a piece loads only where the source's loop ends, and there the two process the same triangles (Tangents.PassFault).
- Tangents.PassFault: a draw order of 2^31 entries or more is rejected as DrawOrderTooLong. The source's 32-bit `vrtNr` and `vrtMaxNr` can wrap there, which the model does not follow; such a draw order needs a file of gigabytes.
- Floats as reals: positions, offsets, extents, `relMidPos`, the random floats and the tangent directions are reals, with no rounding, no NaN and no infinity. Exact statements such as BoxFor's (offset ± scales/2 are exactly mins and maxs) hold for the model, not for float arithmetic.
- Update in place: pieces are values, and FindMinMax returns the tree with extents. No piece in the source is shared between parents, so no aliasing is lost.

## Findings

| source | as written | input that shows it | evidently intended | confidence | as-written member | corrected member |
|---|---|---|---|---|---|---|
| rts/Rendering/Models/S3OParser.cpp:272-286 | The strip limit `size() - 2` is stored in an `unsigned`, so below two entries it wraps. | A strip piece whose table has one word: the limit is 2^32 - 1, and window 0 reads draw-order position 1, past the end. | No window when there are fewer than three entries. | not executed | Tangents.StripLimitWraps | Tangents.WindowLimit |
| rts/Rendering/Models/S3OParser.cpp:288-296 | The skip test looks only at v1 and v2, so after a skip the loop can land on a window whose first index is a restart. | Strip table [-1, -1, 0, 1]. It decodes to [-1, -1, -1, -1, -1, 0, 0, 1]; window 0 is skipped to window 4 = (-1, 0, 0), which is processed and reads `vertices[-1]`. | Skip every window that holds a restart. | not executed | Tangents.AsWrittenReadsVertexMinusOne | Tangents.ScheduleSkipsRestarts |
