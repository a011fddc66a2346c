/** Shared value types of the S3O model decoder: vectors, vertices, the decoded
    on-disk records, the piece tree and the errors a decode can end with. */
module S3OTypes {

  /** One byte of the model file. */
  newtype byte = b: int | 0 <= b < 0x100

  datatype Option<+T> = None | Some(value: T)

  /** Outcome of a decode step. The source has no error path besides the
      missing file; every other `Err` stands for a read the source would make
      outside the buffer or a vector (undefined behaviour there), a tangent
      loop that would never end, or a limit of the model (TooDeep,
      DrawOrderTooLong). */
  datatype Result<+T> = Ok(value: T) | Err(error: LoadError)

  datatype LoadError =
    | MissingModelFile(message: string)
    | MissingPieceRecord(offset: int)
    | MissingVertexRecord(offset: int)
    | TableOutOfBounds(offset: int, count: int)
    | UnterminatedString(offset: int)
    | EndlessTangentLoop(start: nat)
    | DrawOrderTooLong(size: nat)
    | VertexIndexOutOfRange
    | DrawOrderOutOfRange(index: int)
    | TooDeep(offset: int)

  /** A float3; floats are modelled as reals. */
  datatype Vec3 = Vec3(x: real, y: real, z: real)

  const ZeroVector: Vec3 := Vec3(0.0, 0.0, 0.0)

  function Add(a: Vec3, b: Vec3): Vec3 { Vec3(a.x + b.x, a.y + b.y, a.z + b.z) }
  function Sub(a: Vec3, b: Vec3): Vec3 { Vec3(a.x - b.x, a.y - b.y, a.z - b.z) }
  function Scale(a: Vec3, k: real): Vec3 { Vec3(a.x * k, a.y * k, a.z * k) }

  /** Componentwise a <= b. */
  predicate Le(a: Vec3, b: Vec3) { a.x <= b.x && a.y <= b.y && a.z <= b.z }

  /** SS3OVertex: position, normal and one texture coordinate pair. */
  datatype Vertex = Vertex(pos: Vec3, normal: Vec3, textureX: real, textureY: real)

  /** Values of Piece::primitiveType. */
  const Triangles: int := 0
  const TriangleStrip: int := 1
  const Quads: int := 2

  /** The strip-restart sentinel in a draw order (0xFFFFFFFF read as a signed word). */
  const Restart: int := -1

  /** S3OHeader after byte-order correction: string and root-piece offsets into
      the file, the radius, the height and the mid position. */
  datatype Header = Header(
    texture1: int, texture2: int, rootPiece: int,
    radius: real, height: real, midx: real, midy: real, midz: real)

  /** Piece record after byte-order correction: the offsets and counts of its
      name, vertex array, draw-order table and child-offset table. */
  datatype PieceRecord = PieceRecord(
    name: int,
    numChilds: int, childs: int,
    numVertices: int, vertices: int,
    primitiveType: int,
    vertexTableSize: int, vertexTable: int,
    offset: Vec3)

  /** Size in bytes of one on-disk vertex record (eight 32-bit floats). */
  const VertexRecordSize: int := 32

  /** A model file: its raw bytes, the header at offset 0, and the piece and
      vertex records that the fixed record layouts decode at given byte offsets
      (an offset missing from a map is one where no whole record fits). */
  datatype S3OFile = S3OFile(
    bytes: seq<byte>,
    header: Header,
    pieceAt: map<int, PieceRecord>,
    vertexAt: map<int, Vertex>)

  /** One triangle of the tangent pass: the window start in the draw order and
      its three vertex indices, after any winding flip. */
  datatype Tri = Tri(start: nat, v0: int, v1: int, v2: int)

  /** The box collision-volume descriptor handed to CollisionVolume. */
  datatype CollisionBox = CollisionBox(shape: string, scales: Vec3, offset: Vec3, enabled: bool)

  /** SS3OPiece. The tangent accumulators are formal sums: entry v lists the
      triangles whose S (resp. T) direction was added to vertex v, once per
      corner of that triangle that is v. `mins`, `maxs` and `colvol` are
      filled in by the bounding-volume pass. */
  datatype Piece = Piece(
    name: seq<byte>,
    offset: Vec3,
    primitiveType: int,
    vertices: seq<Vertex>,
    vertexDrawOrder: seq<int>,
    isEmpty: bool,
    vertexCount: nat,
    sTangents: seq<seq<Tri>>,
    tTangents: seq<seq<Tri>>,
    children: seq<Piece>,
    mins: Vec3,
    maxs: Vec3,
    colvol: Option<CollisionBox>)

  function Sum(xs: seq<nat>): nat
  {
    if xs == [] then 0 else Sum(xs[..|xs| - 1]) + xs[|xs| - 1]
  }

  /** Number of pieces in the tree rooted at p, p included. */
  function PieceCount(p: Piece): (n: nat)
    ensures n >= 1 + |p.children|
    decreases p
  {
    var counts := seq(|p.children|, i requires 0 <= i < |p.children| => PieceCount(p.children[i]));
    SumAtLeastLength(counts);
    1 + Sum(counts)
  }

  lemma {:induction false} SumAtLeastLength(xs: seq<nat>)
    requires forall i :: 0 <= i < |xs| ==> xs[i] >= 1
    ensures Sum(xs) >= |xs|
  {
    if xs != [] {
      SumAtLeastLength(xs[..|xs| - 1]);
    }
  }
}
