/** CS3OParser::Load and CS3OParser::LoadPiece: the model record, the
    recursive decode of the piece tree from the file buffer, and the
    per-model post-processing (extents of the tree, clamped mid position). */
module Loader {
  import opened S3OTypes
  import opened ByteReader
  import DrawOrder
  import Tangents
  import Extents

  /** Entries a signed on-disk count stands for (the source's loops run no
      iteration for a count below one). */
  function Entries(count: int): nat
  {
    if count < 0 then 0 else count
  }

  /** The vertex array of a piece: `count` records of VertexRecordSize bytes
      from byte `base`, in file order. */
  function ReadVertices(file: S3OFile, base: int, count: int): (r: Result<seq<Vertex>>)
    ensures r.Ok? <==> forall i :: 0 <= i < count ==> base + VertexRecordSize * i in file.vertexAt
    ensures r.Ok? ==> |r.value| == Entries(count)
    ensures r.Ok? ==> forall i :: 0 <= i < |r.value| ==>
                        base + VertexRecordSize * i in file.vertexAt
                        && r.value[i] == file.vertexAt[base + VertexRecordSize * i]
    ensures r.Err? ==> r.error.MissingVertexRecord?
    decreases Entries(count)
  {
    if count <= 0 then Ok([])
    else
      var off := base + VertexRecordSize * (count - 1);
      match ReadVertices(file, base, count - 1)
      case Err(e) => Err(e)
      case Ok(vs) =>
        if off in file.vertexAt then Ok(vs + [file.vertexAt[off]]) else Err(MissingVertexRecord(off))
  }

  /** A freshly read piece before its tangents and children are set. */
  function Bare(rec: PieceRecord, name: seq<byte>, vertices: seq<Vertex>, order: seq<int>): Piece
  {
    Piece(name, rec.offset, rec.primitiveType, vertices, order, order == [], |vertices|,
          [], [], [], ZeroVector, ZeroVector, None)
  }

  /** Everything LoadPiece reads before its child loop: the record at
      `offset`, its name, vertices and draw order, and the tangent sums; or
      the first read that would fail. The child table is checked too. */
  function ReadPiece(file: S3OFile, offset: int): (r: Result<Piece>)
    ensures r.Ok? ==> offset in file.pieceAt
                      && TableInBounds(file.bytes, file.pieceAt[offset].childs, file.pieceAt[offset].numChilds)
                      && r.value.children == []
  {
    if offset !in file.pieceAt then Err(MissingPieceRecord(offset))
    else
      var rec := file.pieceAt[offset];
      var name := CStringAt(file.bytes, rec.name);
      if name.None? then Err(UnterminatedString(rec.name))
      else
        var vertices := ReadVertices(file, rec.vertices, rec.numVertices);
        if vertices.Err? then Err(vertices.error)
        else if !TableInBounds(file.bytes, rec.vertexTable, rec.vertexTableSize) then
          Err(TableOutOfBounds(rec.vertexTable, rec.vertexTableSize))
        else
          var p := PassInput(file, offset);
          if Tangents.PassFault(p).Some? then Err(Tangents.PassFault(p).value)
          else if !TableInBounds(file.bytes, rec.childs, rec.numChilds) then
            Err(TableOutOfBounds(rec.childs, rec.numChilds))
          else
            var acc := Tangents.Accumulated(p);
            Ok(p.(sTangents := acc, tTangents := acc))
  }

  /** The parts of the record at `offset` read before the tangent pass are
      all there: the record, its NUL-terminated name, its vertex records and
      an in-bounds draw-order table. */
  predicate RecordReadable(file: S3OFile, offset: int)
  {
    offset in file.pieceAt
    && CStringAt(file.bytes, file.pieceAt[offset].name).Some?
    && ReadVertices(file, file.pieceAt[offset].vertices, file.pieceAt[offset].numVertices).Ok?
    && TableInBounds(file.bytes, file.pieceAt[offset].vertexTable, file.pieceAt[offset].vertexTableSize)
  }

  /** The piece the tangent pass runs on, for a readable record. */
  function PassInput(file: S3OFile, offset: int): Piece
    requires RecordReadable(file, offset)
  {
    var rec := file.pieceAt[offset];
    Bare(rec, CStringAt(file.bytes, rec.name).value,
         ReadVertices(file, rec.vertices, rec.numVertices).value,
         DrawOrder.Decode(Words(file.bytes, rec.vertexTable, rec.vertexTableSize)))
  }

  /** A piece reads exactly when its record is readable, the source's tangent
      loop over it ends, and its child table is in bounds; where that loop
      faults, the read fails with the fault. */
  lemma ReadPieceAccepts(file: S3OFile, offset: int)
    ensures ReadPiece(file, offset).Ok? <==>
              RecordReadable(file, offset)
              && Tangents.PassFault(PassInput(file, offset)) == None
              && TableInBounds(file.bytes, file.pieceAt[offset].childs, file.pieceAt[offset].numChilds)
    ensures RecordReadable(file, offset) && Tangents.PassFault(PassInput(file, offset)).Some? ==>
              ReadPiece(file, offset) == Err(Tangents.PassFault(PassInput(file, offset)).value)
  {
  }

  /** The child-offset table of the record at `offset`. */
  function ChildWords(file: S3OFile, offset: int): seq<int>
    requires offset in file.pieceAt
    requires TableInBounds(file.bytes, file.pieceAt[offset].childs, file.pieceAt[offset].numChilds)
  {
    Words(file.bytes, file.pieceAt[offset].childs, file.pieceAt[offset].numChilds)
  }

  /** The piece LoadPiece builds from the record at `offset`, children
      included, or the first read that would fail. Nesting deeper than `fuel`
      is reported as TooDeep. */
  function DecodePiece(file: S3OFile, offset: int, fuel: nat): Result<Piece>
    decreases fuel, 0
  {
    if fuel == 0 then Err(TooDeep(offset))
    else
      match ReadPiece(file, offset)
      case Err(e) => Err(e)
      case Ok(p) =>
        match DecodeChildren(file, ChildWords(file, offset), fuel - 1)
        case Err(e) => Err(e)
        case Ok(cs) => Ok(p.(children := cs))
  }

  /** The children at the offsets `offs`, in table order; the first failure wins. */
  function DecodeChildren(file: S3OFile, offs: seq<int>, fuel: nat): Result<seq<Piece>>
    decreases fuel, 1, |offs|
  {
    if offs == [] then Ok([])
    else
      match DecodeChildren(file, offs[..|offs| - 1], fuel)
      case Err(e) => Err(e)
      case Ok(cs) =>
        match DecodePiece(file, offs[|offs| - 1], fuel)
        case Err(e) => Err(e)
        case Ok(c) => Ok(cs + [c])
  }

  /** Piece counts of a list of subtrees. */
  function Counts(cs: seq<Piece>): seq<nat>
  {
    seq(|cs|, i requires 0 <= i < |cs| => PieceCount(cs[i]))
  }

  /** S3DModel: the loaded model. */
  class S3DModel {
    var name: string
    var numobjects: int
    var tex1: seq<byte>
    var tex2: seq<byte>
    var rootobject: Option<Piece>
    var radius: real
    var height: real
    var relMidPos: Vec3
    var maxs: Vec3
    var mins: Vec3

    constructor (name: string)
      ensures this.name == name && numobjects == 0 && rootobject == None
      ensures tex1 == [] && tex2 == []
    {
      this.name := name;
      numobjects := 0;
      tex1, tex2 := [], [];
      rootobject := None;
      radius, height := 0.0, 0.0;
      relMidPos, maxs, mins := ZeroVector, ZeroVector, ZeroVector;
    }
  }

  /** `model->numobjects++` and the decode of one piece and its subtree. */
  method LoadPiece(file: S3OFile, offset: int, model: S3DModel, fuel: nat) returns (r: Result<Piece>)
    modifies model`numobjects
    ensures r == DecodePiece(file, offset, fuel)
    ensures r.Ok? ==> model.numobjects == old(model.numobjects) + PieceCount(r.value)
    decreases fuel, 0
  {
    model.numobjects := model.numobjects + 1;
    if fuel == 0 {
      return Err(TooDeep(offset));
    }
    if offset !in file.pieceAt {
      return Err(MissingPieceRecord(offset));
    }
    var fp := file.pieceAt[offset];
    var name := CStringAt(file.bytes, fp.name);
    if name.None? {
      return Err(UnterminatedString(fp.name));
    }
    var vertices := ReadVertexArray(file, fp.vertices, fp.numVertices);
    if vertices.Err? {
      return Err(vertices.error);
    }
    if !TableInBounds(file.bytes, fp.vertexTable, fp.vertexTableSize) {
      return Err(TableOutOfBounds(fp.vertexTable, fp.vertexTableSize));
    }
    var order := DrawOrder.DecodeDrawOrder(file.bytes, fp.vertexTable, fp.vertexTableSize);
    var piece := Bare(fp, name.value, vertices.value, order);
    var fault := Tangents.PassFault(piece);
    if fault.Some? {
      return Err(fault.value);
    }
    var sTangents, tTangents := Tangents.SetVertexTangents(piece);
    if !TableInBounds(file.bytes, fp.childs, fp.numChilds) {
      return Err(TableOutOfBounds(fp.childs, fp.numChilds));
    }
    var childs := LoadChildren(file, fp.childs, fp.numChilds, model, fuel - 1);
    if childs.Err? {
      return Err(childs.error);
    }
    piece := piece.(sTangents := sTangents, tTangents := tTangents, children := childs.value);
    assert Counts(childs.value)
           == seq(|piece.children|, i requires 0 <= i < |piece.children| => PieceCount(piece.children[i]));
    r := Ok(piece);
  }

  /** The vertex loop of LoadPiece. */
  method ReadVertexArray(file: S3OFile, base: int, count: int) returns (r: Result<seq<Vertex>>)
    ensures r == ReadVertices(file, base, count)
  {
    var vertices: seq<Vertex> := [];
    var vertexOffset := base;
    var a := 0;
    while a < count
      invariant 0 <= a <= Entries(count)
      invariant vertexOffset == base + VertexRecordSize * a
      invariant ReadVertices(file, base, a) == Ok(vertices)
    {
      if vertexOffset !in file.vertexAt {
        MissingVertexPersists(file, base, a + 1, count);
        return Err(MissingVertexRecord(vertexOffset));
      }
      vertices := vertices + [file.vertexAt[vertexOffset]];
      vertexOffset := vertexOffset + VertexRecordSize;
      a := a + 1;
    }
    r := Ok(vertices);
  }

  /** Once a vertex record is missing the vertex array is that failure. */
  lemma {:induction false} MissingVertexPersists(file: S3OFile, base: int, k: nat, count: int)
    requires k <= count
    requires ReadVertices(file, base, k).Err?
    ensures ReadVertices(file, base, count) == ReadVertices(file, base, k)
    decreases count - k
  {
    if k < count {
      MissingVertexPersists(file, base, k + 1, count);
    }
  }

  /** The child loop of LoadPiece: one LoadPiece per child-table word. */
  method LoadChildren(file: S3OFile, base: int, count: int, model: S3DModel, fuel: nat) returns (r: Result<seq<Piece>>)
    requires TableInBounds(file.bytes, base, count)
    modifies model`numobjects
    ensures r == DecodeChildren(file, Words(file.bytes, base, count), fuel)
    ensures r.Ok? ==> model.numobjects == old(model.numobjects) + Sum(Counts(r.value))
    decreases fuel, 1
  {
    ghost var words := Words(file.bytes, base, count);
    var childs: seq<Piece> := [];
    var childTableOffset := base;
    var a := 0;
    while a < count
      invariant 0 <= a <= |words|
      invariant a < count ==> childTableOffset + 4 <= |file.bytes| && 0 <= childTableOffset
      invariant childTableOffset == base + 4 * a
      invariant DecodeChildren(file, words[..a], fuel) == Ok(childs)
      invariant model.numobjects == old(model.numobjects) + Sum(Counts(childs))
    {
      var childOffset := ReadInt32LE(file.bytes, childTableOffset);
      assert words[a] == childOffset;
      PrefixStep(words, a);
      var childPiece := LoadPiece(file, childOffset, model, fuel);
      ChildrenAppend(file, words[..a], childOffset, fuel);
      if childPiece.Err? {
        ChildFailurePersists(file, words, a + 1, fuel);
        return Err(childPiece.error);
      }
      CountsAppend(childs, childPiece.value);
      childs := childs + [childPiece.value];
      childTableOffset := childTableOffset + 4;
      a := a + 1;
    }
    assert words[..a] == words;
    r := Ok(childs);
  }

  lemma PrefixStep(words: seq<int>, a: nat)
    requires a < |words|
    ensures words[..a + 1] == words[..a] + [words[a]]
  {
  }

  /** One more child-table word: its piece is appended, or its failure wins. */
  lemma ChildrenAppend(file: S3OFile, offs: seq<int>, o: int, fuel: nat)
    requires DecodeChildren(file, offs, fuel).Ok?
    ensures DecodePiece(file, o, fuel).Err? ==>
              DecodeChildren(file, offs + [o], fuel) == Err(DecodePiece(file, o, fuel).error)
    ensures DecodePiece(file, o, fuel).Ok? ==>
              DecodeChildren(file, offs + [o], fuel)
              == Ok(DecodeChildren(file, offs, fuel).value + [DecodePiece(file, o, fuel).value])
  {
    assert (offs + [o])[..|offs|] == offs;
  }

  lemma CountsAppend(cs: seq<Piece>, c: Piece)
    ensures Sum(Counts(cs + [c])) == Sum(Counts(cs)) + PieceCount(c)
  {
    var xs := Counts(cs + [c]);
    assert xs[..|cs|] == Counts(cs);
  }

  /** Once a child fails to load, the whole child list is that failure. */
  lemma {:induction false} ChildFailurePersists(file: S3OFile, offs: seq<int>, k: nat, fuel: nat)
    requires k <= |offs|
    requires DecodeChildren(file, offs[..k], fuel).Err?
    ensures DecodeChildren(file, offs, fuel) == DecodeChildren(file, offs[..k], fuel)
    decreases |offs| - k
  {
    if k < |offs| {
      assert offs[..k + 1][..k] == offs[..k];
      ChildFailurePersists(file, offs, k + 1, fuel);
    } else {
      assert offs[..k] == offs;
    }
  }

  /** `std::max(relMidPos.y, 1.0f)`: the mid position is never below 1. */
  const MinMidY: real := 1.0

  function ClampMidY(y: real): (r: real)
    ensures r >= MinMidY && r >= y
    ensures r == y || r == MinMidY
  {
    if y < MinMidY then MinMidY else y
  }

  const MissingFilePrefix: string := "[S3OParser] could not find model-file "

  /** What Load stores in the model, apart from the piece counter. */
  datatype ModelData = ModelData(
    name: string, tex1: seq<byte>, tex2: seq<byte>, root: Piece,
    radius: real, height: real, relMidPos: Vec3, maxs: Vec3, mins: Vec3)

  /** The model Load builds from the file called `name` among `files`. */
  function DecodeModel(name: string, files: map<string, S3OFile>, fuel: nat): Result<ModelData>
  {
    if name !in files then Err(MissingModelFile(MissingFilePrefix + name))
    else
      var file := files[name];
      var h := file.header;
      var tex1 := CStringAt(file.bytes, h.texture1);
      var tex2 := CStringAt(file.bytes, h.texture2);
      if tex1.None? then Err(UnterminatedString(h.texture1))
      else if tex2.None? then Err(UnterminatedString(h.texture2))
      else
        match DecodePiece(file, h.rootPiece, fuel)
        case Err(e) => Err(e)
        case Ok(raw) =>
          var root := Extents.WithExtents(raw);
          Ok(ModelData(name, tex1.value, tex2.value, root, h.radius, h.height,
                       Vec3(h.midx, ClampMidY(h.midy), h.midz), root.maxs, root.mins))
  }

  /** The stored contents of a loaded model. */
  function Contents(m: S3DModel): Option<ModelData>
    reads m
  {
    match m.rootobject
    case None => None
    case Some(root) => Some(ModelData(m.name, m.tex1, m.tex2, root, m.radius, m.height, m.relMidPos, m.maxs, m.mins))
  }

  /** The model Load builds once its root piece has decoded to `raw`. */
  lemma DecodeModelOk(name: string, files: map<string, S3OFile>, fuel: nat, raw: Piece)
    requires name in files
    requires CStringAt(files[name].bytes, files[name].header.texture1).Some?
    requires CStringAt(files[name].bytes, files[name].header.texture2).Some?
    requires DecodePiece(files[name], files[name].header.rootPiece, fuel) == Ok(raw)
    ensures var h := files[name].header;
            var root := Extents.WithExtents(raw);
            DecodeModel(name, files, fuel)
            == Ok(ModelData(name, CStringAt(files[name].bytes, h.texture1).value,
                            CStringAt(files[name].bytes, h.texture2).value, root, h.radius, h.height,
                            Vec3(h.midx, ClampMidY(h.midy), h.midz), root.maxs, root.mins))
  {
  }

  /** The tail of Load: the root piece, the header's dimensions, the clamped
      mid position and the root's extents are stored in the model. */
  method SetRoot(model: S3DModel, root: Piece, header: Header)
    modifies model
    ensures model.rootobject == Some(root)
    ensures model.radius == header.radius && model.height == header.height
    ensures model.relMidPos == Vec3(header.midx, ClampMidY(header.midy), header.midz)
    ensures model.maxs == root.maxs && model.mins == root.mins
    ensures model.name == old(model.name) && model.numobjects == old(model.numobjects)
    ensures model.tex1 == old(model.tex1) && model.tex2 == old(model.tex2)
  {
    model.rootobject := Some(root);
    model.radius := header.radius;
    model.height := header.height;
    model.relMidPos := Vec3(header.midx, header.midy, header.midz);
    model.relMidPos := model.relMidPos.(y := ClampMidY(model.relMidPos.y));
    model.maxs := root.maxs;
    model.mins := root.mins;
  }

  method Load(name: string, files: map<string, S3OFile>, fuel: nat) returns (r: Result<S3DModel>)
    ensures DecodeModel(name, files, fuel).Err? ==> r == Err(DecodeModel(name, files, fuel).error)
    ensures DecodeModel(name, files, fuel).Ok? ==>
              r.Ok? && fresh(r.value) && Contents(r.value) == Some(DecodeModel(name, files, fuel).value)
              && r.value.numobjects == PieceCount(DecodeModel(name, files, fuel).value.root)
  {
    if name !in files {
      return Err(MissingModelFile(MissingFilePrefix + name));
    }
    var file := files[name];
    var header := file.header;
    var model := new S3DModel(name);
    var tex1 := CStringAt(file.bytes, header.texture1);
    var tex2 := CStringAt(file.bytes, header.texture2);
    if tex1.None? {
      return Err(UnterminatedString(header.texture1));
    }
    if tex2.None? {
      return Err(UnterminatedString(header.texture2));
    }
    model.tex1 := tex1.value;
    model.tex2 := tex2.value;
    ghost var texts := (model.name, model.tex1, model.tex2);
    var rootPiece := LoadPiece(file, header.rootPiece, model, fuel);
    assert (model.name, model.tex1, model.tex2) == texts;
    if rootPiece.Err? {
      return Err(rootPiece.error);
    }
    var root := Extents.FindMinMax(rootPiece.value);
    Extents.WithExtentsKeepsShape(rootPiece.value);
    DecodeModelOk(name, files, fuel, rootPiece.value);
    SetRoot(model, root, header);
    r := Ok(model);
  }

  /** The child list decodes exactly when every child does, and then holds
      each child's piece in table order. */
  lemma {:induction false} ChildrenDecoded(file: S3OFile, offs: seq<int>, fuel: nat)
    ensures DecodeChildren(file, offs, fuel).Ok? <==>
              forall i :: 0 <= i < |offs| ==> DecodePiece(file, offs[i], fuel).Ok?
    ensures DecodeChildren(file, offs, fuel).Ok? ==>
              |DecodeChildren(file, offs, fuel).value| == |offs|
              && forall i :: 0 <= i < |offs| ==>
                   DecodePiece(file, offs[i], fuel) == Ok(DecodeChildren(file, offs, fuel).value[i])
    decreases |offs|
  {
    if offs != [] {
      var front, last := offs[..|offs| - 1], offs[|offs| - 1];
      ChildrenDecoded(file, front, fuel);
      assert offs == front + [last];
      var r := DecodeChildren(file, offs, fuel);
      var prev := DecodeChildren(file, front, fuel);
      if prev.Err? {
        assert r.Err?;
        var j :| 0 <= j < |front| && DecodePiece(file, front[j], fuel).Err?;
        assert offs[j] == front[j];
      } else {
        ChildrenAppend(file, front, last, fuel);
        if r.Ok? {
          forall i | 0 <= i < |offs|
            ensures DecodePiece(file, offs[i], fuel) == Ok(r.value[i])
          {
            if i < |front| {
              assert offs[i] == front[i] && r.value[i] == prev.value[i];
            }
          }
        }
      }
    }
  }

  /** What a decoded piece holds: the record's name, offset and primitive
      type; its vertex records in order; the decoded draw order, empty exactly
      when the table has no entries; the vertex count; tangent sums of the
      pass over the piece; and one child per child-table word, decoded one
      level deeper, in table order. */
  lemma DecodedPieceFields(file: S3OFile, offset: int, fuel: nat)
    requires DecodePiece(file, offset, fuel).Ok?
    ensures fuel > 0 && offset in file.pieceAt
    ensures var rec := file.pieceAt[offset];
            var p := DecodePiece(file, offset, fuel).value;
            && CStringAt(file.bytes, rec.name) == Some(p.name)
            && p.offset == rec.offset && p.primitiveType == rec.primitiveType
            && |p.vertices| == Entries(rec.numVertices) && p.vertexCount == |p.vertices|
            && (forall i :: 0 <= i < |p.vertices| ==> p.vertices[i] == file.vertexAt[rec.vertices + VertexRecordSize * i])
            && TableInBounds(file.bytes, rec.vertexTable, rec.vertexTableSize)
            && p.vertexDrawOrder == DrawOrder.Decode(Words(file.bytes, rec.vertexTable, rec.vertexTableSize))
            && (p.isEmpty <==> rec.vertexTableSize <= 0)
            && Tangents.PassFault(p) == None
            && p.sTangents == Tangents.Accumulated(p) && p.tTangents == Tangents.Accumulated(p)
            && TableInBounds(file.bytes, rec.childs, rec.numChilds)
            && |p.children| == Entries(rec.numChilds)
            && (forall i :: 0 <= i < |p.children| ==>
                  DecodePiece(file, Words(file.bytes, rec.childs, rec.numChilds)[i], fuel - 1) == Ok(p.children[i]))
  {
    var rec := file.pieceAt[offset];
    var w := Words(file.bytes, rec.vertexTable, rec.vertexTableSize);
    DrawOrder.DecodeEmpty(w);
    var cw := ChildWords(file, offset);
    ChildrenDecoded(file, cw, fuel - 1);
    var cs := DecodeChildren(file, cw, fuel - 1).value;
    assert DecodePiece(file, offset, fuel).value.children == cs;
    assert cw == Words(file.bytes, rec.childs, rec.numChilds);
  }

  /** A loaded model: its root carries its own extents (the pass changes
      nothing more when run again), the model's extents are the root's, the
      root's collision box spans them, and the mid position is never below 1
      and keeps the header's value when that is at least 1. */
  lemma LoadedModelShape(name: string, files: map<string, S3OFile>, fuel: nat)
    requires DecodeModel(name, files, fuel).Ok?
    ensures var m := DecodeModel(name, files, fuel).value;
            var h := files[name].header;
            && Extents.WithExtents(m.root) == m.root
            && m.maxs == m.root.maxs && m.mins == m.root.mins
            && m.root.colvol == Some(Extents.BoxFor(m.mins, m.maxs))
            && m.relMidPos.x == h.midx && m.relMidPos.z == h.midz
            && m.relMidPos.y >= MinMidY
            && (h.midy >= MinMidY ==> m.relMidPos.y == h.midy)
  {
    var file := files[name];
    var raw := DecodePiece(file, file.header.rootPiece, fuel).value;
    Extents.WithExtentsIdempotent(raw);
  }

  /** The model's extents contain every vertex of the piece tree, each placed
      by the offsets of the pieces above it. */
  lemma ModelBoundsContainEveryVertex(name: string, files: map<string, S3OFile>, fuel: nat, q: Vec3)
    requires DecodeModel(name, files, fuel).Ok?
    requires Extents.InSubtree(DecodeModel(name, files, fuel).value.root, q)
    ensures var m := DecodeModel(name, files, fuel).value;
            Le(m.mins, q) && Le(q, m.maxs)
  {
    var m := DecodeModel(name, files, fuel).value;
    LoadedModelShape(name, files, fuel);
    Extents.SubtreeContained(m.root, q);
  }
}
