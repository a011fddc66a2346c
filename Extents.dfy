/** CS3OParser::FindMinMax: a post-order pass that gives every piece the
    componentwise extents of its own vertex positions and of its children's
    extents translated by the children's offsets, starting from the sentinels
    -1000 (for the maximum) and 10000 (for the minimum), and a box collision
    volume spanning those extents. */
module Extents {
  import opened S3OTypes

  const MaxSentinel: Vec3 := Vec3(-1000.0, -1000.0, -1000.0)
  const MinSentinel: Vec3 := Vec3(10000.0, 10000.0, 10000.0)

  /** std::max: the larger of the two, the first when they are equal. */
  function Max(a: real, b: real): (r: real)
    ensures a <= r && b <= r && (r == a || r == b)
  {
    if a < b then b else a
  }

  /** std::min: the smaller of the two, the first when they are equal. */
  function Min(a: real, b: real): (r: real)
    ensures r <= a && r <= b && (r == a || r == b)
  {
    if b < a then b else a
  }

  function Max3(a: Vec3, b: Vec3): Vec3 { Vec3(Max(a.x, b.x), Max(a.y, b.y), Max(a.z, b.z)) }
  function Min3(a: Vec3, b: Vec3): Vec3 { Vec3(Min(a.x, b.x), Min(a.y, b.y), Min(a.z, b.z)) }

  /** The running maximum after folding ps, in order, into init. */
  function FoldMax(ps: seq<Vec3>, init: Vec3): Vec3
  {
    if ps == [] then init else Max3(FoldMax(ps[..|ps| - 1], init), ps[|ps| - 1])
  }

  /** The running minimum after folding ps, in order, into init. */
  function FoldMin(ps: seq<Vec3>, init: Vec3): Vec3
  {
    if ps == [] then init else Min3(FoldMin(ps[..|ps| - 1], init), ps[|ps| - 1])
  }

  function Positions(vs: seq<Vertex>): seq<Vec3>
  {
    seq(|vs|, i requires 0 <= i < |vs| => vs[i].pos)
  }

  /** offset + maxs of each child. */
  function UpperCorners(cs: seq<Piece>): seq<Vec3>
  {
    seq(|cs|, i requires 0 <= i < |cs| => Add(cs[i].offset, cs[i].maxs))
  }

  /** offset + mins of each child. */
  function LowerCorners(cs: seq<Piece>): seq<Vec3>
  {
    seq(|cs|, i requires 0 <= i < |cs| => Add(cs[i].offset, cs[i].mins))
  }

  /** The box volume of the extents: scales maxs - mins, offset their midpoint,
      so the box reaches from exactly mins to exactly maxs. */
  function BoxFor(mins: Vec3, maxs: Vec3): (b: CollisionBox)
    ensures b.shape == "box" && b.enabled
    ensures Sub(b.offset, Scale(b.scales, 0.5)) == mins
    ensures Add(b.offset, Scale(b.scales, 0.5)) == maxs
  {
    CollisionBox("box", Sub(maxs, mins), Scale(Add(maxs, mins), 0.5), true)
  }

  /** Upper extent of a piece with vertices vs whose children are cs. */
  function ExtentsMax(vs: seq<Vertex>, cs: seq<Piece>): Vec3
  {
    FoldMax(UpperCorners(cs), FoldMax(Positions(vs), MaxSentinel))
  }

  /** Lower extent of a piece with vertices vs whose children are cs. */
  function ExtentsMin(vs: seq<Vertex>, cs: seq<Piece>): Vec3
  {
    FoldMin(LowerCorners(cs), FoldMin(Positions(vs), MinSentinel))
  }

  /** p with children cs and the extents and box computed over them. */
  function Fitted(p: Piece, cs: seq<Piece>): Piece
  {
    var maxs := ExtentsMax(p.vertices, cs);
    var mins := ExtentsMin(p.vertices, cs);
    p.(children := cs, maxs := maxs, mins := mins, colvol := Some(BoxFor(mins, maxs)))
  }

  /** The tree after FindMinMax: children first, then the piece itself. */
  function WithExtents(p: Piece): Piece
    decreases p
  {
    Fitted(p, seq(|p.children|, i requires 0 <= i < |p.children| => WithExtents(p.children[i])))
  }

  method FindMinMax(o: Piece) returns (r: Piece)
    ensures r == WithExtents(o)
    decreases o
  {
    var childs: seq<Piece> := [];
    var i := 0;
    while i < |o.children|
      invariant 0 <= i <= |o.children| && |childs| == i
      invariant forall j :: 0 <= j < i ==> childs[j] == WithExtents(o.children[j])
    {
      var c := FindMinMax(o.children[i]);
      childs := childs + [c];
      i := i + 1;
    }
    var maxs, mins := VertexExtents(o.vertices);
    maxs, mins := ChildExtents(childs, maxs, mins);
    assert childs == seq(|o.children|, j requires 0 <= j < |o.children| => WithExtents(o.children[j]));
    r := o.(children := childs, maxs := maxs, mins := mins, colvol := Some(BoxFor(mins, maxs)));
  }

  /** The running extents over a piece's own vertex positions, from the sentinels. */
  method VertexExtents(vs: seq<Vertex>) returns (maxs: Vec3, mins: Vec3)
    ensures maxs == FoldMax(Positions(vs), MaxSentinel)
    ensures mins == FoldMin(Positions(vs), MinSentinel)
  {
    ghost var positions := Positions(vs);
    maxs, mins := MaxSentinel, MinSentinel;
    var k := 0;
    while k < |vs|
      invariant 0 <= k <= |vs|
      invariant maxs == FoldMax(positions[..k], MaxSentinel)
      invariant mins == FoldMin(positions[..k], MinSentinel)
    {
      assert positions[..k + 1][..k] == positions[..k];
      maxs := Max3(maxs, vs[k].pos);
      mins := Min3(mins, vs[k].pos);
      k := k + 1;
    }
    assert positions[..k] == positions;
  }

  /** The running extents continued over the translated extents of the children. */
  method ChildExtents(cs: seq<Piece>, maxs0: Vec3, mins0: Vec3) returns (maxs: Vec3, mins: Vec3)
    ensures maxs == FoldMax(UpperCorners(cs), maxs0)
    ensures mins == FoldMin(LowerCorners(cs), mins0)
  {
    ghost var uppers, lowers := UpperCorners(cs), LowerCorners(cs);
    maxs, mins := maxs0, mins0;
    var i := 0;
    while i < |cs|
      invariant 0 <= i <= |cs|
      invariant maxs == FoldMax(uppers[..i], maxs0)
      invariant mins == FoldMin(lowers[..i], mins0)
    {
      assert uppers[..i + 1][..i] == uppers[..i];
      assert lowers[..i + 1][..i] == lowers[..i];
      maxs := Max3(maxs, Add(cs[i].offset, cs[i].maxs));
      mins := Min3(mins, Add(cs[i].offset, cs[i].mins));
      i := i + 1;
    }
    assert uppers[..i] == uppers && lowers[..i] == lowers;
  }

  /** The fold computes the componentwise maximum: it bounds init and every
      element from above, and each component is init's or some element's. */
  lemma {:induction false} FoldMaxIsMax(ps: seq<Vec3>, init: Vec3)
    ensures Le(init, FoldMax(ps, init))
    ensures forall i :: 0 <= i < |ps| ==> Le(ps[i], FoldMax(ps, init))
    ensures var m := FoldMax(ps, init);
            (m.x == init.x || exists i :: 0 <= i < |ps| && m.x == ps[i].x)
            && (m.y == init.y || exists i :: 0 <= i < |ps| && m.y == ps[i].y)
            && (m.z == init.z || exists i :: 0 <= i < |ps| && m.z == ps[i].z)
  {
    if ps != [] {
      var front := ps[..|ps| - 1];
      FoldMaxIsMax(front, init);
      assert forall i :: 0 <= i < |front| ==> front[i] == ps[i];
    }
  }

  /** The fold computes the componentwise minimum. */
  lemma {:induction false} FoldMinIsMin(ps: seq<Vec3>, init: Vec3)
    ensures Le(FoldMin(ps, init), init)
    ensures forall i :: 0 <= i < |ps| ==> Le(FoldMin(ps, init), ps[i])
    ensures var m := FoldMin(ps, init);
            (m.x == init.x || exists i :: 0 <= i < |ps| && m.x == ps[i].x)
            && (m.y == init.y || exists i :: 0 <= i < |ps| && m.y == ps[i].y)
            && (m.z == init.z || exists i :: 0 <= i < |ps| && m.z == ps[i].z)
  {
    if ps != [] {
      var front := ps[..|ps| - 1];
      FoldMinIsMin(front, init);
      assert forall i :: 0 <= i < |front| ==> front[i] == ps[i];
    }
  }

  /** The extents over vertices vs and children cs contain the sentinel box,
      every vertex position and every child's extents translated by its
      offset; with neither vertices nor children they are the sentinels. */
  lemma ExtentsBound(vs: seq<Vertex>, cs: seq<Piece>)
    ensures Le(MaxSentinel, ExtentsMax(vs, cs)) && Le(ExtentsMin(vs, cs), MinSentinel)
    ensures forall v :: v in vs ==> Le(ExtentsMin(vs, cs), v.pos) && Le(v.pos, ExtentsMax(vs, cs))
    ensures forall i :: 0 <= i < |cs| ==>
              Le(ExtentsMin(vs, cs), Add(cs[i].offset, cs[i].mins))
              && Le(Add(cs[i].offset, cs[i].maxs), ExtentsMax(vs, cs))
    ensures vs == [] && cs == [] ==> ExtentsMax(vs, cs) == MaxSentinel && ExtentsMin(vs, cs) == MinSentinel
  {
    var pos := Positions(vs);
    FoldMaxIsMax(pos, MaxSentinel);
    FoldMinIsMin(pos, MinSentinel);
    FoldMaxIsMax(UpperCorners(cs), FoldMax(pos, MaxSentinel));
    FoldMinIsMin(LowerCorners(cs), FoldMin(pos, MinSentinel));
    forall v | v in vs
      ensures Le(ExtentsMin(vs, cs), v.pos) && Le(v.pos, ExtentsMax(vs, cs))
    {
      var k :| 0 <= k < |vs| && vs[k] == v;
      assert pos[k] == v.pos;
    }
    forall i | 0 <= i < |cs|
      ensures Le(ExtentsMin(vs, cs), Add(cs[i].offset, cs[i].mins))
      ensures Le(Add(cs[i].offset, cs[i].maxs), ExtentsMax(vs, cs))
    {
      assert UpperCorners(cs)[i] == Add(cs[i].offset, cs[i].maxs);
      assert LowerCorners(cs)[i] == Add(cs[i].offset, cs[i].mins);
    }
    if vs == [] {
      assert pos == [];
    }
    if cs == [] {
      assert UpperCorners(cs) == [] && LowerCorners(cs) == [];
    }
  }

  /** The translated extents of child i lie inside the extents over vs and cs. */
  lemma ChildCornerInside(vs: seq<Vertex>, cs: seq<Piece>, i: nat)
    requires i < |cs|
    ensures Le(ExtentsMin(vs, cs), Add(cs[i].offset, cs[i].mins))
    ensures Le(Add(cs[i].offset, cs[i].maxs), ExtentsMax(vs, cs))
  {
    FoldMaxIsMax(UpperCorners(cs), FoldMax(Positions(vs), MaxSentinel));
    FoldMinIsMin(LowerCorners(cs), FoldMin(Positions(vs), MinSentinel));
    assert UpperCorners(cs)[i] == Add(cs[i].offset, cs[i].maxs);
    assert LowerCorners(cs)[i] == Add(cs[i].offset, cs[i].mins);
  }

  /** Vertex k's position lies inside the extents over vs and cs. */
  lemma VertexInside(vs: seq<Vertex>, cs: seq<Piece>, k: nat)
    requires k < |vs|
    ensures Le(ExtentsMin(vs, cs), vs[k].pos) && Le(vs[k].pos, ExtentsMax(vs, cs))
  {
    var pos := Positions(vs);
    FoldMaxIsMax(pos, MaxSentinel);
    FoldMinIsMin(pos, MinSentinel);
    FoldMaxIsMax(UpperCorners(cs), FoldMax(pos, MaxSentinel));
    FoldMinIsMin(LowerCorners(cs), FoldMin(pos, MinSentinel));
    assert pos[k] == vs[k].pos;
  }

  /** Extents of one piece after the pass: its children are the children
      after the pass, in order, and its extents and box are computed over
      its own vertices and those children (see ExtentsBound). */
  lemma ExtentsOfPiece(p: Piece)
    ensures var r := WithExtents(p);
            && |r.children| == |p.children|
            && (forall i :: 0 <= i < |r.children| ==> r.children[i] == WithExtents(p.children[i]))
            && r.maxs == ExtentsMax(p.vertices, r.children)
            && r.mins == ExtentsMin(p.vertices, r.children)
            && r.colvol == Some(BoxFor(r.mins, r.maxs))
            && Le(MaxSentinel, r.maxs) && Le(r.mins, MinSentinel)
            && (forall v :: v in p.vertices ==> Le(r.mins, v.pos) && Le(v.pos, r.maxs))
            && (forall i :: 0 <= i < |r.children| ==>
                  Le(r.mins, Add(r.children[i].offset, r.children[i].mins))
                  && Le(Add(r.children[i].offset, r.children[i].maxs), r.maxs))
  {
    ExtentsBound(p.vertices, WithExtents(p).children);
  }

  /** Each component of the upper extent is attained: it is -1000 or that
      component of an own vertex position or of a translated child maximum,
      so with ExtentsBound the extents are the least box holding those points
      and the sentinel corner. */
  lemma MaxAttained(vs: seq<Vertex>, cs: seq<Piece>)
    ensures var m := ExtentsMax(vs, cs);
            var pts := Positions(vs) + UpperCorners(cs);
            (m.x == MaxSentinel.x || exists i :: 0 <= i < |pts| && m.x == pts[i].x)
            && (m.y == MaxSentinel.y || exists i :: 0 <= i < |pts| && m.y == pts[i].y)
            && (m.z == MaxSentinel.z || exists i :: 0 <= i < |pts| && m.z == pts[i].z)
  {
    var pos, up := Positions(vs), UpperCorners(cs);
    var pts := pos + up;
    FoldMaxIsMax(pos, MaxSentinel);
    FoldMaxIsMax(up, FoldMax(pos, MaxSentinel));
    assert forall i :: 0 <= i < |pos| ==> pts[i] == pos[i];
    assert forall i :: 0 <= i < |up| ==> pts[|pos| + i] == up[i];
  }

  /** Each component of the lower extent is attained likewise, or is 10000. */
  lemma MinAttained(vs: seq<Vertex>, cs: seq<Piece>)
    ensures var m := ExtentsMin(vs, cs);
            var pts := Positions(vs) + LowerCorners(cs);
            (m.x == MinSentinel.x || exists i :: 0 <= i < |pts| && m.x == pts[i].x)
            && (m.y == MinSentinel.y || exists i :: 0 <= i < |pts| && m.y == pts[i].y)
            && (m.z == MinSentinel.z || exists i :: 0 <= i < |pts| && m.z == pts[i].z)
  {
    var pos, low := Positions(vs), LowerCorners(cs);
    var pts := pos + low;
    FoldMinIsMin(pos, MinSentinel);
    FoldMinIsMin(low, FoldMin(pos, MinSentinel));
    assert forall i :: 0 <= i < |pos| ==> pts[i] == pos[i];
    assert forall i :: 0 <= i < |low| ==> pts[|pos| + i] == low[i];
  }

  /** A point of the subtree rooted at p, in p's frame: one of p's vertices or
      a point of a child's subtree translated by that child's offset. */
  ghost predicate InSubtree(p: Piece, q: Vec3)
    decreases p
  {
    (exists k :: 0 <= k < |p.vertices| && p.vertices[k].pos == q)
    || (exists i :: 0 <= i < |p.children| && InSubtree(p.children[i], Sub(q, p.children[i].offset)))
  }

  /** The extents of child i after the pass, placed by its offset, lie
      inside the piece's extents. */
  lemma ChildInside(p: Piece, i: nat)
    requires i < |p.children|
    ensures var r := WithExtents(p);
            var c := WithExtents(p.children[i]);
            Le(r.mins, Add(p.children[i].offset, c.mins)) && Le(Add(p.children[i].offset, c.maxs), r.maxs)
  {
    var r := WithExtents(p);
    var c := WithExtents(p.children[i]);
    assert r.children[i] == c;
    assert c.offset == p.children[i].offset;
    assert r.mins == ExtentsMin(p.vertices, r.children) && r.maxs == ExtentsMax(p.vertices, r.children);
    ChildCornerInside(p.vertices, r.children, i);
  }

  /** The extents bound the whole subtree: every vertex of every descendant,
      placed by the chain of child offsets, lies inside the piece's box. */
  lemma {:induction false} SubtreeContained(p: Piece, q: Vec3)
    requires InSubtree(p, q)
    ensures Le(WithExtents(p).mins, q) && Le(q, WithExtents(p).maxs)
    decreases p
  {
    var r := WithExtents(p);
    if k :| 0 <= k < |p.vertices| && p.vertices[k].pos == q {
      assert r.mins == ExtentsMin(p.vertices, r.children) && r.maxs == ExtentsMax(p.vertices, r.children);
      VertexInside(p.vertices, r.children, k);
    } else {
      var i :| 0 <= i < |p.children| && InSubtree(p.children[i], Sub(q, p.children[i].offset));
      var c := p.children[i];
      var local := Sub(q, c.offset);
      SubtreeContained(c, local);
      ChildInside(p, i);
      assert q == Add(c.offset, local);
    }
  }

  /** The pass leaves the tree's shape and geometry alone. */
  lemma {:induction false} WithExtentsKeepsShape(p: Piece)
    ensures var r := WithExtents(p);
            r.vertices == p.vertices && r.vertexDrawOrder == p.vertexDrawOrder
            && r.offset == p.offset && r.primitiveType == p.primitiveType
            && r.sTangents == p.sTangents && r.tTangents == p.tTangents
            && PieceCount(r) == PieceCount(p)
    decreases p
  {
    var r := WithExtents(p);
    forall i | 0 <= i < |p.children|
      ensures PieceCount(r.children[i]) == PieceCount(p.children[i])
    {
      WithExtentsKeepsShape(p.children[i]);
    }
    var a := seq(|r.children|, i requires 0 <= i < |r.children| => PieceCount(r.children[i]));
    var b := seq(|p.children|, i requires 0 <= i < |p.children| => PieceCount(p.children[i]));
    assert a == b;
  }

  /** Running the pass twice gives the same tree as running it once. */
  lemma {:induction false} WithExtentsIdempotent(p: Piece)
    ensures WithExtents(WithExtents(p)) == WithExtents(p)
    decreases p
  {
    var r := WithExtents(p);
    var rr := WithExtents(r);
    forall i | 0 <= i < |p.children|
      ensures rr.children[i] == r.children[i]
    {
      WithExtentsIdempotent(p.children[i]);
    }
    assert rr.children == r.children;
  }
}
