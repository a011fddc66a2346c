/** SS3OPiece::Shatter: one loop per primitive type over the draw order; each
    iteration draws a random float and, unless it exceeds the piece chance,
    hands four vertices, a random jitter of the speed and the caller's
    texture, team and position to the flying-piece registry. */
module Shatter {
  import opened S3OTypes

  /** The caller's parameters of one Shatter call. */
  datatype ShatterArgs = ShatterArgs(pieceChance: real, texType: int, team: int, pos: Vec3, speed: Vec3)

  /** What AddFlyingPiece receives; a triangle is sent as four vertices with
      its middle corner twice. */
  datatype FlyingPiece = FlyingPiece(texType: int, team: int, pos: Vec3, speed: Vec3, verts: seq<Vertex>)

  /** The fragments handed over, in order, and the read outside the draw
      order or the vertex array that stopped the call, if any. */
  datatype Shattered = Shattered(fragments: seq<FlyingPiece>, fault: Option<LoadError>)

  /** The flying-piece registry of the projectile handler. */
  class FlyingPieceRegistry {
    var pieces: seq<FlyingPiece>

    constructor ()
      ensures pieces == []
    {
      pieces := [];
    }

    method AddFlyingPiece(fp: FlyingPiece)
      modifies this
      ensures pieces == old(pieces) + [fp]
    {
      pieces := pieces + [fp];
    }
  }

  function FirstIndex(kind: int): nat
  {
    if kind == TriangleStrip then 2 else 0
  }

  function IndexStep(kind: int): nat
  {
    if kind == Triangles then 3 else if kind == Quads then 4 else 1
  }

  /** The loop index of iteration k. */
  function IndexOf(kind: int, k: nat): (i: nat)
    ensures i >= FirstIndex(kind) + k
  {
    if kind == Triangles then 3 * k
    else if kind == Quads then 4 * k
    else FirstIndex(kind) + k
  }

  /** Number of iterations over a draw order of n entries: iteration k runs
      exactly when its loop index is below n; an unknown type runs none. */
  function Iterations(kind: int, n: nat): (r: nat)
    ensures !(kind == Triangles || kind == TriangleStrip || kind == Quads) ==> r == 0
  {
    if kind == Triangles then (n + 2) / 3
    else if kind == TriangleStrip then (if n > 2 then n - 2 else 0)
    else if kind == Quads then (n + 3) / 4
    else 0
  }

  /** The four draw-order positions read at loop index i. */
  function Slots(kind: int, i: nat): (s: seq<int>)
    requires kind == TriangleStrip ==> i >= 2
    ensures |s| == 4 && s[3] >= i >= s[0] >= 0
    ensures forall j :: 0 <= j < 3 ==> s[j] <= s[j + 1]
    ensures kind == Triangles || kind == TriangleStrip ==> s[1] == s[2]
  {
    if kind == Triangles then [i, i + 1, i + 1, i + 2]
    else if kind == TriangleStrip then [i - 2, i - 1, i - 1, i]
    else [i, i + 1, i + 2, i + 3]
  }

  /** The vertices read at loop index i, or the read that leaves the draw
      order or the vertex array. */
  function FragmentVerts(p: Piece, i: nat): (r: Result<seq<Vertex>>)
    requires p.primitiveType == TriangleStrip ==> i >= 2
    ensures var s := Slots(p.primitiveType, i);
            r.Ok? <==> s[3] < |p.vertexDrawOrder|
                       && forall j :: 0 <= j < 4 ==> 0 <= p.vertexDrawOrder[s[j]] < |p.vertices|
    ensures r.Ok? ==> |r.value| == 4
    ensures r.Ok? ==> var s := Slots(p.primitiveType, i);
                      forall j :: 0 <= j < 4 ==> r.value[j] == p.vertices[p.vertexDrawOrder[s[j]]]
  {
    var s := Slots(p.primitiveType, i);
    if s[3] >= |p.vertexDrawOrder| then Err(DrawOrderOutOfRange(s[3]))
    else if exists j :: 0 <= j < 4 && !(0 <= p.vertexDrawOrder[s[j]] < |p.vertices|) then Err(VertexIndexOutOfRange)
    else Ok(seq(4, j requires 0 <= j < 4 => p.vertices[p.vertexDrawOrder[s[j]]]))
  }

  /** The first k iterations, given the random floats `samples` (one per
      iteration) and the random vectors `jitters` (one per fragment sent). */
  function Emit(p: Piece, args: ShatterArgs, samples: seq<real>, jitters: seq<Vec3>, k: nat): (r: Shattered)
    requires k <= |samples| && k <= |jitters|
    ensures |r.fragments| <= k
    decreases k
  {
    if k == 0 then Shattered([], None)
    else
      var prev := Emit(p, args, samples, jitters, k - 1);
      if prev.fault.Some? || samples[k - 1] > args.pieceChance then prev
      else match FragmentVerts(p, IndexOf(p.primitiveType, k - 1))
        case Err(e) => Shattered(prev.fragments, Some(e))
        case Ok(vs) =>
          var jitter := jitters[|prev.fragments|];
          Shattered(prev.fragments + [FlyingPiece(args.texType, args.team, args.pos, Add(args.speed, Scale(jitter, 2.0)), vs)], None)
  }

  /** The whole call. */
  function Shattering(p: Piece, args: ShatterArgs, samples: seq<real>, jitters: seq<Vec3>): Shattered
    requires Iterations(p.primitiveType, |p.vertexDrawOrder|) <= |samples|
    requires Iterations(p.primitiveType, |p.vertexDrawOrder|) <= |jitters|
  {
    Emit(p, args, samples, jitters, Iterations(p.primitiveType, |p.vertexDrawOrder|))
  }

  method Shatter(p: Piece, args: ShatterArgs, samples: seq<real>, jitters: seq<Vec3>, ph: FlyingPieceRegistry)
    returns (fault: Option<LoadError>)
    requires Iterations(p.primitiveType, |p.vertexDrawOrder|) <= |samples|
    requires Iterations(p.primitiveType, |p.vertexDrawOrder|) <= |jitters|
    modifies ph
    ensures ph.pieces == old(ph.pieces) + Shattering(p, args, samples, jitters).fragments
    ensures fault == Shattering(p, args, samples, jitters).fault
  {
    var kind := p.primitiveType;
    fault := None;
    if kind != Triangles && kind != TriangleStrip && kind != Quads {
      return;
    }
    ghost var total := Iterations(kind, |p.vertexDrawOrder|);
    ghost var before := ph.pieces;
    var sent := 0;
    var k := 0;
    var i := FirstIndex(kind);
    while i < |p.vertexDrawOrder|
      invariant k <= total && i == IndexOf(kind, k)
      invariant fault == None && Emit(p, args, samples, jitters, k).fault == None
      invariant ph.pieces == before + Emit(p, args, samples, jitters, k).fragments
      invariant sent == |Emit(p, args, samples, jitters, k).fragments|
      decreases |p.vertexDrawOrder| - i
    {
      IterationsRun(kind, |p.vertexDrawOrder|, k);
      IndexNext(kind, k);
      fault, sent := Iteration(p, args, samples, jitters, ph, k, i, sent, before);
      k := k + 1;
      if fault.Some? {
        FaultPersists(p, args, samples, jitters, k, total);
        return;
      }
      i := i + IndexStep(kind);
    }
    IterationsRun(kind, |p.vertexDrawOrder|, k);
  }

  /** One iteration at loop index i: draw the float and, unless it exceeds
      the chance, read the fragment and send it, or stop at the faulting read. */
  method Iteration(p: Piece, args: ShatterArgs, samples: seq<real>, jitters: seq<Vec3>, ph: FlyingPieceRegistry,
                   k: nat, i: nat, sent: nat, ghost before: seq<FlyingPiece>)
    returns (fault: Option<LoadError>, sentNow: nat)
    requires k < |samples| && k < |jitters| && i == IndexOf(p.primitiveType, k)
    requires Emit(p, args, samples, jitters, k).fault == None
    requires ph.pieces == before + Emit(p, args, samples, jitters, k).fragments
    requires sent == |Emit(p, args, samples, jitters, k).fragments|
    modifies ph
    ensures ph.pieces == before + Emit(p, args, samples, jitters, k + 1).fragments
    ensures fault == Emit(p, args, samples, jitters, k + 1).fault
    ensures sentNow == |Emit(p, args, samples, jitters, k + 1).fragments|
  {
    ghost var prev := Emit(p, args, samples, jitters, k);
    fault, sentNow := None, sent;
    if samples[k] > args.pieceChance {
      assert Emit(p, args, samples, jitters, k + 1) == prev;
      return;
    }
    var verts := FragmentVerts(p, i);
    if verts.Err? {
      fault := Some(verts.error);
      assert Emit(p, args, samples, jitters, k + 1) == Shattered(prev.fragments, fault);
      return;
    }
    var fp := FlyingPiece(args.texType, args.team, args.pos, Add(args.speed, Scale(jitters[sent], 2.0)), verts.value);
    assert Emit(p, args, samples, jitters, k + 1) == Shattered(prev.fragments + [fp], None);
    ph.AddFlyingPiece(fp);
    sentNow := sent + 1;
  }

  /** For a known type, iteration k runs exactly when its loop index is below
      the draw-order size. */
  lemma IterationsRun(kind: int, n: nat, k: nat)
    requires kind == Triangles || kind == TriangleStrip || kind == Quads
    ensures k < Iterations(kind, n) <==> IndexOf(kind, k) < n
  {
  }

  /** Iteration 0 runs at the first index and each iteration advances by the step. */
  lemma IndexNext(kind: int, k: nat)
    ensures IndexOf(kind, 0) == FirstIndex(kind)
    ensures IndexOf(kind, k + 1) == IndexOf(kind, k) + IndexStep(kind)
  {
  }

  /** Once a read has faulted, later iterations add nothing. */
  lemma {:induction false} FaultPersists(p: Piece, args: ShatterArgs, samples: seq<real>, jitters: seq<Vec3>, k: nat, m: nat)
    requires k <= m <= |samples| && m <= |jitters|
    requires Emit(p, args, samples, jitters, k).fault.Some?
    ensures Emit(p, args, samples, jitters, m) == Emit(p, args, samples, jitters, k)
    decreases m - k
  {
    if k < m {
      FaultPersists(p, args, samples, jitters, k + 1, m);
    }
  }

  /** Number of the first k iterations whose random float does not exceed the chance. */
  function Drawn(samples: seq<real>, chance: real, k: nat): (r: nat)
    requires k <= |samples|
    ensures r <= k
  {
    if k == 0 then 0
    else Drawn(samples, chance, k - 1) + (if samples[k - 1] <= chance then 1 else 0)
  }

  /** Every iteration is drawn when every float is within the chance, and none
      when none is. */
  lemma {:induction false} DrawnBounds(samples: seq<real>, chance: real, k: nat)
    requires k <= |samples|
    ensures (forall j :: 0 <= j < k ==> samples[j] <= chance) ==> Drawn(samples, chance, k) == k
    ensures (forall j :: 0 <= j < k ==> samples[j] > chance) ==> Drawn(samples, chance, k) == 0
  {
    if k > 0 {
      DrawnBounds(samples, chance, k - 1);
    }
  }

  /** Every drawn iteration among the first k reads inside the draw order and
      the vertex array. */
  predicate DrawnReadsFit(p: Piece, args: ShatterArgs, samples: seq<real>, k: nat)
    requires k <= |samples|
  {
    forall j :: 0 <= j < k && samples[j] <= args.pieceChance ==>
      FragmentVerts(p, IndexOf(p.primitiveType, j)).Ok?
  }

  lemma DrawnReadsStep(p: Piece, args: ShatterArgs, samples: seq<real>, k: nat)
    requires 0 < k <= |samples|
    ensures DrawnReadsFit(p, args, samples, k) <==>
              DrawnReadsFit(p, args, samples, k - 1)
              && (samples[k - 1] <= args.pieceChance ==> FragmentVerts(p, IndexOf(p.primitiveType, k - 1)).Ok?)
  {
  }

  /** The call faults exactly when some drawn iteration reads outside the draw
      order or the vertex array; otherwise it sends one fragment per drawn
      iteration. */
  lemma {:induction false} EmitCount(p: Piece, args: ShatterArgs, samples: seq<real>, jitters: seq<Vec3>, k: nat)
    requires k <= |samples| && k <= |jitters|
    ensures Emit(p, args, samples, jitters, k).fault.None? <==> DrawnReadsFit(p, args, samples, k)
    ensures Emit(p, args, samples, jitters, k).fault.None? ==>
              |Emit(p, args, samples, jitters, k).fragments| == Drawn(samples, args.pieceChance, k)
    decreases k
  {
    if k > 0 {
      EmitCount(p, args, samples, jitters, k - 1);
      DrawnReadsStep(p, args, samples, k);
      var prev := Emit(p, args, samples, jitters, k - 1);
      var fv := FragmentVerts(p, IndexOf(p.primitiveType, k - 1));
      if prev.fault.Some? || samples[k - 1] > args.pieceChance {
        assert Emit(p, args, samples, jitters, k) == prev;
      } else if fv.Err? {
        assert Emit(p, args, samples, jitters, k).fault.Some?;
      } else {
        assert Emit(p, args, samples, jitters, k).fault.None?;
        assert |Emit(p, args, samples, jitters, k).fragments| == |prev.fragments| + 1;
      }
    }
  }

  /** The iterations among the first k whose random float does not exceed
      the chance, in increasing order. */
  function DrawnIterations(samples: seq<real>, chance: real, k: nat): (d: seq<nat>)
    requires k <= |samples|
    ensures |d| <= k
  {
    if k == 0 then []
    else DrawnIterations(samples, chance, k - 1) + (if samples[k - 1] <= chance then [k - 1] else [])
  }

  /** There are Drawn of them. */
  lemma {:induction false} DrawnIterationsCount(samples: seq<real>, chance: real, k: nat)
    requires k <= |samples|
    ensures |DrawnIterations(samples, chance, k)| == Drawn(samples, chance, k)
  {
    if k > 0 {
      DrawnIterationsCount(samples, chance, k - 1);
    }
  }

  /** The drawn iterations below k - 1 come first, then k - 1 if it is drawn. */
  lemma DrawnPrefix(samples: seq<real>, chance: real, k: nat)
    requires 0 < k <= |samples|
    ensures var d0, d := DrawnIterations(samples, chance, k - 1), DrawnIterations(samples, chance, k);
            && |d| == |d0| + (if samples[k - 1] <= chance then 1 else 0)
            && (forall a :: 0 <= a < |d0| ==> d[a] == d0[a])
            && (samples[k - 1] <= chance ==> d[|d0|] == k - 1)
  {
  }

  /** They are exactly the drawn iterations below k, each once, in order. */
  lemma {:induction false} DrawnIterationsExactly(samples: seq<real>, chance: real, k: nat)
    requires k <= |samples|
    ensures var d := DrawnIterations(samples, chance, k);
            forall a :: 0 <= a < |d| ==> d[a] < k && samples[d[a]] <= chance
    ensures var d := DrawnIterations(samples, chance, k);
            forall a, b :: 0 <= a < b < |d| ==> d[a] < d[b]
    ensures var d := DrawnIterations(samples, chance, k);
            forall j :: 0 <= j < k && samples[j] <= chance ==> j in d
  {
    if k > 0 {
      DrawnIterationsExactly(samples, chance, k - 1);
      DrawnPrefix(samples, chance, k);
      var d0 := DrawnIterations(samples, chance, k - 1);
      var d := DrawnIterations(samples, chance, k);
      forall a | 0 <= a < |d|
        ensures d[a] < k && samples[d[a]] <= chance
      {
        if a < |d0| {
          assert d[a] == d0[a];
        }
      }
      forall a, b | 0 <= a < b < |d|
        ensures d[a] < d[b]
      {
        if b < |d0| {
          assert d[a] == d0[a] && d[b] == d0[b];
        } else {
          assert d[a] == d0[a] < k - 1;
        }
      }
      forall j | 0 <= j < k && samples[j] <= chance
        ensures j in d
      {
        if j < k - 1 {
          var a :| 0 <= a < |d0| && d0[a] == j;
          assert d[a] == j;
        } else {
          assert d[|d0|] == j;
        }
      }
    }
  }

  /** Fragment f, sent m-th, carries the caller's texture, team and position,
      the speed jittered by twice the m-th random vector, and the vertices
      read at iteration j. */
  predicate SentFrom(p: Piece, args: ShatterArgs, jitters: seq<Vec3>, f: FlyingPiece, m: nat, j: nat)
    requires m < |jitters|
  {
    f.texType == args.texType && f.team == args.team && f.pos == args.pos
    && f.speed == Add(args.speed, Scale(jitters[m], 2.0))
    && FragmentVerts(p, IndexOf(p.primitiveType, j)) == Ok(f.verts)
  }

  /** The fragments of e are those of the drawn iterations d, in order, each
      with its own jitter: all of them when e has no fault, and otherwise
      those before the first drawn iteration whose read faults, which gives
      the fault. */
  predicate FromDrawn(p: Piece, args: ShatterArgs, jitters: seq<Vec3>, e: Shattered, d: seq<nat>)
  {
    && |e.fragments| <= |d| && |e.fragments| <= |jitters|
    && (forall m :: 0 <= m < |e.fragments| ==> SentFrom(p, args, jitters, e.fragments[m], m, d[m]))
    && (e.fault.None? ==> |e.fragments| == |d|)
    && (e.fault.Some? ==> |e.fragments| < |d|
                          && FragmentVerts(p, IndexOf(p.primitiveType, d[|e.fragments|])) == Err(e.fault.value))
  }

  /** The m-th fragment sent comes from the m-th drawn iteration. Without a
      fault every drawn iteration sends one; with one, the fragments are those
      of the drawn iterations before the first whose read faults, and the
      fault is that read's. */
  lemma {:induction false} EmitOrigin(p: Piece, args: ShatterArgs, samples: seq<real>, jitters: seq<Vec3>, k: nat)
    requires k <= |samples| && k <= |jitters|
    ensures FromDrawn(p, args, jitters, Emit(p, args, samples, jitters, k), DrawnIterations(samples, args.pieceChance, k))
    decreases k
  {
    if k > 0 {
      EmitOrigin(p, args, samples, jitters, k - 1);
      EmitStep(p, args, samples, jitters, k);
      DrawnPrefix(samples, args.pieceChance, k);
      OriginStep(p, args, jitters, k, samples[k - 1] <= args.pieceChance,
                 FragmentVerts(p, IndexOf(p.primitiveType, k - 1)),
                 Emit(p, args, samples, jitters, k - 1), Emit(p, args, samples, jitters, k),
                 DrawnIterations(samples, args.pieceChance, k - 1), DrawnIterations(samples, args.pieceChance, k));
    }
  }

  /** Iteration k - 1 keeps FromDrawn: e is the result after it, prev the one
      before, and d0, d the drawn iterations before and after it. */
  lemma OriginStep(p: Piece, args: ShatterArgs, jitters: seq<Vec3>, k: nat, drawn: bool,
                   fv: Result<seq<Vertex>>, prev: Shattered, e: Shattered, d0: seq<nat>, d: seq<nat>)
    requires 0 < k <= |jitters| && |d0| < k
    requires fv == FragmentVerts(p, IndexOf(p.primitiveType, k - 1))
    requires FromDrawn(p, args, jitters, prev, d0)
    requires |d| == |d0| + (if drawn then 1 else 0)
    requires forall a :: 0 <= a < |d0| ==> d[a] == d0[a]
    requires drawn ==> d[|d0|] == k - 1
    requires e == if prev.fault.Some? || !drawn then prev
                  else if fv.Err? then Shattered(prev.fragments, Some(fv.error))
                  else Shattered(prev.fragments + [FlyingPiece(args.texType, args.team, args.pos,
                                                               Add(args.speed, Scale(jitters[|prev.fragments|], 2.0)), fv.value)], None)
    ensures FromDrawn(p, args, jitters, e, d)
  {
    forall m | 0 <= m < |e.fragments|
      ensures SentFrom(p, args, jitters, e.fragments[m], m, d[m])
    {
      if m < |prev.fragments| {
        assert e.fragments[m] == prev.fragments[m] && d[m] == d0[m];
      }
    }
    if e.fault.Some? && prev.fault.Some? {
      assert d[|e.fragments|] == d0[|e.fragments|];
    }
  }

  /** One more iteration: nothing changes after a fault or an undrawn float;
      otherwise the read's fault, or its fragment appended. */
  lemma EmitStep(p: Piece, args: ShatterArgs, samples: seq<real>, jitters: seq<Vec3>, k: nat)
    requires 0 < k <= |samples| && k <= |jitters|
    ensures var prev, fv := Emit(p, args, samples, jitters, k - 1), FragmentVerts(p, IndexOf(p.primitiveType, k - 1));
            Emit(p, args, samples, jitters, k)
            == if prev.fault.Some? || samples[k - 1] > args.pieceChance then prev
               else if fv.Err? then Shattered(prev.fragments, Some(fv.error))
               else Shattered(prev.fragments + [FlyingPiece(args.texType, args.team, args.pos,
                                                            Add(args.speed, Scale(jitters[|prev.fragments|], 2.0)), fv.value)], None)
  {
  }

  /** Triangle and strip fragments are triangles: their second and third
      vertices are the same. */
  lemma FragmentsRepeatMiddleCorner(p: Piece, args: ShatterArgs, samples: seq<real>, jitters: seq<Vec3>, k: nat)
    requires k <= |samples| && k <= |jitters|
    requires p.primitiveType == Triangles || p.primitiveType == TriangleStrip
    ensures var fs := Emit(p, args, samples, jitters, k).fragments;
            forall m :: 0 <= m < |fs| ==> |fs[m].verts| == 4 && fs[m].verts[1] == fs[m].verts[2]
  {
    EmitOrigin(p, args, samples, jitters, k);
    var fs := Emit(p, args, samples, jitters, k).fragments;
    var d := DrawnIterations(samples, args.pieceChance, k);
    forall m | 0 <= m < |fs|
      ensures |fs[m].verts| == 4 && fs[m].verts[1] == fs[m].verts[2]
    {
      assert SentFrom(p, args, jitters, fs[m], m, d[m]);
      var s := Slots(p.primitiveType, IndexOf(p.primitiveType, d[m]));
      assert fs[m].verts[1] == p.vertices[p.vertexDrawOrder[s[1]]];
      assert fs[m].verts[2] == p.vertices[p.vertexDrawOrder[s[2]]];
    }
  }

  /** A draw order that fills whole primitives with indices of existing
      vertices never faults, whatever the random draws. */
  lemma WellFormedNeverFaults(p: Piece, args: ShatterArgs, samples: seq<real>, jitters: seq<Vec3>)
    requires Iterations(p.primitiveType, |p.vertexDrawOrder|) <= |samples|
    requires Iterations(p.primitiveType, |p.vertexDrawOrder|) <= |jitters|
    requires p.primitiveType == Triangles ==> |p.vertexDrawOrder| % 3 == 0
    requires p.primitiveType == Quads ==> |p.vertexDrawOrder| % 4 == 0
    requires forall k :: 0 <= k < |p.vertexDrawOrder| ==> 0 <= p.vertexDrawOrder[k] < |p.vertices|
    ensures Shattering(p, args, samples, jitters).fault == None
    ensures |Shattering(p, args, samples, jitters).fragments|
            == Drawn(samples, args.pieceChance, Iterations(p.primitiveType, |p.vertexDrawOrder|))
  {
    var kind, n := p.primitiveType, |p.vertexDrawOrder|;
    var total := Iterations(kind, n);
    forall j | 0 <= j < total
      ensures FragmentVerts(p, IndexOf(kind, j)).Ok?
    {
      IterationsRun(kind, n, j);
      var s := Slots(kind, IndexOf(kind, j));
      assert s[3] < n;
      assert forall t :: 0 <= t < 4 ==> 0 <= s[t] < n;
    }
    EmitCount(p, args, samples, jitters, total);
  }

  /** A strip whose draw order holds a restart reads vertex -1 when the
      window over the restart is drawn: the strip table [0, 1, -1, 2] decodes
      to [0, 1, -1, -1, 2, 2], and the iteration at index 2 reads draw-order
      entries 0, 1, 1 and 2, the last of which is the restart -1. */
  lemma StripRestartReadsOutside(vs: seq<Vertex>, args: ShatterArgs)
    requires |vs| == 3 && args.pieceChance >= 0.0
    ensures var p := Piece([], ZeroVector, TriangleStrip, vs, [0, 1, -1, -1, 2, 2], false, 3,
                           [], [], [], ZeroVector, ZeroVector, None);
            Shattering(p, args, [0.0, 0.0, 0.0, 0.0], [ZeroVector, ZeroVector, ZeroVector, ZeroVector])
            == Shattered([], Some(VertexIndexOutOfRange))
  {
    var p := Piece([], ZeroVector, TriangleStrip, vs, [0, 1, -1, -1, 2, 2], false, 3,
                   [], [], [], ZeroVector, ZeroVector, None);
    var samples, jitters := [0.0, 0.0, 0.0, 0.0], [ZeroVector, ZeroVector, ZeroVector, ZeroVector];
    assert FragmentVerts(p, 2) == Err(VertexIndexOutOfRange);
    assert Emit(p, args, samples, jitters, 1) == Shattered([], Some(VertexIndexOutOfRange));
    FaultPersists(p, args, samples, jitters, 1, 4);
  }
}
