/** The triangle schedule and accumulation of CS3OParser::SetVertexTangents.
    Triangle lists are read in windows of three stepping by 3; strips in
    overlapping windows stepping by 1, with the second and third index swapped
    at odd window starts. A window whose second or third index is a restart is
    skipped by `vrtNr += 3` on top of the loop's own stride. Every remaining
    window adds its S and T directions to the accumulators of its three
    vertices. The floating-point directions are kept abstract in the
    accumulators (see TriangleDirs for their real-valued definition).

    SourceLoop is the loop as written, ending in a fault where the source's
    behaviour is undefined or the loop never ends. Sweep is the corrected loop
    (see the README's Findings) that the accumulation runs; SourceLoopAgrees
    shows the two process the same triangles wherever the source's loop ends. */
module Tangents {
  import opened S3OTypes
  import ByteReader
  import DrawOrder

  /** The primitive types the corrected pass walks: triangle lists and strips. */
  predicate Sweeps(kind: int)
  {
    kind == Triangles || kind == TriangleStrip
  }

  /** The loop stride: 3 for triangle lists, 1 for strips, and for any other
      type the initial 0 that the switch leaves unchanged. */
  function Stride(kind: int): (r: nat)
    ensures r > 0 <==> Sweeps(kind)
  {
    if kind == Triangles then 3 else if kind == TriangleStrip then 1 else 0
  }

  /** `vrtMaxNr` for a strip as the source computes it: `size() - 2` stored
      into an `unsigned`, so it wraps below zero. */
  function StripLimitAsWritten(size: nat): (r: nat)
    ensures r < ByteReader.TwoTo32
    ensures 2 <= size < ByteReader.TwoTo32 + 2 ==> r == size - 2
  {
    (size - 2) % ByteReader.TwoTo32
  }

  /** `vrtMaxNr` as written, for any primitive type. */
  function LimitAsWritten(order: seq<int>, kind: int): nat
  {
    if kind == TriangleStrip then StripLimitAsWritten(|order|) else |order|
  }

  /** `vrtMaxNr` as intended, for both kinds: one past the last start that
      leaves room for a whole window, so a partial last triangle of a list is
      never read. */
  function WindowLimit(order: seq<int>, kind: int): (r: nat)
    ensures r <= |order|
    ensures r > 0 ==> r + 2 == |order|
  {
    if |order| >= 2 then |order| - 2 else 0
  }

  /** The corrected limit agrees with the source's for a strip wherever the
      subtraction does not wrap, and visits no window where it does. For a
      triangle list of whole triangles both limits admit the same starts. */
  lemma WindowLimitCorrects(order: seq<int>, i: nat)
    ensures 2 <= |order| < ByteReader.TwoTo32 + 2 ==> WindowLimit(order, TriangleStrip) == LimitAsWritten(order, TriangleStrip)
    ensures |order| < 2 ==> WindowLimit(order, TriangleStrip) == 0 && LimitAsWritten(order, TriangleStrip) >= ByteReader.TwoTo32 - 2
    ensures |order| % 3 == 0 && i % 3 == 0
            ==> (i < WindowLimit(order, Triangles) <==> i < LimitAsWritten(order, Triangles))
  {
  }

  /** The wrap: for every one-entry strip the limit as written is 2^32 - 1, so
      window 0 runs and its second read, draw-order position 1, lies past the
      end. The corrected limit visits no window. */
  lemma StripLimitWraps(order: seq<int>, n: nat)
    requires |order| == 1
    ensures LimitAsWritten(order, TriangleStrip) == ByteReader.TwoTo32 - 1
    ensures SourceLoop(order, TriangleStrip, n, 0) == Faults(DrawOrderOutOfRange(1))
    ensures WindowLimit(order, TriangleStrip) == 0 && Schedule(order, TriangleStrip) == []
  {
  }

  /** Window starts of a triangle list are multiples of 3. */
  predicate StartOk(kind: int, i: nat)
  {
    kind == Triangles ==> i % 3 == 0
  }

  lemma WindowFits(order: seq<int>, kind: int, i: nat)
    requires Sweeps(kind) && StartOk(kind, i) && i < WindowLimit(order, kind)
    ensures i + 2 < |order|
  {
  }

  /** The window at start i: v0, then v1 and v2 swapped at odd strip starts. */
  function WindowAt(order: seq<int>, kind: int, i: nat): (t: Tri)
    requires i + 2 < |order|
  {
    var flipWinding := kind == TriangleStrip && i % 2 == 1;
    Tri(i, order[i], order[i + (if flipWinding then 2 else 1)], order[i + (if flipWinding then 1 else 2)])
  }

  /** The flip only reorders: a window holds the draw-order entries at i,
      i + 1 and i + 2, with v0 first. */
  lemma WindowHoldsItsEntries(order: seq<int>, kind: int, i: nat)
    requires i + 2 < |order|
    ensures WindowAt(order, kind, i).start == i && WindowAt(order, kind, i).v0 == order[i]
    ensures multiset{WindowAt(order, kind, i).v1, WindowAt(order, kind, i).v2} == multiset{order[i + 1], order[i + 2]}
  {
  }

  /** How the source's window loop ends: having processed `tris`, or at the
      first read outside the draw order or the vertex array, or at a window it
      would process forever. */
  datatype Outcome = Ends(tris: seq<Tri>) | Faults(error: LoadError)

  /** The source's loop from window start i, as written: the limit with its
      unsigned wrap, the stride (0 for an unknown type), the three draw-order
      reads in order, the skip test on v1 and v2 only, the three vertex reads,
      then the stride. Whatever ends has touched only existing vertices, and
      with stride 0 it has processed nothing, since a processed window would
      be processed again forever. */
  function SourceLoop(order: seq<int>, kind: int, n: nat, i: nat): (r: Outcome)
    ensures r.Ends? ==> ScheduleInRange(r.tris, n) && (Stride(kind) == 0 ==> r.tris == [])
    decreases LimitAsWritten(order, kind) - i
  {
    if i >= LimitAsWritten(order, kind) then Ends([])
    else
      var flipWinding := kind == TriangleStrip && i % 2 == 1;
      var p1 := i + (if flipWinding then 2 else 1);
      var p2 := i + (if flipWinding then 1 else 2);
      if i >= |order| then Faults(DrawOrderOutOfRange(i))
      else if p1 >= |order| then Faults(DrawOrderOutOfRange(p1))
      else if p2 >= |order| then Faults(DrawOrderOutOfRange(p2))
      else
        var t := WindowAt(order, kind, i);
        if t.v1 == Restart || t.v2 == Restart then SourceLoop(order, kind, n, i + 3 + Stride(kind))
        else if !TriInRange(t, n) then Faults(VertexIndexOutOfRange)
        else if Stride(kind) == 0 then Faults(EndlessTangentLoop(i))
        else
          match SourceLoop(order, kind, n, i + Stride(kind))
          case Ends(ts) => Ends([t] + ts)
          case Faults(e) => Faults(e)
  }

  /** The corrected skip test: any corner a restart. */
  predicate Skipped(t: Tri)
  {
    t.v0 == Restart || t.v1 == Restart || t.v2 == Restart
  }

  /** The triangles the corrected loop processes from window start i on. */
  function Sweep(order: seq<int>, kind: int, i: nat): seq<Tri>
    requires Sweeps(kind) && StartOk(kind, i)
    decreases |order| - i
  {
    if i >= WindowLimit(order, kind) then []
    else
      WindowFits(order, kind, i);
      var t := WindowAt(order, kind, i);
      if Skipped(t) then Sweep(order, kind, i + 3 + Stride(kind))
      else [t] + Sweep(order, kind, i + Stride(kind))
  }

  /** The triangles the corrected pass processes; none for a primitive type
      other than triangle lists and strips. */
  function Schedule(order: seq<int>, kind: int): seq<Tri>
  {
    if Sweeps(kind) then Sweep(order, kind, 0) else []
  }

  /** Wherever the source's loop ends, it has processed exactly the corrected
      schedule, provided the draw order is short enough that the 32-bit limit
      does not wrap for long strips. */
  lemma {:induction false} SourceLoopAgrees(order: seq<int>, kind: int, n: nat, i: nat)
    requires StartOk(kind, i) && |order| < MaxDrawOrder
    ensures Sweeps(kind) && SourceLoop(order, kind, n, i).Ends?
            ==> SourceLoop(order, kind, n, i).tris == Sweep(order, kind, i)
    decreases LimitAsWritten(order, kind) - i
  {
    if Sweeps(kind) && i < LimitAsWritten(order, kind) {
      if i < WindowLimit(order, kind) {
        WindowFits(order, kind, i);
        NextStarts(kind, i);
        var t := WindowAt(order, kind, i);
        if t.v1 == Restart || t.v2 == Restart {
          SkippedByBoth(order, kind, n, i);
          SourceLoopAgrees(order, kind, n, i + 3 + Stride(kind));
        } else if !TriInRange(t, n) {
          SourceReadsOutside(order, kind, n, i);
        } else {
          SweepStep(order, kind, i);
          SourceProcesses(order, kind, n, i);
          SourceLoopAgrees(order, kind, n, i + Stride(kind));
        }
      } else {
        PastLastWindow(order, kind, n, i);
      }
    } else if Sweeps(kind) {
      LimitsOrdered(order, kind);
    }
  }

  /** Both next window starts of a known type keep the start condition. */
  lemma NextStarts(kind: int, i: nat)
    requires Sweeps(kind) && StartOk(kind, i)
    ensures Stride(kind) > 0 && StartOk(kind, i + Stride(kind)) && StartOk(kind, i + 3 + Stride(kind))
  {
  }

  /** Below MaxDrawOrder the corrected limit never exceeds the source's. */
  lemma LimitsOrdered(order: seq<int>, kind: int)
    requires |order| < MaxDrawOrder
    ensures WindowLimit(order, kind) <= LimitAsWritten(order, kind)
  {
  }

  /** A window with a restart at v1 or v2 is skipped by both loops alike. */
  lemma SkippedByBoth(order: seq<int>, kind: int, n: nat, i: nat)
    requires Sweeps(kind) && StartOk(kind, i) && i < WindowLimit(order, kind) && i < LimitAsWritten(order, kind)
    requires WindowAt(order, kind, i).v1 == Restart || WindowAt(order, kind, i).v2 == Restart
    ensures SourceLoop(order, kind, n, i) == SourceLoop(order, kind, n, i + 3 + Stride(kind))
    ensures Sweep(order, kind, i) == Sweep(order, kind, i + 3 + Stride(kind))
  {
  }

  /** A window without restarts at v1 and v2 whose corners are all vertices
      is processed by the source's loop, which then goes on at the stride. */
  lemma SourceProcesses(order: seq<int>, kind: int, n: nat, i: nat)
    requires i < LimitAsWritten(order, kind) && i + 2 < |order| && Stride(kind) > 0
    requires WindowAt(order, kind, i).v1 != Restart && WindowAt(order, kind, i).v2 != Restart
    requires TriInRange(WindowAt(order, kind, i), n)
    ensures SourceLoop(order, kind, n, i).Ends?
            ==> SourceLoop(order, kind, n, i + Stride(kind)).Ends?
                && SourceLoop(order, kind, n, i).tris == [WindowAt(order, kind, i)] + SourceLoop(order, kind, n, i + Stride(kind)).tris
  {
  }

  /** A window that passes the source's skip test but has a corner outside
      the vertex array faults. */
  lemma SourceReadsOutside(order: seq<int>, kind: int, n: nat, i: nat)
    requires i < LimitAsWritten(order, kind) && i + 2 < |order|
    requires WindowAt(order, kind, i).v1 != Restart && WindowAt(order, kind, i).v2 != Restart
    requires !TriInRange(WindowAt(order, kind, i), n)
    ensures SourceLoop(order, kind, n, i) == Faults(VertexIndexOutOfRange)
  {
  }

  /** A start the source's loop reaches past the corrected limit reads beyond
      the draw order: the wrapped strip limit, or a partial last triangle. */
  lemma PastLastWindow(order: seq<int>, kind: int, n: nat, i: nat)
    requires Sweeps(kind) && StartOk(kind, i) && |order| < MaxDrawOrder
    requires WindowLimit(order, kind) <= i < LimitAsWritten(order, kind)
    ensures SourceLoop(order, kind, n, i).Faults?
  {
  }

  /** The source's skip test lets a window with first index -1 through: the
      strip table [-1, -1, 0, 1] decodes to [-1, -1, -1, -1, -1, 0, 0, 1], and
      the loop skips from window 0 to window 4 = (-1, 0, 0), which it
      processes, reading vertex -1. The corrected loop processes nothing. */
  lemma AsWrittenReadsVertexMinusOne()
    ensures DrawOrder.Decode([-1, -1, 0, 1]) == [-1, -1, -1, -1, -1, 0, 0, 1]
    ensures WindowAt([-1, -1, -1, -1, -1, 0, 0, 1], TriangleStrip, 4) == Tri(4, -1, 0, 0)
    ensures SourceLoop([-1, -1, -1, -1, -1, 0, 0, 1], TriangleStrip, 2, 0)
            == SourceLoop([-1, -1, -1, -1, -1, 0, 0, 1], TriangleStrip, 2, 4)
            == Faults(VertexIndexOutOfRange)
    ensures Schedule([-1, -1, -1, -1, -1, 0, 0, 1], TriangleStrip) == []
  {
  }

  /** The source's loop can end without whole windows. An unknown type whose
      only window is skipped ends, while one it processes repeats forever; a
      triangle list of five entries ends once its skip jumps past the partial
      triangle. */
  lemma SourceLoopEndings()
    ensures DrawOrder.Decode([0, 5, -1]) == [0, 5, -1]
    ensures SourceLoop([0, 5, -1], 5, 6, 0) == Ends([])
    ensures SourceLoop([0, 1, 2], 5, 3, 0) == Faults(EndlessTangentLoop(0))
    ensures DrawOrder.Decode([0, -1, 2]) == [0, -1, -1, 2, 2]
    ensures SourceLoop([0, -1, -1, 2, 2], Triangles, 3, 0) == Ends([])
    ensures SourceLoop([0, 1, 2, 0, 1], Triangles, 3, 0) == Faults(DrawOrderOutOfRange(5))
  {
  }

  /** The reference sweep: every window, none skipped. */
  function AllWindows(order: seq<int>, kind: int, i: nat): seq<Tri>
    requires Sweeps(kind) && StartOk(kind, i)
    decreases |order| - i
  {
    if i >= WindowLimit(order, kind) then []
    else
      WindowFits(order, kind, i);
      [WindowAt(order, kind, i)] + AllWindows(order, kind, i + Stride(kind))
  }

  /** t is the window at its own start, that start lies in [lo, limit), is a
      multiple of 3 for triangle lists, and the window holds no restart. */
  predicate ProcessedWindow(order: seq<int>, kind: int, lo: nat, t: Tri)
  {
    lo <= t.start < WindowLimit(order, kind) && StartOk(kind, t.start)
    && t.start + 2 < |order| && t == WindowAt(order, kind, t.start)
    && !Skipped(t)
  }

  /** Which windows the sweep from start i processes. */
  lemma {:induction false} SweepWindows(order: seq<int>, kind: int, i: nat)
    requires Sweeps(kind) && StartOk(kind, i)
    ensures forall t :: t in Sweep(order, kind, i) ==> ProcessedWindow(order, kind, i, t)
    decreases |order| - i
  {
    if i < WindowLimit(order, kind) {
      WindowFits(order, kind, i);
      NextStarts(kind, i);
      var w := WindowAt(order, kind, i);
      if Skipped(w) {
        var next := i + 3 + Stride(kind);
        SweepWindows(order, kind, next);
        assert Sweep(order, kind, i) == Sweep(order, kind, next);
        forall t | t in Sweep(order, kind, next)
          ensures ProcessedWindow(order, kind, i, t)
        {
          assert ProcessedWindow(order, kind, next, t);
        }
      } else {
        var next := i + Stride(kind);
        SweepWindows(order, kind, next);
        assert Sweep(order, kind, i) == [w] + Sweep(order, kind, next);
        forall t | t in Sweep(order, kind, i)
          ensures ProcessedWindow(order, kind, i, t)
        {
          if t != w {
            assert ProcessedWindow(order, kind, next, t);
          }
        }
      }
    }
  }

  /** Without restarts nothing is skipped: every window is processed. */
  lemma {:induction false} SweepWithoutRestarts(order: seq<int>, kind: int, i: nat)
    requires Sweeps(kind) && StartOk(kind, i)
    requires Restart !in order
    ensures Sweep(order, kind, i) == AllWindows(order, kind, i)
    decreases |order| - i
  {
    if i < WindowLimit(order, kind) {
      WindowFits(order, kind, i);
      NextStarts(kind, i);
      assert order[i] in order && order[i + 1] in order && order[i + 2] in order;
      assert !Skipped(WindowAt(order, kind, i));
      SweepWithoutRestarts(order, kind, i + Stride(kind));
    }
  }

  /** The number of windows: one per whole triangle of a triangle list, and
      size - 2 for a strip of at least two indices. */
  lemma {:induction false} AllWindowsCount(order: seq<int>, kind: int, i: nat)
    requires Sweeps(kind) && StartOk(kind, i) && i <= |order|
    requires kind == TriangleStrip ==> i <= WindowLimit(order, kind)
    ensures kind == TriangleStrip ==> |AllWindows(order, kind, i)| == WindowLimit(order, kind) - i
    ensures kind == Triangles ==> |AllWindows(order, kind, i)| == (|order| - i) / 3
    decreases |order| - i
  {
    if i < WindowLimit(order, kind) {
      WindowFits(order, kind, i);
      NextStarts(kind, i);
      var next := i + Stride(kind);
      assert |AllWindows(order, kind, i)| == 1 + |AllWindows(order, kind, next)|;
      if kind == Triangles {
        AllWindowsCount(order, kind, next);
        ThirdStep(|order| - i - 3);
      } else {
        AllWindowsCount(order, kind, next);
      }
    } else if kind == Triangles {
      ThirdOfLess(|order| - i);
    }
  }

  lemma ThirdStep(m: int)
    ensures (m + 3) / 3 == m / 3 + 1
  {
  }

  lemma ThirdOfLess(m: int)
    requires 0 <= m < 3
    ensures m / 3 == 0
  {
  }

  /** The corrected schedule never processes a window holding a restart. */
  lemma ScheduleSkipsRestarts(order: seq<int>, kind: int)
    ensures forall t :: t in Schedule(order, kind) ==>
              t.v0 != Restart && t.v1 != Restart && t.v2 != Restart
  {
    if Sweeps(kind) {
      SweepWindows(order, kind, 0);
    }
  }

  /** Every draw-order index is a restart or a vertex of the piece. */
  predicate IndicesValid(order: seq<int>, n: nat)
  {
    forall k :: 0 <= k < |order| ==> order[k] == Restart || 0 <= order[k] < n
  }

  predicate TriInRange(t: Tri, n: nat)
  {
    0 <= t.v0 < n && 0 <= t.v1 < n && 0 <= t.v2 < n
  }

  predicate ScheduleInRange(ts: seq<Tri>, n: nat)
  {
    forall t :: t in ts ==> TriInRange(t, n)
  }

  /** With valid indices the corrected pass touches only existing vertices. */
  lemma ValidOrderScheduleInRange(order: seq<int>, kind: int, n: nat)
    requires IndicesValid(order, n)
    ensures ScheduleInRange(Schedule(order, kind), n)
  {
    if Sweeps(kind) {
      SweepWindows(order, kind, 0);
    }
  }

  /** The pass does work: the piece is neither empty nor a quad list. */
  predicate Runs(p: Piece)
  {
    !p.isEmpty && p.primitiveType != Quads
  }

  /** The corrected pass reads no index outside the vertex array. */
  predicate PassDefined(p: Piece)
  {
    !Runs(p) || ScheduleInRange(Schedule(p.vertexDrawOrder, p.primitiveType), p.vertexCount)
  }

  /** `vrtNr` and `vrtMaxNr` are 32-bit; below this draw-order size neither
      wraps except through the strip limit's own subtraction. */
  const MaxDrawOrder: nat := ByteReader.TwoTo31

  /** Why the source's pass over p is undefined, if it is: a draw order too
      long for its 32-bit counters, a read outside the draw order or the
      vertex array, or a loop that never ends. Where it is defined, the
      corrected pass reads only existing vertices and processes exactly the
      triangles the source's loop does. */
  function PassFault(p: Piece): (r: Option<LoadError>)
    ensures r.Some? <==>
              Runs(p) && (|p.vertexDrawOrder| >= MaxDrawOrder
                          || SourceLoop(p.vertexDrawOrder, p.primitiveType, p.vertexCount, 0).Faults?)
    ensures r.Some? && |p.vertexDrawOrder| >= MaxDrawOrder ==> r.value == DrawOrderTooLong(|p.vertexDrawOrder|)
    ensures r.Some? && |p.vertexDrawOrder| < MaxDrawOrder
            ==> SourceLoop(p.vertexDrawOrder, p.primitiveType, p.vertexCount, 0) == Faults(r.value)
    ensures r.None? ==> PassDefined(p)
    ensures r.None? && Runs(p)
            ==> SourceLoop(p.vertexDrawOrder, p.primitiveType, p.vertexCount, 0)
                == Ends(Schedule(p.vertexDrawOrder, p.primitiveType))
  {
    if !Runs(p) then None
    else if |p.vertexDrawOrder| >= MaxDrawOrder then Some(DrawOrderTooLong(|p.vertexDrawOrder|))
    else
      var o := SourceLoop(p.vertexDrawOrder, p.primitiveType, p.vertexCount, 0);
      SourceLoopAgrees(p.vertexDrawOrder, p.primitiveType, p.vertexCount, 0);
      if o.Ends? then None else Some(o.error)
  }

  /** A triangle list of whole triangles, or a strip of at least two entries,
      whose entries all name existing vertices ends the source's loop from
      any start the kind allows. */
  lemma {:induction false} WellFormedOrderEnds(order: seq<int>, kind: int, n: nat, i: nat)
    requires Sweeps(kind) && StartOk(kind, i) && |order| < MaxDrawOrder
    requires forall k :: 0 <= k < |order| ==> 0 <= order[k] < n
    requires kind == Triangles ==> |order| % 3 == 0
    requires kind == TriangleStrip ==> |order| >= 2
    ensures SourceLoop(order, kind, n, i).Ends?
    decreases |order| - i
  {
    if i < LimitAsWritten(order, kind) {
      assert i + 2 < |order|;
      NextStarts(kind, i);
      WellFormedOrderEnds(order, kind, n, i + Stride(kind));
    }
  }

  /** Such a piece passes: the loader does not reject it for its tangent pass. */
  lemma WellFormedPiecePasses(p: Piece)
    requires Sweeps(p.primitiveType) && |p.vertexDrawOrder| < MaxDrawOrder
    requires forall k :: 0 <= k < |p.vertexDrawOrder| ==> 0 <= p.vertexDrawOrder[k] < p.vertexCount
    requires p.primitiveType == Triangles ==> |p.vertexDrawOrder| % 3 == 0
    requires p.primitiveType == TriangleStrip ==> |p.vertexDrawOrder| >= 2
    ensures PassFault(p) == None
  {
    WellFormedOrderEnds(p.vertexDrawOrder, p.primitiveType, p.vertexCount, 0);
  }

  /** What one triangle adds to the accumulator of vertex v, in the order of
      the three `+=` statements. */
  function Hits(t: Tri, v: int): (r: seq<Tri>)
    ensures forall x :: x in r ==> x == t
  {
    (if t.v0 == v then [t] else []) + (if t.v1 == v then [t] else []) + (if t.v2 == v then [t] else [])
  }

  /** How many corners of t are vertex v. */
  function Corners(t: Tri, v: int): nat
  {
    (if t.v0 == v then 1 else 0) + (if t.v1 == v then 1 else 0) + (if t.v2 == v then 1 else 0)
  }

  /** The accumulator of vertex v after processing ts, as a formal sum. */
  function Contributions(ts: seq<Tri>, v: int): seq<Tri>
  {
    if ts == [] then [] else Contributions(ts[..|ts| - 1], v) + Hits(ts[|ts| - 1], v)
  }

  /** The S (and T) accumulators after the pass: none when it does not run,
      otherwise one per vertex. */
  function Accumulated(p: Piece): seq<seq<Tri>>
    requires PassDefined(p)
  {
    if !Runs(p) then []
    else seq(p.vertexCount, v requires 0 <= v < p.vertexCount => Contributions(Schedule(p.vertexDrawOrder, p.primitiveType), v))
  }

  /** Each processed triangle adds to vertex v once per corner that is v, and
      nothing else is added to v. */
  lemma {:induction false} ContributionsCount(ts: seq<Tri>, v: int, t: Tri)
    ensures multiset(Contributions(ts, v))[t] == multiset(ts)[t] * Corners(t, v)
  {
    if ts != [] {
      var init, u := ts[..|ts| - 1], ts[|ts| - 1];
      ContributionsCount(init, v, t);
      CountStep(init, u, v, t);
      SplitLast(ts);
    }
  }

  lemma SplitLast(ts: seq<Tri>)
    requires ts != []
    ensures ts == ts[..|ts| - 1] + [ts[|ts| - 1]]
  {
  }

  /** The counting law carries over to one more processed triangle. */
  lemma CountStep(init: seq<Tri>, u: Tri, v: int, t: Tri)
    requires multiset(Contributions(init, v))[t] == multiset(init)[t] * Corners(t, v)
    ensures multiset(Contributions(init + [u], v))[t] == multiset(init + [u])[t] * Corners(t, v)
  {
    var before, k := multiset(init)[t], Corners(t, v);
    ContributionsAppend(init, u, v);
    CountAppend(init, [u], t);
    HitsCount(u, v, t);
    CountAppend(Contributions(init, v), Hits(u, v), t);
    if u == t {
      assert multiset(init + [u])[t] == before + 1;
      assert multiset(Contributions(init + [u], v))[t] == before * k + k;
      DistributeCount(before, 1, k);
    } else {
      assert multiset(init + [u])[t] == before;
      assert multiset(Contributions(init + [u], v))[t] == before * k;
    }
  }

  lemma CountAppend(a: seq<Tri>, b: seq<Tri>, t: Tri)
    ensures multiset(a + b)[t] == multiset(a)[t] + multiset(b)[t]
  {
  }

  lemma HitsCount(u: Tri, v: int, t: Tri)
    ensures multiset(Hits(u, v))[t] == (if u == t then Corners(t, v) else 0)
  {
    var a, b, c := (if u.v0 == v then [u] else []), (if u.v1 == v then [u] else []), (if u.v2 == v then [u] else []);
    assert Hits(u, v) == a + b + c;
    assert multiset(Hits(u, v)) == multiset(a) + multiset(b) + multiset(c);
  }

  lemma DistributeCount(before: nat, added: nat, k: nat)
    ensures (before + added) * k == before * k + added * k
  {
  }

  /** The pass sizes the accumulators to the vertex count and gives each
      vertex exactly its processed triangles, once per matching corner. */
  lemma AccumulatedCounts(p: Piece, v: int, t: Tri)
    requires PassDefined(p) && Runs(p) && 0 <= v < p.vertexCount
    ensures |Accumulated(p)| == p.vertexCount
    ensures multiset(Accumulated(p)[v])[t]
            == multiset(Schedule(p.vertexDrawOrder, p.primitiveType))[t] * Corners(t, v)
  {
    ContributionsCount(Schedule(p.vertexDrawOrder, p.primitiveType), v, t);
  }

  /** The pass over one piece, accumulating into freshly sized arrays in place. */
  method SetVertexTangents(p: Piece) returns (sTangents: seq<seq<Tri>>, tTangents: seq<seq<Tri>>)
    requires PassDefined(p)
    ensures sTangents == Accumulated(p) && tTangents == Accumulated(p)
  {
    if p.isEmpty || p.primitiveType == Quads {
      return [], [];
    }
    if !Sweeps(p.primitiveType) {
      // An unknown type's stride stays 0: the corrected pass processes no
      // window, and the source's loop ends only where it processes none.
      var untouched := seq(p.vertexCount, _ => []);
      return untouched, untouched;
    }
    var s, t := Pass(p.vertexDrawOrder, p.primitiveType, p.vertexCount);
    sTangents, tTangents := s[..], t[..];
    assert forall v :: 0 <= v < p.vertexCount ==> sTangents[v] == Accumulated(p)[v] && tTangents[v] == Accumulated(p)[v];
  }

  /** The loop over the window starts, accumulating into arrays sized to the
      vertex count. */
  method Pass(order: seq<int>, kind: int, n: nat) returns (s: array<seq<Tri>>, t: array<seq<Tri>>)
    requires Sweeps(kind) && ScheduleInRange(Schedule(order, kind), n)
    ensures s.Length == n && t.Length == n
    ensures forall v :: 0 <= v < n ==> s[v] == Contributions(Schedule(order, kind), v) && t[v] == Contributions(Schedule(order, kind), v)
  {
    s := new seq<Tri>[n](_ => []);
    t := new seq<Tri>[n](_ => []);
    var stride := Stride(kind);
    var vrtMaxNr := WindowLimit(order, kind);
    var vrtNr := 0;
    ghost var schedule := Schedule(order, kind);
    ghost var done: seq<Tri> := [];
    while vrtNr < vrtMaxNr
      invariant StartOk(kind, vrtNr)
      invariant done + Sweep(order, kind, vrtNr) == schedule
      invariant forall v :: 0 <= v < n ==> s[v] == Contributions(done, v) && t[v] == Contributions(done, v)
      decreases |order| - vrtNr
    {
      WindowFits(order, kind, vrtNr);
      NextStarts(kind, vrtNr);
      var flipWinding := kind == TriangleStrip && vrtNr % 2 == 1;
      var v0idx := order[vrtNr];
      var v1idx := order[vrtNr + (if flipWinding then 2 else 1)];
      var v2idx := order[vrtNr + (if flipWinding then 1 else 2)];
      var tri := Tri(vrtNr, v0idx, v1idx, v2idx);
      assert tri == WindowAt(order, kind, vrtNr);
      SweepStep(order, kind, vrtNr);
      if v0idx == Restart || v1idx == Restart || v2idx == Restart {
        vrtNr := vrtNr + 3 + stride;
      } else {
        ghost var rest := Sweep(order, kind, vrtNr + stride);
        Regroup(done, tri, rest);
        AddTriangle(s, t, done, tri);
        done := done + [tri];
        vrtNr := vrtNr + stride;
      }
    }
    assert done == schedule;
  }

  lemma Regroup(done: seq<Tri>, tri: Tri, rest: seq<Tri>)
    ensures done + ([tri] + rest) == (done + [tri]) + rest
    ensures (done + [tri] + rest)[|done|] == tri
  {
  }

  /** One step of the corrected sweep at a window start below the limit. */
  lemma SweepStep(order: seq<int>, kind: int, i: nat)
    requires Sweeps(kind) && StartOk(kind, i) && i < WindowLimit(order, kind)
    ensures i + 2 < |order|
    ensures Sweep(order, kind, i)
            == if Skipped(WindowAt(order, kind, i)) then Sweep(order, kind, i + 3 + Stride(kind))
               else [WindowAt(order, kind, i)] + Sweep(order, kind, i + Stride(kind))
  {
    WindowFits(order, kind, i);
  }

  /** Both accumulators take the triangle's directions at its three corners. */
  method AddTriangle(s: array<seq<Tri>>, t: array<seq<Tri>>, ghost done: seq<Tri>, tri: Tri)
    requires s != t && s.Length == t.Length && TriInRange(tri, s.Length)
    requires forall v :: 0 <= v < s.Length ==> s[v] == Contributions(done, v) && t[v] == Contributions(done, v)
    modifies s, t
    ensures forall v :: 0 <= v < s.Length ==> s[v] == Contributions(done + [tri], v) && t[v] == Contributions(done + [tri], v)
  {
    AddToCorners(s, tri);
    AddToCorners(t, tri);
    forall v | 0 <= v < s.Length
      ensures s[v] == Contributions(done + [tri], v) && t[v] == Contributions(done + [tri], v)
    {
      ContributionsAppend(done, tri, v);
    }
  }

  lemma ContributionsAppend(ts: seq<Tri>, tri: Tri, v: int)
    ensures Contributions(ts + [tri], v) == Contributions(ts, v) + Hits(tri, v)
  {
    assert (ts + [tri])[..|ts|] == ts;
  }

  /** `acc[v0idx] += dir; acc[v1idx] += dir; acc[v2idx] += dir;` */
  method AddToCorners(acc: array<seq<Tri>>, tri: Tri)
    requires TriInRange(tri, acc.Length)
    modifies acc
    ensures forall v :: 0 <= v < acc.Length ==> acc[v] == old(acc[v]) + Hits(tri, v)
  {
    acc[tri.v0] := acc[tri.v0] + [tri];
    acc[tri.v1] := acc[tri.v1] + [tri];
    acc[tri.v2] := acc[tri.v2] + [tri];
  }

  /** `d` below this magnitude marks a degenerate texture mapping. */
  const DegenerateThreshold: real := 0.0001

  predicate Degenerate(d: real)
  {
    -DegenerateThreshold < d < DegenerateThreshold
  }

  /** `r` of the source: 1 for a degenerate mapping, else 1/d. */
  function Reciprocal(d: real): (r: real)
    ensures Degenerate(d) ==> r == 1.0
    ensures !Degenerate(d) ==> r * d == 1.0
  {
    if Degenerate(d) then 1.0 else 1.0 / d
  }

  datatype Dirs = Dirs(s: Vec3, t: Vec3)

  /** The texture-space determinant of a triangle. */
  function Determinant(a: Vertex, b: Vertex, c: Vertex): real
  {
    (b.textureX - a.textureX) * (c.textureY - a.textureY) - (c.textureX - a.textureX) * (b.textureY - a.textureY)
  }

  /** One axis of `sdir`: (t2 * x1x0 - t1 * x2x0) * r. */
  function SDir(x1: real, x2: real, t1: real, t2: real, r: real): real
  {
    (x1 * t2 - x2 * t1) * r
  }

  /** One axis of `tdir`: (s1 * x2x0 - s2 * x1x0) * r. */
  function TDir(x1: real, x2: real, s1: real, s2: real, r: real): real
  {
    (x2 * s1 - x1 * s2) * r
  }

  /** `sdir` and `tdir` of one triangle, over the reals. */
  function TriangleDirs(a: Vertex, b: Vertex, c: Vertex): Dirs
  {
    var e1, e2 := Sub(b.pos, a.pos), Sub(c.pos, a.pos);
    var s1, s2 := b.textureX - a.textureX, c.textureX - a.textureX;
    var t1, t2 := b.textureY - a.textureY, c.textureY - a.textureY;
    var r := Reciprocal(Determinant(a, b, c));
    Dirs(Vec3(SDir(e1.x, e2.x, t1, t2, r), SDir(e1.y, e2.y, t1, t2, r), SDir(e1.z, e2.z, t1, t2, r)),
         Vec3(TDir(e1.x, e2.x, s1, s2, r), TDir(e1.y, e2.y, s1, s2, r), TDir(e1.z, e2.z, s1, s2, r)))
  }

  lemma SolveAxis(s1: real, s2: real, t1: real, t2: real, x1: real, x2: real, r: real)
    requires r * (s1 * t2 - s2 * t1) == 1.0
    ensures SDir(x1, x2, t1, t2, r) * s1 + TDir(x1, x2, s1, s2, r) * t1 == x1
    ensures SDir(x1, x2, t1, t2, r) * s2 + TDir(x1, x2, s1, s2, r) * t2 == x2
  {
    calc {
      SDir(x1, x2, t1, t2, r) * s1 + TDir(x1, x2, s1, s2, r) * t1;
      ((x1 * t2 - x2 * t1) * r) * s1 + ((x2 * s1 - x1 * s2) * r) * t1;
      r * (s1 * x1 * t2 - s1 * x2 * t1 + t1 * x2 * s1 - t1 * x1 * s2);
      r * ((s1 * t2 - s2 * t1) * x1);
      (r * (s1 * t2 - s2 * t1)) * x1;
      x1;
    }
    calc {
      SDir(x1, x2, t1, t2, r) * s2 + TDir(x1, x2, s1, s2, r) * t2;
      ((x1 * t2 - x2 * t1) * r) * s2 + ((x2 * s1 - x1 * s2) * r) * t2;
      r * (s2 * x1 * t2 - s2 * x2 * t1 + t2 * x2 * s1 - t2 * x1 * s2);
      r * ((s1 * t2 - s2 * t1) * x2);
      (r * (s1 * t2 - s2 * t1)) * x2;
      x2;
    }
  }

  /** Both edges are recovered from the directions solved for them. */
  lemma SolveEdges(e1: Vec3, e2: Vec3, s1: real, s2: real, t1: real, t2: real, r: real)
    requires r * (s1 * t2 - s2 * t1) == 1.0
    ensures var d := Dirs(Vec3(SDir(e1.x, e2.x, t1, t2, r), SDir(e1.y, e2.y, t1, t2, r), SDir(e1.z, e2.z, t1, t2, r)),
                          Vec3(TDir(e1.x, e2.x, s1, s2, r), TDir(e1.y, e2.y, s1, s2, r), TDir(e1.z, e2.z, s1, s2, r)));
            e1 == Add(Scale(d.s, s1), Scale(d.t, t1)) && e2 == Add(Scale(d.s, s2), Scale(d.t, t2))
  {
    var ds := Vec3(SDir(e1.x, e2.x, t1, t2, r), SDir(e1.y, e2.y, t1, t2, r), SDir(e1.z, e2.z, t1, t2, r));
    var dt := Vec3(TDir(e1.x, e2.x, s1, s2, r), TDir(e1.y, e2.y, s1, s2, r), TDir(e1.z, e2.z, s1, s2, r));
    SolveAxis(s1, s2, t1, t2, e1.x, e2.x, r);
    SolveAxis(s1, s2, t1, t2, e1.y, e2.y, r);
    SolveAxis(s1, s2, t1, t2, e1.z, e2.z, r);
    Combine(e1, ds, dt, s1, t1);
    Combine(e2, ds, dt, s2, t2);
  }

  /** A vector is a combination of two others when each axis is. */
  lemma Combine(e: Vec3, ds: Vec3, dt: Vec3, s: real, t: real)
    requires ds.x * s + dt.x * t == e.x && ds.y * s + dt.y * t == e.y && ds.z * s + dt.z * t == e.z
    ensures e == Add(Scale(ds, s), Scale(dt, t))
  {
  }

  /** For a non-degenerate mapping, S and T are the object-space directions
      of the texture axes: each position edge is its texture edge's
      combination of S and T. */
  lemma DirsReproduceEdges(a: Vertex, b: Vertex, c: Vertex)
    requires !Degenerate(Determinant(a, b, c))
    ensures var d := TriangleDirs(a, b, c);
            Sub(b.pos, a.pos) == Add(Scale(d.s, b.textureX - a.textureX), Scale(d.t, b.textureY - a.textureY))
            && Sub(c.pos, a.pos) == Add(Scale(d.s, c.textureX - a.textureX), Scale(d.t, c.textureY - a.textureY))
  {
    var s1, s2 := b.textureX - a.textureX, c.textureX - a.textureX;
    var t1, t2 := b.textureY - a.textureY, c.textureY - a.textureY;
    var r := Reciprocal(Determinant(a, b, c));
    SolveEdges(Sub(b.pos, a.pos), Sub(c.pos, a.pos), s1, s2, t1, t2, r);
  }
}
