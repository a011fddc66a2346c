/** Decoding of a piece's draw-order table (LoadPiece, the loop over
    `vertexTableSize` words). A word is pushed as read; a strip-restart word
    that is not the table's last is pushed a second time and followed by the
    next word, read without advancing the table offset, so that word is pushed
    again by the next iteration: `..., -1, x, ...` becomes `..., -1, -1, x, x, ...`. */
module DrawOrder {
  import opened S3OTypes
  import opened ByteReader

  /** What iteration `a` of the loop appends, for table words w. */
  function Step(w: seq<int>, a: nat): seq<int>
    requires a < |w|
  {
    if w[a] == Restart && a != |w| - 1 then [w[a], Restart, w[a + 1]] else [w[a]]
  }

  /** The decoded draw order of the table words w. */
  function Decode(w: seq<int>): (r: seq<int>)
    ensures |w| <= |r| <= 3 * |w|
  {
    if w == [] then [] else Step(w, 0) + Decode(w[1..])
  }

  /** Number of restart words that are not the table's last one. */
  function Restarts(w: seq<int>): nat
  {
    if |w| <= 1 then 0 else (if w[0] == Restart then 1 else 0) + Restarts(w[1..])
  }

  /** Number of restart words in w. */
  function RestartWords(w: seq<int>): nat
  {
    if w == [] then 0 else (if w[0] == Restart then 1 else 0) + RestartWords(w[1..])
  }

  /** Inverse of Decode: drops the two words each non-final restart added. */
  function Collapse(r: seq<int>): seq<int>
  {
    if r == [] then []
    else if r[0] == Restart && |r| >= 3 then [Restart] + Collapse(r[3..])
    else [r[0]] + Collapse(r[1..])
  }

  /** Reads the table of `count` words at byte `base` as LoadPiece does. */
  method DecodeDrawOrder(buf: seq<byte>, base: int, count: int) returns (order: seq<int>)
    requires TableInBounds(buf, base, count)
    ensures order == Decode(Words(buf, base, count))
  {
    ghost var w := Words(buf, base, count);
    order := [];
    var vertexTableOffset := base;
    var a := 0;
    while a < count
      invariant 0 <= a <= |w|
      invariant vertexTableOffset == base + 4 * a
      invariant order + Decode(w[a..]) == Decode(w)
    {
      DecodeFrom(w, a);
      var pushed := ReadEntry(buf, base, count, a, vertexTableOffset);
      assert (order + pushed) + Decode(w[a + 1..]) == order + Decode(w[a..]);
      order := order + pushed;
      vertexTableOffset := vertexTableOffset + 4;
      a := a + 1;
    }
    assert w[a..] == [];
  }

  /** One iteration of the loop: the word at table entry a, and for a
      restart that is not the last entry, the restart again and the next
      word, read without moving the table offset. */
  method ReadEntry(buf: seq<byte>, base: int, count: int, a: int, vertexTableOffset: int) returns (pushed: seq<int>)
    requires TableInBounds(buf, base, count) && 0 <= a < count
    requires vertexTableOffset == base + 4 * a
    ensures pushed == Step(Words(buf, base, count), a)
  {
    ghost var w := Words(buf, base, count);
    var vertexDrawIdx := ReadInt32LE(buf, vertexTableOffset);
    assert vertexDrawIdx == w[a];
    pushed := [vertexDrawIdx];
    if vertexDrawIdx == Restart && a != count - 1 {
      pushed := pushed + [vertexDrawIdx];
      vertexDrawIdx := ReadInt32LE(buf, vertexTableOffset + 4);
      assert vertexDrawIdx == w[a + 1];
      pushed := pushed + [vertexDrawIdx];
    }
  }

  /** Decoding from word a on: that word's step, then the rest. */
  lemma DecodeFrom(w: seq<int>, a: nat)
    requires a < |w|
    ensures Decode(w[a..]) == Step(w, a) + Decode(w[a + 1..])
  {
    assert w[a..][1..] == w[a + 1..];
  }

  /** Each non-final restart adds exactly two words. */
  lemma {:induction false} DecodeLength(w: seq<int>)
    ensures |Decode(w)| == |w| + 2 * Restarts(w)
  {
    if w != [] {
      DecodeLength(w[1..]);
    }
  }

  /** A table with no restart before its last word decodes to itself. */
  lemma {:induction false} DecodeWithoutRestarts(w: seq<int>)
    requires forall i :: 0 <= i < |w| - 1 ==> w[i] != Restart
    ensures Decode(w) == w
  {
    if w != [] {
      DecodeWithoutRestarts(w[1..]);
    }
  }

  /** The draw order is empty exactly when the table is. */
  lemma DecodeEmpty(w: seq<int>)
    ensures Decode(w) == [] <==> w == []
  {
  }

  /** Decoding loses nothing: Collapse recovers the table words. */
  lemma {:induction false} CollapseDecode(w: seq<int>)
    ensures Collapse(Decode(w)) == w
  {
    if w != [] {
      CollapseDecode(w[1..]);
      var r := Decode(w);
      if w[0] == Restart && |w| > 1 {
        assert r == [Restart, Restart, w[1]] + Decode(w[1..]);
        assert r[3..] == Decode(w[1..]);
        assert w == [Restart] + w[1..];
      } else {
        assert r == [w[0]] + Decode(w[1..]);
        assert r[1..] == Decode(w[1..]);
        assert w == [w[0]] + w[1..];
      }
    }
  }

  /** Where word i of the table lands in the draw order. */
  function Position(w: seq<int>, i: nat): nat
    requires i <= |w|
  {
    i + 2 * RestartWords(w[..i])
  }

  /** The strip-restart duplication law: word i is emitted once, at
      Position(w, i), and a non-final restart is immediately followed by a
      second restart and a copy of the next word, which is then emitted again
      at its own position. */
  lemma {:induction false} DecodeAt(w: seq<int>, i: nat)
    requires i < |w|
    ensures Position(w, i) < |Decode(w)|
    ensures Decode(w)[Position(w, i)] == w[i]
    ensures i < |w| - 1 ==>
              Position(w, i + 1) == Position(w, i) + (if w[i] == Restart then 3 else 1)
    ensures w[i] == Restart && i < |w| - 1 ==>
              Position(w, i) + 2 < |Decode(w)|
              && Decode(w)[Position(w, i) + 1] == Restart && Decode(w)[Position(w, i) + 2] == w[i + 1]
  {
    var r := Decode(w);
    assert r == Step(w, 0) + Decode(w[1..]);
    assert w[..0] == [];
    if i == 0 {
      if 1 < |w| {
        PositionShift(w, 1);
      }
    } else {
      DecodeAt(w[1..], i - 1);
      PositionShift(w, i);
      if i < |w| - 1 {
        PositionShift(w, i + 1);
      }
    }
  }

  /** Past the first word, positions are those of the tail, moved by the
      first word's step. */
  lemma PositionShift(w: seq<int>, i: nat)
    requires 0 < i < |w|
    ensures Position(w, i) == |Step(w, 0)| + Position(w[1..], i - 1)
  {
    assert w[..i][1..] == w[1..][..i - 1];
  }

  /** Every decoded index is a table word or a restart. */
  lemma {:induction false} DecodeDrawsFromTable(w: seq<int>)
    ensures forall x :: x in Decode(w) ==> x in w || x == Restart
  {
    if w != [] {
      DecodeDrawsFromTable(w[1..]);
      assert forall x :: x in w[1..] ==> x in w;
    }
  }
}
