/** Little-endian reads from the model file's byte buffer: the signed 32-bit
    words of the draw-order and child-offset tables (`swabdword(*(int*)&buf[o])`)
    and the NUL-terminated strings the header and piece records point at. */
module ByteReader {
  import opened S3OTypes

  const TwoTo31: int := 0x8000_0000
  const TwoTo32: int := 0x1_0000_0000

  predicate IsInt32(x: int) { -TwoTo31 <= x < TwoTo31 }

  /** The signed word stored little-endian at buf[off..off+4]. */
  function ReadInt32LE(buf: seq<byte>, off: int): (r: int)
    requires 0 <= off && off + 4 <= |buf|
    ensures IsInt32(r)
    ensures r == -1 <==> buf[off] == 0xFF && buf[off + 1] == 0xFF && buf[off + 2] == 0xFF && buf[off + 3] == 0xFF
  {
    var u := buf[off] as int + 0x100 * (buf[off + 1] as int)
           + 0x1_0000 * (buf[off + 2] as int) + 0x100_0000 * (buf[off + 3] as int);
    if u >= TwoTo31 then u - TwoTo32 else u
  }

  /** The four bytes a signed word is stored as. */
  function EncodeInt32LE(x: int): (bs: seq<byte>)
    requires IsInt32(x)
    ensures |bs| == 4
  {
    var u := if x < 0 then x + TwoTo32 else x;
    var q1 := u / 0x100;
    var q2 := q1 / 0x100;
    var q3 := q2 / 0x100;
    [(u % 0x100) as byte, (q1 % 0x100) as byte, (q2 % 0x100) as byte, (q3 % 0x100) as byte]
  }

  /** One byte place of a little-endian number. */
  lemma BytePlace(a: int, b: int)
    requires 0 <= a < 0x100 && 0 <= b
    ensures (a + 0x100 * b) / 0x100 == b && (a + 0x100 * b) % 0x100 == a
  {
  }

  lemma ReadEncode(x: int)
    requires IsInt32(x)
    ensures ReadInt32LE(EncodeInt32LE(x), 0) == x
  {
    var u := if x < 0 then x + TwoTo32 else x;
    var q1 := u / 0x100;
    var q2 := q1 / 0x100;
    var q3 := q2 / 0x100;
    assert u == u % 0x100 + 0x100 * q1;
    assert q1 == q1 % 0x100 + 0x100 * q2;
    assert q2 == q2 % 0x100 + 0x100 * q3;
    assert q3 < 0x100;
    var bs := EncodeInt32LE(x);
    assert bs[0] as int + 0x100 * (bs[1] as int) + 0x1_0000 * (bs[2] as int) + 0x100_0000 * (bs[3] as int) == u;
  }

  lemma EncodeRead(buf: seq<byte>, off: int)
    requires 0 <= off && off + 4 <= |buf|
    ensures EncodeInt32LE(ReadInt32LE(buf, off)) == buf[off..off + 4]
  {
    var b0, b1, b2, b3 := buf[off] as int, buf[off + 1] as int, buf[off + 2] as int, buf[off + 3] as int;
    var u := b0 + 0x100 * (b1 + 0x100 * (b2 + 0x100 * b3));
    assert u == b0 + 0x100 * b1 + 0x1_0000 * b2 + 0x100_0000 * b3;
    BytePlace(b0, b1 + 0x100 * (b2 + 0x100 * b3));
    BytePlace(b1, b2 + 0x100 * b3);
    BytePlace(b2, b3);
    BytePlace(b3, 0);
    var bs := EncodeInt32LE(ReadInt32LE(buf, off));
    assert bs[0] == buf[off] && bs[1] == buf[off + 1] && bs[2] == buf[off + 2] && bs[3] == buf[off + 3];
  }

  /** A table of `count` words starting at byte `base` lies inside the buffer
      (a table with no entries is never read). */
  predicate TableInBounds(buf: seq<byte>, base: int, count: int)
  {
    count <= 0 || (0 <= base && base + 4 * count <= |buf|)
  }

  /** The words of such a table, in file order. */
  function Words(buf: seq<byte>, base: int, count: int): (w: seq<int>)
    requires TableInBounds(buf, base, count)
    ensures |w| == if count <= 0 then 0 else count
    ensures forall i :: 0 <= i < |w| ==> w[i] == ReadInt32LE(buf, base + 4 * i)
  {
    if count <= 0 then []
    else seq(count, i requires 0 <= i < count => ReadInt32LE(buf, base + 4 * i))
  }

  /** The NUL-terminated string at `off`, as `std::string(char*)` copies it, or
      None when no NUL follows inside the buffer. */
  function CStringAt(buf: seq<byte>, off: int): (r: Option<seq<byte>>)
    ensures r.Some? ==> 0 <= off && off + |r.value| < |buf|
                        && r.value == buf[off..off + |r.value|]
                        && buf[off + |r.value|] == 0
                        && forall i :: 0 <= i < |r.value| ==> r.value[i] != 0
    ensures r.None? ==> off < 0 || forall i :: off <= i < |buf| ==> buf[i] != 0
    decreases |buf| - off
  {
    if off < 0 || off >= |buf| then None
    else if buf[off] == 0 then Some([])
    else match CStringAt(buf, off + 1)
      case None => None
      case Some(s) => Some([buf[off]] + s)
  }
}
