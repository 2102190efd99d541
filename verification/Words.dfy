/** Fixed-width numbers and their bytes in memory, low-order byte first. */
module Words {
  import opened Wrappers
  import opened Bits

  const TWO32: nat := 0x1_0000_0000
  const TWO64: nat := 0x1_0000_0000_0000_0000

  type Word = w: int | 0 <= w < 0x1_0000_0000

  lemma Pow32()
    ensures Pow2(32) == TWO32
  {
    assert Pow2(8) == 256;
    assert Pow2(16) == 65536;
    assert Pow2(24) == 16777216;
  }

  /** Four bytes, low-order byte first. */
  function WordOf(b: seq<Byte>): Word
    requires |b| == 4
  {
    var b0: int, b1: int, b2: int, b3: int := b[0], b[1], b[2], b[3];
    b0 + 0x100 * b1 + 0x10000 * b2 + 0x1000000 * b3
  }

  function BytesOf(w: Word): (b: seq<Byte>)
    ensures |b| == 4 && WordOf(b) == w
  {
    var w1: int := w / 0x100;
    var w2: int := w1 / 0x100;
    [w % 0x100, w1 % 0x100, w2 % 0x100, w2 / 0x100]
  }

  lemma BytesOfWord(b: seq<Byte>)
    requires |b| == 4
    ensures BytesOf(WordOf(b)) == b
  {
    var b0: int, b1: int, b2: int, b3: int := b[0], b[1], b[2], b[3];
    var t1: int, t2: int := b1 + 0x100 * b2 + 0x10000 * b3, b2 + 0x100 * b3;
    assert WordOf(b) == b0 + 0x100 * t1;
    assert t1 == b1 + 0x100 * t2;
    assert WordOf(b) / 0x100 == t1 && t1 / 0x100 == t2;
  }

  // ---------------------------------------------------------------- two's complement

  type Int32 = d: int | -0x8000_0000 <= d < 0x8000_0000
  type Int64 = d: int | -0x8000_0000_0000_0000 <= d < 0x8000_0000_0000_0000

  function Signed(w: Word): (d: Int32)
    ensures Unsigned(d) == w
  {
    if w < 0x8000_0000 then w else w - TWO32
  }

  function Unsigned(d: Int32): Word {
    if d < 0 then d + TWO32 else d
  }

  function WideBytes(d: Int64): (b: seq<Byte>)
    ensures |b| == 8
  {
    var u := if d < 0 then d + TWO64 else d;
    BytesOf(u % TWO32) + BytesOf(u / TWO32)
  }

  function WideOf(b: seq<Byte>): Int64
    requires |b| == 8
  {
    var u: int := WordOf(b[..4]) + TWO32 * WordOf(b[4..]);
    if u < 0x8000_0000_0000_0000 then u else u - TWO64
  }

  lemma WideInverts(d: Int64)
    ensures WideOf(WideBytes(d)) == d
  {
    var u := if d < 0 then d + TWO64 else d;
    var b := WideBytes(d);
    assert b[..4] == BytesOf(u % TWO32) && b[4..] == BytesOf(u / TWO32);
  }
}
