/**
  The MD5 message digest.  Md5Spec is RFC 1321, section 3, over whole messages and in
  table-driven form; Md5 is the streaming class with its unrolled compression.
 */
module Md5Spec {
  import opened Wrappers
  import opened Bits
  import opened Words

  function AddW(x: Word, y: Word): Word {
    (x + y) % TWO32
  }

  lemma ShrSmall(x: nat, p: nat)
    requires p > 0
    ensures 0 <= x / p <= x
  {
    var q := x / p;
    assert x == q * p + x % p;
    MulAtLeast(q, p);
  }

  function AndW(x: Word, y: Word): Word { Pow32(); And(32, x, y) }
  function OrW(x: Word, y: Word): Word { Pow32(); Or(32, x, y) }
  function XorW(x: Word, y: Word): Word { Pow32(); Xor(32, x, y) }
  function NotW(x: Word): Word { Pow32(); Not(32, x) }
  function ShlW(x: Word, n: nat): Word { (x * Pow2(n)) % TWO32 }
  function ShrW(x: Word, n: nat): (r: Word)
    ensures r == x / Pow2(n)
  {
    ShrSmall(x, Pow2(n));
    x / Pow2(n)
  }

  // The basic functions of section 3.4.
  function F(x: Word, y: Word, z: Word): Word { OrW(AndW(x, y), AndW(NotW(x), z)) }
  function G(x: Word, y: Word, z: Word): Word { OrW(AndW(x, z), AndW(y, NotW(z))) }
  function H(x: Word, y: Word, z: Word): Word { XorW(XorW(x, y), z) }
  function I(x: Word, y: Word, z: Word): Word { XorW(y, OrW(x, NotW(z))) }

  function RotateLeft(x: Word, n: nat): Word
    requires n <= 32
  {
    OrW(ShlW(x, n), ShrW(x, 32 - n))
  }

  // ---------------------------------------------------------------- one block, by table

  // One row per round of 16 steps, in groups of four steps: the constants of the algorithm.
  const SINES: seq<seq<Word>> := [
    [0xd76aa478, 0xe8c7b756, 0x242070db, 0xc1bdceee], [0xf57c0faf, 0x4787c62a, 0xa8304613, 0xfd469501],
    [0x698098d8, 0x8b44f7af, 0xffff5bb1, 0x895cd7be], [0x6b901122, 0xfd987193, 0xa679438e, 0x49b40821],
    [0xf61e2562, 0xc040b340, 0x265e5a51, 0xe9b6c7aa], [0xd62f105d, 0x02441453, 0xd8a1e681, 0xe7d3fbc8],
    [0x21e1cde6, 0xc33707d6, 0xf4d50d87, 0x455a14ed], [0xa9e3e905, 0xfcefa3f8, 0x676f02d9, 0x8d2a4c8a],
    [0xfffa3942, 0x8771f681, 0x6d9d6122, 0xfde5380c], [0xa4beea44, 0x4bdecfa9, 0xf6bb4b60, 0xbebfbc70],
    [0x289b7ec6, 0xeaa127fa, 0xd4ef3085, 0x04881d05], [0xd9d4d039, 0xe6db99e5, 0x1fa27cf8, 0xc4ac5665],
    [0xf4292244, 0x432aff97, 0xab9423a7, 0xfc93a039], [0x655b59c3, 0x8f0ccc92, 0xffeff47d, 0x85845dd1],
    [0x6fa87e4f, 0xfe2ce6e0, 0xa3014314, 0x4e0811a1], [0xf7537e82, 0xbd3af235, 0x2ad7d2bb, 0xeb86d391]]

  const SHIFTS: seq<seq<nat>> := [[7, 12, 17, 22], [5, 9, 14, 20], [4, 11, 16, 23], [6, 10, 15, 21]]

  datatype Regs = Regs(a: Word, b: Word, c: Word, d: Word)

  const INIT: Regs := Regs(0x67452301, 0xefcdab89, 0x98badcfe, 0x10325476)

  function Basic(round: nat, b: Word, c: Word, d: Word): Word {
    if round == 0 then F(b, c, d)
    else if round == 1 then G(b, c, d)
    else if round == 2 then H(b, c, d)
    else I(b, c, d)
  }

  /** The word of the block used in a step. */
  function Index(i: nat): (k: nat)
    ensures k < 16
  {
    var round := i / 16;
    if round == 0 then i % 16
    else if round == 1 then (5 * i + 1) % 16
    else if round == 2 then (3 * i + 5) % 16
    else (7 * i) % 16
  }

  type Block = x: seq<Word> | |x| == 16 witness seq(16, _ => 0)

  function Sine(i: nat): Word
    requires i < 64
  {
    SINES[i / 4][i % 4]
  }

  function Shift(i: nat): (n: nat)
    requires i < 64
    ensures n <= 32
  {
    SHIFTS[i / 16][i % 4]
  }

  /** a = b + ((a + f(b, c, d) + X[k] + T[i]) <<< s), with f already applied. */
  function Mix(a: Word, f: Word, b: Word, x: Word, s: nat, ac: Word): Word
    requires s <= 32
  {
    AddW(RotateLeft(AddW(AddW(AddW(a, f), x), ac), s), b)
  }

  /** One step of the table: compute, then rotate the four registers. */
  function OneStep(r: Regs, x: Block, i: nat): Regs
    requires i < 64
  {
    Regs(r.d, Mix(r.a, Basic(i / 16, r.b, r.c, r.d), r.b, x[Index(i)], Shift(i), Sine(i)), r.b, r.c)
  }

  function Steps(r: Regs, x: Block, i: nat): Regs
    requires i <= 64
    decreases 64 - i
  {
    if i == 64 then r else Steps(OneStep(r, x, i), x, i + 1)
  }

  function AddRegs(r: Regs, s: Regs): Regs {
    Regs(AddW(r.a, s.a), AddW(r.b, s.b), AddW(r.c, s.c), AddW(r.d, s.d))
  }

  function Compress(r: Regs, x: Block): Regs {
    AddRegs(r, Steps(r, x, 0))
  }

  // ---------------------------------------------------------------- words and bytes

  function Decode(b: seq<Byte>): (x: seq<Word>)
    requires |b| % 4 == 0
    ensures |x| == |b| / 4
  {
    if |b| == 0 then [] else [WordOf(b[..4])] + Decode(b[4..])
  }

  function Encode(x: seq<Word>): (b: seq<Byte>)
    ensures |b| == 4 * |x|
  {
    if |x| == 0 then [] else BytesOf(x[0]) + Encode(x[1..])
  }

  lemma {:induction false} DecodeInvertsEncode(x: seq<Word>)
    ensures Decode(Encode(x)) == x
  {
    if |x| > 0 {
      var b := Encode(x);
      assert b[..4] == BytesOf(x[0]) && b[4..] == Encode(x[1..]);
      DecodeInvertsEncode(x[1..]);
    }
  }

  lemma {:induction false} EncodeInvertsDecode(b: seq<Byte>)
    requires |b| % 4 == 0
    ensures Encode(Decode(b)) == b
  {
    if |b| > 0 {
      EncodeInvertsDecode(b[4..]);
      BytesOfWord(b[..4]);
      assert b == b[..4] + b[4..];
    }
  }

  // ---------------------------------------------------------------- whole messages

  function Load(m: seq<Byte>): Block
    requires |m| == 64
  {
    Decode(m)
  }

  type Compression = (Regs, Block) -> Regs

  /** The blocks of a message, folded from the left with a compression function. */
  function Absorb(f: Compression, r: Regs, m: seq<Byte>): Regs
    requires |m| % 64 == 0
    decreases |m|
  {
    if |m| == 0 then r else Absorb(f, f(r, Load(m[..64])), m[64..])
  }

  /** Section 3.1: a one bit and zero bits up to 56 bytes modulo 64. */
  function Padding(length: nat): (p: seq<Byte>)
    ensures 1 <= |p| <= 64 && (length + |p|) % 64 == 56
    ensures p[0] == 0x80 && forall i :: 0 < i < |p| ==> p[i] == 0
  {
    var index := length % 64;
    [0x80] + Zeros(if index < 56 then 55 - index else 119 - index)
  }

  /** Section 3.2: the length in bits, modulo 2^64, low-order word first. */
  function LengthBytes(length: nat): (b: seq<Byte>)
    ensures |b| == 8
  {
    var bits := (8 * length) % TWO64;
    Encode([bits % TWO32, bits / TWO32])
  }

  lemma BlockEnd(n: nat)
    requires n % 64 == 56
    ensures (n + 8) % 64 == 0
  {
  }

  lemma LengthBytesAre(length: nat)
    ensures var b := LengthBytes(length); WordOf(b[..4]) + TWO32 * WordOf(b[4..]) == 8 * length % TWO64
  {
    var bits := (8 * length) % TWO64;
    DecodeInvertsEncode([bits % TWO32, bits / TWO32]);
    var b := LengthBytes(length);
    assert Decode(b)[0] == WordOf(b[..4]);
    assert Decode(b[4..]) == [WordOf(b[4..][..4])] + Decode(b[4..][4..]) && b[4..][..4] == b[4..];
    assert Decode(b)[1] == WordOf(b[4..]);
  }

  function Padded(m: seq<Byte>): (p: seq<Byte>)
    ensures |p| % 64 == 0
  {
    var p, b := Padding(|m|), LengthBytes(|m|);
    BlockEnd(|m| + |p|);
    m + p + b
  }

  /** Section 3.5. */
  function DigestOf(r: Regs): (d: seq<Byte>)
    ensures |d| == 16
  {
    Encode([r.a, r.b, r.c, r.d])
  }

  function Digest(m: seq<Byte>): (d: seq<Byte>)
    ensures |d| == 16
  {
    DigestOf(Absorb(Compress, INIT, Padded(m)))
  }

  lemma {:induction false} AbsorbAppend(f: Compression, r: Regs, m: seq<Byte>, t: seq<Byte>)
    requires |m| % 64 == 0 && |t| % 64 == 0
    ensures Absorb(f, r, m + t) == Absorb(f, Absorb(f, r, m), t)
    decreases |m|
  {
    hide Load;
    if |m| == 0 {
      assert m + t == t;
    } else {
      AbsorbAppend(f, f(r, Load(m[..64])), m[64..], t);
      assert (m + t)[..64] == m[..64] && (m + t)[64..] == m[64..] + t;
    }
  }

  // ---------------------------------------------------------------- the bit counter

  /** The two-word counter holds eight times the number of bytes, modulo 2^64. */
  ghost predicate Counts(lo: Word, hi: Word, total: nat) {
    lo + TWO32 * hi == (8 * total) % TWO64
  }

  lemma BytesInBlock(total: nat, k: nat, e: nat)
    requires total == 0x2000_0000 * k + e
    ensures e % 64 == total % 64
  {
    ModUnique(total, 64, 0x80_0000 * k + e / 64, e % 64);
  }

  lemma LowBits(lo: Word, hi: Word, q: nat, total: nat)
    requires 8 * total == TWO64 * q + TWO32 * hi + lo
    ensures lo == (8 * total) % TWO32
    ensures lo / 8 % 64 == total % 64
  {
    var k := TWO32 * q + hi;
    ModUnique(8 * total, TWO32, k, lo);
    var e := lo - 8 * (lo / 8);
    assert e == 8 * (total - 0x2000_0000 * k - lo / 8);
    BytesInBlock(total, k, lo / 8);
  }

  lemma LowCount(lo: Word, hi: Word, total: nat)
    requires Counts(lo, hi, total)
    ensures lo == (8 * total) % TWO32 && hi == (8 * total) % TWO64 / TWO32
    ensures lo / 8 % 64 == total % 64
  {
    var q := (8 * total) / TWO64;
    LowBits(lo, hi, q, total);
  }

  lemma LowerDigits(length: nat)
    ensures 8 * length == (8 * length) % TWO32 + TWO32 * (length / 0x2000_0000)
  {
  }

  lemma LowCarry(lo: Word, shifted: Word, lo': Word, carry: nat)
    requires lo' == (lo + shifted) % TWO32 && carry == if lo' < shifted then 1 else 0
    ensures lo + shifted == lo' + TWO32 * carry
  {
  }

  lemma TotalBits(total: nat, length: nat, count: nat, shifted: Word, lo': Word, carry: nat, hi: Word, hi': Word,
                  s: nat)
    requires count == (8 * total) % TWO64 && count + shifted == lo' + TWO32 * (hi + carry)
    requires 8 * length == shifted + TWO32 * (length / 0x2000_0000)
    requires s == hi + carry + length / 0x2000_0000 && hi' == s % TWO32
    ensures lo' + TWO32 * hi' == (8 * (total + length)) % TWO64
  {
    var q, q' := (8 * total) / TWO64, s / TWO32;
    assert s == hi' + TWO32 * q';
    assert 8 * (total + length) == TWO64 * (q + q') + (lo' + TWO32 * hi');
    ModUnique(8 * (total + length), TWO64, q + q', lo' + TWO32 * hi');
  }

  /** Adding a length with its carry, as the update does it. */
  lemma CountAdds(lo: Word, hi: Word, total: nat, length: nat, lo': Word, hi': Word)
    requires Counts(lo, hi, total) && length < TWO32
    requires var shifted := (8 * length) % TWO32;
             lo' == (lo + shifted) % TWO32
             && hi' == (hi + (if lo' < shifted then 1 else 0) + length / 0x2000_0000) % TWO32
    ensures Counts(lo', hi', total + length)
  {
    var shifted, carry := (8 * length) % TWO32, if lo' < (8 * length) % TWO32 then 1 else 0;
    LowerDigits(length);
    LowCarry(lo, shifted, lo', carry);
    var s := hi + carry + length / 0x2000_0000;
    TotalBits(total, length, lo + TWO32 * hi, shifted, lo', carry, hi, hi', s);
  }
}

/** The digest as a stream consumer: bytes go in piece by piece, the digest comes out at the end. */
module Md5 {
  import opened Wrappers
  import opened Bits
  import opened Words
  import opened Md5Spec

  // The four kinds of unrolled step.
  function FF(a: Word, b: Word, c: Word, d: Word, x: Word, s: nat, ac: Word): Word
    requires s <= 32
  {
    Mix(a, F(b, c, d), b, x, s, ac)
  }

  function GG(a: Word, b: Word, c: Word, d: Word, x: Word, s: nat, ac: Word): Word
    requires s <= 32
  {
    Mix(a, G(b, c, d), b, x, s, ac)
  }

  function HH(a: Word, b: Word, c: Word, d: Word, x: Word, s: nat, ac: Word): Word
    requires s <= 32
  {
    Mix(a, H(b, c, d), b, x, s, ac)
  }

  function II(a: Word, b: Word, c: Word, d: Word, x: Word, s: nat, ac: Word): Word
    requires s <= 32
  {
    Mix(a, I(b, c, d), b, x, s, ac)
  }

  lemma StepOnce(r: Regs, x: Block, i: nat)
    requires i < 64
    ensures Steps(r, x, i) == Steps(OneStep(r, x, i), x, i + 1)
  {
  }

  /** Four table steps bring the rotating registers back to their places. */
  lemma FourSteps(r: Regs, x: Block, i: nat)
    requires i <= 60
    ensures Steps(r, x, i) == Steps(OneStep(OneStep(OneStep(OneStep(r, x, i), x, i + 1), x, i + 2), x, i + 3), x, i + 4)
  {
    hide OneStep, Steps;
    StepOnce(r, x, i);
    StepOnce(OneStep(r, x, i), x, i + 1);
    StepOnce(OneStep(OneStep(r, x, i), x, i + 1), x, i + 2);
    StepOnce(OneStep(OneStep(OneStep(r, x, i), x, i + 1), x, i + 2), x, i + 3);
  }

  lemma StepFF(r: Regs, x: Block, i: nat)
    requires 0 <= i < 16
    ensures OneStep(r, x, i) ==
            Regs(r.d, FF(r.a, r.b, r.c, r.d, x[i % 16], SHIFTS[0][i % 4], SINES[i / 4][i % 4]), r.b, r.c)
  {
    hide Mix, F, G, H, I;
  }

  lemma FourFF(r: Regs, x: Block, g: nat)
    requires 0 <= g < 4
    ensures var i := 4 * g;
            var a := FF(r.a, r.b, r.c, r.d, x[i % 16], 7, SINES[g][0]);
            var d := FF(r.d, a, r.b, r.c, x[(i + 1) % 16], 12, SINES[g][1]);
            var c := FF(r.c, d, a, r.b, x[(i + 2) % 16], 17, SINES[g][2]);
            var b := FF(r.b, c, d, a, x[(i + 3) % 16], 22, SINES[g][3]);
            Steps(r, x, i) == Steps(Regs(a, b, c, d), x, i + 4)
  {
    hide FF, Steps, OneStep;
    var i := 4 * g;
    FourSteps(r, x, i);
    StepFF(r, x, i);
    var r1 := OneStep(r, x, i);
    StepFF(r1, x, i + 1);
    var r2 := OneStep(r1, x, i + 1);
    StepFF(r2, x, i + 2);
    StepFF(OneStep(r2, x, i + 2), x, i + 3);
  }

  lemma StepGG(r: Regs, x: Block, i: nat)
    requires 16 <= i < 32
    ensures OneStep(r, x, i) ==
            Regs(r.d, GG(r.a, r.b, r.c, r.d, x[(5 * i + 1) % 16], SHIFTS[1][i % 4], SINES[i / 4][i % 4]), r.b, r.c)
  {
    hide Mix, F, G, H, I;
  }

  lemma FourGG(r: Regs, x: Block, g: nat)
    requires 4 <= g < 8
    ensures var i := 4 * g;
            var a := GG(r.a, r.b, r.c, r.d, x[(5 * i + 1) % 16], 5, SINES[g][0]);
            var d := GG(r.d, a, r.b, r.c, x[(5 * i + 6) % 16], 9, SINES[g][1]);
            var c := GG(r.c, d, a, r.b, x[(5 * i + 11) % 16], 14, SINES[g][2]);
            var b := GG(r.b, c, d, a, x[(5 * i + 16) % 16], 20, SINES[g][3]);
            Steps(r, x, i) == Steps(Regs(a, b, c, d), x, i + 4)
  {
    hide GG, Steps, OneStep;
    var i := 4 * g;
    FourSteps(r, x, i);
    StepGG(r, x, i);
    var r1 := OneStep(r, x, i);
    StepGG(r1, x, i + 1);
    var r2 := OneStep(r1, x, i + 1);
    StepGG(r2, x, i + 2);
    StepGG(OneStep(r2, x, i + 2), x, i + 3);
  }

  lemma StepHH(r: Regs, x: Block, i: nat)
    requires 32 <= i < 48
    ensures OneStep(r, x, i) ==
            Regs(r.d, HH(r.a, r.b, r.c, r.d, x[(3 * i + 5) % 16], SHIFTS[2][i % 4], SINES[i / 4][i % 4]), r.b, r.c)
  {
    hide Mix, F, G, H, I;
  }

  lemma FourHH(r: Regs, x: Block, g: nat)
    requires 8 <= g < 12
    ensures var i := 4 * g;
            var a := HH(r.a, r.b, r.c, r.d, x[(3 * i + 5) % 16], 4, SINES[g][0]);
            var d := HH(r.d, a, r.b, r.c, x[(3 * i + 8) % 16], 11, SINES[g][1]);
            var c := HH(r.c, d, a, r.b, x[(3 * i + 11) % 16], 16, SINES[g][2]);
            var b := HH(r.b, c, d, a, x[(3 * i + 14) % 16], 23, SINES[g][3]);
            Steps(r, x, i) == Steps(Regs(a, b, c, d), x, i + 4)
  {
    hide HH, Steps, OneStep;
    var i := 4 * g;
    FourSteps(r, x, i);
    StepHH(r, x, i);
    var r1 := OneStep(r, x, i);
    StepHH(r1, x, i + 1);
    var r2 := OneStep(r1, x, i + 1);
    StepHH(r2, x, i + 2);
    StepHH(OneStep(r2, x, i + 2), x, i + 3);
  }

  lemma StepII(r: Regs, x: Block, i: nat)
    requires 48 <= i < 64
    ensures OneStep(r, x, i) ==
            Regs(r.d, II(r.a, r.b, r.c, r.d, x[(7 * i) % 16], SHIFTS[3][i % 4], SINES[i / 4][i % 4]), r.b, r.c)
  {
    hide Mix, F, G, H, I;
  }

  lemma FourII(r: Regs, x: Block, g: nat)
    requires 12 <= g < 16
    ensures var i := 4 * g;
            var a := II(r.a, r.b, r.c, r.d, x[7 * i % 16], 6, SINES[g][0]);
            var d := II(r.d, a, r.b, r.c, x[(7 * i + 7) % 16], 10, SINES[g][1]);
            var c := II(r.c, d, a, r.b, x[(7 * i + 14) % 16], 15, SINES[g][2]);
            var b := II(r.b, c, d, a, x[(7 * i + 21) % 16], 21, SINES[g][3]);
            Steps(r, x, i) == Steps(Regs(a, b, c, d), x, i + 4)
  {
    hide II, Steps, OneStep;
    var i := 4 * g;
    FourSteps(r, x, i);
    StepII(r, x, i);
    var r1 := OneStep(r, x, i);
    StepII(r1, x, i + 1);
    var r2 := OneStep(r1, x, i + 1);
    StepII(r2, x, i + 2);
    StepII(OneStep(r2, x, i + 2), x, i + 3);
  }

  method Round1(r: Regs, x: Block) returns (done: Regs)
    ensures Steps(r, x, 0) == Steps(done, x, 16)
  {
    hide FF, Steps;
    var Regs(a, b, c, d) := r;
    FourFF(Regs(a, b, c, d), x, 0);
    a := FF(a, b, c, d, x[0], 7, 0xd76aa478);
    d := FF(d, a, b, c, x[1], 12, 0xe8c7b756);
    c := FF(c, d, a, b, x[2], 17, 0x242070db);
    b := FF(b, c, d, a, x[3], 22, 0xc1bdceee);
    assert Steps(r, x, 0) == Steps(Regs(a, b, c, d), x, 4);
    FourFF(Regs(a, b, c, d), x, 1);
    a := FF(a, b, c, d, x[4], 7, 0xf57c0faf);
    d := FF(d, a, b, c, x[5], 12, 0x4787c62a);
    c := FF(c, d, a, b, x[6], 17, 0xa8304613);
    b := FF(b, c, d, a, x[7], 22, 0xfd469501);
    assert Steps(r, x, 0) == Steps(Regs(a, b, c, d), x, 8);
    FourFF(Regs(a, b, c, d), x, 2);
    a := FF(a, b, c, d, x[8], 7, 0x698098d8);
    d := FF(d, a, b, c, x[9], 12, 0x8b44f7af);
    c := FF(c, d, a, b, x[10], 17, 0xffff5bb1);
    b := FF(b, c, d, a, x[11], 22, 0x895cd7be);
    assert Steps(r, x, 0) == Steps(Regs(a, b, c, d), x, 12);
    FourFF(Regs(a, b, c, d), x, 3);
    a := FF(a, b, c, d, x[12], 7, 0x6b901122);
    d := FF(d, a, b, c, x[13], 12, 0xfd987193);
    c := FF(c, d, a, b, x[14], 17, 0xa679438e);
    b := FF(b, c, d, a, x[15], 22, 0x49b40821);
    done := Regs(a, b, c, d);
  }

  method Round2(r: Regs, x: Block) returns (done: Regs)
    ensures Steps(r, x, 16) == Steps(done, x, 32)
  {
    hide GG, Steps;
    var Regs(a, b, c, d) := r;
    FourGG(Regs(a, b, c, d), x, 4);
    a := GG(a, b, c, d, x[1], 5, 0xf61e2562);
    d := GG(d, a, b, c, x[6], 9, 0xc040b340);
    c := GG(c, d, a, b, x[11], 14, 0x265e5a51);
    b := GG(b, c, d, a, x[0], 20, 0xe9b6c7aa);
    assert Steps(r, x, 16) == Steps(Regs(a, b, c, d), x, 20);
    FourGG(Regs(a, b, c, d), x, 5);
    a := GG(a, b, c, d, x[5], 5, 0xd62f105d);
    d := GG(d, a, b, c, x[10], 9, 0x2441453);
    c := GG(c, d, a, b, x[15], 14, 0xd8a1e681);
    b := GG(b, c, d, a, x[4], 20, 0xe7d3fbc8);
    assert Steps(r, x, 16) == Steps(Regs(a, b, c, d), x, 24);
    FourGG(Regs(a, b, c, d), x, 6);
    a := GG(a, b, c, d, x[9], 5, 0x21e1cde6);
    d := GG(d, a, b, c, x[14], 9, 0xc33707d6);
    c := GG(c, d, a, b, x[3], 14, 0xf4d50d87);
    b := GG(b, c, d, a, x[8], 20, 0x455a14ed);
    assert Steps(r, x, 16) == Steps(Regs(a, b, c, d), x, 28);
    FourGG(Regs(a, b, c, d), x, 7);
    a := GG(a, b, c, d, x[13], 5, 0xa9e3e905);
    d := GG(d, a, b, c, x[2], 9, 0xfcefa3f8);
    c := GG(c, d, a, b, x[7], 14, 0x676f02d9);
    b := GG(b, c, d, a, x[12], 20, 0x8d2a4c8a);
    done := Regs(a, b, c, d);
  }

  method Round3(r: Regs, x: Block) returns (done: Regs)
    ensures Steps(r, x, 32) == Steps(done, x, 48)
  {
    hide HH, Steps;
    var Regs(a, b, c, d) := r;
    FourHH(Regs(a, b, c, d), x, 8);
    a := HH(a, b, c, d, x[5], 4, 0xfffa3942);
    d := HH(d, a, b, c, x[8], 11, 0x8771f681);
    c := HH(c, d, a, b, x[11], 16, 0x6d9d6122);
    b := HH(b, c, d, a, x[14], 23, 0xfde5380c);
    assert Steps(r, x, 32) == Steps(Regs(a, b, c, d), x, 36);
    FourHH(Regs(a, b, c, d), x, 9);
    a := HH(a, b, c, d, x[1], 4, 0xa4beea44);
    d := HH(d, a, b, c, x[4], 11, 0x4bdecfa9);
    c := HH(c, d, a, b, x[7], 16, 0xf6bb4b60);
    b := HH(b, c, d, a, x[10], 23, 0xbebfbc70);
    assert Steps(r, x, 32) == Steps(Regs(a, b, c, d), x, 40);
    FourHH(Regs(a, b, c, d), x, 10);
    a := HH(a, b, c, d, x[13], 4, 0x289b7ec6);
    d := HH(d, a, b, c, x[0], 11, 0xeaa127fa);
    c := HH(c, d, a, b, x[3], 16, 0xd4ef3085);
    b := HH(b, c, d, a, x[6], 23, 0x4881d05);
    assert Steps(r, x, 32) == Steps(Regs(a, b, c, d), x, 44);
    FourHH(Regs(a, b, c, d), x, 11);
    a := HH(a, b, c, d, x[9], 4, 0xd9d4d039);
    d := HH(d, a, b, c, x[12], 11, 0xe6db99e5);
    c := HH(c, d, a, b, x[15], 16, 0x1fa27cf8);
    b := HH(b, c, d, a, x[2], 23, 0xc4ac5665);
    done := Regs(a, b, c, d);
  }

  method Round4(r: Regs, x: Block) returns (done: Regs)
    ensures Steps(r, x, 48) == Steps(done, x, 64)
  {
    hide II, Steps;
    var Regs(a, b, c, d) := r;
    FourII(Regs(a, b, c, d), x, 12);
    a := II(a, b, c, d, x[0], 6, 0xf4292244);
    d := II(d, a, b, c, x[7], 10, 0x432aff97);
    c := II(c, d, a, b, x[14], 15, 0xab9423a7);
    b := II(b, c, d, a, x[5], 21, 0xfc93a039);
    assert Steps(r, x, 48) == Steps(Regs(a, b, c, d), x, 52);
    FourII(Regs(a, b, c, d), x, 13);
    a := II(a, b, c, d, x[12], 6, 0x655b59c3);
    d := II(d, a, b, c, x[3], 10, 0x8f0ccc92);
    c := II(c, d, a, b, x[10], 15, 0xffeff47d);
    b := II(b, c, d, a, x[1], 21, 0x85845dd1);
    assert Steps(r, x, 48) == Steps(Regs(a, b, c, d), x, 56);
    FourII(Regs(a, b, c, d), x, 14);
    a := II(a, b, c, d, x[8], 6, 0x6fa87e4f);
    d := II(d, a, b, c, x[15], 10, 0xfe2ce6e0);
    c := II(c, d, a, b, x[6], 15, 0xa3014314);
    b := II(b, c, d, a, x[13], 21, 0x4e0811a1);
    assert Steps(r, x, 48) == Steps(Regs(a, b, c, d), x, 60);
    FourII(Regs(a, b, c, d), x, 15);
    a := II(a, b, c, d, x[4], 6, 0xf7537e82);
    d := II(d, a, b, c, x[11], 10, 0xbd3af235);
    c := II(c, d, a, b, x[2], 15, 0x2ad7d2bb);
    b := II(b, c, d, a, x[9], 21, 0xeb86d391);
    done := Regs(a, b, c, d);
  }
  // ---------------------------------------------------------------- words and bytes

  const FULL: Word := 0xff

  lemma SmallPowers()
    ensures Pow2(8) == 0x100 && Pow2(16) == 0x10000 && Pow2(24) == 0x1000000
  {
    assert Pow2(8) == 0x100;
    assert Pow2(16) == 0x10000;
  }

  lemma MaskWord(w: Word)
    ensures AndW(w, FULL) == w % 0x100
  {
    SmallPowers();
    hide And, Pow2;
    AndMask(32, 8, w);
  }

  lemma MaskShifted(w: Word, n: nat, p: nat)
    requires p == Pow2(n)
    ensures AndW(ShrW(w, n), FULL) == w / p % 0x100
  {
    hide AndW, Pow2;
    MaskWord(ShrW(w, n));
  }

  lemma Quotients(w: nat)
    ensures w / 0x10000 == w / 0x100 / 0x100 && w / 0x1000000 == w / 0x10000 / 0x100
  {
  }

  /** Masking and shifting picks the four bytes of a word. */
  lemma SplitWord(w: Word)
    ensures BytesOf(w) == [AndW(w, FULL), AndW(ShrW(w, 8), FULL), AndW(ShrW(w, 16), FULL), AndW(ShrW(w, 24), FULL)]
  {
    SmallPowers();
    hide AndW, Pow2, ShrW;
    MaskWord(w);
    MaskShifted(w, 8, 0x100);
    MaskShifted(w, 16, 0x10000);
    MaskShifted(w, 24, 0x1000000);
    Quotients(w);
  }

  lemma PowPlus8(k: nat)
    ensures Pow2(k + 8) == 256 * Pow2(k)
  {
    assert Pow2(k + 2) == 4 * Pow2(k);
    assert Pow2(k + 4) == 16 * Pow2(k);
    assert Pow2(k + 6) == 64 * Pow2(k);
  }

  lemma SmallMod(v: nat)
    requires v < TWO32
    ensures v % TWO32 == v
  {
  }

  lemma ByteRoom(p: nat, x: nat, y: nat)
    requires x < p && y < 256
    ensures x + y * p < 256 * p
  {
    assert p * (256 - y) == 256 * p - y * p;
    MulAtLeast(p, 256 - y);
  }

  lemma PowFits(k: nat)
    requires k <= 24
    ensures Pow2(k + 8) == 256 * Pow2(k) <= TWO32 && Pow2(k) > 0
  {
    hide Pow2;
    PowPlus8(k);
    PowMonotone(k + 8, 32);
    Pow32();
  }

  lemma ShiftByte(k: nat, y: Byte)
    requires k <= 24
    ensures y * Pow2(k) < TWO32 && ShlW(y, k) == y * Pow2(k)
  {
    hide Pow2;
    PowFits(k);
    var p, yn: nat := Pow2(k), y;
    ByteRoom(p, 0, yn);
    SmallMod(yn * p);
  }

  /** A shifted byte joins a number below it by addition. */
  lemma JoinByte(k: nat, x: Word, y: Byte)
    requires k <= 24 && x < Pow2(k)
    ensures x + y * Pow2(k) < Pow2(k + 8) <= TWO32 && OrW(x, ShlW(y, k)) == x + y * Pow2(k)
  {
    hide Or, Pow2, ShlW;
    ShiftByte(k, y);
    PowFits(k);
    Pow32();
    ByteRoom(Pow2(k), x, y);
    OrDisjoint(32, k, x, y);
  }

  /** Shifting and joining four bytes is the word they stand for. */
  lemma JoinWord(b: seq<Byte>)
    requires |b| == 4
    ensures OrW(OrW(OrW(b[0], ShlW(b[1], 8)), ShlW(b[2], 16)), ShlW(b[3], 24)) == WordOf(b)
  {
    SmallPowers();
    hide OrW, ShlW, Pow2;
    JoinByte(8, b[0], b[1]);
    JoinByte(16, OrW(b[0], ShlW(b[1], 8)), b[2]);
    JoinByte(24, OrW(OrW(b[0], ShlW(b[1], 8)), ShlW(b[2], 16)), b[3]);
  }

  lemma DecodeNext(input: seq<Byte>, j: nat)
    requires |input| % 4 == 0 && j % 4 == 0 && j + 4 <= |input|
    ensures Decode(input[j..]) ==
            [OrW(OrW(OrW(input[j], ShlW(input[j + 1], 8)), ShlW(input[j + 2], 16)), ShlW(input[j + 3], 24))]
            + Decode(input[j + 4..])
  {
    var left := input[j..];
    JoinWord(left[..4]);
    hide OrW, ShlW, WordOf;
    assert left[4..] == input[j + 4..];
  }

  method DecodeInto(output: array<Word>, input: seq<Byte>)
    requires |input| % 4 == 0 && output.Length == |input| / 4
    modifies output
    ensures output[..] == Decode(input)
  {
    hide OrW, ShlW, WordOf;
    var i, j := 0, 0;
    assert input[0..] == input;
    while j < |input|
      invariant j == 4 * i && j <= |input|
      invariant output[..i] + Decode(input[j..]) == Decode(input)
    {
      ghost var before := output[..i];
      DecodeNext(input, j);
      output[i] := OrW(OrW(OrW(input[j], ShlW(input[j + 1], 8)), ShlW(input[j + 2], 16)), ShlW(input[j + 3], 24));
      assert output[..i + 1] == before + [output[i]];
      Regroup(before, [output[i]], Decode(input[j + 4..]));
      i, j := i + 1, j + 4;
    }
    assert output[..i] == output[..];
  }

  lemma EncodeNext(input: seq<Word>, i: nat)
    requires i < |input|
    ensures Encode(input[i..]) == BytesOf(input[i]) + Encode(input[i + 1..])
  {
    assert input[i..][1..] == input[i + 1..];
  }

  lemma EncodeNone(input: seq<Word>)
    ensures input[0..] == input && Encode(input[|input|..]) == []
  {
  }

  method EncodeInto(output: array<Byte>, input: seq<Word>)
    requires output.Length == 4 * |input|
    modifies output
    ensures output[..] == Encode(input)
  {
    hide AndW, ShrW, BytesOf, Encode;
    var i, j := 0, 0;
    EncodeNone(input);
    while j < output.Length
      invariant j == 4 * i && i <= |input|
      invariant output[..j] + Encode(input[i..]) == Encode(input)
    {
      ghost var before, b := output[..j], BytesOf(input[i]);
      SplitWord(input[i]);
      EncodeNext(input, i);
      output[j] := AsByte(input[i]);
      output[j + 1] := AsByte(ShrW(input[i], 8));
      output[j + 2] := AsByte(ShrW(input[i], 16));
      output[j + 3] := AsByte(ShrW(input[i], 24));
      assert output[..j + 4] == before + b;
      Regroup(before, b, Encode(input[i + 1..]));
      i, j := i + 1, j + 4;
    }
    assert output[..j] == output[..] && output[..] + [] == output[..];
  }

  /** The low byte of a word, by masking. */
  function AsByte(w: Word): Byte {
    MaskWord(w);
    AndW(w, FULL)
  }

  // ---------------------------------------------------------------- the stream

  const BLOCK_SIZE: nat := 64

  /** One more whole block of a message. */
  lemma AbsorbNext(f: Compression, r: Regs, m: seq<Byte>, k: nat)
    requires k % 64 == 0 && k + 64 <= |m|
    ensures (k + 64) % 64 == 0
    ensures Absorb(f, r, m[..k + 64]) == f(Absorb(f, r, m[..k]), Load(m[k..k + 64]))
  {
    hide Load;
    var block := m[k..k + 64];
    assert m[..k + 64] == m[..k] + block;
    AbsorbAppend(f, r, m[..k], block);
    assert block[..64] == block && block[64..] == [];
  }

  lemma AbsorbedNext(state: Regs, m: seq<Byte>, k: nat)
    requires Absorbed(state, m, k) && k + 64 <= |m|
    ensures Absorbed(Compress(state, Load(m[k..k + 64])), m, k + 64)
  {
    hide Compress, Absorb, Load;
    AbsorbNext(Compress, INIT, m, k);
  }

  /** A state that absorbed `k` bytes, with fewer than a block left over. */
  lemma HoldsTail(m: seq<Byte>, state: Regs, buffer: seq<Byte>, k: nat)
    requires Absorbed(state, m, k) && |m| < k + 64 && |buffer| == BLOCK_SIZE && buffer[..|m| - k] == m[k..]
    ensures Holds(m, state, buffer)
  {
    hide Compress, Absorb;
    assert |m| % BLOCK_SIZE == |m| - k;
  }

  lemma HoldsAll(m: seq<Byte>, state: Regs, buffer: seq<Byte>)
    requires Holds(m, state, buffer) && |m| % 64 == 0
    ensures state == Absorb(Compress, INIT, m)
  {
    hide Compress, Absorb;
    assert m[..|m|] == m;
  }

  /** The counter knows how many bytes the buffer holds. */
  lemma Buffered(lo: Word, hi: Word, m: seq<Byte>, state: Regs, buffer: seq<Byte>)
    requires Counts(lo, hi, |m|) && Holds(m, state, buffer)
    ensures var index := lo / 8 % BLOCK_SIZE; var base := |m| - index;
            && index == |m| % BLOCK_SIZE && base >= 0 && base % 64 == 0 && |buffer| == BLOCK_SIZE
            && buffer[..index] == m[base..]
            && forall t :: Absorbed(state, m + t, base)
  {
    LowCount(lo, hi, |m|);
    hide Counts, Compress, Absorb;
    var base := |m| - |m| % BLOCK_SIZE;
    forall t ensures Absorbed(state, m + t, base) {
      assert (m + t)[..base] == m[..base];
    }
  }

  lemma JoinSlices(t: seq<Byte>, input: seq<Byte>, base: nat, n: nat)
    requires base <= |t| && n <= |input|
    ensures (t + input)[base..|t| + n] == t[base..] + input[..n]
    ensures (t + input)[|t| + n..] == input[n..]
  {
  }

  /** The held bytes and the first of the input make a block of the message. */
  lemma BlockFilled(held: seq<Byte>, t: seq<Byte>, input: seq<Byte>, base: nat)
    requires |held| == BLOCK_SIZE && base <= |t| && |t| - base < BLOCK_SIZE <= |t| - base + |input|
    requires held[..|t| - base] == t[base..]
    ensures var n := BLOCK_SIZE - (|t| - base);
            && held[..|t| - base] + input[..n] + held[BLOCK_SIZE..] == (t + input)[base..base + BLOCK_SIZE]
            && (t + input)[base + BLOCK_SIZE..] == input[n..]
  {
    JoinSlices(t, input, base, BLOCK_SIZE - (|t| - base));
  }

  /** The held bytes and a short input are the tail of the message. */
  lemma BlockBegun(held: seq<Byte>, t: seq<Byte>, input: seq<Byte>, base: nat)
    requires |held| == BLOCK_SIZE && base <= |t| && |t| - base + |input| < BLOCK_SIZE
    requires held[..|t| - base] == t[base..]
    ensures var all := held[..|t| - base] + input + held[|t| - base + |input|..];
            |all| == BLOCK_SIZE && all[..|t| - base + |input|] == (t + input)[base..]
  {
  }

  lemma TailCopied(held: seq<Byte>, tail: seq<Byte>)
    requires |tail| <= |held|
    ensures var all := held[..0] + tail + held[0 + |tail|..]; |all| == |held| && all[..|tail|] == tail
  {
  }

  lemma SliceBlock(m: seq<Byte>, k: nat, input: seq<Byte>, i: nat)
    requires k <= |m| && i + 64 <= |input| && m[k..] == input[i..]
    ensures k + 64 <= |m| && m[k..k + 64] == input[i..i + 64] && m[k + 64..] == input[i + 64..]
  {
    assert m[k..][..64] == m[k..k + 64] && input[i..][..64] == input[i..i + 64];
    assert m[k..][64..] == m[k + 64..] && input[i..][64..] == input[i + 64..];
  }

  lemma CarryOnce(hi: Word, carry: nat, more: nat)
    requires carry <= 1
    ensures ((hi + carry) % TWO32 + more) % TWO32 == (hi + carry + more) % TWO32
  {
  }

  lemma PaddingPrefix(length: nat)
    ensures var index := length % 64;
            PADDING[..if index < 56 then 56 - index else 120 - index] == Padding(length)
  {
  }

  lemma LengthIsCount(lo: Word, hi: Word, length: nat)
    requires Counts(lo, hi, length)
    ensures Encode([lo, hi]) == LengthBytes(length)
  {
    hide Encode;
    LowCount(lo, hi, length);
    ModUnique((8 * length) % TWO64, TWO32, hi, lo);
  }

  lemma StepsEnd(r: Regs, x: Block)
    ensures Steps(r, x, 64) == r
  {
  }

  class MD5 {
    var finalized: bool
    const buffer: array<Byte>
    // The bit counter, low word first.
    var countLo: Word
    var countHi: Word
    var state: Regs
    const digest: array<Byte>

    // Every byte consumed so far.
    ghost var total: seq<Byte>

    ghost predicate Sized()
      reads this
    {
      buffer.Length == BLOCK_SIZE && digest.Length == 16 && buffer != digest
    }

    /**
      The state has absorbed all whole blocks, the buffer starts with the bytes after
      them, and the counter holds the number of bits.
     */
    ghost predicate Valid()
      reads this, buffer
    {
      && Sized() && !finalized
      && Holds(total, state, buffer[..])
      && Counts(countLo, countHi, |total|)
    }

    constructor ()
      ensures Valid() && total == [] && fresh(buffer) && fresh(digest)
    {
      finalized := false;
      buffer := new Byte[BLOCK_SIZE](_ => 0);
      countLo, countHi := 0, 0;
      state := Regs(0x67452301, 0xefcdab89, 0x98badcfe, 0x10325476);
      digest := new Byte[16](_ => 0);
      total := [];
    }

    method Transform(block: seq<Byte>)
      requires |block| == BLOCK_SIZE
      modifies this`state
      ensures state == Compress(old(state), Load(block))
    {
      hide Mix, AddW, Steps, Decode;
      var x := new Word[16];
      DecodeInto(x, block);
      var r1 := Round1(state, x[..]);
      var r2 := Round2(r1, x[..]);
      var r3 := Round3(r2, x[..]);
      var r4 := Round4(r3, x[..]);
      StepsEnd(r4, x[..]);
      state := Regs(AddW(state.a, r4.a), AddW(state.b, r4.b), AddW(state.c, r4.c), AddW(state.d, r4.d));
    }

    method Update(input: seq<Byte>)
      requires Valid() && |input| <= MAX_UPDATE
      modifies this`total, this`countLo, this`countHi, this`state, buffer
      ensures Valid() && total == old(total) + input
    {
      hide Compress, Load, Absorbed, Counts, Holds;
      var length := |input|;
      var index := countLo / 8 % BLOCK_SIZE;
      Buffered(countLo, countHi, total, state, buffer[..]);
      AddLength(length);
      var firstpart := BLOCK_SIZE - index;
      if length >= firstpart {
        FillAndTransform(index, input);
      } else {
        ghost var base := |total| - index;
        BlockBegun(buffer[..], total, input, base);
        Copy(buffer, index, input);
        HoldsTail(total + input, state, buffer[..], base);
      }
      total := total + input;
    }

    /** Input that fills the buffer: it and all whole blocks are absorbed, and the rest is buffered. */
    method FillAndTransform(index: nat, input: seq<Byte>)
      requires Sized() && index < BLOCK_SIZE <= index + |input| && index <= |total| && (|total| - index) % 64 == 0
      requires buffer[..index] == total[|total| - index..] && Absorbed(state, total + input, |total| - index)
      modifies this`state, buffer
      ensures Holds(total + input, state, buffer[..])
    {
      hide Compress, Load, Absorbed, Holds;
      ghost var m, base := total + input, |total| - index;
      var firstpart := BLOCK_SIZE - index;
      BlockFilled(buffer[..], total, input, base);
      Copy(buffer, index, input[..firstpart]);
      var i := TransformBlocks(m, base, input, firstpart);
      TailCopied(buffer[..], input[i..]);
      Copy(buffer, 0, input[i..]);
      HoldsTail(m, state, buffer[..], |total| + i);
    }

    /** The full buffer, then whole blocks straight from the input. */
    method TransformBlocks(ghost m: seq<Byte>, ghost base: nat, input: seq<Byte>, firstpart: nat) returns (i: nat)
      requires Sized() && base % 64 == 0 && 0 < firstpart <= |input| && base + 64 == |m| - |input| + firstpart
      requires m[base + 64..] == input[firstpart..] && buffer[..] == m[base..base + 64]
      requires Absorbed(state, m, base)
      modifies this`state
      ensures firstpart <= i <= |input| < i + 64
      ensures var k := |m| - |input| + i; Absorbed(state, m, k) && m[k..] == input[i..]
    {
      hide Compress, Load, Absorbed;
      ghost var offset := |m| - |input|;
      AbsorbedNext(state, m, base);
      Transform(buffer[..]);
      i := firstpart;
      while i + BLOCK_SIZE <= |input|
        invariant firstpart <= i <= |input| && Absorbed(state, m, offset + i)
        invariant m[offset + i..] == input[i..]
        decreases |input| - i
      {
        AbsorbedNext(state, m, offset + i);
        SliceBlock(m, offset + i, input, i);
        Transform(input[i..i + BLOCK_SIZE]);
        i := i + BLOCK_SIZE;
      }
    }

    /** The two-word counter goes up by the bits of the input. */
    method AddLength(length: nat)
      requires length < TWO32 && Counts(countLo, countHi, |total|)
      modifies this`countLo, this`countHi
      ensures Counts(countLo, countHi, |total| + length)
    {
      ghost var lo, hi := countLo, countHi;
      var shifted := (8 * length) % TWO32;
      countLo := (countLo + shifted) % TWO32;
      if countLo < shifted {
        countHi := (countHi + 1) % TWO32;
      }
      countHi := (countHi + length / 0x2000_0000) % TWO32;
      CarryOnce(hi, if countLo < shifted then 1 else 0, length / 0x2000_0000);
      CountAdds(lo, hi, |total|, length, countLo, countHi);
    }

    method Finalize()
      requires Sized() && (finalized || Valid())
      modifies this, buffer, digest
      ensures Sized() && finalized
      ensures if old(finalized) then digest[..] == old(digest[..]) else digest[..] == Digest(old(total))
      ensures !old(finalized) ==> buffer[..] == Zeros(BLOCK_SIZE) && countLo == 0 && countHi == 0
    {
      hide Compress, Load, Absorb, Encode, Padding, Counts;
      if !finalized {
        ghost var m := total;
        var bits := new Byte[8];
        EncodeInto(bits, [countLo, countHi]);
        LengthIsCount(countLo, countHi, |m|);
        Buffered(countLo, countHi, m, state, buffer[..]);
        var index := countLo / 8 % 64;
        var padLen := if index < 56 then 56 - index else 120 - index;
        PaddingPrefix(|m|);
        Update(PADDING[..padLen]);
        Update(bits[..]);
        assert total == Padded(m);
        HoldsAll(total, state, buffer[..]);
        EncodeInto(digest, [state.a, state.b, state.c, state.d]);
        Copy(buffer, 0, Zeros(BLOCK_SIZE));
        countLo, countHi := 0, 0;
        finalized := true;
      }
    }
  }

  /** What the streaming state is after the bytes `m`. */
  ghost predicate Holds(m: seq<Byte>, state: Regs, buffer: seq<Byte>) {
    var tail := |m| % BLOCK_SIZE;
    && |buffer| == BLOCK_SIZE
    && Absorbed(state, m, |m| - tail)
    && buffer[..tail] == m[|m| - tail..]
  }

  ghost predicate Absorbed(state: Regs, m: seq<Byte>, k: int) {
    0 <= k <= |m| && k % 64 == 0 && state == Absorb(Compress, INIT, m[..k])
  }

  // A longer length would let the block loop's index wrap around its 32 bits.
  const MAX_UPDATE: nat := 0xffff_ffbf

  const PADDING: seq<Byte> := [0x80] + Zeros(63)

  /** A whole use: any sequence of updates, then the digest of everything. */
  method DigestChunks(chunks: seq<seq<Byte>>) returns (d: seq<Byte>)
    requires forall c :: c in chunks ==> |c| <= MAX_UPDATE
    ensures d == Digest(Concat(chunks))
  {
    hide Digest, Holds, Counts;
    var md5 := new MD5();
    for i := 0 to |chunks|
      invariant md5.Valid() && md5.total == Concat(chunks[..i])
      invariant fresh(md5.buffer) && fresh(md5.digest) && fresh(md5)
    {
      assert chunks[..i + 1] == chunks[..i] + [chunks[i]];
      ConcatLast(chunks[..i], chunks[i]);
      md5.Update(chunks[i]);
    }
    assert chunks[..|chunks|] == chunks;
    md5.Finalize();
    d := md5.digest[..];
  }
}
