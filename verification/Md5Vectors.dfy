/**
  The published digests of the empty message and of "abc" (RFC 1321, appendix A.5),
  computed step by step.
 */
module Md5Vectors {
  import opened Wrappers
  import opened Bits
  import opened Words
  import opened BitBytes
  import opened Md5Spec
  import opened Md5Bits
  import opened Md5

  // ---------------------------------------------------------------- one step on bytes

  /** The basic function of a round, byte by byte. */
  function BasicQuad(round: nat, x: Quad, y: Quad, z: Quad): Quad {
    if round == 0 then x.And(y).Or(x.Not().And(z))
    else if round == 1 then x.And(z).Or(y.And(z.Not()))
    else if round == 2 then x.Xor(y).Xor(z)
    else y.Xor(x.Or(z.Not()))
  }

  lemma BasicIsBasicQuad(round: nat, x: Quad, y: Quad, z: Quad)
    ensures Basic(round, x.Value(), y.Value(), z.Value()) == BasicQuad(round, x, y, z).Value()
  {
    hide And, Or, Xor, Not, Quad.And, Quad.Or, Quad.Not, Quad.Xor, Quad.Value;
    if round == 0 {
      AndQuad(x, y);
      NotQuad(x);
      AndQuad(x.Not(), z);
      OrQuad(x.And(y), x.Not().And(z));
    } else if round == 1 {
      AndQuad(x, z);
      NotQuad(z);
      AndQuad(y, z.Not());
      OrQuad(x.And(z), y.And(z.Not()));
    } else if round == 2 {
      XorQuad(x, y);
      XorQuad(x.Xor(y), z);
    } else {
      NotQuad(z);
      OrQuad(x, z.Not());
      XorQuad(y, x.Or(z.Not()));
    }
  }

  function RegsOf(a: Quad, b: Quad, c: Quad, d: Quad): Regs {
    Regs(a.Value(), b.Value(), c.Value(), d.Value())
  }

  // The powers of two for a rotation.
  predicate Powers(n: nat, p: nat, q: nat) {
    n <= 32 && p == Pow2(n) && q == Pow2(32 - n)
  }

  // What the table says about step `i`: the place of its word, its shift with the powers
  // of two for it, and its constant.
  predicate Entry(i: nat, k: nat, n: nat, p: nat, q: nat, sine: Word) {
    i < 64 && Index(i) == k && Shift(i) == n && Powers(n, p, q) && Sine(i) == sine
  }

  lemma SumsAgree(a: Word, f: Word, w: Word, k: Word)
    ensures AddW(AddW(AddW(a, f), w), k) == (a + f + w + k) % TWO32
  {
  }

  /** Mixing, given the sum that is rotated and what it makes. */
  lemma MixMakes(a: Word, f: Word, b: Word, w: Word, n: nat, k: Word, p: nat, q: nat, sum: Word, made: Word)
    requires n <= 32 && p == Pow2(n) && q == Pow2(32 - n)
    requires sum == (a + f + w + k) % TWO32
    requires p > 0 && q > 0 && made == (sum / q + p * (sum % q) + b) % TWO32
    ensures Mix(a, f, b, w, n, k) == made
  {
    hide RotateLeft, Pow2;
    SumsAgree(a, f, w, k);
    RotateIs(sum, n);
  }

  /** Step `i`, given its table entry, its word, the sum that is rotated, and the register it makes. */
  lemma Row(i: nat, a: Quad, b: Quad, c: Quad, d: Quad, x: Block, k: nat, w: Word, n: nat, p: nat, q: nat, sine: Word,
            sum: Word, made: Quad)
    requires Entry(i, k, n, p, q, sine) && k < 16 && x[k] == w
    requires sum == (a.Value() + BasicQuad(i / 16, b, c, d).Value() + w + sine) % TWO32
    requires p > 0 && q > 0 && made.Value() == (sum / q + p * (sum % q) + b.Value()) % TWO32
    ensures Steps(RegsOf(a, b, c, d), x, i) == Steps(RegsOf(d, made, b, c), x, i + 1)
  {
    hide Basic, BasicQuad, RotateLeft, Mix, Pow2, Quad.Value, Index, Shift, Sine;
    BasicIsBasicQuad(i / 16, b, c, d);
    MixMakes(a.Value(), BasicQuad(i / 16, b, c, d).Value(), b.Value(), w, n, sine, p, q, sum, made.Value());
  }

  // ---------------------------------------------------------------- short messages

  /** The block of a message of one word at most: the message with its first padding byte, and the length. */
  predicate IsShort(x: Block, w0: Word, w14: Word) {
    forall k :: 0 <= k < 16 ==> x[k] == if k == 0 then w0 else if k == 14 then w14 else 0
  }

  lemma PowersBelow24()
    ensures Pow2(4) == 0x10 && Pow2(5) == 0x20 && Pow2(6) == 0x40 && Pow2(7) == 0x80
    ensures Pow2(9) == 0x200 && Pow2(10) == 0x400 && Pow2(11) == 0x800 && Pow2(12) == 0x1000
    ensures Pow2(14) == 0x4000 && Pow2(15) == 0x8000 && Pow2(16) == 0x1_0000 && Pow2(17) == 0x2_0000
    ensures Pow2(20) == 0x10_0000 && Pow2(21) == 0x20_0000 && Pow2(22) == 0x40_0000 && Pow2(23) == 0x80_0000
  {
    assert Pow2(8) == 0x100;
    assert Pow2(13) == 0x2000;
    assert Pow2(18) == 0x4_0000;
  }

  lemma PowersAre(n: nat, p: nat, q: nat)
    requires n <= 32 && Pow2(n) == p && p * q == TWO32
    ensures Powers(n, p, q)
  {
    hide Pow2;
    PowProduct(n, 32 - n);
    Pow32();
    assert p * (Pow2(32 - n) - q) == 0;
  }

  lemma Powers1()
    ensures Powers(7, 0x80, 0x2000000)
    ensures Powers(12, 0x1000, 0x100000)
    ensures Powers(17, 0x20000, 0x8000)
    ensures Powers(22, 0x400000, 0x400)
  {
    hide Pow2, Powers;
    PowersBelow24();
    PowersAre(7, 0x80, 0x2000000);
    PowersAre(12, 0x1000, 0x100000);
    PowersAre(17, 0x20000, 0x8000);
    PowersAre(22, 0x400000, 0x400);
  }

  lemma Powers2()
    ensures Powers(5, 0x20, 0x8000000)
    ensures Powers(9, 0x200, 0x800000)
    ensures Powers(14, 0x4000, 0x40000)
    ensures Powers(20, 0x100000, 0x1000)
  {
    hide Pow2, Powers;
    PowersBelow24();
    PowersAre(5, 0x20, 0x8000000);
    PowersAre(9, 0x200, 0x800000);
    PowersAre(14, 0x4000, 0x40000);
    PowersAre(20, 0x100000, 0x1000);
  }

  lemma Powers3()
    ensures Powers(4, 0x10, 0x10000000)
    ensures Powers(11, 0x800, 0x200000)
    ensures Powers(16, 0x10000, 0x10000)
    ensures Powers(23, 0x800000, 0x200)
  {
    hide Pow2, Powers;
    PowersBelow24();
    PowersAre(4, 0x10, 0x10000000);
    PowersAre(11, 0x800, 0x200000);
    PowersAre(16, 0x10000, 0x10000);
    PowersAre(23, 0x800000, 0x200);
  }

  lemma Powers4()
    ensures Powers(6, 0x40, 0x4000000)
    ensures Powers(10, 0x400, 0x400000)
    ensures Powers(15, 0x8000, 0x20000)
    ensures Powers(21, 0x200000, 0x800)
  {
    hide Pow2, Powers;
    PowersBelow24();
    PowersAre(6, 0x40, 0x4000000);
    PowersAre(10, 0x400, 0x400000);
    PowersAre(15, 0x8000, 0x20000);
    PowersAre(21, 0x200000, 0x800);
  }

  lemma Table0()
    ensures Entry(0, 0, 7, 0x80, 0x2000000, 0xd76aa478)
    ensures Entry(1, 1, 12, 0x1000, 0x100000, 0xe8c7b756)
    ensures Entry(2, 2, 17, 0x20000, 0x8000, 0x242070db)
    ensures Entry(3, 3, 22, 0x400000, 0x400, 0xc1bdceee)
  {
    hide Powers;
    Powers1();
  }

  lemma Table4()
    ensures Entry(4, 4, 7, 0x80, 0x2000000, 0xf57c0faf)
    ensures Entry(5, 5, 12, 0x1000, 0x100000, 0x4787c62a)
    ensures Entry(6, 6, 17, 0x20000, 0x8000, 0xa8304613)
    ensures Entry(7, 7, 22, 0x400000, 0x400, 0xfd469501)
  {
    hide Powers;
    Powers1();
  }

  lemma Table8()
    ensures Entry(8, 8, 7, 0x80, 0x2000000, 0x698098d8)
    ensures Entry(9, 9, 12, 0x1000, 0x100000, 0x8b44f7af)
    ensures Entry(10, 10, 17, 0x20000, 0x8000, 0xffff5bb1)
    ensures Entry(11, 11, 22, 0x400000, 0x400, 0x895cd7be)
  {
    hide Powers;
    Powers1();
  }

  lemma Table12()
    ensures Entry(12, 12, 7, 0x80, 0x2000000, 0x6b901122)
    ensures Entry(13, 13, 12, 0x1000, 0x100000, 0xfd987193)
    ensures Entry(14, 14, 17, 0x20000, 0x8000, 0xa679438e)
    ensures Entry(15, 15, 22, 0x400000, 0x400, 0x49b40821)
  {
    hide Powers;
    Powers1();
  }

  lemma Table16()
    ensures Entry(16, 1, 5, 0x20, 0x8000000, 0xf61e2562)
    ensures Entry(17, 6, 9, 0x200, 0x800000, 0xc040b340)
    ensures Entry(18, 11, 14, 0x4000, 0x40000, 0x265e5a51)
    ensures Entry(19, 0, 20, 0x100000, 0x1000, 0xe9b6c7aa)
  {
    hide Powers;
    Powers2();
  }

  lemma Table20()
    ensures Entry(20, 5, 5, 0x20, 0x8000000, 0xd62f105d)
    ensures Entry(21, 10, 9, 0x200, 0x800000, 0x2441453)
    ensures Entry(22, 15, 14, 0x4000, 0x40000, 0xd8a1e681)
    ensures Entry(23, 4, 20, 0x100000, 0x1000, 0xe7d3fbc8)
  {
    hide Powers;
    Powers2();
  }

  lemma Table24()
    ensures Entry(24, 9, 5, 0x20, 0x8000000, 0x21e1cde6)
    ensures Entry(25, 14, 9, 0x200, 0x800000, 0xc33707d6)
    ensures Entry(26, 3, 14, 0x4000, 0x40000, 0xf4d50d87)
    ensures Entry(27, 8, 20, 0x100000, 0x1000, 0x455a14ed)
  {
    hide Powers;
    Powers2();
  }

  lemma Table28()
    ensures Entry(28, 13, 5, 0x20, 0x8000000, 0xa9e3e905)
    ensures Entry(29, 2, 9, 0x200, 0x800000, 0xfcefa3f8)
    ensures Entry(30, 7, 14, 0x4000, 0x40000, 0x676f02d9)
    ensures Entry(31, 12, 20, 0x100000, 0x1000, 0x8d2a4c8a)
  {
    hide Powers;
    Powers2();
  }

  lemma Table32()
    ensures Entry(32, 5, 4, 0x10, 0x10000000, 0xfffa3942)
    ensures Entry(33, 8, 11, 0x800, 0x200000, 0x8771f681)
    ensures Entry(34, 11, 16, 0x10000, 0x10000, 0x6d9d6122)
    ensures Entry(35, 14, 23, 0x800000, 0x200, 0xfde5380c)
  {
    hide Powers;
    Powers3();
  }

  lemma Table36()
    ensures Entry(36, 1, 4, 0x10, 0x10000000, 0xa4beea44)
    ensures Entry(37, 4, 11, 0x800, 0x200000, 0x4bdecfa9)
    ensures Entry(38, 7, 16, 0x10000, 0x10000, 0xf6bb4b60)
    ensures Entry(39, 10, 23, 0x800000, 0x200, 0xbebfbc70)
  {
    hide Powers;
    Powers3();
  }

  lemma Table40()
    ensures Entry(40, 13, 4, 0x10, 0x10000000, 0x289b7ec6)
    ensures Entry(41, 0, 11, 0x800, 0x200000, 0xeaa127fa)
    ensures Entry(42, 3, 16, 0x10000, 0x10000, 0xd4ef3085)
    ensures Entry(43, 6, 23, 0x800000, 0x200, 0x4881d05)
  {
    hide Powers;
    Powers3();
  }

  lemma Table44()
    ensures Entry(44, 9, 4, 0x10, 0x10000000, 0xd9d4d039)
    ensures Entry(45, 12, 11, 0x800, 0x200000, 0xe6db99e5)
    ensures Entry(46, 15, 16, 0x10000, 0x10000, 0x1fa27cf8)
    ensures Entry(47, 2, 23, 0x800000, 0x200, 0xc4ac5665)
  {
    hide Powers;
    Powers3();
  }

  lemma Table48()
    ensures Entry(48, 0, 6, 0x40, 0x4000000, 0xf4292244)
    ensures Entry(49, 7, 10, 0x400, 0x400000, 0x432aff97)
    ensures Entry(50, 14, 15, 0x8000, 0x20000, 0xab9423a7)
    ensures Entry(51, 5, 21, 0x200000, 0x800, 0xfc93a039)
  {
    hide Powers;
    Powers4();
  }

  lemma Table52()
    ensures Entry(52, 12, 6, 0x40, 0x4000000, 0x655b59c3)
    ensures Entry(53, 3, 10, 0x400, 0x400000, 0x8f0ccc92)
    ensures Entry(54, 10, 15, 0x8000, 0x20000, 0xffeff47d)
    ensures Entry(55, 1, 21, 0x200000, 0x800, 0x85845dd1)
  {
    hide Powers;
    Powers4();
  }

  lemma Table56()
    ensures Entry(56, 8, 6, 0x40, 0x4000000, 0x6fa87e4f)
    ensures Entry(57, 15, 10, 0x400, 0x400000, 0xfe2ce6e0)
    ensures Entry(58, 6, 15, 0x8000, 0x20000, 0xa3014314)
    ensures Entry(59, 13, 21, 0x200000, 0x800, 0x4e0811a1)
  {
    hide Powers;
    Powers4();
  }

  lemma Table60()
    ensures Entry(60, 4, 6, 0x40, 0x4000000, 0xf7537e82)
    ensures Entry(61, 11, 10, 0x400, 0x400000, 0xbd3af235)
    ensures Entry(62, 2, 15, 0x8000, 0x20000, 0x2ad7d2bb)
    ensures Entry(63, 9, 21, 0x200000, 0x800, 0xeb86d391)
  {
    hide Powers;
    Powers4();
  }

  // ---------------------------------------------------------------- the message of no bytes

  lemma Empty0(x: Block)
    requires IsShort(x, 0x80, 0)
    ensures Steps(RegsOf(Quad(0x01, 0x23, 0x45, 0x67), Quad(0x89, 0xab, 0xcd, 0xef),
                         Quad(0xfe, 0xdc, 0xba, 0x98), Quad(0x76, 0x54, 0x32, 0x10)),
                  x, 0) ==
            Steps(RegsOf(Quad(0xfe, 0xdc, 0xba, 0x98), Quad(0xdd, 0x92, 0x95, 0xf5),
                         Quad(0x74, 0x27, 0x20, 0xa5), Quad(0x89, 0xab, 0xcd, 0xef)),
                  x, 2)
  {
    hide Steps, Entry, RegsOf;
    Table0();
    Row(0, Quad(0x01, 0x23, 0x45, 0x67), Quad(0x89, 0xab, 0xcd, 0xef),
        Quad(0xfe, 0xdc, 0xba, 0x98), Quad(0x76, 0x54, 0x32, 0x10),
        x, 0, 0x80, 7, 0x80, 0x2000000, 0xd76aa478, 0xd76aa4f7,
        Quad(0x74, 0x27, 0x20, 0xa5));
    Row(1, Quad(0x76, 0x54, 0x32, 0x10), Quad(0x74, 0x27, 0x20, 0xa5),
        Quad(0x89, 0xab, 0xcd, 0xef), Quad(0xfe, 0xdc, 0xba, 0x98),
        x, 1, 0x0, 12, 0x1000, 0x100000, 0xe8c7b756, 0xb6950756,
        Quad(0xdd, 0x92, 0x95, 0xf5));
  }

  lemma Empty2(x: Block)
    requires IsShort(x, 0x80, 0)
    ensures Steps(RegsOf(Quad(0xfe, 0xdc, 0xba, 0x98), Quad(0xdd, 0x92, 0x95, 0xf5),
                         Quad(0x74, 0x27, 0x20, 0xa5), Quad(0x89, 0xab, 0xcd, 0xef)),
                  x, 2) ==
            Steps(RegsOf(Quad(0x74, 0x27, 0x20, 0xa5), Quad(0x03, 0x32, 0x16, 0x1b),
                         Quad(0x23, 0x6b, 0xf0, 0xe7), Quad(0xdd, 0x92, 0x95, 0xf5)),
                  x, 4)
  {
    hide Steps, Entry, RegsOf;
    Table0();
    Row(2, Quad(0xfe, 0xdc, 0xba, 0x98), Quad(0xdd, 0x92, 0x95, 0xf5),
        Quad(0x74, 0x27, 0x20, 0xa5), Quad(0x89, 0xab, 0xcd, 0xef),
        x, 2, 0x0, 17, 0x20000, 0x8000, 0x242070db, 0x6c23792d,
        Quad(0x23, 0x6b, 0xf0, 0xe7));
    Row(3, Quad(0x89, 0xab, 0xcd, 0xef), Quad(0x23, 0x6b, 0xf0, 0xe7),
        Quad(0xdd, 0x92, 0x95, 0xf5), Quad(0x74, 0x27, 0x20, 0xa5),
        x, 3, 0x0, 22, 0x400000, 0x400, 0xc1bdceee, 0x971b80cc,
        Quad(0x03, 0x32, 0x16, 0x1b));
  }

  lemma Empty4(x: Block)
    requires IsShort(x, 0x80, 0)
    ensures Steps(RegsOf(Quad(0x74, 0x27, 0x20, 0xa5), Quad(0x03, 0x32, 0x16, 0x1b),
                         Quad(0x23, 0x6b, 0xf0, 0xe7), Quad(0xdd, 0x92, 0x95, 0xf5)),
                  x, 4) ==
            Steps(RegsOf(Quad(0x23, 0x6b, 0xf0, 0xe7), Quad(0x94, 0xd4, 0x35, 0x2f),
                         Quad(0x44, 0x33, 0x03, 0x32), Quad(0x03, 0x32, 0x16, 0x1b)),
                  x, 6)
  {
    hide Steps, Entry, RegsOf;
    Table4();
    Row(4, Quad(0x74, 0x27, 0x20, 0xa5), Quad(0x03, 0x32, 0x16, 0x1b),
        Quad(0x23, 0x6b, 0xf0, 0xe7), Quad(0xdd, 0x92, 0x95, 0xf5),
        x, 4, 0x0, 7, 0x80, 0x2000000, 0xf57c0faf, 0x822dda02,
        Quad(0x44, 0x33, 0x03, 0x32));
    Row(5, Quad(0xdd, 0x92, 0x95, 0xf5), Quad(0x44, 0x33, 0x03, 0x32),
        Quad(0x03, 0x32, 0x16, 0x1b), Quad(0x23, 0x6b, 0xf0, 0xe7),
        x, 5, 0x0, 12, 0x1000, 0x100000, 0x4787c62a, 0x150fd32a,
        Quad(0x94, 0xd4, 0x35, 0x2f));
  }

  lemma Empty6(x: Block)
    requires IsShort(x, 0x80, 0)
    ensures Steps(RegsOf(Quad(0x23, 0x6b, 0xf0, 0xe7), Quad(0x94, 0xd4, 0x35, 0x2f),
                         Quad(0x44, 0x33, 0x03, 0x32), Quad(0x03, 0x32, 0x16, 0x1b)),
                  x, 6) ==
            Steps(RegsOf(Quad(0x44, 0x33, 0x03, 0x32), Quad(0xe9, 0x3c, 0xc1, 0x9b),
                         Quad(0xdb, 0x58, 0xb1, 0xf5), Quad(0x94, 0xd4, 0x35, 0x2f)),
                  x, 8)
  {
    hide Steps, Entry, RegsOf;
    Table4();
    Row(6, Quad(0x23, 0x6b, 0xf0, 0xe7), Quad(0x94, 0xd4, 0x35, 0x2f),
        Quad(0x44, 0x33, 0x03, 0x32), Quad(0x03, 0x32, 0x16, 0x1b),
        x, 6, 0x0, 17, 0x20000, 0x8000, 0xa8304613, 0xc223e33d,
        Quad(0xdb, 0x58, 0xb1, 0xf5));
    Row(7, Quad(0x03, 0x32, 0x16, 0x1b), Quad(0xdb, 0x58, 0xb1, 0xf5),
        Quad(0x94, 0xd4, 0x35, 0x2f), Quad(0x44, 0x33, 0x03, 0x32),
        x, 7, 0x0, 22, 0x400000, 0x400, 0xfd469501, 0x3f903a98,
        Quad(0xe9, 0x3c, 0xc1, 0x9b));
  }

  lemma Empty8(x: Block)
    requires IsShort(x, 0x80, 0)
    ensures Steps(RegsOf(Quad(0x44, 0x33, 0x03, 0x32), Quad(0xe9, 0x3c, 0xc1, 0x9b),
                         Quad(0xdb, 0x58, 0xb1, 0xf5), Quad(0x94, 0xd4, 0x35, 0x2f)),
                  x, 8) ==
            Steps(RegsOf(Quad(0xdb, 0x58, 0xb1, 0xf5), Quad(0x12, 0xa3, 0xe4, 0xfc),
                         Quad(0x91, 0xb9, 0x93, 0x38), Quad(0xe9, 0x3c, 0xc1, 0x9b)),
                  x, 10)
  {
    hide Steps, Entry, RegsOf;
    Table8();
    Row(8, Quad(0x44, 0x33, 0x03, 0x32), Quad(0xe9, 0x3c, 0xc1, 0x9b),
        Quad(0xdb, 0x58, 0xb1, 0xf5), Quad(0x94, 0xd4, 0x35, 0x2f),
        x, 8, 0x0, 7, 0x80, 0x2000000, 0x698098d8, 0x5139a4f9,
        Quad(0x91, 0xb9, 0x93, 0x38));
    Row(9, Quad(0x94, 0xd4, 0x35, 0x2f), Quad(0x91, 0xb9, 0x93, 0x38),
        Quad(0xe9, 0x3c, 0xc1, 0x9b), Quad(0xdb, 0x58, 0xb1, 0xf5),
        x, 9, 0x0, 12, 0x1000, 0x100000, 0x8b44f7af, 0x981c450e,
        Quad(0x12, 0xa3, 0xe4, 0xfc));
  }

  lemma Empty10(x: Block)
    requires IsShort(x, 0x80, 0)
    ensures Steps(RegsOf(Quad(0xdb, 0x58, 0xb1, 0xf5), Quad(0x12, 0xa3, 0xe4, 0xfc),
                         Quad(0x91, 0xb9, 0x93, 0x38), Quad(0xe9, 0x3c, 0xc1, 0x9b)),
                  x, 10) ==
            Steps(RegsOf(Quad(0x91, 0xb9, 0x93, 0x38), Quad(0x29, 0x8a, 0x76, 0x70),
                         Quad(0x76, 0x05, 0xef, 0xe1), Quad(0x12, 0xa3, 0xe4, 0xfc)),
                  x, 12)
  {
    hide Steps, Entry, RegsOf;
    Table8();
    Row(10, Quad(0xdb, 0x58, 0xb1, 0xf5), Quad(0x12, 0xa3, 0xe4, 0xfc),
        Quad(0x91, 0xb9, 0x93, 0x38), Quad(0xe9, 0x3c, 0xc1, 0x9b),
        x, 10, 0x0, 17, 0x20000, 0x8000, 0xffff5bb1, 0x31327285,
        Quad(0x76, 0x05, 0xef, 0xe1));
    Row(11, Quad(0xe9, 0x3c, 0xc1, 0x9b), Quad(0x76, 0x05, 0xef, 0xe1),
        Quad(0x12, 0xa3, 0xe4, 0xfc), Quad(0x91, 0xb9, 0x93, 0x38),
        x, 11, 0x0, 22, 0x400000, 0x400, 0x895cd7be, 0x1e12ce3a,
        Quad(0x29, 0x8a, 0x76, 0x70));
  }

  lemma Empty12(x: Block)
    requires IsShort(x, 0x80, 0)
    ensures Steps(RegsOf(Quad(0x91, 0xb9, 0x93, 0x38), Quad(0x29, 0x8a, 0x76, 0x70),
                         Quad(0x76, 0x05, 0xef, 0xe1), Quad(0x12, 0xa3, 0xe4, 0xfc)),
                  x, 12) ==
            Steps(RegsOf(Quad(0x76, 0x05, 0xef, 0xe1), Quad(0xa7, 0x43, 0x49, 0x37),
                         Quad(0xf1, 0x7c, 0x6c, 0xf5), Quad(0x29, 0x8a, 0x76, 0x70)),
                  x, 14)
  {
    hide Steps, Entry, RegsOf;
    Table12();
    Row(12, Quad(0x91, 0xb9, 0x93, 0x38), Quad(0x29, 0x8a, 0x76, 0x70),
        Quad(0x76, 0x05, 0xef, 0xe1), Quad(0x12, 0xa3, 0xe4, 0xfc),
        x, 12, 0x0, 7, 0x80, 0x2000000, 0x6b901122, 0x9109ebe5,
        Quad(0xf1, 0x7c, 0x6c, 0xf5));
    Row(13, Quad(0x12, 0xa3, 0xe4, 0xfc), Quad(0xf1, 0x7c, 0x6c, 0xf5),
        Quad(0x29, 0x8a, 0x76, 0x70), Quad(0x76, 0x05, 0xef, 0xe1),
        x, 13, 0x0, 12, 0x1000, 0x100000, 0xfd987193, 0x6b641dcc,
        Quad(0xa7, 0x43, 0x49, 0x37));
  }

  lemma Empty14(x: Block)
    requires IsShort(x, 0x80, 0)
    ensures Steps(RegsOf(Quad(0x76, 0x05, 0xef, 0xe1), Quad(0xa7, 0x43, 0x49, 0x37),
                         Quad(0xf1, 0x7c, 0x6c, 0xf5), Quad(0x29, 0x8a, 0x76, 0x70)),
                  x, 14) ==
            Steps(RegsOf(Quad(0xf1, 0x7c, 0x6c, 0xf5), Quad(0x6a, 0x9c, 0x81, 0xd6),
                         Quad(0x75, 0x3f, 0xa5, 0x5a), Quad(0xa7, 0x43, 0x49, 0x37)),
                  x, 16)
  {
    hide Steps, Entry, RegsOf;
    Table12();
    Row(14, Quad(0x76, 0x05, 0xef, 0xe1), Quad(0xa7, 0x43, 0x49, 0x37),
        Quad(0xf1, 0x7c, 0x6c, 0xf5), Quad(0x29, 0x8a, 0x76, 0x70),
        x, 14, 0x0, 17, 0x20000, 0x8000, 0xa679438e, 0xfde711ad,
        Quad(0x75, 0x3f, 0xa5, 0x5a));
    Row(15, Quad(0x29, 0x8a, 0x76, 0x70), Quad(0x75, 0x3f, 0xa5, 0x5a),
        Quad(0xa7, 0x43, 0x49, 0x37), Quad(0xf1, 0x7c, 0x6c, 0xf5),
        x, 15, 0x0, 22, 0x400000, 0x400, 0x49b40821, 0x7173d5ef,
        Quad(0x6a, 0x9c, 0x81, 0xd6));
  }

  lemma Empty16(x: Block)
    requires IsShort(x, 0x80, 0)
    ensures Steps(RegsOf(Quad(0xf1, 0x7c, 0x6c, 0xf5), Quad(0x6a, 0x9c, 0x81, 0xd6),
                         Quad(0x75, 0x3f, 0xa5, 0x5a), Quad(0xa7, 0x43, 0x49, 0x37)),
                  x, 16) ==
            Steps(RegsOf(Quad(0x75, 0x3f, 0xa5, 0x5a), Quad(0x3a, 0x7a, 0xd5, 0x7b),
                         Quad(0x13, 0x75, 0x7d, 0x1c), Quad(0x6a, 0x9c, 0x81, 0xd6)),
                  x, 18)
  {
    hide Steps, Entry, RegsOf;
    Table16();
    Row(16, Quad(0xf1, 0x7c, 0x6c, 0xf5), Quad(0x6a, 0x9c, 0x81, 0xd6),
        Quad(0x75, 0x3f, 0xa5, 0x5a), Quad(0xa7, 0x43, 0x49, 0x37),
        x, 1, 0x0, 5, 0x20, 0x8000000, 0xf61e2562, 0x4a2fdec5,
        Quad(0x13, 0x75, 0x7d, 0x1c));
    Row(17, Quad(0xa7, 0x43, 0x49, 0x37), Quad(0x13, 0x75, 0x7d, 0x1c),
        Quad(0x6a, 0x9c, 0x81, 0xd6), Quad(0x75, 0x3f, 0xa5, 0x5a),
        x, 6, 0x0, 9, 0x200, 0x800000, 0xc040b340, 0x93afac02,
        Quad(0x3a, 0x7a, 0xd5, 0x7b));
  }

  lemma Empty18(x: Block)
    requires IsShort(x, 0x80, 0)
    ensures Steps(RegsOf(Quad(0x75, 0x3f, 0xa5, 0x5a), Quad(0x3a, 0x7a, 0xd5, 0x7b),
                         Quad(0x13, 0x75, 0x7d, 0x1c), Quad(0x6a, 0x9c, 0x81, 0xd6)),
                  x, 18) ==
            Steps(RegsOf(Quad(0x13, 0x75, 0x7d, 0x1c), Quad(0x17, 0x2e, 0x78, 0xbd),
                         Quad(0x3a, 0xf1, 0x95, 0xc0), Quad(0x3a, 0x7a, 0xd5, 0x7b)),
                  x, 20)
  {
    hide Steps, Entry, RegsOf;
    Table16();
    Row(18, Quad(0x75, 0x3f, 0xa5, 0x5a), Quad(0x3a, 0x7a, 0xd5, 0x7b),
        Quad(0x13, 0x75, 0x7d, 0x1c), Quad(0x6a, 0x9c, 0x81, 0xd6),
        x, 11, 0x0, 14, 0x4000, 0x40000, 0x265e5a51, 0xdc011301,
        Quad(0x3a, 0xf1, 0x95, 0xc0));
    Row(19, Quad(0x6a, 0x9c, 0x81, 0xd6), Quad(0x3a, 0xf1, 0x95, 0xc0),
        Quad(0x3a, 0x7a, 0xd5, 0x7b), Quad(0x13, 0x75, 0x7d, 0x1c),
        x, 0, 0x80, 20, 0x100000, 0x1000, 0xe9b6c7aa, 0x23cddfce,
        Quad(0x17, 0x2e, 0x78, 0xbd));
  }

  lemma Empty20(x: Block)
    requires IsShort(x, 0x80, 0)
    ensures Steps(RegsOf(Quad(0x13, 0x75, 0x7d, 0x1c), Quad(0x17, 0x2e, 0x78, 0xbd),
                         Quad(0x3a, 0xf1, 0x95, 0xc0), Quad(0x3a, 0x7a, 0xd5, 0x7b)),
                  x, 20) ==
            Steps(RegsOf(Quad(0x3a, 0xf1, 0x95, 0xc0), Quad(0xe3, 0xb3, 0xb7, 0x68),
                         Quad(0x6c, 0x3e, 0x1e, 0x3d), Quad(0x17, 0x2e, 0x78, 0xbd)),
                  x, 22)
  {
    hide Steps, Entry, RegsOf;
    Table20();
    Row(20, Quad(0x13, 0x75, 0x7d, 0x1c), Quad(0x17, 0x2e, 0x78, 0xbd),
        Quad(0x3a, 0xf1, 0x95, 0xc0), Quad(0x3a, 0x7a, 0xd5, 0x7b),
        x, 5, 0x0, 5, 0x20, 0x8000000, 0xd62f105d, 0xabfd3082,
        Quad(0x6c, 0x3e, 0x1e, 0x3d));
    Row(21, Quad(0x3a, 0x7a, 0xd5, 0x7b), Quad(0x6c, 0x3e, 0x1e, 0x3d),
        Quad(0x17, 0x2e, 0x78, 0xbd), Quad(0x3a, 0xf1, 0x95, 0xc0),
        x, 10, 0x0, 9, 0x200, 0x800000, 0x2441453, 0xbb95ccba,
        Quad(0xe3, 0xb3, 0xb7, 0x68));
  }

  lemma Empty22(x: Block)
    requires IsShort(x, 0x80, 0)
    ensures Steps(RegsOf(Quad(0x3a, 0xf1, 0x95, 0xc0), Quad(0xe3, 0xb3, 0xb7, 0x68),
                         Quad(0x6c, 0x3e, 0x1e, 0x3d), Quad(0x17, 0x2e, 0x78, 0xbd)),
                  x, 22) ==
            Steps(RegsOf(Quad(0x6c, 0x3e, 0x1e, 0x3d), Quad(0x1a, 0x53, 0x22, 0xe4),
                         Quad(0x3e, 0x64, 0x41, 0xeb), Quad(0xe3, 0xb3, 0xb7, 0x68)),
                  x, 24)
  {
    hide Steps, Entry, RegsOf;
    Table20();
    Row(22, Quad(0x3a, 0xf1, 0x95, 0xc0), Quad(0xe3, 0xb3, 0xb7, 0x68),
        Quad(0x6c, 0x3e, 0x1e, 0x3d), Quad(0x17, 0x2e, 0x78, 0xbd),
        x, 15, 0x0, 14, 0x4000, 0x40000, 0xd8a1e681, 0xc16e0a26,
        Quad(0x3e, 0x64, 0x41, 0xeb));
    Row(23, Quad(0x17, 0x2e, 0x78, 0xbd), Quad(0x3e, 0x64, 0x41, 0xeb),
        Quad(0xe3, 0xb3, 0xb7, 0x68), Quad(0x6c, 0x3e, 0x1e, 0x3d),
        x, 4, 0x0, 20, 0x100000, 0x1000, 0xe7d3fbc8, 0xeedcf8e,
        Quad(0x1a, 0x53, 0x22, 0xe4));
  }

  lemma Empty24(x: Block)
    requires IsShort(x, 0x80, 0)
    ensures Steps(RegsOf(Quad(0x6c, 0x3e, 0x1e, 0x3d), Quad(0x1a, 0x53, 0x22, 0xe4),
                         Quad(0x3e, 0x64, 0x41, 0xeb), Quad(0xe3, 0xb3, 0xb7, 0x68)),
                  x, 24) ==
            Steps(RegsOf(Quad(0x3e, 0x64, 0x41, 0xeb), Quad(0xc2, 0x77, 0x8c, 0xd2),
                         Quad(0x22, 0xc1, 0x6e, 0x30), Quad(0x1a, 0x53, 0x22, 0xe4)),
                  x, 26)
  {
    hide Steps, Entry, RegsOf;
    Table24();
    Row(24, Quad(0x6c, 0x3e, 0x1e, 0x3d), Quad(0x1a, 0x53, 0x22, 0xe4),
        Quad(0x3e, 0x64, 0x41, 0xeb), Quad(0xe3, 0xb3, 0xb7, 0x68),
        x, 9, 0x0, 5, 0x20, 0x8000000, 0x21e1cde6, 0x42626370,
        Quad(0x22, 0xc1, 0x6e, 0x30));
    Row(25, Quad(0xe3, 0xb3, 0xb7, 0x68), Quad(0x22, 0xc1, 0x6e, 0x30),
        Quad(0x1a, 0x53, 0x22, 0xe4), Quad(0x3e, 0x64, 0x41, 0xeb),
        x, 14, 0x0, 9, 0x200, 0x800000, 0xc33707d6, 0x50510edb,
        Quad(0xc2, 0x77, 0x8c, 0xd2));
  }

  lemma Empty26(x: Block)
    requires IsShort(x, 0x80, 0)
    ensures Steps(RegsOf(Quad(0x3e, 0x64, 0x41, 0xeb), Quad(0xc2, 0x77, 0x8c, 0xd2),
                         Quad(0x22, 0xc1, 0x6e, 0x30), Quad(0x1a, 0x53, 0x22, 0xe4)),
                  x, 26) ==
            Steps(RegsOf(Quad(0x22, 0xc1, 0x6e, 0x30), Quad(0x07, 0x28, 0x57, 0xa0),
                         Quad(0xda, 0x63, 0xc6, 0xa3), Quad(0xc2, 0x77, 0x8c, 0xd2)),
                  x, 28)
  {
    hide Steps, Entry, RegsOf;
    Table24();
    Row(26, Quad(0x3e, 0x64, 0x41, 0xeb), Quad(0xc2, 0x77, 0x8c, 0xd2),
        Quad(0x22, 0xc1, 0x6e, 0x30), Quad(0x1a, 0x53, 0x22, 0xe4),
        x, 3, 0x0, 14, 0x4000, 0x40000, 0xf4d50d87, 0xb06344e7,
        Quad(0xda, 0x63, 0xc6, 0xa3));
    Row(27, Quad(0x1a, 0x53, 0x22, 0xe4), Quad(0xda, 0x63, 0xc6, 0xa3),
        Quad(0xc2, 0x77, 0x8c, 0xd2), Quad(0x22, 0xc1, 0x6e, 0x30),
        x, 8, 0x0, 20, 0x100000, 0x1000, 0x455a14ed, 0xc42dfc9,
        Quad(0x07, 0x28, 0x57, 0xa0));
  }

  lemma Empty28(x: Block)
    requires IsShort(x, 0x80, 0)
    ensures Steps(RegsOf(Quad(0x22, 0xc1, 0x6e, 0x30), Quad(0x07, 0x28, 0x57, 0xa0),
                         Quad(0xda, 0x63, 0xc6, 0xa3), Quad(0xc2, 0x77, 0x8c, 0xd2)),
                  x, 28) ==
            Steps(RegsOf(Quad(0xda, 0x63, 0xc6, 0xa3), Quad(0xdb, 0x13, 0x78, 0xae),
                         Quad(0x36, 0x70, 0x70, 0x13), Quad(0x07, 0x28, 0x57, 0xa0)),
                  x, 30)
  {
    hide Steps, Entry, RegsOf;
    Table28();
    Row(28, Quad(0x22, 0xc1, 0x6e, 0x30), Quad(0x07, 0x28, 0x57, 0xa0),
        Quad(0xda, 0x63, 0xc6, 0xa3), Quad(0xc2, 0x77, 0x8c, 0xd2),
        x, 13, 0x0, 5, 0x20, 0x8000000, 0xa9e3e905, 0x7b98ca41,
        Quad(0x36, 0x70, 0x70, 0x13));
    Row(29, Quad(0xc2, 0x77, 0x8c, 0xd2), Quad(0x36, 0x70, 0x70, 0x13),
        Quad(0x07, 0x28, 0x57, 0xa0), Quad(0xda, 0x63, 0xc6, 0xa3),
        x, 2, 0x0, 9, 0x200, 0x800000, 0xfcefa3f8, 0xd2cd83d1,
        Quad(0xdb, 0x13, 0x78, 0xae));
  }

  lemma Empty30(x: Block)
    requires IsShort(x, 0x80, 0)
    ensures Steps(RegsOf(Quad(0xda, 0x63, 0xc6, 0xa3), Quad(0xdb, 0x13, 0x78, 0xae),
                         Quad(0x36, 0x70, 0x70, 0x13), Quad(0x07, 0x28, 0x57, 0xa0)),
                  x, 30) ==
            Steps(RegsOf(Quad(0x36, 0x70, 0x70, 0x13), Quad(0x1f, 0x5f, 0x20, 0xa2),
                         Quad(0x84, 0xc3, 0x31, 0x1c), Quad(0xdb, 0x13, 0x78, 0xae)),
                  x, 32)
  {
    hide Steps, Entry, RegsOf;
    Table28();
    Row(30, Quad(0xda, 0x63, 0xc6, 0xa3), Quad(0xdb, 0x13, 0x78, 0xae),
        Quad(0x36, 0x70, 0x70, 0x13), Quad(0x07, 0x28, 0x57, 0xa0),
        x, 7, 0x0, 14, 0x4000, 0x40000, 0x676f02d9, 0xbea5b6e6,
        Quad(0x84, 0xc3, 0x31, 0x1c));
    Row(31, Quad(0x07, 0x28, 0x57, 0xa0), Quad(0x84, 0xc3, 0x31, 0x1c),
        Quad(0xdb, 0x13, 0x78, 0xae), Quad(0x36, 0x70, 0x70, 0x13),
        x, 12, 0x0, 20, 0x100000, 0x1000, 0x8d2a4c8a, 0xe9b9b85e,
        Quad(0x1f, 0x5f, 0x20, 0xa2));
  }

  lemma Empty32(x: Block)
    requires IsShort(x, 0x80, 0)
    ensures Steps(RegsOf(Quad(0x36, 0x70, 0x70, 0x13), Quad(0x1f, 0x5f, 0x20, 0xa2),
                         Quad(0x84, 0xc3, 0x31, 0x1c), Quad(0xdb, 0x13, 0x78, 0xae)),
                  x, 32) ==
            Steps(RegsOf(Quad(0x84, 0xc3, 0x31, 0x1c), Quad(0x5b, 0x9f, 0x68, 0xc3),
                         Quad(0xa1, 0xea, 0x63, 0xdf), Quad(0x1f, 0x5f, 0x20, 0xa2)),
                  x, 34)
  {
    hide Steps, Entry, RegsOf;
    Table32();
    Row(32, Quad(0x36, 0x70, 0x70, 0x13), Quad(0x1f, 0x5f, 0x20, 0xa2),
        Quad(0x84, 0xc3, 0x31, 0x1c), Quad(0xdb, 0x13, 0x78, 0xae),
        x, 5, 0x0, 4, 0x10, 0x10000000, 0xfffa3942, 0x23d438b8,
        Quad(0xa1, 0xea, 0x63, 0xdf));
    Row(33, Quad(0xdb, 0x13, 0x78, 0xae), Quad(0xa1, 0xea, 0x63, 0xdf),
        Quad(0x1f, 0x5f, 0x20, 0xa2), Quad(0x84, 0xc3, 0x31, 0x1c),
        x, 8, 0x0, 11, 0x800, 0x200000, 0x8771f681, 0x975c8096,
        Quad(0x5b, 0x9f, 0x68, 0xc3));
  }

  lemma Empty34(x: Block)
    requires IsShort(x, 0x80, 0)
    ensures Steps(RegsOf(Quad(0x84, 0xc3, 0x31, 0x1c), Quad(0x5b, 0x9f, 0x68, 0xc3),
                         Quad(0xa1, 0xea, 0x63, 0xdf), Quad(0x1f, 0x5f, 0x20, 0xa2)),
                  x, 34) ==
            Steps(RegsOf(Quad(0xa1, 0xea, 0x63, 0xdf), Quad(0x69, 0x66, 0x4b, 0x00),
                         Quad(0x55, 0xe7, 0xf3, 0x12), Quad(0x5b, 0x9f, 0x68, 0xc3)),
                  x, 36)
  {
    hide Steps, Entry, RegsOf;
    Table32();
    Row(34, Quad(0x84, 0xc3, 0x31, 0x1c), Quad(0x5b, 0x9f, 0x68, 0xc3),
        Quad(0xa1, 0xea, 0x63, 0xdf), Quad(0x1f, 0x5f, 0x20, 0xa2),
        x, 11, 0x0, 16, 0x10000, 0x10000, 0x6d9d6122, 0x47fa4f8b,
        Quad(0x55, 0xe7, 0xf3, 0x12));
    Row(35, Quad(0x1f, 0x5f, 0x20, 0xa2), Quad(0x55, 0xe7, 0xf3, 0x12),
        Quad(0x5b, 0x9f, 0x68, 0xc3), Quad(0xa1, 0xea, 0x63, 0xdf),
        x, 14, 0x0, 23, 0x800000, 0x200, 0xfde5380c, 0xaefe29da,
        Quad(0x69, 0x66, 0x4b, 0x00));
  }

  lemma Empty36(x: Block)
    requires IsShort(x, 0x80, 0)
    ensures Steps(RegsOf(Quad(0xa1, 0xea, 0x63, 0xdf), Quad(0x69, 0x66, 0x4b, 0x00),
                         Quad(0x55, 0xe7, 0xf3, 0x12), Quad(0x5b, 0x9f, 0x68, 0xc3)),
                  x, 36) ==
            Steps(RegsOf(Quad(0x55, 0xe7, 0xf3, 0x12), Quad(0x16, 0x4e, 0xc3, 0xab),
                         Quad(0x2e, 0x9b, 0x7a, 0x5f), Quad(0x69, 0x66, 0x4b, 0x00)),
                  x, 38)
  {
    hide Steps, Entry, RegsOf;
    Table36();
    Row(36, Quad(0xa1, 0xea, 0x63, 0xdf), Quad(0x69, 0x66, 0x4b, 0x00),
        Quad(0x55, 0xe7, 0xf3, 0x12), Quad(0x5b, 0x9f, 0x68, 0xc3),
        x, 1, 0x0, 4, 0x10, 0x10000000, 0xa4beea44, 0x55f2f34c,
        Quad(0x2e, 0x9b, 0x7a, 0x5f));
    Row(37, Quad(0x5b, 0x9f, 0x68, 0xc3), Quad(0x2e, 0x9b, 0x7a, 0x5f),
        Quad(0x69, 0x66, 0x4b, 0x00), Quad(0x55, 0xe7, 0xf3, 0x12),
        x, 4, 0x0, 11, 0x800, 0x200000, 0x4bdecfa9, 0x5d098916,
        Quad(0x16, 0x4e, 0xc3, 0xab));
  }

  lemma Empty38(x: Block)
    requires IsShort(x, 0x80, 0)
    ensures Steps(RegsOf(Quad(0x55, 0xe7, 0xf3, 0x12), Quad(0x16, 0x4e, 0xc3, 0xab),
                         Quad(0x2e, 0x9b, 0x7a, 0x5f), Quad(0x69, 0x66, 0x4b, 0x00)),
                  x, 38) ==
            Steps(RegsOf(Quad(0x2e, 0x9b, 0x7a, 0x5f), Quad(0x15, 0x8c, 0xdc, 0xc5),
                         Quad(0xb7, 0x4c, 0xca, 0x91), Quad(0x16, 0x4e, 0xc3, 0xab)),
                  x, 40)
  {
    hide Steps, Entry, RegsOf;
    Table36();
    Row(38, Quad(0x55, 0xe7, 0xf3, 0x12), Quad(0x16, 0x4e, 0xc3, 0xab),
        Quad(0x2e, 0x9b, 0x7a, 0x5f), Quad(0x69, 0x66, 0x4b, 0x00),
        x, 7, 0x0, 16, 0x10000, 0x10000, 0xf6bb4b60, 0xfea1e606,
        Quad(0xb7, 0x4c, 0xca, 0x91));
    Row(39, Quad(0x69, 0x66, 0x4b, 0x00), Quad(0xb7, 0x4c, 0xca, 0x91),
        Quad(0x16, 0x4e, 0xc3, 0xab), Quad(0x2e, 0x9b, 0x7a, 0x5f),
        x, 10, 0x0, 23, 0x800000, 0x200, 0xbebfbc70, 0x247ebc68,
        Quad(0x15, 0x8c, 0xdc, 0xc5));
  }

  lemma Empty40(x: Block)
    requires IsShort(x, 0x80, 0)
    ensures Steps(RegsOf(Quad(0x2e, 0x9b, 0x7a, 0x5f), Quad(0x15, 0x8c, 0xdc, 0xc5),
                         Quad(0xb7, 0x4c, 0xca, 0x91), Quad(0x16, 0x4e, 0xc3, 0xab)),
                  x, 40) ==
            Steps(RegsOf(Quad(0xb7, 0x4c, 0xca, 0x91), Quad(0xd4, 0x93, 0xfd, 0x76),
                         Quad(0x9d, 0x16, 0x97, 0x44), Quad(0x15, 0x8c, 0xdc, 0xc5)),
                  x, 42)
  {
    hide Steps, Entry, RegsOf;
    Table40();
    Row(40, Quad(0x2e, 0x9b, 0x7a, 0x5f), Quad(0x15, 0x8c, 0xdc, 0xc5),
        Quad(0xb7, 0x4c, 0xca, 0x91), Quad(0x16, 0x4e, 0xc3, 0xab),
        x, 13, 0x0, 4, 0x10, 0x10000000, 0x289b7ec6, 0x87eba8a8,
        Quad(0x9d, 0x16, 0x97, 0x44));
    Row(41, Quad(0x16, 0x4e, 0xc3, 0xab), Quad(0x9d, 0x16, 0x97, 0x44),
        Quad(0x15, 0x8c, 0xdc, 0xc5), Quad(0xb7, 0x4c, 0xca, 0x91),
        x, 0, 0x80, 11, 0x800, 0x200000, 0xeaa127fa, 0xa6e64ccf,
        Quad(0xd4, 0x93, 0xfd, 0x76));
  }

  lemma Empty42(x: Block)
    requires IsShort(x, 0x80, 0)
    ensures Steps(RegsOf(Quad(0xb7, 0x4c, 0xca, 0x91), Quad(0xd4, 0x93, 0xfd, 0x76),
                         Quad(0x9d, 0x16, 0x97, 0x44), Quad(0x15, 0x8c, 0xdc, 0xc5)),
                  x, 42) ==
            Steps(RegsOf(Quad(0x9d, 0x16, 0x97, 0x44), Quad(0x53, 0x24, 0xe3, 0x0f),
                         Quad(0x43, 0xf2, 0x95, 0xfd), Quad(0xd4, 0x93, 0xfd, 0x76)),
                  x, 44)
  {
    hide Steps, Entry, RegsOf;
    Table40();
    Row(42, Quad(0xb7, 0x4c, 0xca, 0x91), Quad(0xd4, 0x93, 0xfd, 0x76),
        Quad(0x9d, 0x16, 0x97, 0x44), Quad(0x15, 0x8c, 0xdc, 0xc5),
        x, 3, 0x0, 16, 0x10000, 0x10000, 0xd4ef3085, 0x5e6f8698,
        Quad(0x43, 0xf2, 0x95, 0xfd));
    Row(43, Quad(0x15, 0x8c, 0xdc, 0xc5), Quad(0x43, 0xf2, 0x95, 0xfd),
        Quad(0xd4, 0x93, 0xfd, 0x76), Quad(0x9d, 0x16, 0x97, 0x44),
        x, 6, 0x0, 23, 0x800000, 0x200, 0x4881d05, 0x9a642024,
        Quad(0x53, 0x24, 0xe3, 0x0f));
  }

  lemma Empty44(x: Block)
    requires IsShort(x, 0x80, 0)
    ensures Steps(RegsOf(Quad(0x9d, 0x16, 0x97, 0x44), Quad(0x53, 0x24, 0xe3, 0x0f),
                         Quad(0x43, 0xf2, 0x95, 0xfd), Quad(0xd4, 0x93, 0xfd, 0x76)),
                  x, 44) ==
            Steps(RegsOf(Quad(0x43, 0xf2, 0x95, 0xfd), Quad(0x54, 0x1f, 0xa3, 0x22),
                         Quad(0xfd, 0xed, 0x55, 0x3f), Quad(0x53, 0x24, 0xe3, 0x0f)),
                  x, 46)
  {
    hide Steps, Entry, RegsOf;
    Table44();
    Row(44, Quad(0x9d, 0x16, 0x97, 0x44), Quad(0x53, 0x24, 0xe3, 0x0f),
        Quad(0x43, 0xf2, 0x95, 0xfd), Quad(0xd4, 0x93, 0xfd, 0x76),
        x, 9, 0x0, 4, 0x10, 0x10000000, 0xd9d4d039, 0xa2f72c9a,
        Quad(0xfd, 0xed, 0x55, 0x3f));
    Row(45, Quad(0xd4, 0x93, 0xfd, 0x76), Quad(0xfd, 0xed, 0x55, 0x3f),
        Quad(0x53, 0x24, 0xe3, 0x0f), Quad(0x43, 0xf2, 0x95, 0xfd),
        x, 12, 0x0, 11, 0x800, 0x200000, 0xe6db99e5, 0x2afc69a6,
        Quad(0x54, 0x1f, 0xa3, 0x22));
  }

  lemma Empty46(x: Block)
    requires IsShort(x, 0x80, 0)
    ensures Steps(RegsOf(Quad(0x43, 0xf2, 0x95, 0xfd), Quad(0x54, 0x1f, 0xa3, 0x22),
                         Quad(0xfd, 0xed, 0x55, 0x3f), Quad(0x53, 0x24, 0xe3, 0x0f)),
                  x, 46) ==
            Steps(RegsOf(Quad(0xfd, 0xed, 0x55, 0x3f), Quad(0xbd, 0x2d, 0x7d, 0xca),
                         Quad(0xa2, 0x4e, 0xd8, 0x68), Quad(0x54, 0x1f, 0xa3, 0x22)),
                  x, 48)
  {
    hide Steps, Entry, RegsOf;
    Table44();
    Row(46, Quad(0x43, 0xf2, 0x95, 0xfd), Quad(0x54, 0x1f, 0xa3, 0x22),
        Quad(0xfd, 0xed, 0x55, 0x3f), Quad(0x53, 0x24, 0xe3, 0x0f),
        x, 15, 0x0, 16, 0x10000, 0x10000, 0x1fa27cf8, 0x2f4e4635,
        Quad(0xa2, 0x4e, 0xd8, 0x68));
    Row(47, Quad(0x53, 0x24, 0xe3, 0x0f), Quad(0xa2, 0x4e, 0xd8, 0x68),
        Quad(0x54, 0x1f, 0xa3, 0x22), Quad(0xfd, 0xed, 0x55, 0x3f),
        x, 2, 0x0, 23, 0x800000, 0x200, 0xc4ac5665, 0x49be36c3,
        Quad(0xbd, 0x2d, 0x7d, 0xca));
  }

  lemma Empty48(x: Block)
    requires IsShort(x, 0x80, 0)
    ensures Steps(RegsOf(Quad(0xfd, 0xed, 0x55, 0x3f), Quad(0xbd, 0x2d, 0x7d, 0xca),
                         Quad(0xa2, 0x4e, 0xd8, 0x68), Quad(0x54, 0x1f, 0xa3, 0x22)),
                  x, 48) ==
            Steps(RegsOf(Quad(0xa2, 0x4e, 0xd8, 0x68), Quad(0x85, 0xdc, 0x88, 0x16),
                         Quad(0x77, 0x25, 0xaa, 0x93), Quad(0xbd, 0x2d, 0x7d, 0xca)),
                  x, 50)
  {
    hide Steps, Entry, RegsOf;
    Table48();
    Row(48, Quad(0xfd, 0xed, 0x55, 0x3f), Quad(0xbd, 0x2d, 0x7d, 0xca),
        Quad(0xa2, 0x4e, 0xd8, 0x68), Quad(0x54, 0x1f, 0xa3, 0x22),
        x, 0, 0x80, 6, 0x40, 0x4000000, 0xf4292244, 0xeb24b3de,
        Quad(0x77, 0x25, 0xaa, 0x93));
    Row(49, Quad(0x54, 0x1f, 0xa3, 0x22), Quad(0x77, 0x25, 0xaa, 0x93),
        Quad(0xbd, 0x2d, 0x7d, 0xca), Quad(0xa2, 0x4e, 0xd8, 0x68),
        x, 7, 0x0, 10, 0x400, 0x400000, 0x432aff97, 0xc3a0b7ad,
        Quad(0x85, 0xdc, 0x88, 0x16));
  }

  lemma Empty50(x: Block)
    requires IsShort(x, 0x80, 0)
    ensures Steps(RegsOf(Quad(0xa2, 0x4e, 0xd8, 0x68), Quad(0x85, 0xdc, 0x88, 0x16),
                         Quad(0x77, 0x25, 0xaa, 0x93), Quad(0xbd, 0x2d, 0x7d, 0xca)),
                  x, 50) ==
            Steps(RegsOf(Quad(0x77, 0x25, 0xaa, 0x93), Quad(0x89, 0x06, 0x1e, 0x56),
                         Quad(0xcb, 0xb8, 0x85, 0xcd), Quad(0x85, 0xdc, 0x88, 0x16)),
                  x, 52)
  {
    hide Steps, Entry, RegsOf;
    Table48();
    Row(50, Quad(0xa2, 0x4e, 0xd8, 0x68), Quad(0x85, 0xdc, 0x88, 0x16),
        Quad(0x77, 0x25, 0xaa, 0x93), Quad(0xbd, 0x2d, 0x7d, 0xca),
        x, 14, 0x0, 15, 0x8000, 0x20000, 0xab9423a7, 0xb88d6df9,
        Quad(0xcb, 0xb8, 0x85, 0xcd));
    Row(51, Quad(0xbd, 0x2d, 0x7d, 0xca), Quad(0xcb, 0xb8, 0x85, 0xcd),
        Quad(0x85, 0xdc, 0x88, 0x16), Quad(0x77, 0x25, 0xaa, 0x93),
        x, 5, 0x0, 21, 0x200000, 0x800, 0xfc93a039, 0xc26df444,
        Quad(0x89, 0x06, 0x1e, 0x56));
  }

  lemma Empty52(x: Block)
    requires IsShort(x, 0x80, 0)
    ensures Steps(RegsOf(Quad(0x77, 0x25, 0xaa, 0x93), Quad(0x89, 0x06, 0x1e, 0x56),
                         Quad(0xcb, 0xb8, 0x85, 0xcd), Quad(0x85, 0xdc, 0x88, 0x16)),
                  x, 52) ==
            Steps(RegsOf(Quad(0xcb, 0xb8, 0x85, 0xcd), Quad(0x2b, 0xf4, 0x50, 0x34),
                         Quad(0x14, 0xa1, 0x25, 0x56), Quad(0x89, 0x06, 0x1e, 0x56)),
                  x, 54)
  {
    hide Steps, Entry, RegsOf;
    Table52();
    Row(52, Quad(0x77, 0x25, 0xaa, 0x93), Quad(0x89, 0x06, 0x1e, 0x56),
        Quad(0xcb, 0xb8, 0x85, 0xcd), Quad(0x85, 0xdc, 0x88, 0x16),
        x, 12, 0x0, 6, 0x40, 0x4000000, 0x655b59c3, 0x2c001e6a,
        Quad(0x14, 0xa1, 0x25, 0x56));
    Row(53, Quad(0x85, 0xdc, 0x88, 0x16), Quad(0x14, 0xa1, 0x25, 0x56),
        Quad(0x89, 0x06, 0x1e, 0x56), Quad(0xcb, 0xb8, 0x85, 0xcd),
        x, 3, 0x0, 10, 0x400, 0x400000, 0x8f0ccc92, 0xc5f78ad4,
        Quad(0x2b, 0xf4, 0x50, 0x34));
  }

  lemma Empty54(x: Block)
    requires IsShort(x, 0x80, 0)
    ensures Steps(RegsOf(Quad(0xcb, 0xb8, 0x85, 0xcd), Quad(0x2b, 0xf4, 0x50, 0x34),
                         Quad(0x14, 0xa1, 0x25, 0x56), Quad(0x89, 0x06, 0x1e, 0x56)),
                  x, 54) ==
            Steps(RegsOf(Quad(0x14, 0xa1, 0x25, 0x56), Quad(0x61, 0xfa, 0x77, 0x1e),
                         Quad(0xd0, 0xd0, 0x2a, 0x39), Quad(0x2b, 0xf4, 0x50, 0x34)),
                  x, 56)
  {
    hide Steps, Entry, RegsOf;
    Table52();
    Row(54, Quad(0xcb, 0xb8, 0x85, 0xcd), Quad(0x2b, 0xf4, 0x50, 0x34),
        Quad(0x14, 0xa1, 0x25, 0x56), Quad(0x89, 0x06, 0x1e, 0x56),
        x, 10, 0x0, 15, 0x8000, 0x20000, 0xffeff47d, 0xb94a09b3,
        Quad(0xd0, 0xd0, 0x2a, 0x39));
    Row(55, Quad(0x89, 0x06, 0x1e, 0x56), Quad(0xd0, 0xd0, 0x2a, 0x39),
        Quad(0x2b, 0xf4, 0x50, 0x34), Quad(0x14, 0xa1, 0x25, 0x56),
        x, 1, 0x0, 21, 0x200000, 0x800, 0x85845dd1, 0x694c8f2a,
        Quad(0x61, 0xfa, 0x77, 0x1e));
  }

  lemma Empty56(x: Block)
    requires IsShort(x, 0x80, 0)
    ensures Steps(RegsOf(Quad(0x14, 0xa1, 0x25, 0x56), Quad(0x61, 0xfa, 0x77, 0x1e),
                         Quad(0xd0, 0xd0, 0x2a, 0x39), Quad(0x2b, 0xf4, 0x50, 0x34)),
                  x, 56) ==
            Steps(RegsOf(Quad(0xd0, 0xd0, 0x2a, 0x39), Quad(0xbc, 0x00, 0xce, 0xdf),
                         Quad(0x8c, 0x9c, 0x4a, 0x47), Quad(0x61, 0xfa, 0x77, 0x1e)),
                  x, 58)
  {
    hide Steps, Entry, RegsOf;
    Table56();
    Row(56, Quad(0x14, 0xa1, 0x25, 0x56), Quad(0x61, 0xfa, 0x77, 0x1e),
        Quad(0xd0, 0xd0, 0x2a, 0x39), Quad(0x2b, 0xf4, 0x50, 0x34),
        x, 8, 0x0, 6, 0x40, 0x4000000, 0x6fa87e4f, 0xaca34a88,
        Quad(0x8c, 0x9c, 0x4a, 0x47));
    Row(57, Quad(0x2b, 0xf4, 0x50, 0x34), Quad(0x8c, 0x9c, 0x4a, 0x47),
        Quad(0x61, 0xfa, 0x77, 0x1e), Quad(0xd0, 0xd0, 0x2a, 0x39),
        x, 15, 0x0, 10, 0x400, 0x400000, 0xfe2ce6e0, 0xc2620d9,
        Quad(0xbc, 0x00, 0xce, 0xdf));
  }

  lemma Empty58(x: Block)
    requires IsShort(x, 0x80, 0)
    ensures Steps(RegsOf(Quad(0xd0, 0xd0, 0x2a, 0x39), Quad(0xbc, 0x00, 0xce, 0xdf),
                         Quad(0x8c, 0x9c, 0x4a, 0x47), Quad(0x61, 0xfa, 0x77, 0x1e)),
                  x, 58) ==
            Steps(RegsOf(Quad(0x8c, 0x9c, 0x4a, 0x47), Quad(0x82, 0x01, 0x13, 0x30),
                         Quad(0x14, 0x4b, 0x59, 0x36), Quad(0xbc, 0x00, 0xce, 0xdf)),
                  x, 60)
  {
    hide Steps, Entry, RegsOf;
    Table56();
    Row(58, Quad(0xd0, 0xd0, 0x2a, 0x39), Quad(0xbc, 0x00, 0xce, 0xdf),
        Quad(0x8c, 0x9c, 0x4a, 0x47), Quad(0x61, 0xfa, 0x77, 0x1e),
        x, 6, 0x0, 15, 0x8000, 0x20000, 0xa3014314, 0x94b0ad16,
        Quad(0x14, 0x4b, 0x59, 0x36));
    Row(59, Quad(0x61, 0xfa, 0x77, 0x1e), Quad(0x14, 0x4b, 0x59, 0x36),
        Quad(0xbc, 0x00, 0xce, 0xdf), Quad(0x8c, 0x9c, 0x4a, 0x47),
        x, 13, 0x0, 21, 0x200000, 0x800, 0x4e0811a1, 0xcdb377cd,
        Quad(0x82, 0x01, 0x13, 0x30));
  }

  lemma Empty60(x: Block)
    requires IsShort(x, 0x80, 0)
    ensures Steps(RegsOf(Quad(0x8c, 0x9c, 0x4a, 0x47), Quad(0x82, 0x01, 0x13, 0x30),
                         Quad(0x14, 0x4b, 0x59, 0x36), Quad(0xbc, 0x00, 0xce, 0xdf)),
                  x, 60) ==
            Steps(RegsOf(Quad(0x14, 0x4b, 0x59, 0x36), Quad(0x76, 0xa4, 0x10, 0x6e),
                         Quad(0xd3, 0xfa, 0x46, 0x72), Quad(0x82, 0x01, 0x13, 0x30)),
                  x, 62)
  {
    hide Steps, Entry, RegsOf;
    Table60();
    Row(60, Quad(0x8c, 0x9c, 0x4a, 0x47), Quad(0x82, 0x01, 0x13, 0x30),
        Quad(0x14, 0x4b, 0x59, 0x36), Quad(0xbc, 0x00, 0xce, 0xdf),
        x, 4, 0x0, 6, 0x40, 0x4000000, 0xf7537e82, 0x4508cfe5,
        Quad(0xd3, 0xfa, 0x46, 0x72));
    Row(61, Quad(0xbc, 0x00, 0xce, 0xdf), Quad(0xd3, 0xfa, 0x46, 0x72),
        Quad(0x82, 0x01, 0x13, 0x30), Quad(0x14, 0x4b, 0x59, 0x36),
        x, 11, 0x0, 10, 0x400, 0x400000, 0xbd3af235, 0x68fef26a,
        Quad(0x76, 0xa4, 0x10, 0x6e));
  }

  lemma Empty62(x: Block)
    requires IsShort(x, 0x80, 0)
    ensures Steps(RegsOf(Quad(0x14, 0x4b, 0x59, 0x36), Quad(0x76, 0xa4, 0x10, 0x6e),
                         Quad(0xd3, 0xfa, 0x46, 0x72), Quad(0x82, 0x01, 0x13, 0x30)),
                  x, 62) ==
            Steps(RegsOf(Quad(0xd3, 0xfa, 0x46, 0x72), Quad(0x06, 0x55, 0xe4, 0x14),
                         Quad(0xeb, 0xa3, 0x4e, 0xff), Quad(0x76, 0xa4, 0x10, 0x6e)),
                  x, 64)
  {
    hide Steps, Entry, RegsOf;
    Table60();
    Row(62, Quad(0x14, 0x4b, 0x59, 0x36), Quad(0x76, 0xa4, 0x10, 0x6e),
        Quad(0xd3, 0xfa, 0x46, 0x72), Quad(0x82, 0x01, 0x13, 0x30),
        x, 2, 0x0, 15, 0x8000, 0x20000, 0x2ad7d2bb, 0xfeeb227b,
        Quad(0xeb, 0xa3, 0x4e, 0xff));
    Row(63, Quad(0x82, 0x01, 0x13, 0x30), Quad(0xeb, 0xa3, 0x4e, 0xff),
        Quad(0x76, 0xa4, 0x10, 0x6e), Quad(0xd3, 0xfa, 0x46, 0x72),
        x, 9, 0x0, 21, 0x200000, 0x800, 0xeb86d391, 0xad88d8ac,
        Quad(0x06, 0x55, 0xe4, 0x14));
  }

  lemma EmptyRound1(x: Block)
    requires IsShort(x, 0x80, 0)
    ensures Steps(RegsOf(Quad(0x01, 0x23, 0x45, 0x67), Quad(0x89, 0xab, 0xcd, 0xef),
                         Quad(0xfe, 0xdc, 0xba, 0x98), Quad(0x76, 0x54, 0x32, 0x10)),
                  x, 0) ==
            Steps(RegsOf(Quad(0xf1, 0x7c, 0x6c, 0xf5), Quad(0x6a, 0x9c, 0x81, 0xd6),
                         Quad(0x75, 0x3f, 0xa5, 0x5a), Quad(0xa7, 0x43, 0x49, 0x37)),
                  x, 16)
  {
    hide Steps, RegsOf, IsShort;
    Empty0(x);
    Empty2(x);
    Empty4(x);
    Empty6(x);
    Empty8(x);
    Empty10(x);
    Empty12(x);
    Empty14(x);
  }

  lemma EmptyRound2(x: Block)
    requires IsShort(x, 0x80, 0)
    ensures Steps(RegsOf(Quad(0xf1, 0x7c, 0x6c, 0xf5), Quad(0x6a, 0x9c, 0x81, 0xd6),
                         Quad(0x75, 0x3f, 0xa5, 0x5a), Quad(0xa7, 0x43, 0x49, 0x37)),
                  x, 16) ==
            Steps(RegsOf(Quad(0x36, 0x70, 0x70, 0x13), Quad(0x1f, 0x5f, 0x20, 0xa2),
                         Quad(0x84, 0xc3, 0x31, 0x1c), Quad(0xdb, 0x13, 0x78, 0xae)),
                  x, 32)
  {
    hide Steps, RegsOf, IsShort;
    Empty16(x);
    Empty18(x);
    Empty20(x);
    Empty22(x);
    Empty24(x);
    Empty26(x);
    Empty28(x);
    Empty30(x);
  }

  lemma EmptyRound3(x: Block)
    requires IsShort(x, 0x80, 0)
    ensures Steps(RegsOf(Quad(0x36, 0x70, 0x70, 0x13), Quad(0x1f, 0x5f, 0x20, 0xa2),
                         Quad(0x84, 0xc3, 0x31, 0x1c), Quad(0xdb, 0x13, 0x78, 0xae)),
                  x, 32) ==
            Steps(RegsOf(Quad(0xfd, 0xed, 0x55, 0x3f), Quad(0xbd, 0x2d, 0x7d, 0xca),
                         Quad(0xa2, 0x4e, 0xd8, 0x68), Quad(0x54, 0x1f, 0xa3, 0x22)),
                  x, 48)
  {
    hide Steps, RegsOf, IsShort;
    Empty32(x);
    Empty34(x);
    Empty36(x);
    Empty38(x);
    Empty40(x);
    Empty42(x);
    Empty44(x);
    Empty46(x);
  }

  lemma EmptyRound4(x: Block)
    requires IsShort(x, 0x80, 0)
    ensures Steps(RegsOf(Quad(0xfd, 0xed, 0x55, 0x3f), Quad(0xbd, 0x2d, 0x7d, 0xca),
                         Quad(0xa2, 0x4e, 0xd8, 0x68), Quad(0x54, 0x1f, 0xa3, 0x22)),
                  x, 48) ==
            Steps(RegsOf(Quad(0xd3, 0xfa, 0x46, 0x72), Quad(0x06, 0x55, 0xe4, 0x14),
                         Quad(0xeb, 0xa3, 0x4e, 0xff), Quad(0x76, 0xa4, 0x10, 0x6e)),
                  x, 64)
  {
    hide Steps, RegsOf, IsShort;
    Empty48(x);
    Empty50(x);
    Empty52(x);
    Empty54(x);
    Empty56(x);
    Empty58(x);
    Empty60(x);
    Empty62(x);
  }

  lemma EmptySteps(x: Block)
    requires IsShort(x, 0x80, 0)
    ensures Compress(INIT, x) == Regs(0xd98c1dd4, 0x4b2008f, 0x980980e9, 0x7e42f8ec)
  {
    hide Steps, IsShort;
    EmptyRound1(x);
    EmptyRound2(x);
    EmptyRound3(x);
    EmptyRound4(x);
    StepsEnd(RegsOf(Quad(0xd3, 0xfa, 0x46, 0x72), Quad(0x06, 0x55, 0xe4, 0x14),
                    Quad(0xeb, 0xa3, 0x4e, 0xff), Quad(0x76, 0xa4, 0x10, 0x6e)), x);
  }

  // ---------------------------------------------------------------- the message "abc"

  lemma Abc0(x: Block)
    requires IsShort(x, 0x80636261, 24)
    ensures Steps(RegsOf(Quad(0x01, 0x23, 0x45, 0x67), Quad(0x89, 0xab, 0xcd, 0xef),
                         Quad(0xfe, 0xdc, 0xba, 0x98), Quad(0x76, 0x54, 0x32, 0x10)),
                  x, 0) ==
            Steps(RegsOf(Quad(0xfe, 0xdc, 0xba, 0x98), Quad(0x32, 0x84, 0x4a, 0x34),
                         Quad(0xb4, 0x17, 0xd1, 0xd6), Quad(0x89, 0xab, 0xcd, 0xef)),
                  x, 2)
  {
    hide Steps, Entry, RegsOf;
    Table0();
    Row(0, Quad(0x01, 0x23, 0x45, 0x67), Quad(0x89, 0xab, 0xcd, 0xef),
        Quad(0xfe, 0xdc, 0xba, 0x98), Quad(0x76, 0x54, 0x32, 0x10),
        x, 0, 0x80636261, 7, 0x80, 0x2000000, 0xd76aa478, 0x57ce06d8,
        Quad(0xb4, 0x17, 0xd1, 0xd6));
    Row(1, Quad(0x76, 0x54, 0x32, 0x10), Quad(0xb4, 0x17, 0xd1, 0xd6),
        Quad(0x89, 0xab, 0xcd, 0xef), Quad(0xfe, 0xdc, 0xba, 0x98),
        x, 1, 0x0, 12, 0x1000, 0x100000, 0xe8c7b756, 0xc7e5d796,
        Quad(0x32, 0x84, 0x4a, 0x34));
  }

  lemma Abc2(x: Block)
    requires IsShort(x, 0x80636261, 24)
    ensures Steps(RegsOf(Quad(0xfe, 0xdc, 0xba, 0x98), Quad(0x32, 0x84, 0x4a, 0x34),
                         Quad(0xb4, 0x17, 0xd1, 0xd6), Quad(0x89, 0xab, 0xcd, 0xef)),
                  x, 2) ==
            Steps(RegsOf(Quad(0xb4, 0x17, 0xd1, 0xd6), Quad(0xf2, 0x56, 0xd9, 0x7a),
                         Quad(0x72, 0xbd, 0x6f, 0x2f), Quad(0x32, 0x84, 0x4a, 0x34)),
                  x, 4)
  {
    hide Steps, Entry, RegsOf;
    Table0();
    Row(2, Quad(0xfe, 0xdc, 0xba, 0x98), Quad(0x32, 0x84, 0x4a, 0x34),
        Quad(0xb4, 0x17, 0xd1, 0xd6), Quad(0x89, 0xab, 0xcd, 0xef),
        x, 2, 0x0, 17, 0x20000, 0x8000, 0x242070db, 0x9ca07d92,
        Quad(0x72, 0xbd, 0x6f, 0x2f));
    Row(3, Quad(0x89, 0xab, 0xcd, 0xef), Quad(0x72, 0xbd, 0x6f, 0x2f),
        Quad(0x32, 0x84, 0x4a, 0x34), Quad(0xb4, 0x17, 0xd1, 0xd6),
        x, 3, 0x0, 22, 0x400000, 0x400, 0xc1bdceee, 0xa666012d,
        Quad(0xf2, 0x56, 0xd9, 0x7a));
  }

  lemma Abc4(x: Block)
    requires IsShort(x, 0x80636261, 24)
    ensures Steps(RegsOf(Quad(0xb4, 0x17, 0xd1, 0xd6), Quad(0xf2, 0x56, 0xd9, 0x7a),
                         Quad(0x72, 0xbd, 0x6f, 0x2f), Quad(0x32, 0x84, 0x4a, 0x34)),
                  x, 4) ==
            Steps(RegsOf(Quad(0x72, 0xbd, 0x6f, 0x2f), Quad(0x51, 0x30, 0xac, 0x8b),
                         Quad(0xef, 0x41, 0x37, 0xc7), Quad(0xf2, 0x56, 0xd9, 0x7a)),
                  x, 6)
  {
    hide Steps, Entry, RegsOf;
    Table4();
    Row(4, Quad(0xb4, 0x17, 0xd1, 0xd6), Quad(0xf2, 0x56, 0xd9, 0x7a),
        Quad(0x72, 0xbd, 0x6f, 0x2f), Quad(0x32, 0x84, 0x4a, 0x34),
        x, 4, 0x0, 7, 0x80, 0x2000000, 0xf57c0faf, 0xfa98bbd5,
        Quad(0xef, 0x41, 0x37, 0xc7));
    Row(5, Quad(0x32, 0x84, 0x4a, 0x34), Quad(0xef, 0x41, 0x37, 0xc7),
        Quad(0xf2, 0x56, 0xd9, 0x7a), Quad(0x72, 0xbd, 0x6f, 0x2f),
        x, 5, 0x0, 12, 0x1000, 0x100000, 0x4787c62a, 0xe62c474e,
        Quad(0x51, 0x30, 0xac, 0x8b));
  }

  lemma Abc6(x: Block)
    requires IsShort(x, 0x80636261, 24)
    ensures Steps(RegsOf(Quad(0x72, 0xbd, 0x6f, 0x2f), Quad(0x51, 0x30, 0xac, 0x8b),
                         Quad(0xef, 0x41, 0x37, 0xc7), Quad(0xf2, 0x56, 0xd9, 0x7a)),
                  x, 6) ==
            Steps(RegsOf(Quad(0xef, 0x41, 0x37, 0xc7), Quad(0xf6, 0x99, 0x8d, 0x92),
                         Quad(0x7b, 0xc6, 0x7d, 0x20), Quad(0x51, 0x30, 0xac, 0x8b)),
                  x, 8)
  {
    hide Steps, Entry, RegsOf;
    Table4();
    Row(6, Quad(0x72, 0xbd, 0x6f, 0x2f), Quad(0x51, 0x30, 0xac, 0x8b),
        Quad(0xef, 0x41, 0x37, 0xc7), Quad(0xf2, 0x56, 0xd9, 0x7a),
        x, 6, 0x0, 17, 0x20000, 0x8000, 0xa8304613, 0xcb154a68,
        Quad(0x7b, 0xc6, 0x7d, 0x20));
    Row(7, Quad(0xf2, 0x56, 0xd9, 0x7a), Quad(0x7b, 0xc6, 0x7d, 0x20),
        Quad(0x51, 0x30, 0xac, 0x8b), Quad(0xef, 0x41, 0x37, 0xc7),
        x, 7, 0x0, 22, 0x400000, 0x400, 0xfd469501, 0x3f4dedc8,
        Quad(0xf6, 0x99, 0x8d, 0x92));
  }

  lemma Abc8(x: Block)
    requires IsShort(x, 0x80636261, 24)
    ensures Steps(RegsOf(Quad(0xef, 0x41, 0x37, 0xc7), Quad(0xf6, 0x99, 0x8d, 0x92),
                         Quad(0x7b, 0xc6, 0x7d, 0x20), Quad(0x51, 0x30, 0xac, 0x8b)),
                  x, 8) ==
            Steps(RegsOf(Quad(0x7b, 0xc6, 0x7d, 0x20), Quad(0x84, 0xf2, 0xe2, 0x74),
                         Quad(0x12, 0x37, 0x4b, 0x85), Quad(0xf6, 0x99, 0x8d, 0x92)),
                  x, 10)
  {
    hide Steps, Entry, RegsOf;
    Table8();
    Row(8, Quad(0xef, 0x41, 0x37, 0xc7), Quad(0xf6, 0x99, 0x8d, 0x92),
        Quad(0x7b, 0xc6, 0x7d, 0x20), Quad(0x51, 0x30, 0xac, 0x8b),
        x, 8, 0x0, 7, 0x80, 0x2000000, 0x698098d8, 0x39e57b3a,
        Quad(0x12, 0x37, 0x4b, 0x85));
    Row(9, Quad(0x51, 0x30, 0xac, 0x8b), Quad(0x12, 0x37, 0x4b, 0x85),
        Quad(0xf6, 0x99, 0x8d, 0x92), Quad(0x7b, 0xc6, 0x7d, 0x20),
        x, 9, 0x0, 12, 0x1000, 0x100000, 0x8b44f7af, 0xb72ef97b,
        Quad(0x84, 0xf2, 0xe2, 0x74));
  }

  lemma Abc10(x: Block)
    requires IsShort(x, 0x80636261, 24)
    ensures Steps(RegsOf(Quad(0x7b, 0xc6, 0x7d, 0x20), Quad(0x84, 0xf2, 0xe2, 0x74),
                         Quad(0x12, 0x37, 0x4b, 0x85), Quad(0xf6, 0x99, 0x8d, 0x92)),
                  x, 10) ==
            Steps(RegsOf(Quad(0x12, 0x37, 0x4b, 0x85), Quad(0x96, 0x95, 0xd4, 0x5e),
                         Quad(0x1c, 0x40, 0x20, 0x30), Quad(0x84, 0xf2, 0xe2, 0x74)),
                  x, 12)
  {
    hide Steps, Entry, RegsOf;
    Table8();
    Row(10, Quad(0x7b, 0xc6, 0x7d, 0x20), Quad(0x84, 0xf2, 0xe2, 0x74),
        Quad(0x12, 0x37, 0x4b, 0x85), Quad(0xf6, 0x99, 0x8d, 0x92),
        x, 10, 0x0, 17, 0x20000, 0x8000, 0xffff5bb1, 0xa6cc5d9e,
        Quad(0x1c, 0x40, 0x20, 0x30));
    Row(11, Quad(0xf6, 0x99, 0x8d, 0x92), Quad(0x1c, 0x40, 0x20, 0x30),
        Quad(0x84, 0xf2, 0xe2, 0x74), Quad(0x12, 0x37, 0x4b, 0x85),
        x, 11, 0x0, 22, 0x400000, 0x400, 0x895cd7be, 0xd155e8ba,
        Quad(0x96, 0x95, 0xd4, 0x5e));
  }

  lemma Abc12(x: Block)
    requires IsShort(x, 0x80636261, 24)
    ensures Steps(RegsOf(Quad(0x12, 0x37, 0x4b, 0x85), Quad(0x96, 0x95, 0xd4, 0x5e),
                         Quad(0x1c, 0x40, 0x20, 0x30), Quad(0x84, 0xf2, 0xe2, 0x74)),
                  x, 12) ==
            Steps(RegsOf(Quad(0x1c, 0x40, 0x20, 0x30), Quad(0x95, 0x18, 0x05, 0xa1),
                         Quad(0xa6, 0xb9, 0xa9, 0xdd), Quad(0x96, 0x95, 0xd4, 0x5e)),
                  x, 14)
  {
    hide Steps, Entry, RegsOf;
    Table12();
    Row(12, Quad(0x12, 0x37, 0x4b, 0x85), Quad(0x96, 0x95, 0xd4, 0x5e),
        Quad(0x1c, 0x40, 0x20, 0x30), Quad(0x84, 0xf2, 0xe2, 0x74),
        x, 12, 0x0, 7, 0x80, 0x2000000, 0x6b901122, 0x20fdaa48,
        Quad(0xa6, 0xb9, 0xa9, 0xdd));
    Row(13, Quad(0x84, 0xf2, 0xe2, 0x74), Quad(0xa6, 0xb9, 0xa9, 0xdd),
        Quad(0x96, 0x95, 0xd4, 0x5e), Quad(0x1c, 0x40, 0x20, 0x30),
        x, 13, 0x0, 12, 0x1000, 0x100000, 0xfd987193, 0xeefc35b5,
        Quad(0x95, 0x18, 0x05, 0xa1));
  }

  lemma Abc14(x: Block)
    requires IsShort(x, 0x80636261, 24)
    ensures Steps(RegsOf(Quad(0x1c, 0x40, 0x20, 0x30), Quad(0x95, 0x18, 0x05, 0xa1),
                         Quad(0xa6, 0xb9, 0xa9, 0xdd), Quad(0x96, 0x95, 0xd4, 0x5e)),
                  x, 14) ==
            Steps(RegsOf(Quad(0xa6, 0xb9, 0xa9, 0xdd), Quad(0xe0, 0xf2, 0xaf, 0x72),
                         Quad(0x6b, 0x85, 0x96, 0xe3), Quad(0x95, 0x18, 0x05, 0xa1)),
                  x, 16)
  {
    hide Steps, Entry, RegsOf;
    Table12();
    Row(14, Quad(0x1c, 0x40, 0x20, 0x30), Quad(0x95, 0x18, 0x05, 0xa1),
        Quad(0xa6, 0xb9, 0xa9, 0xdd), Quad(0x96, 0x95, 0xd4, 0x5e),
        x, 14, 0x18, 17, 0x20000, 0x8000, 0xa679438e, 0xb66b2148,
        Quad(0x6b, 0x85, 0x96, 0xe3));
    Row(15, Quad(0x96, 0x95, 0xd4, 0x5e), Quad(0x6b, 0x85, 0x96, 0xe3),
        Quad(0x95, 0x18, 0x05, 0xa1), Quad(0xa6, 0xb9, 0xa9, 0xdd),
        x, 15, 0x0, 22, 0x400000, 0x400, 0x49b40821, 0x65b5d63c,
        Quad(0xe0, 0xf2, 0xaf, 0x72));
  }

  lemma Abc16(x: Block)
    requires IsShort(x, 0x80636261, 24)
    ensures Steps(RegsOf(Quad(0xa6, 0xb9, 0xa9, 0xdd), Quad(0xe0, 0xf2, 0xaf, 0x72),
                         Quad(0x6b, 0x85, 0x96, 0xe3), Quad(0x95, 0x18, 0x05, 0xa1)),
                  x, 16) ==
            Steps(RegsOf(Quad(0x6b, 0x85, 0x96, 0xe3), Quad(0x4e, 0x80, 0x1d, 0x4a),
                         Quad(0x26, 0x91, 0x9e, 0x3e), Quad(0xe0, 0xf2, 0xaf, 0x72)),
                  x, 18)
  {
    hide Steps, Entry, RegsOf;
    Table16();
    Row(16, Quad(0xa6, 0xb9, 0xa9, 0xdd), Quad(0xe0, 0xf2, 0xaf, 0x72),
        Quad(0x6b, 0x85, 0x96, 0xe3), Quad(0x95, 0x18, 0x05, 0xa1),
        x, 1, 0x0, 5, 0x20, 0x8000000, 0xf61e2562, 0x365f74f2,
        Quad(0x26, 0x91, 0x9e, 0x3e));
    Row(17, Quad(0x95, 0x18, 0x05, 0xa1), Quad(0x26, 0x91, 0x9e, 0x3e),
        Quad(0xe0, 0xf2, 0xaf, 0x72), Quad(0x6b, 0x85, 0x96, 0xe3),
        x, 6, 0x0, 9, 0x200, 0x800000, 0xc040b340, 0x9405bf77,
        Quad(0x4e, 0x80, 0x1d, 0x4a));
  }

  lemma Abc18(x: Block)
    requires IsShort(x, 0x80636261, 24)
    ensures Steps(RegsOf(Quad(0x6b, 0x85, 0x96, 0xe3), Quad(0x4e, 0x80, 0x1d, 0x4a),
                         Quad(0x26, 0x91, 0x9e, 0x3e), Quad(0xe0, 0xf2, 0xaf, 0x72)),
                  x, 18) ==
            Steps(RegsOf(Quad(0x26, 0x91, 0x9e, 0x3e), Quad(0xe4, 0x04, 0xb2, 0xb5),
                         Quad(0x52, 0x16, 0x5e, 0xe2), Quad(0x4e, 0x80, 0x1d, 0x4a)),
                  x, 20)
  {
    hide Steps, Entry, RegsOf;
    Table16();
    Row(18, Quad(0x6b, 0x85, 0x96, 0xe3), Quad(0x4e, 0x80, 0x1d, 0x4a),
        Quad(0x26, 0x91, 0x9e, 0x3e), Quad(0xe0, 0xf2, 0xaf, 0x72),
        x, 11, 0x0, 14, 0x4000, 0x40000, 0x265e5a51, 0x58126102,
        Quad(0x52, 0x16, 0x5e, 0xe2));
    Row(19, Quad(0xe0, 0xf2, 0xaf, 0x72), Quad(0x52, 0x16, 0x5e, 0xe2),
        Quad(0x4e, 0x80, 0x1d, 0x4a), Quad(0x26, 0x91, 0x9e, 0x3e),
        x, 0, 0x80636261, 20, 0x100000, 0x1000, 0xe9b6c7aa, 0x3ee92d35,
        Quad(0xe4, 0x04, 0xb2, 0xb5));
  }

  lemma Abc20(x: Block)
    requires IsShort(x, 0x80636261, 24)
    ensures Steps(RegsOf(Quad(0x26, 0x91, 0x9e, 0x3e), Quad(0xe4, 0x04, 0xb2, 0xb5),
                         Quad(0x52, 0x16, 0x5e, 0xe2), Quad(0x4e, 0x80, 0x1d, 0x4a)),
                  x, 20) ==
            Steps(RegsOf(Quad(0x52, 0x16, 0x5e, 0xe2), Quad(0x1e, 0x2f, 0x00, 0x6d),
                         Quad(0xda, 0xff, 0xa8, 0x59), Quad(0xe4, 0x04, 0xb2, 0xb5)),
                  x, 22)
  {
    hide Steps, Entry, RegsOf;
    Table20();
    Row(20, Quad(0x26, 0x91, 0x9e, 0x3e), Quad(0xe4, 0x04, 0xb2, 0xb5),
        Quad(0x52, 0x16, 0x5e, 0xe2), Quad(0x4e, 0x80, 0x1d, 0x4a),
        x, 5, 0x0, 5, 0x20, 0x8000000, 0xd62f105d, 0xb51fb7d7,
        Quad(0xda, 0xff, 0xa8, 0x59));
    Row(21, Quad(0x4e, 0x80, 0x1d, 0x4a), Quad(0xda, 0xff, 0xa8, 0x59),
        Quad(0xe4, 0x04, 0xb2, 0xb5), Quad(0x52, 0x16, 0x5e, 0xe2),
        x, 10, 0x0, 9, 0x200, 0x800000, 0x2441453, 0xa209ab97,
        Quad(0x1e, 0x2f, 0x00, 0x6d));
  }

  lemma Abc22(x: Block)
    requires IsShort(x, 0x80636261, 24)
    ensures Steps(RegsOf(Quad(0x52, 0x16, 0x5e, 0xe2), Quad(0x1e, 0x2f, 0x00, 0x6d),
                         Quad(0xda, 0xff, 0xa8, 0x59), Quad(0xe4, 0x04, 0xb2, 0xb5)),
                  x, 22) ==
            Steps(RegsOf(Quad(0xda, 0xff, 0xa8, 0x59), Quad(0x07, 0x2c, 0x09, 0x47),
                         Quad(0x20, 0x79, 0xfc, 0xab), Quad(0x1e, 0x2f, 0x00, 0x6d)),
                  x, 24)
  {
    hide Steps, Entry, RegsOf;
    Table20();
    Row(22, Quad(0x52, 0x16, 0x5e, 0xe2), Quad(0x1e, 0x2f, 0x00, 0x6d),
        Quad(0xda, 0xff, 0xa8, 0x59), Quad(0xe4, 0x04, 0xb2, 0xb5),
        x, 15, 0x0, 14, 0x4000, 0x40000, 0xd8a1e681, 0x2808fbf1,
        Quad(0x20, 0x79, 0xfc, 0xab));
    Row(23, Quad(0xe4, 0x04, 0xb2, 0xb5), Quad(0x20, 0x79, 0xfc, 0xab),
        Quad(0x1e, 0x2f, 0x00, 0x6d), Quad(0xda, 0xff, 0xa8, 0x59),
        x, 4, 0x0, 20, 0x100000, 0x1000, 0xe7d3fbc8, 0xcb2e79b0,
        Quad(0x07, 0x2c, 0x09, 0x47));
  }

  lemma Abc24(x: Block)
    requires IsShort(x, 0x80636261, 24)
    ensures Steps(RegsOf(Quad(0xda, 0xff, 0xa8, 0x59), Quad(0x07, 0x2c, 0x09, 0x47),
                         Quad(0x20, 0x79, 0xfc, 0xab), Quad(0x1e, 0x2f, 0x00, 0x6d)),
                  x, 24) ==
            Steps(RegsOf(Quad(0x20, 0x79, 0xfc, 0xab), Quad(0xff, 0x8e, 0x38, 0x09),
                         Quad(0xcf, 0x68, 0xf2, 0xb7), Quad(0x07, 0x2c, 0x09, 0x47)),
                  x, 26)
  {
    hide Steps, Entry, RegsOf;
    Table24();
    Row(24, Quad(0xda, 0xff, 0xa8, 0x59), Quad(0x07, 0x2c, 0x09, 0x47),
        Quad(0x20, 0x79, 0xfc, 0xab), Quad(0x1e, 0x2f, 0x00, 0x6d),
        x, 9, 0x0, 5, 0x20, 0x8000000, 0x21e1cde6, 0x438749e6,
        Quad(0xcf, 0x68, 0xf2, 0xb7));
    Row(25, Quad(0x1e, 0x2f, 0x00, 0x6d), Quad(0xcf, 0x68, 0xf2, 0xb7),
        Quad(0x07, 0x2c, 0x09, 0x47), Quad(0x20, 0x79, 0xfc, 0xab),
        x, 14, 0x18, 9, 0x200, 0x800000, 0xc33707d6, 0x1828a313,
        Quad(0xff, 0x8e, 0x38, 0x09));
  }

  lemma Abc26(x: Block)
    requires IsShort(x, 0x80636261, 24)
    ensures Steps(RegsOf(Quad(0x20, 0x79, 0xfc, 0xab), Quad(0xff, 0x8e, 0x38, 0x09),
                         Quad(0xcf, 0x68, 0xf2, 0xb7), Quad(0x07, 0x2c, 0x09, 0x47)),
                  x, 26) ==
            Steps(RegsOf(Quad(0xcf, 0x68, 0xf2, 0xb7), Quad(0x8f, 0xcb, 0x6a, 0x78),
                         Quad(0xb1, 0x23, 0x16, 0xfe), Quad(0xff, 0x8e, 0x38, 0x09)),
                  x, 28)
  {
    hide Steps, Entry, RegsOf;
    Table24();
    Row(26, Quad(0x20, 0x79, 0xfc, 0xab), Quad(0xff, 0x8e, 0x38, 0x09),
        Quad(0xcf, 0x68, 0xf2, 0xb7), Quad(0x07, 0x2c, 0x09, 0x47),
        x, 3, 0x0, 14, 0x4000, 0x40000, 0xf4d50d87, 0x52cbd376,
        Quad(0xb1, 0x23, 0x16, 0xfe));
    Row(27, Quad(0x07, 0x2c, 0x09, 0x47), Quad(0xb1, 0x23, 0x16, 0xfe),
        Quad(0xff, 0x8e, 0x38, 0x09), Quad(0xcf, 0x68, 0xf2, 0xb7),
        x, 8, 0x0, 20, 0x100000, 0x1000, 0x455a14ed, 0x4a7de7a5,
        Quad(0x8f, 0xcb, 0x6a, 0x78));
  }

  lemma Abc28(x: Block)
    requires IsShort(x, 0x80636261, 24)
    ensures Steps(RegsOf(Quad(0xcf, 0x68, 0xf2, 0xb7), Quad(0x8f, 0xcb, 0x6a, 0x78),
                         Quad(0xb1, 0x23, 0x16, 0xfe), Quad(0xff, 0x8e, 0x38, 0x09)),
                  x, 28) ==
            Steps(RegsOf(Quad(0xb1, 0x23, 0x16, 0xfe), Quad(0xf8, 0xe4, 0x47, 0x9f),
                         Quad(0xfb, 0x77, 0x0a, 0x79), Quad(0x8f, 0xcb, 0x6a, 0x78)),
                  x, 30)
  {
    hide Steps, Entry, RegsOf;
    Table28();
    Row(28, Quad(0xcf, 0x68, 0xf2, 0xb7), Quad(0x8f, 0xcb, 0x6a, 0x78),
        Quad(0xb1, 0x23, 0x16, 0xfe), Quad(0xff, 0x8e, 0x38, 0x09),
        x, 13, 0x0, 5, 0x20, 0x8000000, 0xa9e3e905, 0x6004fd63,
        Quad(0xfb, 0x77, 0x0a, 0x79));
    Row(29, Quad(0xff, 0x8e, 0x38, 0x09), Quad(0xfb, 0x77, 0x0a, 0x79),
        Quad(0x8f, 0xcb, 0x6a, 0x78), Quad(0xb1, 0x23, 0x16, 0xfe),
        x, 2, 0x0, 9, 0x200, 0x800000, 0xfcefa3f8, 0x7e931eb6,
        Quad(0xf8, 0xe4, 0x47, 0x9f));
  }

  lemma Abc30(x: Block)
    requires IsShort(x, 0x80636261, 24)
    ensures Steps(RegsOf(Quad(0xb1, 0x23, 0x16, 0xfe), Quad(0xf8, 0xe4, 0x47, 0x9f),
                         Quad(0xfb, 0x77, 0x0a, 0x79), Quad(0x8f, 0xcb, 0x6a, 0x78)),
                  x, 30) ==
            Steps(RegsOf(Quad(0xfb, 0x77, 0x0a, 0x79), Quad(0xd3, 0x42, 0x63, 0x72),
                         Quad(0xaa, 0x84, 0x28, 0xa6), Quad(0xf8, 0xe4, 0x47, 0x9f)),
                  x, 32)
  {
    hide Steps, Entry, RegsOf;
    Table28();
    Row(30, Quad(0xb1, 0x23, 0x16, 0xfe), Quad(0xf8, 0xe4, 0x47, 0x9f),
        Quad(0xfb, 0x77, 0x0a, 0x79), Quad(0x8f, 0xcb, 0x6a, 0x78),
        x, 7, 0x0, 14, 0x4000, 0x40000, 0x676f02d9, 0x7ec81b82,
        Quad(0xaa, 0x84, 0x28, 0xa6));
    Row(31, Quad(0x8f, 0xcb, 0x6a, 0x78), Quad(0xaa, 0x84, 0x28, 0xa6),
        Quad(0xf8, 0xe4, 0x47, 0x9f), Quad(0xfb, 0x77, 0x0a, 0x79),
        x, 12, 0x0, 20, 0x100000, 0x1000, 0x8d2a4c8a, 0xabe29cc3,
        Quad(0xd3, 0x42, 0x63, 0x72));
  }

  lemma Abc32(x: Block)
    requires IsShort(x, 0x80636261, 24)
    ensures Steps(RegsOf(Quad(0xfb, 0x77, 0x0a, 0x79), Quad(0xd3, 0x42, 0x63, 0x72),
                         Quad(0xaa, 0x84, 0x28, 0xa6), Quad(0xf8, 0xe4, 0x47, 0x9f)),
                  x, 32) ==
            Steps(RegsOf(Quad(0xaa, 0x84, 0x28, 0xa6), Quad(0x2e, 0x7b, 0x12, 0x60),
                         Quad(0xbf, 0x7e, 0x70, 0xb3), Quad(0xd3, 0x42, 0x63, 0x72)),
                  x, 34)
  {
    hide Steps, Entry, RegsOf;
    Table32();
    Row(32, Quad(0xfb, 0x77, 0x0a, 0x79), Quad(0xd3, 0x42, 0x63, 0x72),
        Quad(0xaa, 0x84, 0x28, 0xa6), Quad(0xf8, 0xe4, 0x47, 0x9f),
        x, 5, 0x0, 4, 0x10, 0x10000000, 0xfffa3942, 0xc410d3be,
        Quad(0xbf, 0x7e, 0x70, 0xb3));
    Row(33, Quad(0xf8, 0xe4, 0x47, 0x9f), Quad(0xbf, 0x7e, 0x70, 0xb3),
        Quad(0xd3, 0x42, 0x63, 0x72), Quad(0xaa, 0x84, 0x28, 0xa6),
        x, 8, 0x0, 11, 0x800, 0x200000, 0x8771f681, 0x8df5943f,
        Quad(0x2e, 0x7b, 0x12, 0x60));
  }

  lemma Abc34(x: Block)
    requires IsShort(x, 0x80636261, 24)
    ensures Steps(RegsOf(Quad(0xaa, 0x84, 0x28, 0xa6), Quad(0x2e, 0x7b, 0x12, 0x60),
                         Quad(0xbf, 0x7e, 0x70, 0xb3), Quad(0xd3, 0x42, 0x63, 0x72)),
                  x, 34) ==
            Steps(RegsOf(Quad(0xbf, 0x7e, 0x70, 0xb3), Quad(0xc7, 0x75, 0x08, 0x3b),
                         Quad(0xf5, 0x2f, 0x21, 0x8d), Quad(0x2e, 0x7b, 0x12, 0x60)),
                  x, 36)
  {
    hide Steps, Entry, RegsOf;
    Table32();
    Row(34, Quad(0xaa, 0x84, 0x28, 0xa6), Quad(0x2e, 0x7b, 0x12, 0x60),
        Quad(0xbf, 0x7e, 0x70, 0xb3), Quad(0xd3, 0x42, 0x63, 0x72),
        x, 11, 0x0, 16, 0x10000, 0x10000, 0x6d9d6122, 0xb4c72d0e,
        Quad(0xf5, 0x2f, 0x21, 0x8d));
    Row(35, Quad(0xd3, 0x42, 0x63, 0x72), Quad(0xf5, 0x2f, 0x21, 0x8d),
        Quad(0x2e, 0x7b, 0x12, 0x60), Quad(0xbf, 0x7e, 0x70, 0xb3),
        x, 14, 0x18, 23, 0x800000, 0x200, 0xfde5380c, 0xce8ba55b,
        Quad(0xc7, 0x75, 0x08, 0x3b));
  }

  lemma Abc36(x: Block)
    requires IsShort(x, 0x80636261, 24)
    ensures Steps(RegsOf(Quad(0xbf, 0x7e, 0x70, 0xb3), Quad(0xc7, 0x75, 0x08, 0x3b),
                         Quad(0xf5, 0x2f, 0x21, 0x8d), Quad(0x2e, 0x7b, 0x12, 0x60)),
                  x, 36) ==
            Steps(RegsOf(Quad(0xf5, 0x2f, 0x21, 0x8d), Quad(0xd5, 0x29, 0x74, 0x6e),
                         Quad(0xb9, 0x17, 0xb1, 0x21), Quad(0xc7, 0x75, 0x08, 0x3b)),
                  x, 38)
  {
    hide Steps, Entry, RegsOf;
    Table36();
    Row(36, Quad(0xbf, 0x7e, 0x70, 0xb3), Quad(0xc7, 0x75, 0x08, 0x3b),
        Quad(0xf5, 0x2f, 0x21, 0x8d), Quad(0x2e, 0x7b, 0x12, 0x60),
        x, 1, 0x0, 4, 0x10, 0x10000000, 0xa4beea44, 0x2e6a8a1f,
        Quad(0xb9, 0x17, 0xb1, 0x21));
    Row(37, Quad(0x2e, 0x7b, 0x12, 0x60), Quad(0xb9, 0x17, 0xb1, 0x21),
        Quad(0xc7, 0x75, 0x08, 0x3b), Quad(0xf5, 0x2f, 0x21, 0x8d),
        x, 4, 0x0, 11, 0x800, 0x200000, 0x4bdecfa9, 0x43899862,
        Quad(0xd5, 0x29, 0x74, 0x6e));
  }

  lemma Abc38(x: Block)
    requires IsShort(x, 0x80636261, 24)
    ensures Steps(RegsOf(Quad(0xf5, 0x2f, 0x21, 0x8d), Quad(0xd5, 0x29, 0x74, 0x6e),
                         Quad(0xb9, 0x17, 0xb1, 0x21), Quad(0xc7, 0x75, 0x08, 0x3b)),
                  x, 38) ==
            Steps(RegsOf(Quad(0xb9, 0x17, 0xb1, 0x21), Quad(0xa5, 0x5e, 0x2f, 0x5a),
                         Quad(0x7e, 0x22, 0x75, 0x35), Quad(0xd5, 0x29, 0x74, 0x6e)),
                  x, 40)
  {
    hide Steps, Entry, RegsOf;
    Table36();
    Row(38, Quad(0xf5, 0x2f, 0x21, 0x8d), Quad(0xd5, 0x29, 0x74, 0x6e),
        Quad(0xb9, 0x17, 0xb1, 0x21), Quad(0xc7, 0x75, 0x08, 0x3b),
        x, 7, 0x0, 16, 0x10000, 0x10000, 0xf6bb4b60, 0xf8a9c700,
        Quad(0x7e, 0x22, 0x75, 0x35));
    Row(39, Quad(0xc7, 0x75, 0x08, 0x3b), Quad(0x7e, 0x22, 0x75, 0x35),
        Quad(0xd5, 0x29, 0x74, 0x6e), Quad(0xb9, 0x17, 0xb1, 0x21),
        x, 10, 0x0, 23, 0x800000, 0x200, 0xbebfbc70, 0x74784e49,
        Quad(0xa5, 0x5e, 0x2f, 0x5a));
  }

  lemma Abc40(x: Block)
    requires IsShort(x, 0x80636261, 24)
    ensures Steps(RegsOf(Quad(0xb9, 0x17, 0xb1, 0x21), Quad(0xa5, 0x5e, 0x2f, 0x5a),
                         Quad(0x7e, 0x22, 0x75, 0x35), Quad(0xd5, 0x29, 0x74, 0x6e)),
                  x, 40) ==
            Steps(RegsOf(Quad(0x7e, 0x22, 0x75, 0x35), Quad(0x38, 0xaa, 0xdc, 0xfa),
                         Quad(0x79, 0x17, 0xde, 0x11), Quad(0xa5, 0x5e, 0x2f, 0x5a)),
                  x, 42)
  {
    hide Steps, Entry, RegsOf;
    Table40();
    Row(40, Quad(0xb9, 0x17, 0xb1, 0x21), Quad(0xa5, 0x5e, 0x2f, 0x5a),
        Quad(0x7e, 0x22, 0x75, 0x35), Quad(0xd5, 0x29, 0x74, 0x6e),
        x, 13, 0x0, 4, 0x10, 0x10000000, 0x289b7ec6, 0x4b7aeb8d,
        Quad(0x79, 0x17, 0xde, 0x11));
    Row(41, Quad(0xd5, 0x29, 0x74, 0x6e), Quad(0x79, 0x17, 0xde, 0x11),
        Quad(0xa5, 0x5e, 0x2f, 0x5a), Quad(0x7e, 0x22, 0x75, 0x35),
        x, 0, 0x80636261, 11, 0x800, 0x200000, 0xeaa127fa, 0x57fd1fd2,
        Quad(0x38, 0xaa, 0xdc, 0xfa));
  }

  lemma Abc42(x: Block)
    requires IsShort(x, 0x80636261, 24)
    ensures Steps(RegsOf(Quad(0x7e, 0x22, 0x75, 0x35), Quad(0x38, 0xaa, 0xdc, 0xfa),
                         Quad(0x79, 0x17, 0xde, 0x11), Quad(0xa5, 0x5e, 0x2f, 0x5a)),
                  x, 42) ==
            Steps(RegsOf(Quad(0x79, 0x17, 0xde, 0x11), Quad(0xf4, 0x24, 0x61, 0x4c),
                         Quad(0xca, 0x65, 0xc4, 0x31), Quad(0x38, 0xaa, 0xdc, 0xfa)),
                  x, 44)
  {
    hide Steps, Entry, RegsOf;
    Table40();
    Row(42, Quad(0x7e, 0x22, 0x75, 0x35), Quad(0x38, 0xaa, 0xdc, 0xfa),
        Quad(0x79, 0x17, 0xde, 0x11), Quad(0xa5, 0x5e, 0x2f, 0x5a),
        x, 3, 0x0, 16, 0x10000, 0x10000, 0xd4ef3085, 0xbb9236e7,
        Quad(0xca, 0x65, 0xc4, 0x31));
    Row(43, Quad(0xa5, 0x5e, 0x2f, 0x5a), Quad(0xca, 0x65, 0xc4, 0x31),
        Quad(0x38, 0xaa, 0xdc, 0xfa), Quad(0x79, 0x17, 0xde, 0x11),
        x, 6, 0x0, 23, 0x800000, 0x200, 0x4881d05, 0x397e5435,
        Quad(0xf4, 0x24, 0x61, 0x4c));
  }

  lemma Abc44(x: Block)
    requires IsShort(x, 0x80636261, 24)
    ensures Steps(RegsOf(Quad(0x79, 0x17, 0xde, 0x11), Quad(0xf4, 0x24, 0x61, 0x4c),
                         Quad(0xca, 0x65, 0xc4, 0x31), Quad(0x38, 0xaa, 0xdc, 0xfa)),
                  x, 44) ==
            Steps(RegsOf(Quad(0xca, 0x65, 0xc4, 0x31), Quad(0x9d, 0x67, 0xd9, 0x99),
                         Quad(0x7b, 0x50, 0x2e, 0x7f), Quad(0xf4, 0x24, 0x61, 0x4c)),
                  x, 46)
  {
    hide Steps, Entry, RegsOf;
    Table44();
    Row(44, Quad(0x79, 0x17, 0xde, 0x11), Quad(0xf4, 0x24, 0x61, 0x4c),
        Quad(0xca, 0x65, 0xc4, 0x31), Quad(0x38, 0xaa, 0xdc, 0xfa),
        x, 9, 0x0, 4, 0x10, 0x10000000, 0xd9d4d039, 0x732cd2b8,
        Quad(0x7b, 0x50, 0x2e, 0x7f));
    Row(45, Quad(0x38, 0xaa, 0xdc, 0xfa), Quad(0x7b, 0x50, 0x2e, 0x7f),
        Quad(0xf4, 0x24, 0x61, 0x4c), Quad(0xca, 0x65, 0xc4, 0x31),
        x, 12, 0x0, 11, 0x800, 0x200000, 0xe6db99e5, 0xe4435562,
        Quad(0x9d, 0x67, 0xd9, 0x99));
  }

  lemma Abc46(x: Block)
    requires IsShort(x, 0x80636261, 24)
    ensures Steps(RegsOf(Quad(0xca, 0x65, 0xc4, 0x31), Quad(0x9d, 0x67, 0xd9, 0x99),
                         Quad(0x7b, 0x50, 0x2e, 0x7f), Quad(0xf4, 0x24, 0x61, 0x4c)),
                  x, 46) ==
            Steps(RegsOf(Quad(0x7b, 0x50, 0x2e, 0x7f), Quad(0x00, 0x97, 0xeb, 0x7b),
                         Quad(0x99, 0x63, 0xae, 0x8f), Quad(0x9d, 0x67, 0xd9, 0x99)),
                  x, 48)
  {
    hide Steps, Entry, RegsOf;
    Table44();
    Row(46, Quad(0xca, 0x65, 0xc4, 0x31), Quad(0x9d, 0x67, 0xd9, 0x99),
        Quad(0x7b, 0x50, 0x2e, 0x7f), Quad(0xf4, 0x24, 0x61, 0x4c),
        x, 15, 0x0, 16, 0x10000, 0x10000, 0x1fa27cf8, 0xfbfcf5d4,
        Quad(0x99, 0x63, 0xae, 0x8f));
    Row(47, Quad(0xf4, 0x24, 0x61, 0x4c), Quad(0x99, 0x63, 0xae, 0x8f),
        Quad(0x9d, 0x67, 0xd9, 0x99), Quad(0x7b, 0x50, 0x2e, 0x7f),
        x, 2, 0x0, 23, 0x800000, 0x200, 0xc4ac5665, 0x7a66cfd8,
        Quad(0x00, 0x97, 0xeb, 0x7b));
  }

  lemma Abc48(x: Block)
    requires IsShort(x, 0x80636261, 24)
    ensures Steps(RegsOf(Quad(0x7b, 0x50, 0x2e, 0x7f), Quad(0x00, 0x97, 0xeb, 0x7b),
                         Quad(0x99, 0x63, 0xae, 0x8f), Quad(0x9d, 0x67, 0xd9, 0x99)),
                  x, 48) ==
            Steps(RegsOf(Quad(0x99, 0x63, 0xae, 0x8f), Quad(0x6e, 0xe9, 0xe8, 0xf4),
                         Quad(0xf8, 0x1d, 0x20, 0x7b), Quad(0x00, 0x97, 0xeb, 0x7b)),
                  x, 50)
  {
    hide Steps, Entry, RegsOf;
    Table48();
    Row(48, Quad(0x7b, 0x50, 0x2e, 0x7f), Quad(0x00, 0x97, 0xeb, 0x7b),
        Quad(0x99, 0x63, 0xae, 0x8f), Quad(0x9d, 0x67, 0xd9, 0x99),
        x, 0, 0x80636261, 6, 0x40, 0x4000000, 0xf4292244, 0xe3fcd21b,
        Quad(0xf8, 0x1d, 0x20, 0x7b));
    Row(49, Quad(0x9d, 0x67, 0xd9, 0x99), Quad(0xf8, 0x1d, 0x20, 0x7b),
        Quad(0x00, 0x97, 0xeb, 0x7b), Quad(0x99, 0x63, 0xae, 0x8f),
        x, 7, 0x0, 10, 0x400, 0x400000, 0x432aff97, 0xdd9e7232,
        Quad(0x6e, 0xe9, 0xe8, 0xf4));
  }

  lemma Abc50(x: Block)
    requires IsShort(x, 0x80636261, 24)
    ensures Steps(RegsOf(Quad(0x99, 0x63, 0xae, 0x8f), Quad(0x6e, 0xe9, 0xe8, 0xf4),
                         Quad(0xf8, 0x1d, 0x20, 0x7b), Quad(0x00, 0x97, 0xeb, 0x7b)),
                  x, 50) ==
            Steps(RegsOf(Quad(0xf8, 0x1d, 0x20, 0x7b), Quad(0xc4, 0x25, 0xf0, 0x8b),
                         Quad(0xfd, 0xce, 0x98, 0xb2), Quad(0x6e, 0xe9, 0xe8, 0xf4)),
                  x, 52)
  {
    hide Steps, Entry, RegsOf;
    Table48();
    Row(50, Quad(0x99, 0x63, 0xae, 0x8f), Quad(0x6e, 0xe9, 0xe8, 0xf4),
        Quad(0xf8, 0x1d, 0x20, 0x7b), Quad(0x00, 0x97, 0xeb, 0x7b),
        x, 14, 0x18, 15, 0x8000, 0x20000, 0xab9423a7, 0xcb1f7b5f,
        Quad(0xfd, 0xce, 0x98, 0xb2));
    Row(51, Quad(0x00, 0x97, 0xeb, 0x7b), Quad(0xfd, 0xce, 0x98, 0xb2),
        Quad(0x6e, 0xe9, 0xe8, 0xf4), Quad(0xf8, 0x1d, 0x20, 0x7b),
        x, 5, 0x0, 21, 0x200000, 0x800, 0xfc93a039, 0xbab63eca,
        Quad(0xc4, 0x25, 0xf0, 0x8b));
  }

  lemma Abc52(x: Block)
    requires IsShort(x, 0x80636261, 24)
    ensures Steps(RegsOf(Quad(0xf8, 0x1d, 0x20, 0x7b), Quad(0xc4, 0x25, 0xf0, 0x8b),
                         Quad(0xfd, 0xce, 0x98, 0xb2), Quad(0x6e, 0xe9, 0xe8, 0xf4)),
                  x, 52) ==
            Steps(RegsOf(Quad(0xfd, 0xce, 0x98, 0xb2), Quad(0xaa, 0x97, 0x0d, 0x5b),
                         Quad(0x8a, 0x5e, 0xcc, 0x06), Quad(0xc4, 0x25, 0xf0, 0x8b)),
                  x, 54)
  {
    hide Steps, Entry, RegsOf;
    Table52();
    Row(52, Quad(0xf8, 0x1d, 0x20, 0x7b), Quad(0xc4, 0x25, 0xf0, 0x8b),
        Quad(0xfd, 0xce, 0x98, 0xb2), Quad(0x6e, 0xe9, 0xe8, 0xf4),
        x, 12, 0x0, 6, 0x40, 0x4000000, 0x655b59c3, 0x19eb70e3,
        Quad(0x8a, 0x5e, 0xcc, 0x06));
    Row(53, Quad(0x6e, 0xe9, 0xe8, 0xf4), Quad(0x8a, 0x5e, 0xcc, 0x06),
        Quad(0xc4, 0x25, 0xf0, 0x8b), Quad(0xfd, 0xce, 0x98, 0xb2),
        x, 3, 0x0, 10, 0x400, 0x400000, 0x8f0ccc92, 0x4815104e,
        Quad(0xaa, 0x97, 0x0d, 0x5b));
  }

  lemma Abc54(x: Block)
    requires IsShort(x, 0x80636261, 24)
    ensures Steps(RegsOf(Quad(0xfd, 0xce, 0x98, 0xb2), Quad(0xaa, 0x97, 0x0d, 0x5b),
                         Quad(0x8a, 0x5e, 0xcc, 0x06), Quad(0xc4, 0x25, 0xf0, 0x8b)),
                  x, 54) ==
            Steps(RegsOf(Quad(0x8a, 0x5e, 0xcc, 0x06), Quad(0x27, 0x2c, 0xfa, 0x3b),
                         Quad(0xd0, 0x2d, 0x63, 0x7d), Quad(0xaa, 0x97, 0x0d, 0x5b)),
                  x, 56)
  {
    hide Steps, Entry, RegsOf;
    Table52();
    Row(54, Quad(0xfd, 0xce, 0x98, 0xb2), Quad(0xaa, 0x97, 0x0d, 0x5b),
        Quad(0x8a, 0x5e, 0xcc, 0x06), Quad(0xc4, 0x25, 0xf0, 0x8b),
        x, 10, 0x0, 15, 0x8000, 0x20000, 0xffeff47d, 0x2c4c44ab,
        Quad(0xd0, 0x2d, 0x63, 0x7d));
    Row(55, Quad(0xc4, 0x25, 0xf0, 0x8b), Quad(0xd0, 0x2d, 0x63, 0x7d),
        Quad(0xaa, 0x97, 0x0d, 0x5b), Quad(0x8a, 0x5e, 0xcc, 0x06),
        x, 1, 0x0, 21, 0x200000, 0x800, 0x85845dd1, 0xb7f2bdf4,
        Quad(0x27, 0x2c, 0xfa, 0x3b));
  }

  lemma Abc56(x: Block)
    requires IsShort(x, 0x80636261, 24)
    ensures Steps(RegsOf(Quad(0x8a, 0x5e, 0xcc, 0x06), Quad(0x27, 0x2c, 0xfa, 0x3b),
                         Quad(0xd0, 0x2d, 0x63, 0x7d), Quad(0xaa, 0x97, 0x0d, 0x5b)),
                  x, 56) ==
            Steps(RegsOf(Quad(0xd0, 0x2d, 0x63, 0x7d), Quad(0xab, 0x54, 0x44, 0x09),
                         Quad(0x35, 0xcc, 0x81, 0x7f), Quad(0x27, 0x2c, 0xfa, 0x3b)),
                  x, 58)
  {
    hide Steps, Entry, RegsOf;
    Table56();
    Row(56, Quad(0x8a, 0x5e, 0xcc, 0x06), Quad(0x27, 0x2c, 0xfa, 0x3b),
        Quad(0xd0, 0x2d, 0x63, 0x7d), Quad(0xaa, 0x97, 0x0d, 0x5b),
        x, 8, 0x0, 6, 0x40, 0x4000000, 0x6fa87e4f, 0x390e1e80,
        Quad(0x35, 0xcc, 0x81, 0x7f));
    Row(57, Quad(0xaa, 0x97, 0x0d, 0x5b), Quad(0x35, 0xcc, 0x81, 0x7f),
        Quad(0x27, 0x2c, 0xfa, 0x3b), Quad(0xd0, 0x2d, 0x63, 0x7d),
        x, 15, 0x0, 10, 0x400, 0x400000, 0xfe2ce6e0, 0x1da270a2,
        Quad(0xab, 0x54, 0x44, 0x09));
  }

  lemma Abc58(x: Block)
    requires IsShort(x, 0x80636261, 24)
    ensures Steps(RegsOf(Quad(0xd0, 0x2d, 0x63, 0x7d), Quad(0xab, 0x54, 0x44, 0x09),
                         Quad(0x35, 0xcc, 0x81, 0x7f), Quad(0x27, 0x2c, 0xfa, 0x3b)),
                  x, 58) ==
            Steps(RegsOf(Quad(0x35, 0xcc, 0x81, 0x7f), Quad(0x04, 0xd6, 0x27, 0x73),
                         Quad(0x3f, 0xbe, 0x9d, 0x4f), Quad(0xab, 0x54, 0x44, 0x09)),
                  x, 60)
  {
    hide Steps, Entry, RegsOf;
    Table56();
    Row(58, Quad(0xd0, 0x2d, 0x63, 0x7d), Quad(0xab, 0x54, 0x44, 0x09),
        Quad(0x35, 0xcc, 0x81, 0x7f), Quad(0x27, 0x2c, 0xfa, 0x3b),
        x, 6, 0x0, 15, 0x8000, 0x20000, 0xa3014314, 0xd3288cb2,
        Quad(0x3f, 0xbe, 0x9d, 0x4f));
    Row(59, Quad(0x27, 0x2c, 0xfa, 0x3b), Quad(0x3f, 0xbe, 0x9d, 0x4f),
        Quad(0xab, 0x54, 0x44, 0x09), Quad(0x35, 0xcc, 0x81, 0x7f),
        x, 13, 0x0, 21, 0x200000, 0x800, 0x4e0811a1, 0x50be291c,
        Quad(0x04, 0xd6, 0x27, 0x73));
  }

  lemma Abc60(x: Block)
    requires IsShort(x, 0x80636261, 24)
    ensures Steps(RegsOf(Quad(0x35, 0xcc, 0x81, 0x7f), Quad(0x04, 0xd6, 0x27, 0x73),
                         Quad(0x3f, 0xbe, 0x9d, 0x4f), Quad(0xab, 0x54, 0x44, 0x09)),
                  x, 60) ==
            Steps(RegsOf(Quad(0x3f, 0xbe, 0x9d, 0x4f), Quad(0xb2, 0x8c, 0x4d, 0x62),
                         Quad(0x8f, 0xde, 0x0a, 0x31), Quad(0x04, 0xd6, 0x27, 0x73)),
                  x, 62)
  {
    hide Steps, Entry, RegsOf;
    Table60();
    Row(60, Quad(0x35, 0xcc, 0x81, 0x7f), Quad(0x04, 0xd6, 0x27, 0x73),
        Quad(0x3f, 0xbe, 0x9d, 0x4f), Quad(0xab, 0x54, 0x44, 0x09),
        x, 4, 0x0, 6, 0x40, 0x4000000, 0xf7537e82, 0x2ef78c22,
        Quad(0x8f, 0xde, 0x0a, 0x31));
    Row(61, Quad(0xab, 0x54, 0x44, 0x09), Quad(0x8f, 0xde, 0x0a, 0x31),
        Quad(0x04, 0xd6, 0x27, 0x73), Quad(0x3f, 0xbe, 0x9d, 0x4f),
        x, 11, 0x0, 10, 0x400, 0x400000, 0xbd3af235, 0x88cc50ab,
        Quad(0xb2, 0x8c, 0x4d, 0x62));
  }

  lemma Abc62(x: Block)
    requires IsShort(x, 0x80636261, 24)
    ensures Steps(RegsOf(Quad(0x3f, 0xbe, 0x9d, 0x4f), Quad(0xb2, 0x8c, 0x4d, 0x62),
                         Quad(0x8f, 0xde, 0x0a, 0x31), Quad(0x04, 0xd6, 0x27, 0x73)),
                  x, 62) ==
            Steps(RegsOf(Quad(0x8f, 0xde, 0x0a, 0x31), Quad(0xb3, 0x26, 0x82, 0xc0),
                         Quad(0xd8, 0xb9, 0x84, 0xe4), Quad(0xb2, 0x8c, 0x4d, 0x62)),
                  x, 64)
  {
    hide Steps, Entry, RegsOf;
    Table60();
    Row(62, Quad(0x3f, 0xbe, 0x9d, 0x4f), Quad(0xb2, 0x8c, 0x4d, 0x62),
        Quad(0x8f, 0xde, 0x0a, 0x31), Quad(0x04, 0xd6, 0x27, 0x73),
        x, 2, 0x0, 15, 0x8000, 0x20000, 0x2ad7d2bb, 0x5a4d046e,
        Quad(0xd8, 0xb9, 0x84, 0xe4));
    Row(63, Quad(0x04, 0xd6, 0x27, 0x73), Quad(0xd8, 0xb9, 0x84, 0xe4),
        Quad(0xb2, 0x8c, 0x4d, 0x62), Quad(0x8f, 0xde, 0x0a, 0x31),
        x, 9, 0x0, 21, 0x200000, 0x800, 0xeb86d391, 0xeb66dedf,
        Quad(0xb3, 0x26, 0x82, 0xc0));
  }

  lemma AbcRound1(x: Block)
    requires IsShort(x, 0x80636261, 24)
    ensures Steps(RegsOf(Quad(0x01, 0x23, 0x45, 0x67), Quad(0x89, 0xab, 0xcd, 0xef),
                         Quad(0xfe, 0xdc, 0xba, 0x98), Quad(0x76, 0x54, 0x32, 0x10)),
                  x, 0) ==
            Steps(RegsOf(Quad(0xa6, 0xb9, 0xa9, 0xdd), Quad(0xe0, 0xf2, 0xaf, 0x72),
                         Quad(0x6b, 0x85, 0x96, 0xe3), Quad(0x95, 0x18, 0x05, 0xa1)),
                  x, 16)
  {
    hide Steps, RegsOf, IsShort;
    Abc0(x);
    Abc2(x);
    Abc4(x);
    Abc6(x);
    Abc8(x);
    Abc10(x);
    Abc12(x);
    Abc14(x);
  }

  lemma AbcRound2(x: Block)
    requires IsShort(x, 0x80636261, 24)
    ensures Steps(RegsOf(Quad(0xa6, 0xb9, 0xa9, 0xdd), Quad(0xe0, 0xf2, 0xaf, 0x72),
                         Quad(0x6b, 0x85, 0x96, 0xe3), Quad(0x95, 0x18, 0x05, 0xa1)),
                  x, 16) ==
            Steps(RegsOf(Quad(0xfb, 0x77, 0x0a, 0x79), Quad(0xd3, 0x42, 0x63, 0x72),
                         Quad(0xaa, 0x84, 0x28, 0xa6), Quad(0xf8, 0xe4, 0x47, 0x9f)),
                  x, 32)
  {
    hide Steps, RegsOf, IsShort;
    Abc16(x);
    Abc18(x);
    Abc20(x);
    Abc22(x);
    Abc24(x);
    Abc26(x);
    Abc28(x);
    Abc30(x);
  }

  lemma AbcRound3(x: Block)
    requires IsShort(x, 0x80636261, 24)
    ensures Steps(RegsOf(Quad(0xfb, 0x77, 0x0a, 0x79), Quad(0xd3, 0x42, 0x63, 0x72),
                         Quad(0xaa, 0x84, 0x28, 0xa6), Quad(0xf8, 0xe4, 0x47, 0x9f)),
                  x, 32) ==
            Steps(RegsOf(Quad(0x7b, 0x50, 0x2e, 0x7f), Quad(0x00, 0x97, 0xeb, 0x7b),
                         Quad(0x99, 0x63, 0xae, 0x8f), Quad(0x9d, 0x67, 0xd9, 0x99)),
                  x, 48)
  {
    hide Steps, RegsOf, IsShort;
    Abc32(x);
    Abc34(x);
    Abc36(x);
    Abc38(x);
    Abc40(x);
    Abc42(x);
    Abc44(x);
    Abc46(x);
  }

  lemma AbcRound4(x: Block)
    requires IsShort(x, 0x80636261, 24)
    ensures Steps(RegsOf(Quad(0x7b, 0x50, 0x2e, 0x7f), Quad(0x00, 0x97, 0xeb, 0x7b),
                         Quad(0x99, 0x63, 0xae, 0x8f), Quad(0x9d, 0x67, 0xd9, 0x99)),
                  x, 48) ==
            Steps(RegsOf(Quad(0x8f, 0xde, 0x0a, 0x31), Quad(0xb3, 0x26, 0x82, 0xc0),
                         Quad(0xd8, 0xb9, 0x84, 0xe4), Quad(0xb2, 0x8c, 0x4d, 0x62)),
                  x, 64)
  {
    hide Steps, RegsOf, IsShort;
    Abc48(x);
    Abc50(x);
    Abc52(x);
    Abc54(x);
    Abc56(x);
    Abc58(x);
    Abc60(x);
    Abc62(x);
  }

  lemma AbcSteps(x: Block)
    requires IsShort(x, 0x80636261, 24)
    ensures Compress(INIT, x) == Regs(0x98500190, 0xb04fd23c, 0x7d3f96d6, 0x727fe128)
  {
    hide Steps, IsShort;
    AbcRound1(x);
    AbcRound2(x);
    AbcRound3(x);
    AbcRound4(x);
    StepsEnd(RegsOf(Quad(0x8f, 0xde, 0x0a, 0x31), Quad(0xb3, 0x26, 0x82, 0xc0),
                    Quad(0xd8, 0xb9, 0x84, 0xe4), Quad(0xb2, 0x8c, 0x4d, 0x62)), x);
  }

  // ---------------------------------------------------------------- digests

  lemma {:induction false} DecodeAt(b: seq<Byte>, k: nat)
    requires |b| % 4 == 0 && 4 * k + 4 <= |b|
    ensures Decode(b)[k] == WordOf(b[4 * k..4 * k + 4])
  {
    if k > 0 {
      DecodeAt(b[4..], k - 1);
      assert b[4..][4 * (k - 1)..4 * (k - 1) + 4] == b[4 * k..4 * k + 4];
    }
  }

  lemma LengthBytesOf(n: nat)
    requires 8 * n < 256
    ensures LengthBytes(n) == [8 * n, 0, 0, 0, 0, 0, 0, 0]
  {
    assert [8 * n, 0][1..] == [0] && [0][1..] == [];
    assert BytesOf(8 * n) == [8 * n, 0, 0, 0] && BytesOf(0) == [0, 0, 0, 0];
    assert Encode([0]) == BytesOf(0) + Encode([]);
    assert Encode([8 * n, 0]) == BytesOf(8 * n) + Encode([0]);
  }

  /** The bytes of the one block of a message of at most three bytes. */
  lemma ShortBytes(m: seq<Byte>)
    requires |m| < 4
    ensures var p := Padded(m);
            && |p| == 64 && p[..|m|] == m && p[|m|] == 0x80
            && (forall i :: |m| < i < 64 ==> p[i] == if i == 56 then 8 * |m| else 0)
  {
    LengthBytesOf(|m|);
    hide LengthBytes;
    assert Padding(|m|) == [0x80] + Zeros(55 - |m|);
  }

  lemma ShortBlock(m: seq<Byte>, w0: Word)
    requires |m| < 4 && w0 == WordOf((m + [0x80, 0, 0, 0])[..4])
    ensures |Padded(m)| == 64 && IsShort(Load(Padded(m)), w0, 8 * |m|)
  {
    ShortBytes(m);
    hide Padded, Decode;
    var p := Padded(m);
    forall k | 0 <= k < 16 ensures Load(p)[k] == if k == 0 then w0 else if k == 14 then 8 * |m| else 0 {
      DecodeAt(p, k);
      if k == 0 {
        assert p[0..4] == (m + [0x80, 0, 0, 0])[..4];
      } else {
        assert forall i :: 4 * k <= i < 4 * k + 4 ==> p[i] == if i == 56 then 8 * |m| else 0;
      }
    }
  }

  lemma OneBlock(m: seq<Byte>)
    requires |Padded(m)| == 64
    ensures Digest(m) == DigestOf(Compress(INIT, Load(Padded(m))))
  {
    hide Padded, Steps, Load, DigestOf;
    var p := Padded(m);
    assert p[..64] == p && p[64..] == [];
    var r := Compress(INIT, Load(p));
    assert Absorb(Compress, r, []) == r;
  }

  lemma DigestBytes(r: Regs)
    ensures DigestOf(r) == BytesOf(r.a) + BytesOf(r.b) + BytesOf(r.c) + BytesOf(r.d)
  {
    hide BytesOf;
    var ws := [r.a, r.b, r.c, r.d];
    assert ws[1..] == [r.b, r.c, r.d] && ws[1..][1..] == [r.c, r.d] && ws[1..][1..][1..] == [r.d];
    assert [r.d][1..] == [];
    assert Encode([r.d]) == BytesOf(r.d) + Encode([]);
    assert Encode([r.c, r.d]) == BytesOf(r.c) + Encode([r.d]);
    assert Encode([r.b, r.c, r.d]) == BytesOf(r.b) + Encode([r.c, r.d]);
  }

  lemma EmptyBytes()
    ensures BytesOf(0xd98c1dd4) == [0xd4, 0x1d, 0x8c, 0xd9]
    ensures BytesOf(0x4b2008f) == [0x8f, 0x00, 0xb2, 0x04]
    ensures BytesOf(0x980980e9) == [0xe9, 0x80, 0x09, 0x98]
    ensures BytesOf(0x7e42f8ec) == [0xec, 0xf8, 0x42, 0x7e]
  {
  }

  lemma DigestOfEmpty()
    ensures Digest([]) ==
            [0xd4, 0x1d, 0x8c, 0xd9, 0x8f, 0x00, 0xb2, 0x04, 0xe9, 0x80, 0x09, 0x98, 0xec, 0xf8, 0x42, 0x7e]
  {
    hide Digest, Padded, Compress, Load, DigestOf, BytesOf;
    var m: seq<Byte> := [];
    assert WordOf((m + [0x80, 0, 0, 0])[..4]) == 0x80;
    ShortBlock(m, 0x80);
    OneBlock(m);
    EmptySteps(Load(Padded(m)));
    DigestBytes(Regs(0xd98c1dd4, 0x4b2008f, 0x980980e9, 0x7e42f8ec));
    EmptyBytes();
  }

  lemma AbcBytes()
    ensures BytesOf(0x98500190) == [0x90, 0x01, 0x50, 0x98]
    ensures BytesOf(0xb04fd23c) == [0x3c, 0xd2, 0x4f, 0xb0]
    ensures BytesOf(0x7d3f96d6) == [0xd6, 0x96, 0x3f, 0x7d]
    ensures BytesOf(0x727fe128) == [0x28, 0xe1, 0x7f, 0x72]
  {
  }

  lemma DigestOfAbc()
    ensures Digest([0x61, 0x62, 0x63]) ==
            [0x90, 0x01, 0x50, 0x98, 0x3c, 0xd2, 0x4f, 0xb0, 0xd6, 0x96, 0x3f, 0x7d, 0x28, 0xe1, 0x7f, 0x72]
  {
    hide Digest, Padded, Compress, Load, DigestOf, BytesOf;
    var m: seq<Byte> := [0x61, 0x62, 0x63];
    assert WordOf((m + [0x80, 0, 0, 0])[..4]) == 0x80636261;
    ShortBlock(m, 0x80636261);
    OneBlock(m);
    AbcSteps(Load(Padded(m)));
    DigestBytes(Regs(0x98500190, 0xb04fd23c, 0x7d3f96d6, 0x727fe128));
    AbcBytes();
  }

  /** The streaming class, fed the message in any pieces, gives these digests. */
  method PublishedDigests(chunks: seq<seq<Byte>>) returns (d: seq<Byte>)
    requires forall c :: c in chunks ==> |c| <= MAX_UPDATE
    ensures Concat(chunks) == [] ==>
              d == [0xd4, 0x1d, 0x8c, 0xd9, 0x8f, 0x00, 0xb2, 0x04, 0xe9, 0x80, 0x09, 0x98, 0xec, 0xf8, 0x42, 0x7e]
    ensures Concat(chunks) == [0x61, 0x62, 0x63] ==>
              d == [0x90, 0x01, 0x50, 0x98, 0x3c, 0xd2, 0x4f, 0xb0, 0xd6, 0x96, 0x3f, 0x7d, 0x28, 0xe1, 0x7f, 0x72]
  {
    DigestOfEmpty();
    DigestOfAbc();
    hide Digest;
    d := DigestChunks(chunks);
  }
}
