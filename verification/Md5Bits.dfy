/**
  What the basic functions of MD5 do to each bit, and how a step of the table is computed
  on words given as bytes.
 */
module Md5Bits {
  import opened Wrappers
  import opened Bits
  import opened Words
  import opened BitBytes
  import opened Md5Spec

  /** F: where x has a one, the bit of y, and elsewhere that of z. */
  lemma FSelects(x: Word, y: Word, z: Word, i: nat)
    requires i < 32
    ensures Bit(F(x, y, z), i) <==> if Bit(x, i) then Bit(y, i) else Bit(z, i)
  {
    hide And, Or, Not, Bit;
    BitOfAnd(32, x, y, i);
    BitOfNot(32, x, i);
    BitOfAnd(32, NotW(x), z, i);
    BitOfOr(32, AndW(x, y), AndW(NotW(x), z), i);
  }

  /** G: where z has a one, the bit of x, and elsewhere that of y. */
  lemma GSelects(x: Word, y: Word, z: Word, i: nat)
    requires i < 32
    ensures Bit(G(x, y, z), i) <==> if Bit(z, i) then Bit(x, i) else Bit(y, i)
  {
    hide And, Or, Not, Bit;
    BitOfAnd(32, x, z, i);
    BitOfNot(32, z, i);
    BitOfAnd(32, y, NotW(z), i);
    BitOfOr(32, AndW(x, z), AndW(y, NotW(z)), i);
  }

  /** H: a one where an odd number of the three have a one. */
  lemma HIsParity(x: Word, y: Word, z: Word, i: nat)
    requires i < 32
    ensures Bit(H(x, y, z), i) <==>
            ((if Bit(x, i) then 1 else 0) + (if Bit(y, i) then 1 else 0) + (if Bit(z, i) then 1 else 0)) % 2 == 1
  {
    hide Xor, Bit;
    BitOfXor(32, x, y, i);
    BitOfXor(32, XorW(x, y), z, i);
  }

  /** I: the bit of y, turned over where x has a one or z has none. */
  lemma IBits(x: Word, y: Word, z: Word, i: nat)
    requires i < 32
    ensures Bit(I(x, y, z), i) <==> (Bit(y, i) <==> !(Bit(x, i) || !Bit(z, i)))
  {
    hide Xor, Or, Not, Bit;
    BitOfNot(32, z, i);
    BitOfOr(32, x, NotW(z), i);
    BitOfXor(32, y, OrW(x, NotW(z)), i);
  }

  // ---------------------------------------------------------------- rotating

  lemma {:induction false} PowProduct(a: nat, b: nat)
    ensures Pow2(a) * Pow2(b) == Pow2(a + b)
  {
    if a > 0 {
      PowProduct(a - 1, b);
      assert 2 * Pow2(a - 1) * Pow2(b) == 2 * (Pow2(a - 1) * Pow2(b));
    }
  }

  lemma {:induction false} OrSwap(n: nat, x: nat, y: nat)
    ensures Or(n, x, y) == Or(n, y, x)
  {
    if n > 0 {
      OrSwap(n - 1, x / 2, y / 2);
    }
  }

  lemma MulAtMost(p: nat, a: int, b: int)
    ensures a <= b ==> p * a <= p * b
    ensures a >= 0 ==> a * p >= 0
  {
    assert a <= b ==> p * (b - a) >= 0;
    assert p * b - p * a == p * (b - a);
  }

  /** A number below p * q falls into a higher part below p and a lower part below q. */
  lemma Parts(x: nat, p: nat, q: nat)
    requires p > 0 && q > 0 && x < p * q
    ensures 0 <= x / q < p && 0 <= x % q < q && x == q * (x / q) + x % q
    ensures x * p == (p * q) * (x / q) + (x % q) * p && 0 <= (x % q) * p && (x % q) * p + x / q < p * q
  {
    var high, low := x / q, x % q;
    assert x == q * high + low;
    MulAtMost(q, p, high);
    MulAtMost(p, low, q - 1);
    assert (q * high + low) * p == (p * q) * high + low * p;
    assert p * (q - 1) == p * q - p;
  }

  /** Rotating puts the lower part, moved up, on top of the higher part, moved down. */
  lemma RotateIs(x: Word, n: nat)
    requires n <= 32
    ensures RotateLeft(x, n) == x / Pow2(32 - n) + Pow2(n) * (x % Pow2(32 - n))
    ensures 0 <= x / Pow2(32 - n) < Pow2(n) && 0 <= x % Pow2(32 - n) < Pow2(32 - n)
    ensures x == x % Pow2(32 - n) + Pow2(32 - n) * (x / Pow2(32 - n))
  {
    hide Or, Pow2;
    Pow32();
    var p, q := Pow2(n), Pow2(32 - n);
    PowProduct(n, 32 - n);
    Parts(x, p, q);
    var low: nat, high: nat := x % q, x / q;
    ModUnique(x * p, TWO32, high, low * p);
    OrDisjoint(32, n, high, low);
    OrSwap(32, high, low * p);
  }

  /** Rotating by `n` takes every bit `n` places up, those that fall out come in below. */
  lemma RotateMovesBits(x: Word, n: nat, i: nat)
    requires n <= 32 && i < 32
    ensures Bit(RotateLeft(x, n), (i + n) % 32) <==> Bit(x, i)
  {
    hide Bit, RotateLeft, Pow2;
    RotateIs(x, n);
    var low: nat, high: nat := x % Pow2(32 - n), x / Pow2(32 - n);
    BitOfJoin(32 - n, low, high, i);
    BitOfJoin(n, high, low, (i + n) % 32);
  }
}
