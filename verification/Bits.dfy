/** Bitwise operators of fixed-width unsigned numbers, and what they mean in arithmetic. */
module Bits {
  function Pow2(n: nat): (p: nat)
    ensures p > 0
  {
    if n == 0 then 1 else 2 * Pow2(n - 1)
  }

  // The low n bits of each result.

  function And(n: nat, x: nat, y: nat): (r: nat)
    ensures r < Pow2(n)
  {
    if n == 0 then 0 else (if x % 2 == 1 && y % 2 == 1 then 1 else 0) + 2 * And(n - 1, x / 2, y / 2)
  }

  function Or(n: nat, x: nat, y: nat): (r: nat)
    ensures r < Pow2(n)
  {
    if n == 0 then 0 else (if x % 2 == 1 || y % 2 == 1 then 1 else 0) + 2 * Or(n - 1, x / 2, y / 2)
  }

  function Xor(n: nat, x: nat, y: nat): (r: nat)
    ensures r < Pow2(n)
  {
    if n == 0 then 0 else (if x % 2 != y % 2 then 1 else 0) + 2 * Xor(n - 1, x / 2, y / 2)
  }

  function Not(n: nat, x: nat): (r: nat)
    ensures r < Pow2(n)
  {
    if n == 0 then 0 else 1 - x % 2 + 2 * Not(n - 1, x / 2)
  }

  lemma {:induction false} PowMonotone(a: nat, b: nat)
    requires a <= b
    ensures Pow2(a) <= Pow2(b)
  {
    if a < b {
      PowMonotone(a, b - 1);
    }
  }

  lemma MulAtLeast(p: nat, d: int)
    requires d > 0
    ensures p * d >= p
  {
  }

  lemma ModUnique(x: nat, p: nat, q: int, r: nat)
    requires p > 0 && x == p * q + r && r < p
    ensures x % p == r && x / p == q
  {
    var d := x / p - q;
    assert p * d == r - x % p;
    if d > 0 {
      MulAtLeast(p, d);
    } else if d < 0 {
      MulAtLeast(p, -d);
    }
  }

  /** Halving a remainder by an even number. */
  lemma HalfMod(x: nat, p: nat, p2: nat)
    requires p > 0 && p2 == 2 * p
    ensures x % p2 == x % 2 + 2 * ((x / 2) % p)
  {
    var q, h, r := (x / 2) / p, (x / 2) % p, x % 2;
    assert x / 2 == p * q + h;
    assert p2 * q == 2 * (p * q);
    ModUnique(x, p2, q, r + 2 * h);
  }

  lemma AndOdd(n: nat, x: nat, m: nat)
    requires n > 0
    ensures And(n, x, 2 * m + 1) == x % 2 + 2 * And(n - 1, x / 2, m)
  {
    assert (2 * m + 1) / 2 == m;
  }

  lemma AndEven(n: nat, x: nat, m: nat)
    requires n > 0
    ensures And(n, x, 2 * m) == 2 * And(n - 1, x / 2, m)
  {
    assert (2 * m) / 2 == m && (2 * m) % 2 == 0;
  }

  lemma NotOdd(n: nat, m: nat)
    requires n > 0
    ensures Not(n, 2 * m + 1) == 2 * Not(n - 1, m)
  {
    assert (2 * m + 1) / 2 == m && (2 * m + 1) % 2 == 1;
  }

  lemma {:induction false} AndZero(n: nat, x: nat)
    ensures And(n, x, 0) == 0
  {
    if n > 0 {
      AndZero(n - 1, x / 2);
    }
  }

  /** Masking with a block of low ones is taking a remainder. */
  lemma {:induction false} AndMask(n: nat, k: nat, x: nat)
    requires k <= n
    ensures And(n, x, Pow2(k) - 1) == x % Pow2(k)
  {
    hide And;
    if k == 0 {
      AndZero(n, x);
    } else {
      var p, m := Pow2(k - 1), Pow2(k - 1) - 1;
      assert Pow2(k) == 2 * p;
      AndMask(n - 1, k - 1, x / 2);
      AndOdd(n, x, m);
      HalfMod(x, p, Pow2(k));
    }
  }

  lemma {:induction false} AndOnes(n: nat, x: nat)
    requires x < Pow2(n)
    ensures And(n, x, Not(n, 0)) == x
  {
    if n > 0 {
      AndOnes(n - 1, x / 2);
    }
  }

  /** Masking with the complement of a block of low ones is rounding down. */
  lemma {:induction false} AndNotMask(n: nat, k: nat, x: nat)
    requires k <= n && x < Pow2(n)
    ensures And(n, x, Not(n, Pow2(k) - 1)) == x - x % Pow2(k)
  {
    hide And, Not;
    if k == 0 {
      AndOnes(n, x);
    } else {
      var p, m := Pow2(k - 1), Not(n - 1, Pow2(k - 1) - 1);
      assert Pow2(k) == 2 * p;
      AndNotMask(n - 1, k - 1, x / 2);
      NotOdd(n, p - 1);
      AndEven(n, x, m);
      HalfMod(x, p, Pow2(k));
    }
  }

  lemma {:induction false} OrZero(n: nat, y: nat)
    requires y < Pow2(n)
    ensures Or(n, 0, y) == y
  {
    if n > 0 {
      OrZero(n - 1, y / 2);
    }
  }

  /** Joining numbers that share no bit is adding them. */
  lemma {:induction false} OrDisjoint(n: nat, k: nat, x: nat, y: nat)
    requires x < Pow2(k) && x + y * Pow2(k) < Pow2(n)
    ensures Or(n, x, y * Pow2(k)) == x + y * Pow2(k)
  {
    if k == 0 {
      OrZero(n, y);
    } else if n > 0 {
      var z := y * Pow2(k);
      assert z == 2 * (y * Pow2(k - 1));
      OrDisjoint(n - 1, k - 1, x / 2, y);
    }
  }
}
