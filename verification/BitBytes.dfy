/**
  What the bitwise operators do to each bit, and how they are computed a byte at a time.
 */
module BitBytes {
  import opened Bits
  import opened Words

  // ---------------------------------------------------------------- single bits

  /** Bit `i` of a number, the lowest being bit 0. */
  predicate Bit(x: nat, i: nat) {
    x / Pow2(i) % 2 == 1
  }

  lemma HalfTwice(x: nat, p: nat)
    requires p > 0
    ensures x / (2 * p) == x / 2 / p
  {
    var h := x / 2;
    var q, r := h / p, h % p;
    assert h == p * q + r;
    assert x == (2 * p) * q + (2 * r + x % 2) by {
      assert x == 2 * h + x % 2;
      assert 2 * (p * q) == (2 * p) * q;
    }
    ModUnique(x, 2 * p, q, 2 * r + x % 2);
  }

  lemma BitNext(x: nat, i: nat)
    ensures Bit(x, i + 1) <==> Bit(x / 2, i)
    ensures Bit(x, 0) <==> x % 2 == 1
  {
    HalfTwice(x, Pow2(i));
  }

  lemma BitOfSum(low: bool, rest: nat, i: nat)
    ensures Bit((if low then 1 else 0) + 2 * rest, i) <==> if i == 0 then low else Bit(rest, i - 1)
  {
    var x := (if low then 1 else 0) + 2 * rest;
    assert x / 2 == rest;
    BitNext(x, if i == 0 then 0 else i - 1);
  }

  lemma {:induction false} BitOfAnd(n: nat, x: nat, y: nat, i: nat)
    requires i < n
    ensures Bit(And(n, x, y), i) <==> Bit(x, i) && Bit(y, i)
  {
    BitOfSum(x % 2 == 1 && y % 2 == 1, And(n - 1, x / 2, y / 2), i);
    BitNext(x, if i == 0 then 0 else i - 1);
    BitNext(y, if i == 0 then 0 else i - 1);
    hide Bit;
    if i > 0 {
      BitOfAnd(n - 1, x / 2, y / 2, i - 1);
    }
  }

  lemma {:induction false} BitOfOr(n: nat, x: nat, y: nat, i: nat)
    requires i < n
    ensures Bit(Or(n, x, y), i) <==> Bit(x, i) || Bit(y, i)
  {
    BitOfSum(x % 2 == 1 || y % 2 == 1, Or(n - 1, x / 2, y / 2), i);
    BitNext(x, if i == 0 then 0 else i - 1);
    BitNext(y, if i == 0 then 0 else i - 1);
    if i > 0 {
      BitOfOr(n - 1, x / 2, y / 2, i - 1);
    }
  }

  lemma {:induction false} BitOfXor(n: nat, x: nat, y: nat, i: nat)
    requires i < n
    ensures Bit(Xor(n, x, y), i) <==> (Bit(x, i) <==> !Bit(y, i))
  {
    BitOfSum(x % 2 != y % 2, Xor(n - 1, x / 2, y / 2), i);
    BitNext(x, if i == 0 then 0 else i - 1);
    BitNext(y, if i == 0 then 0 else i - 1);
    if i > 0 {
      BitOfXor(n - 1, x / 2, y / 2, i - 1);
    }
  }

  lemma {:induction false} BitOfNot(n: nat, x: nat, i: nat)
    requires i < n
    ensures Bit(Not(n, x), i) <==> !Bit(x, i)
  {
    BitOfSum(x % 2 == 0, Not(n - 1, x / 2), i);
    BitNext(x, if i == 0 then 0 else i - 1);
    if i > 0 {
      BitOfNot(n - 1, x / 2, i - 1);
    }
  }

  lemma HalfSum(low: nat, p: nat, high: nat)
    ensures (low + (2 * p) * high) / 2 == low / 2 + p * high && (low + (2 * p) * high) % 2 == low % 2
  {
    assert (2 * p) * high == 2 * (p * high);
  }

  /** The bits of a number put together from a lower and a higher part. */
  lemma {:induction false} BitOfJoin(k: nat, low: nat, high: nat, i: nat)
    requires low < Pow2(k)
    ensures Bit(low + Pow2(k) * high, i) <==> if i < k then Bit(low, i) else Bit(high, i - k)
  {
    if k > 0 {
      var p := Pow2(k - 1);
      HalfSum(low, p, high);
      var j := if i == 0 then 0 else i - 1;
      BitNext(low + Pow2(k) * high, j);
      BitNext(low, j);
      if i > 0 {
        BitOfJoin(k - 1, low / 2, high, i - 1);
      }
    }
  }

  // ---------------------------------------------------------------- one byte

  function Nat(a: bv8): (n: nat)
    ensures n < 256
  {
    a as nat
  }

  lemma HalfByte(a: bv8)
    ensures (a >> 1) as nat == (a as nat) / 2 && ((a as nat) % 2 == 1 <==> a & 1 == 1)
    ensures a & 1 == 0 || a & 1 == 1
  {
    assert (a & 1) as nat == (a as nat) % 2;
  }

  lemma NoByte(a: bv8)
    ensures a as nat < 1 ==> a == 0
  {
  }

  lemma LastBits(a: bv8, b: bv8)
    requires (a == 0 || a == 1) && (b == 0 || b == 1)
    ensures (a & b == 1 <==> a == 1 && b == 1) && (a | b == 1 <==> a == 1 || b == 1)
  {
  }

  lemma AndHalf(a: bv8, b: bv8)
    ensures (a & b) as nat ==
            (if a as nat % 2 == 1 && b as nat % 2 == 1 then 1 else 0) + 2 * ((a >> 1) & (b >> 1)) as nat
  {
    HalfByte(a);
    HalfByte(b);
    HalfByte(a & b);
    LastBits(a & 1, b & 1);
    assert (a & b) >> 1 == (a >> 1) & (b >> 1) && (a & b) & 1 == (a & 1) & (b & 1);
  }

  lemma {:induction false} AndOfByte(n: nat, a: bv8, b: bv8)
    requires a as nat < Pow2(n) && b as nat < Pow2(n)
    ensures And(n, a as nat, b as nat) == (a & b) as nat
  {
    if n == 0 {
      NoByte(a);
      NoByte(b);
      assert a & b == 0;
    } else {
      AndHalf(a, b);
      HalfByte(a);
      HalfByte(b);
      AndOfByte(n - 1, a >> 1, b >> 1);
    }
  }

  lemma OrHalf(a: bv8, b: bv8)
    ensures (a | b) as nat ==
            (if a as nat % 2 == 1 || b as nat % 2 == 1 then 1 else 0) + 2 * ((a >> 1) | (b >> 1)) as nat
  {
    HalfByte(a);
    HalfByte(b);
    HalfByte(a | b);
    LastBits(a & 1, b & 1);
    assert (a | b) >> 1 == (a >> 1) | (b >> 1) && (a | b) & 1 == (a & 1) | (b & 1);
  }

  lemma {:induction false} OrOfByte(n: nat, a: bv8, b: bv8)
    requires a as nat < Pow2(n) && b as nat < Pow2(n)
    ensures Or(n, a as nat, b as nat) == (a | b) as nat
  {
    if n == 0 {
      NoByte(a);
      NoByte(b);
      assert a | b == 0;
    } else {
      OrHalf(a, b);
      HalfByte(a);
      HalfByte(b);
      OrOfByte(n - 1, a >> 1, b >> 1);
    }
  }

  lemma {:induction false} NotIs(n: nat, x: nat)
    requires x < Pow2(n)
    ensures Not(n, x) == Pow2(n) - 1 - x
  {
    if n > 0 {
      NotIs(n - 1, x / 2);
    }
  }

  /** An exclusive or is what is in one but not in both. */
  lemma {:induction false} XorIs(n: nat, x: nat, y: nat)
    ensures Xor(n, x, y) == And(n, Or(n, x, y), Not(n, And(n, x, y)))
  {
    if n > 0 {
      XorIs(n - 1, x / 2, y / 2);
      var o, a := Or(n, x, y), And(n, x, y);
      assert o / 2 == Or(n - 1, x / 2, y / 2) && a / 2 == And(n - 1, x / 2, y / 2);
      var m := Not(n, a);
      assert m / 2 == Not(n - 1, a / 2);
    }
  }

  // ---------------------------------------------------------------- byte by byte

  lemma Twice(p: nat, a: nat)
    ensures 2 * (p * a) == (2 * p) * a
  {
  }

  lemma {:induction false} AndSplit(k: nat, n: nat, low: nat, high: nat, low': nat, high': nat)
    requires low < Pow2(k) && low' < Pow2(k)
    ensures And(k + n, low + Pow2(k) * high, low' + Pow2(k) * high') ==
            And(k, low, low') + Pow2(k) * And(n, high, high')
  {
    if k > 0 {
      var p := Pow2(k - 1);
      HalfSum(low, p, high);
      HalfSum(low', p, high');
      AndSplit(k - 1, n, low / 2, high, low' / 2, high');
      Twice(p, And(n, high, high'));
    }
  }

  lemma AndByte(n: nat, a: bv8, b: bv8, x: nat, y: nat)
    ensures And(8 + n, Nat(a) + 256 * x, Nat(b) + 256 * y) == Nat(a & b) + 256 * And(n, x, y)
  {
    hide And;
    assert Pow2(8) == 256;
    AndSplit(8, n, a as nat, x, b as nat, y);
    AndOfByte(8, a, b);
  }

  lemma {:induction false} OrSplit(k: nat, n: nat, low: nat, high: nat, low': nat, high': nat)
    requires low < Pow2(k) && low' < Pow2(k)
    ensures Or(k + n, low + Pow2(k) * high, low' + Pow2(k) * high') == Or(k, low, low') + Pow2(k) * Or(n, high, high')
  {
    if k > 0 {
      var p := Pow2(k - 1);
      HalfSum(low, p, high);
      HalfSum(low', p, high');
      OrSplit(k - 1, n, low / 2, high, low' / 2, high');
      Twice(p, Or(n, high, high'));
    }
  }

  lemma OrByte(n: nat, a: bv8, b: bv8, x: nat, y: nat)
    ensures Or(8 + n, Nat(a) + 256 * x, Nat(b) + 256 * y) == Nat(a | b) + 256 * Or(n, x, y)
  {
    hide Or;
    assert Pow2(8) == 256;
    OrSplit(8, n, a as nat, x, b as nat, y);
    OrOfByte(8, a, b);
  }

  // A word as its four bytes, the lowest first.
  datatype Quad = Quad(b0: bv8, b1: bv8, b2: bv8, b3: bv8) {
    // The three higher bytes.
    function Upper(): (n: nat)
      ensures n < 0x100_0000
    {
      Nat(b1) + 256 * (Nat(b2) + 256 * Nat(b3))
    }

    function Value(): (w: Word) {
      Nat(b0) + 256 * Upper()
    }

    function And(q: Quad): Quad { Quad(b0 & q.b0, b1 & q.b1, b2 & q.b2, b3 & q.b3) }
    function Or(q: Quad): Quad { Quad(b0 | q.b0, b1 | q.b1, b2 | q.b2, b3 | q.b3) }
    function Not(): Quad { Quad(!b0, !b1, !b2, !b3) }
    function Xor(q: Quad): Quad { Or(q).And(And(q).Not()) }
  }

  lemma AndNone()
    ensures And(0, 0, 0) == 0 && Or(0, 0, 0) == 0
  {
  }

  lemma AndLow2(x: Quad, y: Quad)
    ensures And(16, Nat(x.b2) + 256 * Nat(x.b3), Nat(y.b2) + 256 * Nat(y.b3)) ==
            Nat(x.b2 & y.b2) + 256 * Nat(x.b3 & y.b3)
  {
    hide And, Nat, Pow2;
    AndByte(0, x.b3, y.b3, 0, 0);
    AndNone();
    AndByte(8, x.b2, y.b2, Nat(x.b3), Nat(y.b3));
  }

  lemma AndLow3(x: Quad, y: Quad)
    ensures And(24, x.Upper(), y.Upper()) == x.And(y).Upper()
  {
    hide And, Nat, Pow2;
    AndLow2(x, y);
    AndByte(16, x.b1, y.b1, Nat(x.b2) + 256 * Nat(x.b3), Nat(y.b2) + 256 * Nat(y.b3));
  }

  lemma AndLowest(x: Quad, y: Quad)
    ensures x.And(y).b0 == x.b0 & y.b0
  {
  }

  lemma AndQuad(x: Quad, y: Quad)
    ensures And(32, x.Value(), y.Value()) == x.And(y).Value()
  {
    hide And, Nat, Pow2, Quad.Upper, Quad.And;
    AndLow3(x, y);
    AndByte(24, x.b0, y.b0, x.Upper(), y.Upper());
    AndLowest(x, y);
  }

  lemma OrLow2(x: Quad, y: Quad)
    ensures Or(16, Nat(x.b2) + 256 * Nat(x.b3), Nat(y.b2) + 256 * Nat(y.b3)) ==
            Nat(x.b2 | y.b2) + 256 * Nat(x.b3 | y.b3)
  {
    hide Or, Nat, Pow2;
    OrByte(0, x.b3, y.b3, 0, 0);
    AndNone();
    OrByte(8, x.b2, y.b2, Nat(x.b3), Nat(y.b3));
  }

  lemma OrLow3(x: Quad, y: Quad)
    ensures Or(24, x.Upper(), y.Upper()) == x.Or(y).Upper()
  {
    hide Or, Nat, Pow2;
    OrLow2(x, y);
    OrByte(16, x.b1, y.b1, Nat(x.b2) + 256 * Nat(x.b3), Nat(y.b2) + 256 * Nat(y.b3));
  }

  lemma OrLowest(x: Quad, y: Quad)
    ensures x.Or(y).b0 == x.b0 | y.b0
  {
  }

  lemma OrQuad(x: Quad, y: Quad)
    ensures Or(32, x.Value(), y.Value()) == x.Or(y).Value()
  {
    hide Or, Nat, Pow2, Quad.Upper, Quad.Or;
    OrLow3(x, y);
    OrByte(24, x.b0, y.b0, x.Upper(), y.Upper());
    OrLowest(x, y);
  }

  lemma NotByteIs(a: bv8)
    ensures Nat(!a) == 255 - Nat(a)
  {
  }

  lemma NotQuad(x: Quad)
    ensures Not(32, x.Value()) == x.Not().Value()
  {
    hide Not, Nat;
    Pow32();
    NotIs(32, x.Value());
    NotByteIs(x.b0);
    NotByteIs(x.b1);
    NotByteIs(x.b2);
    NotByteIs(x.b3);
  }

  lemma XorQuad(x: Quad, y: Quad)
    ensures Xor(32, x.Value(), y.Value()) == x.Xor(y).Value()
  {
    hide Xor, And, Or, Not, Nat;
    XorIs(32, x.Value(), y.Value());
    OrQuad(x, y);
    AndQuad(x, y);
    NotQuad(x.And(y));
    AndQuad(x.Or(y), x.And(y).Not());
  }
}
