/**
 * Fixed-width unsigned values and the C bit operators the driver applies to them
 * (&, |, & ~, <<, >>), defined on non-negative integers.  `Bit(x, i)` reads bit i of x;
 * the lemmas give each operator its bitwise meaning, and `BitsEqual` turns agreement on
 * every bit back into equality of the numbers.
 */
module Bits {

  type u8 = x: int | 0 <= x < 0x100
  type u16 = x: int | 0 <= x < 0x1_0000
  type u32 = x: int | 0 <= x < 0x1_0000_0000

  function Pow2(k: nat): (r: nat)
    ensures r >= 1
  {
    if k == 0 then 1 else 2 * Pow2(k - 1)
  }

  /** Bit i of x, counting from the least significant bit. */
  predicate Bit(x: nat, i: nat)
  {
    if i == 0 then x % 2 == 1 else Bit(x / 2, i - 1)
  }

  /** x & y */
  function And(x: nat, y: nat): (r: nat)
    ensures r <= x && r <= y
  {
    if x == 0 || y == 0 then 0
    else 2 * And(x / 2, y / 2) + (if x % 2 == 1 && y % 2 == 1 then 1 else 0)
  }

  /** x | y */
  function Or(x: nat, y: nat): (r: nat)
    ensures x <= r && y <= r && r <= x + y
  {
    if x == 0 then y
    else if y == 0 then x
    else 2 * Or(x / 2, y / 2) + (if x % 2 == 1 || y % 2 == 1 then 1 else 0)
  }

  /** x & ~m: x with every bit of m cleared. */
  function AndNot(x: nat, m: nat): (r: nat)
    ensures r <= x
  {
    if x == 0 then 0
    else if m == 0 then x
    else 2 * AndNot(x / 2, m / 2) + (if x % 2 == 1 && m % 2 == 0 then 1 else 0)
  }

  /** x << k */
  function Shl(x: nat, k: nat): nat
  {
    x * Pow2(k)
  }

  /** x >> k */
  function Shr(x: nat, k: nat): nat
  {
    if k == 0 then x else Shr(x / 2, k - 1)
  }

  // ---------------------------------------------------------------- bits of the operators

  lemma {:induction false} BitOfZero(i: nat)
    ensures !Bit(0, i)
  {
    if i > 0 {
      BitOfZero(i - 1);
    }
  }

  lemma {:induction false} BitAnd(x: nat, y: nat, i: nat)
    ensures Bit(And(x, y), i) == (Bit(x, i) && Bit(y, i))
  {
    if x == 0 || y == 0 {
      BitOfZero(i);
    } else if i > 0 {
      BitAnd(x / 2, y / 2, i - 1);
    }
  }

  lemma {:induction false} BitOr(x: nat, y: nat, i: nat)
    ensures Bit(Or(x, y), i) == (Bit(x, i) || Bit(y, i))
  {
    if x == 0 || y == 0 {
      BitOfZero(i);
    } else if i > 0 {
      BitOr(x / 2, y / 2, i - 1);
    }
  }

  lemma {:induction false} BitAndNot(x: nat, m: nat, i: nat)
    ensures Bit(AndNot(x, m), i) == (Bit(x, i) && !Bit(m, i))
  {
    if x == 0 || m == 0 {
      BitOfZero(i);
    } else if i > 0 {
      BitAndNot(x / 2, m / 2, i - 1);
    }
  }

  /** Two numbers with the same bits are equal. */
  lemma {:induction false} BitsEqual(x: nat, y: nat)
    requires forall i: nat :: Bit(x, i) == Bit(y, i)
    ensures x == y
    decreases x + y
  {
    if x != 0 || y != 0 {
      assert Bit(x, 0) == Bit(y, 0);
      forall i: nat
        ensures Bit(x / 2, i) == Bit(y / 2, i)
      {
        assert Bit(x, i + 1) == Bit(y, i + 1);
      }
      BitsEqual(x / 2, y / 2);
    }
  }

  /** A number below 2^n has no bit at position n or above. */
  lemma {:induction false} BitAbove(x: nat, n: nat, i: nat)
    requires x < Pow2(n) && n <= i
    ensures !Bit(x, i)
  {
    if n == 0 {
      BitOfZero(i);
    } else {
      BitAbove(x / 2, n - 1, i - 1);
    }
  }

  lemma {:induction false} OrBound(x: nat, y: nat, n: nat)
    requires x < Pow2(n) && y < Pow2(n)
    ensures Or(x, y) < Pow2(n)
  {
    if n > 0 && x != 0 && y != 0 {
      OrBound(x / 2, y / 2, n - 1);
    }
  }

  function Or16(x: u16, y: u16): (r: u16)
    ensures r == Or(x, y)
  {
    Pow2Values();
    OrBound(x, y, 16);
    Or(x, y)
  }

  lemma Pow2Values()
    ensures Pow2(1) == 2 && Pow2(2) == 4 && Pow2(3) == 8 && Pow2(7) == 0x80 && Pow2(8) == 0x100 && Pow2(11) == 0x800 && Pow2(16) == 0x1_0000
    ensures Pow2(18) == 0x4_0000 && Pow2(23) == 0x80_0000 && Pow2(32) == 0x1_0000_0000
  {
  }

  // ---------------------------------------------------------------- masks and shifts as arithmetic

  lemma MulAtLeast(d: int, k: int)
    requires d > 0 && k >= 1
    ensures d * k >= d
  {
    var j := k - 1;
    assert d * k == d * j + d;
  }

  /** Division with remainder is unique. */
  lemma DivModUnique(x: int, d: int, q: int, r: int)
    requires d > 0 && 0 <= r < d && x == d * q + r
    ensures x / d == q && x % d == r
  {
    var q', r' := x / d, x % d;
    assert x == d * q' + r';
    assert d * (q' - q) == r - r';
    if q' > q {
      MulAtLeast(d, q' - q);
    } else if q' < q {
      MulAtLeast(d, q - q');
    }
  }

  lemma ModPow2Step(x: nat, k: nat)
    requires k > 0
    ensures x % Pow2(k) == 2 * ((x / 2) % Pow2(k - 1)) + x % 2
    ensures x / Pow2(k) == (x / 2) / Pow2(k - 1)
  {
    var p := Pow2(k - 1);
    var a, b := x / 2, x % 2;
    var q, s := a / p, a % p;
    assert a == p * q + s;
    assert x == (2 * p) * q + (2 * s + b);
    DivModUnique(x, 2 * p, q, 2 * s + b);
  }

  /** x & (2^k - 1) keeps the k low bits: x mod 2^k. */
  lemma {:induction false} AndLowMask(x: nat, k: nat)
    ensures And(x, Pow2(k) - 1) == x % Pow2(k)
  {
    if k > 0 && x != 0 {
      AndLowMask(x / 2, k - 1);
      AndLowMaskStep(x, k);
    } else if k == 0 {
      assert Pow2(k) - 1 == 0 && x % Pow2(k) == 0;
    } else {
      DivModUnique(x, Pow2(k), 0, 0);
    }
  }

  /** The inductive step of AndLowMask: from the k - 1 low bits of x / 2 to the k low bits of x. */
  lemma AndLowMaskStep(x: nat, k: nat)
    requires k > 0 && x != 0
    requires And(x / 2, Pow2(k - 1) - 1) == (x / 2) % Pow2(k - 1)
    ensures And(x, Pow2(k) - 1) == x % Pow2(k)
  {
    var m, p := Pow2(k) - 1, Pow2(k - 1);
    assert Pow2(k) == 2 * p;
    assert m / 2 == p - 1 && m % 2 == 1 && m != 0;
    assert And(x, m) == 2 * And(x / 2, p - 1) + x % 2;
    ModPow2Step(x, k);
  }

  /** x & ~1 rounds x down to an even number. */
  lemma AndNotOne(x: nat)
    ensures AndNot(x, 1) == x - x % 2
  {
  }

  /** Or of a value shifted past 2^k and a value below 2^k is their sum. */
  lemma {:induction false} OrDisjoint(a: nat, b: nat, k: nat)
    requires b < Pow2(k)
    ensures Or(Shl(a, k), b) == Shl(a, k) + b
  {
    if k > 0 && a != 0 && b != 0 {
      var c := Shl(a, k - 1);
      assert Shl(a, k) == 2 * c;
      OrDisjoint(a, b / 2, k - 1);
    }
  }
  lemma {:induction false} OrComm(x: nat, y: nat)
    ensures Or(x, y) == Or(y, x)
  {
    forall i: nat ensures Bit(Or(x, y), i) == Bit(Or(y, x), i) {
      BitOr(x, y, i);
      BitOr(y, x, i);
    }
    BitsEqual(Or(x, y), Or(y, x));
  }

  lemma {:induction false} Pow2Add(a: nat, b: nat)
    ensures Pow2(a + b) == Pow2(a) * Pow2(b)
  {
    if b > 0 {
      Pow2Add(a, b - 1);
      assert Pow2(a + b) == 2 * Pow2(a + b - 1);
    }
  }

  lemma MulDistrib(p: int, q: int, h: int, m: int)
    ensures p * (q * h + m) == (p * q) * h + p * m
  {
  }

  lemma MulBelow(p: nat, m: nat, q: nat)
    requires m < q
    ensures p * m + p <= p * q
  {
    var d := q - m;
    assert p * q == p * m + p * d;
    if p > 0 {
      MulAtLeast(p, d);
    }
  }

  lemma DivModParts(x: nat, p: nat, q: nat, hi: nat, lo: nat, h2: nat, m: nat)
    requires p > 0 && q > 0
    requires x == p * hi + lo && lo < p && hi == q * h2 + m && m < q
    ensures x == (p * q) * h2 + (p * m + lo) && p * m + lo < p * q
  {
    MulDistrib(p, q, h2, m);
    MulBelow(p, m, q);
  }

  lemma ModSplitAbs(x: nat, p: nat, q: nat)
    requires p > 0 && q > 0
    ensures ((x / p) % q) * p + x % p == x % (p * q)
  {
    var hi, lo := x / p, x % p;
    var h2, m := hi / q, hi % q;
    DivModParts(x, p, q, hi, lo, h2, m);
    DivModUnique(x, p * q, h2, p * m + lo);
    assert m * p == p * m;
  }

  /** Bits [a, a+b) taken out and put back below the low a bits give x mod 2^(a+b). */
  lemma ModSplit(x: nat, a: nat, b: nat)
    ensures ((x / Pow2(a)) % Pow2(b)) * Pow2(a) + x % Pow2(a) == x % Pow2(a + b)
  {
    Pow2Add(a, b);
    ModSplitAbs(x, Pow2(a), Pow2(b));
  }

  /** x >> k is x div 2^k. */
  lemma {:induction false} ShrDiv(x: nat, k: nat)
    ensures Shr(x, k) == x / Pow2(k)
  {
    if k > 0 {
      ShrDiv(x / 2, k - 1);
      ModPow2Step(x, k);
    }
  }

  lemma ShrMask(x: nat, k: nat, b: nat)
    ensures And(Shr(x, k), Pow2(b) - 1) == (x / Pow2(k)) % Pow2(b)
  {
    AndLowMask(Shr(x, k), b);
    ShrDiv(x, k);
  }

  /** The low a bits and the next b bits, as two halves, reassemble x mod 2^(a+b). */
  lemma SplitJoin(x: nat, a: nat, b: nat)
    ensures Or(Shl(And(Shr(x, a), Pow2(b) - 1), a), And(x, Pow2(a) - 1)) == x % Pow2(a + b)
  {
    var lo := And(x, Pow2(a) - 1);
    var hi := And(Shr(x, a), Pow2(b) - 1);
    AndLowMask(x, a);
    ShrMask(x, a, b);
    OrDisjoint(hi, lo, a);
    ModSplit(x, a, b);
  }

  /** A low half below 2^16 or-ed with a high half shifted by 16 is their sum. */
  lemma JoinHalves(lo: nat, hi: nat)
    requires lo < Pow2(16)
    ensures Or(lo, Shl(hi, 16)) == Shl(hi, 16) + lo
  {
    OrComm(lo, Shl(hi, 16));
    OrDisjoint(hi, lo, 16);
  }

  /** Bit i of x << k is bit i - k of x. */
  lemma {:induction false} BitShl(x: nat, k: nat, i: nat)
    ensures Bit(Shl(x, k), i) == (k <= i && Bit(x, i - k))
  {
    if k > 0 {
      var y := Shl(x, k - 1);
      assert Shl(x, k) == 2 * y;
      assert (2 * y) / 2 == y && (2 * y) % 2 == 0;
      if i > 0 {
        BitShl(x, k - 1, i - 1);
      }
    }
  }

  /** Bit i of x >> k is bit i + k of x. */
  lemma {:induction false} BitShr(x: nat, k: nat, i: nat)
    ensures Bit(Shr(x, k), i) == Bit(x, i + k)
  {
    if k > 0 {
      BitShr(x / 2, k - 1, i);
    }
  }

  /** A multiple of 2^k has none of its k low bits set. */
  lemma {:induction false} LowBitsClear(x: nat, k: nat, j: nat)
    requires x % Pow2(k) == 0 && j < k
    ensures !Bit(x, j)
  {
    ModPow2Step(x, k);
    if j > 0 {
      LowBitsClear(x / 2, k - 1, j - 1);
    }
  }

  /** x & ~(2^k - 1) rounds x down to a multiple of 2^k. */
  lemma {:induction false} AndNotLowMask(x: nat, k: nat)
    ensures AndNot(x, Pow2(k) - 1) == x - x % Pow2(k)
  {
    if k > 0 && x != 0 {
      AndNotLowMask(x / 2, k - 1);
      AndNotLowMaskStep(x, k);
    } else if k == 0 {
      assert Pow2(k) - 1 == 0 && x % Pow2(k) == 0;
    } else {
      DivModUnique(x, Pow2(k), 0, 0);
    }
  }

  /** The inductive step of AndNotLowMask. */
  lemma AndNotLowMaskStep(x: nat, k: nat)
    requires k > 0 && x != 0
    requires AndNot(x / 2, Pow2(k - 1) - 1) == x / 2 - (x / 2) % Pow2(k - 1)
    ensures AndNot(x, Pow2(k) - 1) == x - x % Pow2(k)
  {
    var m, p := Pow2(k) - 1, Pow2(k - 1);
    assert Pow2(k) == 2 * p;
    assert m / 2 == p - 1 && m % 2 == 1 && m != 0;
    assert AndNot(x, m) == 2 * AndNot(x / 2, p - 1);
    ModPow2Step(x, k);
    assert x == 2 * (x / 2) + x % 2;
  }

  /** C's division of an int by a positive divisor: the quotient truncated toward zero. */
  function TruncDiv(x: int, d: nat): (r: int)
    requires d > 0
    ensures x >= 0 ==> r == x / d
    ensures x < 0 ==> r == -((-x) / d)
  {
    if x >= 0 then x / d else -((-x) / d)
  }

  /** Bit i of x is the parity of x div 2^i. */
  lemma {:induction false} BitDiv(x: nat, i: nat)
    ensures Bit(x, i) == ((x / Pow2(i)) % 2 == 1)
  {
    if i > 0 {
      BitDiv(x / 2, i - 1);
      ModPow2Step(x, i);
    }
  }

  /** C's conversion of an integer to a 16-bit unsigned type: reduction modulo 2^16. */
  function U16(x: int): (r: u16)
    ensures 0 <= x < 0x1_0000 ==> r == x
    ensures (x - r) % 0x1_0000 == 0
  {
    x % 0x1_0000
  }

  /** C's conversion of an integer to a 32-bit unsigned type: reduction modulo 2^32. */
  function U32(x: int): (r: u32)
    ensures 0 <= x < 0x1_0000_0000 ==> r == x
    ensures (x - r) % 0x1_0000_0000 == 0
  {
    x % 0x1_0000_0000
  }
}
