/** Machine words as natural numbers, with C's bitwise operators defined on their binary digits. */
module Bits {

  type bit = x: int | 0 <= x < 2
  type u8 = x: int | 0 <= x < 0x100
  type u16 = x: int | 0 <= x < 0x1_0000
  type u32 = x: int | 0 <= x < 0x1_0000_0000
  type u64 = x: int | 0 <= x < 0x1_0000_0000_0000_0000

  function Pow2(k: nat): (r: nat)
    ensures 0 < r
  {
    if k == 0 then 1 else 2 * Pow2(k - 1)
  }

  /** Binary digit i of x. */
  predicate Bit(x: nat, i: nat)
    decreases i
  {
    if i == 0 then x % 2 == 1 else Bit(x / 2, i - 1)
  }

  function And(x: nat, y: nat): (r: nat)
    ensures r <= x && r <= y
    decreases x
  {
    if x == 0 || y == 0 then 0
    else 2 * And(x / 2, y / 2) + (if x % 2 == 1 && y % 2 == 1 then 1 else 0)
  }

  function Or(x: nat, y: nat): (r: nat)
    decreases x + y
  {
    if x == 0 && y == 0 then 0
    else 2 * Or(x / 2, y / 2) + (if x % 2 == 1 || y % 2 == 1 then 1 else 0)
  }

  /** x & ~y */
  function AndNot(x: nat, y: nat): (r: nat)
    ensures r <= x
    decreases x
  {
    if x == 0 then 0
    else 2 * AndNot(x / 2, y / 2) + (if x % 2 == 1 && y % 2 == 0 then 1 else 0)
  }

  // ---------- digits determine the word ----------

  lemma {:induction false} BitOr(x: nat, y: nat, i: nat)
    ensures Bit(Or(x, y), i) == (Bit(x, i) || Bit(y, i))
    decreases i
  {
    if x == 0 && y == 0 {
      ZeroHasNoBits(i);
    } else if i > 0 {
      BitOr(x / 2, y / 2, i - 1);
    }
  }

  lemma {:induction false} BitAndNot(x: nat, y: nat, i: nat)
    ensures Bit(AndNot(x, y), i) == (Bit(x, i) && !Bit(y, i))
    decreases i
  {
    if x == 0 {
      ZeroHasNoBits(i);
    } else if i > 0 {
      BitAndNot(x / 2, y / 2, i - 1);
    }
  }

  lemma {:induction false} BitPow2(k: nat, i: nat)
    ensures Bit(Pow2(k), i) == (i == k)
    decreases i
  {
    if k == 0 {
      if i > 0 { ZeroHasNoBits(i - 1); }
    } else if i > 0 {
      BitPow2(k - 1, i - 1);
    }
  }

  lemma {:induction false} ZeroHasNoBits(i: nat)
    ensures !Bit(0, i)
    decreases i
  {
    if i > 0 { ZeroHasNoBits(i - 1); }
  }

  lemma {:induction false} OrBounded(x: nat, y: nat, k: nat)
    requires x < Pow2(k) && y < Pow2(k)
    ensures Or(x, y) < Pow2(k)
    decreases k
  {
    if k > 0 { OrBounded(x / 2, y / 2, k - 1); }
  }

  lemma {:induction false} OrZero(x: nat)
    ensures Or(x, 0) == x && Or(0, x) == x
  {
    if x > 0 { OrZero(x / 2); }
  }

  lemma {:induction false} OrAssoc(x: nat, y: nat, z: nat)
    ensures Or(Or(x, y), z) == Or(x, Or(y, z))
    decreases x + y + z
  {
    if x + y + z > 0 {
      OrAssoc(x / 2, y / 2, z / 2);
    }
  }

  lemma OrStep(x: nat, y: nat)
    ensures Or(x, y) == 2 * Or(x / 2, y / 2) + (if x % 2 == 1 || y % 2 == 1 then 1 else 0)
  {
  }

  /** a << k */
  function Shl(a: nat, k: nat): nat
    decreases k
  {
    if k == 0 then a else 2 * Shl(a, k - 1)
  }

  lemma {:induction false} ShlTwice(a: nat, j: nat, k: nat)
    ensures Shl(Shl(a, j), k) == Shl(a, j + k)
    decreases k
  {
    if k > 0 { ShlTwice(a, j, k - 1); }
  }

  lemma ShlLiteral(a: nat)
    ensures Shl(a, 8) == 0x100 * a && Shl(a, 16) == 0x1_0000 * a && Shl(a, 32) == 0x1_0000_0000 * a
  {
    Shl8(a);
    Shl8(0x100 * a);
    ShlTwice(a, 8, 8);
    Shl8(0x1_0000 * a);
    ShlTwice(a, 16, 8);
    Shl8(0x100_0000 * a);
    ShlTwice(a, 24, 8);
  }

  lemma Shl8(a: nat)
    ensures Shl(a, 8) == 0x100 * a
  {
    assert Shl(a, 4) == 0x10 * a;
    assert Shl(0x10 * a, 4) == 0x100 * a;
    ShlTwice(a, 4, 4);
  }

  /** x >> k */
  function Shr(x: nat, k: nat): nat
    decreases k
  {
    if k == 0 then x else Shr(x / 2, k - 1)
  }

  lemma {:induction false} ShrTwice(x: nat, j: nat, k: nat)
    ensures Shr(Shr(x, j), k) == Shr(x, j + k)
    decreases j
  {
    if j > 0 { ShrTwice(x / 2, j - 1, k); }
  }

  lemma Shr8(x: nat)
    ensures Shr(x, 8) == x / 0x100
  {
    hide Shr;
    Shr4(x);
    Shr4(x / 0x10);
    ShrTwice(x, 4, 4);
  }

  lemma Shr16(x: nat)
    ensures Shr(x, 16) == x / 0x1_0000
  {
    hide Shr;
    Shr8(x);
    Shr8(x / 0x100);
    ShrTwice(x, 8, 8);
  }

  lemma Shr24(x: nat)
    ensures Shr(x, 24) == x / 0x100_0000
  {
    hide Shr;
    Shr16(x);
    Shr8(x / 0x1_0000);
    ShrTwice(x, 16, 8);
  }

  lemma Shr4(x: nat)
    ensures Shr(x, 4) == x / 0x10
  {
    assert Shr(x / 4, 2) == x / 4 / 2 / 2;
    assert Shr(x, 4) == Shr(x / 2, 3) == Shr(x / 2 / 2, 2);
  }

  /** Digit k + i of x is digit i of x >> k. */
  lemma {:induction false} BitAbove(x: nat, k: nat, i: nat)
    ensures Bit(x, k + i) == Bit(Shr(x, k), i)
    decreases k
  {
    if k > 0 {
      BitAbove(x / 2, k - 1, i);
    }
  }

  /** Or works separately on the digits above and below position k. */
  lemma {:induction false} OrSplit(a: nat, x: nat, b: nat, y: nat, k: nat)
    requires x < Pow2(k) && y < Pow2(k)
    ensures Or(Shl(a, k) + x, Shl(b, k) + y) == Shl(Or(a, b), k) + Or(x, y)
    decreases k
  {
    if k == 0 {
      assert Or(0, 0) == 0;
    } else {
      OrSplit(a, x / 2, b, y / 2, k - 1);
      OrDouble(Shl(a, k - 1), x, Shl(b, k - 1), y, Shl(Or(a, b), k - 1));
    }
  }

  lemma OrDouble(a: nat, x: nat, b: nat, y: nat, r: nat)
    requires Or(a + x / 2, b + y / 2) == r + Or(x / 2, y / 2)
    ensures Or(2 * a + x, 2 * b + y) == 2 * r + Or(x, y)
  {
    OrStep(2 * a + x, 2 * b + y);
    OrStep(x, y);
  }

  /** Digits that do not meet are added. */
  lemma OrIsSum(a: nat, y: nat, k: nat)
    requires y < Pow2(k)
    ensures Or(Shl(a, k), y) == Shl(a, k) + y
  {
    OrSplit(a, 0, 0, y, k);
    OrZero(a);
    OrZero(y);
    ShlZero(k);
  }

  lemma {:induction false} ShlZero(k: nat)
    ensures Shl(0, k) == 0
    decreases k
  {
    if k > 0 { ShlZero(k - 1); }
  }

  lemma {:induction false} OrOnes(x: nat, k: nat)
    requires x < Pow2(k)
    ensures Or(x, Pow2(k) - 1) == Pow2(k) - 1
    decreases k
  {
    if k > 0 {
      OrOnes(x / 2, k - 1);
      OrOddOnes(x, Pow2(k - 1));
    }
  }

  lemma OrOddOnes(x: nat, p: nat)
    requires p > 0
    ensures Or(x, 2 * p - 1) == 2 * Or(x / 2, p - 1) + 1
  {
    OrStep(x, 2 * p - 1);
    assert (2 * p - 1) / 2 == p - 1 && (2 * p - 1) % 2 == 1;
  }

  // ---------- masks ----------

  /** Masking with 2^k - 1 is reduction modulo 2^k. */
  lemma {:induction false} AndMask(x: nat, k: nat)
    ensures And(x, Pow2(k) - 1) == x % Pow2(k)
    decreases k
  {
    hide And;
    if k == 0 {
      AndStep(x, 0);
      AndZero(x);
    } else {
      AndMask(x / 2, k - 1);
      AndMaskStep(x, Pow2(k - 1), Pow2(k));
    }
  }

  lemma AndMaskStep(x: nat, p: nat, m: nat)
    requires p > 0 && m == 2 * p && And(x / 2, p - 1) == (x / 2) % p
    ensures And(x, m - 1) == x % m
  {
    hide And;
    AndOddMask(x, p, m);
    ModHalves(x, p, m);
  }

  lemma AndZero(x: nat)
    ensures And(x, 0) == 0 && And(0, x) == 0
  {
  }

  lemma AndOddMask(x: nat, p: nat, m: nat)
    requires p > 0 && m == 2 * p
    ensures And(x, m - 1) == 2 * And(x / 2, p - 1) + x % 2
  {
    hide And;
    AndStep(x, m - 1);
    assert (m - 1) / 2 == p - 1 && (m - 1) % 2 == 1;
  }

  lemma ModHalves(x: nat, p: nat, m: nat)
    requires p > 0 && m == 2 * p
    ensures x % m == 2 * ((x / 2) % p) + x % 2
  {
    var q, r := (x / 2) / p, (x / 2) % p;
    assert x == m * q + (2 * r + x % 2) by {
      assert x / 2 == p * q + r;
      assert x == 2 * (p * q + r) + x % 2;
      Twice(p, q);
    }
    ModUnique(x, m, q, 2 * r + x % 2);
  }

  lemma Twice(p: nat, a: nat)
    ensures (2 * p) * a == 2 * (p * a)
  {
  }

  /** A nonzero multiple of p is at least p away from zero. */
  lemma MulGap(p: nat, d: int)
    ensures d >= 1 ==> p * d >= p
    ensures d <= -1 ==> p * d + p <= 0
  {
    if d >= 1 {
      assert p * d == p * (d - 1) + p;
    } else {
      assert p * d + p == -(p * (-d - 1));
    }
  }

  lemma ModUnique(x: int, p: nat, q: int, r: int)
    requires p > 0 && 0 <= r < p && x == p * q + r
    ensures x % p == r && x / p == q
  {
    var q', r' := x / p, x % p;
    assert x == p * q' + r';
    assert p * (q - q') == r' - r by { assert p * (q - q') == p * q - p * q'; }
    MulGap(p, q - q');
  }

  /** Adding a multiple of the modulus changes nothing. */
  lemma ModShift(x: int, p: nat, q: int)
    requires p > 0
    ensures (x + p * q) % p == x % p
  {
    assert x + p * q == p * (x / p + q) + x % p by {
      assert p * (x / p + q) == p * (x / p) + p * q;
    }
    ModUnique(x + p * q, p, x / p + q, x % p);
  }

  lemma ModSucc(n: nat, p: nat)
    requires p > 0
    ensures (n % p + 1) % p == (n + 1) % p
  {
    assert n + 1 == n % p + 1 + p * (n / p);
    ModShift(n % p + 1, p, n / p);
  }

  /** Positions less than p apart are congruent only when equal. */
  lemma ModApart(x: int, y: int, p: nat)
    requires p > 0 && x <= y < x + p
    ensures x % p == y % p <==> x == y
  {
    if x % p == y % p {
      assert x == p * (x / p) + x % p && y == p * (y / p) + y % p;
      assert y - x == p * (y / p - x / p) by {
        assert p * (y / p - x / p) == p * (y / p) - p * (x / p);
      }
      MulGap(p, y / p - x / p);
    }
  }

  lemma {:induction false} Pow2Add(a: nat, b: nat)
    ensures Pow2(a + b) == Pow2(a) * Pow2(b)
    decreases a
  {
    if a > 0 {
      Pow2Add(a - 1, b);
      Twice(Pow2(a - 1), Pow2(b));
    }
  }

  lemma ModOfMultiple(x: int, p: nat, m: nat)
    requires p > 0 && m > 0 && p * m > 0
    ensures (x % (p * m)) % p == x % p
  {
    var q := x / (p * m);
    assert x == (p * m) * q + x % (p * m);
    assert (p * m) * q == p * (m * q);
    ModShift(x % (p * m), p, m * q);
  }

  /** A power of two at most 2^16 divides 2^16, so 16-bit truncation keeps congruence. */
  lemma Mod16(x: int, k: nat)
    requires k <= 16
    ensures (x % 0x1_0000) % Pow2(k) == x % Pow2(k)
  {
    Pow2Add(k, 16 - k);
    Pow2Of16();
    ModOfMultiple(x, Pow2(k), Pow2(16 - k));
  }

  /** Re-masking before a 16-bit increment keeps congruence with the unbounded count. */
  lemma NextSlot(count: nat, k: nat)
    requires k <= 16
    ensures ((count % Pow2(k) + 1) % 0x1_0000) % Pow2(k) == (count + 1) % Pow2(k)
  {
    Mod16(count % Pow2(k) + 1, k);
    ModSucc(count, Pow2(k));
  }

  lemma Pow2Of16()
    ensures Pow2(16) == 0x1_0000
  {
    assert Pow2(4) == 16;
    assert Pow2(8) == 256 by { Pow2Add(4, 4); }
    Pow2Add(8, 8);
  }

  lemma Pow2Of32()
    ensures Pow2(32) == 0x1_0000_0000
  {
    Pow2Of16();
    Pow2Add(16, 16);
  }

  lemma {:induction false} Pow2Monotone(a: nat, b: nat)
    requires a <= b
    ensures Pow2(a) <= Pow2(b)
    decreases b
  {
    if a < b { Pow2Monotone(a, b - 1); }
  }

  /** Remainder by repeated subtraction: n % size in a form that needs no division. */
  function Wrap(n: nat, size: nat): (r: nat)
    requires size > 0
    ensures r < size
    decreases n
  {
    if n < size then n else Wrap(n - size, size)
  }

  lemma {:induction false} WrapIsMod(n: nat, size: nat)
    requires size > 0
    ensures Wrap(n, size) == n % size
    decreases n
  {
    if n >= size {
      WrapIsMod(n - size, size);
      ModShift(n - size, size, 1);
    }
  }

  /** 32-bit accumulation: truncating on the way does not change the truncated sum. */
  lemma AddMod32(a: nat, b: nat)
    ensures (a % 0x1_0000_0000 + b) % 0x1_0000_0000 == (a + b) % 0x1_0000_0000
  {
  }

  // ---------- the power-of-two test of common.h ----------

  /** INT_IS_POW2 on a 32-bit word; the subtraction wraps at zero. */
  predicate PassesPow2Test(x: u32) {
    And(x, (x - 1) % 0x1_0000_0000) == 0
  }

  ghost predicate IsPow2(x: nat) {
    exists k: nat :: x == Pow2(k)
  }

  lemma {:induction false} AndSelf(x: nat)
    ensures And(x, x) == x
  {
    if x > 0 { AndSelf(x / 2); }
  }

  lemma AndStep(x: nat, y: nat)
    ensures And(x, y) == 2 * And(x / 2, y / 2) + (if x % 2 == 1 && y % 2 == 1 then 1 else 0)
  {
  }

  lemma {:induction false} AndPredecessor(x: nat)
    requires 0 < x
    ensures And(x, x - 1) == 0 <==> IsPow2(x)
  {
    hide And;
    AndStep(x, x - 1);
    Halves(x);
    if x == 1 {
      assert x == Pow2(0);
      AndSelf(0);
    } else if x % 2 == 0 {
      assert (x - 1) / 2 == x / 2 - 1;
      AndPredecessor(x / 2);
    } else {
      assert (x - 1) / 2 == x / 2;
      AndSelf(x / 2);
    }
  }

  /** An even number is a power of two when its half is; the only odd one is 1. */
  lemma Halves(x: nat)
    requires 0 < x
    ensures x % 2 == 0 ==> (IsPow2(x) <==> IsPow2(x / 2))
    ensures x % 2 == 1 ==> (IsPow2(x) <==> x == 1)
  {
    if k: nat :| x == Pow2(k) {
      if k > 0 {
        assert x / 2 == Pow2(k - 1);
      }
    }
    if k: nat :| x / 2 == Pow2(k) {
      assert Pow2(k + 1) == 2 * Pow2(k);
    }
    assert Pow2(0) == 1;
  }

  /** The test accepts exactly zero and the powers of two. */
  lemma Pow2TestExact(x: u32)
    ensures PassesPow2Test(x) <==> x == 0 || IsPow2(x)
  {
    if x > 0 {
      assert (x - 1) % 0x1_0000_0000 == x - 1;
      AndPredecessor(x);
    } else {
      assert And(0, 0x1_0000_0000 - 1) == 0;
    }
  }

  /** Masking with a single digit. */
  lemma {:induction false} AndPow2(x: nat, k: nat)
    ensures And(Pow2(k), x) == And(x, Pow2(k)) == if Bit(x, k) then Pow2(k) else 0
    decreases k
  {
    hide And;
    AndStep(x, Pow2(k));
    AndStep(Pow2(k), x);
    if k == 0 {
      AndZero(x / 2);
    } else {
      AndPow2(x / 2, k - 1);
    }
  }

  /** Testing a single digit, for the digits that flags use. */
  lemma FlagIsBit(x: nat)
    ensures (And(x, 1) != 0) == Bit(x, 0) && (And(x, 2) != 0) == Bit(x, 1)
  {
    hide And, Bit;
    assert Pow2(0) == 1 && Pow2(1) == 2;
    AndPow2(x, 0);
    AndPow2(x, 1);
  }
}
