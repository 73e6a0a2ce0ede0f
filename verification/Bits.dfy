/** Java's 64-bit `long` operators on mathematical integers. */
module Bits {

  const TWO_64: int := 0x1_0000_0000_0000_0000
  const TWO_63: int := 0x8000_0000_0000_0000

  function Pow2(k: nat): (p: nat)
    ensures p > 0
  {
    if k == 0 then 1 else 2 * Pow2(k - 1)
  }

  lemma Pow2Values()
    ensures Pow2(8) == 0x100 && Pow2(12) == 0x1000 && Pow2(16) == 0x1_0000
    ensures Pow2(17) == 0x2_0000 && Pow2(22) == 0x40_0000
  {
    assert Pow2(4) == 16;
    assert Pow2(8) == 256;
    assert Pow2(12) == 4096;
    assert Pow2(16) == 65536;
    assert Pow2(20) == 1048576;
  }

  /** Bitwise or of two bit patterns, bit by bit. */
  function BitOr(a: nat, b: nat): nat {
    if a == 0 && b == 0 then 0
    else 2 * BitOr(a / 2, b / 2) + (if a % 2 == 1 || b % 2 == 1 then 1 else 0)
  }

  /** Bitwise and of two bit patterns. */
  function BitAnd(a: nat, b: nat): nat {
    if a == 0 || b == 0 then 0
    else 2 * BitAnd(a / 2, b / 2) + (if a % 2 == 1 && b % 2 == 1 then 1 else 0)
  }

  /** The 64-bit pattern of a mathematical integer, and the `long` a pattern stands for. */
  function Pattern(x: int): nat { x % TWO_64 }

  function Long(p: int): int { (p + TWO_63) % TWO_64 - TWO_63 }

  function Shl(x: int, k: nat): int { Long(x * Pow2(k)) }

  function Or(x: int, y: int): int { Long(BitOr(Pattern(x), Pattern(y))) }

  lemma {:induction false} OrOfZero(a: nat)
    ensures BitOr(a, 0) == a
  {
    if a > 0 {
      OrOfZero(a / 2);
    }
  }

  /** Or is addition when the low k bits of one operand are clear and the other has only those. */
  lemma {:induction false} OrIsSum(a: nat, b: nat, k: nat)
    requires a % Pow2(k) == 0 && b < Pow2(k)
    ensures BitOr(a, b) == a + b
  {
    if k == 0 {
      OrOfZero(a);
    } else if a != 0 || b != 0 {
      HalfOfMultiple(a, Pow2(k - 1));
      OrIsSum(a / 2, b / 2, k - 1);
    }
  }

  lemma HalfOfMultiple(a: nat, p: nat)
    requires p > 0 && a % (2 * p) == 0
    ensures a % 2 == 0 && (a / 2) % p == 0
  {
    var q := a / (2 * p);
    assert a == 2 * (p * q) by { assert a == (2 * p) * q; }
    Multiple(p, q);
  }

  lemma Multiple(m: int, q: int)
    requires m > 0
    ensures (m * q) % m == 0 && (m * q) / m == q
  {
    var d := q - (m * q) / m;
    assert (m * q) % m == m * d;
    assert d >= 1 ==> m * d >= m;
    assert d <= -1 ==> m * d <= -m;
  }

  /** Masking with k ones keeps the low k bits. */
  lemma {:induction false} AndOfMask(a: nat, k: nat, p: nat)
    requires p == Pow2(k)
    ensures BitAnd(a, p - 1) == a % p
    decreases k
  {
    if a == 0 {
      DivModUnique(a, p, 0, 0);
    } else if k > 0 {
      var q := Pow2(k - 1);
      AndOfMask(a / 2, k - 1, q);
      MaskStep(a, q);
      HalfMod(a, q);
    }
  }

  lemma MaskStep(a: nat, p: nat)
    requires a > 0 && p > 0
    ensures BitAnd(a, 2 * p - 1) == 2 * BitAnd(a / 2, p - 1) + a % 2
  {
    assert (2 * p - 1) / 2 == p - 1;
  }

  lemma HalfMod(a: nat, p: nat)
    requires p > 0
    ensures a % (2 * p) == 2 * ((a / 2) % p) + a % 2
  {
    var h := a / 2;
    var r := 2 * (h % p) + a % 2;
    assert h == p * (h / p) + h % p;
    assert a == (2 * p) * (h / p) + r by { assert 2 * (p * (h / p)) == (2 * p) * (h / p); }
    DivModUnique(a, 2 * p, h / p, r);
  }

  lemma DivModUnique(a: int, m: int, q: int, r: int)
    requires m > 0 && 0 <= r < m && a == m * q + r
    ensures a % m == r && a / m == q
  {
    var d := a / m - q;
    assert m * d == r - a % m;
    assert d >= 1 ==> m * d >= m;
    assert d <= -1 ==> m * d <= -m;
  }

  // ---------------------------------------------------------------- patterns and longs

  lemma PatternOfSmall(x: int)
    requires 0 <= x < TWO_64
    ensures Pattern(x) == x
  {
  }

  lemma PatternOfLong(x: int)
    ensures Pattern(Long(x)) == Pattern(x)
  {
    var k := (x + TWO_63) / TWO_64;
    assert Long(x) == x - TWO_64 * k;
    DivModUnique(Long(x), TWO_64, x / TWO_64 - k, x % TWO_64);
  }

  lemma LongRange(x: int)
    ensures -TWO_63 <= Long(x) < TWO_63
  {
  }

  /** A long is determined by its pattern. */
  lemma LongFromPattern(x: int, v: int)
    requires -TWO_63 <= x < TWO_63 && -TWO_63 <= v < TWO_63
    requires Pattern(x) == if v >= 0 then v else v + TWO_64
    ensures x == v
  {
  }

  lemma SmallShift(x: int, k: nat)
    requires 0 <= x * Pow2(k) < TWO_63
    ensures Shl(x, k) == x * Pow2(k)
  {
  }

  lemma OrStep(x: int, y: int, k: nat, p: nat)
    requires p == Pow2(k) && 0 <= y < p <= TWO_64
    requires Pattern(x) % p == 0 && Pattern(x) + y < TWO_64
    ensures Pattern(Or(x, y)) == Pattern(x) + y
  {
    PatternOfSmall(y);
    var a: nat := Pattern(x);
    OrIsSum(a, y, k);
    PatternOfLong(a + y);
    PatternOfSmall(a + y);
  }

  lemma MaskIsMod(x: int, k: nat)
    requires 0 <= x < TWO_64
    ensures BitAnd(Pattern(x), Pow2(k) - 1) == x % Pow2(k)
  {
    PatternOfSmall(x);
    AndOfMask(x, k, Pow2(k));
  }

  lemma Mask16(p: nat, mask: nat)
    requires mask == 0xffff // a variable, so that the solver does not run the recursion
    ensures BitAnd(p, mask) == p % 0x1_0000
  {
    Pow2Values();
    AndOfMask(p, 16, 0x1_0000);
  }
}
