/**
 Rounding the decimal text of a number to d places: the text is cut after d + 1 places, a carry runs over
 the digits if the last one is above 4, and a guard digit in front takes a carry out of the leading digit.
 */
module ToFixed {

  import opened Lists

  type Digit = d: nat | d < 10

  /** The text of a number that is written without an exponent: its sign, and the digits before and after
      the point. */
  datatype Decimal = Decimal(sign: string, whole: seq<Digit>, places: seq<Digit>)

  function DigitChar(d: Digit): char {
    ('0' as int + d) as char
  }

  function DigitText(s: seq<Digit>): (t: string)
    ensures |t| == |s|
  {
    seq(|s|, i requires 0 <= i < |s| => DigitChar(s[i]))
  }

  /** The text, without a point when no digit follows it. */
  function Text(x: Decimal): string {
    x.sign + DigitText(x.whole) + (if x.places == [] then "" else "." + DigitText(x.places))
  }

  // ---------------------------------------------------------------- numbers

  function Pow10(n: nat): (r: nat)
    ensures r > 0
  {
    if n == 0 then 1 else 10 * Pow10(n - 1)
  }

  function Value(s: seq<Digit>): nat {
    if s == [] then 0 else Value(s[..|s| - 1]) * 10 + s[|s| - 1]
  }

  function Zeros(n: nat): (s: seq<Digit>)
    ensures |s| == n && forall i :: 0 <= i < n ==> s[i] == 0
  {
    seq(n, i => 0)
  }

  lemma ValuePush(s: seq<Digit>, d: Digit)
    ensures Value(s + [d]) == Value(s) * 10 + d
  {
    assert (s + [d])[..|s|] == s;
  }

  lemma {:induction false} ValueConcat(a: seq<Digit>, b: seq<Digit>)
    ensures Value(a + b) == Value(a) * Pow10(|b|) + Value(b)
    decreases |b|
  {
    if b == [] {
      assert a + b == a;
    } else {
      var n := |b| - 1;
      ValueConcat(a, b[..n]);
      assert a + b == (a + b[..n]) + [b[n]];
      ValuePush(a + b[..n], b[n]);
      Distribute(Value(a), Pow10(n), Value(b[..n]), b[n]);
    }
  }

  lemma Distribute(a: nat, p: nat, b: nat, d: nat)
    ensures (a * p + b) * 10 + d == a * (10 * p) + (b * 10 + d)
  {
  }

  lemma {:induction false} ValueBound(s: seq<Digit>)
    ensures Value(s) < Pow10(|s|)
  {
    if s != [] {
      ValueBound(s[..|s| - 1]);
    }
  }

  lemma {:induction false} ValueZeros(n: nat)
    ensures Value(Zeros(n)) == 0
  {
    if n > 0 {
      assert Zeros(n)[..n - 1] == Zeros(n - 1);
      ValueZeros(n - 1);
    }
  }

  /** As many digits and the same value make the same digits. */
  lemma {:induction false} ValueInjective(a: seq<Digit>, b: seq<Digit>)
    requires |a| == |b| && Value(a) == Value(b)
    ensures a == b
    decreases |a|
  {
    if a != [] {
      var n := |a| - 1;
      LastDigit(Value(a[..n]), a[n], Value(b[..n]), b[n]);
      ValueInjective(a[..n], b[..n]);
      assert a == a[..n] + [a[n]] && b == b[..n] + [b[n]];
    }
  }

  lemma LastDigit(x: nat, d: Digit, y: nat, e: Digit)
    requires x * 10 + d == y * 10 + e
    ensures x == y && d == e
  {
  }

  // ---------------------------------------------------------------- rounding

  /** r is x times ten to the d, where x is m with k decimal places, rounded half away from zero: r is
      the whole number for which r - 1/2 <= x * 10^d < r + 1/2 holds of the magnitudes. */
  predicate HalfAway(m: nat, k: nat, d: nat, r: nat) {
    2 * r * Pow10(k) <= 2 * m * Pow10(d) + Pow10(k) < 2 * (r + 1) * Pow10(k)
  }

  lemma HalfAwayUnique(m: nat, k: nat, d: nat, r: nat, q: nat)
    requires HalfAway(m, k, d, r) && HalfAway(m, k, d, q)
    ensures r == q
  {
    if r < q {
      ScaleUp(r + 1, q, Pow10(k));
    } else if q < r {
      ScaleUp(q + 1, r, Pow10(k));
    }
  }

  lemma ScaleUp(a: nat, b: nat, p: nat)
    requires a <= b
    ensures 2 * a * p <= 2 * b * p
  {
    assert (b - a) * p >= 0;
  }

  /** Cutting after d + 1 places loses nothing: rounding the cut number t at its last digit is rounding
      the number itself. Here x is the number times ten to the d, and q is ten to the k - 1. */
  lemma CutThenRound(x: nat, q: nat, t: nat, r: nat)
    requires t * q <= x < (t + 1) * q && r == (t + 5) / 10
    ensures 2 * r * (10 * q) <= 2 * x + 10 * q < 2 * (r + 1) * (10 * q)
  {
    assert 10 * r <= t + 5 < 10 * r + 10;
    Mono(10 * r, t + 5, q);
    Mono(t + 6, 10 * r + 10, q);
    assert (10 * r) * q == 10 * (r * q) && (t + 5) * q == t * q + 5 * q;
    assert (t + 6) * q == (t + 1) * q + 5 * q && (10 * r + 10) * q == 10 * (r * q) + 10 * q;
    assert 2 * r * (10 * q) == 20 * (r * q) && 2 * (r + 1) * (10 * q) == 20 * (r * q) + 20 * q;
  }

  lemma Mono(a: nat, b: nat, p: nat)
    requires a <= b
    ensures a * p <= b * p
  {
    assert (b - a) * p >= 0;
  }

  // ---------------------------------------------------------------- the carry

  /** One more in the last place. */
  function Increment(s: seq<Digit>): (r: seq<Digit>)
    requires s != [] && s[0] == 0
    ensures |r| == |s| && r[0] <= 1
  {
    var n := |s| - 1;
    if s[n] < 9 then s[..n] + [s[n] + 1] else Increment(s[..n]) + [0]
  }

  lemma {:induction false} IncrementIs(s: seq<Digit>)
    requires s != [] && s[0] == 0
    ensures Value(Increment(s)) == Value(s) + 1
    decreases |s|
  {
    var n := |s| - 1;
    if s[n] < 9 {
      ValuePush(s[..n], s[n] + 1);
    } else {
      IncrementIs(s[..n]);
      ValuePush(Increment(s[..n]), 0);
    }
  }

  /** The carry loop over the digits a, all but the last of which are kept. The result says that no
      carry reached the guard digit a[0]. */
  method Carry(a: array<Digit>) returns (b: bool)
    requires a.Length >= 3 && a[0] == 0
    modifies a
    ensures a[..a.Length - 1] == Increment(old(a[..a.Length - 1])) && a[a.Length - 1] == old(a[a.Length - 1])
    ensures b <==> a[0] == 0
  {
    b := true;
    var m := a.Length - 1;
    ghost var start := a[..m];
    var i := m - 1;
    while i >= 0
      invariant 0 <= i < m && b == (i != 0)
      invariant a[..i + 1] == start[..i + 1] && a[m] == old(a[m])
      invariant Increment(start) == Increment(a[..i + 1]) + a[i + 1..m]
    {
      ghost var s := a[..i + 1];
      assert s[..i] == a[..i] && s[i] == a[i];
      var digit: int := a[i];
      var up := digit + 1;
      if up == 10 {
        ghost var low := a[i + 1..m];
        a[i] := 0;
        b := i != 1;
        assert a[..i] == s[..i] && a[i..m] == [0] + low;
        Assoc(Increment(s[..i]), [0], low);
        i := i - 1;
      } else {
        ghost var low := a[i + 1..m];
        a[i] := up;
        assert a[..m] == (s[..i] + [s[i] + 1]) + low;
        assert i > 0 ==> a[0] == start[0];
        break;
      }
    }
  }

  // ---------------------------------------------------------------- the whole

  /** The digits the expression keeps: the whole part and d + 1 places, zeros filling up. */
  function Cut(x: Decimal, d: nat): seq<Digit>
    requires x.places != []
  {
    x.whole + (x.places + Zeros(d))[..d + 1]
  }

  /** The cut digits rounded at the last of them, with the guard digit in front. */
  function RoundCut(cut: seq<Digit>): seq<Digit>
    requires cut != []
  {
    var kept := [0] + cut[..|cut| - 1];
    if cut[|cut| - 1] > 4 then Increment(kept) else kept
  }

  lemma RoundCutValue(cut: seq<Digit>)
    requires cut != []
    ensures Value(RoundCut(cut)) == (Value(cut) + 5) / 10
  {
    var n := |cut| - 1;
    var kept := [0] + cut[..n];
    ValueConcat([0], cut[..n]);
    assert Value([0]) == 0 by {
      assert [0][..0] == [];
    }
    assert Value(cut) == Value(kept) * 10 + cut[n];
    if cut[n] > 4 {
      IncrementIs(kept);
    }
  }

  lemma CutBounds(x: Decimal, d: nat)
    requires x.places != []
    ensures var v, q, t := Value(x.whole + x.places) * Pow10(d), Pow10(|x.places| - 1), Value(Cut(x, d));
      t * q <= v < (t + 1) * q
  {
    var rest := (x.places + Zeros(d))[d + 1..];
    ValueConcat(x.whole + x.places, Zeros(d));
    ValueZeros(d);
    SplitAt(x.whole, x.places, Zeros(d), d + 1);
    ValueConcat(Cut(x, d), rest);
    ValueBound(rest);
    assert Pow10(|rest|) == Pow10(|x.places| - 1);
    Next(Value(Cut(x, d)), Pow10(|rest|));
  }

  lemma SplitAt(a: seq<Digit>, b: seq<Digit>, c: seq<Digit>, n: nat)
    requires n <= |b + c|
    ensures (a + b) + c == (a + (b + c)[..n]) + (b + c)[n..]
  {
  }

  lemma Next(t: nat, q: nat)
    ensures (t + 1) * q == t * q + q
  {
  }

  /** Rounding the cut digits is rounding the number. */
  lemma CutRounds(x: Decimal, d: nat)
    requires x.places != []
    ensures HalfAway(Value(x.whole + x.places), |x.places|, d, Value(RoundCut(Cut(x, d))))
  {
    var m, q, t, r := Value(x.whole + x.places), Pow10(|x.places| - 1), Value(Cut(x, d)), Value(RoundCut(Cut(x, d)));
    CutBounds(x, d);
    RoundCutValue(Cut(x, d));
    CutThenRound(m * Pow10(d), q, t, r);
    Twice(m, Pow10(d));
  }

  lemma Twice(m: nat, p: nat)
    ensures 2 * m * p == 2 * (m * p)
  {
  }

  /** A number without decimal places only gets zeros. */
  lemma WholeRounds(x: Decimal, d: nat)
    requires x.places == []
    ensures HalfAway(Value(x.whole), 0, d, Value(x.whole + Zeros(d)))
  {
    ValueConcat(x.whole, Zeros(d));
    ValueZeros(d);
    Twice(Value(x.whole), Pow10(d));
  }

  predicate Canonical(s: seq<Digit>) {
    s != [] && (|s| > 1 ==> s[0] != 0)
  }

  /** Without its guard digit when that is 0. */
  function Unguarded(s: seq<Digit>): seq<Digit>
    requires s != []
  {
    if s[0] == 0 then s[1..] else s
  }

  lemma UnguardedValue(s: seq<Digit>)
    requires s != []
    ensures Value(Unguarded(s)) == Value(s)
  {
    if s[0] == 0 {
      ValueConcat([0], s[1..]);
      assert [0][..0] == [];
      assert s == [0] + s[1..];
    }
  }

  /** The digits of the result. */
  function Digits(x: Decimal, d: nat): (s: seq<Digit>)
    requires x.whole != []
    ensures |s| >= d
  {
    if x.places == [] then x.whole + Zeros(d) else Unguarded(RoundCut(Cut(x, d)))
  }

  /** `toFixed2` for a number whose text has no exponent. */
  method ToFixed2(x: Decimal, d: nat) returns (text: string)
    requires x.whole != []
    ensures var s := Digits(x, d); text == Text(Decimal(x.sign, s[..|s| - d], s[|s| - d..]))
  {
    var places := x.places + Zeros(d);
    var kept := if |places| <= d + 1 then places else places[..d + 1];
    var s := [0] + x.whole + kept;
    var b := true;
    if |kept| + 1 == d + 2 {
      assert Cut(x, d) == x.whole + kept;
      s, b := RoundDigits(x.whole + kept);
    } else {
      assert x.places == [] && kept == Zeros(d);
      assert s[1..] == x.whole + Zeros(d);
    }
    if b {
      s := s[1..];
    }
    var n := |s| - d;
    text := Text(Decimal(x.sign, s[..n], s[n..]));
  }

  /** The digits as an array, the carry if the last digit asks for it, and the last digit dropped. */
  method RoundDigits(cut: seq<Digit>) returns (s: seq<Digit>, b: bool)
    requires |cut| >= 2
    ensures s == RoundCut(cut) && |s| == |cut| && (b <==> s[0] == 0)
  {
    var n := |cut|;
    var a: array<Digit> := new Digit[n + 1](i requires 0 <= i <= n => if i == 0 then 0 else cut[i - 1]);
    b := true;
    assert a[..n] == [0] + cut[..n - 1] && a[n] == cut[n - 1];
    if a[a.Length - 1] > 4 {
      b := Carry(a);
    }
    s := a[..n];
  }

  // ---------------------------------------------------------------- what the result is

  /** For every number and every d, the result is the number rounded half away from zero to d places. */
  lemma RoundsHalfAway(x: Decimal, d: nat)
    requires x.whole != []
    ensures HalfAway(Value(x.whole + x.places), |x.places|, d, Value(Digits(x, d)))
  {
    if x.places == [] {
      WholeRounds(x, d);
      assert x.whole + x.places == x.whole;
    } else {
      CutRounds(x, d);
      UnguardedValue(RoundCut(Cut(x, d)));
    }
  }

  /** The result has one digit more before the point exactly when the rounded number needs it: that is
      when the carry leaves the leading digit. */
  lemma GuardSurvivesIff(x: Decimal, d: nat)
    requires x.whole != []
    ensures |Digits(x, d)| == |x.whole| + d + if Value(Digits(x, d)) >= Pow10(|x.whole| + d) then 1 else 0
  {
    ValueBound(Digits(x, d));
    if x.places != [] {
      GuardNeeded(RoundCut(Cut(x, d)));
    }
  }

  lemma GuardNeeded(all: seq<Digit>)
    requires all != []
    ensures all[0] != 0 <==> Value(Unguarded(all)) >= Pow10(|all| - 1)
  {
    if all[0] == 0 {
      ValueBound(all[1..]);
    } else {
      LeadingBound(all);
    }
  }

  /** No zero is put in front of the result. */
  lemma ResultIsCanonical(x: Decimal, d: nat)
    requires Canonical(x.whole)
    ensures |Digits(x, d)| >= d && Canonical(Digits(x, d)[..|Digits(x, d)| - d])
  {
    if x.places == [] {
      assert Digits(x, d)[..|x.whole|] == x.whole;
    } else {
      var all := RoundCut(Cut(x, d));
      assert |all| == |x.whole| + d + 1;
      if all[0] == 0 {
        GuardedLead(Cut(x, d));
      }
    }
  }

  lemma LeadingBound(s: seq<Digit>)
    requires s != [] && s[0] != 0
    ensures Value(s) >= Pow10(|s| - 1)
  {
    var tail := s[1..];
    assert s == [s[0]] + tail;
    ValueConcat([s[0]], tail);
    assert [s[0]][..0] == [];
    Mono(1, s[0], Pow10(|tail|));
  }

  lemma {:induction false} IncrementLead(s: seq<Digit>)
    requires |s| >= 2 && s[0] == 0
    ensures Increment(s)[0] == 0 ==> Increment(s)[1] >= s[1]
    decreases |s|
  {
    var n := |s| - 1;
    if s[n] == 9 && |s| > 2 {
      IncrementLead(s[..n]);
    }
  }

  /** When the guard digit stays 0, the leading digit does not fall. */
  lemma GuardedLead(cut: seq<Digit>)
    requires |cut| >= 2 && RoundCut(cut)[0] == 0
    ensures RoundCut(cut)[1] >= cut[0]
  {
    var kept := [0] + cut[..|cut| - 1];
    if cut[|cut| - 1] > 4 {
      IncrementLead(kept);
    }
  }

  /** So the text is fixed by the number: any digits of the right length that stand for the number rounded
      half away from zero are those of the result. */
  lemma TextIsDetermined(x: Decimal, d: nat, s: seq<Digit>)
    requires x.whole != [] && HalfAway(Value(x.whole + x.places), |x.places|, d, Value(s))
    requires |s| == |x.whole| + d + if Value(s) >= Pow10(|x.whole| + d) then 1 else 0
    ensures s == Digits(x, d)
  {
    RoundsHalfAway(x, d);
    HalfAwayUnique(Value(x.whole + x.places), |x.places|, d, Value(s), Value(Digits(x, d)));
    GuardSurvivesIff(x, d);
    ValueInjective(s, Digits(x, d));
  }

  /** Rounding to as many places as a number has changes nothing but zeros at the end. */
  lemma ExactIsKept(x: Decimal, d: nat)
    requires x.whole != [] && |x.places| <= d
    ensures Digits(x, d) == x.whole + x.places + Zeros(d - |x.places|)
  {
    var k := |x.places|;
    var s := x.whole + x.places + Zeros(d - k);
    var m := Value(x.whole + x.places);
    ValueConcat(x.whole + x.places, Zeros(d - k));
    ValueZeros(d - k);
    PowSplit(k, d - k);
    ExactHalfAway(m, Pow10(k), Pow10(d - k));
    Twice(m, Pow10(d));
    ValueBound(s);
    TextIsDetermined(x, d, s);
  }

  lemma {:induction false} PowSplit(a: nat, b: nat)
    ensures Pow10(a + b) == Pow10(a) * Pow10(b)
    decreases a
  {
    if a > 0 {
      PowSplit(a - 1, b);
      assert 10 * (Pow10(a - 1) * Pow10(b)) == (10 * Pow10(a - 1)) * Pow10(b);
    }
  }

  lemma ExactHalfAway(m: nat, p: nat, q: nat)
    requires p > 0
    ensures var r := m * q;
      2 * r * p <= 2 * (m * (p * q)) + p < 2 * (r + 1) * p
  {
    assert (m * q) * p == m * (p * q);
    assert 2 * (m * q + 1) * p == 2 * ((m * q) * p) + 2 * p;
  }
}
