/**
 Reversing the selection of a flat multi-select twice: exactly when it restores the selection, for every
 maximum, and in radio mode.
 */
module FlatReverse {

  import opened FlatSelect
  import opened Lists

  // ---------------------------------------------------------------- a pass over the marks

  function Count(b: seq<bool>): nat {
    if b == [] then 0 else (if b[0] then 1 else 0) + Count(b[1..])
  }

  function Not(b: seq<bool>): (r: seq<bool>)
    ensures |r| == |b| && forall i :: 0 <= i < |b| ==> r[i] == !b[i]
  {
    seq(|b|, i requires 0 <= i < |b| => !b[i])
  }

  /** Each mark is flipped in turn, but none is set while c, the number selected so far, is at the maximum. */
  function Pass(b: seq<bool>, c: int, max: nat): (r: seq<bool>)
    ensures |r| == |b|
  {
    if b == [] then []
    else if b[0] then [false] + Pass(b[1..], c - 1, max)
    else if c < max then [true] + Pass(b[1..], c + 1, max)
    else [false] + Pass(b[1..], c, max)
  }

  lemma CountSplit(b: seq<bool>, i: nat)
    requires 0 < i <= |b|
    ensures Count(b[..i]) == (if b[0] then 1 else 0) + Count(b[1..][..i - 1])
  {
    assert b[..i][1..] == b[1..][..i - 1];
  }

  /** A mark after the pass: it was not set, and there was room when its turn came. */
  lemma {:induction false} PassAt(b: seq<bool>, c: int, max: nat, i: nat)
    requires i < |b|
    ensures var r := Pass(b, c, max);
      r[i] == (!b[i] && c - Count(b[..i]) + Count(r[..i]) < max)
    decreases i
  {
    var r := Pass(b, c, max);
    if i > 0 {
      var next := if b[0] then c - 1 else if c < max then c + 1 else c;
      assert r[1..] == Pass(b[1..], next, max);
      PassAt(b[1..], next, max, i - 1);
      CountSplit(b, i);
      CountSplit(r, i);
    }
  }

  lemma {:induction false} PassStaysWithin(b: seq<bool>, c: int, max: nat)
    requires c <= max
    ensures c - Count(b) + Count(Pass(b, c, max)) <= max
    decreases |b|
  {
    if b != [] {
      var r := Pass(b, c, max);
      var next := if b[0] then c - 1 else if c < max then c + 1 else c;
      assert r[1..] == Pass(b[1..], next, max);
      PassStaysWithin(b[1..], next, max);
    }
  }

  /** Counting the marks before it as flipped already, every unset mark finds room. */
  predicate Fits(b: seq<bool>, c: int, max: nat) {
    forall i :: 0 <= i < |b| && !b[i] ==> c - Count(b[..i]) + (i - Count(b[..i])) < max
  }

  lemma {:induction false} CountNot(b: seq<bool>)
    ensures Count(Not(b)) == |b| - Count(b)
  {
    if b != [] {
      assert Not(b)[1..] == Not(b[1..]);
      CountNot(b[1..]);
    }
  }

  lemma CountFlipped(b: seq<bool>, r: seq<bool>, i: nat)
    requires i <= |b| == |r| && forall j :: 0 <= j < i ==> r[j] == !b[j]
    ensures Count(r[..i]) == i - Count(b[..i])
  {
    assert r[..i] == Not(b[..i]);
    CountNot(b[..i]);
  }

  /** With room for every mark, the pass flips them all. */
  lemma {:induction false} FitsFlips(b: seq<bool>, c: int, max: nat, i: nat)
    requires Fits(b, c, max) && i <= |b|
    ensures forall j :: 0 <= j < i ==> Pass(b, c, max)[j] == !b[j]
    decreases i
  {
    if i > 0 {
      FitsFlips(b, c, max, i - 1);
      PassAt(b, c, max, i - 1);
      CountFlipped(b, Pass(b, c, max), i - 1);
    }
  }

  lemma FlippedFits(b: seq<bool>, c: int, max: nat)
    requires Pass(b, c, max) == Not(b)
    ensures Fits(b, c, max)
  {
    forall i | 0 <= i < |b| && !b[i] ensures c - Count(b[..i]) + (i - Count(b[..i])) < max {
      PassAt(b, c, max, i);
      CountFlipped(b, Not(b), i);
    }
  }

  lemma {:induction false} NoneSet(b: seq<bool>)
    requires forall i :: 0 <= i < |b| ==> !b[i]
    ensures Count(b) == 0
  {
    if b != [] {
      NoneSet(b[1..]);
    }
  }

  lemma {:induction false} SomeSet(b: seq<bool>) returns (j: nat)
    requires Count(b) > 0
    ensures j < |b| && b[j] && forall i :: 0 <= i < j ==> !b[i]
  {
    if b[0] {
      j := 0;
    } else {
      var k := SomeSet(b[1..]);
      j := k + 1;
      assert forall i :: 0 < i < j ==> b[i] == b[1..][i - 1];
    }
  }

  /** When nothing is set before j and there is no room, nothing becomes set before j. */
  lemma {:induction false} FullSetsNone(b: seq<bool>, c: int, max: nat, j: nat)
    requires c >= max && j <= |b| && forall i :: 0 <= i < j ==> !b[i]
    ensures forall i :: 0 <= i < j ==> !Pass(b, c, max)[i]
    decreases j
  {
    if j > 0 {
      FullSetsNone(b, c, max, j - 1);
      PassAt(b, c, max, j - 1);
      NoneSet(b[..j - 1]);
    }
  }

  /** If two passes restore the marks and something more could be selected, the first one was not refused
      anything: a mark refused in both passes means that both begin at the maximum, and then the first mark
      that was set cannot come back. */
  lemma RestoredMeansFlipped(b: seq<bool>, k: nat, max: nat)
    requires k + Count(b) <= max && k < max
    requires var t := Pass(b, k + Count(b), max); Pass(t, k + Count(t), max) == b
    ensures Pass(b, k + Count(b), max) == Not(b)
  {
    var c := k + Count(b);
    var t := Pass(b, c, max);
    var c2 := k + Count(t);
    PassStaysWithin(b, c, max);
    forall i | 0 <= i < |b| ensures t[i] == !b[i] {
      PassAt(b, c, max, i);
      PassAt(t, c2, max, i);
      if !b[i] && !t[i] {
        assert c == max && c2 == max;
        var j := SomeSet(b);
        FullSetsNone(b, c, max, j);
        NoneSet(b[..j]);
        NoneSet(t[..j]);
        PassAt(t, c2, max, j);
      }
    }
  }

  /** What a caller can check before reversing. With k marked options that are not looked at: they fill the
      maximum; or each unmarked option finds room when its turn comes in the first reversal, and each marked
      one in the second. */
  predicate RoomForAll(b: seq<bool>, k: nat, max: nat) {
    k == max || (Fits(b, k + Count(b), max) && Fits(Not(b), k + Count(Not(b)), max))
  }

  lemma NothingFits(b: seq<bool>, k: nat, max: nat)
    requires k + Count(b) <= max && k == max
    ensures Pass(b, k + Count(b), max) == b
  {
    forall i | 0 <= i < |b| ensures !b[i] {
      UnsetOf(b, i);
    }
    FullSetsNone(b, k + Count(b), max, |b|);
  }

  lemma FitsRestores(b: seq<bool>, k: nat, max: nat)
    requires Fits(b, k + Count(b), max) && Fits(Not(b), k + Count(Not(b)), max)
    ensures var t := Pass(b, k + Count(b), max); Pass(t, k + Count(t), max) == b
  {
    var t := Pass(b, k + Count(b), max);
    FitsFlips(b, k + Count(b), max, |b|);
    assert t == Not(b);
    FitsFlips(t, k + Count(t), max, |b|);
  }

  lemma RestoredFits(b: seq<bool>, k: nat, max: nat)
    requires k + Count(b) <= max && k < max
    requires var t := Pass(b, k + Count(b), max); Pass(t, k + Count(t), max) == b
    ensures Fits(b, k + Count(b), max) && Fits(Not(b), k + Count(Not(b)), max)
  {
    RestoredMeansFlipped(b, k, max);
    FlippedFits(b, k + Count(b), max);
    assert Not(Not(b)) == b;
    FlippedFits(Not(b), k + Count(Not(b)), max);
  }

  /** Two passes restore the marks exactly when nothing more can be selected at all, or every unset mark
      finds room in the first pass and every set one in the second. */
  lemma TwoPasses(b: seq<bool>, k: nat, max: nat, room: bool)
    requires k + Count(b) <= max && room == RoomForAll(b, k, max)
    ensures var t := Pass(b, k + Count(b), max);
      room == (Pass(t, k + Count(t), max) == b)
  {
    var t := Pass(b, k + Count(b), max);
    if k == max {
      NothingFits(b, k, max);
    } else if Pass(t, k + Count(t), max) == b {
      RestoredFits(b, k, max);
    } else if Fits(b, k + Count(b), max) && Fits(Not(b), k + Count(Not(b)), max) {
      FitsRestores(b, k, max);
    }
  }

  lemma {:induction false} UnsetOf(b: seq<bool>, i: nat)
    requires Count(b) == 0 && i < |b|
    ensures !b[i]
    decreases i
  {
    if i > 0 {
      UnsetOf(b[1..], i - 1);
    }
  }

  // ---------------------------------------------------------------- in multiple mode

  /** Which of the values are marked. */
  function Bits(vs: seq<Value>, marks: set<Value>): (b: seq<bool>)
    ensures |b| == |vs| && forall i :: 0 <= i < |vs| ==> b[i] == (vs[i] in marks)
  {
    seq(|vs|, i requires 0 <= i < |vs| => vs[i] in marks)
  }

  lemma BitsTail(vs: seq<Value>, marks: set<Value>)
    requires vs != []
    ensures Bits(vs, marks)[1..] == Bits(vs[1..], marks)
  {
  }

  lemma SameBits(vs: seq<Value>, marks: set<Value>, more: set<Value>)
    requires forall v :: v in vs ==> (v in marks <==> v in more)
    ensures Bits(vs, marks) == Bits(vs, more)
  {
  }

  /** What a toggle does to the marks and to the number selected. */
  lemma ToggledOne(options: seq<Option>, cfg: Config, s: State, v: Value)
    requires Inv(options, cfg, s) && !cfg.radio && cfg.max > 0
    ensures var u := Toggled(cfg, s, v);
      && (v in u.marks <==> v !in s.marks && |s.values| < cfg.max)
      && (forall w :: w != v ==> (w in u.marks <==> w in s.marks))
      && |u.values| == |s.values| - (if v in s.marks then 1 else 0) + (if v in u.marks then 1 else 0)
  {
    RemoveFirstIs(s.values, v);
  }

  /** Toggling each value is a pass over its marks. */
  lemma {:induction false} ToggleIsPass(options: seq<Option>, cfg: Config, s: State, vs: seq<Value>)
    requires Inv(options, cfg, s) && !cfg.radio && cfg.max > 0 && NoRepeats(vs) && AllOptions(options, vs)
    ensures IsPass(vs, s, ToggleEach(cfg, s, vs), cfg.max)
    ensures forall v :: v !in vs ==> (v in ToggleEach(cfg, s, vs).marks <==> v in s.marks)
    decreases |vs|
  {
    if vs != [] {
      var v, u := vs[0], Toggled(cfg, s, vs[0]);
      assert v in vs && v !in vs[1..];
      HandledKeeps(options, cfg, s, v !in s.marks, v);
      ToggledOne(options, cfg, s, v);
      ToggleIsPass(options, cfg, u, vs[1..]);
      PassGrows(vs, s, u, ToggleEach(cfg, u, vs[1..]), cfg.max);
    }
  }

  /** From s to t, the marks of the values have changed by a pass, and the number selected with them. */
  predicate IsPass(vs: seq<Value>, s: State, t: State, max: nat) {
    && Bits(vs, t.marks) == Pass(Bits(vs, s.marks), |s.values|, max)
    && |t.values| == |s.values| - Count(Bits(vs, s.marks)) + Count(Bits(vs, t.marks))
  }

  lemma PassGrows(vs: seq<Value>, s: State, u: State, t: State, max: nat)
    requires vs != [] && vs[0] !in vs[1..] && IsPass(vs[1..], u, t, max)
    requires vs[0] in u.marks <==> vs[0] !in s.marks && |s.values| < max
    requires forall w :: w != vs[0] ==> (w in u.marks <==> w in s.marks)
    requires |u.values| == |s.values| - (if vs[0] in s.marks then 1 else 0) + (if vs[0] in u.marks then 1 else 0)
    requires vs[0] in t.marks <==> vs[0] in u.marks
    ensures IsPass(vs, s, t, max)
  {
    BitsTail(vs, s.marks);
    BitsTail(vs, t.marks);
    SameBits(vs[1..], s.marks, u.marks);
    PassHead(Bits(vs, s.marks), |s.values|, max, Bits(vs, t.marks));
  }

  lemma PassHead(b: seq<bool>, c: int, max: nat, r: seq<bool>)
    requires |r| == |b| > 0
    requires r[0] == (!b[0] && c < max)
    requires r[1..] == Pass(b[1..], if b[0] then c - 1 else if c < max then c + 1 else c, max)
    ensures r == Pass(b, c, max)
  {
    assert r == [r[0]] + r[1..];
  }

  /** How many marked options a reversal does not look at. */
  function Outside(options: seq<Option>, s: State, skipDis: bool): nat {
    |Having(s.values, set v | v in Eligible(options, skipDis), false)|
  }

  lemma {:induction false} SameLength(a: seq<Value>, b: seq<Value>)
    requires NoRepeats(a) && NoRepeats(b) && forall v :: v in a <==> v in b
    ensures |a| == |b|
    decreases |a|
  {
    assert b != [] ==> b[0] in b;
    if a != [] {
      assert a[0] in a && forall v :: v in a <==> v == a[0] || v in a[1..];
      assert a[0] !in a[1..];
      RemoveFirstIs(b, a[0]);
      SameLength(a[1..], RemoveFirst(b, a[0]));
    }
  }

  lemma {:induction false} HavingSplits(vs: seq<Value>, marks: set<Value>)
    ensures |vs| == |Having(vs, marks, true)| + |Having(vs, marks, false)|
  {
    if vs != [] {
      HavingSplits(vs[1..], marks);
    }
  }

  lemma {:induction false} CountIsHaving(vs: seq<Value>, marks: set<Value>)
    ensures Count(Bits(vs, marks)) == |Having(vs, marks, true)|
  {
    if vs != [] {
      BitsTail(vs, marks);
      CountIsHaving(vs[1..], marks);
    }
  }

  /** The selected values are those outside and the marked ones among those looked at. */
  lemma ValuesCount(options: seq<Option>, cfg: Config, s: State, skipDis: bool)
    requires DistinctOptions(options) && Inv(options, cfg, s)
    ensures |s.values| == Outside(options, s, skipDis) + Count(Bits(Eligible(options, skipDis), s.marks))
  {
    var vs := Eligible(options, skipDis);
    var looked := set v | v in vs;
    EligibleAreOptions(options, skipDis);
    HavingSplits(s.values, looked);
    HavingIs(s.values, looked, true);
    HavingIs(vs, s.marks, true);
    SameLength(Having(s.values, looked, true), Having(vs, s.marks, true));
    CountIsHaving(vs, s.marks);
  }

  lemma MarksByBits(vs: seq<Value>, a: set<Value>, b: set<Value>)
    requires forall v :: v !in vs ==> (v in a <==> v in b)
    ensures a == b <==> Bits(vs, a) == Bits(vs, b)
  {
    if Bits(vs, a) == Bits(vs, b) {
      forall v ensures v in a <==> v in b {
        if v in vs {
          var i :| 0 <= i < |vs| && vs[i] == v;
          assert Bits(vs, a)[i] == Bits(vs, b)[i];
        }
      }
    }
  }

  /** In multiple mode, reversing twice restores the selection exactly when there is no maximum, or the
      options not looked at fill it, or there is room for every option when its turn comes. */
  lemma ReverseTwiceIff(options: seq<Option>, cfg: Config, s: State, skipDis: bool)
    requires DistinctOptions(options) && Inv(options, cfg, s) && WithinMax(cfg, s) && !cfg.radio
    ensures Reversed(options, cfg, Reversed(options, cfg, s, skipDis), skipDis).marks == s.marks <==>
            || cfg.max == 0
            || RoomForAll(Bits(Eligible(options, skipDis), s.marks), Outside(options, s, skipDis), cfg.max)
  {
    if cfg.max == 0 {
      ReverseTwice(options, cfg, s, skipDis);
    } else {
      var vs, k := Eligible(options, skipDis), Outside(options, s, skipDis);
      EligibleAreOptions(options, skipDis);
      ValuesCount(options, cfg, s, skipDis);
      ToggleTwice(options, cfg, s, vs, k, RoomForAll(Bits(vs, s.marks), k, cfg.max));
    }
  }

  lemma ToggleTwice(options: seq<Option>, cfg: Config, s: State, vs: seq<Value>, k: nat, room: bool)
    requires Inv(options, cfg, s) && WithinMax(cfg, s) && !cfg.radio && cfg.max > 0
    requires NoRepeats(vs) && AllOptions(options, vs) && |s.values| == k + Count(Bits(vs, s.marks))
    requires room == RoomForAll(Bits(vs, s.marks), k, cfg.max)
    ensures room == (ToggleEach(cfg, ToggleEach(cfg, s, vs), vs).marks == s.marks)
  {
    var t := ToggleEach(cfg, s, vs);
    ToggleIsPass(options, cfg, s, vs);
    ToggleEachKeeps(options, cfg, s, vs);
    ToggleIsPass(options, cfg, t, vs);
    TwiceByBits(vs, s.marks, t.marks, ToggleEach(cfg, t, vs).marks, k, cfg.max, room);
  }

  lemma TwiceByBits(vs: seq<Value>, s: set<Value>, t: set<Value>, u: set<Value>, k: nat, max: nat, room: bool)
    requires k + Count(Bits(vs, s)) <= max && room == RoomForAll(Bits(vs, s), k, max)
    requires Bits(vs, t) == Pass(Bits(vs, s), k + Count(Bits(vs, s)), max)
    requires Bits(vs, u) == Pass(Bits(vs, t), k + Count(Bits(vs, t)), max)
    requires forall v :: v !in vs ==> (v in t <==> v in s) && (v in u <==> v in t)
    ensures room == (u == s)
  {
    TwoPasses(Bits(vs, s), k, max, room);
    MarksByBits(vs, u, s);
  }

  // ---------------------------------------------------------------- in radio mode

  lemma {:induction false} RadioPass(options: seq<Option>, cfg: Config, s: State, vs: seq<Value>)
    requires Inv(options, cfg, s) && cfg.radio && cfg.max != 1 && NoRepeats(vs) && AllOptions(options, vs) && vs != []
    ensures ToggleEach(cfg, s, vs).values == if s.values == vs then [] else [vs[|vs| - 1]]
    decreases |vs|
  {
    var v, tail, u := vs[0], vs[1..], Toggled(cfg, s, vs[0]);
    HandledKeeps(options, cfg, s, v !in s.marks, v);
    assert s.values != [] ==> s.values == [s.values[0]] && s.values[0] in s.values;
    assert v in vs && v !in tail;
    if tail == [] {
      assert vs == [v];
    } else {
      assert u.values == [] || u.values == [v];
      assert tail[0] in tail;
      RadioPass(options, cfg, u, tail);
    }
  }

  /** With a maximum of 1: a selected option gives way to the next one, and anything else keeps its place;
      with nothing selected the first option is. */
  lemma {:induction false} RadioPassFull(options: seq<Option>, cfg: Config, s: State, vs: seq<Value>, j: nat)
    requires Inv(options, cfg, s) && cfg.radio && cfg.max == 1 && NoRepeats(vs) && AllOptions(options, vs)
    requires j <= |vs| && (j < |vs| ==> s.values == [vs[j]]) && (j == |vs| ==> s.values != [] && s.values[0] !in vs)
    ensures ToggleEach(cfg, s, vs).values ==
            if j == |vs| then s.values else if j + 1 < |vs| then [vs[j + 1]] else []
    decreases j
  {
    if vs != [] {
      var v, tail, u := vs[0], vs[1..], Toggled(cfg, s, vs[0]);
      HandledKeeps(options, cfg, s, v !in s.marks, v);
      assert v in vs && v !in tail;
      if 0 < j {
        assert j < |vs| ==> vs[j] == tail[j - 1];
        assert v !in s.values;
        RadioPassFull(options, cfg, s, tail, j - 1);
      } else {
        assert v in s.values && u.values == [];
        RadioPassEmpty(options, cfg, u, tail);
      }
    }
  }

  lemma RadioPassEmpty(options: seq<Option>, cfg: Config, s: State, vs: seq<Value>)
    requires Inv(options, cfg, s) && cfg.radio && cfg.max == 1 && NoRepeats(vs) && AllOptions(options, vs)
    requires s.values == []
    ensures ToggleEach(cfg, s, vs).values == if vs == [] then [] else [vs[0]]
  {
    if vs != [] {
      var v, tail := vs[0], vs[1..];
      var u := Toggled(cfg, s, v);
      assert v in vs && v !in tail && u == State([v], {v});
      FullKeeps(cfg, u, tail);
    }
  }

  lemma {:induction false} FullKeeps(cfg: Config, s: State, vs: seq<Value>)
    requires Full(cfg, s) && forall v :: v in vs ==> v !in s.marks
    ensures ToggleEach(cfg, s, vs) == s
    decreases |vs|
  {
    if vs != [] {
      assert vs[0] in vs;
      FullKeeps(cfg, s, vs[1..]);
    }
  }

  lemma SameSelection(options: seq<Option>, cfg: Config, s: State, t: State)
    requires Inv(options, cfg, s) && Inv(options, cfg, t) && cfg.radio
    ensures s.marks == t.marks <==> s.values == t.values
  {
    assert s.values != [] ==> s.values == [s.values[0]] && s.values[0] in s.values;
    assert t.values != [] ==> t.values == [t.values[0]] && t.values[0] in t.values;
    if s.values == t.values {
      assert forall v :: v in s.marks <==> v in t.marks;
    }
  }

  /** What a caller can check in radio mode: nothing is looked at; or an option that is not looked at is
      selected and the maximum is 1; or otherwise a single option is looked at, or the last one is selected
      and the maximum is not 1. */
  predicate RadioComesBack(cfg: Config, selected: seq<Value>, vs: seq<Value>) {
    || vs == []
    || (if selected != [] && selected[0] !in vs then cfg.max == 1
        else |vs| == 1 || (cfg.max != 1 && selected == [vs[|vs| - 1]]))
  }

  /** In radio mode, reversing twice restores the selection exactly in those cases. */
  lemma ReverseTwiceRadioIff(options: seq<Option>, cfg: Config, s: State, skipDis: bool)
    requires DistinctOptions(options) && Inv(options, cfg, s) && cfg.radio
    ensures Reversed(options, cfg, Reversed(options, cfg, s, skipDis), skipDis).marks == s.marks <==>
            RadioComesBack(cfg, s.values, Eligible(options, skipDis))
  {
    var vs := Eligible(options, skipDis);
    EligibleAreOptions(options, skipDis);
    RadioTwice(options, cfg, s, vs, RadioComesBack(cfg, s.values, vs));
  }

  lemma RadioTwice(options: seq<Option>, cfg: Config, s: State, vs: seq<Value>, back: bool)
    requires Inv(options, cfg, s) && cfg.radio && NoRepeats(vs) && AllOptions(options, vs)
    requires back == RadioComesBack(cfg, s.values, vs)
    ensures back == (ToggleEach(cfg, ToggleEach(cfg, s, vs), vs).marks == s.marks)
  {
    var t := ToggleEach(cfg, s, vs);
    ToggleEachKeeps(options, cfg, s, vs);
    ToggleEachKeeps(options, cfg, t, vs);
    SameSelection(options, cfg, ToggleEach(cfg, t, vs), s);
    if vs != [] {
      if cfg.max != 1 {
        RadioPass(options, cfg, s, vs);
        RadioPass(options, cfg, t, vs);
      } else {
        RadioTwiceFull(options, cfg, s, vs);
      }
    }
  }

  lemma RadioTwiceFull(options: seq<Option>, cfg: Config, s: State, vs: seq<Value>)
    requires Inv(options, cfg, s) && cfg.radio && cfg.max == 1 && NoRepeats(vs) && AllOptions(options, vs) && vs != []
    ensures ToggleEach(cfg, ToggleEach(cfg, s, vs), vs).values == s.values <==>
            if s.values != [] && s.values[0] !in vs then true else |vs| == 1
  {
    var t := ToggleEach(cfg, s, vs);
    ToggleEachKeeps(options, cfg, s, vs);
    if s.values == [] {
      RadioPassEmpty(options, cfg, s, vs);
      RadioPassFull(options, cfg, t, vs, 0);
    } else if s.values[0] !in vs {
      RadioPassFull(options, cfg, s, vs, |vs|);
      RadioPassFull(options, cfg, t, vs, |vs|);
    } else {
      var j: nat :| j < |vs| && vs[j] == s.values[0];
      assert s.values == [vs[j]];
      RadioPassFull(options, cfg, s, vs, j);
      if j + 1 < |vs| {
        RadioPassFull(options, cfg, t, vs, j + 1);
      } else {
        RadioPassEmpty(options, cfg, t, vs);
      }
    }
  }
}
