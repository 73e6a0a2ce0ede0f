/**
 The multi-level select: options in levels, of which the leaves are selected, and a mark on every
 option on the way to a selected leaf. The marks carry no counters: removing a selection finds out from
 the marks below whether another selection still passes through an option.
 */
module LinkageSelect {

  import opened Lists

  type Value = string

  /** A selected value is a path of option values, one a level (joined by '/' in the source). */
  type Path = seq<Value>

  /** One level of options: from an option's value, distinct on its level, to its parent's value. */
  type Level = map<Value, Value>

  predicate HasOption(levels: seq<Level>, k: nat, v: Value) {
    k < |levels| && v in levels[k]
  }

  predicate IsChild(levels: seq<Level>, k: nat, parent: Value, v: Value) {
    HasOption(levels, k + 1, v) && levels[k + 1][v] == parent
  }

  ghost predicate IsPath(levels: seq<Level>, p: Path) {
    && p != []
    && (forall k :: 0 <= k < |p| ==> HasOption(levels, k, p[k]))
    && (forall k :: 0 < k < |p| ==> HasOption(levels, k, p[k]) && levels[k][p[k]] == p[k - 1])
  }

  ghost predicate IsLeaf(levels: seq<Level>, k: nat, v: Value) {
    forall w :: !IsChild(levels, k, v, w)
  }

  ghost predicate IsLeafPath(levels: seq<Level>, p: Path) {
    IsPath(levels, p) && IsLeaf(levels, |p| - 1, p[|p| - 1])
  }

  lemma {:induction false} SameAbove(levels: seq<Level>, p: Path, q: Path, k: nat)
    requires IsPath(levels, p) && IsPath(levels, q) && k < |p| && k < |q| && p[k] == q[k]
    ensures p[..k + 1] == q[..k + 1]
    decreases k
  {
    if k == 0 {
      assert p[..1] == [p[0]] && q[..1] == [q[0]];
    } else {
      SameAbove(levels, p, q, k - 1);
      assert p[..k + 1] == p[..k] + [p[k]] && q[..k + 1] == q[..k] + [q[k]];
    }
  }

  lemma EndsTogether(levels: seq<Level>, p: Path, q: Path, k: nat)
    requires IsLeafPath(levels, p) && IsLeafPath(levels, q)
    requires k < |p| && k + 1 == |q| && p[k] == q[k]
    ensures p == q
  {
    SameAbove(levels, p, q, k);
    if k + 1 == |p| {
      assert p == p[..k + 1] && q == q[..k + 1];
    } else {
      assert IsChild(levels, k, q[k], p[k + 1]);
    }
  }

  /** Another leaf's path through an option of a leaf's path goes on below that option. */
  lemma OthersGoOn(levels: seq<Level>, p: Path, q: Path, k: nat)
    requires IsLeafPath(levels, p) && IsLeafPath(levels, q) && p != q
    requires k < |p| && k < |q| && p[k] == q[k]
    ensures k + 1 < |q| && IsChild(levels, k, p[k], q[k + 1])
  {
    if k + 1 == |q| {
      EndsTogether(levels, p, q, k);
    } else {
      assert levels[k + 1][q[k + 1]] == q[k];
    }
  }

  // ---------------------------------------------------------------- selections and marks

  type Mark = (nat, Value)

  datatype State = State(values: seq<Path>, marks: set<Mark>)

  ghost predicate Passes(values: seq<Path>, k: nat, v: Value) {
    exists p :: p in values && k < |p| && p[k] == v
  }

  /** The marks are exactly the options on the paths of the selected values. */
  ghost predicate Faithful(values: seq<Path>, marks: set<Mark>) {
    forall k: nat, v: Value :: (k, v) in marks <==> Passes(values, k, v)
  }

  ghost predicate Inv(levels: seq<Level>, s: State) {
    && (forall p :: p in s.values ==> IsLeafPath(levels, p))
    && NoRepeats(s.values)
    && Faithful(s.values, s.marks)
  }

  // ---------------------------------------------------------------- adding

  predicate AllOptions(levels: seq<Level>, vs: Path, n: nat)
    requires n <= |vs|
  {
    forall k :: 0 <= k < n ==> HasOption(levels, k, vs[k])
  }

  function PathMarks(vs: Path): set<Mark> {
    set k | 0 <= k < |vs| :: (k, vs[k])
  }

  /** A path is marked as a whole, and only when every option on it exists. */
  function AddMarks(levels: seq<Level>, marks: set<Mark>, vs: Path): set<Mark> {
    if AllOptions(levels, vs, |vs|) then marks + PathMarks(vs) else marks
  }

  lemma AddKeepsFaithful(levels: seq<Level>, values: seq<Path>, marks: set<Mark>, p: Path)
    requires Faithful(values, marks) && IsPath(levels, p)
    ensures Faithful(values + [p], AddMarks(levels, marks, p))
  {
    var now := AddMarks(levels, marks, p);
    forall k: nat, v: Value ensures (k, v) in now <==> Passes(values + [p], k, v) {
      if (k, v) in marks {
        var q :| q in values && k < |q| && q[k] == v;
        assert q in values + [p];
      } else if (k, v) in PathMarks(p) {
        assert p in values + [p];
      }
      if Passes(values + [p], k, v) {
        var q :| q in values + [p] && k < |q| && q[k] == v;
        assert q in values || q == p;
      }
    }
  }

  // ---------------------------------------------------------------- removing

  predicate HasMarkedChild(levels: seq<Level>, marks: set<Mark>, k: nat, parent: Value) {
    exists m :: m in marks && m.0 == k + 1 && IsChild(levels, k, parent, m.1)
  }

  function UnmarkAt(levels: seq<Level>, marks: set<Mark>, vs: Path, k: nat): set<Mark>
    requires k < |vs|
  {
    if HasMarkedChild(levels, marks, k, vs[k]) then marks else marks - {(k, vs[k])}
  }

  /** From level n - 1 up to the top, an option of the path loses its mark when no child of it is marked. */
  function DelMarks(levels: seq<Level>, marks: set<Mark>, vs: Path, n: nat): set<Mark>
    requires n <= |vs|
  {
    if n == 0 || !HasOption(levels, n - 1, vs[n - 1]) then marks
    else DelMarks(levels, UnmarkAt(levels, marks, vs, n - 1), vs, n - 1)
  }

  /** The marks below level n of the path p are already those without p. */
  ghost predicate HalfWay(values: seq<Path>, rest: seq<Path>, marks: set<Mark>, p: Path, n: nat) {
    forall k: nat, v: Value ::
      (k, v) in marks <==> Passes(if n <= k < |p| && v == p[k] then rest else values, k, v)
  }

  ghost predicate Without(values: seq<Path>, rest: seq<Path>, p: Path) {
    forall q :: q in rest <==> q in values && q != p
  }

  ghost predicate LeafPaths(levels: seq<Level>, values: seq<Path>) {
    forall q :: q in values ==> IsLeafPath(levels, q)
  }

  /** An option of the path has a marked child exactly when another selected path passes through it. */
  lemma MarkedChildMeans(levels: seq<Level>, values: seq<Path>, rest: seq<Path>, marks: set<Mark>, p: Path, k: nat)
    requires LeafPaths(levels, values) && p in values && Without(values, rest, p)
    requires k < |p| && HalfWay(values, rest, marks, p, k + 1)
    ensures HasMarkedChild(levels, marks, k, p[k]) <==> Passes(rest, k, p[k])
  {
    if HasMarkedChild(levels, marks, k, p[k]) {
      var m :| m in marks && m.0 == k + 1 && IsChild(levels, k, p[k], m.1);
      assert (k + 1, m.1) in marks;
      ChildIsOnOther(levels, values, rest, p, k, m.1);
    }
    if Passes(rest, k, p[k]) {
      var q :| q in rest && k < |q| && q[k] == p[k];
      OthersGoOn(levels, p, q, k);
      assert Passes(rest, k + 1, q[k + 1]) && Passes(values, k + 1, q[k + 1]);
      var m := (k + 1, q[k + 1]);
      assert m in marks && IsChild(levels, k, p[k], m.1);
    }
  }

  lemma ChildIsOnOther(levels: seq<Level>, values: seq<Path>, rest: seq<Path>, p: Path, k: nat, v: Value)
    requires LeafPaths(levels, values) && p in values && Without(values, rest, p)
    requires k < |p| && IsChild(levels, k, p[k], v)
    requires Passes(if k + 1 < |p| && v == p[k + 1] then rest else values, k + 1, v)
    ensures Passes(rest, k, p[k])
  {
    var list := if k + 1 < |p| && v == p[k + 1] then rest else values;
    var q :| q in list && k + 1 < |q| && q[k + 1] == v;
    assert q in values && levels[k + 1][q[k + 1]] == q[k];
    assert q in rest;
  }

  lemma HalfWayStep(levels: seq<Level>, values: seq<Path>, rest: seq<Path>, marks: set<Mark>, p: Path, k: nat)
    requires LeafPaths(levels, values) && p in values && Without(values, rest, p)
    requires k < |p| && HalfWay(values, rest, marks, p, k + 1)
    ensures HalfWay(values, rest, UnmarkAt(levels, marks, p, k), p, k)
  {
    var now := UnmarkAt(levels, marks, p, k);
    MarkedChildMeans(levels, values, rest, marks, p, k);
    assert Passes(values, k, p[k]);
    forall i: nat, v: Value
      ensures (i, v) in now <==> Passes(if k <= i < |p| && v == p[i] then rest else values, i, v)
    {
      if i != k || v != p[k] {
        assert (i, v) in now <==> (i, v) in marks;
      }
    }
  }

  lemma {:induction false} DelRemovesPath(levels: seq<Level>, values: seq<Path>, rest: seq<Path>,
                                          marks: set<Mark>, p: Path, n: nat)
    requires LeafPaths(levels, values) && p in values && Without(values, rest, p)
    requires n <= |p| && HalfWay(values, rest, marks, p, n)
    ensures Faithful(rest, DelMarks(levels, marks, p, n))
    decreases n
  {
    if n == 0 {
      HalfWayEnd(values, rest, marks, p);
    } else {
      OnPathExists(levels, values, p, n - 1);
      HalfWayStep(levels, values, rest, marks, p, n - 1);
      DelRemovesPath(levels, values, rest, UnmarkAt(levels, marks, p, n - 1), p, n - 1);
    }
  }

  lemma OnPathExists(levels: seq<Level>, values: seq<Path>, p: Path, k: nat)
    requires LeafPaths(levels, values) && p in values && k < |p|
    ensures HasOption(levels, k, p[k])
  {
  }

  lemma HalfWayEnd(values: seq<Path>, rest: seq<Path>, marks: set<Mark>, p: Path)
    requires Without(values, rest, p) && HalfWay(values, rest, marks, p, 0)
    ensures Faithful(rest, marks)
  {
    forall k: nat, v: Value ensures (k, v) in marks <==> Passes(rest, k, v) {
      PassesRest(values, rest, p, k, v);
    }
  }

  lemma PassesRest(values: seq<Path>, rest: seq<Path>, p: Path, k: nat, v: Value)
    requires Without(values, rest, p)
    ensures Passes(rest, k, v) ==> Passes(values, k, v)
    ensures !(k < |p| && v == p[k]) ==> (Passes(values, k, v) ==> Passes(rest, k, v))
  {
    if Passes(values, k, v) && !(k < |p| && v == p[k]) {
      var q :| q in values && k < |q| && q[k] == v;
      assert q in rest;
    }
  }

  /** `linkageDel` unmarks an option exactly when no remaining selection passes through it. */
  lemma DelKeepsFaithful(levels: seq<Level>, values: seq<Path>, rest: seq<Path>, marks: set<Mark>, p: Path)
    requires LeafPaths(levels, values) && p in values && Without(values, rest, p) && Faithful(values, marks)
    ensures Faithful(rest, DelMarks(levels, marks, p, |p|))
  {
    DelRemovesPath(levels, values, rest, marks, p, |p|);
  }

  lemma {:induction false} DelOfNone(levels: seq<Level>, p: Path, n: nat)
    requires n <= |p|
    ensures DelMarks(levels, {}, p, n) == {}
    decreases n
  {
    if n > 0 {
      assert UnmarkAt(levels, {}, p, n - 1) == {};
      DelOfNone(levels, p, n - 1);
    }
  }

  // ---------------------------------------------------------------- one call

  /** A maximum of 0 stands for none. */
  datatype Config = Config(radio: bool, max: nat)

  /** A call that returns early: adding beyond the maximum, or the page's own callback refuses. */
  predicate Vetoed(cfg: Config, s: State, isAdd: bool, refused: bool) {
    (isAdd && cfg.max > 0 && |s.values| >= cfg.max) || refused
  }

  /** `handlerLabel` for a path. */
  function Handled(cfg: Config, levels: seq<Level>, s: State, isAdd: bool, p: Path, refused: bool): State {
    if Vetoed(cfg, s, isAdd, refused) then s
    else if isAdd then State((if cfg.radio then [] else s.values) + [p], AddMarks(levels, s.marks, p))
    else State(RemoveFirst(s.values, p), DelMarks(levels, s.marks, p, |p|))
  }

  /** A click on the leaf at the end of a path. In radio mode the marks go first. */
  function Clicked(cfg: Config, levels: seq<Level>, s: State, p: Path, refused: bool): State
    requires p != []
  {
    var isAdd := (|p| - 1, p[|p| - 1]) !in s.marks;
    Handled(cfg, levels, if cfg.radio then s.(marks := {}) else s, isAdd, p, refused)
  }

  predicate Bounded(cfg: Config, s: State) {
    && (cfg.radio ==> |s.values| <= 1)
    && (cfg.max > 0 ==> |s.values| <= cfg.max)
  }

  /** A leaf is marked exactly when its path is selected. */
  lemma LeafMarkedIff(levels: seq<Level>, s: State, p: Path)
    requires Inv(levels, s) && IsLeafPath(levels, p)
    ensures (|p| - 1, p[|p| - 1]) in s.marks <==> p in s.values
  {
    var k := |p| - 1;
    if p in s.values {
      assert Passes(s.values, k, p[k]);
    }
    if Passes(s.values, k, p[k]) {
      var q :| q in s.values && k < |q| && q[k] == p[k];
      EndsTogether(levels, q, p, k);
    }
  }

  lemma AddKeeps(cfg: Config, levels: seq<Level>, s: State, p: Path)
    requires Inv(levels, s) && IsLeafPath(levels, p) && p !in s.values
    ensures Inv(levels, State(s.values + [p], AddMarks(levels, s.marks, p)))
  {
    AddKeepsFaithful(levels, s.values, s.marks, p);
    var now := s.values + [p];
    forall q | q in now ensures IsLeafPath(levels, q) {
      assert q in s.values || q == p;
    }
    forall i, j | 0 <= i < j < |now| ensures now[i] != now[j] {
      assert now[i] in s.values;
    }
  }

  lemma RemoveKeeps(levels: seq<Level>, s: State, p: Path)
    requires Inv(levels, s) && p in s.values
    ensures Inv(levels, State(RemoveFirst(s.values, p), DelMarks(levels, s.marks, p, |p|)))
  {
    RemoveFirstIs(s.values, p);
    DelKeepsFaithful(levels, s.values, RemoveFirst(s.values, p), s.marks, p);
  }

  lemma NothingSelected(levels: seq<Level>)
    ensures Inv(levels, State([], {}))
  {
  }

  lemma UnmarkedIsUnfaithful(levels: seq<Level>, s: State)
    requires Inv(levels, s) && s.values != []
    ensures !Faithful(s.values, {})
  {
    var p := s.values[0];
    assert IsLeafPath(levels, p) && Passes(s.values, 0, p[0]);
  }

  /** A click keeps the marks right, except in radio mode when it is refused while something is
      selected: the marks are gone by then, the selection is not. */
  lemma ClickKeepsIff(cfg: Config, levels: seq<Level>, s: State, p: Path, refused: bool)
    requires Inv(levels, s) && Bounded(cfg, s) && IsLeafPath(levels, p)
    ensures Inv(levels, Clicked(cfg, levels, s, p, refused)) <==>
            !(cfg.radio && s.values != [] && Vetoed(cfg, s, p !in s.values, refused))
    ensures Bounded(cfg, Clicked(cfg, levels, s, p, refused))
  {
    LeafMarkedIff(levels, s, p);
    var isAdd := p !in s.values;
    RemoveFirstIs(s.values, p);
    if Vetoed(cfg, s, isAdd, refused) {
      if s.values != [] {
        UnmarkedIsUnfaithful(levels, s);
      } else {
        MarksNeedValues(s);
      }
    } else if cfg.radio {
      if isAdd {
        NothingSelected(levels);
        AddKeeps(cfg, levels, State([], {}), p);
      } else {
        DelOfNone(levels, p, |p|);
        assert RemoveFirst(s.values, p) == [];
      }
    } else if isAdd {
      AddKeeps(cfg, levels, s, p);
    } else {
      RemoveKeeps(levels, s, p);
    }
  }

  /** The refused click, reached from nothing selected: in radio mode with a maximum of 1, selecting one leaf
      and clicking another leaves the first one selected with no option marked. */
  lemma RefusedClickLosesMarks(levels: seq<Level>, p: Path, q: Path)
    requires IsLeafPath(levels, p) && IsLeafPath(levels, q) && p != q
    ensures var cfg := Config(true, 1);
      var first := Clicked(cfg, levels, State([], {}), p, false);
      var second := Clicked(cfg, levels, first, q, false);
      && first == State([p], PathMarks(p)) && Inv(levels, first)
      && second == State([p], {}) && !Inv(levels, second)
  {
    var cfg := Config(true, 1);
    NothingSelected(levels);
    AddKeeps(cfg, levels, State([], {}), p);
    assert [] + [p] == [p] && {} + PathMarks(p) == PathMarks(p);
    var first := State([p], PathMarks(p));
    LeafMarkedIff(levels, first, q);
    UnmarkedIsUnfaithful(levels, first);
  }

  lemma MarksNeedValues(s: State)
    requires Faithful(s.values, s.marks)
    ensures s.marks != {} ==> s.values != []
  {
    if s.marks != {} {
      var m :| m in s.marks;
      assert (m.0, m.1) in s.marks;
      var p :| p in s.values && m.0 < |p| && p[m.0] == m.1;
    }
  }

  /** Removing a selection by its label. */
  lemma CloseKeeps(cfg: Config, levels: seq<Level>, s: State, p: Path, refused: bool)
    requires Inv(levels, s) && Bounded(cfg, s) && p in s.values
    ensures Inv(levels, Handled(cfg, levels, s, false, p, refused))
    ensures Bounded(cfg, Handled(cfg, levels, s, false, p, refused))
  {
    RemoveKeeps(levels, s, p);
    RemoveFirstIs(s.values, p);
  }

  // ---------------------------------------------------------------- runs

  datatype Event = Click(p: Path, refused: bool) | Close(p: Path, refused: bool)

  /** What a user can do; in radio mode, short of a refused click that would lose the marks. */
  ghost predicate Enabled(cfg: Config, levels: seq<Level>, s: State, e: Event) {
    match e
    case Click(p, refused) =>
      IsLeafPath(levels, p) && !(cfg.radio && s.values != [] && Vetoed(cfg, s, p !in s.values, refused))
    case Close(p, _) => p in s.values
  }

  function Step(cfg: Config, levels: seq<Level>, s: State, e: Event): State
    requires e.Click? ==> e.p != []
  {
    match e
    case Click(p, refused) => Clicked(cfg, levels, s, p, refused)
    case Close(p, refused) => Handled(cfg, levels, s, false, p, refused)
  }

  ghost predicate Run(cfg: Config, levels: seq<Level>, s: State, events: seq<Event>)
    decreases |events|
  {
    events != [] ==>
      && Enabled(cfg, levels, s, events[0])
      && Run(cfg, levels, Step(cfg, levels, s, events[0]), events[1..])
  }

  ghost function End(cfg: Config, levels: seq<Level>, s: State, events: seq<Event>): State
    requires Run(cfg, levels, s, events)
    decreases |events|
  {
    if events == [] then s else End(cfg, levels, Step(cfg, levels, s, events[0]), events[1..])
  }

  /** After every run, the marks are exactly the options on the paths to the selected leaves, no leaf is
      selected twice, and no more leaves are selected than allowed. */
  lemma {:induction false} RunKeeps(cfg: Config, levels: seq<Level>, s: State, events: seq<Event>)
    requires Inv(levels, s) && Bounded(cfg, s) && Run(cfg, levels, s, events)
    ensures Inv(levels, End(cfg, levels, s, events)) && Bounded(cfg, End(cfg, levels, s, events))
    decreases |events|
  {
    if events != [] {
      match events[0] {
        case Click(p, refused) => ClickKeepsIff(cfg, levels, s, p, refused);
        case Close(p, refused) => CloseKeeps(cfg, levels, s, p, refused);
      }
      RunKeeps(cfg, levels, Step(cfg, levels, s, events[0]), events[1..]);
    }
  }

  /** In multiple mode, clicking a leaf twice restores the selection's marks. */
  lemma ClickTwice(cfg: Config, levels: seq<Level>, s: State, p: Path)
    requires Inv(levels, s) && Bounded(cfg, s) && IsLeafPath(levels, p) && !cfg.radio && p !in s.values
    requires !Vetoed(cfg, s, true, false)
    ensures Clicked(cfg, levels, Clicked(cfg, levels, s, p, false), p, false) == s
  {
    LeafMarkedIff(levels, s, p);
    var t := Clicked(cfg, levels, s, p, false);
    ClickKeepsIff(cfg, levels, s, p, false);
    LeafMarkedIff(levels, t, p);
    var u := Clicked(cfg, levels, t, p, false);
    RemoveFirstAt(t.values, p, |s.values|);
    assert u.values == s.values;
    ClickKeepsIff(cfg, levels, t, p, false);
    SameMarks(s.values, s.marks, u.marks);
  }

  lemma SameMarks(values: seq<Path>, a: set<Mark>, b: set<Mark>)
    requires Faithful(values, a) && Faithful(values, b)
    ensures a == b
  {
    forall m: Mark ensures m in a <==> m in b {
      assert (m.0, m.1) in a <==> Passes(values, m.0, m.1);
    }
  }

  // ---------------------------------------------------------------- the widget

  /** What the rendering makes of nested options: every option's parent is on the level above. */
  ghost predicate ParentsExist(levels: seq<Level>) {
    forall k, v :: 0 < k < |levels| && v in levels[k] ==> levels[k][v] in levels[k - 1]
  }

  /** A path's options from a level down. */
  ghost predicate IsPathFrom(levels: seq<Level>, level: nat, vs: Path) {
    && vs != []
    && (forall i :: 0 <= i < |vs| ==> HasOption(levels, level + i, vs[i]))
    && (forall i :: 0 < i < |vs| ==> HasOption(levels, level + i, vs[i]) && levels[level + i][vs[i]] == vs[i - 1])
  }

  lemma PathUp(levels: seq<Level>, level: nat, vs: Path)
    requires ParentsExist(levels) && level > 0 && IsPathFrom(levels, level, vs)
    ensures HasOption(levels, level, vs[0]) && IsPathFrom(levels, level - 1, [levels[level][vs[0]]] + vs)
  {
    var up := [levels[level][vs[0]]] + vs;
    assert HasOption(levels, level + 0, vs[0]);
    forall i | 0 <= i < |up| ensures HasOption(levels, level - 1 + i, up[i]) {
      if i > 0 {
        assert HasOption(levels, level + (i - 1), vs[i - 1]);
      }
    }
    forall i | 0 < i < |up|
      ensures HasOption(levels, level - 1 + i, up[i]) && levels[level - 1 + i][up[i]] == up[i - 1]
    {
      assert up[i] == vs[i - 1];
      assert HasOption(levels, level + (i - 1), vs[i - 1]);
    }
  }

  class Select {
    const cfg: Config
    const levels: seq<Level>
    var values: seq<Path>
    var marks: set<Mark>

    constructor (cfg: Config, levels: seq<Level>)
      ensures this.cfg == cfg && this.levels == levels && Now() == State([], {})
    {
      this.cfg, this.levels, this.values, this.marks := cfg, levels, [], {};
    }

    function Now(): State
      reads this
    {
      State(values, marks)
    }

    /** `linkageAdd`: looks the path's options up level by level, and marks them if all are found. */
    method LinkageAdd(vs: Path)
      modifies this`marks
      ensures marks == AddMarks(levels, old(marks), vs)
    {
      var index: nat := 0;
      while index < |vs| && HasOption(levels, index, vs[index])
        invariant index <= |vs| && AllOptions(levels, vs, index)
      {
        index := index + 1;
      }
      if index == |vs| {
        marks := marks + PathMarks(vs);
      }
    }

    /** `linkageDel`: from the leaf up. */
    method LinkageDel(vs: Path)
      modifies this`marks
      ensures marks == DelMarks(levels, old(marks), vs, |vs|)
    {
      var n: nat := |vs|;
      while n > 0 && HasOption(levels, n - 1, vs[n - 1])
        invariant n <= |vs|
        invariant DelMarks(levels, marks, vs, n) == DelMarks(levels, old(marks), vs, |vs|)
      {
        n := n - 1;
        if !HasMarkedChild(levels, marks, n, vs[n]) {
          marks := marks - {(n, vs[n])};
        }
      }
    }

    method Remove(p: Path)
      modifies this`values
      ensures values == RemoveFirst(old(values), p)
    {
      var i: nat := 0;
      while i < |values| && values[i] != p
        invariant i <= |values| && forall j :: 0 <= j < i ==> values[j] != p
      {
        i := i + 1;
      }
      RemoveFirstAt(values, p, i);
      if i < |values| {
        values := values[..i] + values[i + 1..];
      }
    }

    method HandlerLabel(isAdd: bool, p: Path, refused: bool)
      modifies this`values, this`marks
      ensures Now() == Handled(cfg, levels, old(Now()), isAdd, p, refused)
    {
      if isAdd && cfg.max > 0 && |values| >= cfg.max {
        return;
      }
      if refused {
        return;
      }
      if isAdd {
        LinkageAdd(p);
        if cfg.radio {
          values := [];
        }
        values := values + [p];
      } else {
        LinkageDel(p);
        Remove(p);
      }
    }

    /** From the clicked option up through the parents, and the result reversed. */
    method PathTo(k: nat, v: Value) returns (vs: Path)
      requires ParentsExist(levels) && HasOption(levels, k, v)
      ensures IsPath(levels, vs) && |vs| == k + 1 && vs[k] == v
    {
      vs := [v];
      var level: nat := k;
      while level > 0
        invariant level <= k && |vs| == k + 1 - level && vs[k - level] == v
        invariant IsPathFrom(levels, level, vs)
      {
        PathUp(levels, level, vs);
        vs := [levels[level][vs[0]]] + vs;
        level := level - 1;
      }
    }

    /** A click on the option v of level k, which has nothing below it. */
    method ClickLeaf(k: nat, v: Value, refused: bool) returns (ghost p: Path)
      requires ParentsExist(levels) && HasOption(levels, k, v) && IsLeaf(levels, k, v)
      modifies this`values, this`marks
      ensures IsLeafPath(levels, p) && |p| == k + 1 && p[k] == v
      ensures Now() == Clicked(cfg, levels, old(Now()), p, refused)
    {
      var isAdd := (k, v) !in marks;
      if cfg.radio {
        marks := {};
      }
      var path := PathTo(k, v);
      p := path;
      HandlerLabel(isAdd, path, refused);
    }
  }
}
