/**
 The multi-select without levels: the list of selected values, kept in step with the marks on the
 options, and the shortcuts that select all, remove all and reverse.
 */
module FlatSelect {

  import opened Lists

  type Value = string

  /** An option of the list; values are distinct. A disabled option takes no clicks. */
  datatype Option = Option(value: Value, disabled: bool)

  /** A maximum of 0 stands for none. */
  datatype Config = Config(radio: bool, max: nat)

  datatype State = State(values: seq<Value>, marks: set<Value>)

  predicate DistinctOptions(options: seq<Option>) {
    forall i, j :: 0 <= i < j < |options| ==> options[i].value != options[j].value
  }

  predicate IsOption(options: seq<Option>, v: Value) {
    exists i :: 0 <= i < |options| && options[i].value == v
  }

  /** The values are the marked options, each once; in radio mode there is at most one. */
  ghost predicate Inv(options: seq<Option>, cfg: Config, s: State) {
    && NoRepeats(s.values)
    && (forall v :: v in s.marks <==> v in s.values)
    && (forall v :: v in s.marks ==> IsOption(options, v))
    && (cfg.radio ==> |s.values| <= 1)
  }

  predicate WithinMax(cfg: Config, s: State) {
    cfg.max > 0 ==> |s.values| <= cfg.max
  }

  // ---------------------------------------------------------------- one option

  predicate Full(cfg: Config, s: State) {
    cfg.max > 0 && |s.values| >= cfg.max
  }

  /** `handlerLabel` for an option of the list, with no callback that refuses. */
  function Handled(cfg: Config, s: State, isAdd: bool, v: Value): State {
    if isAdd && Full(cfg, s) then s
    else if !isAdd then State(RemoveFirst(s.values, v), s.marks - {v})
    else if cfg.radio then State([v], {v})
    else State(s.values + [v], s.marks + {v})
  }

  function Toggled(cfg: Config, s: State, v: Value): State {
    Handled(cfg, s, v !in s.marks, v)
  }

  lemma HandledKeeps(options: seq<Option>, cfg: Config, s: State, isAdd: bool, v: Value)
    requires Inv(options, cfg, s) && IsOption(options, v) && (isAdd ==> v !in s.marks)
    ensures Inv(options, cfg, Handled(cfg, s, isAdd, v))
    ensures WithinMax(cfg, s) ==> WithinMax(cfg, Handled(cfg, s, isAdd, v))
  {
    if !isAdd {
      RemoveFirstIs(s.values, v);
    } else if !cfg.radio {
      var now := s.values + [v];
      assert forall w :: w in now <==> w in s.values || w == v;
    }
  }

  // ---------------------------------------------------------------- the shortcuts

  /** The options a shortcut looks at, in the order of the list. */
  function Eligible(options: seq<Option>, skipDis: bool): seq<Value> {
    if options == [] then []
    else if skipDis && options[0].disabled then Eligible(options[1..], skipDis)
    else [options[0].value] + Eligible(options[1..], skipDis)
  }

  /** Those of the values that are not marked (want is false) or marked (want is true). */
  function Having(vs: seq<Value>, marks: set<Value>, want: bool): seq<Value> {
    if vs == [] then []
    else if (vs[0] in marks) == want then [vs[0]] + Having(vs[1..], marks, want)
    else Having(vs[1..], marks, want)
  }

  function AddEach(cfg: Config, s: State, vs: seq<Value>): State
    decreases |vs|
  {
    if vs == [] then s else AddEach(cfg, Handled(cfg, s, true, vs[0]), vs[1..])
  }

  function RemoveEach(cfg: Config, s: State, vs: seq<Value>): State
    decreases |vs|
  {
    if vs == [] then s else RemoveEach(cfg, Handled(cfg, s, false, vs[0]), vs[1..])
  }

  function ToggleEach(cfg: Config, s: State, vs: seq<Value>): State
    decreases |vs|
  {
    if vs == [] then s else ToggleEach(cfg, Toggled(cfg, s, vs[0]), vs[1..])
  }

  function SelectedAll(options: seq<Option>, cfg: Config, s: State, skipDis: bool): State {
    AddEach(cfg, s, Having(Eligible(options, skipDis), s.marks, false))
  }

  function RemovedAll(options: seq<Option>, cfg: Config, s: State, skipDis: bool): State {
    RemoveEach(cfg, s, if skipDis then Having(s.values, DisabledOf(options), false) else s.values)
  }

  function Reversed(options: seq<Option>, cfg: Config, s: State, skipDis: bool): State {
    ToggleEach(cfg, s, Eligible(options, skipDis))
  }

  function DisabledOf(options: seq<Option>): set<Value> {
    set o | o in options && o.disabled :: o.value
  }

  /** An option with this value that the shortcut looks at. */
  predicate LooksAt(options: seq<Option>, skipDis: bool, v: Value) {
    exists i :: 0 <= i < |options| && options[i].value == v && !(skipDis && options[i].disabled)
  }

  lemma LooksAtStep(options: seq<Option>, skipDis: bool, v: Value)
    requires options != []
    ensures LooksAt(options, skipDis, v) <==>
            (options[0].value == v && !(skipDis && options[0].disabled)) || LooksAt(options[1..], skipDis, v)
    ensures DistinctOptions(options) ==> DistinctOptions(options[1..])
    ensures DistinctOptions(options) && LooksAt(options[1..], skipDis, v) ==> v != options[0].value
  {
    var tail := options[1..];
    assert forall i :: 0 <= i < |tail| ==> tail[i] == options[i + 1];
    if LooksAt(options, skipDis, v) {
      var i :| 0 <= i < |options| && options[i].value == v && !(skipDis && options[i].disabled);
      if i > 0 {
        assert tail[i - 1] == options[i];
      }
    }
    if LooksAt(tail, skipDis, v) {
      var i :| 0 <= i < |tail| && tail[i].value == v && !(skipDis && tail[i].disabled);
      assert options[i + 1] == tail[i];
    }
  }

  lemma {:induction false} EligibleIs(options: seq<Option>, skipDis: bool)
    requires DistinctOptions(options)
    ensures NoRepeats(Eligible(options, skipDis)) && |Eligible(options, skipDis)| <= |options|
    ensures forall v :: v in Eligible(options, skipDis) <==> LooksAt(options, skipDis, v)
  {
    if options != [] {
      var tail := options[1..];
      LooksAtStep(options, skipDis, options[0].value);
      EligibleIs(tail, skipDis);
      forall v ensures v in Eligible(options, skipDis) <==> LooksAt(options, skipDis, v) {
        LooksAtStep(options, skipDis, v);
      }
    }
  }

  lemma {:induction false} HavingIs(vs: seq<Value>, marks: set<Value>, want: bool)
    requires NoRepeats(vs)
    ensures NoRepeats(Having(vs, marks, want)) && |Having(vs, marks, want)| <= |vs|
    ensures forall v :: v in Having(vs, marks, want) <==> v in vs && (v in marks) == want
  {
    if vs != [] {
      var tail := vs[1..];
      assert forall v :: v in vs <==> v == vs[0] || v in tail;
      assert vs[0] !in tail;
      HavingIs(tail, marks, want);
    }
  }

  predicate AllOptions(options: seq<Option>, vs: seq<Value>) {
    forall v :: v in vs ==> IsOption(options, v)
  }

  function Min(a: nat, b: nat): nat { if a <= b then a else b }

  lemma {:induction false} AddEachKeeps(options: seq<Option>, cfg: Config, s: State, vs: seq<Value>)
    requires Inv(options, cfg, s) && NoRepeats(vs) && AllOptions(options, vs)
    requires forall v :: v in vs ==> v !in s.marks
    ensures Inv(options, cfg, AddEach(cfg, s, vs))
    ensures WithinMax(cfg, s) ==> WithinMax(cfg, AddEach(cfg, s, vs))
    decreases |vs|
  {
    if vs != [] {
      var v, tail := vs[0], vs[1..];
      assert v in vs && v !in tail;
      HandledKeeps(options, cfg, s, true, v);
      AddEachKeeps(options, cfg, Handled(cfg, s, true, v), tail);
    }
  }

  /** How many more values fit. */
  function Room(cfg: Config, n: nat): nat {
    if n >= cfg.max then 0 else cfg.max - n
  }

  /** In multiple mode as many of the values as fit are appended, in order. */
  lemma {:induction false} AddEachAppends(cfg: Config, s: State, vs: seq<Value>, n: nat)
    requires !cfg.radio && n == if cfg.max == 0 then |vs| else Min(Room(cfg, |s.values|), |vs|)
    ensures AddEach(cfg, s, vs).values == s.values + vs[..n]
    decreases |vs|
  {
    if vs != [] {
      if Full(cfg, s) {
        AddEachAppends(cfg, s, vs[1..], 0);
      } else {
        AddEachAppends(cfg, Handled(cfg, s, true, vs[0]), vs[1..], n - 1);
        assert vs[..n] == [vs[0]] + vs[1..][..n - 1];
        assert s.values + vs[..n] == (s.values + [vs[0]]) + vs[1..][..n - 1];
      }
    }
  }

  /** In radio mode the last of the values wins; with a maximum of 1 the first does, or what is selected
      already. */
  lemma {:induction false} AddEachRadio(cfg: Config, s: State, vs: seq<Value>)
    requires cfg.radio && vs != [] && |s.values| <= 1
    ensures AddEach(cfg, s, vs).values ==
            if cfg.max != 1 then [vs[|vs| - 1]] else if s.values == [] then [vs[0]] else s.values
    decreases |vs|
  {
    var t := Handled(cfg, s, true, vs[0]);
    if cfg.max == 1 {
      AddEachFull(cfg, t, vs[1..]);
    } else if |vs| > 1 {
      AddEachRadio(cfg, t, vs[1..]);
    }
  }

  lemma {:induction false} AddEachFull(cfg: Config, s: State, vs: seq<Value>)
    requires Full(cfg, s)
    ensures AddEach(cfg, s, vs) == s
    decreases |vs|
  {
    if vs != [] {
      AddEachFull(cfg, s, vs[1..]);
    }
  }

  lemma {:induction false} RemoveEachIs(options: seq<Option>, cfg: Config, s: State, vs: seq<Value>)
    requires Inv(options, cfg, s) && NoRepeats(vs) && forall v :: v in vs ==> v in s.marks
    ensures Inv(options, cfg, RemoveEach(cfg, s, vs))
    ensures forall v :: v in RemoveEach(cfg, s, vs).marks <==> v in s.marks && v !in vs
    ensures |RemoveEach(cfg, s, vs).values| == |s.values| - |vs|
    decreases |vs|
  {
    if vs != [] {
      var v, tail := vs[0], vs[1..];
      assert v in vs && v !in tail;
      assert forall w :: w in vs <==> w == v || w in tail;
      HandledKeeps(options, cfg, s, false, v);
      RemoveFirstIs(s.values, v);
      RemoveEachIs(options, cfg, Handled(cfg, s, false, v), tail);
    }
  }

  lemma {:induction false} ToggleEachKeeps(options: seq<Option>, cfg: Config, s: State, vs: seq<Value>)
    requires Inv(options, cfg, s) && AllOptions(options, vs)
    ensures Inv(options, cfg, ToggleEach(cfg, s, vs))
    ensures WithinMax(cfg, s) ==> WithinMax(cfg, ToggleEach(cfg, s, vs))
    decreases |vs|
  {
    if vs != [] {
      HandledKeeps(options, cfg, s, vs[0] !in s.marks, vs[0]);
      ToggleEachKeeps(options, cfg, Toggled(cfg, s, vs[0]), vs[1..]);
    }
  }

  /** A maximum that the options can never reach. */
  predicate Roomy(options: seq<Option>, cfg: Config) {
    !cfg.radio && (cfg.max == 0 || cfg.max >= |options|)
  }

  lemma {:induction false} CountOptions(options: seq<Option>, values: seq<Value>)
    requires NoRepeats(values) && AllOptions(options, values)
    ensures |values| <= |options|
    decreases |options|
  {
    assert values != [] ==> values[0] in values && IsOption(options, values[0]);
    if options != [] {
      var v, rest := options[0].value, RemoveFirst(values, options[0].value);
      RemoveFirstIs(values, v);
      forall w | w in rest ensures IsOption(options[1..], w) {
        var i :| 0 <= i < |options| && options[i].value == w;
        assert options[1..][i - 1] == options[i];
      }
      CountOptions(options[1..], rest);
    }
  }

  /** An unmarked option always fits. */
  lemma NeverFull(options: seq<Option>, cfg: Config, s: State, v: Value)
    requires Inv(options, cfg, s) && Roomy(options, cfg) && IsOption(options, v) && v !in s.marks
    ensures !Full(cfg, s)
  {
    var more := s.values + [v];
    forall w | w in more ensures IsOption(options, w) {
      assert w in s.values || w == v;
    }
    CountOptions(options, more);
  }

  lemma {:induction false} ToggleEachFlips(options: seq<Option>, cfg: Config, s: State, vs: seq<Value>)
    requires Inv(options, cfg, s) && Roomy(options, cfg) && NoRepeats(vs) && AllOptions(options, vs)
    ensures forall v :: v in ToggleEach(cfg, s, vs).marks <==> (v in s.marks) != (v in vs)
    decreases |vs|
  {
    if vs != [] {
      var v, tail, t := vs[0], vs[1..], Toggled(cfg, s, vs[0]);
      assert v in vs && v !in tail;
      assert forall w :: w in vs <==> w == v || w in tail;
      HandledKeeps(options, cfg, s, v !in s.marks, v);
      if v !in s.marks {
        NeverFull(options, cfg, s, v);
      }
      ToggleEachFlips(options, cfg, t, tail);
    }
  }

  lemma EligibleAreOptions(options: seq<Option>, skipDis: bool)
    requires DistinctOptions(options)
    ensures NoRepeats(Eligible(options, skipDis)) && AllOptions(options, Eligible(options, skipDis))
  {
    EligibleIs(options, skipDis);
  }

  // ---------------------------------------------------------------- the shortcuts as a whole

  lemma NewOnes(options: seq<Option>, cfg: Config, s: State, vs: seq<Value>)
    requires Inv(options, cfg, s) && NoRepeats(vs) && AllOptions(options, vs)
    requires forall v :: v in vs ==> v !in s.marks
    ensures NoRepeats(s.values + vs) && AllOptions(options, s.values + vs)
  {
    var more := s.values + vs;
    forall i, j | 0 <= i < j < |more| ensures more[i] != more[j] {
      if i < |s.values| <= j {
        assert more[i] in s.values && more[j] in vs;
      }
    }
    assert forall v :: v in more ==> v in s.values || v in vs;
  }

  /** Selecting all: afterwards every option looked at is marked, if there is room for all of them. */
  lemma SelectAllMarks(options: seq<Option>, cfg: Config, s: State, skipDis: bool)
    requires DistinctOptions(options) && Inv(options, cfg, s)
    ensures var t := SelectedAll(options, cfg, s, skipDis);
      && Inv(options, cfg, t) && (WithinMax(cfg, s) ==> WithinMax(cfg, t))
      && (Roomy(options, cfg) ==> forall v :: v in t.marks <==> v in s.marks || LooksAt(options, skipDis, v))
  {
    var all := Eligible(options, skipDis);
    EligibleAreOptions(options, skipDis);
    EligibleIs(options, skipDis);
    HavingIs(all, s.marks, false);
    var vs := Having(all, s.marks, false);
    AddEachKeeps(options, cfg, s, vs);
    if Roomy(options, cfg) {
      var n := if cfg.max == 0 then |vs| else Min(Room(cfg, |s.values|), |vs|);
      var more := s.values + vs;
      NewOnes(options, cfg, s, vs);
      CountOptions(options, more);
      AddEachAppends(cfg, s, vs, n);
      assert vs[..n] == vs;
      assert forall v :: v in more <==> v in s.values || v in vs;
    }
  }

  /** Removing all: only the marked options that are disabled stay, and only when they are to be skipped. */
  lemma RemoveAllUnmarks(options: seq<Option>, cfg: Config, s: State, skipDis: bool)
    requires Inv(options, cfg, s)
    ensures var t := RemovedAll(options, cfg, s, skipDis);
      && Inv(options, cfg, t) && (WithinMax(cfg, s) ==> WithinMax(cfg, t))
      && forall v :: v in t.marks <==> v in s.marks && skipDis && v in DisabledOf(options)
  {
    HavingIs(s.values, DisabledOf(options), false);
    RemoveEachIs(options, cfg, s, if skipDis then Having(s.values, DisabledOf(options), false) else s.values);
  }

  /** Reversing flips every option looked at, when there is room for all of them. */
  lemma ReverseFlips(options: seq<Option>, cfg: Config, s: State, skipDis: bool)
    requires DistinctOptions(options) && Inv(options, cfg, s)
    ensures var t := Reversed(options, cfg, s, skipDis);
      && Inv(options, cfg, t) && (WithinMax(cfg, s) ==> WithinMax(cfg, t))
      && (Roomy(options, cfg) ==> forall v :: v in t.marks <==> (v in s.marks) != LooksAt(options, skipDis, v))
  {
    EligibleAreOptions(options, skipDis);
    EligibleIs(options, skipDis);
    ToggleEachKeeps(options, cfg, s, Eligible(options, skipDis));
    if Roomy(options, cfg) {
      ToggleEachFlips(options, cfg, s, Eligible(options, skipDis));
    }
  }

  /** Reversing twice selects what was selected before. */
  lemma ReverseTwice(options: seq<Option>, cfg: Config, s: State, skipDis: bool)
    requires DistinctOptions(options) && Inv(options, cfg, s) && Roomy(options, cfg)
    ensures Reversed(options, cfg, Reversed(options, cfg, s, skipDis), skipDis).marks == s.marks
  {
    ReverseFlips(options, cfg, s, skipDis);
    ReverseFlips(options, cfg, Reversed(options, cfg, s, skipDis), skipDis);
  }

  /** With a maximum below the number of options, reversing twice can lose a selection. */
  lemma ReverseTwiceNeedsRoom(a: Value, b: Value)
    requires a != b
    ensures var options, cfg, s := [Option(a, false), Option(b, false)], Config(false, 1), State([b], {b});
      && DistinctOptions(options) && Inv(options, cfg, s) && WithinMax(cfg, s)
      && Reversed(options, cfg, Reversed(options, cfg, s, false), false).marks == {a}
  {
    var options, cfg, s := [Option(a, false), Option(b, false)], Config(false, 1), State([b], {b});
    assert options[1].value == b;
    assert options[1..] == [Option(b, false)] && Eligible(options[1..], false) == [b];
    assert Eligible(options, false) == [a, b];
    TogglePair(cfg, s, a, b);
    assert [b][1..] == [] && {b} - {b} == {};
    assert Toggled(cfg, s, a) == s && Toggled(cfg, s, b) == State([], {});
    TogglePair(cfg, State([], {}), a, b);
    assert [] + [a] == [a] && {} + {a} == {a};
    assert Toggled(cfg, State([], {}), a) == State([a], {a}) && Toggled(cfg, State([a], {a}), b) == State([a], {a});
  }

  lemma TogglePair(cfg: Config, s: State, a: Value, b: Value)
    ensures ToggleEach(cfg, s, [a, b]) == Toggled(cfg, Toggled(cfg, s, a), b)
  {
    assert [a, b][1..] == [b];
    assert ToggleEach(cfg, Toggled(cfg, s, a), [b]) == Toggled(cfg, Toggled(cfg, s, a), b);
  }

  // ---------------------------------------------------------------- runs

  datatype Event = Click(v: Value) | Close(v: Value) | SelectAll(skipDis: bool) | RemoveAll(skipDis: bool)
                 | Reverse(skipDis: bool)

  predicate Enabled(options: seq<Option>, s: State, e: Event) {
    match e
    case Click(v) => LooksAt(options, true, v)
    case Close(v) => v in s.values && v !in DisabledOf(options)
    case _ => true
  }

  function Step(options: seq<Option>, cfg: Config, s: State, e: Event): State {
    match e
    case Click(v) => Toggled(cfg, s, v)
    case Close(v) => Handled(cfg, s, false, v)
    case SelectAll(skipDis) => SelectedAll(options, cfg, s, skipDis)
    case RemoveAll(skipDis) => RemovedAll(options, cfg, s, skipDis)
    case Reverse(skipDis) => Reversed(options, cfg, s, skipDis)
  }

  predicate Run(options: seq<Option>, cfg: Config, s: State, events: seq<Event>)
    decreases |events|
  {
    events != [] ==> Enabled(options, s, events[0]) && Run(options, cfg, Step(options, cfg, s, events[0]), events[1..])
  }

  function End(options: seq<Option>, cfg: Config, s: State, events: seq<Event>): State
    decreases |events|
  {
    if events == [] then s else End(options, cfg, Step(options, cfg, s, events[0]), events[1..])
  }

  lemma StepKeeps(options: seq<Option>, cfg: Config, s: State, e: Event)
    requires DistinctOptions(options) && Inv(options, cfg, s) && Enabled(options, s, e)
    ensures Inv(options, cfg, Step(options, cfg, s, e))
    ensures WithinMax(cfg, s) ==> WithinMax(cfg, Step(options, cfg, s, e))
  {
    match e
    case Click(v) => HandledKeeps(options, cfg, s, v !in s.marks, v);
    case Close(v) => HandledKeeps(options, cfg, s, false, v);
    case SelectAll(skipDis) => SelectAllMarks(options, cfg, s, skipDis);
    case RemoveAll(skipDis) => RemoveAllUnmarks(options, cfg, s, skipDis);
    case Reverse(skipDis) => ReverseFlips(options, cfg, s, skipDis);
  }

  /** Along every run the values are the marked options, each once, at most one in radio mode; and their
      number stays within the maximum. */
  lemma {:induction false} RunKeeps(options: seq<Option>, cfg: Config, s: State, events: seq<Event>)
    requires DistinctOptions(options) && Inv(options, cfg, s) && Run(options, cfg, s, events)
    ensures Inv(options, cfg, End(options, cfg, s, events))
    ensures WithinMax(cfg, s) ==> WithinMax(cfg, End(options, cfg, s, events))
    decreases |events|
  {
    if events != [] {
      StepKeeps(options, cfg, s, events[0]);
      RunKeeps(options, cfg, Step(options, cfg, s, events[0]), events[1..]);
    }
  }

  // ---------------------------------------------------------------- the widget

  class Select {
    const options: seq<Option>
    const cfg: Config
    var values: seq<Value>
    var marks: set<Value>

    constructor (options: seq<Option>, cfg: Config)
      requires DistinctOptions(options)
      ensures this.options == options && this.cfg == cfg && Now() == State([], {}) && Inv(options, cfg, Now())
    {
      this.options, this.cfg, this.values, this.marks := options, cfg, [], {};
    }

    function Now(): State
      reads this
    {
      State(values, marks)
    }

    method Remove(v: Value)
      modifies this`values
      ensures values == RemoveFirst(old(values), v)
    {
      var i: nat := 0;
      while i < |values| && values[i] != v
        invariant i <= |values| && forall j :: 0 <= j < i ==> values[j] != v
      {
        i := i + 1;
      }
      RemoveFirstAt(values, v, i);
      if i < |values| {
        values := values[..i] + values[i + 1..];
      }
    }

    /** The option gets its mark first; in radio mode the label then clears the list and the other marks. */
    method HandlerLabel(isAdd: bool, v: Value)
      modifies this`values, this`marks
      ensures Now() == Handled(cfg, old(Now()), isAdd, v)
    {
      if isAdd && cfg.max > 0 && |values| >= cfg.max {
        return;
      }
      if isAdd {
        marks := marks + {v};
        if cfg.radio {
          values := [];
          marks := set w | w in marks && w == v;
        }
        values := values + [v];
      } else {
        marks := marks - {v};
        Remove(v);
      }
    }

    /** The unmarked options are found first, and then added one by one. */
    method SelectAll(skipDis: bool)
      modifies this`values, this`marks
      ensures Now() == SelectedAll(options, cfg, old(Now()), skipDis)
    {
      var found := Having(Eligible(options, skipDis), marks, false);
      for i := 0 to |found|
        invariant AddEach(cfg, Now(), found[i..]) == AddEach(cfg, old(Now()), found)
      {
        HandlerLabel(true, found[i]);
      }
    }

    /** A copy of the list is gone through, since the list itself shrinks. */
    method RemoveAll(skipDis: bool)
      modifies this`values, this`marks
      ensures Now() == RemovedAll(options, cfg, old(Now()), skipDis)
    {
      var copy := values;
      for i := 0 to |copy|
        invariant RemoveEach(cfg, Now(), Kept(skipDis, copy[i..])) == RemoveEach(cfg, old(Now()), Kept(skipDis, copy))
      {
        assert copy[i..][1..] == copy[i + 1..];
        if !(skipDis && copy[i] in DisabledOf(options)) {
          HandlerLabel(false, copy[i]);
        }
      }
    }

    function Kept(skipDis: bool, vs: seq<Value>): seq<Value> {
      if skipDis then Having(vs, DisabledOf(options), false) else vs
    }

    /** Whether an option is marked is looked up when its turn comes. */
    method Reverse(skipDis: bool)
      modifies this`values, this`marks
      ensures Now() == Reversed(options, cfg, old(Now()), skipDis)
    {
      var found := Eligible(options, skipDis);
      for i := 0 to |found|
        invariant ToggleEach(cfg, Now(), found[i..]) == ToggleEach(cfg, old(Now()), found)
      {
        HandlerLabel(found[i] !in marks, found[i]);
      }
    }
  }
}
