/**
 A condition appended to a caller's wrapper, as optimistic locking appends the version: exactly when the
 whole condition of the statement implies it.
 */
module VersionGuard {

  import opened ConditionParsing
  import opened Options
  import opened Segments
  import opened Sql
  import Conditions
  import FluentWrapper
  import LogicDelete
  import Placeholders
  import Templates
  import H = WrapperHistory

  type Atom = Templates.Atom

  // ---------------------------------------------------------------- where the last condition stands

  /** No OR_NEW, and no plain OR since the last AND_NEW; `open` says whether there was one before. */
  predicate Guarded(ps: seq<Part>, open: bool) {
    if ps == [] then !open
    else
      match ps[0]
      case Joint(COrNew) => false
      case Joint(CAndNew) => Guarded(ps[1..], false)
      case Joint(COr) => Guarded(ps[1..], true)
      case _ => Guarded(ps[1..], open)
  }

  predicate Has(ps: seq<Part>, k: Conditions.Conn) {
    ps != [] && (ps[0] == Joint(k) || Has(ps[1..], k))
  }

  predicate HasJoint(ps: seq<Part>) {
    ps != [] && (ps[0].Joint? || HasJoint(ps[1..]))
  }

  predicate EveryOrIsClosed(ps: seq<Part>) {
    ps != [] ==>
      && (ps[0] == Joint(Conditions.COr) ==> Has(ps[1..], Conditions.CAndNew))
      && EveryOrIsClosed(ps[1..])
  }

  /** That is: no OR_NEW anywhere, and an AND_NEW somewhere after every plain OR. */
  lemma {:induction false} GuardedMeans(ps: seq<Part>, open: bool)
    ensures Guarded(ps, open) <==>
            && !Has(ps, Conditions.COrNew)
            && (open ==> Has(ps, Conditions.CAndNew))
            && EveryOrIsClosed(ps)
    decreases |ps|
  {
    if ps != [] {
      GuardedMeans(ps[1..], if ps[0] == Joint(Conditions.COr) then true
                            else if ps[0] == Joint(Conditions.CAndNew) then false else open);
    }
  }

  lemma {:induction false} GuardedAppend(ps: seq<Part>, open: bool, text: string)
    ensures Guarded(ps + [Cond(text)], open) == Guarded(ps, open)
  {
    if ps == [] {
      assert [] + [Cond(text)] == [Cond(text)];
      assert [Cond(text)][1..] == [];
    } else {
      assert (ps + [Cond(text)])[1..] == ps[1..] + [Cond(text)];
      GuardedAppend(ps[1..], if ps[0] == Joint(Conditions.COr) then true
                             else if ps[0] == Joint(Conditions.CAndNew) then false else open, text);
    }
  }

  /** The groups one by one. */
  lemma {:induction false} GroupGuarded(ps: seq<Part>, open: bool)
    requires FirstGroup(ps).Some?
    ensures match FirstGroup(ps).value.1
      case None => Guarded(ps, open) <==> !open && !Has(ps, Conditions.COr)
      case Some((isOr, rest)) => Guarded(ps, open) <==> !isOr && Guarded(rest, false)
    decreases |ps|
  {
    if |ps| > 1 {
      var sub := ps[HeadSize(ps)..];
      assert ps[1..][1..] == ps[2..];
      if ps[1] != Joint(Conditions.CAndNew) && ps[1] != Joint(Conditions.COrNew) {
        GroupGuarded(sub, open || ps[1] == Joint(Conditions.COr));
      }
    }
  }

  // ---------------------------------------------------------------- what the groups imply

  /** Every condition with a connective somewhere after it is true. */
  predicate TrueBefore(ps: seq<Part>, v: string -> bool) {
    ps != [] ==> (ps[0].Cond? && HasJoint(ps[1..]) ==> v(ps[0].text)) && TrueBefore(ps[1..], v)
  }

  /** Every condition with no connective after it is true. */
  predicate TrueAfter(ps: seq<Part>, v: string -> bool) {
    ps != [] ==> (ps[0].Cond? && !HasJoint(ps[1..]) ==> v(ps[0].text)) && TrueAfter(ps[1..], v)
  }

  lemma {:induction false} HasIsJoint(ps: seq<Part>, k: Conditions.Conn)
    ensures Has(ps, k) ==> HasJoint(ps)
  {
    if ps != [] {
      HasIsJoint(ps[1..], k);
    }
  }

  /** A group that an OR splits, or that another group follows, holds if what stands before the last
      connective does. */
  lemma {:induction false} GroupHead(ps: seq<Part>, v: string -> bool)
    requires FirstGroup(ps).Some? && TrueBefore(ps, v)
    requires FirstGroup(ps).value.1.Some? || Has(ps, Conditions.COr)
    ensures HeadHolds(FirstGroup(ps).value.0, v) && HasJoint(ps)
    decreases |ps|
  {
    var c := Leaf(ps[0].text);
    assert Holds(c, v) <==> v(ps[0].text);
    assert |ps| > 1;
    if ps[1] == Joint(Conditions.CAnd) || ps[1].Cond? {
      assert ps[1..][1..] == ps[2..];
      GroupHead(ps[HeadSize(ps)..], v);
    }
  }

  /** A group without OR implies all its conditions. */
  lemma {:induction false} GroupTail(ps: seq<Part>, v: string -> bool)
    requires FirstGroup(ps).Some? && FirstGroup(ps).value.1.None? && !Has(ps, Conditions.COr)
    ensures !TailHolds(FirstGroup(ps).value.0, v)
    ensures HeadHolds(FirstGroup(ps).value.0, v) ==> TrueAfter(ps, v)
    decreases |ps|
  {
    assert Holds(Leaf(ps[0].text), v) <==> v(ps[0].text);
    if |ps| > 1 {
      assert ps[1..][1..] == ps[2..];
      GroupTail(ps[HeadSize(ps)..], v);
    }
  }

  lemma {:induction false} TrueBeforeRest(ps: seq<Part>, v: string -> bool)
    requires FirstGroup(ps).Some? && FirstGroup(ps).value.1.Some?
    ensures var rest := FirstGroup(ps).value.1.value.1;
      && HasJoint(ps)
      && (TrueBefore(ps, v) ==> TrueBefore(rest, v))
      && (TrueAfter(rest, v) ==> TrueAfter(ps, v))
    decreases |ps|
  {
    assert |ps| > 1 && ps[1..][1..] == ps[2..];
    assert TrueBefore(ps[1..], v) ==> TrueBefore(ps[2..], v);
    assert ps[1].Joint? && TrueAfter(ps[2..], v) ==> TrueAfter(ps[1..], v);
    if ps[1] != Joint(Conditions.CAndNew) && ps[1] != Joint(Conditions.COrNew) {
      TrueBeforeRest(ps[HeadSize(ps)..], v);
    }
  }

  lemma LinkHolds<A>(isOr: bool, e: Expr<A>, c: Chain<A>, v: A -> bool)
    ensures !isOr && ChainHolds(Link(isOr, e, c), v) ==> ChainHolds(c, v)
    ensures Holds(e, v) && (isOr || ChainHolds(c, v)) ==> ChainHolds(Link(isOr, e, c), v)
  {
    var l := Link(isOr, e, c);
    assert HeadHolds(l, v) <==> Holds(e, v) && (isOr || HeadHolds(c, v));
    assert TailHolds(l, v) <==> if isOr then HeadHolds(c, v) || TailHolds(c, v) else TailHolds(c, v);
  }

  /** Guarded parts imply every condition after their last connective. */
  lemma {:induction false} GuardedImplies(ps: seq<Part>, v: string -> bool)
    requires Meaning(ps).Some? && Guarded(ps, false) && ChainHolds(Meaning(ps).value, v)
    ensures TrueAfter(ps, v)
    decreases |ps|
  {
    GroupGuarded(ps, false);
    var g := FirstGroup(ps).value;
    assert Holds(Group(g.0), v) <==> ChainHolds(g.0, v);
    match g.1 {
      case None =>
        GroupTail(ps, v);
        assert HeadHolds(Meaning(ps).value, v) <==> Holds(Group(g.0), v);
      case Some((_, rest)) =>
        LinkHolds(false, Group(g.0), Meaning(rest).value, v);
        GuardedImplies(rest, v);
        TrueBeforeRest(ps, v);
    }
  }

  /** Other parts hold as soon as everything before the last connective does. */
  lemma {:induction false} OpenHolds(ps: seq<Part>, v: string -> bool)
    requires Meaning(ps).Some? && !Guarded(ps, false) && TrueBefore(ps, v)
    ensures ChainHolds(Meaning(ps).value, v)
    decreases |ps|
  {
    GroupGuarded(ps, false);
    GroupHead(ps, v);
    var g := FirstGroup(ps).value;
    assert Holds(Group(g.0), v) <==> ChainHolds(g.0, v);
    if g.1.Some? {
      TrueBeforeRest(ps, v);
      var (isOr, rest) := g.1.value;
      LinkHolds(isOr, Group(g.0), Meaning(rest).value, v);
      if !isOr {
        OpenHolds(rest, v);
      }
    } else {
      assert HeadHolds(Meaning(ps).value, v) <==> Holds(Group(g.0), v);
    }
  }

  // ---------------------------------------------------------------- behind the comparisons of the query

  /** What a valuation of the query's atoms says of the wrapper's units. */
  function Units(v: Atom -> bool): string -> bool { s => v(Templates.Opaque(s)) }

  lemma {:induction false} HoldsAsAtom(e: Expr<string>, v: Atom -> bool)
    ensures Holds(AsAtom(e), v) <==> Holds(e, Units(v))
    decreases e, 0
  {
    if e.Group? {
      HoldsAsAtoms(e.body, v);
    }
  }

  lemma {:induction false} HoldsAsAtoms(c: Chain<string>, v: Atom -> bool)
    ensures HeadHolds(AsAtoms(c), v) <==> HeadHolds(c, Units(v))
    ensures TailHolds(AsAtoms(c), v) <==> TailHolds(c, Units(v))
    ensures ChainHolds(AsAtoms(c), v) <==> ChainHolds(c, Units(v))
    decreases c, 0
  {
    HoldsAsAtom(c.first, v);
    if !c.One? {
      HoldsAsAtoms(c.rest, v);
    }
  }

  predicate AllTrue(front: seq<Atom>, v: Atom -> bool) {
    forall i :: 0 <= i < |front| ==> v(front[i])
  }

  lemma {:induction false} JoinedHolds(first: Atom, atoms: seq<Atom>, isOr: bool, c: Chain<Atom>, v: Atom -> bool)
    ensures var j := JoinedTo(first, atoms, isOr, c);
      && (!isOr && ChainHolds(j, v) ==> ChainHolds(c, v))
      && (v(first) && AllTrue(atoms, v) && (isOr || ChainHolds(c, v)) ==> ChainHolds(j, v))
    decreases |atoms|
  {
    assert Holds(Leaf(first), v) <==> v(first);
    if atoms == [] {
      LinkHolds(isOr, Leaf(first), c, v);
    } else {
      var rest := JoinedTo(atoms[0], atoms[1..], isOr, c);
      JoinedHolds(atoms[0], atoms[1..], isOr, c, v);
      LinkHolds(false, Leaf(first), rest, v);
    }
  }

  lemma CombinedHolds(front: seq<Atom>, isOr: bool, c: Chain<Atom>, v: Atom -> bool)
    ensures var all := Combined(front, isOr, c);
      && ((front == [] || !isOr) && ChainHolds(all, v) ==> ChainHolds(c, v))
      && (AllTrue(front, v) && ((front != [] && isOr) || ChainHolds(c, v)) ==> ChainHolds(all, v))
  {
    if front != [] {
      JoinedHolds(front[0], front[1..], isOr, c, v);
      assert AllTrue(front, v) ==> v(front[0]) && AllTrue(front[1..], v);
    }
  }

  /** What a caller can check: the segment starts with AND, or nothing stands before it; there is no OR_NEW;
      and no plain OR stands in the last group. */
  predicate Guards(front: seq<Atom>, isOr: bool, ps: seq<Part>) {
    (front == [] || !isOr) && Guarded(ps, false)
  }

  /** The condition of a statement implies the appended one, whatever is true of the other conditions,
      exactly when the caller's connectives guard it. */
  lemma GuardIff(front: seq<Atom>, isOr: bool, ps: seq<Part>, added: string)
    requires Meaning(ps + [Cond(added)]).Some?
    requires Cond(added) !in ps && Templates.Opaque(added) !in front
    ensures var c := Combined(front, isOr, AsAtoms(Meaning(ps + [Cond(added)]).value));
      (forall v: Atom -> bool :: ChainHolds(c, v) ==> v(Templates.Opaque(added))) <==> Guards(front, isOr, ps)
  {
    assert Conds([added]) == [Cond(added)];
    var c := Combined(front, isOr, AsAtoms(Meaning(ps + [Cond(added)]).value));
    if Guards(front, isOr, ps) {
      forall v: Atom -> bool | ChainHolds(c, v)
        ensures v(Templates.Opaque(added))
      {
        GuardImplies(front, isOr, ps, [added], v);
      }
    } else {
      var v: Atom -> bool := a => a != Templates.Opaque(added);
      AllAreTrueBefore(ps, Units(v));
      OpenMatches(front, isOr, ps, [added], v);
      assert ChainHolds(c, v) && !v(Templates.Opaque(added));
    }
  }

  function Conds(texts: seq<string>): (ps: seq<Part>)
    ensures |ps| == |texts| && forall i :: 0 <= i < |ps| ==> ps[i] == Cond(texts[i])
  {
    seq(|texts|, i requires 0 <= i < |texts| => Cond(texts[i]))
  }

  lemma {:induction false} GuardedAppendAll(ps: seq<Part>, texts: seq<string>)
    ensures Guarded(ps + Conds(texts), false) == Guarded(ps, false)
    decreases |texts|
  {
    var n := |texts|;
    if n == 0 {
      assert ps + Conds(texts) == ps;
    } else {
      GuardedAppendAll(ps, texts[..n - 1]);
      GuardedAppend(ps + Conds(texts[..n - 1]), false, texts[n - 1]);
      assert ps + Conds(texts) == (ps + Conds(texts[..n - 1])) + [Cond(texts[n - 1])];
    }
  }

  lemma {:induction false} TrueAfterAppended(ps: seq<Part>, texts: seq<string>, v: string -> bool)
    requires TrueAfter(ps + Conds(texts), v)
    ensures forall t :: t in texts ==> v(t)
    decreases |ps| + |texts|
  {
    var all := ps + Conds(texts);
    if ps != [] {
      assert all[1..] == ps[1..] + Conds(texts);
      TrueAfterAppended(ps[1..], texts, v);
    } else if texts != [] {
      assert all[1..] == [] + Conds(texts[1..]);
      NoJointAppended(texts[1..]);
      TrueAfterAppended([], texts[1..], v);
      assert forall t :: t in texts ==> t == texts[0] || t in texts[1..];
    }
  }

  lemma {:induction false} NoJointAppended(texts: seq<string>)
    ensures !HasJoint([] + Conds(texts))
  {
    if texts != [] {
      assert ([] + Conds(texts))[1..] == [] + Conds(texts[1..]);
      NoJointAppended(texts[1..]);
    }
  }

  lemma {:induction false} JointAppended(ps: seq<Part>, texts: seq<string>)
    ensures HasJoint(ps + Conds(texts)) == HasJoint(ps)
  {
    if ps == [] {
      NoJointAppended(texts);
    } else {
      assert (ps + Conds(texts))[1..] == ps[1..] + Conds(texts);
      JointAppended(ps[1..], texts);
    }
  }

  lemma {:induction false} TrueBeforeAppended(ps: seq<Part>, texts: seq<string>, v: string -> bool)
    requires TrueBefore(ps, v)
    ensures TrueBefore(ps + Conds(texts), v)
    decreases |ps| + |texts|
  {
    var all := ps + Conds(texts);
    if ps != [] {
      assert all[1..] == ps[1..] + Conds(texts);
      JointAppended(ps[1..], texts);
      TrueBeforeAppended(ps[1..], texts, v);
    } else if texts != [] {
      assert all[1..] == [] + Conds(texts[1..]);
      NoJointAppended(texts[1..]);
      TrueBeforeAppended([], texts[1..], v);
    }
  }

  lemma {:induction false} AllAreTrueBefore(ps: seq<Part>, v: string -> bool)
    requires forall i :: 0 <= i < |ps| && ps[i].Cond? ==> v(ps[i].text)
    ensures TrueBefore(ps, v)
  {
    if ps != [] {
      AllAreTrueBefore(ps[1..], v);
    }
  }

  /** Under a guard, all appended conditions hold of whatever the statement matches. */
  lemma GuardImplies(front: seq<Atom>, isOr: bool, ps: seq<Part>, texts: seq<string>, v: Atom -> bool)
    requires Meaning(ps + Conds(texts)).Some? && Guards(front, isOr, ps)
    requires ChainHolds(Combined(front, isOr, AsAtoms(Meaning(ps + Conds(texts)).value)), v)
    ensures forall t :: t in texts ==> v(Templates.Opaque(t))
  {
    var m := Meaning(ps + Conds(texts)).value;
    CombinedHolds(front, isOr, AsAtoms(m), v);
    HoldsAsAtoms(m, v);
    GuardedAppendAll(ps, texts);
    GuardedImplies(ps + Conds(texts), Units(v));
    TrueAfterAppended(ps, texts, Units(v));
    forall t | t in texts ensures v(Templates.Opaque(t)) { assert Units(v)(t); }
  }

  /** Without one, the statement matches what meets the comparisons and the conditions with a connective after
      them, and none of the appended ones. */
  lemma OpenMatches(front: seq<Atom>, isOr: bool, ps: seq<Part>, texts: seq<string>, v: Atom -> bool)
    requires Meaning(ps + Conds(texts)).Some? && !Guards(front, isOr, ps)
    requires AllTrue(front, v) && TrueBefore(ps, Units(v))
    ensures ChainHolds(Combined(front, isOr, AsAtoms(Meaning(ps + Conds(texts)).value)), v)
  {
    var m := Meaning(ps + Conds(texts)).value;
    CombinedHolds(front, isOr, AsAtoms(m), v);
    if front == [] || !isOr {
      HoldsAsAtoms(m, v);
      GuardedAppendAll(ps, texts);
      TrueBeforeAppended(ps, texts, Units(v));
      OpenHolds(ps + Conds(texts), Units(v));
    }
  }

  // ---------------------------------------------------------------- the condition of a statement

  /** No WHERE at all; a condition; or a text that the database refuses. */
  datatype Condition = NoWhere | Where(c: Chain<Atom>) | Broken

  /** The comparisons and a text behind them, a connective in front of everything dropped. */
  function UpdateCondition(front: seq<Atom>, inside: seq<Tok<Atom>>): Condition {
    var ts := LogicDelete.Anded(front, inside);
    if ts == [] then NoWhere
    else
      match ParseChain(if NoConnective(ts) then ts else ts[1..])
      case None => Broken
      case Some((c, _)) => Where(c)
  }

  /** The condition of update(entity, wrapper): the comparisons that the wrapper's entity and the table
      contribute, and the wrapper's segment. A segment that keeps its keyword makes a second WHERE. */
  function StatementCondition(front: seq<Atom>, s: Conditions.Clauses, isWhere: Option<bool>, andOr: string)
    : Condition
  {
    if s.where == [] then UpdateCondition(front, [])
    else if isWhere == Some(true) && PartsOf(s) != [] then Broken
    else UpdateCondition(front, AsAtomToks(WrapperToks(s, andOr)))
  }

  lemma StatementReading(front: seq<Atom>, s: Conditions.Clauses, isWhere: Option<bool>, andOr: string)
    requires Readable(s, andOr) && PartsOf(s) != [] && isWhere != Some(true)
    ensures StatementCondition(front, s, isWhere, andOr) ==
      match Meaning(PartsOf(s))
      case None => Broken
      case Some(m) => Where(Combined(front, andOr == "OR", AsAtoms(m)))
  {
    var tail := SegmentReading(front, s, andOr);
    assert s.where != [];
  }

  // ---------------------------------------------------------------- the text of the appended condition

  /** What `eq(column, value)` makes of its n-th parameter. */
  function EqualsText(column: string, alias: string, n: nat): string {
    column + " = " + Placeholders.Token(alias, Placeholders.ParamName(n))
  }

  /** A column name holds no brace. */
  predicate ColumnName(column: string) { '{' !in column }

  lemma {:induction false} ReplaceAtEnd(a: string, p: string, t: string)
    requires p != "" && p[0] !in a
    ensures Placeholders.ReplaceAll(a + p, p, t) == a + t
    decreases |a|
  {
    if a == "" {
      assert a + p == p && p[|p|..] == "" && t + "" == t && a + t == t;
    } else {
      assert (a + p)[0] == a[0] && (a + p)[1..] == a[1..] + p;
      ReplaceAtEnd(a[1..], p, t);
      assert [a[0]] + (a[1..] + t) == a + t;
    }
  }

  lemma EqualsTextIs(column: string, alias: string, start: nat)
    requires ColumnName(column)
    ensures FluentWrapper.Formatted(column + " = {0}", alias, start, 1) == Some(EqualsText(column, alias, start + 1))
  {
    var a, p := column + " = ", Placeholders.Placeholder(0);
    var t := Placeholders.Token(alias, Placeholders.ParamName(start + 1));
    assert Placeholders.Decimal(0) == "0";
    assert column + " = {0}" == a + p;
    assert !Conditions.Blank(a + p) by { assert (a + p)[|column| + 1] == '='; }
    assert Placeholders.Tokens(alias, start, 1)[0] == t;
    ReplaceAtEnd(a, p, t);
    assert Placeholders.ReplaceEach(a + p, Placeholders.Tokens(alias, start, 1), 0) == a + p;
  }

  lemma EqualsTextIsOpaque(column: string, alias: string, n: nat)
    ensures Opaque(EqualsText(column, alias, n))
  {
    var s := EqualsText(column, alias, n);
    var i := |column| + 1;
    assert s[i] == '=';
    assert forall k :: '=' !in Conditions.ConnText(k);
    assert '=' !in "WHERE" && '=' !in "GROUP BY" && '=' !in "HAVING" && '=' !in "ORDER BY" && '=' !in ", ";
    assert '=' !in "AND" && '=' !in "OR";
  }

  // ---------------------------------------------------------------- wrappers as values

  /** A bound value: a number, or anything else. */
  datatype Param = Num(n: int) | Text(text: string)

  /** A wrapper: the comparisons that stand before its segment, its builder, its parameters. */
  datatype Query = Query(front: seq<Atom>, alias: string, state: H.State, isWhere: Option<bool>,
                         pairs: map<string, Param>)

  function ConditionOf(q: Query): Condition {
    StatementCondition(q.front, q.state.sql, q.isWhere, q.state.andOr)
  }

  /** `eq(column, v)`. */
  function WithVersion(q: Query, column: string, v: int): Query {
    q.(state := H.Do(q.alias, q.state, H.Condition(column + " = {0}", [Num(v)])),
       pairs := FluentWrapper.Bind(q.pairs, q.state.counter, [Num(v)]))
  }

  predicate ReadableQuery(q: Query) {
    Readable(q.state.sql, q.state.andOr)
  }

  predicate QueryGuards(q: Query) {
    Guards(q.front, q.state.andOr == "OR", PartsOf(q.state.sql))
  }

  /** The text of the next condition that `eq` appends. */
  function NextText(q: Query, column: string): string { EqualsText(column, q.alias, q.state.counter + 1) }

  lemma WithVersionIs(q: Query, column: string, v: int)
    requires ColumnName(column)
    ensures var r := WithVersion(q, column, v);
      && r.state.sql == Conditions.Apply(q.state.sql, Conditions.Where(NextText(q, column)))
      && r.state.andOr == q.state.andOr && r.state.counter == q.state.counter + 1
      && r.front == q.front && r.alias == q.alias && r.isWhere == q.isWhere
      && r.pairs == q.pairs[Placeholders.ParamName(q.state.counter + 1) := Num(v)]
      && (ReadableQuery(q) ==> ReadableQuery(r))
      && PartsOf(r.state.sql) == PartsOf(q.state.sql) + [Cond(NextText(q, column))]
  {
    var n := q.state.counter;
    var text := NextText(q, column);
    EqualsTextIs(column, q.alias, n);
    EqualsTextIsOpaque(column, q.alias, n + 1);
    assert (column + " = {0}")[|column| + 1] == '=';
    assert [Num(v)][..0] == [];
    assert FluentWrapper.Bind(q.pairs, n, []) == q.pairs;
    Conditions.ClearNullAppend(q.state.sql.where, text);
    assert Classify(text) == Cond(text);
  }

  /** The whole condition implies the appended comparison exactly when the caller's connectives guard it. The
      name of a new parameter occurs in no earlier condition. */
  lemma QueryGuardIff(q: Query, column: string, v: int)
    requires ColumnName(column) && ReadableQuery(q) && q.isWhere != Some(true)
    requires Cond(NextText(q, column)) !in PartsOf(q.state.sql) && Templates.Opaque(NextText(q, column)) !in q.front
    ensures var r := WithVersion(q, column, v);
      && (ConditionOf(r) == Broken <==> !WellFormed(PartsOf(r.state.sql)))
      && (ConditionOf(r) != Broken ==>
            && ConditionOf(r).Where?
            && ((forall x: Atom -> bool :: ChainHolds(ConditionOf(r).c, x) ==> x(Templates.Opaque(NextText(q, column))))
                <==> QueryGuards(q)))
  {
    var r := WithVersion(q, column, v);
    WithVersionIs(q, column, v);
    WellFormedIffMeaning(PartsOf(r.state.sql));
    StatementReading(r.front, r.state.sql, r.isWhere, r.state.andOr);
    if Meaning(PartsOf(r.state.sql)).Some? {
      GuardIff(q.front, q.state.andOr == "OR", PartsOf(q.state.sql), NextText(q, column));
    }
  }

  /** One call of `eq` after the other on the same wrapper. */
  function WithVersions(q: Query, column: string, vs: seq<int>): Query
    decreases |vs|
  {
    var n := |vs|;
    if n == 0 then q else WithVersion(WithVersions(q, column, vs[..n - 1]), column, vs[n - 1])
  }

  function Texts(q: Query, column: string, n: nat): (ts: seq<string>)
    ensures |ts| == n && forall i :: 0 <= i < n ==> ts[i] == EqualsText(column, q.alias, q.state.counter + i + 1)
  {
    seq(n, i requires 0 <= i < n => EqualsText(column, q.alias, q.state.counter + i + 1))
  }

  ghost predicate Bound(r: Query, start: nat, vs: seq<int>) {
    forall i :: 0 <= i < |vs| ==> HasValue(r.pairs, start + i + 1, vs[i])
  }

  predicate HasValue(pairs: map<string, Param>, n: nat, v: int) {
    Placeholders.ParamName(n) in pairs && pairs[Placeholders.ParamName(n)] == Num(v)
  }

  lemma {:induction false} WithVersionsKeep(q: Query, column: string, vs: seq<int>)
    requires ColumnName(column)
    ensures var r := WithVersions(q, column, vs);
      && r.state.andOr == q.state.andOr && r.state.counter == q.state.counter + |vs|
      && r.front == q.front && r.alias == q.alias && r.isWhere == q.isWhere
      && (ReadableQuery(q) ==> ReadableQuery(r))
    decreases |vs|
  {
    if vs != [] {
      WithVersionsKeep(q, column, vs[..|vs| - 1]);
      WithVersionIs(WithVersions(q, column, vs[..|vs| - 1]), column, vs[|vs| - 1]);
    }
  }

  lemma {:induction false} WithVersionsParts(q: Query, column: string, vs: seq<int>)
    requires ColumnName(column)
    ensures PartsOf(WithVersions(q, column, vs).state.sql) == PartsOf(q.state.sql) + Conds(Texts(q, column, |vs|))
    decreases |vs|
  {
    var n := |vs|;
    if n == 0 {
      assert PartsOf(q.state.sql) + Conds(Texts(q, column, 0)) == PartsOf(q.state.sql);
    } else {
      var before := WithVersions(q, column, vs[..n - 1]);
      WithVersionsKeep(q, column, vs[..n - 1]);
      WithVersionsParts(q, column, vs[..n - 1]);
      WithVersionIs(before, column, vs[n - 1]);
      assert NextText(before, column) == EqualsText(column, q.alias, q.state.counter + n);
      OneMoreText(q, column, n);
    }
  }

  lemma {:induction false} WithVersionsBound(q: Query, column: string, vs: seq<int>)
    requires ColumnName(column)
    ensures Bound(WithVersions(q, column, vs), q.state.counter, vs)
    decreases |vs|
  {
    if vs != [] {
      var before := WithVersions(q, column, vs[..|vs| - 1]);
      WithVersionsKeep(q, column, vs[..|vs| - 1]);
      WithVersionsBound(q, column, vs[..|vs| - 1]);
      WithVersionIs(before, column, vs[|vs| - 1]);
      OneMoreBound(before, WithVersion(before, column, vs[|vs| - 1]), q.state.counter, vs);
    }
  }

  lemma WithVersionsIs(q: Query, column: string, vs: seq<int>)
    requires ColumnName(column)
    ensures var r := WithVersions(q, column, vs);
      && r.state.andOr == q.state.andOr && r.state.counter == q.state.counter + |vs|
      && r.front == q.front && r.alias == q.alias && r.isWhere == q.isWhere
      && (ReadableQuery(q) ==> ReadableQuery(r))
      && PartsOf(r.state.sql) == PartsOf(q.state.sql) + Conds(Texts(q, column, |vs|))
      && Bound(r, q.state.counter, vs)
  {
    WithVersionsKeep(q, column, vs);
    WithVersionsParts(q, column, vs);
    WithVersionsBound(q, column, vs);
  }

  lemma OneMoreText(q: Query, column: string, n: nat)
    requires n > 0
    ensures var ps := PartsOf(q.state.sql);
      (ps + Conds(Texts(q, column, n - 1))) + [Cond(EqualsText(column, q.alias, q.state.counter + n))]
      == ps + Conds(Texts(q, column, n))
  {
    assert Texts(q, column, n)[n - 1] == EqualsText(column, q.alias, q.state.counter + n);
  }

  lemma OneMoreBound(before: Query, r: Query, start: nat, vs: seq<int>)
    requires vs != [] && Bound(before, start, vs[..|vs| - 1])
    requires r.pairs == before.pairs[Placeholders.ParamName(start + |vs|) := Num(vs[|vs| - 1])]
    ensures Bound(r, start, vs)
  {
    forall i | 0 <= i < |vs|
      ensures HasValue(r.pairs, start + i + 1, vs[i])
    {
      assert i < |vs| - 1 ==> vs[..|vs| - 1][i] == vs[i];
      StillBound(before.pairs, start + i + 1, vs[i], start + |vs|, vs[|vs| - 1]);
    }
  }

  lemma StillBound(pairs: map<string, Param>, k: nat, v: int, last: nat, w: int)
    requires if k == last then v == w else HasValue(pairs, k, v)
    ensures HasValue(pairs[Placeholders.ParamName(last) := Num(w)], k, v)
  {
    if Placeholders.ParamName(k) == Placeholders.ParamName(last) {
      FluentWrapper.ParamNameInjective(k, last);
    }
  }

  lemma VersionsReading(q: Query, column: string, vs: seq<int>)
    requires ColumnName(column) && ReadableQuery(q) && q.isWhere != Some(true) && vs != []
    ensures var r, ps := WithVersions(q, column, vs), PartsOf(q.state.sql) + Conds(Texts(q, column, |vs|));
      ConditionOf(r) == match Meaning(ps)
                        case None => Broken
                        case Some(m) => Where(Combined(q.front, q.state.andOr == "OR", AsAtoms(m)))
  {
    WithVersionsIs(q, column, vs);
    var r := WithVersions(q, column, vs);
    StatementReading(r.front, r.state.sql, r.isWhere, r.state.andOr);
  }

  /** A segment that keeps its keyword is refused. */
  lemma SecondKeyword(q: Query, column: string, vs: seq<int>)
    requires ColumnName(column) && q.isWhere == Some(true) && vs != []
    ensures ConditionOf(WithVersions(q, column, vs)) == Broken
  {
    WithVersionsIs(q, column, vs);
    var r := WithVersions(q, column, vs);
    assert PartsOf(r.state.sql) != [];
    assert r.state.sql.where != [];
  }

  /** Under a guard, whatever the statement matches meets all the appended comparisons. */
  lemma GuardedByVersions(q: Query, column: string, vs: seq<int>, x: Atom -> bool, i: nat)
    requires ColumnName(column) && ReadableQuery(q) && QueryGuards(q) && i < |vs|
    requires var c := ConditionOf(WithVersions(q, column, vs)); c.Where? && ChainHolds(c.c, x)
    ensures x(Templates.Opaque(Texts(q, column, |vs|)[i]))
  {
    var texts := Texts(q, column, |vs|);
    if q.isWhere == Some(true) {
      SecondKeyword(q, column, vs);
    } else {
      VersionsReading(q, column, vs);
      GuardImplies(q.front, q.state.andOr == "OR", PartsOf(q.state.sql), texts, x);
      assert texts[i] in texts;
    }
  }

  /** Without one, it matches whatever meets the rest. */
  lemma OpenToVersions(q: Query, column: string, vs: seq<int>, x: Atom -> bool)
    requires ColumnName(column) && ReadableQuery(q) && q.isWhere != Some(true) && vs != [] && !QueryGuards(q)
    requires WellFormed(PartsOf(q.state.sql) + Conds(Texts(q, column, |vs|)))
    requires MeetsTheRest(q, x)
    ensures var c := ConditionOf(WithVersions(q, column, vs)); c.Where? && ChainHolds(c.c, x)
  {
    var texts := Texts(q, column, |vs|);
    VersionsReading(q, column, vs);
    WellFormedIffMeaning(PartsOf(q.state.sql) + Conds(texts));
    OpenMatches(q.front, q.state.andOr == "OR", PartsOf(q.state.sql), texts, x);
  }

  /** The comparisons hold, and so do the caller's conditions that have a connective after them. */
  predicate MeetsTheRest(q: Query, x: Atom -> bool) {
    AllTrue(q.front, x) && TrueBefore(PartsOf(q.state.sql), Units(x))
  }

  /** A prepared statement always has a condition. */
  lemma AlwaysConditional(q: Query, column: string, vs: seq<int>)
    requires ColumnName(column) && ReadableQuery(q) && vs != []
    ensures ConditionOf(WithVersions(q, column, vs)) != NoWhere
  {
    if q.isWhere == Some(true) {
      SecondKeyword(q, column, vs);
    } else {
      VersionsReading(q, column, vs);
    }
  }

  /** A new wrapper's condition is the appended comparison and nothing else. */
  lemma AloneIsTheCondition(q: Query, column: string, v: int, x: Atom -> bool)
    requires ColumnName(column) && ReadableQuery(q) && q.front == [] && PartsOf(q.state.sql) == [] && q.isWhere.None?
    ensures var c := ConditionOf(WithVersion(q, column, v));
      c.Where? && (ChainHolds(c.c, x) <==> x(Templates.Opaque(NextText(q, column))))
  {
    var r, text := WithVersion(q, column, v), NextText(q, column);
    WithVersionIs(q, column, v);
    StatementReading(r.front, r.state.sql, r.isWhere, r.state.andOr);
    assert PartsOf(r.state.sql) == [Cond(text)];
    OneCondition(text, x);
  }

  lemma OneCondition(text: string, x: Atom -> bool)
    ensures Meaning([Cond(text)]).Some?
    ensures ChainHolds(AsAtoms(Meaning([Cond(text)]).value), x) <==> x(Templates.Opaque(text))
  {
    var g := One(Leaf(text));
    assert FirstGroup([Cond(text)]) == Some((g, None));
    HoldsAsAtoms(One(Group(g)), x);
    OneHolds(Group(g), Units(x));
    OneHolds(Leaf(text), Units(x));
  }

  lemma OneHolds(e: Expr<string>, v: string -> bool)
    ensures ChainHolds(One(e), v) <==> Holds(e, v)
  {
    assert HeadHolds(One(e), v) <==> Holds(e, v);
  }

  // ---------------------------------------------------------------- from the calls made on the wrapper

  /** No OR_NEW after the first WHERE, and no plain OR after it since the last AND_NEW. */
  predicate KeepsGuard(bs: seq<Conditions.BuilderCall>, started: bool, open: bool) {
    if bs == [] then !open
    else
      var rest := bs[1..];
      match bs[0]
      case Where(_) => KeepsGuard(rest, true, open)
      case Connect(k) =>
        if !started || k == Conditions.CAnd then KeepsGuard(rest, started, open)
        else k != Conditions.COrNew && KeepsGuard(rest, started, k == Conditions.COr)
      case _ => KeepsGuard(rest, started, open)
  }

  lemma {:induction false} KeepsGuardTells(bs: seq<Conditions.BuilderCall>, started: bool, open: bool)
    requires forall b :: b in bs ==> PlainCall(b)
    ensures Guarded(Parts(Conditions.ClearNull(Requested(bs, started))), open) <==> KeepsGuard(bs, started, open)
    decreases |bs|
  {
    if bs != [] {
      var b, rest := bs[0], bs[1..];
      assert PlainCall(b);
      if b.Where? {
        KeepsGuardTells(rest, true, open);
        H.PrependPart(b.text, Requested(rest, true));
      } else if b.Connect? && started {
        Conditions.KindOfConnText(b.k);
        KeepsGuardTells(rest, true, if b.k == Conditions.CAnd then open else b.k == Conditions.COr);
        H.PrependPart(Conditions.ConnText(b.k), Requested(rest, true));
      } else {
        KeepsGuardTells(rest, started, open);
        assert [] + Requested(rest, started) == Requested(rest, started);
      }
    }
  }

  /** The same on the calls: over every history of calls on a new wrapper, the version condition appended to
      it is implied by the whole condition exactly when nothing stands before the segment or no or and no
      orNew came with a condition on a wrapper that still rendered to nothing, there was no OR_NEW after the
      first WHERE, and no plain OR after it since the last AND_NEW. */
  lemma HistoryGuardIff<V>(front: seq<Atom>, alias: string, calls: seq<H.Call<V>>, pairs: map<string, Param>,
                           column: string, v: int)
    requires ColumnName(column) && H.ReadableHistory(alias, calls)
    requires var q := Query(front, alias, H.DoAll(alias, H.FRESH, calls), None, pairs);
      Cond(NextText(q, column)) !in PartsOf(q.state.sql) && Templates.Opaque(NextText(q, column)) !in front
    ensures var q := Query(front, alias, H.DoAll(alias, H.FRESH, calls), None, pairs);
      var r := WithVersion(q, column, v);
      && (ConditionOf(r) == Broken <==> !WellFormed(PartsOf(r.state.sql)))
      && (ConditionOf(r) != Broken ==>
            && ConditionOf(r).Where?
            && ((forall x: Atom -> bool :: ChainHolds(ConditionOf(r).c, x) ==> x(Templates.Opaque(NextText(q, column))))
                <==> && (front == [] || !H.LeadsWithOr(alias, H.FRESH, calls))
                     && KeepsGuard(H.Expand(alias, 0, calls), false, false)))
  {
    var q := Query(front, alias, H.DoAll(alias, H.FRESH, calls), None, pairs);
    H.HistoryIsReadable(alias, calls);
    KeepsGuardTells(H.Expand(alias, 0, calls), false, false);
    QueryGuardIff(q, column, v);
  }

  /** eq(a), or(), eq(b), and then the version: whatever a holds of is matched, at any version. */
  lemma OrOpensTheGuard(s: Conditions.Clauses, a: string, b: string, added: string)
    requires Opaque(a) && Opaque(b) && Opaque(added)
    requires s.where == [a] + [Conditions.OR] + [b]
    ensures !Guarded(PartsOf(s), false)
    ensures Meaning(PartsOf(s) + [Cond(added)]) ==
            Some(One(Group(OrElse(Leaf(a), AndThen(Leaf(b), One(Leaf(added)))))))
    ensures forall v: string -> bool :: v(a) ==> ChainHolds(Meaning(PartsOf(s) + [Cond(added)]).value, v)
  {
    PartsWithOr(s, a, b);
    MeaningWithOr(a, b, added);
    forall v: string -> bool | v(a)
      ensures ChainHolds(Meaning(PartsOf(s) + [Cond(added)]).value, v)
    {
      var g := OrElse(Leaf(a), AndThen(Leaf(b), One(Leaf(added))));
      assert Holds(Leaf(a), v) && HeadHolds(g, v) && Holds(Group(g), v);
    }
  }

  lemma PartsWithOr(s: Conditions.Clauses, a: string, b: string)
    requires Opaque(a) && Opaque(b) && s.where == [a] + [Conditions.OR] + [b]
    ensures PartsOf(s) == [Cond(a)] + [Joint(Conditions.COr)] + [Cond(b)]
  {
    Conditions.KindOfConnText(Conditions.COr);
    assert !Conditions.Blank(Conditions.OR) by { assert Conditions.OR[1] == 'O'; }
    Conditions.ClearNullAppend([a] + [Conditions.OR], b);
    Conditions.ClearNullAppend([a], Conditions.OR);
    Conditions.ClearNullAppend([], a);
    assert [] + [a] == [a];
    assert Conditions.ClearNull(s.where) == s.where;
    assert Classify(a) == Cond(a) && Classify(b) == Cond(b) && Classify(Conditions.OR) == Joint(Conditions.COr);
  }

  lemma MeaningWithOr(a: string, b: string, added: string)
    ensures var ps := [Cond(a)] + [Joint(Conditions.COr)] + [Cond(b)];
      && !Guarded(ps, false)
      && Meaning(ps + [Cond(added)]) == Some(One(Group(OrElse(Leaf(a), AndThen(Leaf(b), One(Leaf(added)))))))
  {
    var ps := [Cond(a)] + [Joint(Conditions.COr)] + [Cond(b)];
    var all := ps + [Cond(added)];
    assert ps[1..] == [Joint(Conditions.COr)] + [Cond(b)] && ps[1..][1..] == [Cond(b)] && [Cond(b)][1..] == [];
    assert !Guarded([Cond(b)], true) && !Guarded(ps[1..], false);
    assert all[2..] == [Cond(b)] + [Cond(added)] && all[2..][1..] == [Cond(added)];
    assert FirstGroup(all[2..]) == Some((AndThen(Leaf(b), One(Leaf(added))), None));
    assert FirstGroup(all) == Some((OrElse(Leaf(a), AndThen(Leaf(b), One(Leaf(added)))), None));
  }

  // ---------------------------------------------------------------- comparisons with the version

  /** The parameter that a condition compares the column with, if it is such a comparison. */
  function NameIn(column: string, alias: string, text: string): Option<string> {
    var front := column + " = " + "#{" + alias + ".paramNameValuePairs.";
    if |front| < |text| && text[..|front|] == front && text[|text| - 1] == '}'
    then Some(text[|front|..|text| - 1])
    else None
  }

  function VersionIn(column: string, alias: string, pairs: map<string, Param>, a: Atom): Option<int> {
    if !a.Opaque? then None
    else
      match NameIn(column, alias, a.text)
      case None => None
      case Some(name) => if name in pairs && pairs[name].Num? then Some(pairs[name].n) else None
  }

  lemma AppendedCompares(column: string, alias: string, pairs: map<string, Param>, n: nat, v: int)
    requires HasValue(pairs, n, v)
    ensures VersionIn(column, alias, pairs, Templates.Opaque(EqualsText(column, alias, n))) == Some(v)
  {
    var text, name := EqualsText(column, alias, n), Placeholders.ParamName(n);
    var front := column + " = " + "#{" + alias + ".paramNameValuePairs.";
    assert text == front + name + "}";
    assert text[..|front|] == front && text[|front|..|text| - 1] == name;
  }
}
