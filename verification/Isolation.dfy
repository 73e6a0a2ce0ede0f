/**
 Wrapper queries on a soft-delete table: the WHERE clause generated around a wrapper's segment, as
 an SQL parser reads it, and exactly when it can match a deleted row.
 */
module Isolation {

  import opened Injector
  import opened Lists
  import opened LogicDelete
  import opened Options
  import opened Segments
  import opened SoftDelete
  import opened Sql
  import opened Templates
  import Conditions
  import P = ConditionParsing

  // ---------------------------------------------------------------- the template

  function EntityField(t: Table, f: Field): seq<Piece> {
    ConvertIfTag(t, false, f, "ew.entity.", false) + [T(AndCond(Opaque(f.condition)))]
    + ConvertIfTag(t, false, f, "ew.entity.", true)
  }

  function EachEntityField(t: Table, fields: seq<Field>): (pss: seq<seq<Piece>>)
    ensures |pss| == |fields| && forall i :: 0 <= i < |fields| ==> pss[i] == EntityField(t, fields[i])
  {
    seq(|fields|, i requires 0 <= i < |fields| => EntityField(t, fields[i]))
  }

  function EntityKey(t: Table): seq<Piece> {
    if Conditions.Blank(t.keyProperty) then []
    else Wrap(If(NotNull("ew.entity." + t.keyProperty)), [T(AndParam(t.keyColumn, "ew.entity." + t.keyProperty))])
  }

  function EntityPieces(t: Table): seq<Piece> {
    Wrap(If(Flag("ew.entity!=null")), EntityKey(t) + Flatten(EachEntityField(t, t.fields)))
  }

  function SegmentPieces(): seq<Piece> { Wrap(If(Flag("ew.sqlSegment!=null")), [T(Segment)]) }

  function WrapperBranch(t: Table): seq<Piece> { EntityPieces(t) + (LogicConds(t) + SegmentPieces()) }

  function WhenOtherwise(test: Test, a: seq<Piece>, b: seq<Piece>): seq<Piece> {
    Wrap(Choose, Wrap(When(test), a) + Wrap(Otherwise, b))
  }

  /** sqlWhereEntityWrapper of a soft-delete table. */
  function WhereEntityWrapper(t: Table): seq<Piece> {
    Wrap(WhereTag, WhenOtherwise(Flag("ew!=null"), WrapperBranch(t), LogicConds(t)))
  }

  method SqlWhereEntityWrapper(t: Table) returns (ps: seq<Piece>)
    ensures ps == WhereEntityWrapper(t)
  {
    var entity: seq<Piece> := [];
    if !Conditions.Blank(t.keyProperty) {
      entity := Wrap(If(NotNull("ew.entity." + t.keyProperty)),
                     [T(AndParam(t.keyColumn, "ew.entity." + t.keyProperty))]);
    }
    for i := 0 to |t.fields|
      invariant entity == EntityKey(t) + Flatten(EachEntityField(t, t.fields[..i]))
    {
      var f := t.fields[i];
      NextEntityField(t, i);
      Assoc(EntityKey(t), Flatten(EachEntityField(t, t.fields[..i])), EntityField(t, f));
      entity := entity + (ConvertIfTag(t, false, f, "ew.entity.", false) + [T(AndCond(Opaque(f.condition)))]
                          + ConvertIfTag(t, false, f, "ew.entity.", true));
    }
    assert t.fields[..|t.fields|] == t.fields;
    var logic := GetLogicDeleteSql(t);
    var segment := Wrap(If(Flag("ew.sqlSegment!=null")), [T(Segment)]);
    var branch := Wrap(If(Flag("ew.entity!=null")), entity) + (logic + segment);
    ps := Wrap(WhereTag, WhenOtherwise(Flag("ew!=null"), branch, logic));
  }

  lemma NextEntityField(t: Table, i: nat)
    requires i < |t.fields|
    ensures Flatten(EachEntityField(t, t.fields[..i + 1])) ==
            Flatten(EachEntityField(t, t.fields[..i])) + EntityField(t, t.fields[i])
  {
    assert EachEntityField(t, t.fields[..i + 1]) == EachEntityField(t, t.fields[..i]) + [EntityField(t, t.fields[i])];
    FlattenAppend(EachEntityField(t, t.fields[..i]), EntityField(t, t.fields[i]));
  }

  // ---------------------------------------------------------------- evaluating it

  /** The comparisons that the wrapper's entity contributes in one call. */
  function EntityAtoms(t: Table, env: Env): seq<Atom> {
    if !env.flag("ew.entity!=null") then [] else KeyAtoms(t, env) + FieldAtoms(t, t.fields, env)
  }

  function KeyAtoms(t: Table, env: Env): seq<Atom> {
    var key := env.value("ew.entity." + t.keyProperty);
    if Conditions.Blank(t.keyProperty) || key == Null then [] else [Eq(t.keyColumn, key)]
  }

  function FieldAtoms(t: Table, fields: seq<Field>, env: Env): seq<Atom> {
    if fields == [] then []
    else (if TagLetsThrough(t, false, fields[0], "ew.entity.", env) then [Opaque(fields[0].condition)] else [])
         + FieldAtoms(t, fields[1..], env)
  }

  lemma EntityFieldYields(t: Table, f: Field, env: Env)
    ensures YieldsConds(EntityField(t, f), env,
              Anded(if TagLetsThrough(t, false, f, "ew.entity.", env) then [Opaque(f.condition)] else [], []))
  {
    var text := AndCond(Opaque(f.condition));
    SolidAnd(Opaque(f.condition));
    RunsToText(text, env);
    var o := IfTagPaired(t, false, f, "ew.entity.", [T(text)], env, Render(text, env));
    assert Anded([Opaque(f.condition)], []) == [And, Term(Opaque(f.condition))];
  }

  lemma {:induction false} EntityFieldsYield(t: Table, fields: seq<Field>, env: Env)
    ensures YieldsConds(Flatten(EachEntityField(t, fields)), env, Anded(FieldAtoms(t, fields, env), []))
  {
    if fields == [] {
      assert RunsTo([], env, []) && Conds([]) == [];
    } else {
      EntityFieldYields(t, fields[0], env);
      EntityFieldsYield(t, fields[1..], env);
      var first := if TagLetsThrough(t, false, fields[0], "ew.entity.", env) then [Opaque(fields[0].condition)] else [];
      YieldsAppend(EntityField(t, fields[0]), Flatten(EachEntityField(t, fields[1..])), env,
                   Anded(first, []), Anded(FieldAtoms(t, fields[1..], env), []));
      AndedAppend(first, FieldAtoms(t, fields[1..], env));
      assert EachEntityField(t, fields)[1..] == EachEntityField(t, fields[1..]);
    }
  }

  lemma EntityKeyYields(t: Table, env: Env)
    ensures YieldsConds(EntityKey(t), env, Anded(KeyAtoms(t, env), []))
  {
    if Conditions.Blank(t.keyProperty) {
      assert RunsTo([], env, []) && Conds([]) == [];
    } else {
      var property := "ew.entity." + t.keyProperty;
      var atom := Eq(t.keyColumn, env.value(property));
      var ts: seq<Tok<Atom>> := [And, Term(atom)];
      SolidAnd(atom);
      YieldsText(AndParam(t.keyColumn, property), env, ts);
      YieldsIf(NotNull(property), [T(AndParam(t.keyColumn, property))], env, ts);
      assert Anded([atom], []) == ts;
    }
  }

  lemma EntityYields(t: Table, env: Env)
    ensures YieldsConds(EntityPieces(t), env, Anded(EntityAtoms(t, env), []))
  {
    EntityKeyYields(t, env);
    EntityFieldsYield(t, t.fields, env);
    var key, fields := KeyAtoms(t, env), FieldAtoms(t, t.fields, env);
    YieldsAppend(EntityKey(t), Flatten(EachEntityField(t, t.fields)), env, Anded(key, []), Anded(fields, []));
    AndedAppend(key, fields);
    YieldsIf(Flag("ew.entity!=null"), EntityKey(t) + Flatten(EachEntityField(t, t.fields)),
             env, Anded(key + fields, []));
  }

  /** The tokens the segment contributes in one call. */
  function SegmentToks(env: Env): seq<Tok<Atom>> {
    if env.flag("ew.sqlSegment!=null") then env.segment else []
  }

  lemma {:induction false} SolidConds(ts: seq<Tok<Atom>>)
    ensures Solid(Conds(ts)) == Conds(ts)
  {
    if ts != [] {
      SolidConds(ts[1..]);
      assert Conds(ts)[1..] == Conds(ts[1..]);
      assert Conds(ts) == [Cond(ts[0])] + Conds(ts[1..]);
    }
  }

  lemma SegmentYields(env: Env)
    ensures YieldsConds(SegmentPieces(), env, SegmentToks(env))
  {
    SolidConds(env.segment);
    YieldsText(Segment, env, env.segment);
    YieldsIf(Flag("ew.sqlSegment!=null"), [T(Segment)], env, env.segment);
  }

  lemma {:induction false} AndedTail(atoms: seq<Atom>, tail: seq<Tok<Atom>>)
    ensures Anded(atoms, []) + tail == Anded(atoms, tail)
  {
    if atoms == [] {
      assert [] + tail == tail;
    } else {
      AndedTail(atoms[1..], tail);
      assert ([And] + ([Term(atoms[0])] + Anded(atoms[1..], []))) + tail ==
             [And] + ([Term(atoms[0])] + (Anded(atoms[1..], []) + tail));
    }
  }

  /** The conditions of the branch that applies. */
  function BranchAtoms(t: Table, env: Env): seq<Atom> {
    (if env.flag("ew!=null") then EntityAtoms(t, env) else []) + UndeletedAtoms(LogicFields(t.fields))
  }

  function BranchTail(env: Env): seq<Tok<Atom>> {
    if env.flag("ew!=null") then SegmentToks(env) else []
  }

  lemma WrapperBranchYields(t: Table, env: Env)
    ensures YieldsConds(WrapperBranch(t), env,
                        Anded(EntityAtoms(t, env) + UndeletedAtoms(LogicFields(t.fields)), SegmentToks(env)))
  {
    var entity, logic := EntityAtoms(t, env), UndeletedAtoms(LogicFields(t.fields));
    EntityYields(t, env);
    CondPiecesYield(logic, env);
    SegmentYields(env);
    YieldsAppend(LogicConds(t), SegmentPieces(), env, Anded(logic, []), SegmentToks(env));
    YieldsAppend(EntityPieces(t), LogicConds(t) + SegmentPieces(),
                 env, Anded(entity, []), Anded(logic, []) + SegmentToks(env));
    AndedAppend(entity, logic);
    AndedTail(entity + logic, SegmentToks(env));
    Assoc(Anded(entity, []), Anded(logic, []), SegmentToks(env));
  }

  lemma NoChosen(os: seq<Out>, ts: seq<Tok<Atom>>)
    requires Solid(os) == Conds(ts)
    ensures Chosen !in os
  {
    assert forall o :: o in Conds(ts) ==> o.Cond?;
    if Chosen in os {
      SolidKeeps(os, Chosen);
    }
  }

  lemma {:induction false} SolidKeeps(os: seq<Out>, o: Out)
    requires o in os && o != Space
    ensures o in Solid(os)
  {
    if os[0] != o {
      assert os == [os[0]] + os[1..];
      SolidKeeps(os[1..], o);
    }
  }

  lemma {:induction false} UpToChosenIs(os: seq<Out>, more: seq<Out>)
    requires Chosen !in os && (more == [] || more[0] == Chosen)
    ensures UpToChosen(os + more) == os
  {
    if os == [] {
      assert [] + more == more;
    } else {
      assert (os + more)[1..] == os[1..] + more;
      UpToChosenIs(os[1..], more);
    }
  }

  /** `choose` with one `when` and an `otherwise`. */
  lemma ChooseYields(test: Test, a: seq<Piece>, b: seq<Piece>, env: Env, ta: seq<Tok<Atom>>, tb: seq<Tok<Atom>>)
    requires YieldsConds(a, env, ta) && YieldsConds(b, env, tb)
    ensures YieldsConds(WhenOtherwise(test, a, b), env, if TestHolds(test, env) then ta else tb)
  {
    var oa :| RunsTo(a, env, oa) && Solid(oa) == Conds(ta);
    var ob :| RunsTo(b, env, ob) && Solid(ob) == Conds(tb);
    RunsToElement(When(test), a, env, oa);
    RunsToElement(Otherwise, b, env, ob);
    var first, second := Element(When(test), env, oa), Element(Otherwise, env, ob);
    RunsToAppend(Wrap(When(test), a), Wrap(Otherwise, b), env, first, second);
    RunsToElement(Choose, Wrap(When(test), a) + Wrap(Otherwise, b), env, first + second);
    NoChosen(oa, ta);
    NoChosen(ob, tb);
    BranchChosen(TestHolds(test, env), oa, ob);
  }

  lemma BranchChosen(holds: bool, oa: seq<Out>, ob: seq<Out>)
    requires Chosen !in oa && Chosen !in ob
    ensures FirstBranch((if holds then [Chosen] + oa else []) + ([Chosen] + ob)) == if holds then oa else ob
  {
    var second := [Chosen] + ob;
    if holds {
      FirstChosen(oa, second);
    } else {
      FirstChosen(ob, []);
      assert [] + second == second + [];
    }
  }

  lemma FirstChosen(o: seq<Out>, more: seq<Out>)
    requires Chosen !in o && (more == [] || more[0] == Chosen)
    ensures FirstBranch(([Chosen] + o) + more) == o
  {
    assert (([Chosen] + o) + more)[1..] == o + more;
    UpToChosenIs(o, more);
  }

  /** What the generated clause reads as: WHERE, then the tokens of its condition. */
  lemma WhereReads(t: Table, env: Env) returns (o: seq<Out>)
    requires LogicFields(t.fields) != []
    ensures var atoms := BranchAtoms(t, env);
      && atoms != []
      && RunsTo(WhereEntityWrapper(t), env, o)
      && Solid(o) == [Keyword("WHERE")] + Conds([Term(atoms[0])] + Anded(atoms[1..], BranchTail(env)))
  {
    var choose := WhenOtherwise(Flag("ew!=null"), WrapperBranch(t), LogicConds(t));
    var ts := Anded(BranchAtoms(t, env), BranchTail(env));
    BranchYields(t, env);
    var inner :| RunsTo(choose, env, inner) && Solid(inner) == Conds(ts);
    RunsToElement(WhereTag, choose, env, inner);
    o := WhereOut(inner);
    WhereSolid(inner);
    LeadingAnd(BranchAtoms(t, env), BranchTail(env));
  }

  lemma BranchYields(t: Table, env: Env)
    ensures YieldsConds(WhenOtherwise(Flag("ew!=null"), WrapperBranch(t), LogicConds(t)), env,
                        Anded(BranchAtoms(t, env), BranchTail(env)))
  {
    var logic := UndeletedAtoms(LogicFields(t.fields));
    WrapperBranchYields(t, env);
    CondPiecesYield(logic, env);
    ChooseYields(Flag("ew!=null"), WrapperBranch(t), LogicConds(t), env,
                 Anded(EntityAtoms(t, env) + logic, SegmentToks(env)), Anded(logic, []));
    assert [] + logic == logic;
  }

  lemma LeadingAnd(atoms: seq<Atom>, tail: seq<Tok<Atom>>)
    requires atoms != []
    ensures var os := Conds(Anded(atoms, tail));
      && os != [] && os[0] == Cond(And)
      && os[1..] == Conds([Term(atoms[0])] + Anded(atoms[1..], tail))
  {
    var ts := Anded(atoms, tail);
    assert ts[1..] == [Term(atoms[0])] + Anded(atoms[1..], tail);
    assert Conds(ts)[1..] == Conds(ts[1..]);
  }

  // ---------------------------------------------------------------- exactly when deleted rows are safe

  /** The condition of the generated query, and the tokens of the clauses after it. */
  function QueryCondition(t: Table, env: Env): Option<(Chain<Atom>, seq<Tok<Atom>>)> {
    match Run(WhereEntityWrapper(t), env)
    case None => None
    case Some((os, rest)) =>
      var solid := Solid(os);
      if rest != [] || solid == [] || solid[0] != Keyword("WHERE") then None
      else match Tokens(solid[1..])
           case None => None
           case Some(ts) => ParseChain(ts)
  }

  /** The query matches visible rows only, whatever the rows and the truth of the opaque conditions. */
  ghost predicate NeverMatchesDeleted(t: Table, c: Chain<Atom>) {
    forall row: Row, unit: string -> bool :: ChainHolds(c, OnRow(row, unit)) ==> IsVisible(t)(row)
  }

  lemma QueryConditionIs(t: Table, env: Env)
    requires LogicFields(t.fields) != []
    ensures var atoms := BranchAtoms(t, env);
      atoms != [] && QueryCondition(t, env) == ParseChain([Term(atoms[0])] + Anded(atoms[1..], BranchTail(env)))
  {
    var o := WhereReads(t, env);
    var atoms := BranchAtoms(t, env);
    var ts := [Term(atoms[0])] + Anded(atoms[1..], BranchTail(env));
    assert ([Keyword("WHERE")] + Conds(ts))[1..] == Conds(ts);
    TokensOfConds(ts);
  }

  lemma BranchAtomsShow(t: Table, env: Env, row: Row, unit: string -> bool)
    requires var atoms, v := BranchAtoms(t, env), OnRow(row, unit);
      forall i :: 0 <= i < |atoms| ==> v(atoms[i])
    ensures IsVisible(t)(row)
  {
    var v := OnRow(row, unit);
    var entity := if env.flag("ew!=null") then EntityAtoms(t, env) else [];
    var logic := UndeletedAtoms(LogicFields(t.fields));
    assert BranchAtoms(t, env) == entity + logic;
    AllOfBoth(entity, logic, v);
    VisibleHolds(t, row, unit);
  }

  /** Without a wrapper, or without conditions in it, no deleted row is ever matched. */
  lemma NoSegmentIsSafe(t: Table, env: Env)
    requires LogicFields(t.fields) != [] && BranchTail(env) == []
    ensures var q := QueryCondition(t, env);
      q.Some? && q.value.1 == [] && NeverMatchesDeleted(t, q.value.0)
  {
    UnjoinedIsSafe(t, env, []);
  }

  lemma ConjunctionIsSafe(t: Table, env: Env)
    requires LogicFields(t.fields) != []
    ensures var atoms := BranchAtoms(t, env);
      atoms != [] && NeverMatchesDeleted(t, Conjunction(atoms[0], atoms[1..]))
  {
    QueryConditionIs(t, env);
    var atoms := BranchAtoms(t, env);
    forall row: Row, unit: string -> bool | ChainHolds(Conjunction(atoms[0], atoms[1..]), OnRow(row, unit))
      ensures IsVisible(t)(row)
    {
      ConjunctionHolds(atoms[0], atoms[1..], OnRow(row, unit));
      assert forall i :: 0 < i < |atoms| ==> atoms[i] == atoms[1..][i - 1];
      BranchAtomsShow(t, env, row, unit);
    }
  }

  /** The segment of this call is the wrapper's. */
  predicate IsSegmentOf(env: Env, s: Conditions.Clauses, andOr: string) {
    env.segment == AsAtomToks(WrapperToks(s, andOr))
  }

  /** With conditions in the wrapper: the query parses exactly when its parts are well formed, and then never
      matches a deleted row exactly when the segment starts with AND and no OR_NEW stands between two
      groups. A plain OR is harmless. */
  lemma DeletedRowsSafeIff(t: Table, env: Env, s: Conditions.Clauses, andOr: string)
    requires LogicFields(t.fields) != []
    requires env.flag("ew!=null") && env.flag("ew.sqlSegment!=null")
    requires Readable(s, andOr) && PartsOf(s) != [] && IsSegmentOf(env, s, andOr)
    ensures var q := QueryCondition(t, env);
      && (q.Some? <==> P.WellFormed(PartsOf(s)))
      && (q.Some? ==> (NeverMatchesDeleted(t, q.value.0) <==> andOr == "AND" && !P.HasOrNew(PartsOf(s))))
  {
    var tail := SegmentReading(BranchAtoms(t, env), s, andOr);
    ReadingIsSafeIff(t, env, andOr == "OR", PartsOf(s), AsAtomToks(tail));
  }

  lemma ReadingIsSafeIff(t: Table, env: Env, isOr: bool, ps: seq<P.Part>, tail: seq<Tok<Atom>>)
    requires LogicFields(t.fields) != []
    requires var atoms, ts := BranchAtoms(t, env), Anded(BranchAtoms(t, env), BranchTail(env));
      && ts != []
      && ParseChain(ts[1..]) == match P.Meaning(ps)
                                case None => None
                                case Some(m) => Some((Combined(atoms, isOr, AsAtoms(m)), tail))
    ensures var q := QueryCondition(t, env);
      && (q.Some? <==> P.WellFormed(ps))
      && (q.Some? ==> (NeverMatchesDeleted(t, q.value.0) <==> !isOr && !P.HasOrNew(ps)))
  {
    QueryConditionIs(t, env);
    var atoms, ts := BranchAtoms(t, env), BranchTail(env);
    assert Anded(atoms, ts)[1..] == [Term(atoms[0])] + Anded(atoms[1..], ts);
    P.WellFormedIffMeaning(ps);
    if P.Meaning(ps).Some? {
      P.TopLevelOr(ps);
      SafeIff(t, env, atoms[0], atoms[1..], isOr, P.Meaning(ps).value);
    }
  }

  /** With a wrapper that holds other clauses only, no deleted row is matched. */
  lemma OtherClausesAreSafe(t: Table, env: Env, s: Conditions.Clauses, andOr: string)
    requires LogicFields(t.fields) != []
    requires env.flag("ew!=null") && env.flag("ew.sqlSegment!=null")
    requires Readable(s, andOr) && PartsOf(s) == [] && IsSegmentOf(env, s, andOr)
    ensures var q := QueryCondition(t, env);
      q.Some? && NeverMatchesDeleted(t, q.value.0)
  {
    NoWhereLex(s);
    UnjoinedIsSafe(t, env, AsAtomToks(WrapperToks(s, andOr)));
  }

  lemma UnjoinedIsSafe(t: Table, env: Env, tail: seq<Tok<Atom>>)
    requires LogicFields(t.fields) != [] && BranchTail(env) == tail && NoConnective(tail)
    ensures var q := QueryCondition(t, env);
      q.Some? && q.value.1 == tail && NeverMatchesDeleted(t, q.value.0)
  {
    QueryConditionIs(t, env);
    var atoms := BranchAtoms(t, env);
    ConjunctionBefore(atoms[0], atoms[1..], tail);
    ConjunctionIsSafe(t, env);
  }

  lemma SafeIff(t: Table, env: Env, first: Atom, atoms: seq<Atom>, isOr: bool, m: Chain<string>)
    requires LogicFields(t.fields) != [] && BranchAtoms(t, env) == [first] + atoms
    ensures NeverMatchesDeleted(t, JoinedTo(first, atoms, isOr, AsAtoms(m))) <==> !isOr && !P.HasOr(m)
  {
    var c := JoinedTo(first, atoms, isOr, AsAtoms(m));
    HasOrAsAtoms(m);
    if isOr || P.HasOr(m) {
      var row: Row, unit: string -> bool := map[], _ => true;
      var v := OnRow(row, unit);
      assert forall x :: v(Opaque(x)) by {
        forall x ensures v(Opaque(x)) { assert AtomHolds(row, unit, Opaque(x)); }
      }
      AllUnitsTrue(m, v);
      JoinedByOrHolds(first, atoms, isOr, AsAtoms(m), v);
      assert !NotMarked(LogicFields(t.fields)[0], row);
      assert !Undeleted(LogicFields(t.fields), row);
      assert ChainHolds(c, OnRow(row, unit)) && !IsVisible(t)(row);
    } else {
      forall row: Row, unit: string -> bool | ChainHolds(c, OnRow(row, unit))
        ensures IsVisible(t)(row)
      {
        JoinedByAndHolds(first, atoms, AsAtoms(m), OnRow(row, unit));
        BranchAtomsShow(t, env, row, unit);
      }
    }
  }
}
