/**
 The WHERE clause generated for update(entity, wrapper), on tables with and without logic-delete columns: what
 the database is sent has the condition that the model of optimistic locking works with.
 */
module PlainQuery {

  import opened Injector
  import opened Isolation
  import opened Lists
  import opened LogicDelete
  import opened Options
  import opened Segments
  import opened Sql
  import opened Templates
  import Conditions
  import G = VersionGuard
  import P = ConditionParsing

  const INSIDE := "ew!=null and ew.sqlSegment!=null and ew.notEmptyOfWhere"
  const BEHIND := "ew!=null and ew.sqlSegment!=null and ew.emptyOfWhere"

  // ---------------------------------------------------------------- the template

  function PlainKey(t: Table): seq<Piece> {
    if Conditions.Blank(t.keyProperty) then []
    else Wrap(If(NotNull("ew.entity." + t.keyProperty)), [T(KeyParam(t.keyColumn, "ew.entity." + t.keyProperty))])
  }

  function PlainEntity(t: Table): seq<Piece> {
    Wrap(If(Flag("ew.entity!=null")), PlainKey(t) + Flatten(EachEntityField(t, t.fields)))
  }

  function SegmentIf(test: string): seq<Piece> { Wrap(If(Flag(test)), [T(Segment)]) }

  /** sqlWhereEntityWrapper of a table without logic-delete columns. */
  function PlainWhere(t: Table): seq<Piece> {
    Wrap(WhereTag, Wrap(If(Flag("ew!=null")), PlainEntity(t) + SegmentIf(INSIDE))) + SegmentIf(BEHIND)
  }

  method SqlWhereEntityWrapper(t: Table) returns (ps: seq<Piece>)
    ensures ps == PlainWhere(t)
  {
    var entity: seq<Piece> := [];
    if !Conditions.Blank(t.keyProperty) {
      entity := Wrap(If(NotNull("ew.entity." + t.keyProperty)),
                     [T(KeyParam(t.keyColumn, "ew.entity." + t.keyProperty))]);
    }
    for i := 0 to |t.fields|
      invariant entity == PlainKey(t) + Flatten(EachEntityField(t, t.fields[..i]))
    {
      var f := t.fields[i];
      NextEntityField(t, i);
      Assoc(PlainKey(t), Flatten(EachEntityField(t, t.fields[..i])), EntityField(t, f));
      entity := entity + (ConvertIfTag(t, false, f, "ew.entity.", false) + [T(AndCond(Opaque(f.condition)))]
                          + ConvertIfTag(t, false, f, "ew.entity.", true));
    }
    assert t.fields[..|t.fields|] == t.fields;
    var inside := Wrap(If(Flag("ew.entity!=null")), entity) + Wrap(If(Flag(INSIDE)), [T(Segment)]);
    ps := Wrap(WhereTag, Wrap(If(Flag("ew!=null")), inside)) + Wrap(If(Flag(BEHIND)), [T(Segment)]);
  }

  // ---------------------------------------------------------------- evaluating it

  /** The text without a connective in front. */
  function Leading(ts: seq<Tok<Atom>>): seq<Tok<Atom>> {
    if NoConnective(ts) then ts else ts[1..]
  }

  /** The comparisons of the wrapper's entity: the key comes without AND. */
  function EntityToks(t: Table, env: Env): seq<Tok<Atom>> {
    var ts := Anded(EntityAtoms(t, env), []);
    if env.flag("ew.entity!=null") && KeyAtoms(t, env) != [] then Leading(ts) else ts
  }

  lemma PlainKeyYields(t: Table, env: Env)
    ensures YieldsConds(PlainKey(t), env, Leading(Anded(KeyAtoms(t, env), [])))
  {
    if Conditions.Blank(t.keyProperty) {
      assert RunsTo([], env, []) && Conds([]) == [];
    } else {
      var property := "ew.entity." + t.keyProperty;
      var ts: seq<Tok<Atom>> := [Term(Eq(t.keyColumn, env.value(property)))];
      assert Solid(Render(KeyParam(t.keyColumn, property), env)) == Conds(ts);
      YieldsText(KeyParam(t.keyColumn, property), env, ts);
      YieldsIf(NotNull(property), [T(KeyParam(t.keyColumn, property))], env, ts);
      assert KeyAtoms(t, env) != [] ==> Leading(Anded(KeyAtoms(t, env), [])) == ts;
    }
  }

  lemma PlainEntityYields(t: Table, env: Env)
    ensures YieldsConds(PlainEntity(t), env, EntityToks(t, env))
  {
    var key, fields := KeyAtoms(t, env), FieldAtoms(t, t.fields, env);
    PlainKeyYields(t, env);
    EntityFieldsYield(t, t.fields, env);
    YieldsAppend(PlainKey(t), Flatten(EachEntityField(t, t.fields)), env, Leading(Anded(key, [])), Anded(fields, []));
    YieldsIf(Flag("ew.entity!=null"), PlainKey(t) + Flatten(EachEntityField(t, t.fields)), env,
             Leading(Anded(key, [])) + Anded(fields, []));
    LeadingKey(key, fields);
  }

  lemma LeadingAtoms(atoms: seq<Atom>, tail: seq<Tok<Atom>>)
    requires atoms != []
    ensures Anded(atoms, tail) != [] && !NoConnective(Anded(atoms, tail))
    ensures Leading(Anded(atoms, tail)) == [Term(atoms[0])] + Anded(atoms[1..], tail)
  {
  }

  lemma LeadingKey(key: seq<Atom>, fields: seq<Atom>)
    requires |key| <= 1
    ensures Leading(Anded(key, [])) + Anded(fields, []) ==
            if key == [] then Anded(key + fields, []) else Leading(Anded(key + fields, []))
  {
    if key == [] {
      assert [] + fields == fields && [] + Anded(fields, []) == Anded(fields, []);
    } else {
      LeadingAtoms(key, []);
      LeadingAtoms(key + fields, []);
      assert key[1..] == [] && (key + fields)[1..] == fields;
      assert [Term(key[0])] + [] == [Term(key[0])];
    }
  }

  function TextIf(test: string, env: Env): seq<Tok<Atom>> {
    if env.flag(test) then env.segment else []
  }

  lemma SegmentIfYields(test: string, env: Env)
    ensures YieldsConds(SegmentIf(test), env, TextIf(test, env))
  {
    SolidConds(env.segment);
    YieldsText(Segment, env, env.segment);
    YieldsIf(Flag(test), [T(Segment)], env, env.segment);
  }

  /** What the tags `where` makes of tokens. */
  lemma WhereYields(ps: seq<Piece>, env: Env, ts: seq<Tok<Atom>>) returns (o: seq<Out>)
    requires YieldsConds(ps, env, ts)
    ensures RunsTo(Wrap(WhereTag, ps), env, o)
    ensures Solid(o) == if ts == [] then [] else [Keyword("WHERE")] + Conds(Leading(ts))
  {
    var inner :| RunsTo(ps, env, inner) && Solid(inner) == Conds(ts);
    RunsToElement(WhereTag, ps, env, inner);
    o := WhereOut(inner);
    WhereSolid(inner);
    assert !NoConnective(ts) ==> Conds(ts)[1..] == Conds(ts[1..]);
  }

  /** Dropping the connective in front does not depend on whether the key came without it. */
  lemma LeadingEntity(t: Table, env: Env, inside: seq<Tok<Atom>>)
    ensures Leading(EntityToks(t, env) + inside) == Leading(Anded(EntityAtoms(t, env), inside))
    ensures EntityToks(t, env) + inside == [] <==> Anded(EntityAtoms(t, env), inside) == []
  {
    var atoms := EntityAtoms(t, env);
    AndedTail(atoms, inside);
    if atoms == [] {
      assert Anded(atoms, []) + inside == inside;
    } else {
      LeadingFront(atoms, inside);
    }
  }

  lemma LeadingFront(atoms: seq<Atom>, inside: seq<Tok<Atom>>)
    requires atoms != []
    ensures var ts := Anded(atoms, []);
      && Leading(Leading(ts) + inside) == Leading(ts) + inside && Leading(ts) != []
      && Leading(ts + inside) == Leading(ts) + inside && ts != []
  {
    LeadingAtoms(atoms, []);
    var ts := Anded(atoms, []);
    assert (Leading(ts) + inside)[0] == Term(atoms[0]);
    assert (ts + inside)[0] == ts[0] && (ts + inside)[1..] == ts[1..] + inside;
  }

  /** The whole clause: WHERE, the comparisons of the wrapper's entity and its segment, without the connective
      in front; the segment behind that, if the wrapper holds other clauses only. */
  lemma PlainReads(t: Table, env: Env) returns (o: seq<Out>)
    requires env.flag("ew!=null")
    ensures var ts := Anded(EntityAtoms(t, env), TextIf(INSIDE, env));
      && RunsTo(PlainWhere(t), env, o)
      && Solid(o) == (if ts == [] then [] else [Keyword("WHERE")] + Conds(Leading(ts))) + Conds(TextIf(BEHIND, env))
  {
    var inside := PlainEntity(t) + SegmentIf(INSIDE);
    var ts := EntityToks(t, env) + TextIf(INSIDE, env);
    PlainEntityYields(t, env);
    SegmentIfYields(INSIDE, env);
    YieldsAppend(PlainEntity(t), SegmentIf(INSIDE), env, EntityToks(t, env), TextIf(INSIDE, env));
    YieldsIf(Flag("ew!=null"), inside, env, ts);
    var front := WhereYields(Wrap(If(Flag("ew!=null")), inside), env, ts);
    SegmentIfYields(BEHIND, env);
    var back :| RunsTo(SegmentIf(BEHIND), env, back) && Solid(back) == Conds(TextIf(BEHIND, env));
    RunsToAppend(Wrap(WhereTag, Wrap(If(Flag("ew!=null")), inside)), SegmentIf(BEHIND), env, front, back);
    SolidAppend(front, back);
    LeadingEntity(t, env, TextIf(INSIDE, env));
    o := front + back;
  }

  // ---------------------------------------------------------------- reading it

  /** The condition of an evaluated clause. */
  function ConditionIn(solid: seq<Out>): G.Condition {
    if solid == [] || solid[0] != Keyword("WHERE") then G.NoWhere
    else
      match Tokens(solid[1..])
      case None => G.Broken
      case Some(ts) =>
        match ParseChain(ts)
        case None => G.Broken
        case Some((c, _)) => G.Where(c)
  }

  lemma ConditionOfToks(ts: seq<Tok<Atom>>)
    ensures ConditionIn([Keyword("WHERE")] + Conds(ts)) ==
      match ParseChain(ts)
      case None => G.Broken
      case Some((c, _)) => G.Where(c)
  {
    assert ([Keyword("WHERE")] + Conds(ts))[1..] == Conds(ts);
    TokensOfConds(ts);
  }

  /** The environment of a call with this wrapper. */
  predicate Presents(env: Env, s: Conditions.Clauses, andOr: string) {
    && env.flag("ew!=null") && IsSegmentOf(env, s, andOr)
    && env.flag(INSIDE) == (s.where != [] && Conditions.SqlChunks(s) != [])
    && env.flag(BEHIND) == (s.where == [] && Conditions.SqlChunks(s) != [])
    && env.flag("ew.sqlSegment!=null") == (Conditions.SqlChunks(s) != [])
  }

  /** On a table without logic columns, the condition is read from the wrapper's entity and segment. */
  lemma PlainStatement(t: Table, env: Env, s: Conditions.Clauses, andOr: string) returns (o: seq<Out>)
    requires Readable(s, andOr) && Presents(env, s, andOr)
    ensures RunsTo(PlainWhere(t), env, o)
    ensures ConditionIn(Solid(o)) == G.StatementCondition(EntityAtoms(t, env), s, None, andOr)
  {
    o := PlainReads(t, env);
    PlainConditionIs(EntityAtoms(t, env), env, s, andOr, Solid(o));
  }

  lemma PlainConditionIs(atoms: seq<Atom>, env: Env, s: Conditions.Clauses, andOr: string, solid: seq<Out>)
    requires Readable(s, andOr) && Presents(env, s, andOr)
    requires var ts := Anded(atoms, TextIf(INSIDE, env));
      solid == (if ts == [] then [] else [Keyword("WHERE")] + Conds(Leading(ts))) + Conds(TextIf(BEHIND, env))
    ensures ConditionIn(solid) == G.StatementCondition(atoms, s, None, andOr)
  {
    var segment := AsAtomToks(WrapperToks(s, andOr));
    NoTextNoToks(s, andOr);
    if s.where != [] {
      assert TextIf(INSIDE, env) == segment && TextIf(BEHIND, env) == [];
      PlainInside(atoms, segment, solid);
    } else {
      NoWhereLex(s);
      assert TextIf(INSIDE, env) == [] && TextIf(BEHIND, env) == segment;
      PlainBehind(atoms, segment, solid);
    }
  }

  lemma PlainInside(atoms: seq<Atom>, segment: seq<Tok<Atom>>, solid: seq<Out>)
    requires var ts := Anded(atoms, segment);
      solid == (if ts == [] then [] else [Keyword("WHERE")] + Conds(Leading(ts))) + Conds([])
    ensures ConditionIn(solid) == G.UpdateCondition(atoms, segment)
  {
    var ts := Anded(atoms, segment);
    assert Conds([]) == [];
    if ts != [] {
      ConditionOfToks(Leading(ts));
      assert solid == [Keyword("WHERE")] + Conds(Leading(ts));
    }
  }

  lemma PlainBehind(atoms: seq<Atom>, segment: seq<Tok<Atom>>, solid: seq<Out>)
    requires NoConnective(segment)
    requires var ts := Anded(atoms, []);
      solid == (if ts == [] then [] else [Keyword("WHERE")] + Conds(Leading(ts))) + Conds(segment)
    ensures ConditionIn(solid) == G.UpdateCondition(atoms, [])
  {
    if atoms == [] {
      assert Conds(segment) == solid;
    } else {
      LeadingAtoms(atoms, []);
      AndedTail(atoms[1..], segment);
      CondsBehind([Term(atoms[0])] + Anded(atoms[1..], []), segment);
      Assoc([Term(atoms[0])], Anded(atoms[1..], []), segment);
      ConditionOfToks([Term(atoms[0])] + Anded(atoms[1..], segment));
      ConjunctionAlone(atoms, segment);
    }
  }

  lemma CondsBehind(front: seq<Tok<Atom>>, segment: seq<Tok<Atom>>)
    ensures ([Keyword("WHERE")] + Conds(front)) + Conds(segment) == [Keyword("WHERE")] + Conds(front + segment)
  {
  }

  /** Other clauses behind the comparisons do not matter to the condition. */
  lemma ConjunctionAlone(atoms: seq<Atom>, segment: seq<Tok<Atom>>)
    requires atoms != [] && NoConnective(segment)
    ensures G.UpdateCondition(atoms, []) == G.Where(Conjunction(atoms[0], atoms[1..]))
    ensures ParseChain([Term(atoms[0])] + Anded(atoms[1..], segment)) ==
            Some((Conjunction(atoms[0], atoms[1..]), segment))
  {
    LeadingAtoms(atoms, []);
    ConjunctionBefore(atoms[0], atoms[1..], segment);
    ConjunctionBefore(atoms[0], atoms[1..], []);
  }

  /** On a table with logic columns, their comparisons stand before the segment as well. */
  lemma LogicStatement(t: Table, env: Env, s: Conditions.Clauses, andOr: string)
    requires LogicFields(t.fields) != [] && Readable(s, andOr) && Presents(env, s, andOr)
    ensures G.StatementCondition(BranchAtoms(t, env), s, None, andOr) ==
      match QueryCondition(t, env)
      case None => G.Broken
      case Some((c, _)) => G.Where(c)
  {
    QueryConditionIs(t, env);
    NoTextNoToks(s, andOr);
    assert BranchTail(env) == AsAtomToks(WrapperToks(s, andOr));
    LeadingAtoms(BranchAtoms(t, env), BranchTail(env));
    if s.where == [] {
      NoWhereLex(s);
      ConjunctionAlone(BranchAtoms(t, env), BranchTail(env));
    } else {
      ReadLeading(BranchAtoms(t, env), BranchTail(env));
    }
  }

  lemma NoTextNoToks(s: Conditions.Clauses, andOr: string)
    ensures Conditions.SqlChunks(s) == [] ==> AsAtomToks(WrapperToks(s, andOr)) == []
  {
  }

  lemma ReadLeading(atoms: seq<Atom>, segment: seq<Tok<Atom>>)
    requires atoms != []
    ensures G.UpdateCondition(atoms, segment) ==
      match ParseChain([Term(atoms[0])] + Anded(atoms[1..], segment))
      case None => G.Broken
      case Some((c, _)) => G.Where(c)
  {
    LeadingAtoms(atoms, segment);
  }
}
