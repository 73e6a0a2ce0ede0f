/**
 Soft delete: the statements generated for tables with logic-delete columns, run against rows, and
 what they promise. `Plain` statements are those of a table without such columns.
 */
module LogicDelete {

  import opened Injector
  import opened Lists
  import opened Options
  import opened Sql
  import opened Templates
  import ConditionParsing
  import Conditions

  // ---------------------------------------------------------------- rows and conditions

  type Row = map<string, Value>

  /** A comparison with NULL is never true. `opaque` gives the truth of conditions seen as units. */
  predicate AtomHolds(row: Row, unit: string -> bool, a: Atom) {
    match a
    case Eq(c, v) => v != Null && c in row && row[c] == v
    case InList(c, vs) => c in row && row[c] != Null && row[c] in vs
    case Opaque(x) => unit(x)
  }

  function OnRow(row: Row, unit: string -> bool): Atom -> bool {
    a => AtomHolds(row, unit, a)
  }

  /** The tokens of an evaluated condition; None when it holds anything that is not one. */
  function Tokens(os: seq<Out>): Option<seq<Tok<Atom>>> {
    if os == [] then Some([])
    else if !os[0].Cond? then None
    else match Tokens(os[1..])
         case None => None
         case Some(ts) => Some([os[0].tok] + ts)
  }

  lemma {:induction false} TokensOfConds(ts: seq<Tok<Atom>>)
    ensures Tokens(Conds(ts)) == Some(ts)
  {
    if ts != [] {
      assert Conds(ts)[1..] == Conds(ts[1..]);
      TokensOfConds(ts[1..]);
      assert ts == [ts[0]] + ts[1..];
    }
  }

  /** Evaluates and parses the text behind WHERE. None is an SQL error. */
  function Condition(where: seq<Piece>, env: Env): Option<Chain<Atom>> {
    match Run(where, env)
    case None => None
    case Some((os, rest)) =>
      if rest != [] then None
      else match Tokens(Solid(os))
           case None => None
           case Some(ts) =>
             match ParseChain(ts)
             case None => None
             case Some((c, more)) => if more == [] then Some(c) else None
  }

  ghost predicate YieldsConds(ps: seq<Piece>, env: Env, ts: seq<Tok<Atom>>) {
    exists out :: RunsTo(ps, env, out) && Solid(out) == Conds(ts)
  }

  lemma YieldsAppend(a: seq<Piece>, b: seq<Piece>, env: Env, ta: seq<Tok<Atom>>, tb: seq<Tok<Atom>>)
    requires YieldsConds(a, env, ta) && YieldsConds(b, env, tb)
    ensures YieldsConds(a + b, env, ta + tb)
  {
    var oa :| RunsTo(a, env, oa) && Solid(oa) == Conds(ta);
    var ob :| RunsTo(b, env, ob) && Solid(ob) == Conds(tb);
    RunsToAppend(a, b, env, oa, ob);
    SolidAppend(oa, ob);
    assert Conds(ta) + Conds(tb) == Conds(ta + tb);
  }

  lemma YieldsText(x: Text, env: Env, ts: seq<Tok<Atom>>)
    requires Solid(Render(x, env)) == Conds(ts)
    ensures YieldsConds([T(x)], env, ts)
  {
    RunsToText(x, env);
  }

  lemma YieldsIf(t: Test, ps: seq<Piece>, env: Env, ts: seq<Tok<Atom>>)
    requires YieldsConds(ps, env, ts)
    ensures YieldsConds(Wrap(If(t), ps), env, if TestHolds(t, env) then ts else [])
  {
    var o :| RunsTo(ps, env, o) && Solid(o) == Conds(ts);
    RunsToElement(If(t), ps, env, o);
    assert Solid(Element(If(t), env, o)) == Conds(if TestHolds(t, env) then ts else []);
  }

  lemma YieldsCondition(ps: seq<Piece>, env: Env, ts: seq<Tok<Atom>>, c: Chain<Atom>)
    requires YieldsConds(ps, env, ts) && ParseChain(ts) == Some((c, []))
    ensures Condition(ps, env) == Some(c)
  {
    TokensOfConds(ts);
  }

  // ---------------------------------------------------------------- conjunctions

  /** AND in front of every atom, before `tail`. */
  function Anded(atoms: seq<Atom>, tail: seq<Tok<Atom>>): seq<Tok<Atom>> {
    if atoms == [] then tail else [And] + ([Term(atoms[0])] + Anded(atoms[1..], tail))
  }

  function Conjunction(first: Atom, atoms: seq<Atom>): Chain<Atom>
    decreases |atoms|
  {
    if atoms == [] then One(Leaf(first)) else AndThen(Leaf(first), Conjunction(atoms[0], atoms[1..]))
  }

  lemma {:induction false} ConjunctionParses(first: Atom, atoms: seq<Atom>)
    ensures ParseChain([Term(first)] + Anded(atoms, [])) == Some((Conjunction(first, atoms), []))
    decreases |atoms|
  {
    var ts := [Term(first)] + Anded(atoms, []);
    ConditionParsing.ChainStep(ts, Leaf(first), ts[1..]);
    if atoms != [] {
      ConjunctionParses(atoms[0], atoms[1..]);
      assert ts[1..][1..] == [Term(atoms[0])] + Anded(atoms[1..], []);
    }
  }

  lemma {:induction false} ConjunctionHolds(first: Atom, atoms: seq<Atom>, v: Atom -> bool)
    ensures ChainHolds(Conjunction(first, atoms), v) <==> v(first) && forall i :: 0 <= i < |atoms| ==> v(atoms[i])
    ensures !TailHolds(Conjunction(first, atoms), v)
    decreases |atoms|
  {
    assert Holds(Leaf(first), v) <==> v(first);
    if atoms != [] {
      ConjunctionHolds(atoms[0], atoms[1..], v);
      var c := Conjunction(first, atoms);
      assert HeadHolds(c, v) <==> v(first) && HeadHolds(c.rest, v);
      assert forall i :: 0 < i < |atoms| ==> atoms[i] == atoms[1..][i - 1];
      assert forall i :: 0 <= i < |atoms| - 1 ==> atoms[1..][i] == atoms[i + 1];
    }
  }

  lemma {:induction false} AndedAppend(a: seq<Atom>, b: seq<Atom>)
    ensures Anded(a + b, []) == Anded(a, []) + Anded(b, [])
  {
    if a == [] {
      assert a + b == b;
    } else {
      assert (a + b)[1..] == a[1..] + b;
      AndedAppend(a[1..], b);
      assert [And] + ([Term(a[0])] + (Anded(a[1..], []) + Anded(b, []))) ==
             ([And] + ([Term(a[0])] + Anded(a[1..], []))) + Anded(b, []);
    }
  }

  // ---------------------------------------------------------------- the logic-delete columns

  predicate IsLogic(f: Field) { !Conditions.Blank(f.logicDeleteValue) }

  function LogicFields(fields: seq<Field>): seq<Field> {
    if fields == [] then []
    else (if IsLogic(fields[0]) then [fields[0]] else []) + LogicFields(fields[1..])
  }

  lemma {:induction false} LogicFieldsAppend(fields: seq<Field>, f: Field)
    ensures LogicFields(fields + [f]) == LogicFields(fields) + (if IsLogic(f) then [f] else [])
  {
    if fields == [] {
      assert [f][1..] == [];
      assert fields + [f] == [f];
    } else {
      assert (fields + [f])[1..] == fields[1..] + [f];
      LogicFieldsAppend(fields[1..], f);
      var head := if IsLogic(fields[0]) then [fields[0]] else [];
      Assoc(head, LogicFields(fields[1..]), if IsLogic(f) then [f] else []);
    }
  }

  function UndeletedAtom(f: Field): Atom { Eq(f.column, Val(f.logicNotDeleteValue)) }

  function UndeletedAtoms(fs: seq<Field>): (atoms: seq<Atom>)
    ensures |atoms| == |fs| && forall i :: 0 <= i < |fs| ==> atoms[i] == UndeletedAtom(fs[i])
  {
    seq(|fs|, i requires 0 <= i < |fs| => UndeletedAtom(fs[i]))
  }

  function CondPieces(atoms: seq<Atom>): (ps: seq<Piece>)
    ensures |ps| == |atoms| && forall i :: 0 <= i < |atoms| ==> ps[i] == T(AndCond(atoms[i]))
  {
    seq(|atoms|, i requires 0 <= i < |atoms| => T(AndCond(atoms[i])))
  }

  /** getLogicDeleteSql: one comparison with the not-deleted value per logic column. */
  method GetLogicDeleteSql(t: Table) returns (ps: seq<Piece>)
    ensures ps == CondPieces(UndeletedAtoms(LogicFields(t.fields)))
  {
    ps := [];
    for i := 0 to |t.fields|
      invariant ps == CondPieces(UndeletedAtoms(LogicFields(t.fields[..i])))
    {
      assert t.fields[..i + 1] == t.fields[..i] + [t.fields[i]];
      LogicFieldsAppend(t.fields[..i], t.fields[i]);
      if IsLogic(t.fields[i]) {
        ps := ps + [T(AndCond(UndeletedAtom(t.fields[i])))];
      }
    }
    assert t.fields[..|t.fields|] == t.fields;
  }

  /** The SET list of a soft delete: SET, then one assignment per logic column with commas between. */
  function DeletePieces(fs: seq<Field>): seq<Piece> {
    if fs == [] then [T(SetKeyword)]
    else
      var n := |fs| - 1;
      DeletePieces(fs[..n]) + (if n > 0 then [T(CommaText)] else [])
      + [T(SetLiteral(fs[n].column, Val(fs[n].logicDeleteValue)))]
  }

  lemma NextDelete(fs: seq<Field>, f: Field)
    ensures DeletePieces(fs + [f]) ==
            DeletePieces(fs) + (if |fs| > 0 then [T(CommaText)] else [])
            + [T(SetLiteral(f.column, Val(f.logicDeleteValue)))]
  {
    assert (fs + [f])[..|fs|] == fs;
  }

  /** sqlLogicSet: the counter decides about the comma. */
  method SqlLogicSet(t: Table) returns (ps: seq<Piece>)
    ensures ps == DeletePieces(LogicFields(t.fields))
  {
    ps := [T(SetKeyword)];
    var count := 0;
    for i := 0 to |t.fields|
      invariant count == |LogicFields(t.fields[..i])|
      invariant ps == DeletePieces(LogicFields(t.fields[..i]))
    {
      assert t.fields[..i + 1] == t.fields[..i] + [t.fields[i]];
      LogicFieldsAppend(t.fields[..i], t.fields[i]);
      NextDelete(LogicFields(t.fields[..i]), t.fields[i]);
      if IsLogic(t.fields[i]) {
        ps, count := AppendAssignment(ps, count, t.fields[i]);
      } else {
        assert LogicFields(t.fields[..i + 1]) == LogicFields(t.fields[..i]);
      }
    }
    assert t.fields[..|t.fields|] == t.fields;
  }

  /** The body of that loop for a logic column. */
  method AppendAssignment(ps: seq<Piece>, count: nat, f: Field) returns (more: seq<Piece>, next: nat)
    ensures next == count + 1
    ensures more == ps + (if count > 0 then [T(CommaText)] else [])
                    + [T(SetLiteral(f.column, Val(f.logicDeleteValue)))]
  {
    next, more := count + 1, ps;
    if next > 1 {
      more := more + [T(CommaText)];
    }
    more := more + [T(SetLiteral(f.column, Val(f.logicDeleteValue)))];
  }

  // ---------------------------------------------------------------- SET clauses on rows

  /** The assignments of an evaluated SET clause; None is an SQL error. */
  function ReadSet(os: seq<Out>): Option<seq<(string, SetTo)>> {
    if |os| < 2 || os[0] != Keyword("SET") then None else ReadAssigns(os[1..])
  }

  function ReadAssigns(os: seq<Out>): Option<seq<(string, SetTo)>> {
    if os == [] || !os[0].Assign? then None
    else if |os| == 1 then Some([(os[0].target, os[0].to)])
    else if os[1] != Comma then None
    else match ReadAssigns(os[2..])
         case None => None
         case Some(rest) => Some([(os[0].target, os[0].to)] + rest)
  }

  /** The row after the assignments; `eval` gives the value of a custom update expression. */
  function AssignAll(row: Row, assigns: seq<(string, SetTo)>, eval: (string, Row) -> Value, before: Row): Row
    decreases |assigns|
  {
    if assigns == [] then row
    else
      var (c, to) := assigns[0];
      AssignAll(row[c := match to case ToValue(v) => v case ToText(x) => eval(x, before)], assigns[1..], eval, before)
  }

  function Assigned(set_: seq<Piece>, env: Env): Option<seq<(string, SetTo)>> {
    match Run(set_, env)
    case None => None
    case Some((os, rest)) => if rest == [] then ReadSet(Solid(os)) else None
  }

  // ---------------------------------------------------------------- statements

  datatype Statement =
    | Select(where: seq<Piece>)
    | Delete(where: seq<Piece>)
    | Update(assign: seq<Piece>, where: seq<Piece>)

  datatype Result = Rows(rows: seq<Row>) | Count(n: nat) | SqlError

  function Filter(rows: seq<Row>, p: Row -> bool): seq<Row> {
    if rows == [] then []
    else (if p(rows[0]) then [rows[0]] else []) + Filter(rows[1..], p)
  }

  function MapRows(rows: seq<Row>, p: Row -> bool, f: Row -> Row): seq<Row> {
    if rows == [] then []
    else [if p(rows[0]) then f(rows[0]) else rows[0]] + MapRows(rows[1..], p, f)
  }

  function Selector(c: Chain<Atom>, unit: string -> bool): Row -> bool {
    row => ChainHolds(c, OnRow(row, unit))
  }

  function Updater(assigns: seq<(string, SetTo)>, eval: (string, Row) -> Value): Row -> Row {
    row => AssignAll(row, assigns, eval, row)
  }

  /** Runs a statement on the rows of its table. */
  function Execute(s: Statement, env: Env, unit: string -> bool, eval: (string, Row) -> Value, rows: seq<Row>)
    : (seq<Row>, Result)
  {
    match Condition(s.where, env)
    case None => (rows, SqlError)
    case Some(c) =>
      var p := Selector(c, unit);
      match s
      case Select(_) => (rows, Rows(Filter(rows, p)))
      case Delete(_) => (Filter(rows, row => !p(row)), Count(|Filter(rows, p)|))
      case Update(assign, _) =>
        match Assigned(assign, env)
        case None => (rows, SqlError)
        case Some(assigns) => (MapRows(rows, p, Updater(assigns, eval)), Count(|Filter(rows, p)|))
  }

  // ---------------------------------------------------------------- the generated statements

  function LogicConds(t: Table): seq<Piece> { CondPieces(UndeletedAtoms(LogicFields(t.fields))) }

  function KeyPieces(t: Table, batch: bool, keyProperty: string): seq<Piece> {
    [if batch then T(KeyIn(t.keyColumn)) else T(KeyParam(t.keyColumn, keyProperty))]
  }

  /** The optimistic-lock clause: only when `et` is the substitute map and holds an original version. */
  function VersionPieces(): seq<Piece> {
    Wrap(If(Flag("et instanceof java.util.Map")),
         Wrap(If(NotNull("et.MP_OPTLOCK_VERSION_ORIGINAL")),
              [T(AndDynamic("et.MP_OPTLOCK_VERSION_COLUMN", "et.MP_OPTLOCK_VERSION_ORIGINAL"))]))
  }

  function PlainDelete(t: Table, batch: bool): Statement { Delete(KeyPieces(t, batch, t.keyProperty)) }
  function PlainSelect(t: Table, batch: bool): Statement { Select(KeyPieces(t, batch, t.keyProperty)) }
  function PlainUpdate(t: Table, selective: bool): Statement {
    Update(SqlSetPieces(t, selective, "et."), KeyPieces(t, false, "et." + t.keyProperty) + VersionPieces())
  }

  function SoftDelete(t: Table, batch: bool): Statement {
    Update(DeletePieces(LogicFields(t.fields)), KeyPieces(t, batch, t.keyProperty))
  }
  function SoftSelect(t: Table, batch: bool): Statement {
    Select(KeyPieces(t, batch, t.keyProperty) + LogicConds(t))
  }
  function SoftUpdate(t: Table, selective: bool): Statement {
    Update(SqlSetPieces(t, selective, "et."),
           (KeyPieces(t, false, "et." + t.keyProperty) + VersionPieces()) + LogicConds(t))
  }

  // ---------------------------------------------------------------- what their conditions mean

  /** The key comparison of a call; none for an empty batch, which is an SQL error. */
  function KeyAtom(t: Table, batch: bool, keyProperty: string, env: Env): Option<Atom> {
    if !batch then Some(Eq(t.keyColumn, env.value(keyProperty)))
    else if env.coll == [] then None
    else Some(InList(t.keyColumn, env.coll))
  }

  function VersionAtoms(env: Env): seq<Atom> {
    var column, original := env.value("et.MP_OPTLOCK_VERSION_COLUMN"), env.value("et.MP_OPTLOCK_VERSION_ORIGINAL");
    if env.flag("et instanceof java.util.Map") && original != Null
    then [Eq(if column.Null? then "null" else column.text, original)]
    else []
  }

  lemma SolidAnd(a: Atom)
    ensures Solid([Space, Cond(And), Cond(Term(a))]) == Conds([And, Term(a)])
  {
    var os: seq<Out> := [Space, Cond(And), Cond(Term(a))];
    assert os[1..] == [Cond(And), Cond(Term(a))] && os[1..][1..] == [Cond(Term(a))];
    assert Solid(os[1..][1..]) == [Cond(Term(a))];
    assert Solid(os[1..]) == [Cond(And)] + [Cond(Term(a))];
  }

  lemma {:induction false} CondPiecesYield(atoms: seq<Atom>, env: Env)
    ensures YieldsConds(CondPieces(atoms), env, Anded(atoms, []))
  {
    if atoms == [] {
      assert RunsTo([], env, []);
      assert Conds([]) == [];
    } else {
      CondPiecesYield(atoms[1..], env);
      var first: seq<Tok<Atom>> := [And, Term(atoms[0])];
      SolidAnd(atoms[0]);
      YieldsText(AndCond(atoms[0]), env, first);
      YieldsAppend([T(AndCond(atoms[0]))], CondPieces(atoms[1..]), env, first, Anded(atoms[1..], []));
      assert CondPieces(atoms) == [T(AndCond(atoms[0]))] + CondPieces(atoms[1..]);
      assert first + Anded(atoms[1..], []) == Anded(atoms, []);
    }
  }

  lemma VersionPiecesYield(env: Env)
    ensures YieldsConds(VersionPieces(), env, Anded(VersionAtoms(env), []))
  {
    var text := AndDynamic("et.MP_OPTLOCK_VERSION_COLUMN", "et.MP_OPTLOCK_VERSION_ORIGINAL");
    var column, original := env.value("et.MP_OPTLOCK_VERSION_COLUMN"), env.value("et.MP_OPTLOCK_VERSION_ORIGINAL");
    var atom := Eq(if column.Null? then "null" else column.text, original);
    var ts: seq<Tok<Atom>> := [And, Term(atom)];
    SolidAnd(atom);
    YieldsText(text, env, ts);
    var inner := NotNull("et.MP_OPTLOCK_VERSION_ORIGINAL");
    YieldsIf(inner, [T(text)], env, ts);
    YieldsIf(Flag("et instanceof java.util.Map"), Wrap(If(inner), [T(text)]), env,
             if original != Null then ts else []);
    assert Anded([atom], []) == ts;
  }

  lemma KeyPiecesYield(t: Table, batch: bool, keyProperty: string, env: Env)
    ensures match KeyAtom(t, batch, keyProperty, env)
      case Some(a) => YieldsConds(KeyPieces(t, batch, keyProperty), env, [Term(a)])
      case None => RunsTo(KeyPieces(t, batch, keyProperty), env, [Keyword("IN ()")])
  {
    var x := if batch then KeyIn(t.keyColumn) else KeyParam(t.keyColumn, keyProperty);
    RunsToText(x, env);
    var a := KeyAtom(t, batch, keyProperty, env);
    if a.Some? {
      assert Solid(Render(x, env)) == Conds([Term(a.value)]);
      YieldsText(x, env, [Term(a.value)]);
    }
  }

  /** Every condition generated here is the conjunction of the key comparison and further atoms. */
  lemma KeyedCondition(t: Table, batch: bool, keyProperty: string, more: seq<Piece>, atoms: seq<Atom>, env: Env)
    requires YieldsConds(more, env, Anded(atoms, []))
    ensures Condition(KeyPieces(t, batch, keyProperty) + more, env) ==
      match KeyAtom(t, batch, keyProperty, env)
      case None => None
      case Some(a) => Some(Conjunction(a, atoms))
  {
    KeyPiecesYield(t, batch, keyProperty, env);
    var key := KeyPieces(t, batch, keyProperty);
    match KeyAtom(t, batch, keyProperty, env) {
      case Some(a) =>
        YieldsAppend(key, more, env, [Term(a)], Anded(atoms, []));
        ConjunctionParses(a, atoms);
        YieldsCondition(key + more, env, [Term(a)] + Anded(atoms, []), Conjunction(a, atoms));
      case None =>
        var o :| RunsTo(more, env, o) && Solid(o) == Conds(Anded(atoms, []));
        RunsToAppend(key, more, env, [Keyword("IN ()")], o);
        SolidAppend([Keyword("IN ()")], o);
    }
  }

  lemma KeyOnlyCondition(t: Table, batch: bool, keyProperty: string, env: Env)
    ensures Condition(KeyPieces(t, batch, keyProperty), env) ==
      match KeyAtom(t, batch, keyProperty, env)
      case None => None
      case Some(a) => Some(Conjunction(a, []))
  {
    assert RunsTo([], env, []) && Conds([]) == [];
    KeyedCondition(t, batch, keyProperty, [], [], env);
    assert KeyPieces(t, batch, keyProperty) + [] == KeyPieces(t, batch, keyProperty);
  }
}
