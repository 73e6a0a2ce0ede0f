/**
 Soft delete refines real delete: the generated statements of a table with logic-delete columns do
 to its undeleted rows what the plain statements do to a table that holds only those rows.
 */
module SoftDelete {

  import opened Injector
  import opened Lists
  import opened LogicDelete
  import opened Options
  import opened Sql
  import opened Templates
  import Conditions

  // ---------------------------------------------------------------- the rows that count

  predicate NotMarked(f: Field, row: Row) {
    f.column in row && row[f.column] == Val(f.logicNotDeleteValue)
  }

  predicate Undeleted(fs: seq<Field>, row: Row) {
    forall i :: 0 <= i < |fs| ==> NotMarked(fs[i], row)
  }

  function IsVisible(t: Table): Row -> bool { row => Undeleted(LogicFields(t.fields), row) }

  /** The table as a client of the generated queries sees it. */
  function View(t: Table, rows: seq<Row>): seq<Row> { Filter(rows, IsVisible(t)) }

  predicate DistinctColumns(fs: seq<Field>) {
    forall i, j :: 0 <= i < j < |fs| ==> fs[i].column != fs[j].column
  }

  /** Deleting marks a row: some logic column has different values for deleted and not deleted. */
  predicate DeleteMarks(fs: seq<Field>) {
    exists i :: 0 <= i < |fs| && fs[i].logicDeleteValue != fs[i].logicNotDeleteValue
  }

  // ---------------------------------------------------------------- filtering and mapping rows

  lemma {:induction false} FilterTwice(rows: seq<Row>, p: Row -> bool, q: Row -> bool, both: Row -> bool)
    requires forall row :: row in rows ==> (both(row) <==> p(row) && q(row))
    ensures Filter(Filter(rows, p), q) == Filter(rows, both)
  {
    if rows != [] {
      FilterTwice(rows[1..], p, q, both);
      var rest := Filter(rows[1..], p);
      if p(rows[0]) {
        assert ([rows[0]] + rest)[1..] == rest;
      } else {
        assert [] + rest == rest;
      }
    }
  }

  /** Hiding the rows an update touches is deleting them, exactly when the update hides them all. */
  lemma {:induction false} HideIsDelete(rows: seq<Row>, p: Row -> bool, m: Row -> bool, f: Row -> Row)
    requires forall row :: row in rows && m(row) && p(f(row)) ==> false
    ensures Filter(MapRows(rows, m, f), p) == Filter(Filter(rows, p), row => !m(row))
  {
    if rows != [] {
      HideIsDelete(rows[1..], p, m, f);
      var mapped := MapRows(rows[1..], m, f);
      var first := if m(rows[0]) then f(rows[0]) else rows[0];
      assert ([first] + mapped)[1..] == mapped;
      var rest := Filter(rows[1..], p);
      if p(rows[0]) {
        assert ([rows[0]] + rest)[1..] == rest;
      } else {
        assert [] + rest == rest;
      }
    }
  }

  /** An update that hides nothing commutes with the view. */
  lemma {:induction false} UpdateCommutes(rows: seq<Row>, p: Row -> bool, m: Row -> bool, both: Row -> bool,
                                          f: Row -> Row)
    requires forall row :: row in rows ==> (both(row) <==> p(row) && m(row))
    requires forall row :: row in rows && both(row) ==> p(f(row))
    ensures Filter(MapRows(rows, both, f), p) == MapRows(Filter(rows, p), m, f)
  {
    if rows != [] {
      UpdateCommutes(rows[1..], p, m, both, f);
      var mapped := MapRows(rows[1..], both, f);
      var first := if both(rows[0]) then f(rows[0]) else rows[0];
      assert ([first] + mapped)[1..] == mapped;
      var rest := Filter(rows[1..], p);
      if p(rows[0]) {
        assert ([rows[0]] + rest)[1..] == rest;
      } else {
        assert [] + rest == rest;
      }
    }
  }

  lemma {:induction false} MapLength(rows: seq<Row>, m: Row -> bool, f: Row -> Row)
    ensures |MapRows(rows, m, f)| == |rows|
  {
    if rows != [] {
      MapLength(rows[1..], m, f);
    }
  }

  /** An update that hides a visible row leaves a shorter view. */
  lemma {:induction false} HidingShortens(rows: seq<Row>, p: Row -> bool, m: Row -> bool, f: Row -> Row)
    requires forall row :: row in rows && m(row) ==> p(row)
    ensures |Filter(MapRows(rows, m, f), p)| <= |Filter(rows, p)|
    ensures (exists row :: row in rows && m(row) && !p(f(row))) ==> |Filter(MapRows(rows, m, f), p)| < |Filter(rows, p)|
  {
    if rows != [] {
      HidingShortens(rows[1..], p, m, f);
      var mapped := MapRows(rows[1..], m, f);
      var first := if m(rows[0]) then f(rows[0]) else rows[0];
      assert ([first] + mapped)[1..] == mapped;
      if exists row :: row in rows && m(row) && !p(f(row)) {
        var row :| row in rows && m(row) && !p(f(row));
        assert row != rows[0] ==> row in rows[1..];
      }
    }
  }

  // ---------------------------------------------------------------- conditions on rows

  lemma VisibleAtoms(t: Table, row: Row, unit: string -> bool)
    ensures var atoms := UndeletedAtoms(LogicFields(t.fields));
      IsVisible(t)(row) <==> forall i :: 0 <= i < |atoms| ==> AtomHolds(row, unit, atoms[i])
  {
    var fs := LogicFields(t.fields);
    var atoms := UndeletedAtoms(fs);
    assert IsVisible(t)(row) <==> Undeleted(fs, row);
    if Undeleted(fs, row) {
      forall i | 0 <= i < |atoms| ensures AtomHolds(row, unit, atoms[i]) { assert NotMarked(fs[i], row); }
    }
    if forall i :: 0 <= i < |atoms| ==> AtomHolds(row, unit, atoms[i]) {
      forall i | 0 <= i < |fs| ensures NotMarked(fs[i], row) { assert AtomHolds(row, unit, atoms[i]); }
    }
  }

  lemma VisibleHolds(t: Table, row: Row, unit: string -> bool)
    ensures var logic, v := UndeletedAtoms(LogicFields(t.fields)), OnRow(row, unit);
      IsVisible(t)(row) <==> forall i :: 0 <= i < |logic| ==> v(logic[i])
  {
    var logic, v := UndeletedAtoms(LogicFields(t.fields)), OnRow(row, unit);
    VisibleAtoms(t, row, unit);
    forall i | 0 <= i < |logic|
      ensures v(logic[i]) <==> AtomHolds(row, unit, logic[i])
    {
    }
  }

  lemma SelectorHolds(key: Atom, atoms: seq<Atom>, row: Row, unit: string -> bool)
    ensures var v := OnRow(row, unit);
      Selector(Conjunction(key, atoms), unit)(row) <==> v(key) && forall i :: 0 <= i < |atoms| ==> v(atoms[i])
  {
    ConjunctionHolds(key, atoms, OnRow(row, unit));
  }

  /** Adding the logic-delete comparisons to a condition restricts it to visible rows. */
  lemma VisibleCondition(t: Table, key: Atom, atoms: seq<Atom>, row: Row, unit: string -> bool)
    ensures Selector(Conjunction(key, atoms + UndeletedAtoms(LogicFields(t.fields))), unit)(row)
        <==> IsVisible(t)(row) && Selector(Conjunction(key, atoms), unit)(row)
  {
    var logic := UndeletedAtoms(LogicFields(t.fields));
    SelectorHolds(key, atoms, row, unit);
    SelectorHolds(key, atoms + logic, row, unit);
    AllOfBoth(atoms, logic, OnRow(row, unit));
    VisibleHolds(t, row, unit);
  }

  lemma AllOfBoth(a: seq<Atom>, b: seq<Atom>, v: Atom -> bool)
    ensures (forall i :: 0 <= i < |a + b| ==> v((a + b)[i])) <==>
            (forall i :: 0 <= i < |a| ==> v(a[i])) && (forall i :: 0 <= i < |b| ==> v(b[i]))
  {
    var ab := a + b;
    if forall i :: 0 <= i < |ab| ==> v(ab[i]) {
      forall i | 0 <= i < |a| ensures v(a[i]) { assert ab[i] == a[i]; }
      forall i | 0 <= i < |b| ensures v(b[i]) { assert ab[|a| + i] == b[i]; }
    }
  }

  // ---------------------------------------------------------------- the SET list of a soft delete

  function DeleteAssigns(fs: seq<Field>): (xs: seq<(string, SetTo)>)
    ensures |xs| == |fs|
    ensures forall i :: 0 <= i < |fs| ==> xs[i] == (fs[i].column, ToValue(Val(fs[i].logicDeleteValue)))
  {
    seq(|fs|, i requires 0 <= i < |fs| => (fs[i].column, ToValue(Val(fs[i].logicDeleteValue))))
  }

  /** A SET list as it is evaluated: assignments with commas between. */
  function SetOuts(xs: seq<(string, SetTo)>): seq<Out> {
    if xs == [] then []
    else if |xs| == 1 then [Assign(xs[0].0, xs[0].1)]
    else [Assign(xs[0].0, xs[0].1), Comma] + SetOuts(xs[1..])
  }

  lemma {:induction false} ReadSetOuts(xs: seq<(string, SetTo)>)
    requires xs != []
    ensures ReadAssigns(SetOuts(xs)) == Some(xs)
  {
    if |xs| > 1 {
      ReadSetOuts(xs[1..]);
      var os := SetOuts(xs);
      assert os[2..] == SetOuts(xs[1..]);
      assert xs == [xs[0]] + xs[1..];
    } else {
      assert xs == [(xs[0].0, xs[0].1)];
    }
  }

  lemma {:induction false} SetOutsAppend(xs: seq<(string, SetTo)>, x: (string, SetTo))
    ensures SetOuts(xs + [x]) == SetOuts(xs) + (if |xs| > 0 then [Comma] else []) + [Assign(x.0, x.1)]
    ensures Solid(SetOuts(xs)) == SetOuts(xs)
  {
    if xs == [] {
      assert xs + [x] == [x];
    } else {
      assert (xs + [x])[1..] == xs[1..] + [x];
      SetOutsAppend(xs[1..], x);
      var two := [Assign(xs[0].0, xs[0].1), Comma];
      if |xs| > 1 {
        SolidAppend(two, SetOuts(xs[1..]));
        assert two[1..] == [Comma];
        assert two + (SetOuts(xs[1..]) + [Comma] + [Assign(x.0, x.1)]) ==
               (two + SetOuts(xs[1..])) + [Comma] + [Assign(x.0, x.1)];
      }
    }
  }

  lemma {:induction false} DeletePiecesRun(fs: seq<Field>, env: Env)
    ensures RunsTo(DeletePieces(fs), env, [Keyword("SET")] + SetOuts(DeleteAssigns(fs)))
  {
    if fs == [] {
      RunsToText(SetKeyword, env);
      assert [Keyword("SET")] + [] == [Keyword("SET")];
    } else {
      var n := |fs| - 1;
      DeletePiecesRun(fs[..n], env);
      var before, f := DeleteAssigns(fs[..n]), fs[n];
      assert DeleteAssigns(fs) == before + [(f.column, ToValue(Val(f.logicDeleteValue)))];
      SetOutsAppend(before, (f.column, ToValue(Val(f.logicDeleteValue))));
      var comma := if n > 0 then [T(CommaText)] else [];
      var commaOut := if n > 0 then [Comma] else [];
      if n > 0 {
        RunsToText(CommaText, env);
      } else {
        assert RunsTo([], env, []);
      }
      RunsToText(SetLiteral(f.column, Val(f.logicDeleteValue)), env);
      var out := [Keyword("SET")] + SetOuts(before);
      RunsToAppend(DeletePieces(fs[..n]), comma, env, out, commaOut);
      RunsToAppend(DeletePieces(fs[..n]) + comma, [T(SetLiteral(f.column, Val(f.logicDeleteValue)))], env,
                   out + commaOut, [Assign(f.column, ToValue(Val(f.logicDeleteValue)))]);
      assert out + commaOut + [Assign(f.column, ToValue(Val(f.logicDeleteValue)))] ==
             [Keyword("SET")] + SetOuts(DeleteAssigns(fs));
    }
  }

  lemma DeleteAssigned(t: Table, env: Env)
    requires LogicFields(t.fields) != []
    ensures Assigned(DeletePieces(LogicFields(t.fields)), env) == Some(DeleteAssigns(LogicFields(t.fields)))
  {
    var fs := LogicFields(t.fields);
    var xs := DeleteAssigns(fs);
    DeletePiecesRun(fs, env);
    SetOutsAppend(xs, xs[0]);
    SolidAppend([Keyword("SET")], SetOuts(xs));
    assert ([Keyword("SET")] + SetOuts(xs))[1..] == SetOuts(xs);
    ReadSetOuts(xs);
  }

  // ---------------------------------------------------------------- what assignments do to a row

  /** Columns that are not assigned keep their value. */
  lemma {:induction false} UnassignedKeeps(row: Row, xs: seq<(string, SetTo)>, eval: (string, Row) -> Value,
                                           before: Row, c: string)
    requires forall i :: 0 <= i < |xs| ==> xs[i].0 != c
    ensures var after := AssignAll(row, xs, eval, before);
      (c in after <==> c in row) && (c in row ==> after[c] == row[c])
    decreases |xs|
  {
    if xs != [] {
      var (col, to) := xs[0];
      var next := row[col := match to case ToValue(v) => v case ToText(x) => eval(x, before)];
      UnassignedKeeps(next, xs[1..], eval, before, c);
    }
  }

  lemma {:induction false} DeleteSets(row: Row, fs: seq<Field>, eval: (string, Row) -> Value, before: Row, i: nat)
    requires DistinctColumns(fs) && i < |fs|
    ensures var after := AssignAll(row, DeleteAssigns(fs), eval, before);
      fs[i].column in after && after[fs[i].column] == Val(fs[i].logicDeleteValue)
    decreases |fs|
  {
    var xs := DeleteAssigns(fs);
    var next := row[fs[0].column := Val(fs[0].logicDeleteValue)];
    assert xs[1..] == DeleteAssigns(fs[1..]);
    if i == 0 {
      UnassignedKeeps(next, xs[1..], eval, before, fs[0].column);
    } else {
      DeleteSets(next, fs[1..], eval, before, i - 1);
    }
  }

  /** After a soft delete a row is visible only if deleting marks nothing. */
  lemma DeletedIsHidden(row: Row, fs: seq<Field>, eval: (string, Row) -> Value)
    requires DistinctColumns(fs)
    ensures Undeleted(fs, Updater(DeleteAssigns(fs), eval)(row)) <==> !DeleteMarks(fs)
  {
    var after := Updater(DeleteAssigns(fs), eval)(row);
    forall i | 0 <= i < |fs|
      ensures NotMarked(fs[i], after) <==>
              fs[i].logicDeleteValue == fs[i].logicNotDeleteValue
    {
      DeleteSets(row, fs, eval, row, i);
    }
  }

  /** The last assignment to a column, if there is one. */
  function LastTo(xs: seq<(string, SetTo)>, c: string): Option<SetTo> {
    if xs == [] then None
    else
      match LastTo(xs[1..], c)
      case Some(to) => Some(to)
      case None => if xs[0].0 == c then Some(xs[0].1) else None
  }

  function Written(to: SetTo, eval: (string, Row) -> Value, before: Row): Value {
    match to case ToValue(v) => v case ToText(x) => eval(x, before)
  }

  /** A column ends up with what is assigned to it last. */
  lemma {:induction false} LastIsWritten(row: Row, xs: seq<(string, SetTo)>, eval: (string, Row) -> Value,
                                         before: Row, c: string)
    ensures var after := AssignAll(row, xs, eval, before);
      match LastTo(xs, c)
      case None => (c in after <==> c in row) && (c in row ==> after[c] == row[c])
      case Some(to) => c in after && after[c] == Written(to, eval, before)
    decreases |xs|
  {
    if xs != [] {
      var (col, to) := xs[0];
      LastIsWritten(row[col := Written(to, eval, before)], xs[1..], eval, before, c);
    }
  }

  /** The assignments leave a visible row unmarked in f's column. */
  predicate KeepsUnmarked(f: Field, xs: seq<(string, SetTo)>, eval: (string, Row) -> Value, row: Row) {
    match LastTo(xs, f.column)
    case None => true
    case Some(to) => Written(to, eval, row) == Val(f.logicNotDeleteValue)
  }

  predicate AllKeptUnmarked(fs: seq<Field>, xs: seq<(string, SetTo)>, eval: (string, Row) -> Value, row: Row) {
    forall j :: 0 <= j < |fs| ==> KeepsUnmarked(fs[j], xs, eval, row)
  }

  lemma StaysVisibleIff(t: Table, xs: seq<(string, SetTo)>, eval: (string, Row) -> Value, row: Row)
    requires IsVisible(t)(row)
    ensures IsVisible(t)(Updater(xs, eval)(row)) == AllKeptUnmarked(LogicFields(t.fields), xs, eval, row)
  {
    var fs, after := LogicFields(t.fields), Updater(xs, eval)(row);
    assert Undeleted(fs, row) && IsVisible(t)(after) == Undeleted(fs, after);
    forall j | 0 <= j < |fs|
      ensures NotMarked(fs[j], after) <==> KeepsUnmarked(fs[j], xs, eval, row)
    {
      assert NotMarked(fs[j], row);
      LastIsWritten(row, xs, eval, row, fs[j].column);
    }
  }

  /** The last value assigned to each logic column, if any, is the not-deleted one. */
  predicate WritesUnmarked(fs: seq<Field>, xs: seq<(string, SetTo)>) {
    forall j :: 0 <= j < |fs| ==>
      LastTo(xs, fs[j].column) in {None, Some(ToValue(Val(fs[j].logicNotDeleteValue)))}
  }

  /** No logic column is assigned a custom expression last. */
  predicate WritesValues(fs: seq<Field>, xs: seq<(string, SetTo)>) {
    forall j :: 0 <= j < |fs| ==> LastTo(xs, fs[j].column).None? || LastTo(xs, fs[j].column).value.ToValue?
  }

  lemma UnmarkedStaysVisible(t: Table, xs: seq<(string, SetTo)>, eval: (string, Row) -> Value, row: Row)
    requires IsVisible(t)(row)
    ensures WritesUnmarked(LogicFields(t.fields), xs) ==> IsVisible(t)(Updater(xs, eval)(row))
    ensures WritesValues(LogicFields(t.fields), xs) && IsVisible(t)(Updater(xs, eval)(row)) ==>
            WritesUnmarked(LogicFields(t.fields), xs)
  {
    StaysVisibleIff(t, xs, eval, row);
    var fs := LogicFields(t.fields);
    if WritesValues(fs, xs) && IsVisible(t)(Updater(xs, eval)(row)) {
      forall j | 0 <= j < |fs|
        ensures LastTo(xs, fs[j].column) in {None, Some(ToValue(Val(fs[j].logicNotDeleteValue)))}
      {
        assert KeepsUnmarked(fs[j], xs, eval, row);
      }
    }
  }

  // ---------------------------------------------------------------- one operation

  datatype Op =
    | DeleteOp(batch: bool, env: Env)
    | SelectOp(batch: bool, env: Env)
    | UpdateOp(selective: bool, env: Env)

  function SoftStatement(t: Table, op: Op): Statement {
    match op
    case DeleteOp(batch, _) => LogicDelete.SoftDelete(t, batch)
    case SelectOp(batch, _) => SoftSelect(t, batch)
    case UpdateOp(selective, _) => SoftUpdate(t, selective)
  }

  function PlainStatement(t: Table, op: Op): Statement {
    match op
    case DeleteOp(batch, _) => PlainDelete(t, batch)
    case SelectOp(batch, _) => PlainSelect(t, batch)
    case UpdateOp(selective, _) => PlainUpdate(t, selective)
  }

  /** What is compared: rows and counts, but not the count of a delete (see DeleteCounts). */
  function Observed(op: Op, r: Result): Result {
    if op.DeleteOp? && r.Count? then Count(0) else r
  }

  lemma SelectConditions(t: Table, batch: bool, env: Env)
    ensures var logic := UndeletedAtoms(LogicFields(t.fields));
      Condition(SoftSelect(t, batch).where, env) ==
      match KeyAtom(t, batch, t.keyProperty, env)
      case None => None
      case Some(a) => Some(Conjunction(a, [] + logic))
  {
    var logic := UndeletedAtoms(LogicFields(t.fields));
    CondPiecesYield(logic, env);
    KeyedCondition(t, batch, t.keyProperty, LogicConds(t), logic, env);
    assert [] + logic == logic;
  }

  lemma UpdateConditions(t: Table, selective: bool, env: Env)
    ensures var logic, key := UndeletedAtoms(LogicFields(t.fields)), Eq(t.keyColumn, env.value("et." + t.keyProperty));
      && Condition(PlainUpdate(t, selective).where, env) == Some(Conjunction(key, VersionAtoms(env)))
      && Condition(SoftUpdate(t, selective).where, env) == Some(Conjunction(key, VersionAtoms(env) + logic))
  {
    var logic := UndeletedAtoms(LogicFields(t.fields));
    var version := VersionAtoms(env);
    CondPiecesYield(logic, env);
    VersionPiecesYield(env);
    KeyedCondition(t, false, "et." + t.keyProperty, VersionPieces(), version, env);
    YieldsAppend(VersionPieces(), LogicConds(t), env, Anded(version, []), Anded(logic, []));
    AndedAppend(version, logic);
    KeyedCondition(t, false, "et." + t.keyProperty, VersionPieces() + LogicConds(t), version + logic, env);
    Assoc(KeyPieces(t, false, "et." + t.keyProperty), VersionPieces(), LogicConds(t));
  }

  /** The logic template of a query selects, of all rows, what the plain one selects of the view. */
  lemma SelectRefines(t: Table, batch: bool, env: Env, unit: string -> bool,
                      eval: (string, Row) -> Value, rows: seq<Row>)
    ensures Execute(SoftSelect(t, batch), env, unit, eval, rows).1 ==
            Execute(PlainSelect(t, batch), env, unit, eval, View(t, rows)).1
  {
    SelectConditions(t, batch, env);
    KeyOnlyCondition(t, batch, t.keyProperty, env);
    var a := KeyAtom(t, batch, t.keyProperty, env);
    if a.Some? {
      var logic := UndeletedAtoms(LogicFields(t.fields));
      forall row | row in rows
        ensures Selector(Conjunction(a.value, [] + logic), unit)(row) <==>
                IsVisible(t)(row) && Selector(Conjunction(a.value, []), unit)(row)
      {
        VisibleCondition(t, a.value, [], row, unit);
      }
      FilterTwice(rows, IsVisible(t), Selector(Conjunction(a.value, []), unit),
                  Selector(Conjunction(a.value, [] + logic), unit));
    }
  }

  /** A soft delete hides what a real delete removes, on every table, if deleting marks rows. */
  lemma DeleteRefines(t: Table, batch: bool, env: Env, unit: string -> bool,
                      eval: (string, Row) -> Value, rows: seq<Row>)
    requires LogicFields(t.fields) != [] && DistinctColumns(LogicFields(t.fields)) && DeleteMarks(LogicFields(t.fields))
    ensures var (soft, r) := Execute(LogicDelete.SoftDelete(t, batch), env, unit, eval, rows);
      var (hard, r') := Execute(PlainDelete(t, batch), env, unit, eval, View(t, rows));
      View(t, soft) == hard && (r.SqlError? <==> r'.SqlError?) && (r.Count? <==> r'.Count?)
  {
    KeyOnlyCondition(t, batch, t.keyProperty, env);
    DeleteAssigned(t, env);
    var a := KeyAtom(t, batch, t.keyProperty, env);
    if a.Some? {
      var fs := LogicFields(t.fields);
      var m := Selector(Conjunction(a.value, []), unit);
      var f := Updater(DeleteAssigns(fs), eval);
      forall row | row in rows
        ensures !IsVisible(t)(f(row))
      {
        DeletedIsHidden(row, fs, eval);
      }
      HideIsDelete(rows, IsVisible(t), m, f);
    }
  }

  /** The counts differ by the matching rows that were deleted before: a soft delete counts them again. */
  lemma DeleteCounts(t: Table, batch: bool, env: Env, unit: string -> bool,
                     eval: (string, Row) -> Value, rows: seq<Row>)
    requires LogicFields(t.fields) != [] && KeyAtom(t, batch, t.keyProperty, env).Some?
    ensures var r := Execute(LogicDelete.SoftDelete(t, batch), env, unit, eval, rows).1;
      var r' := Execute(PlainDelete(t, batch), env, unit, eval, View(t, rows)).1;
      var again := Filter(Filter(rows, row => !IsVisible(t)(row)),
                          Selector(Conjunction(KeyAtom(t, batch, t.keyProperty, env).value, []), unit));
      r.Count? && r'.Count? && r.n == r'.n + |again|
  {
    KeyOnlyCondition(t, batch, t.keyProperty, env);
    DeleteAssigned(t, env);
    var m := Selector(Conjunction(KeyAtom(t, batch, t.keyProperty, env).value, []), unit);
    FilterSplit(rows, IsVisible(t), m);
  }

  lemma {:induction false} FilterSplit(rows: seq<Row>, p: Row -> bool, m: Row -> bool)
    ensures |Filter(rows, m)| == |Filter(Filter(rows, p), m)| + |Filter(Filter(rows, row => !p(row)), m)|
  {
    if rows != [] {
      FilterSplit(rows[1..], p, m);
      var yes, no := Filter(rows[1..], p), Filter(rows[1..], row => !p(row));
      assert ([rows[0]] + yes)[1..] == yes && ([rows[0]] + no)[1..] == no;
      assert [] + yes == yes && [] + no == no;
    }
  }

  /** An update by id of a soft-delete table touches the visible rows only, and agrees with the plain
      update of the view exactly when it hides none of the rows it touches. */
  lemma UpdateRefinesIff(t: Table, selective: bool, env: Env, unit: string -> bool,
                         eval: (string, Row) -> Value, rows: seq<Row>)
    ensures var (soft, r) := Execute(SoftUpdate(t, selective), env, unit, eval, rows);
      var (hard, r') := Execute(PlainUpdate(t, selective), env, unit, eval, View(t, rows));
      var xs := Assigned(SqlSetPieces(t, selective, "et."), env);
      && r == r'
      && (xs.None? ==> r.SqlError? && soft == rows && hard == View(t, rows))
      && (xs.Some? ==>
            var m := Selector(Conjunction(Eq(t.keyColumn, env.value("et." + t.keyProperty)), VersionAtoms(env)), unit);
            (View(t, soft) == hard <==>
             forall row :: row in rows && IsVisible(t)(row) && m(row) ==> IsVisible(t)(Updater(xs.value, eval)(row))))
  {
    UpdateConditions(t, selective, env);
    var key, logic := Eq(t.keyColumn, env.value("et." + t.keyProperty)), UndeletedAtoms(LogicFields(t.fields));
    var m := Selector(Conjunction(key, VersionAtoms(env)), unit);
    var both := Selector(Conjunction(key, VersionAtoms(env) + logic), unit);
    forall row | row in rows
      ensures both(row) <==> IsVisible(t)(row) && m(row)
    {
      VisibleCondition(t, key, VersionAtoms(env), row, unit);
    }
    FilterTwice(rows, IsVisible(t), m, both);
    var xs := Assigned(SqlSetPieces(t, selective, "et."), env);
    if xs.Some? {
      var f := Updater(xs.value, eval);
      if forall row :: row in rows && IsVisible(t)(row) && m(row) ==> IsVisible(t)(f(row)) {
        UpdateCommutes(rows, IsVisible(t), m, both, f);
      } else {
        HidingShortens(rows, IsVisible(t), both, f);
        MapLength(View(t, rows), m, f);
      }
    }
  }

  /** Some row that the update touches. */
  ghost predicate Touches(t: Table, rows: seq<Row>, m: Row -> bool) {
    exists row :: row in rows && IsVisible(t)(row) && m(row)
  }

  /** What a caller can check: when no custom expression is assigned to a logic column, the update refines
      the plain one exactly when it touches no row, or the last value that it assigns to each logic column
      is the not-deleted one. */
  lemma UpdateRefinesIffUnmarked(t: Table, selective: bool, env: Env, unit: string -> bool,
                                 eval: (string, Row) -> Value, rows: seq<Row>, xs: seq<(string, SetTo)>)
    requires Assigned(SqlSetPieces(t, selective, "et."), env) == Some(xs)
    requires WritesValues(LogicFields(t.fields), xs)
    ensures var m := Selector(Conjunction(Eq(t.keyColumn, env.value("et." + t.keyProperty)), VersionAtoms(env)), unit);
      View(t, Execute(SoftUpdate(t, selective), env, unit, eval, rows).0) ==
      Execute(PlainUpdate(t, selective), env, unit, eval, View(t, rows)).0 <==>
      !Touches(t, rows, m) || WritesUnmarked(LogicFields(t.fields), xs)
  {
    UpdateRefinesIff(t, selective, env, unit, eval, rows);
    forall row | IsVisible(t)(row)
      ensures IsVisible(t)(Updater(xs, eval)(row)) <==> WritesUnmarked(LogicFields(t.fields), xs)
    {
      UnmarkedStaysVisible(t, xs, eval, row);
    }
  }

  // ---------------------------------------------------------------- writing a loaded entity back

  /** What is read as an assignment is one of the items. */
  lemma {:induction false} ReadIsItem(os: seq<Out>, x: (string, SetTo))
    requires ReadAssigns(os).Some? && x in ReadAssigns(os).value
    ensures Assign(x.0, x.1) in os
    decreases |os|
  {
    if |os| > 1 && x != (os[0].target, os[0].to) {
      ReadIsItem(os[2..], x);
    }
  }

  lemma {:induction false} JoinedHolds(os: seq<Out>, o: Out)
    requires o in Joined(os) && o != Comma
    ensures o in os
  {
    if |os| > 1 && o != os[0] {
      JoinedHolds(os[1..], o);
    }
  }

  lemma {:induction false} FlatHolds<A>(xss: seq<seq<A>>, x: A) returns (i: nat)
    requires x in Flatten(xss)
    ensures i < |xss| && x in xss[i]
  {
    if x in xss[0] {
      i := 0;
    } else {
      var k := FlatHolds(xss[1..], x);
      i := k + 1;
    }
  }

  /** Every assignment of the SET clause comes from a field. */
  lemma AssignedFromField(t: Table, selective: bool, env: Env, xs: seq<(string, SetTo)>, x: (string, SetTo))
    returns (i: nat)
    requires Assigned(SqlSetPieces(t, selective, "et."), env) == Some(xs) && x in xs
    ensures i < |t.fields| && Assign(x.0, x.1) in FieldAssignment(t, selective, "et.", env, t.fields[i])
  {
    var o := SetClause(t, selective, "et.", env);
    var all := Flatten(Assignments(t, selective, "et.", env, t.fields));
    assert ([Keyword("SET")] + Joined(all))[1..] == Joined(all);
    ReadIsItem(Joined(all), x);
    JoinedHolds(all, Assign(x.0, x.1));
    i := FlatHolds(Assignments(t, selective, "et.", env, t.fields), Assign(x.0, x.1));
  }

  lemma {:induction false} LastIsAssigned(xs: seq<(string, SetTo)>, c: string)
    requires LastTo(xs, c).Some?
    ensures (c, LastTo(xs, c).value) in xs
  {
    if LastTo(xs[1..], c).Some? {
      LastIsAssigned(xs[1..], c);
    }
  }

  lemma {:induction false} LogicFieldIs(fields: seq<Field>, j: nat) returns (i: nat)
    requires j < |LogicFields(fields)|
    ensures i < |fields| && fields[i] == LogicFields(fields)[j] && IsLogic(fields[i])
    decreases |fields|
  {
    if IsLogic(fields[0]) && j == 0 {
      i := 0;
    } else {
      var k := LogicFieldIs(fields[1..], if IsLogic(fields[0]) then j - 1 else j);
      i := k + 1;
    }
  }

  /** The ordinary update: an entity that was loaded from a visible row, and whose logic properties have
      not been changed since, is written back harmlessly, whatever the mode and the other properties. */
  lemma LoadedEntityIsHarmless(t: Table, selective: bool, env: Env)
    requires DistinctColumns(t.fields)
    requires forall f :: f in t.fields && IsLogic(f) ==>
               Conditions.Blank(f.update) && env.value("et." + f.el) == Val(f.logicNotDeleteValue)
    ensures Harmless(t, UpdateOp(selective, env))
  {
    var written := Assigned(SqlSetPieces(t, selective, "et."), env);
    if written.Some? {
      var xs, fs := written.value, LogicFields(t.fields);
      forall j | 0 <= j < |fs|
        ensures LastTo(xs, fs[j].column) in {None, Some(ToValue(Val(fs[j].logicNotDeleteValue)))}
      {
        if LastTo(xs, fs[j].column).Some? {
          LastIsAssigned(xs, fs[j].column);
          var x := (fs[j].column, LastTo(xs, fs[j].column).value);
          var i := AssignedFromField(t, selective, env, xs, x);
          var k := LogicFieldIs(t.fields, j);
          assert t.fields[i].column == t.fields[k].column;
        }
      }
    }
  }

  // ---------------------------------------------------------------- whole runs

  /** An update that leaves the logic columns alone, or writes the not-deleted values back. */
  predicate Harmless(t: Table, op: Op) {
    op.UpdateOp? ==>
      var xs := Assigned(SqlSetPieces(t, op.selective, "et."), op.env);
      xs.Some? ==> WritesUnmarked(LogicFields(t.fields), xs.value)
  }

  function RunSoft(t: Table, ops: seq<Op>, unit: string -> bool, eval: (string, Row) -> Value, rows: seq<Row>)
    : (seq<Row>, seq<Result>)
    decreases |ops|
  {
    if ops == [] then (rows, [])
    else
      var (next, r) := Execute(SoftStatement(t, ops[0]), ops[0].env, unit, eval, rows);
      var (end, rs) := RunSoft(t, ops[1..], unit, eval, next);
      (end, [Observed(ops[0], r)] + rs)
  }

  function RunPlain(t: Table, ops: seq<Op>, unit: string -> bool, eval: (string, Row) -> Value, rows: seq<Row>)
    : (seq<Row>, seq<Result>)
    decreases |ops|
  {
    if ops == [] then (rows, [])
    else
      var (next, r) := Execute(PlainStatement(t, ops[0]), ops[0].env, unit, eval, rows);
      var (end, rs) := RunPlain(t, ops[1..], unit, eval, next);
      (end, [Observed(ops[0], r)] + rs)
  }

  lemma StepRefines(t: Table, op: Op, unit: string -> bool, eval: (string, Row) -> Value, rows: seq<Row>)
    requires LogicFields(t.fields) != [] && DistinctColumns(LogicFields(t.fields)) && DeleteMarks(LogicFields(t.fields))
    requires Harmless(t, op)
    ensures var (soft, r) := Execute(SoftStatement(t, op), op.env, unit, eval, rows);
      var (hard, r') := Execute(PlainStatement(t, op), op.env, unit, eval, View(t, rows));
      View(t, soft) == hard && Observed(op, r) == Observed(op, r')
  {
    match op {
      case DeleteOp(batch, env) =>
        DeleteRefines(t, batch, env, unit, eval, rows);
      case SelectOp(batch, env) =>
        SelectRefines(t, batch, env, unit, eval, rows);
      case UpdateOp(selective, env) =>
        UpdateRefinesIff(t, selective, env, unit, eval, rows);
        var xs := Assigned(SqlSetPieces(t, selective, "et."), env);
        if xs.Some? {
          forall row | IsVisible(t)(row) ensures IsVisible(t)(Updater(xs.value, eval)(row)) {
            UnmarkedStaysVisible(t, xs.value, eval, row);
          }
        }
    }
  }

  /** Every run: deletes, selects and updates on the soft-delete table give the results and the visible
      rows that the plain statements give on a table of the undeleted rows alone. */
  lemma {:induction false} SoftDeleteRefinesDelete(t: Table, ops: seq<Op>, unit: string -> bool,
                                                   eval: (string, Row) -> Value, rows: seq<Row>)
    requires LogicFields(t.fields) != [] && DistinctColumns(LogicFields(t.fields)) && DeleteMarks(LogicFields(t.fields))
    requires forall op :: op in ops ==> Harmless(t, op)
    ensures var (soft, rs) := RunSoft(t, ops, unit, eval, rows);
      var (hard, rs') := RunPlain(t, ops, unit, eval, View(t, rows));
      View(t, soft) == hard && rs == rs'
    decreases |ops|
  {
    if ops != [] {
      StepRefines(t, ops[0], unit, eval, rows);
      SoftDeleteRefinesDelete(t, ops[1..], unit, eval,
                              Execute(SoftStatement(t, ops[0]), ops[0].env, unit, eval, rows).0);
    }
  }
}
