/**
 Optimistic locking: the interceptor that turns an update into a compare-and-set on the version
 column, as one call on objects (entity, parameter map, wrapper, stored row), and when a caller's
 wrapper keeps it one.
 */
module OptimisticLock {

  import opened ConditionParsing
  import opened Options
  import opened Segments
  import opened Sql
  import opened VersionGuard
  import FluentWrapper
  import H = WrapperHistory
  import Placeholders
  import Templates

  // ---------------------------------------------------------------- version values

  /** The Java type of the version field. Date and Timestamp are not part of this model. */
  datatype Kind = IntKind | LongKind | OtherKind

  /** How many commits it takes for a version value to come back. */
  function Modulus(k: Kind): (m: int)
    ensures m > 0
  {
    match k
    case IntKind => 0x1_0000_0000
    case LongKind => 0x1_0000_0000_0000_0000
    case OtherKind => 1
  }

  function MaxValue(k: Kind): int { Modulus(k) / 2 - 1 }

  predicate InRange(k: Kind, v: int) {
    k != OtherKind ==> -(Modulus(k) / 2) <= v <= MaxValue(k)
  }

  /** The updated version value: Java's wrapping `+ 1`, or the value itself for an unsupported type. */
  function Next(k: Kind, v: int): int {
    if k == OtherKind then v
    else if v == MaxValue(k) then -(Modulus(k) / 2)
    else v + 1
  }

  /** The version a row carries after n commits. */
  function After(k: Kind, v0: int, n: nat): int {
    if n == 0 then v0 else Next(k, After(k, v0, n - 1))
  }

  lemma {:induction false} AfterClosedForm(k: Kind, v0: int, n: nat)
    requires InRange(k, v0)
    ensures InRange(k, After(k, v0, n))
    ensures k != OtherKind ==> After(k, v0, n) == (v0 + n + Modulus(k) / 2) % Modulus(k) - Modulus(k) / 2
    ensures k == OtherKind ==> After(k, v0, n) == v0
  {
    if n > 0 {
      AfterClosedForm(k, v0, n - 1);
      ModSuccessor(v0 + n - 1 + Modulus(k) / 2, Modulus(k));
    } else if k != OtherKind {
      SmallMod(v0 + Modulus(k) / 2, Modulus(k));
    }
  }

  /** Two commits leave the same version exactly when they are a whole number of wrap-arounds apart. */
  lemma SameVersionIff(k: Kind, v0: int, m: nat, n: nat)
    requires InRange(k, v0) && m <= n
    ensures After(k, v0, m) == After(k, v0, n) <==> (n - m) % Modulus(k) == 0
  {
    AfterClosedForm(k, v0, m);
    AfterClosedForm(k, v0, n);
    if k != OtherKind {
      ModDifference(v0 + m + Modulus(k) / 2, v0 + n + Modulus(k) / 2, Modulus(k));
    }
  }

  lemma ModDifference(a: int, b: int, m: int)
    requires m > 0
    ensures a % m == b % m <==> (b - a) % m == 0
  {
    var q, r := b / m - a / m, b % m - a % m;
    assert b - a == m * q + r;
    if r == 0 {
      SmallMultiple(m, q - (b - a) / m, (b - a) % m);
    }
    if (b - a) % m == 0 {
      SmallMultiple(m, (b - a) / m - q, r);
    }
  }

  lemma SmallMultiple(m: int, d: int, r: int)
    requires -m < r < m && r == m * d
    ensures r == 0
  {
    assert d >= 1 ==> m * d >= m;
    assert d <= -1 ==> m * d <= -m;
  }

  lemma SmallMod(a: int, m: int)
    requires 0 <= a < m
    ensures a % m == a
  {
    SmallMultiple(m, a / m, a - a % m);
  }

  lemma ModSuccessor(a: int, m: int)
    requires m > 0
    ensures (a + 1) % m == if a % m == m - 1 then 0 else a % m + 1
  {
    var q := (a + 1) / m - a / m;
    var r := (a + 1) % m;
    if a % m == m - 1 {
      assert r == m * (1 - q);
      SmallMultiple(m, 1 - q, r);
    } else {
      assert r - a % m - 1 == m * -q;
      SmallMultiple(m, -q, r - a % m - 1);
    }
  }

  // ---------------------------------------------------------------- one statement against the row

  datatype Row<T> = Row(version: int, data: T)

  /** A generated UPDATE: the rows its WHERE clause selects (none at all when the database refuses the
      statement), the version its SET clause writes (none when the entity's version is null: selective
      updates skip null columns), and the data. */
  datatype Stmt<!T> = Stmt(selects: Option<Row<T> -> bool>, setVersion: Option<int>, data: T)

  predicate Matches<T>(row: Row<T>, stmt: Stmt<T>) {
    stmt.selects.Some? && stmt.selects.value(row)
  }

  function RowAfter<T>(row: Row<T>, stmt: Stmt<T>): Row<T> {
    if !Matches(row, stmt) then row
    else Row(if stmt.setVersion.Some? then stmt.setVersion.value else row.version, stmt.data)
  }

  function Affected<T>(row: Row<T>, stmt: Stmt<T>): nat {
    if Matches(row, stmt) then 1 else 0
  }

  /** updateById: the key selects the row, and so does the version, if there is one. */
  function ByIdStmt<T>(original: Option<int>, setVersion: Option<int>, data: T): Stmt<T> {
    Stmt(Some((row: Row<T>) => original.Some? ==> row.version == original.value), setVersion, data)
  }

  // ---------------------------------------------------------------- statements with a wrapper

  /** What the database knows: the version column, and the truth of every other condition on a row. */
  datatype Table<!T> = Table(column: string, unit: (Atom, Row<T>) -> bool)

  /** The wrapper of a call: none, an EntityWrapper, or one of another class with a condition of its own. */
  datatype WrapperValue = NoWrapper | OfEntity(q: Query) | OfOther(condition: Condition)

  function Truth<T>(table: Table<T>, q: Query, row: Row<T>): Atom -> bool {
    a => match VersionIn(table.column, q.alias, q.pairs, a)
         case Some(v) => row.version == v
         case None => table.unit(a, row)
  }

  function Selection<T>(c: Condition, truth: Row<T> -> (Atom -> bool)): Option<Row<T> -> bool> {
    match c
    case NoWhere => Some((_: Row<T>) => true)
    case Broken => None
    case Where(chain) => Some((row: Row<T>) => ChainHolds(chain, truth(row)))
  }

  function WrapperStmt<T>(table: Table<T>, w: WrapperValue, setVersion: Option<int>, data: T): Stmt<T> {
    match w
    case NoWrapper => Stmt(Some((_: Row<T>) => true), setVersion, data)
    case OfEntity(q) => Stmt(Selection(ConditionOf(q), (row: Row<T>) => Truth(table, q, row)), setVersion, data)
    case OfOther(c) => Stmt(Selection(c, (row: Row<T>) => (a: Atom) => table.unit(a, row)), setVersion, data)
  }

  /** A new EntityWrapper. */
  const MADE_UP := Query([], "ew", H.FRESH, None, map[])

  /** The wrapper that the statement is made from. Only an EntityWrapper receives the version condition. */
  function Prepared(w: WrapperValue, column: string, version: Option<int>): WrapperValue {
    if version.None? then w
    else
      match w
      case NoWrapper => OfEntity(WithVersion(MADE_UP, column, version.value))
      case OfEntity(q) => OfEntity(WithVersion(q, column, version.value))
      case OfOther(_) => w
  }

  /** The entity's version once the statement is prepared. */
  function Moved(k: Kind, w: WrapperValue, version: Option<int>): Option<int> {
    if version.Some? && !w.OfOther? then Some(Next(k, version.value)) else version
  }

  /** Wrappers whose version condition cannot be bypassed: a made-up one, and one whose connectives guard it. */
  predicate KeepsVersion(w: WrapperValue) {
    match w
    case NoWrapper => true
    case OfEntity(q) => ReadableQuery(q) && QueryGuards(q)
    case OfOther(_) => false
  }

  lemma MadeUpGuards()
    ensures ReadableQuery(MADE_UP) && QueryGuards(MADE_UP) && PartsOf(MADE_UP.state.sql) == []
  {
  }

  /** The rows that a wrapper selects. */
  predicate Selects<T>(table: Table<T>, q: Query, row: Row<T>) {
    match ConditionOf(q)
    case NoWhere => true
    case Broken => false
    case Where(c) => ChainHolds(c, Truth(table, q, row))
  }

  lemma WrapperMatches<T>(table: Table<T>, q: Query, setVersion: Option<int>, data: T, row: Row<T>)
    ensures Matches(row, WrapperStmt(table, OfEntity(q), setVersion, data)) <==> Selects(table, q, row)
  {
  }

  /** The comparison made by the i-th `eq` is with the i-th version. */
  lemma AppendedIsVersion<T>(table: Table<T>, q: Query, vs: seq<int>, row: Row<T>, i: nat)
    requires ColumnName(table.column) && i < |vs|
    ensures Truth(table, WithVersions(q, table.column, vs), row)(Templates.Opaque(Texts(q, table.column, |vs|)[i]))
            <==> row.version == vs[i]
  {
    WithVersionsIs(q, table.column, vs);
    var r := WithVersions(q, table.column, vs);
    AppendedCompares(table.column, q.alias, r.pairs, q.state.counter + i + 1, vs[i]);
  }

  /** Under a guard, a wrapper demands every version that it has been given. */
  lemma GuardedSelectsAll<T>(table: Table<T>, q: Query, vs: seq<int>, row: Row<T>, i: nat)
    requires ColumnName(table.column) && ReadableQuery(q) && QueryGuards(q) && i < |vs|
    requires Selects(table, WithVersions(q, table.column, vs), row)
    ensures row.version == vs[i]
  {
    var r := WithVersions(q, table.column, vs);
    AlwaysConditional(q, table.column, vs);
    GuardedByVersions(q, table.column, vs, Truth(table, r, row), i);
    AppendedIsVersion(table, q, vs, row, i);
  }

  lemma OneVersion(q: Query, column: string, v: int)
    ensures WithVersions(q, column, [v]) == WithVersion(q, column, v)
  {
    assert [v][..0] == [];
    assert WithVersions(q, column, []) == q;
  }

  /** A statement prepared from a wrapper that keeps the version matches no row of another version. */
  lemma KeptVersionIsMatched<T>(table: Table<T>, w: WrapperValue, v: int, setVersion: Option<int>, data: T, row: Row<T>)
    requires ColumnName(table.column) && KeepsVersion(w)
    requires Matches(row, WrapperStmt(table, Prepared(w, table.column, Some(v)), setVersion, data))
    ensures row.version == v
  {
    MadeUpGuards();
    var q := if w.NoWrapper? then MADE_UP else w.q;
    OneVersion(q, table.column, v);
    WrapperMatches(table, WithVersion(q, table.column, v), setVersion, data, row);
    GuardedSelectsAll(table, q, [v], row, 0);
  }

  /** The made-up wrapper selects every row with the version. */
  lemma MadeUpSelects<T>(table: Table<T>, v: int, setVersion: Option<int>, data: T, row: Row<T>)
    requires ColumnName(table.column)
    ensures Matches(row, WrapperStmt(table, Prepared(NoWrapper, table.column, Some(v)), setVersion, data))
            <==> row.version == v
  {
    MadeUpGuards();
    var q, r := MADE_UP, WithVersion(MADE_UP, table.column, v);
    OneVersion(q, table.column, v);
    WrapperMatches(table, r, setVersion, data, row);
    AloneIsTheCondition(q, table.column, v, Truth(table, r, row));
    AppendedIsVersion(table, q, [v], row, 0);
  }

  /** The caller's connectives do not guard the versions appended, and the row meets the conditions before the
      last of them. */
  predicate OpenTo<T>(table: Table<T>, q: Query, vs: seq<int>, row: Row<T>) {
    && !QueryGuards(q) && q.isWhere != Some(true)
    && WellFormed(PartsOf(q.state.sql) + Conds(Texts(q, table.column, |vs|)))
    && MeetsTheRest(q, Truth(table, WithVersions(q, table.column, vs), row))
  }

  /** Without a guard, it selects every such row, whatever its version. */
  lemma OpenSelectsAny<T>(table: Table<T>, q: Query, vs: seq<int>, row: Row<T>)
    requires ColumnName(table.column) && ReadableQuery(q) && vs != [] && OpenTo(table, q, vs, row)
    ensures Selects(table, WithVersions(q, table.column, vs), row)
  {
    OpenToVersions(q, table.column, vs, Truth(table, WithVersions(q, table.column, vs), row));
  }

  /** A wrapper that has been used before, with another version, selects no row at all if it guards, and else
      every row that meets the conditions before the last connective. */
  lemma ReusedWrapperSelects<T>(table: Table<T>, q: Query, vs: seq<int>, row: Row<T>, i: nat, j: nat)
    requires ColumnName(table.column) && ReadableQuery(q) && i < |vs| && j < |vs| && vs[i] != vs[j]
    ensures QueryGuards(q) ==> !Selects(table, WithVersions(q, table.column, vs), row)
    ensures OpenTo(table, q, vs, row) ==> Selects(table, WithVersions(q, table.column, vs), row)
  {
    if QueryGuards(q) && Selects(table, WithVersions(q, table.column, vs), row) {
      GuardedSelectsAll(table, q, vs, row, i);
      GuardedSelectsAll(table, q, vs, row, j);
    }
    if OpenTo(table, q, vs, row) {
      OpenSelectsAny(table, q, vs, row);
    }
  }

  // ---------------------------------------------------------------- one intercepted call on objects

  class Entity<T> {
    const kind: Kind
    var version: Option<int>
    var data: T

    constructor (kind: Kind, version: Option<int>, data: T)
      ensures this.kind == kind && this.version == version && this.data == data
    {
      this.kind, this.version, this.data := kind, version, data;
    }
  }

  /** The `et` entry of the parameter map: absent, an entity, or the substitute map that carries
      the original version beside the updated one. */
  datatype EtParam<T> =
    | NoEntity
    | Plain(entity: Entity<T>)
    | Substitute(original: int, updated: int, data: T, source: Entity<T>)

  /** The `ew` entry: no wrapper, an EntityWrapper object with the comparisons its entity contributes, or a
      wrapper of another class. */
  datatype EwParam =
    | NoObject
    | Object(ew: FluentWrapper.Wrapper<Param>, front: seq<Atom>)
    | Foreign(condition: Condition)

  ghost function Footprint(p: EwParam): set<object> {
    if p.Object? then {p.ew, p.ew.sql} + p.ew.sql.Lists() else {}
  }

  ghost predicate ValidParam(p: EwParam)
    reads Footprint(p)
  {
    p.Object? ==> p.ew.Valid()
  }

  function QueryOf(w: FluentWrapper.Wrapper<Param>, front: seq<Atom>): Query
    requires w.Valid()
    reads w, w.sql, w.sql.Lists()
  {
    Query(front, w.alias, H.Now(w), w.isWhere, w.paramNameValuePairs)
  }

  function ValueOf(p: EwParam): WrapperValue
    requires ValidParam(p)
    reads Footprint(p)
  {
    match p
    case NoObject => NoWrapper
    case Object(w, front) => OfEntity(QueryOf(w, front))
    case Foreign(c) => OfOther(c)
  }

  class ParamMap<T> {
    var et: EtParam<T>
    var ew: EwParam

    constructor (et: EtParam<T>, ew: EwParam)
      ensures this.et == et && this.ew == ew
    {
      this.et, this.ew := et, ew;
    }
  }

  /** What the executor returns: a number, or an exception because the database refuses the statement. */
  datatype Outcome = Returned(n: int) | Failed

  function RowAfterAll<T>(row: Row<T>, stmts: seq<Stmt<T>>): Row<T>
    decreases |stmts|
  {
    if stmts == [] then row else RowAfterAll(RowAfter(row, stmts[0]), stmts[1..])
  }

  datatype StoreValue<!T> = StoreValue(batch: Option<int>, row: Row<T>, queued: seq<Stmt<T>>)

  /** The stored row behind an executor. A batch executor queues statements and returns a constant. */
  class Store<T> {
    const batch: Option<int>
    var row: Row<T>
    var queued: seq<Stmt<T>>

    constructor (batch: Option<int>, row: Row<T>)
      ensures this.batch == batch && this.row == row && queued == []
    {
      this.batch, this.row, queued := batch, row, [];
    }

    function Value(): StoreValue<T>
      reads this
    {
      StoreValue(batch, row, queued)
    }

    /** `invocation.proceed()`. */
    method Proceed(stmt: Stmt<T>) returns (r: Outcome)
      modifies this
      ensures batch.Some? ==> r == Returned(batch.value) && row == old(row) && queued == old(queued) + [stmt]
      ensures batch.None? ==>
        && queued == old(queued) && row == RowAfter(old(row), stmt)
        && r == if stmt.selects.None? then Failed else Returned(Affected(old(row), stmt))
    {
      if batch.Some? {
        queued := queued + [stmt];
        return Returned(batch.value);
      }
      if stmt.selects.None? {
        return Failed;
      }
      r := Returned(Affected(row, stmt));
      row := RowAfter(row, stmt);
    }

    /** `flushStatements()`. */
    method Flush()
      modifies this
      ensures row == RowAfterAll(old(row), old(queued)) && queued == []
    {
      while queued != []
        invariant RowAfterAll(row, queued) == RowAfterAll(old(row), old(queued))
        decreases |queued|
      {
        row := RowAfter(row, queued[0]);
        queued := queued[1..];
      }
    }
  }

  // ---------------------------------------------------------------- updateById

  function IdStmt<T>(params: ParamMap<T>): Stmt<T>
    requires params.et != NoEntity
    reads params, if params.et.Plain? then {params.et.entity} else {}
  {
    match params.et
    case Plain(e) => ByIdStmt(None, e.version, e.data)
    case Substitute(original, updated, data, _) => ByIdStmt(Some(original), Some(updated), data)
  }

  /** Before the statement: the entity is replaced by the substitute map, if it has a version. */
  method PrepareById<T>(params: ParamMap<T>) returns (updated: Option<int>)
    requires params.et.Plain?
    modifies params
    ensures var e := old(params.et.entity);
      && params.ew == old(params.ew)
      && updated == (if e.version.None? then None else Some(Next(e.kind, e.version.value)))
      && params.et == (if e.version.None? then Plain(e)
                       else Substitute(e.version.value, Next(e.kind, e.version.value), e.data, e))
      && IdStmt(params) == ByIdStmt(e.version, updated, e.data)
  {
    var et := params.et.entity;
    if et.version.None? {
      return None;
    }
    updated := Some(Next(et.kind, et.version.value));
    params.et := Substitute(et.version.value, updated.value, et.data, et);
  }

  /** After it: the entity gets the updated version if the number returned is not 0. */
  method ReturnById<T>(et: Entity<T>, updated: Option<int>, r: Outcome)
    modifies et`version
    ensures et.version == if updated.Some? && r.Returned? && r.n != 0 then updated else old(et.version)
  {
    if r.Returned? && updated.Some? && r.n != 0 {
      et.version := updated;
    }
  }

  /** updateById(entity) through the interceptor. */
  method InterceptUpdateById<T>(params: ParamMap<T>, store: Store<T>) returns (r: Outcome)
    requires params.et.Plain?
    modifies params, params.et.entity, store
    ensures var e, before := old(params.et.entity), old(store.row);
      && e.data == old(e.data) && params.ew == old(params.ew)
      && params.et == (if old(e.version).None? then Plain(e)
                       else Substitute(old(e.version).value, Next(e.kind, old(e.version).value), e.data, e))
      // the statement runs at once: the entity moves on together with the row, or neither does
      && (store.batch.None? && old(e.version).None? ==>
            r == Returned(1) && store.row == Row(before.version, e.data) && e.version == None)
      && (store.batch.None? && old(e.version).Some? ==>
            var v := old(e.version).value;
            && r == Returned(if before.version == v then 1 else 0)
            && store.row == (if before.version == v then Row(Next(e.kind, v), e.data) else before)
            && e.version == (if before.version == v then Some(store.row.version) else Some(v)))
      // the statement is queued: the entity moves on at once, if the constant returned is not 0
      && (store.batch.Some? ==>
            && r == Returned(store.batch.value) && store.row == before
            && |store.queued| == old(|store.queued|) + 1
            && e.version == if old(e.version).Some? && store.batch.value != 0
                            then Some(Next(e.kind, old(e.version).value)) else old(e.version))
  {
    var et := params.et.entity;
    var updated := PrepareById(params);
    r := store.Proceed(IdStmt(params));
    ReturnById(et, updated, r);
  }

  /** A batched updateById and its flush: when the constant is not 0, the entity has moved on whether or not
      the row had its version. */
  method BatchedUpdateById<T>(params: ParamMap<T>, store: Store<T>)
    requires params.et.Plain? && params.et.entity.version.Some?
    requires store.batch.Some? && store.batch.value != 0 && store.queued == []
    modifies params, params.et.entity, store
    ensures var e, before, v := old(params.et.entity), old(store.row), old(params.et.entity.version).value;
      && e.version == Some(Next(e.kind, v)) && e.data == old(e.data)
      && store.row == (if before.version == v then Row(Next(e.kind, v), e.data) else before)
  {
    var et := params.et.entity;
    var updated := PrepareById(params);
    ghost var stmt := IdStmt(params);
    var r := store.Proceed(IdStmt(params));
    ReturnById(et, updated, r);
    assert store.queued == [stmt] && [stmt][1..] == [];
    store.Flush();
    assert RowAfterAll(RowAfter(old(store.row), stmt), []) == RowAfter(old(store.row), stmt);
  }

  // ---------------------------------------------------------------- update(entity, wrapper)

  /** `aw.eq(column, v)`. */
  method AppendVersion(aw: FluentWrapper.Wrapper<Param>, column: string, v: int, ghost front: seq<Atom>)
    requires aw.Valid()
    modifies aw, aw.sql, aw.sql.Lists()
    ensures aw.Valid() && QueryOf(aw, front) == WithVersion(old(QueryOf(aw, front)), column, v)
  {
    assert (column + " = {0}")[|column| + 1] == '=';
    aw.Condition(column + " = {0}", [Num(v)]);
  }

  /** Before the statement: the version condition goes into an EntityWrapper, and the entity moves on. */
  method PrepareUpdate<T>(params: ParamMap<T>, column: string)
    requires params.et.Plain? && ValidParam(params.ew)
    modifies params, params.et.entity, Footprint(params.ew)
    ensures ValidParam(params.ew) && params.et == old(params.et)
    ensures if old(params.ew).NoObject? && old(params.et.entity.version).Some? then fresh(Footprint(params.ew))
            else params.ew == old(params.ew)
    ensures var e, w := old(params.et.entity), old(ValueOf(params.ew));
      && e.data == old(e.data)
      && ValueOf(params.ew) == Prepared(w, column, old(e.version))
      && e.version == Moved(e.kind, w, old(e.version))
  {
    var et := params.et.entity;
    if et.version.None? || params.ew.Foreign? {
      return;
    }
    if params.ew.NoObject? {
      var aw := new FluentWrapper.Wrapper<Param>("");
      AppendVersion(aw, column, et.version.value, []);
      params.ew := Object(aw, []);
    } else {
      AppendVersion(params.ew.ew, column, et.version.value, params.ew.front);
    }
    et.version := Some(Next(et.kind, et.version.value));
  }

  /** What a prepared statement that matches says of the row. */
  lemma PreparedMatches<T>(table: Table<T>, w: WrapperValue, v: int, setVersion: Option<int>, data: T, row: Row<T>)
    requires ColumnName(table.column)
    ensures var stmt := WrapperStmt(table, Prepared(w, table.column, Some(v)), setVersion, data);
      && (KeepsVersion(w) && Matches(row, stmt) ==> row.version == v)
      && (w.NoWrapper? ==> (Matches(row, stmt) <==> row.version == v))
  {
    if KeepsVersion(w) && Matches(row, WrapperStmt(table, Prepared(w, table.column, Some(v)), setVersion, data)) {
      KeptVersionIsMatched(table, w, v, setVersion, data, row);
    }
    if w.NoWrapper? {
      MadeUpSelects(table, v, setVersion, data, row);
    }
  }

  /** What update(entity, wrapper) does to the row: at once, or later, when the executor is a batch one. Here w
      and v are the wrapper and the version before the call. */
  ghost predicate Ran<T>(table: Table<T>, store: StoreValue<T>, after: StoreValue<T>, w: WrapperValue, v: Option<int>,
                         stmt: Stmt<T>, r: Outcome)
  {
    match store.batch
    case Some(n) =>
      r == Returned(n) && after == store.(queued := store.queued + [stmt])
    case None =>
      && after == store.(row := RowAfter(store.row, stmt))
      && r == (if stmt.selects.None? then Failed else Returned(Affected(store.row, stmt)))
      // what the version condition is worth
      && (v.Some? && KeepsVersion(w) && r == Returned(1) ==> store.row.version == v.value)
      && (v.Some? && w.NoWrapper? ==> (r == Returned(1) <==> store.row.version == v.value))
  }

  lemma RunsAsPrepared<T>(table: Table<T>, store: StoreValue<T>, after: StoreValue<T>, w: WrapperValue,
                          v: Option<int>, setVersion: Option<int>, data: T, r: Outcome)
    requires ColumnName(table.column)
    requires var stmt := WrapperStmt(table, Prepared(w, table.column, v), setVersion, data);
      match store.batch
      case Some(n) => r == Returned(n) && after == store.(queued := store.queued + [stmt])
      case None =>
        && after == store.(row := RowAfter(store.row, stmt))
        && r == if stmt.selects.None? then Failed else Returned(Affected(store.row, stmt))
    ensures Ran(table, store, after, w, v, WrapperStmt(table, Prepared(w, table.column, v), setVersion, data), r)
  {
    if v.Some? {
      PreparedMatches(table, w, v.value, setVersion, data, store.row);
    }
  }

  /** `invocation.proceed()`, with a wrapper that has been prepared. */
  method ProceedByWrapper<T>(params: ParamMap<T>, store: Store<T>, table: Table<T>,
                             ghost w: WrapperValue, ghost v: Option<int>) returns (r: Outcome)
    requires params.et.Plain? && ValidParam(params.ew) && ColumnName(table.column)
    requires ValueOf(params.ew) == Prepared(w, table.column, v)
    modifies store
    ensures var e := params.et.entity;
      Ran(table, old(store.Value()), store.Value(), w, v,
          WrapperStmt(table, Prepared(w, table.column, v), e.version, e.data), r)
  {
    var e := params.et.entity;
    ghost var before := store.Value();
    r := store.Proceed(WrapperStmt(table, ValueOf(params.ew), e.version, e.data));
    RunsAsPrepared(table, before, store.Value(), w, v, e.version, e.data, r);
  }

  /** update(entity, wrapper) through the interceptor: the entity's version moves before the statement
      runs and stays moved even when no row matched, and whatever the number returned. */
  method InterceptUpdate<T>(params: ParamMap<T>, store: Store<T>, table: Table<T>) returns (r: Outcome)
    requires params.et.Plain? && ValidParam(params.ew) && ColumnName(table.column)
    modifies params, params.et.entity, Footprint(params.ew), store
    ensures ValidParam(params.ew) && params.et == old(params.et)
    ensures if old(params.ew).NoObject? && old(params.et.entity.version).Some? then fresh(Footprint(params.ew))
            else params.ew == old(params.ew)
    ensures var e, w, v := old(params.et.entity), old(ValueOf(params.ew)), old(params.et.entity.version);
      && e.data == old(e.data) && e.version == Moved(e.kind, w, v)
      && ValueOf(params.ew) == Prepared(w, table.column, v)
      && Ran(table, old(store.Value()), store.Value(), w, v,
             WrapperStmt(table, Prepared(w, table.column, v), e.version, e.data), r)
  {
    ghost var w, v := ValueOf(params.ew), params.et.entity.version;
    PrepareUpdate(params, table.column);
    ghost var et := params.et.entity;
    r := ProceedByWrapper(params, store, table, w, v);
    assert Ran(table, old(store.Value()), store.Value(), w, v,
               WrapperStmt(table, Prepared(w, table.column, v), et.version, et.data), r);
  }

  /** Two updates of one entity with one wrapper. If the wrapper guards its version conditions, the second one
      finds both versions in it and matches no row, though the entity's version has moved twice; if not, it
      overwrites every row that meets the caller's conditions before the last connective. */
  method UpdateTwice<T>(params: ParamMap<T>, store: Store<T>, table: Table<T>) returns (first: Outcome, second: Outcome)
    requires params.et.Plain? && params.et.entity.version.Some? && params.et.entity.kind != OtherKind
    requires params.ew.Object? && params.ew.ew.Valid() && ColumnName(table.column) && store.batch.None?
    requires ReadableQuery(QueryOf(params.ew.ew, params.ew.front))
    modifies params, params.et.entity, Footprint(params.ew), store
    ensures ValidParam(params.ew) && params.ew == old(params.ew)
    ensures var e, k := old(params.et.entity), old(params.et.entity).kind;
      var v, q := old(e.version).value, old(QueryOf(params.ew.ew, params.ew.front));
      && e.version == Some(Next(k, Next(k, v)))
      && QueryOf(params.ew.ew, params.ew.front) == WithVersions(q, table.column, [v, Next(k, v)])
      && RanTwice(table, k, q, v, old(e.data), old(store.row), store.row, first, second)
  {
    ghost var e, k, front := params.et.entity, params.et.entity.kind, params.ew.front;
    ghost var q, v, was := QueryOf(params.ew.ew, front), e.version.value, store.row;
    first := InterceptUpdate(params, store, table);
    ghost var between := store.row;
    second := InterceptUpdate(params, store, table);
    SecondRun(table, k, q, v, e.data, was, between, store.row, first, second);
  }

  ghost predicate RanTwice<T>(table: Table<T>, k: Kind, q: Query, v: int, data: T, before: Row<T>, after: Row<T>,
                              first: Outcome, second: Outcome)
  {
    var vs, between := [v, Next(k, v)], if first == Returned(1) then Row(Next(k, v), data) else before;
    && (QueryGuards(q) ==> second != Returned(1) && after == between)
    && (OpenTo(table, q, vs, between) ==> second == Returned(1) && after == Row(Next(k, Next(k, v)), data))
  }

  lemma SecondRun<T>(table: Table<T>, k: Kind, q: Query, v: int, data: T, before: Row<T>, between: Row<T>,
                     after: Row<T>, first: Outcome, second: Outcome)
    requires ColumnName(table.column) && ReadableQuery(q) && k != OtherKind
    requires var one := WrapperStmt(table, OfEntity(WithVersion(q, table.column, v)), Some(Next(k, v)), data);
      && between == RowAfter(before, one)
      && first == if one.selects.None? then Failed else Returned(Affected(before, one))
    requires var r := WithVersion(WithVersion(q, table.column, v), table.column, Next(k, v));
      var two := WrapperStmt(table, OfEntity(r), Some(Next(k, Next(k, v))), data);
      && after == RowAfter(between, two)
      && second == if two.selects.None? then Failed else Returned(Affected(between, two))
    ensures RanTwice(table, k, q, v, data, before, after, first, second)
    ensures WithVersions(q, table.column, [v, Next(k, v)]) ==
            WithVersion(WithVersion(q, table.column, v), table.column, Next(k, v))
  {
    var vs := [v, Next(k, v)];
    assert vs[..1] == [v];
    OneVersion(q, table.column, v);
    ReusedWrapperSelects(table, q, vs, between, 0, 1);
    WrapperMatches(table, WithVersions(q, table.column, vs), Some(Next(k, Next(k, v))), data, between);
  }
}
