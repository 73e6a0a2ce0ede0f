/**
 Optimistic locking, the protocol that several clients run against one stored row: a state machine
 whose atomic steps are the pieces of an intercepted call, so that calls of different clients
 interleave freely.
 */
module LockProtocol {

  import opened OptimisticLock
  import opened Options
  import opened Segments
  import opened VersionGuard
  import Conditions
  import FluentWrapper
  import H = WrapperHistory
  import Parsing = ConditionParsing
  import Templates

  // ---------------------------------------------------------------- interleaved clients

  datatype Route = ById | ByWrapper(w: WrapperValue)

  /** A call in progress: its statement, the updated version value, and the affected-row count
      once the statement has run. */
  datatype Call<!T> = Call(stmt: Stmt<T>, updated: int, route: Route, result: Option<nat>)

  /** One client and its entity object. `base` and `edits` are bookkeeping that no step reads:
      the commit the entity's data was taken from and the edits made since. `honest` records
      whether the entity's version still belongs to that data. */
  datatype Client<!T> = Client(version: int, data: T, call: Option<Call<T>>,
                               base: nat, edits: seq<T -> T>, honest: bool)

  /** `log`, `snapshots` and `matched` are bookkeeping: the edits of all successful updates in
      commit order, the row's data after each commit, and the version each commit matched. */
  datatype System<!T> = System(kind: Kind, table: Table<T>, row: Row<T>, clients: seq<Client<T>>,
                               log: seq<T -> T>, snapshots: seq<T>, matched: seq<int>)

  datatype Action<!T> =
    | Read(c: nat)
    | Begin(c: nat, edit: T -> T, route: Route)
    | Execute(c: nat)
    | Finish(c: nat)

  function Start<T>(k: Kind, table: Table<T>, v0: int, d0: T, n: nat): System<T> {
    System(k, table, Row(v0, d0), seq(n, i => Client(v0, d0, None, 0, [], true)), [], [d0], [])
  }

  function Commits<T>(s: System<T>): nat { |s.matched| }

  ghost predicate Enabled<T>(s: System<T>, a: Action<T>) {
    && a.c < |s.clients|
    && var call := s.clients[a.c].call;
       match a
       case Read(_) => call.None?
       case Begin(_, _, _) => call.None?
       case Execute(_) => call.Some? && call.value.result.None?
       case Finish(_) => call.Some? && call.value.result.Some?
  }

  ghost function Put<T>(s: System<T>, c: nat, cl: Client<T>): System<T>
    requires c < |s.clients|
  {
    s.(clients := s.clients[c := cl])
  }

  /** The client loads the stored row into its entity. */
  ghost function ClientRead<T>(s: System<T>): Client<T> {
    Client(s.row.version, s.row.data, None, Commits(s), [], true)
  }

  /** The client edits its entity and enters the interceptor, which prepares the statement. */
  ghost function ClientBegin<T>(k: Kind, table: Table<T>, cl: Client<T>, edit: T -> T, route: Route): Client<T> {
    var data, next := edit(cl.data), Next(k, cl.version);
    match route
    case ById =>
      var stmt := ByIdStmt(Some(cl.version), Some(next), data);
      cl.(data := data, edits := cl.edits + [edit], call := Some(Call(stmt, next, route, None)))
    case ByWrapper(w) =>
      var moved := Moved(k, w, Some(cl.version));
      var stmt := WrapperStmt(table, Prepared(w, table.column, Some(cl.version)), moved, data);
      cl.(version := moved.value, data := data, edits := cl.edits + [edit],
          call := Some(Call(stmt, moved.value, route, None)))
  }

  /** The statement runs, atomically, in the database. One that is refused changes nothing. */
  ghost function Executed<T>(s: System<T>, c: nat): System<T>
    requires Enabled(s, Execute(c))
  {
    var cl := s.clients[c];
    var call := cl.call.value;
    if Matches(s.row, call.stmt) then
      System(s.kind, s.table, RowAfter(s.row, call.stmt),
             s.clients[c := cl.(call := Some(call.(result := Some(1))), base := Commits(s) + 1, edits := [])],
             s.log + cl.edits, s.snapshots + [call.stmt.data], s.matched + [s.row.version])
    else
      Put(s, c, cl.(call := Some(call.(result := Some(0)))))
  }

  /** The interceptor looks at the affected-row count and returns to the client. */
  ghost function ClientFinish<T>(cl: Client<T>): Client<T>
    requires cl.call.Some? && cl.call.value.result.Some?
  {
    var call := cl.call.value;
    if call.route.ByWrapper? then cl.(call := None, honest := cl.honest && call.result.value != 0)
    else if call.result.value != 0 then cl.(call := None, version := call.updated)
    else cl.(call := None)
  }

  ghost function Step<T>(s: System<T>, a: Action<T>): System<T>
    requires Enabled(s, a)
  {
    match a
    case Read(c) => Put(s, c, ClientRead(s))
    case Begin(c, edit, route) => Put(s, c, ClientBegin(s.kind, s.table, s.clients[c], edit, route))
    case Execute(c) => Executed(s, c)
    case Finish(c) => Put(s, c, ClientFinish(s.clients[c]))
  }

  /** A run from `s`: every action enabled where it happens. */
  ghost predicate Run<T>(s: System<T>, actions: seq<Action<T>>)
    decreases |actions|
  {
    actions == [] || (Enabled(s, actions[0]) && Run(Step(s, actions[0]), actions[1..]))
  }

  ghost function End<T>(s: System<T>, actions: seq<Action<T>>): System<T>
    requires Run(s, actions)
    decreases |actions|
  {
    if actions == [] then s else End(Step(s, actions[0]), actions[1..])
  }

  // ---------------------------------------------------------------- what every run keeps

  /** What a caller can check of its wrapper: its connectives guard the version condition. */
  predicate KeepsRoute(column: string, r: Route) { r.ById? || (ColumnName(column) && KeepsVersion(r.w)) }

  ghost predicate KeepRoutes<T>(column: string, actions: seq<Action<T>>) {
    forall i :: 0 <= i < |actions| && actions[i].Begin? ==> KeepsRoute(column, actions[i].route)
  }

  /** The statement is a compare-and-set from v to the next version. */
  ghost predicate Compares<T(!new)>(k: Kind, stmt: Stmt<T>, v: int) {
    && stmt.setVersion == Some(Next(k, v))
    && forall row :: Matches(row, stmt) ==> row.version == v
  }

  /** Only the version decides. */
  ghost predicate Decides<T(!new)>(stmt: Stmt<T>, v: int) {
    forall row: Row<T> :: row.version == v ==> Matches(row, stmt)
  }

  /** Nothing but the version stands in the condition. */
  predicate Bare(r: Route) { r.ById? || r.w.NoWrapper? }

  lemma BeginCompares<T(!new)>(k: Kind, table: Table<T>, cl: Client<T>, edit: T -> T, route: Route)
    requires KeepsRoute(table.column, route)
    ensures var after := ClientBegin(k, table, cl, edit, route);
      && Compares(k, after.call.value.stmt, cl.version) && after.call.value.updated == Next(k, cl.version)
      && (Bare(route) ==> Decides(after.call.value.stmt, cl.version))
  {
    var stmt := ClientBegin(k, table, cl, edit, route).call.value.stmt;
    if route.ByWrapper? {
      forall row | Matches(row, stmt) ensures row.version == cl.version {
        PreparedMatches(table, route.w, cl.version, stmt.setVersion, stmt.data, row);
      }
      forall row: Row<T> | Bare(route) && row.version == cl.version ensures Matches(row, stmt) {
        PreparedMatches(table, route.w, cl.version, stmt.setVersion, stmt.data, row);
      }
    }
  }

  /** Holds in every run whose wrappers keep the version, disciplined or not. */
  ghost predicate Counted<T(!new)>(s: System<T>, v0: int) {
    && |s.snapshots| == Commits(s) + 1
    && s.row.version == After(s.kind, v0, Commits(s))
    && s.row.data == s.snapshots[Commits(s)]
    && (forall i :: 0 <= i < |s.matched| ==> s.matched[i] == After(s.kind, v0, i))
    && (forall c :: 0 <= c < |s.clients| && s.clients[c].call.Some? ==> CallWellFormed(s.kind, s.clients[c].call.value))
  }

  ghost predicate CallWellFormed<T(!new)>(k: Kind, call: Call<T>) {
    exists v :: call.updated == Next(k, v) && Compares(k, call.stmt, v)
  }

  lemma CountedExecute<T(!new)>(s: System<T>, c: nat, v0: int)
    requires Counted(s, v0) && Enabled(s, Execute(c))
    ensures Counted(Executed(s, c), v0)
  {
    var call := s.clients[c].call.value;
    assert CallWellFormed(s.kind, call);
    var v :| call.updated == Next(s.kind, v) && Compares(s.kind, call.stmt, v);
    forall n | CallWellFormed(s.kind, call)
      ensures CallWellFormed(s.kind, call.(result := Some(n)))
    {
    }
  }

  lemma CountedStep<T(!new)>(s: System<T>, a: Action<T>, v0: int)
    requires Counted(s, v0) && Enabled(s, a)
    requires a.Begin? ==> KeepsRoute(s.table.column, a.route)
    ensures Counted(Step(s, a), v0)
  {
    match a {
      case Read(_) =>
      case Begin(c, edit, route) =>
        BeginCompares(s.kind, s.table, s.clients[c], edit, route);
        assert CallWellFormed(s.kind, ClientBegin(s.kind, s.table, s.clients[c], edit, route).call.value);
      case Execute(c) => CountedExecute(s, c, v0);
      case Finish(_) =>
    }
  }

  lemma {:induction false} CountedRun<T(!new)>(s: System<T>, actions: seq<Action<T>>, v0: int)
    requires Counted(s, v0) && Run(s, actions) && KeepRoutes(s.table.column, actions)
    ensures Counted(End(s, actions), v0) && End(s, actions).kind == s.kind
    decreases |actions|
  {
    if actions != [] {
      CountedStep(s, actions[0], v0);
      assert forall i :: 0 <= i < |actions| - 1 ==> actions[1..][i] == actions[i + 1];
      CountedRun(Step(s, actions[0]), actions[1..], v0);
    }
  }

  /** Conservation and exclusivity, over every run of any number of clients whose wrappers keep the version:
      the stored version is the initial one moved on once per successful update, and no version value is
      matched by two successful updates less than a wrap-around apart. */
  lemma VersionCountsCommits<T(!new)>(k: Kind, table: Table<T>, v0: int, d0: T, n: nat, actions: seq<Action<T>>)
    requires InRange(k, v0) && Run(Start(k, table, v0, d0, n), actions) && KeepRoutes(table.column, actions)
    ensures var s := End(Start(k, table, v0, d0, n), actions);
      && s.row.version == After(k, v0, |s.matched|)
      && forall i, j :: 0 <= i < j < |s.matched| ==>
           (s.matched[i] == s.matched[j] <==> (j - i) % Modulus(k) == 0)
  {
    CountedRun(Start(k, table, v0, d0, n), actions, v0);
    var s := End(Start(k, table, v0, d0, n), actions);
    forall i, j | 0 <= i < j < |s.matched|
      ensures s.matched[i] == s.matched[j] <==> (j - i) % Modulus(k) == 0
    {
      SameVersionIff(k, v0, i, j);
    }
  }

  // ---------------------------------------------------------------- no lost update

  function ApplyAll<T>(edits: seq<T -> T>, d: T): T
    decreases |edits|
  {
    if edits == [] then d else ApplyAll(edits[1..], edits[0](d))
  }

  lemma {:induction false} ApplyAllConcat<T>(a: seq<T -> T>, b: seq<T -> T>, d: T)
    ensures ApplyAll(a + b, d) == ApplyAll(b, ApplyAll(a, d))
    decreases |a|
  {
    if a == [] {
      assert a + b == b;
    } else {
      assert (a + b)[1..] == a[1..] + b;
      ApplyAllConcat(a[1..], b, a[0](d));
    }
  }

  /** The entity of an honest client: its data is a snapshot plus the edits since, and its version
      (or, in mid-call, the version its statement demands) is that snapshot's. */
  ghost predicate Honest<T(!new)>(k: Kind, v0: int, snapshots: seq<T>, cl: Client<T>) {
    && cl.base < |snapshots|
    && cl.data == ApplyAll(cl.edits, snapshots[cl.base])
    && match cl.call
       case None => cl.version == After(k, v0, cl.base)
       case Some(call) => HonestCall(k, v0, cl, call)
  }

  ghost predicate HonestCall<T(!new)>(k: Kind, v0: int, cl: Client<T>, call: Call<T>) {
    if call.result == Some(1) then
      && call.updated == After(k, v0, cl.base)
      && (call.route.ByWrapper? ==> cl.version == call.updated)
    else
      && (call.result == None || call.result == Some(0))
      && call.updated == After(k, v0, cl.base + 1)
      && call.stmt.data == cl.data && Compares(k, call.stmt, After(k, v0, cl.base))
      && (Bare(call.route) ==> Decides(call.stmt, After(k, v0, cl.base)))
      && cl.version == if call.route.ById? then After(k, v0, cl.base) else call.updated
  }

  ghost predicate AllHonest<T(!new)>(s: System<T>, v0: int) {
    forall c :: 0 <= c < |s.clients| && s.clients[c].honest ==> Honest(s.kind, v0, s.snapshots, s.clients[c])
  }

  ghost predicate Serial<T(!new)>(s: System<T>, v0: int, d0: T) {
    && Counted(s, v0)
    && s.row.data == ApplyAll(s.log, d0)
    && AllHonest(s, v0)
  }

  /** What a caller has to respect: after an update through a wrapper that matched nothing, read
      again before updating again; use wrappers that keep the version; and do not sit on a read for a
      whole wrap-around. */
  ghost predicate Disciplined<T>(s: System<T>, a: Action<T>)
    requires Enabled(s, a)
  {
    && (a.Begin? ==> s.clients[a.c].honest && KeepsRoute(s.table.column, a.route))
    && (a.Execute? ==> s.clients[a.c].honest && Commits(s) - s.clients[a.c].base < Modulus(s.kind))
  }

  ghost predicate DisciplinedRun<T>(s: System<T>, actions: seq<Action<T>>)
    requires Run(s, actions)
    decreases |actions|
  {
    actions == [] || (Disciplined(s, actions[0]) && DisciplinedRun(Step(s, actions[0]), actions[1..]))
  }

  /** The compare-and-set succeeds exactly when the commits since the client's read are a whole
      number of wrap-arounds (none, for a timely client; any number, for an unsupported type) and the
      wrapper selects the row whose version is the one demanded; by updateById and by a made-up wrapper
      it does. */
  lemma ExecuteSucceedsIff<T(!new)>(s: System<T>, c: nat, v0: int)
    requires InRange(s.kind, v0) && Counted(s, v0) && Enabled(s, Execute(c))
    requires Honest(s.kind, v0, s.snapshots, s.clients[c])
    ensures var cl := s.clients[c];
      var call, apart := cl.call.value, Commits(s) - cl.base;
      && (Affected(s.row, call.stmt) == 1 <==>
          apart % Modulus(s.kind) == 0 && Matches(s.row.(version := After(s.kind, v0, cl.base)), call.stmt))
      && (Bare(call.route) ==> (Affected(s.row, call.stmt) == 1 <==> apart % Modulus(s.kind) == 0))
  {
    var cl := s.clients[c];
    SameVersionIff(s.kind, v0, cl.base, Commits(s));
    assert s.row.(version := s.row.version) == s.row;
  }

  lemma TimelySucceedsIff<T(!new)>(s: System<T>, c: nat, v0: int)
    requires InRange(s.kind, v0) && Counted(s, v0) && Enabled(s, Execute(c))
    requires Honest(s.kind, v0, s.snapshots, s.clients[c])
    requires Commits(s) - s.clients[c].base < Modulus(s.kind)
    ensures var call := s.clients[c].call.value;
      && (Matches(s.row, call.stmt) ==> Commits(s) == s.clients[c].base)
      && (Bare(call.route) ==> (Matches(s.row, call.stmt) <==> Commits(s) == s.clients[c].base))
  {
    ExecuteSucceedsIff(s, c, v0);
    SmallMod(Commits(s) - s.clients[c].base, Modulus(s.kind));
  }

  lemma HonestAfterPut<T(!new)>(s: System<T>, c: nat, cl: Client<T>, v0: int)
    requires AllHonest(s, v0) && c < |s.clients|
    requires cl.honest ==> Honest(s.kind, v0, s.snapshots, cl)
    ensures AllHonest(Put(s, c, cl), v0)
  {
  }

  lemma BeginIsHonest<T(!new)>(k: Kind, table: Table<T>, v0: int, snapshots: seq<T>, cl: Client<T>,
                                 edit: T -> T, route: Route)
    requires Honest(k, v0, snapshots, cl) && cl.call.None? && KeepsRoute(table.column, route)
    ensures Honest(k, v0, snapshots, ClientBegin(k, table, cl, edit, route))
  {
    ApplyAllConcat(cl.edits, [edit], snapshots[cl.base]);
    assert ApplyAll([edit], cl.data) == edit(cl.data);
    BeginCompares(k, table, cl, edit, route);
  }

  lemma ExecuteIsSerial<T(!new)>(s: System<T>, c: nat, v0: int, d0: T)
    requires InRange(s.kind, v0) && Serial(s, v0, d0) && Enabled(s, Execute(c))
    requires s.clients[c].honest && Commits(s) - s.clients[c].base < Modulus(s.kind)
    ensures Serial(Executed(s, c), v0, d0)
  {
    var cl := s.clients[c];
    var t := Executed(s, c);
    CountedExecute(s, c, v0);
    TimelySucceedsIff(s, c, v0);
    if Matches(s.row, cl.call.value.stmt) {
      ApplyAllConcat(s.log, cl.edits, d0);
      forall i | 0 <= i < |t.clients| && t.clients[i].honest
        ensures Honest(t.kind, v0, t.snapshots, t.clients[i])
      {
        assert i != c ==> Honest(s.kind, v0, s.snapshots, t.clients[i]);
      }
    } else {
      HonestAfterPut(s, c, t.clients[c], v0);
    }
  }

  lemma SerialStep<T(!new)>(s: System<T>, a: Action<T>, v0: int, d0: T)
    requires InRange(s.kind, v0) && Serial(s, v0, d0) && Enabled(s, a) && Disciplined(s, a)
    ensures Serial(Step(s, a), v0, d0)
  {
    CountedStep(s, a, v0);
    match a {
      case Read(c) =>
        HonestAfterPut(s, c, ClientRead(s), v0);
      case Begin(c, edit, route) =>
        BeginIsHonest(s.kind, s.table, v0, s.snapshots, s.clients[c], edit, route);
        HonestAfterPut(s, c, ClientBegin(s.kind, s.table, s.clients[c], edit, route), v0);
      case Execute(c) =>
        ExecuteIsSerial(s, c, v0, d0);
      case Finish(c) =>
        HonestAfterPut(s, c, ClientFinish(s.clients[c]), v0);
    }
  }

  lemma {:induction false} SerialRun<T(!new)>(s: System<T>, actions: seq<Action<T>>, v0: int, d0: T)
    requires InRange(s.kind, v0) && Serial(s, v0, d0) && Run(s, actions) && DisciplinedRun(s, actions)
    ensures Serial(End(s, actions), v0, d0)
    decreases |actions|
  {
    if actions != [] {
      SerialStep(s, actions[0], v0, d0);
      SerialRun(Step(s, actions[0]), actions[1..], v0, d0);
    }
  }

  /** No update is lost: in every interleaving of disciplined clients, the stored data is the result
      of applying the edits of all successful updates, one after the other, in commit order. */
  lemma NoLostUpdate<T(!new)>(k: Kind, table: Table<T>, v0: int, d0: T, n: nat, actions: seq<Action<T>>)
    requires InRange(k, v0) && Run(Start(k, table, v0, d0, n), actions)
    requires DisciplinedRun(Start(k, table, v0, d0, n), actions)
    ensures var s := End(Start(k, table, v0, d0, n), actions);
      s.row.data == ApplyAll(s.log, d0)
  {
    SerialRun(Start(k, table, v0, d0, n), actions, v0, d0);
  }

  /** updateById alone needs only the wrap-around half of the discipline. */
  ghost predicate Timely<T>(s: System<T>, actions: seq<Action<T>>)
    requires Run(s, actions)
    decreases |actions|
  {
    actions == [] ||
    (var a := actions[0];
     && (a.Begin? ==> a.route.ById?)
     && (a.Execute? ==> Commits(s) - s.clients[a.c].base < Modulus(s.kind))
     && Timely(Step(s, a), actions[1..]))
  }

  lemma {:induction false} TimelyIsDisciplined<T>(s: System<T>, actions: seq<Action<T>>)
    requires Run(s, actions) && Timely(s, actions)
    requires forall c :: 0 <= c < |s.clients| ==>
      s.clients[c].honest && (s.clients[c].call.Some? ==> s.clients[c].call.value.route.ById?)
    ensures DisciplinedRun(s, actions)
    decreases |actions|
  {
    if actions != [] {
      TimelyIsDisciplined(Step(s, actions[0]), actions[1..]);
    }
  }

  lemma UpdateByIdLosesNothing<T(!new)>(k: Kind, table: Table<T>, v0: int, d0: T, n: nat, actions: seq<Action<T>>)
    requires InRange(k, v0) && Run(Start(k, table, v0, d0, n), actions) && Timely(Start(k, table, v0, d0, n), actions)
    ensures var s := End(Start(k, table, v0, d0, n), actions);
      s.row.data == ApplyAll(s.log, d0)
  {
    TimelyIsDisciplined(Start(k, table, v0, d0, n), actions);
    NoLostUpdate(k, table, v0, d0, n, actions);
  }

  // ---------------------------------------------------------------- where the promise fails

  /** A whole update through a wrapper, by an honest client, while nobody else steps: the version moves either
      way, but the entity stays honest exactly when the statement matches, and that only when the client's
      data is current; with a made-up wrapper, exactly then. */
  lemma WrapperUpdateStaysHonestIff<T(!new)>(s: System<T>, c: nat, edit: T -> T, w: WrapperValue, v0: int, d0: T)
    requires InRange(s.kind, v0) && Serial(s, v0, d0) && ColumnName(s.table.column) && KeepsVersion(w)
    requires c < |s.clients| && s.clients[c].call.None? && s.clients[c].honest
    requires Commits(s) - s.clients[c].base < Modulus(s.kind)
    ensures var base := s.clients[c].base;
      var s1 := Step(s, Begin(c, edit, ByWrapper(w)));
      var s2 := Step(s1, Execute(c));
      var s3 := Step(s2, Finish(c));
      && s3.clients[c].call.None?
      && (s3.clients[c].honest <==> Matches(s.row, s1.clients[c].call.value.stmt))
      && (s3.clients[c].honest ==> Commits(s) == base)
      && (w.NoWrapper? ==> (s3.clients[c].honest <==> Commits(s) == base))
      && s3.clients[c].version == After(s.kind, v0, base + 1)
      && (!s3.clients[c].honest ==> s3.row == s.row && s3.clients[c].base == base)
  {
    var s1 := Step(s, Begin(c, edit, ByWrapper(w)));
    BeginIsHonest(s.kind, s.table, v0, s.snapshots, s.clients[c], edit, ByWrapper(w));
    CountedStep(s, Begin(c, edit, ByWrapper(w)), v0);
    PreparedStaysHonestIff(s1, c, v0);
  }

  lemma PreparedStaysHonestIff<T(!new)>(s1: System<T>, c: nat, v0: int)
    requires InRange(s1.kind, v0) && Counted(s1, v0) && Enabled(s1, Execute(c)) && s1.clients[c].honest
    requires Honest(s1.kind, v0, s1.snapshots, s1.clients[c]) && s1.clients[c].call.value.route.ByWrapper?
    requires Commits(s1) - s1.clients[c].base < Modulus(s1.kind)
    ensures var base, call := s1.clients[c].base, s1.clients[c].call.value;
      var s3 := Step(Step(s1, Execute(c)), Finish(c));
      && s3.clients[c].call.None?
      && (s3.clients[c].honest <==> Matches(s1.row, call.stmt))
      && (s3.clients[c].honest ==> Commits(s1) == base)
      && (call.route.w.NoWrapper? ==> (s3.clients[c].honest <==> Commits(s1) == base))
      && s3.clients[c].version == After(s1.kind, v0, base + 1)
      && (!s3.clients[c].honest ==> s3.row == s1.row && s3.clients[c].base == base)
  {
    TimelySucceedsIff(s1, c, v0);
  }

  /** The retry after such a failed update, without reading again, overwrites other clients' commits
      exactly when the row is one commit further than the first attempt assumed and the wrapper of the
      retry selects it; a made-up wrapper does. */
  lemma RetryOverwritesIff<T(!new)>(s: System<T>, c: nat, edit: T -> T, again: T -> T, w: WrapperValue,
                                    w2: WrapperValue, v0: int, d0: T)
    requires InRange(s.kind, v0) && Serial(s, v0, d0) && ColumnName(s.table.column)
    requires KeepsVersion(w) && KeepsVersion(w2)
    requires c < |s.clients| && s.clients[c].call.None? && s.clients[c].honest
    requires 0 < Commits(s) - s.clients[c].base < Modulus(s.kind)
    ensures var failed := Step(Step(Step(s, Begin(c, edit, ByWrapper(w))), Execute(c)), Finish(c));
      var retry := Step(failed, Begin(c, again, ByWrapper(w2)));
      var stmt, next := retry.clients[c].call.value.stmt, s.clients[c].base + 1;
      && (Affected(retry.row, stmt) == 1 <==>
          Commits(s) == next && Matches(s.row.(version := After(s.kind, v0, next)), stmt))
      && (w2.NoWrapper? ==> (Affected(retry.row, stmt) == 1 <==> Commits(s) == next))
  {
    WrapperUpdateStaysHonestIff(s, c, edit, w, v0, d0);
    var next := s.clients[c].base + 1;
    var failed := Step(Step(Step(s, Begin(c, edit, ByWrapper(w))), Execute(c)), Finish(c));
    BeginCompares(s.kind, s.table, failed.clients[c], again, ByWrapper(w2));
    SameVersionIff(s.kind, v0, next, Commits(s));
    SmallMod(Commits(s) - next, Modulus(s.kind));
    assert s.row.(version := s.row.version) == s.row;
  }

  /** A wrapper that does not keep the version commits over any row that meets the caller's conditions before the last
      connective, however old the client's data is, and sets the version back to the one after the client's. */
  lemma OpenWrapperOverwrites<T(!new)>(s: System<T>, c: nat, edit: T -> T, q: Query)
    requires ColumnName(s.table.column) && ReadableQuery(q)
    requires c < |s.clients| && s.clients[c].call.None?
    requires OpenTo(s.table, q, [s.clients[c].version], s.row)
    ensures var cl := s.clients[c];
      var t := Step(Step(s, Begin(c, edit, ByWrapper(OfEntity(q)))), Execute(c));
      t.row == Row(Next(s.kind, cl.version), edit(cl.data)) && Commits(t) == Commits(s) + 1
      && t.log == s.log + (cl.edits + [edit])
  {
    var v := s.clients[c].version;
    var s1 := Step(s, Begin(c, edit, ByWrapper(OfEntity(q))));
    var stmt := s1.clients[c].call.value.stmt;
    OneVersion(q, s.table.column, v);
    OpenSelectsAny(s.table, q, [v], s.row);
    WrapperMatches(s.table, WithVersion(q, s.table.column, v), stmt.setVersion, stmt.data, s.row);
  }

  lemma RunCons<T>(s: System<T>, a: Action<T>, rest: seq<Action<T>>)
    requires Enabled(s, a) && Run(Step(s, a), rest)
    ensures Run(s, [a] + rest) && End(s, [a] + rest) == End(Step(s, a), rest)
  {
    assert ([a] + rest)[1..] == rest;
  }

  lemma {:induction false} RunAppend<T>(s: System<T>, a: seq<Action<T>>, b: seq<Action<T>>)
    requires Run(s, a) && Run(End(s, a), b)
    ensures Run(s, a + b) && End(s, a + b) == End(End(s, a), b)
    decreases |a|
  {
    if a == [] {
      assert a + b == b;
    } else {
      RunAppend(Step(s, a[0]), a[1..], b);
      RunCons(s, a[0], a[1..] + b);
      assert [a[0]] + (a[1..] + b) == a + b;
    }
  }

  /** The steps of one call, when nobody else steps in between. */
  function CallSteps<T>(c: nat, edit: T -> T, route: Route): seq<Action<T>> {
    [Begin(c, edit, route)] + ([Execute(c)] + [Finish(c)])
  }

  lemma CallStepsEnd<T>(s: System<T>, c: nat, edit: T -> T, route: Route)
    requires c < |s.clients| && s.clients[c].call.None?
    ensures Run(s, CallSteps(c, edit, route))
    ensures End(s, CallSteps(c, edit, route)) == Step(Step(Step(s, Begin(c, edit, route)), Execute(c)), Finish(c))
  {
    var s1 := Step(s, Begin(c, edit, route));
    var s2 := Step(s1, Execute(c));
    var last: seq<Action<T>> := [Finish(c)];
    assert last + [] == last;
    RunCons(s2, Finish(c), []);
    RunCons(s1, Execute(c), [Finish(c)]);
    RunCons(s, Begin(c, edit, route), [Execute(c)] + [Finish(c)]);
  }

  /** Whether a call's statement matches the row it finds. */
  ghost predicate Hits<T>(s: System<T>, c: nat, edit: T -> T, route: Route)
    requires c < |s.clients|
  {
    Matches(s.row, ClientBegin(s.kind, s.table, s.clients[c], edit, route).call.value.stmt)
  }

  /** A whole call that nobody interrupts, by a client between calls. */
  lemma WholeCall<T>(s: System<T>, c: nat, edit: T -> T, route: Route)
    requires c < |s.clients| && s.clients[c].call.None?
    ensures var run := CallSteps(c, edit, route);
      && Run(s, run)
      && var cl := s.clients[c];
         var t := End(s, run);
         var moved := if route.ById? then Next(s.kind, cl.version)
                      else Moved(s.kind, route.w, Some(cl.version)).value;
         && t.kind == s.kind && t.table == s.table && |t.clients| == |s.clients|
         && (forall i :: 0 <= i < |s.clients| && i != c ==> t.clients[i] == s.clients[i])
         && t.clients[c].call.None? && t.clients[c].data == edit(cl.data)
         && if Hits(s, c, edit, route) then
              && t.row == Row(moved, edit(cl.data)) && t.log == s.log + (cl.edits + [edit])
              && Commits(t) == Commits(s) + 1
              && t.clients[c].version == moved && t.clients[c].edits == []
            else
              && t.row == s.row && t.log == s.log && t.clients[c].edits == cl.edits + [edit]
              && Commits(t) == Commits(s)
              && t.clients[c].version == if route.ByWrapper? then moved else cl.version
  {
    CallStepsEnd(s, c, edit, route);
  }

  /** Steps of other clients leave a client as it is. */
  lemma OthersLeaveTheClient<T>(s: System<T>, a: Action<T>, c: nat)
    requires Enabled(s, a) && c < |s.clients| && a.c != c
    ensures Step(s, a).clients[c] == s.clients[c]
  {
  }

  /** A bare call hits exactly the row that has the client's version. */
  lemma BareHits<T(!new)>(s: System<T>, c: nat, edit: T -> T, route: Route)
    requires c < |s.clients| && Bare(route) && KeepsRoute(s.table.column, route)
    ensures Hits(s, c, edit, route) <==> s.row.version == s.clients[c].version
  {
    BeginCompares(s.kind, s.table, s.clients[c], edit, route);
  }

  /** A whole bare call, in terms of the versions. */
  lemma BareCall<T(!new)>(s: System<T>, c: nat, edit: T -> T, route: Route)
    requires c < |s.clients| && s.clients[c].call.None? && Bare(route) && KeepsRoute(s.table.column, route)
    ensures var run := CallSteps(c, edit, route);
      && Run(s, run)
      && var cl := s.clients[c];
         var t := End(s, run);
         var next := Next(s.kind, cl.version);
         && t.kind == s.kind && t.table == s.table && |t.clients| == |s.clients|
         && (forall i :: 0 <= i < |s.clients| && i != c ==> t.clients[i] == s.clients[i])
         && t.clients[c].call.None? && t.clients[c].data == edit(cl.data)
         && if s.row.version == cl.version then
              t.row == Row(next, edit(cl.data)) && t.log == s.log + (cl.edits + [edit]) && t.clients[c].version == next
            else
              && t.row == s.row && t.log == s.log && t.clients[c].edits == cl.edits + [edit]
              && t.clients[c].version == if route.ByWrapper? then next else cl.version
  {
    WholeCall(s, c, edit, route);
    BareHits(s, c, edit, route);
  }

  lemma CallKeeps<T>(column: string, c: nat, edit: T -> T, route: Route)
    requires KeepsRoute(column, route)
    ensures KeepRoutes(column, CallSteps(c, edit, route))
  {
  }

  lemma KeepRoutesAppend<T>(column: string, a: seq<Action<T>>, b: seq<Action<T>>)
    requires KeepRoutes(column, a) && KeepRoutes(column, b)
    ensures KeepRoutes(column, a + b)
  {
  }

  /** Two clients read; the second commits f; the first, told that no row matched g, tries again without
      reading, and g and g again overwrite f. */
  lemma RetryRun<T(!new)>(k: Kind, table: Table<T>, v0: int, d0: T, f: T -> T, g: T -> T)
    requires ColumnName(table.column) && k != OtherKind
    ensures var retry := CallSteps(0, g, ByWrapper(NoWrapper));
      var actions := (CallSteps(1, f, ById) + retry) + retry;
      && Run(Start(k, table, v0, d0, 2), actions) && KeepRoutes(table.column, actions)
      && var s := End(Start(k, table, v0, d0, 2), actions);
         s.row.data == g(g(d0)) && s.log == [f] + [g, g]
  {
    var first, retry := CallSteps(1, f, ById), CallSteps(0, g, ByWrapper(NoWrapper));
    var s0 := Start(k, table, v0, d0, 2);
    BareCall(s0, 1, f, ById);
    var s1 := End(s0, first);
    BareCall(s1, 0, g, ByWrapper(NoWrapper));
    var s2 := End(s1, retry);
    BareCall(s2, 0, g, ByWrapper(NoWrapper));
    assert [] + [f] == [f] && [] + [g] == [g] && [g] + [g] == [g, g];
    CallKeeps(table.column, 1, f, ById);
    CallKeeps(table.column, 0, g, ByWrapper(NoWrapper));
    KeepRoutesAppend(table.column, first, retry);
    KeepRoutesAppend(table.column, first + retry, retry);
    RunAppend(s0, first, retry);
    RunAppend(s0, first + retry, retry);
  }

  /** A concrete lost update through update(entity, wrapper): the second client adds 1, the first adds 10 twice. */
  lemma WrapperRetryLosesAnUpdate(table: Table<int>)
    requires ColumnName(table.column)
    ensures exists actions: seq<Action<int>> ::
      && Run(Start(IntKind, table, 1, 0, 2), actions) && KeepRoutes(table.column, actions)
      && var s := End(Start(IntKind, table, 1, 0, 2), actions);
         s.row.data != ApplyAll(s.log, 0)
  {
    var one: int -> int := x => x + 1;
    var ten: int -> int := x => x + 10;
    RetryRun(IntKind, table, 1, 0, one, ten);
    assert [one] + [ten, ten] == [one, ten, ten];
    LogOfThree(one, ten, ten, 0);
  }

  lemma LogOfThree<T>(f: T -> T, g: T -> T, h: T -> T, d: T)
    ensures ApplyAll([f, g, h], d) == h(g(f(d)))
  {
    assert [f, g, h][1..] == [g, h] && [g, h][1..] == [h];
    assert ApplyAll([h], g(f(d))) == h(g(f(d)));
    assert ApplyAll([g, h], f(d)) == ApplyAll([h], g(f(d)));
  }

  /** The wrapper of eq(a), or(), eq(b), for conditions that are no comparisons with a bound value. */
  function OrCalls(a: string, b: string): seq<H.Call<Param>> {
    [H.Condition(a, [])] + [H.Joint(Conditions.COr)] + [H.Condition(b, [])]
  }

  function OrQuery(a: string, b: string): Query {
    Query([], "ew", H.DoAll("ew", H.FRESH, OrCalls(a, b)), None, map[])
  }

  lemma OrQueryIs(a: string, b: string)
    requires Parsing.Opaque(a) && Parsing.Opaque(b)
    ensures ReadableQuery(OrQuery(a, b)) && OrQuery(a, b).state.sql.where == [a] + [Conditions.OR] + [b]
    ensures OrQuery(a, b).state.andOr == "AND"
  {
    var calls, s := OrCalls(a, b), H.FRESH;
    assert calls[1..] == [H.Joint(Conditions.COr)] + [H.Condition(b, [])];
    assert calls[1..][1..] == [H.Condition(b, [])] && calls[1..][1..][1..] == [];
    var s1 := H.Do("ew", s, calls[0]);
    var s2 := H.Do("ew", s1, calls[1]);
    var s3 := H.Do("ew", s2, calls[2]);
    var none: seq<H.Call<Param>> := [];
    assert H.DoAll("ew", s3, none) == s3;
    assert H.DoAll("ew", s2, calls[1..][1..]) == s3;
    assert H.DoAll("ew", s1, calls[1..]) == s3;
    assert FluentWrapper.Formatted(a, "ew", 0, 0) == Some(a);
    assert FluentWrapper.Formatted(b, "ew", s2.counter, 0) == Some(b);
    assert s3.sql.where == [a] + [Conditions.OR] + [b];
    OrPartsArePlain(s3.sql, a, b);
  }

  lemma OrPartsArePlain(s: Conditions.Clauses, a: string, b: string)
    requires Parsing.Opaque(a) && Parsing.Opaque(b) && s.where == [a] + [Conditions.OR] + [b]
    ensures Parsing.Plain(Conditions.ClearNull(s.where))
  {
    PartsWithOr(s, a, b);
    var ss := Conditions.ClearNull(s.where);
    forall i | 0 <= i < |ss| ensures Parsing.PlainPart(ss[i]) {
      assert PartsOf(s)[i] == Parsing.Classify(ss[i]);
    }
  }

  /** A condition without a bound value. */
  predicate PlainText(a: string) {
    Parsing.Opaque(a) && a[|a| - 1] != '}'
  }

  /** With such a wrapper, every row that a holds of is selected, whatever its version. */
  lemma OrIsOpen<T>(table: Table<T>, a: string, b: string, v: int, row: Row<T>)
    requires PlainText(a) && PlainText(b) && ColumnName(table.column)
    requires table.unit(Templates.Opaque(a), row)
    ensures OpenTo(table, OrQuery(a, b), [v], row)
  {
    var q, texts := OrQuery(a, b), Texts(OrQuery(a, b), table.column, 1);
    OrQueryIs(a, b);
    EqualsTextIsOpaque(table.column, q.alias, q.state.counter + 1);
    OrOpensTheGuard(q.state.sql, a, b, texts[0]);
    assert Conds(texts) == [Parsing.Cond(texts[0])];
    Parsing.WellFormedIffMeaning(PartsOf(q.state.sql) + Conds(texts));
    var truth := Truth(table, WithVersions(q, table.column, [v]), row);
    assert Units(truth)(a);
    TrueBeforeOr(q.state.sql, a, b, Units(truth));
  }

  lemma TrueBeforeOr(s: Conditions.Clauses, a: string, b: string, v: string -> bool)
    requires Parsing.Opaque(a) && Parsing.Opaque(b) && s.where == [a] + [Conditions.OR] + [b]
    requires v(a)
    ensures TrueBefore(PartsOf(s), v)
  {
    PartsWithOr(s, a, b);
    var ps := PartsOf(s);
    assert ps[1..] == [Parsing.Joint(Conditions.COr)] + [Parsing.Cond(b)];
    assert ps[1..][1..] == [Parsing.Cond(b)] && ps[1..][1..][1..] == [];
    assert TrueBefore(ps[1..][1..], v) && TrueBefore(ps[1..], v);
  }

  /** A whole call with such a wrapper. */
  lemma OrCall<T(!new)>(s: System<T>, c: nat, edit: T -> T, a: string, b: string)
    requires c < |s.clients| && s.clients[c].call.None? && ColumnName(s.table.column)
    requires PlainText(a) && PlainText(b) && s.table.unit(Templates.Opaque(a), s.row)
    ensures var run := CallSteps(c, edit, ByWrapper(OfEntity(OrQuery(a, b))));
      && Run(s, run)
      && var cl, t := s.clients[c], End(s, run);
         && t.row == Row(Next(s.kind, cl.version), edit(cl.data)) && t.log == s.log + (cl.edits + [edit])
         && Commits(t) == Commits(s) + 1
  {
    var q := OrQuery(a, b);
    OrQueryIs(a, b);
    OrIsOpen(s.table, a, b, s.clients[c].version, s.row);
    OpenWrapperOverwrites(s, c, edit, q);
    WholeCall(s, c, edit, ByWrapper(OfEntity(q)));
  }

  /** Two clients read; the second commits f; the first commits g over it, at the first attempt. */
  lemma OrRun<T(!new)>(k: Kind, table: Table<T>, v0: int, d0: T, f: T -> T, g: T -> T, a: string, b: string)
    requires ColumnName(table.column) && PlainText(a) && PlainText(b)
    requires forall row :: table.unit(Templates.Opaque(a), row)
    ensures var actions := CallSteps(1, f, ById) + CallSteps(0, g, ByWrapper(OfEntity(OrQuery(a, b))));
      && Run(Start(k, table, v0, d0, 2), actions)
      && var s := End(Start(k, table, v0, d0, 2), actions);
         s.row == Row(Next(k, v0), g(d0)) && s.log == [f] + [g] && Commits(s) == 2
  {
    var first, second := CallSteps(1, f, ById), CallSteps(0, g, ByWrapper(OfEntity(OrQuery(a, b))));
    var s0 := Start(k, table, v0, d0, 2);
    BareCall(s0, 1, f, ById);
    WholeCall(s0, 1, f, ById);
    var s1 := End(s0, first);
    OrCall(s1, 0, g, a, b);
    assert [] + [f] == [f] && [] + [g] == [g];
    RunAppend(s0, first, second);
  }

  /** A concrete lost update through a wrapper with an OR: the second client adds 1, the first adds 10 to what
      it has read; two updates have been made, and the version has moved once. */
  lemma OrLosesAnUpdate(column: string, a: string, b: string)
    requires ColumnName(column) && PlainText(a) && PlainText(b)
    ensures exists table: Table<int>, actions: seq<Action<int>> ::
      && table.column == column
      && Run(Start(IntKind, table, 1, 0, 2), actions)
      && var s := End(Start(IntKind, table, 1, 0, 2), actions);
         s.row.data != ApplyAll(s.log, 0) && s.row.version != After(IntKind, 1, Commits(s))
  {
    var one: int -> int := x => x + 1;
    var ten: int -> int := x => x + 10;
    var table: Table<int> := Table(column, (x, row) => true);
    OrRun(IntKind, table, 1, 0, one, ten, a, b);
    LogOfTwo(one, ten, 0);
    assert [one] + [ten] == [one, ten];
  }

  lemma LogOfTwo<T>(f: T -> T, g: T -> T, d: T)
    ensures ApplyAll([f, g], d) == g(f(d))
  {
    assert [f, g][1..] == [g];
    assert ApplyAll([g], f(d)) == g(f(d));
  }
}
