/**
 Optimistic locking: the interceptor's code on objects does what the protocol's steps do, piece by piece, so
 that the pieces of one client's call may have other clients' steps between them.
 */
module LockCalls {

  import opened LockProtocol
  import opened OptimisticLock
  import opened Options
  import opened VersionGuard

  /** An entity object and a client of the protocol. */
  ghost predicate Stands<T>(e: Entity<T>, cl: Client<T>)
    reads e
  {
    e.version == Some(cl.version) && e.data == cl.data
  }

  /** What the executor is handed. */
  function SentStmt<T>(params: ParamMap<T>, table: Table<T>, byId: bool): Stmt<T>
    requires ValidParam(params.ew) && params.et != NoEntity && (!byId ==> params.et.Plain?)
    reads params, if params.et.Plain? then {params.et.entity} else {}, Footprint(params.ew)
  {
    if byId then IdStmt(params)
    else WrapperStmt(table, ValueOf(params.ew), params.et.entity.version, params.et.entity.data)
  }

  /** A count, as the protocol keeps it; a refused statement counts as one that matches nothing. */
  predicate Tells(r: Outcome, n: int) {
    match r
    case Returned(m) => m == n
    case Failed => n == 0
  }

  /** Preparing the statement is the step Begin. */
  method Prepare<T>(params: ParamMap<T>, table: Table<T>, byId: bool,
                    ghost k: Kind, ghost cl: Client<T>, ghost edit: T -> T, ghost route: Route)
    returns (updated: Option<int>)
    requires params.et.Plain? && ValidParam(params.ew) && params.et.entity.kind == k
    requires params.et.entity.version == Some(cl.version) && params.et.entity.data == edit(cl.data)
    requires byId == route.ById? && (!byId ==> ValueOf(params.ew) == route.w)
    modifies params, params.et.entity, Footprint(params.ew)
    ensures ValidParam(params.ew) && params.et != NoEntity && (!byId ==> params.et.Plain?)
    ensures var after := ClientBegin(k, table, cl, edit, route);
      && Stands(old(params.et.entity), after)
      && SentStmt(params, table, byId) == after.call.value.stmt
      && (byId ==> updated == Some(after.call.value.updated))
  {
    if byId {
      updated := PrepareById(params);
    } else {
      PrepareUpdate(params, table.column);
      updated := None;
    }
  }

  /** Running it is the step Execute. */
  method Proceed<T>(store: Store<T>, stmt: Stmt<T>, ghost s: System<T>, ghost c: nat) returns (r: Outcome)
    requires Enabled(s, Execute(c)) && store.batch.None? && store.row == s.row
    requires stmt == s.clients[c].call.value.stmt
    modifies store
    ensures store.row == Executed(s, c).row && store.queued == old(store.queued)
    ensures var cl, after := s.clients[c], Executed(s, c).clients[c];
      && after == cl.(call := after.call, base := after.base, edits := after.edits)
      && after.call.Some? && after.call.value.result.Some? && Tells(r, after.call.value.result.value)
      && after.call.value == cl.call.value.(result := after.call.value.result)
  {
    r := store.Proceed(stmt);
  }

  /** Returning to the caller is the step Finish. */
  method Return<T>(e: Entity<T>, updated: Option<int>, r: Outcome, byId: bool, ghost cl: Client<T>)
    requires Stands(e, cl) && cl.call.Some? && cl.call.value.result.Some? && byId == cl.call.value.route.ById?
    requires Tells(r, cl.call.value.result.value) && (byId ==> updated == Some(cl.call.value.updated))
    modifies e`version
    ensures Stands(e, ClientFinish(cl))
  {
    if byId {
      ReturnById(e, updated, r);
    }
  }

  method ProceedAndReturn<T>(e: Entity<T>, store: Store<T>, stmt: Stmt<T>, updated: Option<int>, byId: bool,
                             ghost begun: System<T>, ghost c: nat) returns (r: Outcome)
    requires Enabled(begun, Execute(c)) && store.batch.None? && store.row == begun.row
    requires stmt == begun.clients[c].call.value.stmt && Stands(e, begun.clients[c])
    requires byId == begun.clients[c].call.value.route.ById?
    requires byId ==> updated == Some(begun.clients[c].call.value.updated)
    modifies store, e`version
    ensures var after := Executed(begun, c);
      && store.row == after.row && Stands(e, ClientFinish(after.clients[c]))
      && Tells(r, after.clients[c].call.value.result.value)
  {
    r := Proceed(store, stmt, begun, c);
    Return(e, updated, r, byId, Executed(begun, c).clients[c]);
  }

  /** The pieces of a call, one after the other. */
  method ThreePieces<T>(params: ParamMap<T>, store: Store<T>, table: Table<T>, byId: bool,
                        ghost begun: System<T>, ghost c: nat, ghost cl: Client<T>,
                        ghost edit: T -> T, ghost route: Route)
    returns (r: Outcome)
    requires params.et.Plain? && ValidParam(params.ew) && store.batch.None? && store.row == begun.row
    requires params.et.entity.version == Some(cl.version) && params.et.entity.data == edit(cl.data)
    requires byId == route.ById? && (!byId ==> ValueOf(params.ew) == route.w)
    requires Enabled(begun, Execute(c))
    requires begun.clients[c] == ClientBegin(params.et.entity.kind, table, cl, edit, route)
    modifies params, params.et.entity, Footprint(params.ew), store
    ensures var e, after := old(params.et.entity), Executed(begun, c);
      && store.row == after.row && Stands(e, ClientFinish(after.clients[c]))
      && Tells(r, after.clients[c].call.value.result.value)
  {
    var e := params.et.entity;
    var updated := Prepare(params, table, byId, e.kind, cl, edit, route);
    r := ProceedAndReturn(e, store, SentStmt(params, table, byId), updated, byId, begun, c);
  }

  /** A whole call that nobody interrupts: the objects end as the three steps leave the client and the row. */
  method InterceptedCall<T>(params: ParamMap<T>, store: Store<T>, table: Table<T>, byId: bool,
                            ghost s: System<T>, ghost c: nat, ghost edit: T -> T, ghost route: Route)
    returns (r: Outcome)
    requires c < |s.clients| && s.clients[c].call.None? && s.table == table
    requires params.et.Plain? && ValidParam(params.ew) && params.et.entity.kind == s.kind
    requires store.batch.None? && store.row == s.row
    requires params.et.entity.version == Some(s.clients[c].version)
    requires params.et.entity.data == edit(s.clients[c].data)
    requires byId == route.ById? && (!byId ==> ValueOf(params.ew) == route.w)
    modifies params, params.et.entity, Footprint(params.ew), store
    ensures Run(s, CallSteps(c, edit, route))
    ensures var e, t := old(params.et.entity), End(s, CallSteps(c, edit, route));
      && store.row == t.row && |t.clients| == |s.clients| && Stands(e, t.clients[c])
      && Tells(r, Commits(t) - Commits(s))
  {
    ghost var begun := Step(s, Begin(c, edit, route));
    PiecesOfCall(s, begun, c, edit, route);
    r := ThreePieces(params, store, table, byId, begun, c, s.clients[c], edit, route);
  }

  /** The pieces of an uninterrupted call, one after the other. */
  lemma PiecesOfCall<T>(s: System<T>, begun: System<T>, c: nat, edit: T -> T, route: Route)
    requires c < |s.clients| && s.clients[c].call.None? && begun == Step(s, Begin(c, edit, route))
    ensures Enabled(begun, Execute(c)) && begun.row == s.row
    ensures begun.clients[c] == ClientBegin(s.kind, s.table, s.clients[c], edit, route)
    ensures var after := Executed(begun, c);
      && after.clients[c].call.Some? && after.clients[c].call.value.result.Some?
      && after.clients[c].call.value.route == route
      && after.clients[c].call.value.updated == begun.clients[c].call.value.updated
    ensures Run(s, CallSteps(c, edit, route))
    ensures var after, t := Executed(begun, c), End(s, CallSteps(c, edit, route));
      && t.row == after.row && |t.clients| == |s.clients| && t.clients[c] == ClientFinish(after.clients[c])
      && Commits(t) == Commits(s) + after.clients[c].call.value.result.value
  {
    CallStepsEnd(s, c, edit, route);
  }
}
