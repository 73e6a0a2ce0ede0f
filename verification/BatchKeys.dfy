/**
 Filling in primary keys before an insert: objects one by one, or collections of them. Generated keys
 come from the process-wide id generator, which other threads use at the same time.
 */
module BatchKeys {

  import opened Options
  import Conditions
  import Snowflake

  datatype IdType = AUTO | INPUT | ID_WORKER | UUID | NONE | ID_WORKER_STR

  /** A key value. IdText is the decimal text of a generated id. */
  datatype Key = Null | Long(id: int) | Text(text: string) | IdText(id: int)

  /** What the handler takes for a missing key: null, and a text that is empty or all white space. */
  predicate Missing(k: Key) {
    k == Null || (k.Text? && Conditions.Blank(k.text))
  }

  /** What is known of a mapped class: whether it has a key property, and how its keys are made. */
  datatype TableInfo = TableInfo(hasKey: bool, idType: Option<IdType>)

  datatype Command = INSERT | UPDATE | OTHER

  /** The application's fill handler. It leaves keys alone. */
  datatype Handler = Handler(openInsertFill: bool, openUpdateFill: bool, insertFill: int -> int, updateFill: int -> int)

  class Obj {
    const info: Option<TableInfo>
    var key: Key
    var fields: int

    constructor (info: Option<TableInfo>, key: Key, fields: int)
      ensures this.info == info && this.key == key && this.fields == fields
    {
      this.info, this.key, this.fields := info, key, fields;
    }
  }

  // ---------------------------------------------------------------- the id generator

  /** What the environment supplies to one call of the generator by thread `me`: what other threads do
      before it takes the monitor and while it waits, its inputs, and a random text. */
  datatype Call = Call(before: seq<Snowflake.Event>, during: seq<Snowflake.Event>,
                       inputs: Snowflake.Inputs, uuid: string)

  /** The sections that other threads can take, in the order given. */
  function Advance(y: Snowflake.System, me: nat, events: seq<Snowflake.Event>): Snowflake.System
    decreases |events|
  {
    if events == [] then y
    else if events[0].thread != me && Snowflake.Enabled(y, events[0])
    then Advance(Snowflake.Step(y, events[0]), me, events[1..])
    else Advance(y, me, events[1..])
  }

  /** One section of thread `me`, if it can take it. */
  function Take(y: Snowflake.System, e: Snowflake.Event): (Snowflake.System, Snowflake.Outcome) {
    if Snowflake.Enabled(y, e) then (Snowflake.Step(y, e), Snowflake.Section(y, e).1) else (y, Snowflake.Spinning)
  }

  /** A call of nextId: its id, or none if it throws or does not come back. */
  function NextId(y: Snowflake.System, me: nat, call: Call): (Snowflake.System, Option<int>) {
    var (entered, outcome) := Take(Advance(y, me, call.before), Snowflake.EnterEvent(me, call.inputs));
    match outcome
    case Issued(id) => (entered, Some(id))
    case Waiting(_) =>
      var (resumed, second) := Take(Advance(entered, me, call.during), Snowflake.ResumeEvent(me, call.inputs));
      (resumed, if second.Issued? then Some(second.id) else None)
    case _ => (entered, None)
  }

  /** The generator has gone on: more ids, in order. */
  predicate GoesOn(y: Snowflake.System, z: Snowflake.System) {
    Snowflake.Ordered(z) && y.issued <= z.issued
  }

  lemma {:induction false} AdvanceGoesOn(y: Snowflake.System, me: nat, events: seq<Snowflake.Event>)
    requires Snowflake.Ordered(y)
    ensures GoesOn(y, Advance(y, me, events))
    decreases |events|
  {
    if events != [] {
      if events[0].thread != me && Snowflake.Enabled(y, events[0]) {
        Snowflake.StepKeepsOrder(y, events[0]);
        AdvanceGoesOn(Snowflake.Step(y, events[0]), me, events[1..]);
      } else {
        AdvanceGoesOn(y, me, events[1..]);
      }
    }
  }

  /** The last id issued. */
  predicate IsLatest(y: Snowflake.System, z: Snowflake.System, id: int) {
    |y.issued| < |z.issued| && z.issued[|z.issued| - 1] == id
  }

  lemma TakeGoesOn(y: Snowflake.System, e: Snowflake.Event)
    requires Snowflake.Ordered(y)
    ensures var (z, outcome) := Take(y, e); GoesOn(y, z) && (outcome.Issued? ==> IsLatest(y, z, outcome.id))
  {
    if Snowflake.Enabled(y, e) {
      Snowflake.StepKeepsOrder(y, e);
    }
  }

  /** An id is larger than every id issued before the call, by whichever thread. */
  lemma NextIdIsLatest(y: Snowflake.System, me: nat, call: Call)
    requires Snowflake.Ordered(y)
    ensures var (z, id) := NextId(y, me, call);
      GoesOn(y, z) && (id.Some? ==> IsLatest(y, z, id.value) && forall k :: k in y.issued ==> k < id.value)
  {
    var enter, resume := Snowflake.EnterEvent(me, call.inputs), Snowflake.ResumeEvent(me, call.inputs);
    var begun := Advance(y, me, call.before);
    AdvanceGoesOn(y, me, call.before);
    var (entered, _) := Take(begun, enter);
    TakeGoesOn(begun, enter);
    AdvanceGoesOn(entered, me, call.during);
    TakeGoesOn(Advance(entered, me, call.during), resume);
    var (z, id) := NextId(y, me, call);
    assert z.issued[..|y.issued|] == y.issued;
  }

  class IdWorker {
    var sys: Snowflake.System
    const me: nat

    constructor (sys: Snowflake.System, me: nat)
      ensures this.sys == sys && this.me == me
    {
      this.sys, this.me := sys, me;
    }

    method GetId(call: Call) returns (id: Option<int>)
      requires Snowflake.Ordered(sys)
      modifies this
      ensures (sys, id) == NextId(old(sys), me, call)
    {
      var (next, issued) := NextId(sys, me, call);
      sys, id := next, issued;
    }
  }

  // ---------------------------------------------------------------- one object

  /** The types 2 to 5, of which NONE generates nothing. */
  function TypeKey(t: IdType): nat {
    match t
    case AUTO => 0
    case INPUT => 1
    case ID_WORKER => 2
    case UUID => 3
    case NONE => 4
    case ID_WORKER_STR => 5
  }

  predicate Populated(info: Option<TableInfo>) {
    info.Some? && info.value.hasKey && info.value.idType.Some?
  }

  predicate FromWorker(info: Option<TableInfo>) {
    Populated(info) && (info.value.idType.value == ID_WORKER || info.value.idType.value == ID_WORKER_STR)
  }

  /** The key made of an id. */
  function KeyOf(t: IdType, id: int): Key {
    if t == ID_WORKER then Long(id) else IdText(id)
  }

  function IdIn(k: Key): int {
    match k
    case Long(id) => id
    case IdText(id) => id
    case _ => 0
  }

  /** The key holds an id that the generator has issued in the meantime, larger than all before. */
  predicate NewKey(t: IdType, k: Key, before: Snowflake.System, now: Snowflake.System) {
    k == KeyOf(t, IdIn(k)) && IdIn(k) in now.issued && forall id :: id in before.issued ==> id < IdIn(k)
  }

  function Filled(handler: Handler, command: Command, info: Option<TableInfo>, fields: int): int {
    if !Populated(info) then fields
    else if command == INSERT && handler.openInsertFill then handler.insertFill(fields)
    else if command == UPDATE && handler.openUpdateFill then handler.updateFill(fields)
    else fields
  }

  /** `populateKeys`. The result tells whether the call came back. */
  method PopulateKeys(worker: IdWorker, handler: Handler, command: Command, obj: Obj, call: Call) returns (ok: bool)
    requires Snowflake.Ordered(worker.sys)
    modifies worker, obj
    ensures GoesOn(old(worker.sys), worker.sys)
    ensures !Missing(old(obj.key)) || command != INSERT || !Populated(obj.info) ==> obj.key == old(obj.key) && ok
    ensures ok && command == INSERT && FromWorker(obj.info) && Missing(old(obj.key)) ==>
              NewKey(obj.info.value.idType.value, obj.key, old(worker.sys), worker.sys)
    ensures !FromWorker(obj.info) ==> ok && worker.sys == old(worker.sys)
    ensures !ok ==> obj.key == old(obj.key) && obj.fields == old(obj.fields)
    ensures ok ==> obj.fields == Filled(handler, command, obj.info, old(obj.fields))
  {
    ok := true;
    if !Populated(obj.info) {
      return;
    }
    if command == INSERT {
      var idType := obj.info.value.idType.value;
      if TypeKey(idType) >= 2 && Missing(obj.key) {
        if idType == ID_WORKER || idType == ID_WORKER_STR {
          NextIdIsLatest(worker.sys, worker.me, call);
          var id := worker.GetId(call);
          if id.None? {
            return false;
          }
          obj.key := KeyOf(idType, id.value);
        } else if idType == UUID {
          obj.key := Text(call.uuid);
        }
      }
      if handler.openInsertFill {
        obj.fields := handler.insertFill(obj.fields);
      }
    } else if command == UPDATE && handler.openUpdateFill {
      obj.fields := handler.updateFill(obj.fields);
    }
  }

  // ---------------------------------------------------------------- many objects

  /** The objects whose keys the generator makes. */
  predicate Generates(command: Command, o: Obj, key: Key) {
    command == INSERT && FromWorker(o.info) && Missing(key)
  }

  function Count(objs: seq<Obj>, o: Obj): nat {
    if objs == [] then 0 else Count(objs[..|objs| - 1], o) + if objs[|objs| - 1] == o then 1 else 0
  }

  function FilledTimes(handler: Handler, command: Command, info: Option<TableInfo>, fields: int, n: nat): int {
    if n == 0 then fields else Filled(handler, command, info, FilledTimes(handler, command, info, fields, n - 1))
  }

  type Keys = map<Obj, Key>

  function KeysOf(objs: seq<Obj>): Keys
    reads objs
  {
    map o | o in objs :: o.key
  }

  function FieldsOf(objs: seq<Obj>): map<Obj, int>
    reads objs
  {
    map o | o in objs :: o.fields
  }

  /** Each object's key is kept, or made by the generator since the state `before`. */
  ghost predicate KeysRight(command: Command, done: seq<Obj>, keys: Keys, now: Keys,
                            before: Snowflake.System, after: Snowflake.System)
  {
    forall o :: o in done ==>
      && o in keys && o in now
      && (!Missing(keys[o]) || command != INSERT || !Populated(o.info) ==> now[o] == keys[o])
      && (Generates(command, o, keys[o]) ==> NewKey(o.info.value.idType.value, now[o], before, after))
  }

  /** No two objects have the same generated id. */
  ghost predicate IdsDistinct(command: Command, done: seq<Obj>, keys: Keys, now: Keys) {
    forall o, p :: o in done && p in done && o != p && o in keys && p in keys && o in now && p in now ==>
      Generates(command, o, keys[o]) && Generates(command, p, keys[p]) ==> IdIn(now[o]) != IdIn(now[p])
  }

  /** What the batch has not come to yet is as it was, and so is every key that was there. */
  ghost predicate OthersKept(objs: seq<Obj>, done: seq<Obj>, keys: Keys, now: Keys) {
    && keys.Keys == now.Keys && keys.Keys == (set o | o in objs)
    && (forall o :: o in keys && (o !in done || !Missing(keys[o])) ==> now[o] == keys[o])
  }

  /** What `PopulateKeys` does to one key. */
  ghost predicate KeyDone(command: Command, x: Obj, key: Key, next: Key,
                          was: Snowflake.System, after: Snowflake.System) {
    && (!Missing(key) || command != INSERT || !Populated(x.info) ==> next == key)
    && (Generates(command, x, key) ==> NewKey(x.info.value.idType.value, next, was, after))
  }

  lemma InPush(done: seq<Obj>, x: Obj)
    ensures forall o :: o in done + [x] ==> o in done || o == x
    ensures forall o :: o in done ==> o in done + [x]
    ensures x in done + [x]
  {
  }

  lemma IssuedGrows(y: Snowflake.System, z: Snowflake.System, id: int)
    requires y.issued <= z.issued && id in y.issued
    ensures id in z.issued
  {
    assert z.issued[..|y.issued|] == y.issued;
  }

  /** One more object. */
  lemma KeysStep(command: Command, objs: seq<Obj>, done: seq<Obj>, x: Obj,
                                    keys: Keys, now: Keys, next: Keys,
                                    before: Snowflake.System, was: Snowflake.System, after: Snowflake.System)
    requires x in objs && GoesOn(before, was) && GoesOn(was, after)
    requires KeysRight(command, done, keys, now, before, was) && OthersKept(objs, done, keys, now)
    requires x in now && x in next && next == now[x := next[x]] && KeyDone(command, x, now[x], next[x], was, after)
    ensures KeysRight(command, done + [x], keys, next, before, after) && OthersKept(objs, done + [x], keys, next)
  {
    var more := done + [x];
    InPush(done, x);
    forall o | o in more
      ensures o in keys && o in next
      ensures !Missing(keys[o]) || command != INSERT || !Populated(o.info) ==> next[o] == keys[o]
      ensures Generates(command, o, keys[o]) ==> NewKey(o.info.value.idType.value, next[o], before, after)
    {
      KeyStep(command, done, x, keys, now, next, before, was, after, o);
    }
  }

  lemma KeyStep(command: Command, done: seq<Obj>, x: Obj, keys: Keys, now: Keys, next: Keys,
                before: Snowflake.System, was: Snowflake.System, after: Snowflake.System, o: Obj)
    requires GoesOn(before, was) && GoesOn(was, after) && (o in done || o == x)
    requires keys.Keys == now.Keys && o in keys && x in now && x in next && next == now[x := next[x]]
    requires o !in done || !Missing(keys[o]) ==> now[o] == keys[o]
    requires o in done ==> KeyDone(command, o, keys[o], now[o], before, was)
    requires KeyDone(command, x, now[x], next[x], was, after)
    ensures KeyDone(command, o, keys[o], next[o], before, after)
  {
    if Generates(command, o, keys[o]) {
      forall id | id in before.issued ensures id in was.issued {
        IssuedGrows(before, was, id);
      }
      if o in done {
        IssuedGrows(was, after, IdIn(now[o]));
      }
    }
  }

  lemma DistinctStep(command: Command, objs: seq<Obj>, done: seq<Obj>, x: Obj, keys: Keys, now: Keys, next: Keys,
                     before: Snowflake.System, was: Snowflake.System, after: Snowflake.System)
    requires x in objs && GoesOn(before, was) && IdsDistinct(command, done, keys, now)
    requires KeysRight(command, done, keys, now, before, was) && OthersKept(objs, done, keys, now)
    requires x in now && x in next && next == now[x := next[x]] && KeyDone(command, x, now[x], next[x], was, after)
    ensures IdsDistinct(command, done + [x], keys, next)
  {
    forall o | o in done && o != x && Generates(command, o, keys[o]) && Generates(command, x, keys[x])
      ensures x in done || IdIn(next[o]) < IdIn(next[x])
    {
      assert IdIn(now[o]) in was.issued;
    }
    InPush(done, x);
  }

  /** Every occurrence of an object in the list is filled once. */
  ghost predicate FieldsRight(handler: Handler, command: Command, objs: seq<Obj>, done: seq<Obj>,
                              fields: map<Obj, int>, now: map<Obj, int>)
  {
    forall o :: o in objs ==>
      o in fields && o in now && now[o] == FilledTimes(handler, command, o.info, fields[o], Count(done, o))
  }

  lemma CountPush(done: seq<Obj>, x: Obj, o: Obj)
    ensures Count(done + [x], o) == Count(done, o) + if x == o then 1 else 0
  {
    assert (done + [x])[..|done|] == done;
  }

  lemma FieldsStep(handler: Handler, command: Command, objs: seq<Obj>, done: seq<Obj>, x: Obj,
                   fields: map<Obj, int>, now: map<Obj, int>, next: map<Obj, int>)
    requires x in objs && FieldsRight(handler, command, objs, done, fields, now)
    requires next == now[x := Filled(handler, command, x.info, now[x])]
    ensures FieldsRight(handler, command, objs, done + [x], fields, next)
  {
    forall o | o in objs
      ensures o in next && next[o] == FilledTimes(handler, command, o.info, fields[o], Count(done + [x], o))
    {
      CountPush(done, x, o);
    }
  }

  /** One object of the batch, seen from the batch: no other object changes. */
  method PopulateAmong(worker: IdWorker, handler: Handler, command: Command, objs: seq<Obj>, x: Obj, call: Call)
    returns (ok: bool)
    requires x in objs && Snowflake.Ordered(worker.sys)
    modifies worker, x
    ensures GoesOn(old(worker.sys), worker.sys)
    ensures KeysOf(objs) == old(KeysOf(objs))[x := x.key] && (!ok ==> x.key == old(x.key))
    ensures ok ==> KeyDone(command, x, old(x.key), x.key, old(worker.sys), worker.sys)
    ensures ok ==> FieldsOf(objs) == old(FieldsOf(objs))[x := Filled(handler, command, x.info, old(x.fields))]
  {
    ok := PopulateKeys(worker, handler, command, x, call);
  }

  /** The next object of the batch. */
  method PopulateNext(worker: IdWorker, handler: Handler, command: Command, objs: seq<Obj>, x: Obj, call: Call,
                      ghost done: seq<Obj>, ghost keys: Keys,
                        ghost fields: map<Obj, int>, ghost before: Snowflake.System)
    returns (ok: bool)
    requires x in objs && GoesOn(before, worker.sys)
    requires KeysRight(command, done, keys, KeysOf(objs), before, worker.sys)
      && OthersKept(objs, done, keys, KeysOf(objs))
    requires IdsDistinct(command, done, keys, KeysOf(objs))
    requires FieldsRight(handler, command, objs, done, fields, FieldsOf(objs))
    modifies worker, x
    ensures GoesOn(old(worker.sys), worker.sys)
    ensures !ok ==> KeysOf(objs) == old(KeysOf(objs))
    ensures ok ==>
      && KeysRight(command, done + [x], keys, KeysOf(objs), before, worker.sys)
      && OthersKept(objs, done + [x], keys, KeysOf(objs))
      && IdsDistinct(command, done + [x], keys, KeysOf(objs))
      && FieldsRight(handler, command, objs, done + [x], fields, FieldsOf(objs))
  {
    ghost var was, now, filled := worker.sys, KeysOf(objs), FieldsOf(objs);
    ok := PopulateAmong(worker, handler, command, objs, x, call);
    ghost var next := KeysOf(objs);
    if ok {
      KeysStep(command, objs, done, x, keys, now, next, before, was, worker.sys);
      DistinctStep(command, objs, done, x, keys, now, next, before, was, worker.sys);
      FieldsStep(handler, command, objs, done, x, fields, filled, FieldsOf(objs));
    }
  }

  lemma GoesOnTrans(x: Snowflake.System, y: Snowflake.System, z: Snowflake.System)
    requires GoesOn(x, y) && GoesOn(y, z)
    ensures GoesOn(x, z)
  {
    assert z.issued[..|y.issued|] == y.issued && y.issued[..|x.issued|] == x.issued;
    assert z.issued[..|x.issued|] == x.issued;
  }

  /** The loop over a batch. The list that is built holds the same objects in the same order; no key
      that was there is overwritten; the generated ids are new and pairwise distinct, even when an object
      occurs twice; every occurrence of an object is filled once. A call that fails leaves the keys
      made so far. */
  method PopulateAll(worker: IdWorker, handler: Handler, command: Command, objs: seq<Obj>, calls: seq<Call>)
    returns (ok: bool, objList: seq<Obj>)
    requires Snowflake.Ordered(worker.sys) && |calls| == |objs|
    modifies worker, objs
    ensures GoesOn(old(worker.sys), worker.sys)
    ensures OthersKept(objs, objs, old(KeysOf(objs)), KeysOf(objs))
    ensures ok ==>
      && objList == objs
      && KeysRight(command, objs, old(KeysOf(objs)), KeysOf(objs), old(worker.sys), worker.sys)
      && IdsDistinct(command, objs, old(KeysOf(objs)), KeysOf(objs))
      && FieldsRight(handler, command, objs, objs, old(FieldsOf(objs)), FieldsOf(objs))
  {
    objList := [];
    ghost var keys, fields, before := KeysOf(objs), FieldsOf(objs), worker.sys;
    assert before.issued <= before.issued;
    for i := 0 to |objs|
      invariant objList == objs[..i] && GoesOn(before, worker.sys)
      invariant KeysRight(command, objs[..i], keys, KeysOf(objs), before, worker.sys)
      invariant OthersKept(objs, objs[..i], keys, KeysOf(objs))
      invariant IdsDistinct(command, objs[..i], keys, KeysOf(objs))
      invariant FieldsRight(handler, command, objs, objs[..i], fields, FieldsOf(objs))
    {
      assert objs[..i + 1] == objs[..i] + [objs[i]];
      ghost var was := worker.sys;
      ok := PopulateNext(worker, handler, command, objs, objs[i], calls[i], objs[..i], keys, fields, before);
      GoesOnTrans(before, was, worker.sys);
      if !ok {
        return;
      }
      objList := objList + [objs[i]];
    }
    ok := true;
    assert objs[..|objs|] == objs;
  }

  // ---------------------------------------------------------------- the parameter

  /** A named entry of a map parameter. */
  datatype Entry = Absent | NullEntry | Objects(objs: seq<Obj>)

  /** What is passed to the statement: nothing, a collection, a map (as an object `self`, with the table of
      its entity), or an object. */
  datatype Parameter = NullParameter | Collection(objs: seq<Obj>)
                     | MapParameter(collection: Entry, list: Entry, arrays: Entry, self: Obj) | Bean(obj: Obj)

  function ListIn(e: Entry): Option<seq<Obj>> {
    if e.Objects? then Some(e.objs) else None
  }

  /** `getParameters`: the first of the three names that the map has, even if it holds null. */
  function GetParameters(p: Parameter): Option<seq<Obj>> {
    match p
    case Collection(objs) => Some(objs)
    case MapParameter(collection, list, arrays, _) =>
      if collection != Absent then ListIn(collection) else if list != Absent then ListIn(list) else ListIn(arrays)
    case _ => None
  }

  /** The object that is populated when the parameter is no batch. */
  function Alone(p: Parameter): Obj
    requires p.MapParameter? || p.Bean?
  {
    if p.Bean? then p.obj else p.self
  }

  /** The parameter itself, a new list, or an exception. */
  datatype Result = Itself | NewList(objs: seq<Obj>) | Failed

  predicate IsFill(handler: Handler, command: Command) {
    command == INSERT || (command == UPDATE && handler.openUpdateFill)
  }

  /** The objects that may be changed. */
  function Touched(p: Parameter): seq<Obj> {
    match GetParameters(p)
    case Some(objs) => objs
    case None => if p.MapParameter? || p.Bean? then [Alone(p)] else []
  }

  /** `processBatch`. */
  method ProcessBatch(worker: IdWorker, handler: Handler, command: Command, p: Parameter, calls: seq<Call>)
    returns (r: Result)
    requires Snowflake.Ordered(worker.sys) && |calls| == |Touched(p)|
    modifies worker, Touched(p)
    ensures GoesOn(old(worker.sys), worker.sys)
    ensures OthersKept(Touched(p), Touched(p), old(KeysOf(Touched(p))), KeysOf(Touched(p)))
    ensures r != Failed ==>
      && r == (if IsFill(handler, command) && GetParameters(p).Some? then NewList(GetParameters(p).value) else Itself)
      && KeysRight(command, Touched(p), old(KeysOf(Touched(p))), KeysOf(Touched(p)), old(worker.sys), worker.sys)
      && IdsDistinct(command, Touched(p), old(KeysOf(Touched(p))), KeysOf(Touched(p)))
      && FieldsRight(handler, command, Touched(p), Touched(p), old(FieldsOf(Touched(p))), FieldsOf(Touched(p)))
  {
    ghost var objs := Touched(p);
    if p.NullParameter? {
      return Itself;
    }
    if !IsFill(handler, command) {
      NothingFilled(handler, command, objs, FieldsOf(objs));
      return Itself;
    }
    var parameters := GetParameters(p);
    if parameters.Some? {
      var ok, objList := PopulateAll(worker, handler, command, parameters.value, calls);
      r := if ok then NewList(objList) else Failed;
    } else {
      ghost var keys, fields, before := KeysOf(objs), FieldsOf(objs), worker.sys;
      assert objs[0] == Alone(p) && before.issued <= before.issued;
      var ok := PopulateNext(worker, handler, command, [Alone(p)], Alone(p), calls[0], [], keys, fields, before);
      assert [] + [Alone(p)] == objs;
      r := if ok then Itself else Failed;
    }
  }

  lemma {:induction false} FilledNever(handler: Handler, command: Command, info: Option<TableInfo>, fields: int, n: nat)
    requires !IsFill(handler, command)
    ensures FilledTimes(handler, command, info, fields, n) == fields
    decreases n
  {
    if n > 0 {
      FilledNever(handler, command, info, fields, n - 1);
    }
  }

  lemma NothingFilled(handler: Handler, command: Command, objs: seq<Obj>, fields: map<Obj, int>)
    requires !IsFill(handler, command) && forall o :: o in objs ==> o in fields
    ensures FieldsRight(handler, command, objs, objs, fields, fields)
  {
    forall o | o in objs ensures fields[o] == FilledTimes(handler, command, o.info, fields[o], Count(objs, o)) {
      FilledNever(handler, command, o.info, fields[o], Count(objs, o));
    }
  }
}
