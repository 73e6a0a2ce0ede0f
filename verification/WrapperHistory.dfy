/**
 Queries on soft-delete tables, from the calls made on the wrapper: which histories of conditions and
 connectives can make a query match deleted rows.
 */
module WrapperHistory {

  import opened Conditions
  import opened FluentWrapper
  import opened Injector
  import opened Isolation
  import opened LogicDelete
  import opened Options
  import opened Segments
  import P = ConditionParsing
  import Placeholders
  import Templates

  // ---------------------------------------------------------------- the calls

  /** where, eq, between, ...; and(), or(), andNew(), orNew(); those with a condition; groupBy, orderBy, last. */
  datatype Call<V> =
    | Condition(text: string, params: seq<V>)
    | Joint(k: Conn)
    | JointCondition(k: Conn, text: string, params: seq<V>)
    | Other(call: BuilderCall)

  datatype State = State(sql: Clauses, andOr: string, counter: nat)

  const FRESH := State(EMPTY, "AND", 0)

  function Where<V>(alias: string, counter: nat, text: string, params: seq<V>): BuilderCall {
    BuilderCall.Where(TextOrNull(Formatted(text, alias, counter, |params|)))
  }

  function CounterAfter<V>(counter: nat, text: string, params: seq<V>): nat {
    counter + if Blank(text) then 0 else |params|
  }

  function Do<V>(alias: string, s: State, c: Call<V>): State {
    match c
    case Condition(text, params) =>
      State(Apply(s.sql, Where(alias, s.counter, text, params)), s.andOr, CounterAfter(s.counter, text, params))
    case Joint(k) => s.(sql := Apply(s.sql, Connect(k)))
    case JointCondition(k, text, params) =>
      State(Apply(Apply(s.sql, Connect(k)), Where(alias, s.counter, text, params)),
            AndOrAfter(s.andOr, k, true, s.sql), CounterAfter(s.counter, text, params))
    case Other(call) => s.(sql := Apply(s.sql, call))
  }

  function DoAll<V>(alias: string, s: State, calls: seq<Call<V>>): State
    decreases |calls|
  {
    if calls == [] then s else DoAll(alias, Do(alias, s, calls[0]), calls[1..])
  }

  function Now<V>(w: Wrapper<V>): State
    requires w.Valid()
    reads w, w.sql, w.sql.Lists()
  {
    State(w.sql.State(), w.andOr, w.paramNameSeq)
  }

  /** A call on a wrapper object does that. */
  method Perform<V>(w: Wrapper<V>, c: Call<V>)
    requires w.Valid()
    modifies w, w.sql, w.sql.Lists()
    ensures w.Valid() && Now(w) == Do(w.alias, old(Now(w)), c) && w.isWhere == old(w.isWhere)
  {
    match c
    case Condition(text, params) => w.Condition(text, params);
    case Joint(k) => w.Join(k, false);
    case JointCondition(k, text, params) => w.JoinCondition(k, text, params);
    case Other(call) => w.sql.Call(call);
  }

  // ---------------------------------------------------------------- the builder's share

  /** The builder calls that a history of wrapper calls makes. */
  function Expand<V>(alias: string, counter: nat, calls: seq<Call<V>>): seq<BuilderCall>
    decreases |calls|
  {
    if calls == [] then []
    else
      match calls[0]
      case Condition(text, params) =>
        [Where(alias, counter, text, params)] + Expand(alias, CounterAfter(counter, text, params), calls[1..])
      case Joint(k) => [Connect(k)] + Expand(alias, counter, calls[1..])
      case JointCondition(k, text, params) =>
        [Connect(k), Where(alias, counter, text, params)]
        + Expand(alias, CounterAfter(counter, text, params), calls[1..])
      case Other(call) => [call] + Expand(alias, counter, calls[1..])
  }

  lemma ReplayOne(s: Clauses, b: BuilderCall, rest: seq<BuilderCall>)
    ensures P.Replay(s, [b] + rest) == P.Replay(Apply(s, b), rest)
  {
    assert ([b] + rest)[1..] == rest;
  }

  lemma ReplayTwo(s: Clauses, b: BuilderCall, c: BuilderCall, rest: seq<BuilderCall>)
    ensures P.Replay(s, [b, c] + rest) == P.Replay(Apply(Apply(s, b), c), rest)
  {
    assert [b, c] + rest == [b] + ([c] + rest);
    ReplayOne(s, b, [c] + rest);
    ReplayOne(Apply(s, b), c, rest);
  }

  lemma {:induction false} DoAllReplays<V>(alias: string, s: State, calls: seq<Call<V>>)
    ensures DoAll(alias, s, calls).sql == P.Replay(s.sql, Expand(alias, s.counter, calls))
    decreases |calls|
  {
    if calls != [] {
      var next := Do(alias, s, calls[0]);
      var rest := Expand(alias, next.counter, calls[1..]);
      DoAllReplays(alias, next, calls[1..]);
      match calls[0]
      case Condition(text, params) => ReplayOne(s.sql, Where(alias, s.counter, text, params), rest);
      case Joint(k) => ReplayOne(s.sql, Connect(k), rest);
      case JointCondition(k, text, params) =>
        ReplayTwo(s.sql, Connect(k), Where(alias, s.counter, text, params), rest);
      case Other(call) => ReplayOne(s.sql, call, rest);
    }
  }

  // ---------------------------------------------------------------- what can go wrong

  /** An or or orNew with a condition, on a wrapper that renders to nothing at that moment. */
  predicate LeadsWithOr<V>(alias: string, s: State, calls: seq<Call<V>>)
    decreases |calls|
  {
    calls != [] &&
    (|| (calls[0].JointCondition? && calls[0].k in {COr, COrNew} && Blank(Concat(SqlChunks(s.sql))))
     || LeadsWithOr(alias, Do(alias, s, calls[0]), calls[1..]))
  }

  /** An OR_NEW after the first WHERE. */
  predicate LateOrNew(bs: seq<BuilderCall>, started: bool) {
    bs != [] && ((started && bs[0] == Connect(COrNew)) || LateOrNew(bs[1..], started || bs[0].Where?))
  }

  lemma {:induction false} AndOrTells<V>(alias: string, s: State, calls: seq<Call<V>>)
    ensures DoAll(alias, s, calls).andOr == if LeadsWithOr(alias, s, calls) then "OR" else s.andOr
    decreases |calls|
  {
    if calls != [] {
      AndOrTells(alias, Do(alias, s, calls[0]), calls[1..]);
    }
  }

  lemma {:induction false} OrNewTells(bs: seq<BuilderCall>, started: bool)
    requires forall b :: b in bs ==> P.PlainCall(b)
    ensures P.HasOrNew(P.Parts(ClearNull(P.Requested(bs, started)))) <==> LateOrNew(bs, started)
    decreases |bs|
  {
    if bs != [] {
      var b, now := bs[0], started || bs[0].Where?;
      assert P.PlainCall(b);
      OrNewTells(bs[1..], now);
      var rest := P.Requested(bs[1..], now);
      if b.Where? {
        FirstPart(b.text, rest);
      } else if b.Connect? && started {
        KindOfConnText(b.k);
        FirstPart(ConnText(b.k), rest);
      } else if b.Connect? {
        assert [] + rest == rest;
      }
    }
  }

  lemma PrependPart(s: string, rest: seq<string>)
    requires Blank(s) || P.PlainPart(s)
    ensures P.Parts(ClearNull([s] + rest)) ==
            (if Blank(s) then [] else [P.Classify(s)]) + P.Parts(ClearNull(rest))
    ensures IsConnective(s) ==> !Blank(s)
  {
    assert ([s] + rest)[1..] == rest;
    if IsConnective(s) {
      assert s[1] == 'A' || s[1] == 'O' || s[0] == ')';
    }
  }

  lemma FirstPart(s: string, rest: seq<string>)
    requires Blank(s) || P.PlainPart(s)
    ensures P.HasOrNew(P.Parts(ClearNull([s] + rest))) <==>
            KindOf(s) == Some(COrNew) || P.HasOrNew(P.Parts(ClearNull(rest)))
  {
    PrependPart(s, rest);
    var tail := P.Parts(ClearNull(rest));
    if !Blank(s) {
      FirstOrNew(P.Classify(s), tail);
    } else {
      assert [] + tail == tail;
    }
  }

  lemma FirstOrNew(p: P.Part, tail: seq<P.Part>)
    ensures P.HasOrNew([p] + tail) <==> p == P.Joint(COrNew) || P.HasOrNew(tail)
  {
    var all := [p] + tail;
    assert all[0] == p;
    if P.HasOrNew(tail) {
      var i :| 0 <= i < |tail| && tail[i] == P.Joint(COrNew);
      assert all[i + 1] == tail[i];
    }
    if P.HasOrNew(all) {
      var i :| 0 <= i < |all| && all[i] == P.Joint(COrNew);
      assert i > 0 ==> tail[i - 1] == all[i];
    }
  }

  /** A builder call whose texts the reader takes for units. */
  predicate ReadableCall(b: BuilderCall) {
    P.PlainCall(b) && (b.Last? ==> Blank(b.text) || P.Opaque(b.text))
  }

  predicate ReadableHistory<V>(alias: string, calls: seq<Call<V>>) {
    forall b :: b in Expand(alias, 0, calls) ==> ReadableCall(b)
  }

  lemma {:induction false} LastIsReadable(s: Clauses, bs: seq<BuilderCall>)
    requires forall b :: b in bs ==> ReadableCall(b)
    requires Blank(s.last) || P.Opaque(s.last)
    ensures Blank(P.Replay(s, bs).last) || P.Opaque(P.Replay(s, bs).last)
    decreases |bs|
  {
    if bs != [] {
      assert ReadableCall(bs[0]);
      LastIsReadable(Apply(s, bs[0]), bs[1..]);
    }
  }

  /** What a history of readable calls leaves in the wrapper. */
  lemma HistoryIsReadable<V>(alias: string, calls: seq<Call<V>>)
    requires ReadableHistory(alias, calls)
    ensures var s, bs := DoAll(alias, FRESH, calls), Expand(alias, 0, calls);
      && Readable(s.sql, s.andOr)
      && s.sql.where == P.Requested(bs, false)
      && s.andOr == (if LeadsWithOr(alias, FRESH, calls) then "OR" else "AND")
  {
    var s, bs := DoAll(alias, FRESH, calls), Expand(alias, 0, calls);
    DoAllReplays(alias, FRESH, calls);
    P.ReplayCollects(EMPTY, bs);
    assert s.sql.where == P.Requested(bs, false);
    P.RequestedIsPlain(bs, false);
    LastIsReadable(EMPTY, bs);
    AndOrTells(alias, FRESH, calls);
  }

  /** Over every history of calls: the segment is the rendered text with its keyword replaced; the query
      parses exactly when the history asks for well-formed groups or for none; and then it never matches a
      deleted row exactly when there are no groups, or no or and no orNew came with a condition on a wrapper
      that still rendered to nothing and no OR_NEW came after the first WHERE. */
  lemma HistorySafeIff<V>(t: Table, env: Templates.Env, alias: string, calls: seq<Call<V>>)
    requires LogicFields(t.fields) != [] && env.flag("ew!=null") && env.flag("ew.sqlSegment!=null")
    requires ReadableHistory(alias, calls)
    requires var s := DoAll(alias, FRESH, calls); IsSegmentOf(env, s.sql, s.andOr)
    ensures var s, q := DoAll(alias, FRESH, calls), QueryCondition(t, env);
      && (PartsOf(s.sql) != [] ==>
            Segment(Concat(SqlChunks(s.sql)), None, s.andOr) == Some(Concat([s.andOr] + SqlChunks(s.sql)[1..])))
      && (PartsOf(s.sql) == [] && !Placeholders.Contains(Concat(SqlChunks(s.sql)), "WHERE") ==>
            Segment(Concat(SqlChunks(s.sql)), None, s.andOr) in {None, Some(Concat(SqlChunks(s.sql)))})
      && (q.Some? <==> PartsOf(s.sql) == [] || P.WellFormed(PartsOf(s.sql)))
      && (q.Some? ==>
            (NeverMatchesDeleted(t, q.value.0) <==>
             || PartsOf(s.sql) == []
             || (!LeadsWithOr(alias, FRESH, calls) && !LateOrNew(Expand(alias, 0, calls), false))))
  {
    var s, bs := DoAll(alias, FRESH, calls), Expand(alias, 0, calls);
    HistoryIsReadable(alias, calls);
    if PartsOf(s.sql) == [] {
      OtherClausesAreSafe(t, env, s.sql, s.andOr);
      NoKeywordNothingReplaced(Concat(SqlChunks(s.sql)), "WHERE", s.andOr);
    } else {
      OrNewTells(bs, false);
      SegmentReplacesKeyword(s.sql, None, s.andOr);
      DeletedRowsSafeIff(t, env, s.sql, s.andOr);
    }
  }
}
