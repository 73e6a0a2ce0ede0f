/**
 Queries on soft-delete tables, from the calls made on the wrapper to the characters of its segment.
 */
module SegmentText {

  import opened ConditionText
  import opened Conditions
  import opened FluentWrapper
  import opened Options
  import opened Segments
  import opened Sql
  import opened WrapperHistory
  import Injector
  import Isolation
  import LogicDelete
  import P = ConditionParsing
  import Templates

  /** The text that the wrapper hands out, behind the line break that the template puts before it, is read
      character by character as the model's tokens. */
  lemma SegmentScan(s: Clauses, andOr: string)
    requires andOr == "AND" || andOr == "OR"
    requires UnitParts(ClearNull(s.where)) && ClearNull(s.where) != [] && RestChunks(s) == []
    ensures var segment := Segment(Concat(SqlChunks(s)), None, andOr);
      segment.Some? && Scan("\n" + segment.value, "", TOP) == WrapperToks(s, andOr)
  {
    var body := ClauseBody(s.where);
    SegmentReplacesKeyword(s, None, andOr);
    SqlChunksSplit(s);
    ClauseIs(s.where);
    ScanIsLex(body);
    assert SqlChunks(s) == ["WHERE"] + ([" "] + body);
    assert (["WHERE"] + ([" "] + body))[1..] == [" "] + body;
    LeadingWord(andOr, body);
  }

  lemma LeadingWord(andOr: string, body: seq<string>)
    requires andOr == "AND" || andOr == "OR"
    ensures Scan("\n" + Concat([andOr] + ([" "] + body)), "", TOP) ==
            [P.OrTok(andOr == "OR")] + Scan(Concat(body), "", TOP)
    ensures P.Lex([andOr] + ([" "] + body), []) == [P.OrTok(andOr == "OR")] + P.Lex(body, [])
  {
    assert ([andOr] + ([" "] + body))[1..] == [" "] + body && ([" "] + body)[1..] == body;
    assert Concat([andOr] + ([" "] + body)) == andOr + (" " + Concat(body));
    ShortKeyword(andOr, P.Lex(body, []));
    if andOr == "AND" {
      ReadAnd('\n', "", Concat(body));
      assert "\n" + (andOr + (" " + Concat(body))) == ['\n'] + "AND " + Concat(body);
    } else {
      ReadOr('\n', "", Concat(body));
      assert "\n" + (andOr + (" " + Concat(body))) == ['\n'] + "OR " + Concat(body);
    }
  }

  /** Conditions and connectives only, and every condition a unit of SQL. */
  predicate UnitHistory<V>(alias: string, calls: seq<Call<V>>) {
    forall b :: b in Expand(alias, 0, calls) ==> (b.Where? || b.Connect?) && P.PlainCall(b) && WholeCondition(b)
  }

  lemma {:induction false} NoOtherClauses(s: Clauses, bs: seq<BuilderCall>)
    requires forall b :: b in bs ==> b.Where? || b.Connect?
    requires s.target != HavingList && s.groupBy == [] && s.having == [] && s.orderBy == [] && s.last == ""
    ensures RestChunks(P.Replay(s, bs)) == []
    decreases |bs|
  {
    if bs != [] {
      assert bs[0] in bs;
      NoOtherClauses(Apply(s, bs[0]), bs[1..]);
    }
  }

  /** The same on characters: over every history of conditions and connectives, the query whose segment is read
      from the characters that the wrapper hands out parses exactly when well-formed groups are asked for,
      and then never matches a deleted row exactly when no or and no orNew came with a condition on a wrapper
      that still rendered to nothing and no OR_NEW came after the first WHERE. */
  lemma TextSafeIff<V>(t: Injector.Table, env: Templates.Env, alias: string, calls: seq<Call<V>>)
    requires LogicDelete.LogicFields(t.fields) != [] && env.flag("ew!=null") && env.flag("ew.sqlSegment!=null")
    requires UnitHistory(alias, calls) && PartsOf(DoAll(alias, FRESH, calls).sql) != []
    requires var s := DoAll(alias, FRESH, calls);
      var text := Segment(Concat(SqlChunks(s.sql)), None, s.andOr);
      text.Some? ==> env.segment == AsAtomToks(Scan("\n" + text.value, "", TOP))
    ensures var s, q := DoAll(alias, FRESH, calls), Isolation.QueryCondition(t, env);
      && Segment(Concat(SqlChunks(s.sql)), None, s.andOr).Some?
      && (q.Some? <==> P.WellFormed(PartsOf(s.sql)))
      && (q.Some? ==>
            (Isolation.NeverMatchesDeleted(t, q.value.0) <==>
             !LeadsWithOr(alias, FRESH, calls) && !LateOrNew(Expand(alias, 0, calls), false)))
  {
    var s, bs := DoAll(alias, FRESH, calls), Expand(alias, 0, calls);
    DoAllReplays(alias, FRESH, calls);
    NoOtherClauses(EMPTY, bs);
    HistoryIsReadable(alias, calls);
    RequestedIsUnits(bs, false);
    SegmentScan(s.sql, s.andOr);
    HistorySafeIff(t, env, alias, calls);
  }
}
