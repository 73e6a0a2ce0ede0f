/**
 The fluent condition wrapper: it formats conditions, binds their parameters, drives the
 condition builder, and hands out the finished segment.
 */
module FluentWrapper {

  import opened Conditions
  import opened Lists
  import opened Options
  import opened Placeholders
  import opened Sql

  // ---------------------------------------------------------------- the finished segment

  /** Java's replaceFirst for a pattern and a replacement without special characters. */
  function ReplaceFirst(s: string, p: string, t: string): string
    decreases |s|
  {
    if p <= s then t + s[|p|..]
    else if s == "" then ""
    else [s[0]] + ReplaceFirst(s[1..], p, t)
  }

  lemma {:induction false} NoKeywordNothingReplaced(s: string, p: string, t: string)
    ensures !Contains(s, p) ==> ReplaceFirst(s, p, t) == s
    decreases |s|
  {
    if !Contains(s, p) {
      assert s[0..] == s && !StartsWith(s, p);
      if s != "" {
        forall k | 0 <= k <= |s[1..]|
          ensures !StartsWith(s[1..][k..], p)
        {
          assert s[1..][k..] == s[k + 1..];
        }
        NoKeywordNothingReplaced(s[1..], p, t);
      }
    }
  }

  /** EntityWrapper.getSqlSegment on the rendered text. */
  function Segment(text: string, isWhere: Option<bool>, andOr: string): Option<string> {
    if Blank(text) then None
    else if isWhere == Some(true) then Some(text)
    else Some(ReplaceFirst(text, "WHERE", andOr))
  }

  /** When there is a WHERE clause, the text starts with its keyword, and the replacement changes
      that keyword and nothing else, whatever the conditions contain. */
  lemma SegmentReplacesKeyword(s: Clauses, isWhere: Option<bool>, andOr: string)
    requires ClearNull(s.where) != [] && isWhere != Some(true)
    ensures var chunks := SqlChunks(s);
      && chunks != [] && chunks[0] == "WHERE"
      && Segment(Concat(chunks), isWhere, andOr) == Some(Concat([andOr] + chunks[1..]))
  {
    var chunks := SqlChunks(s);
    FirstChunk(s);
    var text, rest := Concat(chunks), Concat(chunks[1..]);
    assert text == "WHERE" + rest;
    assert text[0] == 'W';
    assert text[5..] == rest && text[..5] == "WHERE";
    assert ([andOr] + chunks[1..])[1..] == chunks[1..];
  }

  lemma FirstChunk(s: Clauses)
    requires ClearNull(s.where) != []
    ensures SqlChunks(s) != [] && SqlChunks(s)[0] == "WHERE"
  {
    var c1 := AddClause([], "WHERE", s.where, "(", ")", AND);
    assert c1[0] == "WHERE";
    var c2 := AddClause(c1, "GROUP BY", s.groupBy, "", "", ", ");
    assert c2[0] == c1[0];
    var c3 := AddClause(c2, "HAVING", s.having, "(", ")", AND);
    assert c3[0] == c1[0];
    var c4 := AddClause(c3, "ORDER BY", s.orderBy, "", "", ", ");
    assert c4[0] == c1[0];
  }

  // ---------------------------------------------------------------- parameters

  lemma ParamNameInjective(m: nat, n: nat)
    requires ParamName(m) == ParamName(n)
    ensures m == n
  {
    assert ParamName(m)[8..] == Decimal(m) && ParamName(n)[8..] == Decimal(n);
    DecimalInjective(m, n);
  }

  /** The text after formatting: nothing for a blank text, else one replacement per parameter. */
  function Formatted(text: string, alias: string, start: nat, n: nat): Option<string> {
    if Blank(text) then None else Some(ReplaceEach(text, Tokens(alias, start, n), n))
  }

  function TextOrNull(t: Option<string>): string {
    if t.None? then "" else t.value
  }

  lemma {:induction false} TokensPrefix(text: string, alias: string, start: nat, i: nat, n: nat)
    requires i <= n
    ensures ReplaceEach(text, Tokens(alias, start, n), i) == ReplaceEach(text, Tokens(alias, start, i), i)
  {
    if i > 0 {
      TokensPrefix(text, alias, start, i - 1, n);
      TokensPrefix(text, alias, start, i - 1, i);
    }
  }

  /** Every name in the map is one the counter has passed. */
  ghost predicate NamesUpTo<V>(pairs: map<string, V>, n: nat) {
    forall name :: name in pairs ==> exists j :: 1 <= j <= n && name == ParamName(j)
  }

  /** The map after binding the parameters to the next names. */
  function Bind<V>(pairs: map<string, V>, start: nat, params: seq<V>): map<string, V>
    decreases |params|
  {
    var n := |params|;
    if n == 0 then pairs else Bind(pairs, start, params[..n - 1])[ParamName(start + n) := params[n - 1]]
  }

  lemma {:induction false} BindKeeps<V>(pairs: map<string, V>, start: nat, params: seq<V>)
    requires NamesUpTo(pairs, start)
    ensures var after := Bind(pairs, start, params);
      && NamesUpTo(after, start + |params|)
      && (forall name :: name in pairs ==> name in after && after[name] == pairs[name])
    decreases |params|
  {
    var n := |params|;
    if n > 0 {
      var before := Bind(pairs, start, params[..n - 1]);
      BindKeeps(pairs, start, params[..n - 1]);
      NextNameIsFresh(before, start + n - 1);
      NextNameExtends(before, start + n - 1, params[n - 1]);
    }
  }

  /** Names are never rebound: the i-th parameter gets a name no earlier call has used, and everything
      bound before stays bound to what it was. */
  lemma {:induction false} BindIsFresh<V>(pairs: map<string, V>, start: nat, params: seq<V>, i: nat)
    requires NamesUpTo(pairs, start) && i < |params|
    ensures var after, name := Bind(pairs, start, params), ParamName(start + i + 1);
      && name !in pairs && name in after && after[name] == params[i]
      && forall old' :: old' in pairs ==> old' in after && after[old'] == pairs[old']
    decreases |params|
  {
    var n := |params|;
    var before := Bind(pairs, start, params[..n - 1]);
    BindKeeps(pairs, start, params);
    BindKeeps(pairs, start, params[..n - 1]);
    NextNameIsFresh(before, start + n - 1);
    if i < n - 1 {
      BindIsFresh(pairs, start, params[..n - 1], i);
    }
  }

  lemma NextNameExtends<V>(pairs: map<string, V>, n: nat, v: V)
    requires NamesUpTo(pairs, n)
    ensures NamesUpTo(pairs[ParamName(n + 1) := v], n + 1)
  {
    var after := pairs[ParamName(n + 1) := v];
    forall name | name in after
      ensures exists j :: 1 <= j <= n + 1 && name == ParamName(j)
    {
      if name in pairs {
        var j :| 1 <= j <= n && name == ParamName(j);
      }
    }
  }

  lemma OneRound(text: string, alias: string, start: nat, i: nat)
    ensures ReplaceEach(text, Tokens(alias, start, i + 1), i + 1) ==
            ReplaceAll(ReplaceEach(text, Tokens(alias, start, i), i), Placeholder(i),
                       Token(alias, ParamName(start + i + 1)))
  {
    TokensPrefix(text, alias, start, i, i + 1);
  }

  lemma BindOne<V>(pairs: map<string, V>, start: nat, params: seq<V>, i: nat)
    requires i < |params|
    ensures Bind(pairs, start, params[..i + 1]) ==
            Bind(pairs, start, params[..i])[ParamName(start + i + 1) := params[i]]
  {
    assert params[..i + 1][..i] == params[..i];
  }

  lemma NextNameIsFresh<V>(pairs: map<string, V>, n: nat)
    requires NamesUpTo(pairs, n)
    ensures ParamName(n + 1) !in pairs
  {
    if ParamName(n + 1) in pairs {
      var j :| 1 <= j <= n && ParamName(n + 1) == ParamName(j);
      ParamNameInjective(n + 1, j);
    }
  }

  function AndOrAfter(andOr: string, joint: Conn, withCondition: bool, s: Clauses): string {
    if withCondition && (joint == COr || joint == COrNew) && Blank(Concat(SqlChunks(s))) then "OR" else andOr
  }

  class Wrapper<V> {
    const sql: SqlBuilder
    const alias: string
    var paramNameSeq: nat
    var paramNameValuePairs: map<string, V>
    var andOr: string
    var isWhere: Option<bool>

    ghost predicate Valid()
      reads this, sql
    {
      NamesUpTo(paramNameValuePairs, paramNameSeq) && sql.Valid()
    }

    /** A wrapper with a parameter alias: "ew" unless the caller has set one. */
    constructor (alias: string)
      ensures Valid() && fresh(sql) && fresh(sql.Lists()) && sql.State() == EMPTY
      ensures this.alias == (if Blank(alias) then "ew" else alias)
      ensures paramNameSeq == 0 && paramNameValuePairs == map[] && andOr == "AND" && isWhere == None
    {
      sql := new SqlBuilder();
      this.alias := if Blank(alias) then "ew" else alias;
      paramNameSeq, paramNameValuePairs, andOr, isWhere := 0, map[], "AND", None;
    }

    /** formatSqlIfNeed. */
    method FormatSqlIfNeed(need: bool, text: string, params: seq<V>) returns (r: Option<string>)
      modifies `paramNameSeq, `paramNameValuePairs
      ensures !need || Blank(text) ==> r == None && paramNameSeq == old(paramNameSeq)
                                       && paramNameValuePairs == old(paramNameValuePairs)
      ensures need && !Blank(text) ==>
        && r == Formatted(text, alias, old(paramNameSeq), |params|)
        && paramNameSeq == old(paramNameSeq) + |params|
        && paramNameValuePairs == Bind(old(paramNameValuePairs), old(paramNameSeq), params)
    {
      if !need || Blank(text) {
        return None;
      }
      var s := text;
      ghost var start := paramNameSeq;
      assert params[..0] == [];
      for i := 0 to |params|
        invariant paramNameSeq == start + i
        invariant s == ReplaceEach(text, Tokens(alias, start, i), i)
        invariant paramNameValuePairs == Bind(old(paramNameValuePairs), start, params[..i])
      {
        paramNameSeq := paramNameSeq + 1;
        var genParamName := ParamName(paramNameSeq);
        s := ReplaceAll(s, Placeholder(i), Token(alias, genParamName));
        OneRound(text, alias, start, i);
        BindOne(old(paramNameValuePairs), start, params, i);
        paramNameValuePairs := paramNameValuePairs[genParamName := params[i]];
      }
      assert params[..|params|] == params;
      r := Some(s);
    }

    /** inExpression: the text of an IN condition over `size` values, or nothing. */
    method InExpression(column: string, size: nat, isNot: bool) returns (r: Option<string>)
      ensures r == if Blank(column) || size == 0 then None else Some(InText(column, size, isNot))
    {
      if Blank(column) || size == 0 {
        return None;
      }
      var inSql := column;
      if isNot {
        inSql := inSql + " NOT";
      }
      inSql := inSql + " IN ";
      inSql := inSql + "(";
      assert inSql == InFront(column, isNot);
      ghost var front := inSql;
      for i := 0 to size
        invariant inSql + PlaceholderList(i, size) == front + PlaceholderList(0, size)
      {
        ghost var was, comma := inSql, if i + 1 < size then "," else "";
        inSql := inSql + Placeholder(i);
        if i + 1 < size {
          inSql := inSql + ",";
        }
        assert inSql + PlaceholderList(i + 1, size) == was + PlaceholderList(i, size) by {
          assert inSql == was + (Placeholder(i) + comma);
          Assoc(was, Placeholder(i) + comma, PlaceholderList(i + 1, size));
          Assoc(Placeholder(i), comma, PlaceholderList(i + 1, size));
        }
      }
      assert PlaceholderList(size, size) == "";
      assert inSql == inSql + "";
      inSql := inSql + ")";
      Assoc(front, PlaceholderList(0, size), ")");
      r := Some(inSql);
    }

    /** and(), or(), andNew(), orNew(). An or or orNew that comes with a condition, on a wrapper that
        renders to nothing, turns the leading AND into an OR. */
    method Join(joint: Conn, withCondition: bool)
      requires Valid()
      modifies `andOr, sql, sql.Lists()
      ensures Valid()
      ensures sql.State() == Apply(old(sql.State()), Connect(joint))
      ensures andOr == AndOrAfter(old(andOr), joint, withCondition, old(sql.State()))
    {
      if withCondition && (joint == COr || joint == COrNew) {
        var chunks := sql.BuildSql();
        if Blank(Concat(chunks)) {
          andOr := "OR";
        }
      }
      sql.Call(Connect(joint));
    }

    /** where, eq, between, ..., having been given a text with placeholders. */
    method Condition(text: string, params: seq<V>)
      requires Valid()
      modifies `paramNameSeq, `paramNameValuePairs, sql, sql.Lists()
      ensures Valid()
      ensures sql.State() ==
              Apply(old(sql.State()), Where(TextOrNull(Formatted(text, alias, old(paramNameSeq), |params|))))
      ensures paramNameSeq == old(paramNameSeq) + if Blank(text) then 0 else |params|
      ensures paramNameValuePairs == if Blank(text) then old(paramNameValuePairs)
                                     else Bind(old(paramNameValuePairs), old(paramNameSeq), params)
    {
      BindKeeps(paramNameValuePairs, paramNameSeq, params);
      var formatted := FormatSqlIfNeed(true, text, params);
      sql.Call(Where(TextOrNull(formatted)));
    }

    /** and, andNew, or, orNew with a condition. */
    method JoinCondition(joint: Conn, text: string, params: seq<V>)
      requires Valid()
      modifies this, sql, sql.Lists()
      ensures Valid() && isWhere == old(isWhere)
      ensures sql.State() == Apply(Apply(old(sql.State()), Connect(joint)),
                                   Where(TextOrNull(Formatted(text, alias, old(paramNameSeq), |params|))))
      ensures andOr == AndOrAfter(old(andOr), joint, true, old(sql.State()))
      ensures paramNameSeq == old(paramNameSeq) + if Blank(text) then 0 else |params|
      ensures paramNameValuePairs == if Blank(text) then old(paramNameValuePairs)
                                     else Bind(old(paramNameValuePairs), old(paramNameSeq), params)
    {
      Join(joint, true);
      Condition(text, params);
    }

    method GetSqlSegment() returns (segment: Option<string>)
      requires Valid()
      ensures segment == Segment(Concat(SqlChunks(sql.State())), isWhere, andOr)
    {
      var chunks := sql.BuildSql();
      var text := Concat(chunks);
      if Blank(text) {
        return None;
      }
      segment := Some(if isWhere.Some? && isWhere.value then text else ReplaceFirst(text, "WHERE", andOr));
    }
  }
}
