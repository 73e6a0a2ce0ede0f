/**
 Parameter placeholders: `{0}`, `{1}`, ... in a condition are replaced one after the other by
 references to freshly named entries of the wrapper's parameter map.
 */
module Placeholders {

  import opened Lists

  // ---------------------------------------------------------------- decimal numerals

  function Digit(d: nat): char
    requires d < 10
  {
    ('0' as int + d) as char
  }

  predicate IsDigit(c: char) { '0' <= c <= '9' }

  function Decimal(n: nat): (s: string)
    ensures s != "" && forall i :: 0 <= i < |s| ==> IsDigit(s[i])
  {
    if n < 10 then [Digit(n)] else Decimal(n / 10) + [Digit(n % 10)]
  }

  lemma {:induction false} DecimalInjective(m: nat, n: nat)
    requires Decimal(m) == Decimal(n)
    ensures m == n
  {
    var s := Decimal(m);
    assert s[|s| - 1] == Digit(m % 10) && s[|s| - 1] == Digit(n % 10);
    if m >= 10 && n >= 10 {
      assert s[..|s| - 1] == Decimal(m / 10) && s[..|s| - 1] == Decimal(n / 10);
      DecimalInjective(m / 10, n / 10);
    }
  }

  function Placeholder(i: nat): (p: string)
    ensures |p| >= 3
  {
    "{" + Decimal(i) + "}"
  }

  // ---------------------------------------------------------------- replacing

  /** `s` has `p` at its front. */
  predicate StartsWith(s: string, p: string) { p <= s }

  /** Java's String.replace: one left-to-right pass. */
  function ReplaceAll(s: string, p: string, t: string): string
    requires p != ""
    decreases |s|
  {
    if s == "" then ""
    else if StartsWith(s, p) then t + ReplaceAll(s[|p|..], p, t)
    else [s[0]] + ReplaceAll(s[1..], p, t)
  }

  /** The loop of formatSqlIfNeed on its text: token i for {i}, for i = 0, 1, ... */
  function ReplaceEach(s: string, tokens: seq<string>, n: nat): string
    requires n <= |tokens|
  {
    if n == 0 then s else ReplaceAll(ReplaceEach(s, tokens, n - 1), Placeholder(n - 1), tokens[n - 1])
  }

  /** The placeholder at the front of s with an index below n, if there is one. */
  function FrontIndex(s: string, n: nat): (r: int)
    ensures -1 <= r < n
    ensures r >= 0 ==> StartsWith(s, Placeholder(r))
  {
    if n == 0 then -1
    else if StartsWith(s, Placeholder(n - 1)) then n - 1
    else FrontIndex(s, n - 1)
  }

  /** All placeholders at once, each looked up in the original text. */
  function Simultaneous(s: string, tokens: seq<string>, n: nat): string
    requires n <= |tokens|
    decreases |s|
  {
    if s == "" then ""
    else
      var i := FrontIndex(s, n);
      if i >= 0 then tokens[i] + Simultaneous(s[|Placeholder(i)|..], tokens, n)
      else [s[0]] + Simultaneous(s[1..], tokens, n)
  }

  // ---------------------------------------------------------------- why one pass at a time is enough

  lemma PlaceholderShape(p: string, i: nat, j: nat)
    requires p == Placeholder(i) && j < |p|
    ensures p[0] == '{' && p[|p| - 1] == '}'
    ensures 0 < j < |p| - 1 ==> IsDigit(p[j])
  {
    assert 0 < j < |p| - 1 ==> p[j] == Decimal(i)[j - 1];
  }

  /** No placeholder is a proper prefix of another. */
  lemma PlaceholderPrefix(s: string, i: nat, j: nat)
    requires StartsWith(s, Placeholder(i)) && StartsWith(s, Placeholder(j))
    ensures i == j
  {
    var p, q := Placeholder(i), Placeholder(j);
    var k := (if |p| <= |q| then |p| else |q|) - 1;
    ClosesOnce(s, i, k);
    ClosesOnce(s, j, k);
    assert p == s[..|p|] == q;
    assert Decimal(i) == p[1..|p| - 1] && Decimal(j) == q[1..|q| - 1];
    DecimalInjective(i, j);
  }

  lemma ClosesOnce(s: string, i: nat, k: nat)
    requires StartsWith(s, Placeholder(i)) && k < |Placeholder(i)|
    ensures s[k] == '}' <==> k == |Placeholder(i)| - 1
  {
    PlaceholderShape(Placeholder(i), i, k);
    assert s[k] == Placeholder(i)[k];
  }

  /** The shape of an inserted token, whatever the parameter alias is. */
  function Token(alias: string, name: string): (t: string)
    ensures |t| > 2 && t[0] == '#' && t[1] == '{' && t[|t| - 1] == '}'
  {
    "#{" + alias + ".paramNameValuePairs." + name + "}"
  }

  /** No placeholder starts inside t, not even one that would run over its end. */
  ghost predicate Inert(t: string, i: nat) {
    forall k, rest :: 0 <= k < |t| ==> !StartsWith(t[k..] + rest, Placeholder(i))
  }

  /** Replacing {k} jumps over a token in front. */
  lemma {:induction false} ReplaceSkips(t: string, s: string, i: nat, r: string)
    requires Inert(t, i)
    ensures ReplaceAll(t + s, Placeholder(i), r) == t + ReplaceAll(s, Placeholder(i), r)
    decreases |t|
  {
    if t == "" {
      assert t + s == s;
    } else {
      assert t[0..] + s == t + s;
      assert !StartsWith(t + s, Placeholder(i));
      assert (t + s)[1..] == t[1..] + s;
      assert Inert(t[1..], i) by {
        forall k, rest | 0 <= k < |t[1..]|
          ensures !StartsWith(t[1..][k..] + rest, Placeholder(i))
        {
          assert t[1..][k..] == t[k + 1..];
        }
      }
      ReplaceSkips(t[1..], s, i, r);
    }
  }

  ghost predicate AllInert(tokens: seq<string>, n: nat)
    requires n <= |tokens|
  {
    forall i, j :: 0 <= i < j < n ==> Inert(tokens[i], j)
  }

  lemma ConsPrefix(s: string, w: string)
    requires w != ""
    ensures StartsWith(s, w) <==> s != "" && s[0] == w[0] && StartsWith(s[1..], w[1..])
  {
    assert w == [w[0]] + w[1..];
    if s != "" {
      assert s == [s[0]] + s[1..];
    }
  }

  predicate HashTokens(tokens: seq<string>, n: nat)
    requires n <= |tokens|
  {
    forall i :: 0 <= i < n ==> tokens[i] != "" && tokens[i][0] == '#'
  }

  predicate Unbraced(w: string) {
    forall k :: 0 <= k < |w| ==> w[k] != '{' && w[k] != '#'
  }

  lemma FrontIsBrace(s: string, n: nat)
    ensures FrontIndex(s, n) >= 0 ==> s != "" && s[0] == '{'
  {
    var i := FrontIndex(s, n);
    if i >= 0 {
      PlaceholderShape(Placeholder(i), i, 0);
    }
  }

  /** Replacing placeholders of smaller index neither makes nor breaks a front without braces:
      every token starts with '#'. */
  lemma {:induction false} FrontSurvives(s: string, tokens: seq<string>, n: nat, w: string)
    requires n <= |tokens| && HashTokens(tokens, n) && Unbraced(w)
    ensures StartsWith(s, w) <==> StartsWith(Simultaneous(s, tokens, n), w)
    ensures StartsWith(s, w) ==> Simultaneous(s, tokens, n) == w + Simultaneous(s[|w|..], tokens, n)
    decreases |w|
  {
    if w == "" {
      assert s[0..] == s;
    } else if s != "" {
      var out := Simultaneous(s, tokens, n);
      ConsPrefix(s, w);
      ConsPrefix(out, w);
      FrontIsBrace(s, n);
      if FrontIndex(s, n) < 0 {
        assert out[1..] == Simultaneous(s[1..], tokens, n);
        FrontSurvives(s[1..], tokens, n, w[1..]);
        if StartsWith(s, w) {
          assert s[1..][|w| - 1..] == s[|w|..];
          assert out == [w[0]] + (w[1..] + Simultaneous(s[|w|..], tokens, n));
        }
      }
    }
  }

  lemma TailUnbraced(n: nat)
    ensures Unbraced(Placeholder(n)[1..])
  {
    var w := Placeholder(n)[1..];
    forall k | 0 <= k < |w| ensures w[k] != '{' && w[k] != '#' {
      PlaceholderShape(Placeholder(n), n, k + 1);
    }
  }

  lemma FrontPlaceholder(s: string, tokens: seq<string>, n: nat)
    requires n <= |tokens| && HashTokens(tokens, n)
    requires s != "" && FrontIndex(s, n) < 0
    ensures var p := Placeholder(n);
      && (StartsWith(s, p) <==> StartsWith(Simultaneous(s, tokens, n), p))
      && (StartsWith(s, p) ==> Simultaneous(s, tokens, n) == p + Simultaneous(s[|p|..], tokens, n))
  {
    var p := Placeholder(n);
    var w := p[1..];
    TailUnbraced(n);
    FrontSurvives(s[1..], tokens, n, w);
    var out := Simultaneous(s, tokens, n);
    assert out[1..] == Simultaneous(s[1..], tokens, n);
    ConsPrefix(s, p);
    ConsPrefix(out, p);
    if StartsWith(s, p) {
      assert s[1..][|w|..] == s[|p|..];
      assert out == [p[0]] + (w + Simultaneous(s[|p|..], tokens, n));
    }
  }

  /** One more round of the loop turns simultaneous substitution of n placeholders into that of n + 1. */
  lemma {:induction false} OneMore(s: string, tokens: seq<string>, n: nat)
    requires n < |tokens| && HashTokens(tokens, n + 1)
    requires AllInert(tokens, n + 1)
    ensures ReplaceAll(Simultaneous(s, tokens, n), Placeholder(n), tokens[n]) == Simultaneous(s, tokens, n + 1)
    decreases |s|
  {
    if s != "" {
      var p := Placeholder(n);
      var i := FrontIndex(s, n);
      if i >= 0 {
        if StartsWith(s, p) {
          PlaceholderPrefix(s, i, n);
        }
        OneMore(s[|Placeholder(i)|..], tokens, n);
        assert Inert(tokens[i], n);
        ReplaceSkips(tokens[i], Simultaneous(s[|Placeholder(i)|..], tokens, n), n, tokens[n]);
      } else {
        FrontPlaceholder(s, tokens, n);
        if StartsWith(s, p) {
          OneMore(s[|p|..], tokens, n);
          var rest := Simultaneous(s[|p|..], tokens, n);
          assert (p + rest)[|p|..] == rest;
        } else {
          OneMore(s[1..], tokens, n);
          var rest := Simultaneous(s[1..], tokens, n);
          assert ([s[0]] + rest)[1..] == rest;
        }
      }
    }
  }

  /** Replacing the placeholders one after the other is the same as replacing them all at once. */
  lemma {:induction false} SequentialIsSimultaneous(s: string, tokens: seq<string>, n: nat)
    requires n <= |tokens| && HashTokens(tokens, n)
    requires AllInert(tokens, n)
    ensures ReplaceEach(s, tokens, n) == Simultaneous(s, tokens, n)
  {
    if n == 0 {
      NothingToReplace(s, tokens);
    } else {
      SequentialIsSimultaneous(s, tokens, n - 1);
      OneMore(s, tokens, n - 1);
    }
  }

  lemma {:induction false} NothingToReplace(s: string, tokens: seq<string>)
    ensures Simultaneous(s, tokens, 0) == s
    decreases |s|
  {
    if s != "" {
      NothingToReplace(s[1..], tokens);
    }
  }

  // ---------------------------------------------------------------- which aliases are safe

  predicate Contains(s: string, p: string) {
    exists k :: 0 <= k <= |s| && StartsWith(s[k..], p)
  }

  /** The names of the parameter map: a counter behind a fixed prefix. */
  function ParamName(n: nat): string { "MPGENVAL" + Decimal(n) }

  function Tokens(alias: string, start: nat, n: nat): (ts: seq<string>)
    ensures |ts| == n
    ensures forall i :: 0 <= i < n ==> ts[i] == Token(alias, ParamName(start + i + 1))
  {
    seq(n, i requires 0 <= i < n => Token(alias, ParamName(start + i + 1)))
  }

  function Back(m: nat): string { ".paramNameValuePairs." + ParamName(m) + "}" }

  lemma TokenShape(alias: string, m: nat)
    ensures Token(alias, ParamName(m)) == "#" + (("{" + alias) + Back(m))
  {
  }

  /** A placeholder inside a token can only lie in the brace and the alias behind it. */
  lemma TokenInertIff(alias: string, m: nat, j: nat)
    ensures Inert(Token(alias, ParamName(m)), j) <==> !Contains("{" + alias, Placeholder(j))
  {
    TokenShape(alias, m);
    var head := "{" + alias;
    if Contains(head, Placeholder(j)) {
      var k :| 0 <= k <= |head| && StartsWith(head[k..], Placeholder(j));
      InsideToken(head, Back(m), Placeholder(j), k);
    }
    if !Inert(Token(alias, ParamName(m)), j) {
      var k, rest :| 0 <= k < |Token(alias, ParamName(m))| &&
                     StartsWith(Token(alias, ParamName(m))[k..] + rest, Placeholder(j));
      OccurrenceInHead(head, m, j, k, rest);
    }
  }

  lemma InsideToken(head: string, back: string, p: string, k: nat)
    requires k <= |head| && StartsWith(head[k..], p)
    ensures var t := "#" + (head + back);
      && t[k + 1..] == head[k..] + back
      && StartsWith(t[k + 1..], p) && StartsWith(t[k + 1..] + "", p)
  {
    var t := "#" + (head + back);
    assert t[k + 1..] == head[k..] + back;
    assert t[k + 1..] + "" == t[k + 1..];
  }

  lemma OccurrenceInHead(head: string, m: nat, j: nat, k: nat, rest: string)
    requires var t := "#" + (head + Back(m));
      k < |t| && StartsWith(t[k..] + rest, Placeholder(j))
    ensures Contains(head, Placeholder(j))
  {
    var t, p := "#" + (head + Back(m)), Placeholder(j);
    var u := t[k..] + rest;
    PlaceholderShape(p, j, 0);
    assert u[0] == t[k] == '{';
    BraceInHead(head, m, k);
    var d := |head| + 1 - k;
    assert u[d] == t[|head| + 1] == Back(m)[0];
    DotIsBeyond(u, j, d);
    assert head[k - 1..] == u[..d];
    assert StartsWith(head[k - 1..], p);
  }

  lemma BraceInHead(head: string, m: nat, k: nat)
    requires var t := "#" + (head + Back(m));
      k < |t| && t[k] == '{'
    ensures 1 <= k <= |head|
  {
    if k > |head| {
      BackAt(head, m, k);
    }
  }

  lemma BackAt(head: string, m: nat, k: nat)
    requires |head| < k < |"#" + (head + Back(m))|
    ensures ("#" + (head + Back(m)))[k] != '{'
  {
    BackHasNoBrace(m, k - 1 - |head|);
    assert ("#" + (head + Back(m)))[k] == Back(m)[k - 1 - |head|];
  }

  lemma DotIsBeyond(u: string, j: nat, d: nat)
    requires StartsWith(u, Placeholder(j)) && 0 < d < |u| && u[d] == '.'
    ensures d >= |Placeholder(j)|
  {
    if d < |Placeholder(j)| {
      PlaceholderShape(Placeholder(j), j, d);
    }
  }

  lemma BackHasNoBrace(m: nat, k: int)
    ensures 0 <= k < |Back(m)| ==> Back(m)[k] != '{'
  {
    var front, name := ".paramNameValuePairs.", ParamName(m);
    var back := Back(m);
    if 0 <= k < |back| {
      if k < |front| {
        assert back[k] == front[k];
      } else if k < |front| + 8 {
        assert back[k] == "MPGENVAL"[k - |front|];
      } else if k < |front| + |name| {
        assert back[k] == Decimal(m)[k - |front| - 8];
      } else {
        assert back[k] == '}';
      }
    }
  }

  /** No placeholder that is replaced after the first lies in the brace and the alias behind it. */
  predicate SafeAlias(alias: string, n: nat) {
    forall j :: 0 < j < n ==> !Contains("{" + alias, Placeholder(j))
  }

  /** Under a safe alias, every fragment is substituted as if all at once. */
  lemma SafeAliasSubstitutes(s: string, alias: string, start: nat, n: nat)
    requires SafeAlias(alias, n)
    ensures var ts := Tokens(alias, start, n);
      ReplaceEach(s, ts, n) == Simultaneous(s, ts, n)
  {
    TokensAreInert(alias, start, n, n);
    SequentialIsSimultaneous(s, Tokens(alias, start, n), n);
  }

  lemma TokensAreInert(alias: string, start: nat, n: nat, k: nat)
    requires k <= n && SafeAlias(alias, k)
    ensures AllInert(Tokens(alias, start, n), k) && HashTokens(Tokens(alias, start, n), n)
  {
    var ts := Tokens(alias, start, n);
    forall i, j | 0 <= i < j < k
      ensures Inert(ts[i], j)
    {
      TokenInertIff(alias, start + i + 1, j);
    }
  }

  lemma {:induction false} DecimalGrows(m: nat, n: nat)
    requires m <= n
    ensures |Decimal(m)| <= |Decimal(n)|
  {
    if m >= 10 {
      DecimalGrows(m / 10, n / 10);
    }
  }

  lemma {:induction false} ReplaceGrows(s: string, p: string, t: string)
    requires p != "" && |t| > |p|
    ensures |ReplaceAll(s, p, t)| >= |s|
    ensures Contains(s, p) ==> |ReplaceAll(s, p, t)| > |s|
    ensures !Contains(s, p) ==> ReplaceAll(s, p, t) == s
    decreases |s|
  {
    if s != "" {
      if StartsWith(s, p) {
        assert s[0..] == s;
        ReplaceGrows(s[|p|..], p, t);
      } else {
        ReplaceGrows(s[1..], p, t);
        ContainsTail(s, p);
      }
    }
  }

  lemma ContainsTail(s: string, p: string)
    requires s != "" && !StartsWith(s, p)
    ensures Contains(s, p) <==> Contains(s[1..], p)
  {
    if Contains(s, p) {
      var k :| 0 <= k <= |s| && StartsWith(s[k..], p);
      assert k > 0 by { assert s[0..] == s; }
      assert s[1..][k - 1..] == s[k..];
    }
    if Contains(s[1..], p) {
      var k :| 0 <= k <= |s[1..]| && StartsWith(s[1..][k..], p);
      assert s[1..][k..] == s[k + 1..];
    }
  }

  lemma TokenIsLonger(alias: string, start: nat, i: nat)
    ensures |Token(alias, ParamName(start + i + 1))| > |Placeholder(i)|
  {
    DecimalGrows(i, start + i + 1);
  }

  lemma {:induction false} RoundsGrow(s: string, ts: seq<string>, k: nat, n: nat)
    requires k <= n <= |ts| && forall i :: 0 <= i < n ==> |ts[i]| > |Placeholder(i)|
    ensures |ReplaceEach(s, ts, n)| >= |ReplaceEach(s, ts, k)|
  {
    if k < n {
      RoundsGrow(s, ts, k, n - 1);
      ReplaceGrows(ReplaceEach(s, ts, n - 1), Placeholder(n - 1), ts[n - 1]);
    }
  }

  lemma {:induction false} FirstUnsafe(alias: string, n: nat) returns (j: nat)
    requires !SafeAlias(alias, n)
    ensures 0 < j < n && Contains("{" + alias, Placeholder(j)) && SafeAlias(alias, j)
  {
    if SafeAlias(alias, n - 1) {
      j := n - 1;
    } else {
      j := FirstUnsafe(alias, n - 1);
    }
  }

  /** Under an unsafe alias the fragment `{0}` is not: a later round rewrites the first token. */
  lemma UnsafeAliasRewrites(alias: string, start: nat, n: nat)
    requires !SafeAlias(alias, n)
    ensures var ts := Tokens(alias, start, n);
      ReplaceEach("{0}", ts, n) != Simultaneous("{0}", ts, n)
  {
    var ts := Tokens(alias, start, n);
    var j := FirstUnsafe(alias, n);
    TokensAreInert(alias, start, n, j);
    SequentialIsSimultaneous("{0}", ts, j);
    FirstToken(ts, j);
    FirstToken(ts, n);
    forall i | 0 <= i < n ensures |ts[i]| > |Placeholder(i)| {
      TokenIsLonger(alias, start, i);
    }
    TokenContains(alias, start + 1, j);
    ReplaceGrows(ts[0], Placeholder(j), ts[j]);
    RoundsGrow("{0}", ts, j + 1, n);
  }

  lemma TokenContains(alias: string, m: nat, j: nat)
    requires Contains("{" + alias, Placeholder(j))
    ensures Contains(Token(alias, ParamName(m)), Placeholder(j))
  {
    TokenShape(alias, m);
    var head := "{" + alias;
    var k :| 0 <= k <= |head| && StartsWith(head[k..], Placeholder(j));
    InsideToken(head, Back(m), Placeholder(j), k);
  }

  lemma FirstToken(ts: seq<string>, n: nat)
    requires 0 < n <= |ts|
    ensures Simultaneous("{0}", ts, n) == ts[0]
  {
    var p := Placeholder(0);
    assert p == "{0}" && p + "" == p && p[|p|..] == "";
    FrontIndexOf("", 0, n);
    assert Simultaneous("", ts, n) == "" && ts[0] + "" == ts[0];
  }

  lemma FrontIndexOf(rest: string, i: nat, n: nat)
    requires i < n
    ensures FrontIndex(Placeholder(i) + rest, n) == i
  {
    var s := Placeholder(i) + rest;
    assert StartsWith(s, Placeholder(i));
    var f := FrontIndex(s, n);
    SomeFrontIndex(s, i, n);
    PlaceholderPrefix(s, i, f);
  }

  lemma {:induction false} SomeFrontIndex(s: string, i: nat, n: nat)
    requires i < n && StartsWith(s, Placeholder(i))
    ensures FrontIndex(s, n) >= 0
  {
    if i < n - 1 {
      SomeFrontIndex(s, i, n - 1);
    }
  }

  // ---------------------------------------------------------------- IN (...)

  /** The list "{i},{i+1},...,{n-1}" of inExpression. */
  function PlaceholderList(i: nat, n: nat): string
    requires i <= n
    decreases n - i
  {
    if i == n then "" else Placeholder(i) + ((if i + 1 < n then "," else "") + PlaceholderList(i + 1, n))
  }

  function TokenList(ts: seq<string>, i: nat): string
    requires i <= |ts|
    decreases |ts| - i
  {
    if i == |ts| then "" else ts[i] + ((if i + 1 < |ts| then "," else "") + TokenList(ts, i + 1))
  }

  function InFront(column: string, isNot: bool): string {
    column + (if isNot then " NOT" else "") + " IN " + "("
  }

  function InText(column: string, n: nat, isNot: bool): string {
    InFront(column, isNot) + (PlaceholderList(0, n) + ")")
  }

  lemma {:induction false} PlainPrefix(a: string, s: string, ts: seq<string>, n: nat)
    requires n <= |ts| && forall k :: 0 <= k < |a| ==> a[k] != '{'
    ensures Simultaneous(a + s, ts, n) == a + Simultaneous(s, ts, n)
    decreases |a|
  {
    if a == "" {
      assert a + s == s;
    } else {
      assert (a + s)[1..] == a[1..] + s;
      FrontIsBrace(a + s, n);
      PlainPrefix(a[1..], s, ts, n);
    }
  }

  lemma {:induction false} ListSubstitutes(ts: seq<string>, i: nat, rest: string)
    requires i <= |ts|
    ensures Simultaneous(PlaceholderList(i, |ts|) + rest, ts, |ts|) == TokenList(ts, i) + Simultaneous(rest, ts, |ts|)
    decreases |ts| - i
  {
    var n := |ts|;
    if i == n {
      assert "" + rest == rest;
    } else {
      var comma, list, out := if i + 1 < n then "," else "", PlaceholderList(i + 1, n), Simultaneous(rest, ts, n);
      calc {
        Simultaneous(PlaceholderList(i, n) + rest, ts, n);
        { Assoc(Placeholder(i), comma + list, rest); Assoc(comma, list, rest); }
        Simultaneous(Placeholder(i) + (comma + (list + rest)), ts, n);
        { FrontSubstitutes(ts, i, comma + (list + rest)); PlainPrefix(comma, list + rest, ts, n); }
        ts[i] + (comma + Simultaneous(list + rest, ts, n));
        { ListSubstitutes(ts, i + 1, rest); }
        ts[i] + (comma + (TokenList(ts, i + 1) + out));
        { Assoc(comma, TokenList(ts, i + 1), out); Assoc(ts[i], comma + TokenList(ts, i + 1), out); }
        TokenList(ts, i) + out;
      }
    }
  }

  lemma FrontSubstitutes(ts: seq<string>, i: nat, rest: string)
    requires i < |ts|
    ensures Simultaneous(Placeholder(i) + rest, ts, |ts|) == ts[i] + Simultaneous(rest, ts, |ts|)
  {
    FrontIndexOf(rest, i, |ts|);
    assert (Placeholder(i) + rest)[|Placeholder(i)|..] == rest;
  }

  /** An IN condition names every parameter once, in order. */
  lemma InNamesEveryParameter(column: string, isNot: bool, alias: string, start: nat, n: nat)
    requires SafeAlias(alias, n) && forall k :: 0 <= k < |column| ==> column[k] != '{'
    ensures var ts := Tokens(alias, start, n);
      ReplaceEach(InText(column, n, isNot), ts, n) ==
      InFront(column, isNot) + (TokenList(ts, 0) + ")")
  {
    var ts := Tokens(alias, start, n);
    SafeAliasSubstitutes(InText(column, n, isNot), alias, start, n);
    PlainPrefix(InFront(column, isNot), PlaceholderList(0, n) + ")", ts, n);
    ListSubstitutes(ts, 0, ")");
    PlainPrefix(")", "", ts, n);
    assert ")" + "" == ")";
  }

  lemma TwoSubstitute(front: string, ts: seq<string>, i: nat, between: string, j: nat)
    requires i < |ts| && j < |ts| && '{' !in front && '{' !in between
    ensures Simultaneous(front + (Placeholder(i) + (between + Placeholder(j))), ts, |ts|) ==
            front + (ts[i] + (between + ts[j]))
  {
    var last := between + Placeholder(j);
    PlainPrefix(front, Placeholder(i) + last, ts, |ts|);
    FrontSubstitutes(ts, i, last);
    PlainPrefix(between, Placeholder(j), ts, |ts|);
    FrontSubstitutes(ts, j, "");
    assert Placeholder(j) + "" == Placeholder(j) && ts[j] + "" == ts[j];
  }

  /** x BETWEEN {0} AND {1}. */
  lemma BetweenNamesBoth(front: string, alias: string, start: nat)
    requires SafeAlias(alias, 2) && '{' !in front
    ensures var ts := Tokens(alias, start, 2);
      ReplaceEach(front + (Placeholder(0) + (" AND " + Placeholder(1))), ts, 2) ==
      front + (ts[0] + (" AND " + ts[1]))
  {
    SafeAliasSubstitutes(front + (Placeholder(0) + (" AND " + Placeholder(1))), alias, start, 2);
    TwoSubstitute(front, Tokens(alias, start, 2), 0, " AND ", 1);
  }
}
