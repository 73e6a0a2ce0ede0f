/**
 The template tokenizer: the source is one text token, and each rule in turn splits the text tokens
 around its matches. A token's line and start come from the token before it.
 */
module Tokenizer {

  import opened Lists
  import opened Options

  datatype Kind = TEXT | EXPRESSION

  /** A token without its position. */
  datatype Piece = Piece(kind: Kind, value: string)

  datatype Token = Token(piece: Piece, line: nat, start: nat, end: nat)

  /** A match: where it starts, and its length. */
  datatype Match = Match(index: nat, length: nat)

  /** What a rule's expression finds in a text from a position on. */
  type Rule = (string, nat) -> Option<Match>

  /** A match is not empty, starts at the position or after it, and lies in the text. */
  ghost predicate IsRule(rule: Rule) {
    forall v: string, d: nat :: d <= |v| && rule(v, d).Some? ==>
      var m := rule(v, d).value; d <= m.index && m.length > 0 && m.index + m.length <= |v|
  }

  // ---------------------------------------------------------------- positions

  function Newlines(s: string): nat {
    if s == "" then 0 else Newlines(s[..|s| - 1]) + if s[|s| - 1] == '\n' then 1 else 0
  }

  /** How many characters follow the last newline. */
  function Column(s: string): nat {
    if s == "" || s[|s| - 1] == '\n' then 0 else Column(s[..|s| - 1]) + 1
  }

  /** The index of the last newline, or -1. */
  function LastNewline(s: string): (i: int)
    ensures -1 <= i < |s|
  {
    if s == "" then -1 else if s[|s| - 1] == '\n' then |s| - 1 else LastNewline(s[..|s| - 1])
  }

  lemma {:induction false} ColumnIsAfterLast(s: string)
    ensures Column(s) == |s| - LastNewline(s) - 1
  {
    if s != "" && s[|s| - 1] != '\n' {
      ColumnIsAfterLast(s[..|s| - 1]);
    }
  }

  /** The position after more text. */
  lemma {:induction false} PositionAfter(p: string, v: string)
    ensures Newlines(p + v) == Newlines(p) + Newlines(v)
    ensures Column(p + v) == if Newlines(v) == 0 then Column(p) + |v| else Column(v)
    decreases |v|
  {
    if v == "" {
      assert p + v == p;
    } else {
      var w := v[..|v| - 1];
      assert (p + v)[..|p + v| - 1] == p + w;
      PositionAfter(p, w);
    }
  }

  // ---------------------------------------------------------------- tokens

  /** The line of a token that follows prev. */
  function NextLine(prev: Option<Token>): nat {
    match prev
    case None => 0
    case Some(p) => p.line + Newlines(p.piece.value)
  }

  function NextStart(prev: Option<Token>): nat {
    match prev
    case None => 0
    case Some(p) =>
      if NextLine(prev) == p.line then p.end else |p.piece.value| - LastNewline(p.piece.value) - 1
  }

  /** The token constructor: the position comes from the token before. */
  function NewToken(piece: Piece, prev: Option<Token>): Token {
    Token(piece, NextLine(prev), NextStart(prev), NextStart(prev) + |piece.value|)
  }

  /** The token stands after the text p. */
  predicate StandsAt(t: Token, p: string) {
    t.line == Newlines(p) && t.start == Column(p) && t.end == t.start + |t.piece.value|
  }

  /** What follows prev stands after the text p. */
  predicate LeadsTo(prev: Option<Token>, p: string) {
    NextLine(prev) == Newlines(p) && NextStart(prev) == Column(p)
  }

  /** A token leads to the end of its text. */
  lemma StandingLeads(t: Token, p: string)
    requires StandsAt(t, p)
    ensures LeadsTo(Some(t), p + t.piece.value)
  {
    PositionAfter(p, t.piece.value);
    ColumnIsAfterLast(t.piece.value);
  }

  function Joined(ts: seq<Token>): string {
    if ts == [] then "" else ts[0].piece.value + Joined(ts[1..])
  }

  /** The tokens stand one after the other, from after the text p. */
  predicate Placed(ts: seq<Token>, p: string)
    decreases |ts|
  {
    ts == [] || (StandsAt(ts[0], p) && Placed(ts[1..], p + ts[0].piece.value))
  }

  lemma {:induction false} JoinedConcat(a: seq<Token>, b: seq<Token>)
    ensures Joined(a + b) == Joined(a) + Joined(b)
    decreases |a|
  {
    if a == [] {
      assert a + b == b;
    } else {
      assert (a + b)[1..] == a[1..] + b;
      JoinedConcat(a[1..], b);
      Assoc(a[0].piece.value, Joined(a[1..]), Joined(b));
    }
  }

  lemma {:induction false} PlacedConcat(a: seq<Token>, b: seq<Token>, p: string)
    ensures Placed(a + b, p) <==> Placed(a, p) && Placed(b, p + Joined(a))
    decreases |a|
  {
    if a == [] {
      assert a + b == b && p + Joined(a) == p;
    } else {
      assert (a + b)[1..] == a[1..] + b;
      PlacedConcat(a[1..], b, p + a[0].piece.value);
      Assoc(p, a[0].piece.value, Joined(a[1..]));
    }
  }

  lemma PlacedPush(m: seq<Token>, t: Token, p: string)
    requires Placed(m, p) && StandsAt(t, p + Joined(m))
    ensures Placed(m + [t], p) && Joined(m + [t]) == Joined(m) + t.piece.value
  {
    PlacedConcat(m, [t], p);
    JoinedConcat(m, [t]);
    assert [t][1..] == [];
    assert Joined([t]) == t.piece.value;
  }

  /** Replacing a token by tokens with the same text keeps all positions. */
  lemma SpliceKeeps(a: seq<Token>, t: Token, b: seq<Token>, m: seq<Token>, p: string)
    requires Placed(a + ([t] + b), p) && Placed(m, p + Joined(a)) && Joined(m) == t.piece.value
    ensures Placed(a + (m + b), p) && Joined(a + (m + b)) == Joined(a + ([t] + b))
  {
    var q := p + Joined(a);
    PlacedConcat(a, [t] + b, p);
    PlacedConcat(a, m + b, p);
    PlacedConcat(m, b, q);
    assert ([t] + b)[1..] == b;
    JoinedConcat(a, [t] + b);
    JoinedConcat(a, m + b);
    JoinedConcat(m, b);
  }

  lemma LastStands(a: seq<Token>, t: Token)
    requires Placed(a + [t], "")
    ensures StandsAt(t, Joined(a)) && Joined(a + [t]) == Joined(a) + t.piece.value
  {
    PlacedConcat(a, [t], "");
    JoinedConcat(a, [t]);
    assert [t][1..] == [] && Joined([t]) == t.piece.value;
    assert "" + Joined(a) == Joined(a);
  }

  /** Every token stands where the text before it ends. */
  lemma PlacedAt(ts: seq<Token>, i: nat)
    requires Placed(ts, "") && i < |ts|
    ensures StandsAt(ts[i], Joined(ts[..i])) && Joined(ts[..i]) <= Joined(ts)
  {
    var a, b := ts[..i], ts[i..];
    assert ts == a + b && "" + Joined(a) == Joined(a);
    PlacedConcat(a, b, "");
    JoinedConcat(a, b);
  }

  function Last(done: seq<Token>): Option<Token> {
    if done == [] then None else Some(done[|done| - 1])
  }

  /** The last token before the others leads to them. */
  lemma LastLeads(done: seq<Token>, rest: seq<Token>)
    requires Placed(done + rest, "")
    ensures LeadsTo(Last(done), Joined(done))
  {
    PlacedConcat(done, rest, "");
    if done != [] {
      var a, t := done[..|done| - 1], done[|done| - 1];
      assert done == a + [t];
      LastStands(a, t);
      StandingLeads(t, Joined(a));
    }
  }

  // ---------------------------------------------------------------- splitting

  function PiecesOf(ts: seq<Token>): seq<Piece> {
    if ts == [] then [] else [ts[0].piece] + PiecesOf(ts[1..])
  }

  lemma {:induction false} PiecesConcat(a: seq<Token>, b: seq<Token>)
    ensures PiecesOf(a + b) == PiecesOf(a) + PiecesOf(b)
    decreases |a|
  {
    if a == [] {
      assert a + b == b;
    } else {
      assert (a + b)[1..] == a[1..] + b;
      PiecesConcat(a[1..], b);
    }
  }

  lemma PiecesPush(a: seq<Token>, t: Token)
    ensures PiecesOf(a + [t]) == PiecesOf(a) + [t.piece]
  {
    PiecesConcat(a, [t]);
    assert [t][1..] == [];
  }

  function TextPiece(t: string): seq<Piece> {
    if t == "" then [] else [Piece(TEXT, t)]
  }

  /** A text from position d on: its matches one after the other, and what is between them. */
  ghost function SplitFrom(rule: Rule, v: string, d: nat): seq<Piece>
    requires IsRule(rule) && d <= |v|
    decreases |v| - d
  {
    match rule(v, d)
    case None => TextPiece(v[d..])
    case Some(m) =>
      var end := m.index + m.length;
      TextPiece(v[d..m.index]) + ([Piece(EXPRESSION, v[m.index..end])] + SplitFrom(rule, v, end))
  }

  ghost function SplitPiece(rule: Rule, p: Piece): seq<Piece>
    requires IsRule(rule)
  {
    if p.kind == TEXT then SplitFrom(rule, p.value, 0) else [p]
  }

  /** One rule's pass: only text is split. */
  ghost function Pass(rule: Rule, ps: seq<Piece>): seq<Piece>
    requires IsRule(rule)
  {
    if ps == [] then [] else SplitPiece(rule, ps[0]) + Pass(rule, ps[1..])
  }

  ghost predicate AreRules(rules: seq<Rule>) {
    forall i :: 0 <= i < |rules| ==> IsRule(rules[i])
  }

  /** Before the first rule, all the source is text. */
  function Start(source: string): seq<Piece> {
    [Piece(TEXT, source)]
  }

  ghost function Passes(rules: seq<Rule>, n: nat, ps: seq<Piece>): seq<Piece>
    requires AreRules(rules) && n <= |rules|
  {
    if n == 0 then ps else Pass(rules[n - 1], Passes(rules, n - 1, ps))
  }

  // ---------------------------------------------------------------- the tokenizer

  /** The inner loop: the tokens that a text token is replaced by. */
  method SplitToken(rule: Rule, f: Token, prev: Option<Token>, ghost before: seq<Token>)
    returns (m: seq<Token>)
    requires IsRule(rule) && LeadsTo(prev, Joined(before))
    ensures Placed(m, Joined(before)) && Joined(m) == f.piece.value
    ensures PiecesOf(m) == SplitFrom(rule, f.piece.value, 0)
  {
    ghost var at := Joined(before);
    var v := f.piece.value;
    var p, d := prev, 0;
    m := [];
    assert at + v[..0] == at;
    var h := rule(v, d);
    while h.Some?
      invariant 0 <= d <= |v| && h == rule(v, d)
      invariant Placed(m, at) && Joined(m) == v[..d] && LeadsTo(p, at + v[..d])
      invariant PiecesOf(m) + SplitFrom(rule, v, d) == SplitFrom(rule, v, 0)
      decreases |v| - d
    {
      m, p, d := PushMatch(rule, m, v, d, h.value, p, at);
      h := rule(v, d);
    }
    m := PushRest(rule, m, v, d, p, at);
  }

  /** The text after the last match. */
  method PushRest(rule: Rule, m: seq<Token>, v: string, d: nat, prev: Option<Token>, ghost at: string)
    returns (m': seq<Token>)
    requires IsRule(rule) && d <= |v| && rule(v, d).None?
    requires Placed(m, at) && Joined(m) == v[..d] && LeadsTo(prev, at + v[..d])
    ensures Placed(m', at) && Joined(m') == v && PiecesOf(m') == PiecesOf(m) + SplitFrom(rule, v, d)
  {
    var p;
    m', p := PushText(m, v, d, |v|, prev, at);
    assert v[..|v|] == v && v[d..] == v[d..|v|];
  }

  /** The text before a match, and the match. */
  method PushMatch(rule: Rule, m: seq<Token>, v: string, d: nat, h: Match, prev: Option<Token>, ghost at: string)
    returns (m': seq<Token>, p: Option<Token>, end: nat)
    requires IsRule(rule) && d <= |v| && rule(v, d) == Some(h)
    requires Placed(m, at) && Joined(m) == v[..d] && LeadsTo(prev, at + v[..d])
    ensures end == h.index + h.length && d < end <= |v|
    ensures Placed(m', at) && Joined(m') == v[..end] && LeadsTo(p, at + v[..end])
    ensures PiecesOf(m') + SplitFrom(rule, v, end) == PiecesOf(m) + SplitFrom(rule, v, d)
  {
    end := h.index + h.length;
    m', p := PushText(m, v, d, h.index, prev, at);
    m', p := Push(m', EXPRESSION, v, h.index, end, p, at);
    SplitStep(rule, v, d, h);
    Combine(PiecesOf(m), TextPiece(v[d..h.index]), [Piece(EXPRESSION, v[h.index..end])], SplitFrom(rule, v, end),
            PiecesOf(m'), SplitFrom(rule, v, d));
  }

  lemma SplitStep(rule: Rule, v: string, d: nat, h: Match)
    requires IsRule(rule) && d <= |v| && rule(v, d) == Some(h)
    ensures var end := h.index + h.length;
      SplitFrom(rule, v, d) == TextPiece(v[d..h.index])
        + ([Piece(EXPRESSION, v[h.index..end])] + SplitFrom(rule, v, end))
  {
  }

  lemma Combine<A>(a: seq<A>, b: seq<A>, c: seq<A>, d: seq<A>, front: seq<A>, back: seq<A>)
    requires front == (a + b) + c && back == b + (c + d)
    ensures front + d == a + back
  {
  }

  /** A token is made after those there are, and put behind them. */
  method Push(m: seq<Token>, kind: Kind, v: string, d: nat, e: nat, prev: Option<Token>, ghost at: string)
    returns (m': seq<Token>, p: Option<Token>)
    requires d <= e <= |v|
    requires Placed(m, at) && Joined(m) == v[..d] && LeadsTo(prev, at + v[..d])
    ensures Placed(m', at) && Joined(m') == v[..e] && LeadsTo(p, at + v[..e])
    ensures PiecesOf(m') == PiecesOf(m) + [Piece(kind, v[d..e])]
  {
    var t := NewToken(Piece(kind, v[d..e]), prev);
    StandingLeads(t, at + v[..d]);
    PlacedPush(m, t, at);
    PiecesPush(m, t);
    Assoc(at, v[..d], v[d..e]);
    assert v[..d] + v[d..e] == v[..e];
    m', p := m + [t], Some(t);
  }

  /** The text between d and e, if there is any. */
  method PushText(m: seq<Token>, v: string, d: nat, e: nat, prev: Option<Token>, ghost at: string)
    returns (m': seq<Token>, p: Option<Token>)
    requires d <= e <= |v|
    requires Placed(m, at) && Joined(m) == v[..d] && LeadsTo(prev, at + v[..d])
    ensures Placed(m', at) && Joined(m') == v[..e] && LeadsTo(p, at + v[..e])
    ensures PiecesOf(m') == PiecesOf(m) + TextPiece(v[d..e])
  {
    m', p := m, prev;
    if e > d {
      m', p := Push(m, TEXT, v, d, e, prev, at);
    }
  }

  lemma PassFirst(rule: Rule, t: Token, b: seq<Token>)
    requires IsRule(rule)
    ensures Pass(rule, PiecesOf([t] + b)) == SplitPiece(rule, t.piece) + Pass(rule, PiecesOf(b))
  {
    assert ([t] + b)[1..] == b;
    assert PiecesOf([t] + b)[1..] == PiecesOf(b);
  }

  /** Where a pass gets to when a token is replaced by the tokens its piece is split into. */
  lemma PassStep(rule: Rule, done: seq<Token>, t: Token, rest: seq<Token>,
                                    m: seq<Token>, all: seq<Piece>)
    requires IsRule(rule) && PiecesOf(m) == SplitPiece(rule, t.piece)
    requires PiecesOf(done) + Pass(rule, PiecesOf([t] + rest)) == all
    ensures PiecesOf(done + m) + Pass(rule, PiecesOf(rest)) == all
  {
    PassFirst(rule, t, rest);
    PiecesConcat(done, m);
    Assoc(PiecesOf(done), PiecesOf(m), Pass(rule, PiecesOf(rest)));
  }

  lemma SliceAround(ts: seq<Token>, done: seq<Token>, t: Token, rest: seq<Token>)
    requires ts == done + ([t] + rest)
    ensures ts[..|done|] == done && ts[|done|] == t && ts[|done| + 1..] == rest
  {
  }

  lemma PlacesKept(done: seq<Token>, t: Token, rest: seq<Token>, m: seq<Token>)
    requires Placed(done + ([t] + rest), "") && Placed(m, Joined(done)) && Joined(m) == t.piece.value
    ensures Placed(done + (m + rest), "") && Joined(done + (m + rest)) == Joined(done + ([t] + rest))
  {
    assert "" + Joined(done) == Joined(done);
    SpliceKeeps(done, t, rest, m, "");
  }

  /** The pass at the l-th token: a text token is replaced in place by the tokens m it is split into. */
  method Visit(rule: Rule, tokens: seq<Token>, l: nat, ghost done: seq<Token>, ghost rest: seq<Token>)
    returns (o: seq<Token>, next: nat, ghost m: seq<Token>)
    requires IsRule(rule) && Placed(tokens, "") && l == |done| < |tokens| && tokens == done + ([tokens[l]] + rest)
    ensures o == done + (m + rest) && next == l + |m| && PiecesOf(m) == SplitPiece(rule, tokens[l].piece)
    ensures Placed(o, "") && Joined(o) == Joined(tokens)
  {
    var f := tokens[l];
    SliceAround(tokens, done, f, rest);
    if f.piece.kind == TEXT {
      LastLeads(done, [f] + rest);
      var pieces := SplitToken(rule, f, Last(tokens[..l]), done);
      m := pieces;
      PlacesKept(done, f, rest, m);
      o, next := tokens[..l] + (pieces + tokens[l + 1..]), l + |pieces|;
    } else {
      m := [f];
      PiecesPush([], f);
      assert [] + [f] == [f];
      o, next := tokens, l + 1;
    }
  }

  /** One rule's pass over the tokens, splicing them in place. */
  method RunRule(rule: Rule, tokens: seq<Token>) returns (o: seq<Token>)
    requires IsRule(rule) && Placed(tokens, "")
    ensures Placed(o, "") && Joined(o) == Joined(tokens) && PiecesOf(o) == Pass(rule, PiecesOf(tokens))
  {
    o := tokens;
    var l: nat := 0;
    ghost var done: seq<Token>, rest, all := [], tokens, Pass(rule, PiecesOf(tokens));
    while l < |o|
      invariant o == done + rest && l == |done| && Placed(o, "") && Joined(o) == Joined(tokens)
      invariant PiecesOf(done) + Pass(rule, PiecesOf(rest)) == all
      decreases |rest|
    {
      ghost var t, later := rest[0], rest[1..];
      assert rest == [t] + later;
      ghost var m;
      o, l, m := Visit(rule, o, l, done, later);
      PassStep(rule, done, t, later, m, all);
      Assoc(done, m, later);
      done, rest := done + m, later;
    }
    assert rest == [] && o == done;
  }

  method FirstToken(source: string) returns (o: seq<Token>)
    ensures Placed(o, "") && Joined(o) == source && PiecesOf(o) == Start(source)
  {
    var t := NewToken(Piece(TEXT, source), None);
    o := [t];
    PiecesPush([], t);
    assert o[1..] == [] && [] + [t] == o && source + "" == source;
  }

  /** For every source and every list of rules: the tokens' values make up the source, every token's line
      and start are those of its position, and the tokens are those of the rules' passes. */
  method Tokenize(source: string, rules: seq<Rule>) returns (o: seq<Token>)
    requires AreRules(rules)
    ensures Placed(o, "") && Joined(o) == source
    ensures PiecesOf(o) == Passes(rules, |rules|, Start(source))
  {
    o := FirstToken(source);
    for s := 0 to |rules|
      invariant Placed(o, "") && Joined(o) == source
      invariant PiecesOf(o) == Passes(rules, s, Start(source))
    {
      o := RunRule(rules[s], o);
    }
  }

  // ---------------------------------------------------------------- what the passes do

  function Values(ps: seq<Piece>): string {
    if ps == [] then "" else ps[0].value + Values(ps[1..])
  }

  predicate NoneEmpty(ps: seq<Piece>) {
    forall i :: 0 <= i < |ps| ==> ps[i].value != ""
  }

  /** The matched pieces, with where they start. */
  function Matched(ps: seq<Piece>, at: nat): set<(nat, string)> {
    if ps == [] then {}
    else
      (if ps[0].kind == EXPRESSION then {(at, ps[0].value)} else {})
      + Matched(ps[1..], at + |ps[0].value|)
  }

  lemma {:induction false} SplitValues(rule: Rule, v: string, d: nat)
    requires IsRule(rule) && d <= |v|
    ensures Values(SplitFrom(rule, v, d)) == v[d..] && NoneEmpty(SplitFrom(rule, v, d))
    decreases |v| - d
  {
    match rule(v, d) {
      case None =>
        ValuesOfText(v[d..], []);
      case Some(m) =>
        var end := m.index + m.length;
        SplitValues(rule, v, end);
        var e := Piece(EXPRESSION, v[m.index..end]);
        ValuesOfMatch(e, SplitFrom(rule, v, end));
        ValuesOfText(v[d..m.index], [e] + SplitFrom(rule, v, end));
        CutTwice(v, d, m.index, end);
    }
  }

  lemma ValuesOfMatch(e: Piece, rest: seq<Piece>)
    requires e.value != ""
    ensures Values([e] + rest) == e.value + Values(rest)
    ensures NoneEmpty(rest) ==> NoneEmpty([e] + rest)
  {
    assert ([e] + rest)[1..] == rest;
  }

  lemma CutTwice(v: string, a: nat, b: nat, c: nat)
    requires a <= b <= c <= |v|
    ensures v[a..b] + (v[b..c] + v[c..]) == v[a..]
  {
  }

  lemma ValuesOfText(t: string, rest: seq<Piece>)
    ensures Values(TextPiece(t) + rest) == t + Values(rest)
    ensures NoneEmpty(rest) ==> NoneEmpty(TextPiece(t) + rest)
    ensures Values(TextPiece(t)) == t && NoneEmpty(TextPiece(t))
  {
    if t == "" {
      assert TextPiece(t) + rest == rest;
    } else {
      assert (TextPiece(t) + rest)[1..] == rest;
      assert TextPiece(t)[1..] == [];
    }
  }

  lemma {:induction false} ValuesConcat(a: seq<Piece>, b: seq<Piece>)
    ensures Values(a + b) == Values(a) + Values(b)
    decreases |a|
  {
    if a == [] {
      assert a + b == b;
    } else {
      assert (a + b)[1..] == a[1..] + b;
      ValuesConcat(a[1..], b);
      Assoc(a[0].value, Values(a[1..]), Values(b));
    }
  }

  lemma {:induction false} MatchedConcat(a: seq<Piece>, b: seq<Piece>, at: nat)
    ensures Matched(a + b, at) == Matched(a, at) + Matched(b, at + |Values(a)|)
    decreases |a|
  {
    if a == [] {
      assert a + b == b;
    } else {
      assert (a + b)[1..] == a[1..] + b;
      MatchedConcat(a[1..], b, at + |a[0].value|);
    }
  }

  /** An earlier match is not empty. */
  predicate MatchesNotEmpty(ps: seq<Piece>) {
    forall i :: 0 <= i < |ps| && ps[i].kind == EXPRESSION ==> ps[i].value != ""
  }

  lemma SplitPieceKeeps(rule: Rule, p: Piece, at: nat)
    requires IsRule(rule)
    ensures Values(SplitPiece(rule, p)) == p.value
    ensures p.kind == EXPRESSION ==> Matched(SplitPiece(rule, p), at) == {(at, p.value)}
    ensures p.kind == TEXT || p.value != "" ==> NoneEmpty(SplitPiece(rule, p))
  {
    SplitValues(rule, p.value, 0);
    assert p.value[0..] == p.value;
    assert [p][1..] == [];
    assert p.value + "" == p.value;
  }

  function MatchedOne(p: Piece, at: nat): set<(nat, string)> {
    if p.kind == EXPRESSION then {(at, p.value)} else {}
  }

  lemma MatchedHead(ps: seq<Piece>, at: nat)
    requires ps != []
    ensures Matched(ps, at) == MatchedOne(ps[0], at) + Matched(ps[1..], at + |ps[0].value|)
  {
  }

  lemma MatchedGrow(a: set<(nat, string)>, b: set<(nat, string)>, first: seq<Piece>, rest: seq<Piece>,
                    all: seq<Piece>, at: nat, next: nat)
    requires all == first + rest && next == at + |Values(first)|
    requires a <= Matched(first, at) && b <= Matched(rest, next)
    ensures a + b <= Matched(all, at)
  {
    MatchedConcat(first, rest, at);
  }

  lemma PassHead(rule: Rule, ps: seq<Piece>)
    requires IsRule(rule) && ps != []
    ensures Pass(rule, ps) == SplitPiece(rule, ps[0]) + Pass(rule, ps[1..])
  {
  }

  /** A pass keeps the text. */
  lemma {:induction false} PassKeepsText(rule: Rule, ps: seq<Piece>)
    requires IsRule(rule)
    ensures Values(Pass(rule, ps)) == Values(ps)
    decreases |ps|
  {
    if ps != [] {
      PassKeepsText(rule, ps[1..]);
      PassHead(rule, ps);
      SplitPieceKeeps(rule, ps[0], 0);
      ValuesConcat(SplitPiece(rule, ps[0]), Pass(rule, ps[1..]));
    }
  }

  /** A pass keeps what earlier rules have matched where it was. */
  lemma {:induction false} PassKeepsMatches(rule: Rule, ps: seq<Piece>, at: nat)
    requires IsRule(rule)
    ensures Matched(ps, at) <= Matched(Pass(rule, ps), at)
    decreases |ps|
  {
    if ps != [] {
      var p, tail, all := ps[0], ps[1..], Pass(rule, ps);
      var next := at + |p.value|;
      PassKeepsMatches(rule, tail, next);
      SplitPieceKeeps(rule, p, at);
      MatchedHead(ps, at);
      PassHead(rule, ps);
      MatchedGrow(MatchedOne(p, at), Matched(tail, next), SplitPiece(rule, p), Pass(rule, tail), all, at, next);
    }
  }

  /** A pass leaves no empty piece behind. */
  lemma {:induction false} PassLeavesNoneEmpty(rule: Rule, ps: seq<Piece>)
    requires IsRule(rule) && MatchesNotEmpty(ps)
    ensures NoneEmpty(Pass(rule, ps))
    decreases |ps|
  {
    if ps != [] {
      SplitPieceKeeps(rule, ps[0], 0);
      PassLeavesNoneEmpty(rule, ps[1..]);
    }
  }

  lemma StartIs(source: string)
    ensures Values(Start(source)) == source && MatchesNotEmpty(Start(source))
  {
    assert Start(source)[1..] == [] && source + "" == source;
  }

  lemma PassesUnfold(rules: seq<Rule>, n: nat, ps: seq<Piece>)
    requires AreRules(rules) && 0 < n <= |rules|
    ensures Passes(rules, n, ps) == Pass(rules[n - 1], Passes(rules, n - 1, ps))
  {
  }

  /** After every pass the pieces make up the source. */
  lemma {:induction false} PassesKeepText(rules: seq<Rule>, n: nat, source: string)
    requires AreRules(rules) && n <= |rules|
    ensures Values(Passes(rules, n, Start(source))) == source
    decreases n
  {
    if n == 0 {
      StartIs(source);
    } else {
      PassesKeepText(rules, n - 1, source);
      PassKeepsText(rules[n - 1], Passes(rules, n - 1, Start(source)));
      PassesUnfold(rules, n, Start(source));
    }
  }

  lemma {:induction false} PassesMatchSomething(rules: seq<Rule>, n: nat, source: string)
    requires AreRules(rules) && n <= |rules|
    ensures MatchesNotEmpty(Passes(rules, n, Start(source)))
    decreases n
  {
    if n == 0 {
      StartIs(source);
    } else {
      PassesMatchSomething(rules, n - 1, source);
      PassLeavesNoneEmpty(rules[n - 1], Passes(rules, n - 1, Start(source)));
      PassesUnfold(rules, n, Start(source));
    }
  }

  /** After the first pass no piece is empty, and none becomes so. */
  lemma NoneIsEmpty(rules: seq<Rule>, n: nat, source: string)
    requires AreRules(rules) && 0 < n <= |rules|
    ensures NoneEmpty(Passes(rules, n, Start(source)))
  {
    PassesMatchSomething(rules, n - 1, source);
    PassLeavesNoneEmpty(rules[n - 1], Passes(rules, n - 1, Start(source)));
    PassesUnfold(rules, n, Start(source));
  }

  /** What a rule has matched is still matched, at the same place, after every later rule. */
  lemma {:induction false} MatchesSurvive(rules: seq<Rule>, k: nat, n: nat, ps: seq<Piece>)
    requires AreRules(rules) && k <= n <= |rules|
    ensures Matched(Passes(rules, k, ps), 0) <= Matched(Passes(rules, n, ps), 0)
    decreases n
  {
    if k < n {
      MatchesSurvive(rules, k, n - 1, ps);
      PassKeepsMatches(rules[n - 1], Passes(rules, n - 1, ps), 0);
      PassesUnfold(rules, n, ps);
      SubsetTrans(Matched(Passes(rules, k, ps), 0), Matched(Passes(rules, n - 1, ps), 0),
                  Matched(Passes(rules, n, ps), 0));
    }
  }

  lemma SubsetTrans<A>(a: set<A>, b: set<A>, c: set<A>)
    requires a <= b && b <= c
    ensures a <= c
  {
  }
}
