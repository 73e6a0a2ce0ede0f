/**
 What the text printed by the condition builder means to an SQL parser, for every history of
 builder calls.
 */
module ConditionParsing {

  import opened Conditions
  import opened Options
  import opened Sql

  // ---------------------------------------------------------------- reading the text

  // Token lists are built from the right: each function puts its tokens in front of `tail`.

  function ConnToks(k: Conn, tail: seq<Tok<string>>): seq<Tok<string>> {
    match k
    case CAnd => [Tok.And] + tail
    case COr => [Tok.Or] + tail
    case CAndNew => [Close] + ([Tok.And] + ([Open] + tail))
    case COrNew => [Close] + ([Tok.Or] + ([Open] + tail))
  }

  function ChunkToks(s: string, tail: seq<Tok<string>>): seq<Tok<string>> {
    if IsConnective(s) then ConnToks(KindOf(s).value, tail)
    else if s == "AND" then [Tok.And] + tail
    else if s == "OR" then [Tok.Or] + tail
    else if s == "(" then [Open] + tail
    else if s == ")" then [Close] + tail
    else if s == "" || s == " " || s == "\n" then tail
    else if IsKeyword(s) then [Other(s)] + tail
    else [Term(s)] + tail
  }

  predicate IsKeyword(s: string) {
    s == "WHERE" || s == "GROUP BY" || s == "HAVING" || s == "ORDER BY" || s == ", "
  }

  function Lex(chunks: seq<string>, tail: seq<Tok<string>>): seq<Tok<string>> {
    if chunks == [] then tail else ChunkToks(chunks[0], Lex(chunks[1..], tail))
  }

  lemma {:induction false} LexAppend(a: seq<string>, b: seq<string>, tail: seq<Tok<string>>)
    ensures Lex(a + b, tail) == Lex(a, Lex(b, tail))
  {
    if a == [] {
      assert a + b == b;
    } else {
      assert (a + b)[1..] == a[1..] + b;
      LexAppend(a[1..], b, tail);
    }
  }

  lemma LexOne(s: string, tail: seq<Tok<string>>)
    ensures Lex([s], tail) == ChunkToks(s, tail)
  {
  }

  /** A condition the builder treats as an opaque unit, and the reader as one token. */
  predicate Opaque(s: string) {
    && !Blank(s) && !IsNest(s) && !IsConnective(s) && !IsKeyword(s)
    && s != "AND" && s != "OR"
  }

  predicate PlainPart(s: string) { IsConnective(s) || Opaque(s) }

  predicate Plain(ss: seq<string>) {
    forall i :: 0 <= i < |ss| ==> PlainPart(ss[i])
  }

  /** A part as the printer sees it: one of the four connective texts, or anything else. */
  datatype Part = Joint(k: Conn) | Cond(text: string)

  function Classify(s: string): Part {
    if KindOf(s).Some? then Joint(KindOf(s).value) else Cond(s)
  }

  function Parts(ss: seq<string>): (ps: seq<Part>)
    ensures |ps| == |ss| && forall i :: 0 <= i < |ss| ==> ps[i] == Classify(ss[i])
  {
    seq(|ss|, i requires 0 <= i < |ss| => Classify(ss[i]))
  }

  function PartToks(p: Part, tail: seq<Tok<string>>): seq<Tok<string>> {
    match p
    case Cond(s) => [Term(s)] + tail
    case Joint(k) => ConnToks(k, tail)
  }

  lemma LexPart(s: string, tail: seq<Tok<string>>)
    requires PlainPart(s)
    ensures ChunkToks(s, tail) == PartToks(Classify(s), tail) && !IsNest(s)
  {
    if IsConnective(s) {
      var k := if s == AND || s == OR then 1 else 3;
      assert s[k] == 'A' || s[k] == 'O';
    } else {
      assert IsNest("(") && IsNest(")") && Blank("") && Blank(" ") && Blank("\n");
    }
  }

  // ---------------------------------------------------------------- the intended meaning

  /** The first parenthesised group of a part list, and what follows its closing connective
      (true for OR). Neighbouring conditions are joined by AND. */
  function FirstGroup(ps: seq<Part>): (r: Option<(Chain<string>, Option<(bool, seq<Part>)>)>)
    ensures r.Some? && r.value.1.Some? ==> |r.value.1.value.1| < |ps|
    decreases |ps|
  {
    if ps == [] || ps[0].Joint? then None
    else
      var c := Leaf(ps[0].text);
      if |ps| == 1 then Some((One(c), None))
      else
        match ps[1]
        case Joint(CAndNew) => Some((One(c), Some((false, ps[2..]))))
        case Joint(COrNew) => Some((One(c), Some((true, ps[2..]))))
        case Joint(CAnd) => Prepend(false, c, FirstGroup(ps[2..]))
        case Joint(COr) => Prepend(true, c, FirstGroup(ps[2..]))
        case Cond(_) => Prepend(false, c, FirstGroup(ps[1..]))
  }

  function Link<A>(isOr: bool, e: Expr<A>, c: Chain<A>): Chain<A> {
    if isOr then OrElse(e, c) else AndThen(e, c)
  }

  function Prepend<A, B>(isOr: bool, e: Expr<A>, g: Option<(Chain<A>, B)>): Option<(Chain<A>, B)> {
    match g
    case None => None
    case Some((c, next)) => Some((Link(isOr, e, c), next))
  }

  /** The groups of a part list, in order, with the connectives between them. */
  function Meaning(ps: seq<Part>): Option<Chain<string>>
    decreases |ps|
  {
    match FirstGroup(ps)
    case None => None
    case Some((g, None)) => Some(One(Group(g)))
    case Some((g, Some((isOr, rest)))) =>
      match Meaning(rest)
      case None => None
      case Some(m) => Some(Link(isOr, Group(g), m))
  }

  /** Conditions and connectives alternate sensibly: a caller can check this list before rendering. */
  predicate WellFormed(ps: seq<Part>) {
    && ps != [] && ps[0].Cond? && ps[|ps| - 1].Cond?
    && forall i :: 0 <= i < |ps| - 1 ==> !(ps[i].Joint? && ps[i + 1].Joint?)
  }

  /** How many parts the head condition takes with it: a connective after it, if there is one. */
  function HeadSize(ps: seq<Part>): nat {
    if |ps| > 1 && ps[1].Joint? then 2 else 1
  }

  lemma WellFormedDrop(ps: seq<Part>)
    requires |ps| > 1 && ps[0].Cond?
    ensures WellFormed(ps) <==> WellFormed(ps[HeadSize(ps)..])
  {
    var k := HeadSize(ps);
    var t := ps[k..];
    assert |ps| == k ==> ps[|ps| - 1].Joint?;
    if WellFormed(ps) {
      assert k == 2 ==> !(ps[1].Joint? && ps[2].Joint?);
      forall i | 0 <= i < |t| - 1
        ensures !(t[i].Joint? && t[i + 1].Joint?)
      {
        assert t[i] == ps[i + k] && t[i + 1] == ps[i + k + 1];
      }
    }
    if WellFormed(t) {
      forall i | 0 <= i < |ps| - 1
        ensures !(ps[i].Joint? && ps[i + 1].Joint?)
      {
        if i >= k {
          assert t[i - k] == ps[i] && t[i - k + 1] == ps[i + 1];
        } else {
          assert t[0] == ps[k];
        }
      }
    }
  }

  lemma {:induction false} WellFormedGroup(ps: seq<Part>)
    ensures match FirstGroup(ps)
      case None => !WellFormed(ps)
      case Some((_, None)) => WellFormed(ps)
      case Some((_, Some((_, rest)))) => WellFormed(ps) <==> WellFormed(rest)
    decreases |ps|
  {
    if |ps| > 1 && ps[0].Cond? {
      WellFormedDrop(ps);
      WellFormedGroup(ps[HeadSize(ps)..]);
    }
  }

  lemma {:induction false} WellFormedIffMeaning(ps: seq<Part>)
    ensures WellFormed(ps) <==> Meaning(ps).Some?
    decreases |ps|
  {
    WellFormedGroup(ps);
    var g := FirstGroup(ps);
    if g.Some? && g.value.1.Some? {
      WellFormedIffMeaning(g.value.1.value.1);
    }
  }

  // ---------------------------------------------------------------- what the printer produces

  /** The AND between two conditions that have no connective of their own. */
  function Glue(left: Part, right: Part, tail: seq<Tok<string>>): seq<Tok<string>> {
    if left.Cond? && right.Cond? then [Tok.And] + tail else tail
  }

  function Toks(ps: seq<Part>, tail: seq<Tok<string>>): seq<Tok<string>> {
    if ps == [] then tail
    else PartToks(ps[0], if |ps| == 1 then tail else Glue(ps[0], ps[1], Toks(ps[1..], tail)))
  }

  /** The loop variable `last` of the printer is harmless on lists without nests: it is a connective
      exactly when the previous part is. */
  lemma {:induction false} BodyLex(ss: seq<string>, i: nat, last: string, tail: seq<Tok<string>>)
    requires Plain(ss) && i < |ss| && !IsConnective(ss[0]) && !IsNest(last)
    requires IsConnective(last) <==> i > 0 && IsConnective(ss[i - 1])
    ensures var ts := Toks(Parts(ss[i..]), tail);
      Lex(BodyChunks(ss, i, last, AND), tail) ==
      if i > 0 then Glue(Classify(ss[i - 1]), Classify(ss[i]), ts) else ts
    decreases |ss| - i
  {
    var next := LastAfter(ss, i, last);
    var rest := BodyChunks(ss, i + 1, next, AND);
    LexAppend(PartChunks(ss, i, last, AND), rest, tail);
    LexPiece(ss, i, last, Lex(rest, tail));
    LexPart(ss[i], tail);
    if i + 1 < |ss| {
      assert Parts(ss[i..])[1..] == Parts(ss[i + 1..]);
      BodyLex(ss, i + 1, next, tail);
    }
  }

  lemma LexPiece(ss: seq<string>, i: nat, last: string, tail: seq<Tok<string>>)
    requires i < |ss| && PlainPart(ss[i]) && !IsNest(last)
    requires IsConnective(last) <==> i > 0 && IsConnective(ss[i - 1])
    ensures var ts := PartToks(Classify(ss[i]), tail);
      Lex(PartChunks(ss, i, last, AND), tail) ==
      if i > 0 then Glue(Classify(ss[i - 1]), Classify(ss[i]), ts) else ts
  {
    LexPart(ss[i], tail);
    LexOne(ss[i], tail);
    var piece := PartChunks(ss, i, last, AND);
    if |piece| == 2 {
      assert piece[1..] == [ss[i]];
    }
  }

  // ---------------------------------------------------------------- parsing it back

  lemma ChainStep<A>(ts: seq<Tok<A>>, f: Expr<A>, rest: seq<Tok<A>>)
    requires ParseFactor(ts) == Some((f, rest))
    ensures rest == [] || (rest[0] != Tok.And && rest[0] != Tok.Or) ==> ParseChain(ts) == Some((One(f), rest))
    ensures rest != [] && rest[0] == Tok.And ==> ParseChain(ts) == Prepend(false, f, ParseChain(rest[1..]))
    ensures rest != [] && rest[0] == Tok.Or ==> ParseChain(ts) == Prepend(true, f, ParseChain(rest[1..]))
  {
  }

  function OrTok(isOr: bool): Tok<string> { if isOr then Tok.Or else Tok.And }

  /** What the parser should have read inside a parenthesis, from the first group on. */
  function GroupResult(g: Option<(Chain<string>, Option<(bool, seq<Part>)>)>, tail: seq<Tok<string>>)
    : Option<(Chain<string>, seq<Tok<string>>)>
  {
    match g
    case None => None
    case Some((c, None)) => Some((c, tail))
    case Some((c, Some((isOr, rest)))) => Some((c, [Close] + ([OrTok(isOr)] + ([Open] + Toks(rest, tail)))))
  }

  /** Inside a parenthesis the parser finds exactly the first group, or nothing when there is none. */
  lemma {:induction false} GroupParse(ps: seq<Part>, tail: seq<Tok<string>>)
    requires tail != [] && tail[0] == Close
    ensures ParseChain(Toks(ps, tail)) == GroupResult(FirstGroup(ps), tail)
    decreases |ps|
  {
    if |ps| > 1 && ps[0].Cond? {
      GroupParse(ps[HeadSize(ps)..], tail);
      HeadParse(ps, tail);
    } else if |ps| == 1 && ps[0].Cond? {
      ChainStep(Toks(ps, tail), Leaf(ps[0].text), tail);
    }
  }

  /** The head condition and the connective after it. */
  lemma HeadParse(ps: seq<Part>, tail: seq<Tok<string>>)
    requires |ps| > 1 && ps[0].Cond?
    ensures var after := Toks(ps[HeadSize(ps)..], tail);
      var c := Leaf(ps[0].text);
      ParseChain(Toks(ps, tail)) ==
      match ps[1]
      case Cond(_) => Prepend(false, c, ParseChain(after))
      case Joint(CAnd) => Prepend(false, c, ParseChain(after))
      case Joint(COr) => Prepend(true, c, ParseChain(after))
      case Joint(CAndNew) => Some((One(c), [Close] + ([Tok.And] + ([Open] + after))))
      case Joint(COrNew) => Some((One(c), [Close] + ([Tok.Or] + ([Open] + after))))
  {
    var ts := Toks(ps, tail);
    assert ts == [Term(ps[0].text)] + ts[1..];
    ChainStep(ts, Leaf(ps[0].text), ts[1..]);
    if ps[1].Joint? {
      assert ps[1..][1..] == ps[2..];
      JointThenRest(ps[1..], tail);
    }
  }

  lemma JointThenRest(ps: seq<Part>, tail: seq<Tok<string>>)
    requires ps != [] && ps[0].Joint?
    ensures Toks(ps, tail) == ConnToks(ps[0].k, Toks(ps[1..], tail))
  {
  }

  /** The whole parenthesised clause: the parser succeeds exactly when the parts have a meaning, and
      then reads back exactly that meaning. */
  lemma {:induction false} ClauseParse(ps: seq<Part>, tail: seq<Tok<string>>)
    requires tail == [] || (tail[0] != Tok.And && tail[0] != Tok.Or)
    ensures ParseChain([Open] + Toks(ps, [Close] + tail)) ==
      match Meaning(ps)
      case None => None
      case Some(m) => Some((m, tail))
    decreases |ps|
  {
    var closing := [Close] + tail;
    var ts := [Open] + Toks(ps, closing);
    assert ts[1..] == Toks(ps, closing);
    GroupParse(ps, closing);
    match FirstGroup(ps) {
      case None =>
      case Some((g, None)) =>
        assert closing[1..] == tail;
        ChainStep(ts, Group(g), tail);
      case Some((g, Some((isOr, rest)))) =>
        var next := [Open] + Toks(rest, closing);
        var after := [OrTok(isOr)] + next;
        assert ([Close] + after)[1..] == after && after[1..] == next;
        ChainStep(ts, Group(g), after);
        ClauseParse(rest, tail);
    }
  }

  // ---------------------------------------------------------------- histories of builder calls

  function Replay(s: Clauses, calls: seq<BuilderCall>): Clauses
    decreases |calls|
  {
    if calls == [] then s else Replay(Apply(s, calls[0]), calls[1..])
  }

  /** No HAVING and no SUPP; every condition blank (and then left out) or opaque. */
  predicate PlainCall(c: BuilderCall) {
    match c
    case Where(t) => Blank(t) || Opaque(t)
    case Connect(_) => true
    case GroupBy(_) => true
    case OrderBy(_) => true
    case Last(_) => true
    case Supp(_) => false
    case Having(_) => false
  }

  /** What a history asks for: its conditions and connectives, in order, but the connectives before
      the first WHERE went to a list that nobody prints. */
  function Requested(calls: seq<BuilderCall>, started: bool): seq<string>
    decreases |calls|
  {
    if calls == [] then []
    else
      var rest := calls[1..];
      match calls[0]
      case Where(t) => [t] + Requested(rest, true)
      case Connect(k) => (if started then [ConnText(k)] else []) + Requested(rest, started)
      case _ => Requested(rest, started)
  }

  lemma {:induction false} ReplayCollects(s: Clauses, calls: seq<BuilderCall>)
    requires s.target != HavingList && forall c :: c in calls ==> PlainCall(c)
    ensures Replay(s, calls).where == s.where + Requested(calls, s.target == WhereList)
    decreases |calls|
  {
    if calls != [] {
      assert PlainCall(calls[0]);
      var next := Apply(s, calls[0]);
      ReplayCollects(next, calls[1..]);
      var rest := Requested(calls[1..], next.target == WhereList);
      if calls[0].Where? {
        assert (s.where + [calls[0].text]) + rest == s.where + ([calls[0].text] + rest);
      } else if calls[0].Connect? && s.target == WhereList {
        assert (s.where + [ConnText(calls[0].k)]) + rest == s.where + ([ConnText(calls[0].k)] + rest);
      } else {
        assert next.where == s.where && next.target == s.target;
        assert [] + rest == rest;
      }
    }
  }

  lemma {:induction false} RequestedIsPlain(calls: seq<BuilderCall>, started: bool)
    requires forall c :: c in calls ==> PlainCall(c)
    ensures Plain(ClearNull(Requested(calls, started)))
    decreases |calls|
  {
    if calls != [] {
      assert PlainCall(calls[0]);
      if calls[0].Where? {
        RequestedIsPlain(calls[1..], true);
        var rest := Requested(calls[1..], true);
        assert ([calls[0].text] + rest)[1..] == rest;
      } else {
        RequestedIsPlain(calls[1..], started);
        var rest := Requested(calls[1..], started);
        if calls[0].Connect? {
          KindOfConnText(calls[0].k);
          assert ([ConnText(calls[0].k)] + rest)[1..] == rest;
          assert [] + rest == rest;
        }
      }
    }
  }

  lemma LexOpening(tail: seq<Tok<string>>)
    ensures Lex(Opening(true, "WHERE", "("), tail) == [Other("WHERE")] + ([Open] + tail)
  {
    var opening := Opening(true, "WHERE", "(");
    assert opening[1..] == [" ", "("] && [" ", "("][1..] == ["("];
    LexOne("(", tail);
  }

  /** The tokens of a printed WHERE clause. */
  lemma WhereClauseLex(where: seq<string>, tail: seq<Tok<string>>)
    requires Plain(ClearNull(where)) && ClearNull(where) != [] && !IsConnective(ClearNull(where)[0])
    ensures Lex(ClauseChunks(true, "WHERE", where, "(", ")", AND), tail) ==
            [Other("WHERE")] + ([Open] + Toks(Parts(ClearNull(where)), [Close] + tail))
  {
    var ss := ClearNull(where);
    var opening, body := Opening(true, "WHERE", "("), BodyChunks(ss, 0, "__", AND);
    LexAppend(opening + body, [")"], tail);
    LexOne(")", tail);
    LexAppend(opening, body, [Close] + tail);
    assert "__"[0] == '_';
    BodyLex(ss, 0, "__", [Close] + tail);
    assert ss[0..] == ss;
    LexOpening(Lex(body, [Close] + tail));
  }

  /** A list that starts with a connective prints a clause no parser accepts. */
  lemma LeadingConnectiveLex(where: seq<string>, tail: seq<Tok<string>>)
    requires ClearNull(where) != [] && IsConnective(ClearNull(where)[0])
    ensures var ts := Lex(ClauseChunks(true, "WHERE", where, "(", ")", AND), tail);
      |ts| > 2 && ts[0] == Other("WHERE") && ts[1] == Open && ParseChain(ts[1..]).None?
  {
    var ss := ClearNull(where);
    var opening, body := Opening(true, "WHERE", "("), BodyChunks(ss, 0, "__", AND);
    LexAppend(opening + body, [")"], tail);
    LexAppend(opening, body, Lex([")"], tail));
    LexOpening(Lex(body, Lex([")"], tail)));
    var inner := Lex(body, Lex([")"], tail));
    assert body[0] == ss[0];
    assert inner == ConnToks(KindOf(ss[0]).value, Lex(body[1..], Lex([")"], tail)));
    var ts := [Other("WHERE")] + ([Open] + inner);
    assert ts[1..] == [Open] + inner && ts[1..][1..] == inner;
    assert ParseFactor(inner).None?;
    assert ParseChain(inner).None?;
    assert ParseFactor([Open] + inner).None?;
  }

  /** Printer and parser, over every history: the WHERE clause printed after the calls parses exactly
      when the conditions and connectives asked for are well formed, and then parses back to exactly
      the groups and connectives asked for, with AND between neighbours that have none. */
  lemma RoundTrip(calls: seq<BuilderCall>)
    requires forall c :: c in calls ==> PlainCall(c)
    ensures var ps := Parts(ClearNull(Requested(calls, false)));
      var where := Replay(EMPTY, calls).where;
      && (ps == [] ==> ClauseChunks(true, "WHERE", where, "(", ")", AND) == [])
      && (ps != [] ==>
            var ts := Lex(ClauseChunks(true, "WHERE", where, "(", ")", AND), []);
            && ts != [] && ts[0] == Other("WHERE")
            && (ParseChain(ts[1..]).Some? <==> WellFormed(ps))
            && (WellFormed(ps) ==> Meaning(ps).Some? && ParseChain(ts[1..]) == Some((Meaning(ps).value, []))))
  {
    ReplayCollects(EMPTY, calls);
    RequestedIsPlain(calls, false);
    var where := Replay(EMPTY, calls).where;
    assert where == Requested(calls, false);
    var ps := Parts(ClearNull(where));
    if ps != [] {
      WellFormedIffMeaning(ps);
      if ps[0].Joint? {
        LeadingConnectiveLex(where, []);
      } else {
        WhereClauseLex(where, []);
        ClauseParse(ps, []);
      }
    }
  }

  // ---------------------------------------------------------------- connectives between groups

  predicate HasOr<A>(c: Chain<A>) {
    c.OrElse? || (c.AndThen? && HasOr(c.rest))
  }

  predicate HasOrNew(ps: seq<Part>) {
    exists i :: 0 <= i < |ps| && ps[i] == Joint(COrNew)
  }

  /** An OR stands between two groups exactly when the parts hold an OR_NEW: a plain OR stays inside
      its group's parentheses. */
  lemma {:induction false} TopLevelOr(ps: seq<Part>)
    requires Meaning(ps).Some?
    ensures HasOr(Meaning(ps).value) <==> HasOrNew(ps)
    decreases |ps|
  {
    GroupOrNew(ps);
    var g := FirstGroup(ps).value;
    if g.1.Some? {
      TopLevelOr(g.1.value.1);
    }
  }

  lemma {:induction false} GroupOrNew(ps: seq<Part>)
    requires FirstGroup(ps).Some?
    ensures var g := FirstGroup(ps).value;
      HasOrNew(ps) <==> g.1.Some? && (g.1.value.0 || HasOrNew(g.1.value.1))
    decreases |ps|
  {
    if |ps| > 1 {
      OrNewDrop(ps);
      if ps[1] != Joint(CAndNew) && ps[1] != Joint(COrNew) {
        GroupOrNew(ps[HeadSize(ps)..]);
      }
    }
  }

  lemma OrNewDrop(ps: seq<Part>)
    requires |ps| > 1 && ps[0].Cond?
    ensures HasOrNew(ps) <==> ps[1] == Joint(COrNew) || HasOrNew(ps[HeadSize(ps)..])
  {
    var k := HeadSize(ps);
    forall i | k <= i < |ps| ensures ps[i] == ps[k..][i - k] {}
    if HasOrNew(ps) {
      var i :| 0 <= i < |ps| && ps[i] == Joint(COrNew);
      assert i >= k ==> ps[k..][i - k] == Joint(COrNew);
    }
    if HasOrNew(ps[k..]) {
      var i :| 0 <= i < |ps[k..]| && ps[k..][i] == Joint(COrNew);
      assert ps[i + k] == Joint(COrNew);
    }
  }
}
