/**
 The finished segment of a wrapper, behind the comparisons of a generated query, as an SQL parser reads it.
 */
module Segments {

  import opened Conditions
  import opened Lists
  import opened LogicDelete
  import opened Options
  import opened Sql
  import opened Templates
  import P = ConditionParsing

  // ---------------------------------------------------------------- parsing it

  /** A conjunction of atoms joined to a further chain. */
  function JoinedTo(first: Atom, atoms: seq<Atom>, isOr: bool, c: Chain<Atom>): Chain<Atom>
    decreases |atoms|
  {
    if atoms == [] then P.Link(isOr, Leaf(first), c)
    else AndThen(Leaf(first), JoinedTo(atoms[0], atoms[1..], isOr, c))
  }

  lemma {:induction false} JoinedParses(first: Atom, atoms: seq<Atom>, isOr: bool, more: seq<Tok<Atom>>,
                                        c: Chain<Atom>, tail: seq<Tok<Atom>>)
    requires ParseChain(more) == Some((c, tail))
    ensures ParseChain([Term(first)] + Anded(atoms, [if isOr then Or else And] + more)) ==
            Some((JoinedTo(first, atoms, isOr, c), tail))
    decreases |atoms|
  {
    var k: seq<Tok<Atom>> := [if isOr then Or else And];
    var ts := [Term(first)] + Anded(atoms, k + more);
    P.ChainStep(ts, Leaf(first), ts[1..]);
    if atoms == [] {
      assert ts[1..][1..] == more;
    } else {
      JoinedParses(atoms[0], atoms[1..], isOr, more, c, tail);
      assert ts[1..][1..] == [Term(atoms[0])] + Anded(atoms[1..], k + more);
    }
  }

  lemma {:induction false} NoOrNoTail(c: Chain<Atom>, v: Atom -> bool)
    ensures !P.HasOr(c) ==> !TailHolds(c, v)
  {
    if c.AndThen? {
      NoOrNoTail(c.rest, v);
    }
  }

  /** Joined by AND, to a chain without a top-level OR, the atoms hold whenever the whole does. */
  lemma {:induction false} JoinedByAndHolds(first: Atom, atoms: seq<Atom>, c: Chain<Atom>, v: Atom -> bool)
    requires !P.HasOr(c) && ChainHolds(JoinedTo(first, atoms, false, c), v)
    ensures v(first) && forall i :: 0 <= i < |atoms| ==> v(atoms[i])
    decreases |atoms|
  {
    var j := JoinedTo(first, atoms, false, c);
    JoinedHasOr(first, atoms, false, c);
    NoOrNoTail(j, v);
    assert Holds(j.first, v) <==> v(first);
    if atoms != [] {
      JoinedByAndHolds(atoms[0], atoms[1..], c, v);
      assert forall i :: 0 < i < |atoms| ==> atoms[i] == atoms[1..][i - 1];
    }
  }

  lemma {:induction false} JoinedHasOr(first: Atom, atoms: seq<Atom>, isOr: bool, c: Chain<Atom>)
    ensures P.HasOr(JoinedTo(first, atoms, isOr, c)) <==> isOr || P.HasOr(c)
    decreases |atoms|
  {
    if atoms != [] {
      JoinedHasOr(atoms[0], atoms[1..], isOr, c);
    }
  }

  /** With an OR at the top level, making the wrapper's own conditions true makes the whole true. */
  lemma {:induction false} JoinedByOrHolds(first: Atom, atoms: seq<Atom>, isOr: bool, c: Chain<Atom>, v: Atom -> bool)
    requires HeadHolds(c, v) && (isOr || TailHolds(c, v))
    ensures ChainHolds(JoinedTo(first, atoms, isOr, c), v) && TailHolds(JoinedTo(first, atoms, isOr, c), v)
    decreases |atoms|
  {
    if atoms != [] {
      JoinedByOrHolds(atoms[0], atoms[1..], isOr, c, v);
    }
  }

  // ---------------------------------------------------------------- the wrapper's own conditions

  function AsAtomTok(t: Tok<string>): Tok<Atom> {
    match t
    case Open => Open
    case Close => Close
    case And => And
    case Or => Or
    case Term(s) => Term(Opaque(s))
    case Other(s) => Other(s)
  }

  function AsAtomToks(ts: seq<Tok<string>>): (rs: seq<Tok<Atom>>)
    ensures |rs| == |ts| && forall i :: 0 <= i < |ts| ==> rs[i] == AsAtomTok(ts[i])
  {
    seq(|ts|, i requires 0 <= i < |ts| => AsAtomTok(ts[i]))
  }

  function AsAtoms(c: Chain<string>): Chain<Atom>
    decreases c, 0
  {
    match c
    case One(f) => One(AsAtom(f))
    case AndThen(f, rest) => AndThen(AsAtom(f), AsAtoms(rest))
    case OrElse(f, rest) => OrElse(AsAtom(f), AsAtoms(rest))
  }

  function AsAtom(e: Expr<string>): Expr<Atom>
    decreases e, 0
  {
    match e
    case Leaf(s) => Leaf(Opaque(s))
    case Group(c) => Group(AsAtoms(c))
  }

  lemma {:induction false} FactorAsAtoms(ts: seq<Tok<string>>)
    ensures ParseFactor(AsAtomToks(ts)) ==
      match ParseFactor(ts)
      case None => None
      case Some((e, rest)) => Some((AsAtom(e), AsAtomToks(rest)))
    decreases |ts|, 0
  {
    if ts != [] {
      assert AsAtomToks(ts)[1..] == AsAtomToks(ts[1..]);
      if ts[0].Open? {
        ChainAsAtoms(ts[1..]);
        var r := ParseChain(ts[1..]);
        if r.Some? && r.value.1 != [] {
          assert AsAtomToks(r.value.1)[1..] == AsAtomToks(r.value.1[1..]);
        }
      }
    }
  }

  lemma {:induction false} ChainAsAtoms(ts: seq<Tok<string>>)
    ensures ParseChain(AsAtomToks(ts)) ==
      match ParseChain(ts)
      case None => None
      case Some((c, rest)) => Some((AsAtoms(c), AsAtomToks(rest)))
    decreases |ts|, 1
  {
    FactorAsAtoms(ts);
    var f := ParseFactor(ts);
    if f.Some? {
      var (e, rest) := f.value;
      if rest != [] {
        assert AsAtomToks(rest)[1..] == AsAtomToks(rest[1..]);
        if rest[0] == And || rest[0] == Or {
          ChainAsAtoms(rest[1..]);
        }
      }
    }
  }

  lemma {:induction false} AllUnitsTrue(c: Chain<string>, v: Atom -> bool)
    requires forall s :: v(Opaque(s))
    ensures HeadHolds(AsAtoms(c), v)
    ensures P.HasOr(c) ==> TailHolds(AsAtoms(c), v)
    decreases c, 0
  {
    UnitTrue(c.first, v);
    if !c.One? {
      AllUnitsTrue(c.rest, v);
    }
  }

  lemma {:induction false} UnitTrue(e: Expr<string>, v: Atom -> bool)
    requires forall s :: v(Opaque(s))
    ensures Holds(AsAtom(e), v)
    decreases e, 0
  {
    if e.Group? {
      AllUnitsTrue(e.body, v);
    }
  }

  lemma {:induction false} HasOrAsAtoms(c: Chain<string>)
    ensures P.HasOr(AsAtoms(c)) <==> P.HasOr(c)
  {
    if c.AndThen? {
      HasOrAsAtoms(c.rest);
    }
  }

  // ---------------------------------------------------------------- the segment of a wrapper

  /** The tokens of the text that the wrapper hands out: the rendered text, with its keyword WHERE replaced
      by AND or OR when there is a WHERE clause. */
  function WrapperToks(s: Clauses, andOr: string): seq<Tok<string>> {
    var chunks := SqlChunks(s);
    if ClearNull(s.where) == [] || chunks == [] then P.Lex(chunks, []) else P.Lex([andOr] + chunks[1..], [])
  }

  /** Conditions that the reader takes for units, and a leading word that the wrapper can have. */
  predicate Readable(s: Clauses, andOr: string) {
    && P.Plain(ClearNull(s.where))
    && (Conditions.Blank(s.last) || P.Opaque(s.last))
    && (andOr == "AND" || andOr == "OR")
  }

  function PartsOf(s: Clauses): seq<P.Part> { P.Parts(ClearNull(s.where)) }

  predicate NoConnective<A>(ts: seq<Tok<A>>) {
    ts == [] || (ts[0] != Tok.And && ts[0] != Tok.Or)
  }

  /** The segment is its leading word and a chain that is read exactly when the parts describe groups. */
  lemma SegmentLex(s: Clauses, andOr: string) returns (inner: seq<Tok<string>>, tail: seq<Tok<string>>)
    requires Readable(s, andOr) && PartsOf(s) != []
    ensures WrapperToks(s, andOr) == [P.OrTok(andOr == "OR")] + inner
    ensures NoConnective(tail)
    ensures ParseChain(inner) == match P.Meaning(PartsOf(s))
                                 case None => None
                                 case Some(m) => Some((m, tail))
  {
    var clause := ClauseChunks(true, "WHERE", s.where, "(", ")", AND);
    tail := P.Lex(RestChunks(s), []);
    RestTail(s);
    SqlChunksSplit(s);
    if IsConnective(ClearNull(s.where)[0]) {
      P.LeadingConnectiveLex(s.where, tail);
      var ts := P.Lex(clause, tail);
      inner := ts[1..];
      assert ts == [Other("WHERE")] + inner;
      assert PartsOf(s)[0].Joint?;
    } else {
      P.WhereClauseLex(s.where, tail);
      inner := [Open] + P.Toks(PartsOf(s), [Close] + tail);
      P.ClauseParse(PartsOf(s), tail);
    }
    ReplacedKeywordLex(clause, RestChunks(s), andOr, tail, inner);
  }

  lemma ReplacedKeywordLex(clause: seq<string>, rest: seq<string>, andOr: string,
                           tail: seq<Tok<string>>, inner: seq<Tok<string>>)
    requires andOr == "AND" || andOr == "OR"
    requires clause != [] && clause[0] == "WHERE" && P.Lex(clause, tail) == [Other("WHERE")] + inner
    requires tail == P.Lex(rest, [])
    ensures P.Lex([andOr] + (clause + rest)[1..], []) == [P.OrTok(andOr == "OR")] + inner
  {
    DropKeyword(clause, tail, inner);
    assert (clause + rest)[1..] == clause[1..] + rest;
    P.LexAppend(clause[1..], rest, []);
    ShortKeyword(andOr, inner);
    assert ([andOr] + (clause[1..] + rest))[1..] == clause[1..] + rest;
  }

  lemma DropKeyword(clause: seq<string>, tail: seq<Tok<string>>, inner: seq<Tok<string>>)
    requires clause != [] && clause[0] == "WHERE" && P.Lex(clause, tail) == [Other("WHERE")] + inner
    ensures P.Lex(clause[1..], tail) == inner
  {
    var rest := P.Lex(clause[1..], tail);
    assert "WHERE"[0] == 'W';
    assert P.ChunkToks("WHERE", rest) == [Other("WHERE")] + rest;
    assert ([Other("WHERE")] + rest)[1..] == rest && ([Other("WHERE")] + inner)[1..] == inner;
  }

  lemma ShortKeyword(andOr: string, ts: seq<Tok<string>>)
    requires andOr == "AND" || andOr == "OR"
    ensures P.ChunkToks(andOr, ts) == [P.OrTok(andOr == "OR")] + ts
  {
    assert andOr[0] == 'A' || andOr[0] == 'O';
  }

  /** The clauses after WHERE. */
  function RestChunks(s: Clauses): seq<string> {
    ClauseChunks(false, "GROUP BY", s.groupBy, "", "", ", ")
    + (ClauseChunks(false, "HAVING", s.having, "(", ")", AND)
       + (ClauseChunks(false, "ORDER BY", s.orderBy, "", "", ", ")
          + (if Conditions.Blank(s.last) then [] else [" "] + [s.last])))
  }

  lemma SqlChunksSplit(s: Clauses)
    requires ClearNull(s.where) != []
    ensures SqlChunks(s) ==
            ClauseChunks(true, "WHERE", s.where, "(", ")", AND) + RestChunks(s)
  {
    var c1 := AddClause([], "WHERE", s.where, "(", ")", AND);
    var g := ClauseChunks(false, "GROUP BY", s.groupBy, "", "", ", ");
    var h := ClauseChunks(false, "HAVING", s.having, "(", ")", AND);
    var o := ClauseChunks(false, "ORDER BY", s.orderBy, "", "", ", ");
    var l := if Conditions.Blank(s.last) then [] else [" "] + [s.last];
    assert c1 == ClauseChunks(true, "WHERE", s.where, "(", ")", AND);
    assert c1[0] == "WHERE";
    LaterClause(c1, "GROUP BY", s.groupBy, "", "", ", ");
    LaterClause(c1 + g, "HAVING", s.having, "(", ")", AND);
    LaterClause((c1 + g) + h, "ORDER BY", s.orderBy, "", "", ", ");
    Assoc5(c1, g, h, o, l);
    LastChunks((((c1 + g) + h) + o), s.last);
  }

  lemma LaterClause(a: seq<string>, keyword: string, parts: seq<string>, open: string,
                    close: string, conjunction: string)
    requires a != [] && a[0] == "WHERE"
    ensures var b := a + ClauseChunks(false, keyword, parts, open, close, conjunction);
      AddClause(a, keyword, parts, open, close, conjunction) == b && b != [] && b[0] == "WHERE"
  {
    assert |Concat(a)| >= |a[0]|;
  }

  lemma LastChunks(a: seq<string>, last: string)
    ensures (if Conditions.Blank(last) then a else a + [" "] + [last]) ==
            a + (if Conditions.Blank(last) then [] else [" "] + [last])
  {
  }

  /** What follows the WHERE clause never starts with a connective. */
  lemma RestTail(s: Clauses)
    requires Conditions.Blank(s.last) || P.Opaque(s.last)
    ensures var tail := P.Lex(RestChunks(s), []);
      tail == [] || (tail[0] != And && tail[0] != Or)
  {
    var l := if Conditions.Blank(s.last) then [] else [" "] + [s.last];
    var o := ClauseChunks(false, "ORDER BY", s.orderBy, "", "", ", ");
    var h := ClauseChunks(false, "HAVING", s.having, "(", ")", AND);
    if !Conditions.Blank(s.last) {
      assert l[1..] == [s.last];
      P.LexOne(s.last, []);
      P.LexPart(s.last, []);
    }
    ClauseTail("ORDER BY", s.orderBy, "", "", ", ", l);
    ClauseTail("HAVING", s.having, "(", ")", AND, o + l);
    ClauseTail("GROUP BY", s.groupBy, "", "", ", ", h + (o + l));
  }

  lemma ClauseTail(keyword: string, parts: seq<string>, open: string,
                   close: string, conjunction: string, more: seq<string>)
    requires LaterKeyword(keyword)
    requires var tail := P.Lex(more, []);
      tail == [] || (tail[0] != And && tail[0] != Or)
    ensures var tail := P.Lex(ClauseChunks(false, keyword, parts, open, close, conjunction) + more, []);
      tail == [] || (tail[0] != And && tail[0] != Or)
  {
    var kept := ClearNull(parts);
    var chunks := ClauseChunks(false, keyword, parts, open, close, conjunction) + more;
    if kept == [] {
      assert chunks == more;
    } else {
      assert chunks[0] == "\n" && chunks[1] == keyword;
      assert chunks[1..][0] == keyword;
      KeywordTok(keyword, P.Lex(chunks[1..][1..], []));
      NewlineTok(P.Lex(chunks[1..], []));
    }
  }

  lemma KeywordTok(keyword: string, ts: seq<Tok<string>>)
    requires LaterKeyword(keyword)
    ensures P.ChunkToks(keyword, ts) == [Other(keyword)] + ts
  {
    assert keyword[0] == 'G' || keyword[0] == 'H' || keyword[1] == 'R';
    assert |keyword| >= 6;
  }

  lemma NewlineTok(ts: seq<Tok<string>>)
    ensures P.ChunkToks("\n", ts) == ts
  {
  }

  // ---------------------------------------------------------------- the whole condition

  /** The comparisons of a query, joined to the wrapper's groups; the groups alone, if there are none. */
  function Combined(front: seq<Atom>, isOr: bool, c: Chain<Atom>): Chain<Atom> {
    if front == [] then c else JoinedTo(front[0], front[1..], isOr, c)
  }

  lemma {:induction false} JoinedFails(first: Atom, atoms: seq<Atom>, isOr: bool, more: seq<Tok<Atom>>)
    requires ParseChain(more).None?
    ensures ParseChain([Term(first)] + Anded(atoms, [if isOr then Or else And] + more)).None?
    decreases |atoms|
  {
    var k: seq<Tok<Atom>> := [if isOr then Or else And];
    var ts := [Term(first)] + Anded(atoms, k + more);
    P.ChainStep(ts, Leaf(first), ts[1..]);
    if atoms == [] {
      assert ts[1..][1..] == more;
    } else {
      JoinedFails(atoms[0], atoms[1..], isOr, more);
      assert ts[1..][1..] == [Term(atoms[0])] + Anded(atoms[1..], k + more);
    }
  }

  /** The comparisons and the segment, without the leading connective, are read exactly when the parts
      describe groups, and then as the comparisons joined to those groups. */
  lemma SegmentReading(front: seq<Atom>, s: Clauses, andOr: string) returns (tail: seq<Tok<string>>)
    requires Readable(s, andOr) && PartsOf(s) != []
    ensures NoConnective(tail)
    ensures var ts := Anded(front, AsAtomToks(WrapperToks(s, andOr)));
      && ts != [] && !NoConnective(ts)
      && ParseChain(ts[1..]) == match P.Meaning(PartsOf(s))
                                case None => None
                                case Some(m) => Some((Combined(front, andOr == "OR", AsAtoms(m)), AsAtomToks(tail)))
  {
    var inner: seq<Tok<string>>;
    inner, tail := SegmentLex(s, andOr);
    ReadBehind(front, andOr == "OR", inner);
  }

  function Behind(front: seq<Atom>, isOr: bool, r: Option<(Chain<string>, seq<Tok<string>>)>)
    : Option<(Chain<Atom>, seq<Tok<Atom>>)>
  {
    if r.None? then None else Some((Combined(front, isOr, AsAtoms(r.value.0)), AsAtomToks(r.value.1)))
  }

  /** Comparisons, a connective, and tokens that may or may not be read. */
  lemma ReadBehind(front: seq<Atom>, isOr: bool, inner: seq<Tok<string>>)
    ensures var ts := Anded(front, AsAtomToks([P.OrTok(isOr)] + inner));
      ts != [] && !NoConnective(ts) && ParseChain(ts[1..]) == Behind(front, isOr, ParseChain(inner))
  {
    ChainAsAtoms(inner);
    var k: seq<Tok<Atom>>, more := [if isOr then Or else And], AsAtomToks(inner);
    assert AsAtomToks([P.OrTok(isOr)] + inner) == k + more;
    var ts := Anded(front, k + more);
    if front == [] {
      assert ts[1..] == more;
    } else {
      assert ts[1..] == [Term(front[0])] + Anded(front[1..], k + more);
      var r := ParseChain(inner);
      if r.None? {
        JoinedFails(front[0], front[1..], isOr, more);
      } else {
        JoinedParses(front[0], front[1..], isOr, more, AsAtoms(r.value.0), AsAtomToks(r.value.1));
      }
    }
  }

  /** Comparisons before a text that starts with no connective. */
  lemma {:induction false} ConjunctionBefore(first: Atom, atoms: seq<Atom>, tail: seq<Tok<Atom>>)
    requires NoConnective(tail)
    ensures ParseChain([Term(first)] + Anded(atoms, tail)) == Some((Conjunction(first, atoms), tail))
    decreases |atoms|
  {
    var ts := [Term(first)] + Anded(atoms, tail);
    P.ChainStep(ts, Leaf(first), ts[1..]);
    if atoms != [] {
      ConjunctionBefore(atoms[0], atoms[1..], tail);
      assert ts[1..][1..] == [Term(atoms[0])] + Anded(atoms[1..], tail);
    }
  }

  /** Without a WHERE clause, the rendered text starts with no connective. */
  lemma NoWhereLex(s: Clauses)
    requires ClearNull(s.where) == [] && (Conditions.Blank(s.last) || P.Opaque(s.last))
    ensures NoConnective(P.Lex(SqlChunks(s), []))
  {
    var l := if Conditions.Blank(s.last) then [] else [" "] + [s.last];
    if !Conditions.Blank(s.last) {
      assert l[1..] == [s.last];
      P.LexOne(s.last, []);
      P.LexPart(s.last, []);
    }
    var g := AddClause([], "GROUP BY", s.groupBy, "", "", ", ");
    var h := AddClause(g, "HAVING", s.having, "(", ")", AND);
    var o := AddClause(h, "ORDER BY", s.orderBy, "", "", ", ");
    assert AddClause([], "WHERE", s.where, "(", ")", AND) == [];
    if o == [] {
      assert SqlChunks(s) == l;
    } else {
      StartsWithKeyword([], "GROUP BY", s.groupBy, "", "", ", ");
      StartsWithKeyword(g, "HAVING", s.having, "(", ")", AND);
      StartsWithKeyword(h, "ORDER BY", s.orderBy, "", "", ", ");
      assert SqlChunks(s)[0] == o[0];
      KeywordTok(o[0], P.Lex(SqlChunks(s)[1..], []));
    }
  }

  predicate LaterKeyword(s: string) { s == "GROUP BY" || s == "HAVING" || s == "ORDER BY" }

  lemma StartsWithKeyword(chunks: seq<string>, keyword: string, parts: seq<string>,
                          open: string, close: string, conjunction: string)
    requires LaterKeyword(keyword) && (chunks != [] ==> LaterKeyword(chunks[0]))
    ensures var after := AddClause(chunks, keyword, parts, open, close, conjunction);
      after != [] ==> LaterKeyword(after[0])
  {
    if chunks == [] {
      assert AddClause(chunks, keyword, parts, open, close, conjunction) ==
             ClauseChunks(true, keyword, parts, open, close, conjunction);
    }
  }
}
