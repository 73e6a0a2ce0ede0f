/**
 Reading the printed WHERE clause character by character: no knowledge of which strings were appended is
 used, so where a condition ends is found out from the text alone.
 */
module ConditionText {

  import opened ConditionParsing
  import opened Conditions
  import opened Lists
  import opened Options
  import opened Sql
  import Placeholders

  // ---------------------------------------------------------------- the reader

  /** Where the reader is: how many of the condition's own parentheses are open, whether it is inside a quoted
      text, and whether the AND of a BETWEEN is still to come. */
  datatype Mode = Mode(depth: nat, quoted: bool, between: bool)

  const TOP := Mode(0, false, false)

  /** The next character goes on with the condition, or it ends a token, to which the last k characters
      belong as well. */
  datatype Effect = More(m: Mode) | Cut(k: nat, tok: Tok<string>)

  /** The text ends with AND, behind white space; with OR; with BETWEEN. */
  predicate EndsAnd(run: string) {
    var n := |run|;
    n > 3 && run[n - 3] == 'A' && run[n - 2] == 'N' && run[n - 1] == 'D' && IsSpace(run[n - 4])
  }

  predicate EndsOr(run: string) {
    var n := |run|;
    n > 2 && run[n - 2] == 'O' && run[n - 1] == 'R' && IsSpace(run[n - 3])
  }

  predicate EndsBetween(run: string) {
    var n := |run|;
    && n > 7 && run[n - 7] == 'B' && run[n - 6] == 'E' && run[n - 5] == 'T' && run[n - 4] == 'W'
    && run[n - 3] == 'E' && run[n - 2] == 'E' && run[n - 1] == 'N' && IsSpace(run[n - 8])
  }

  /** A space outside parentheses and quotes. */
  function AtSpace(run: string, m: Mode): (e: Effect)
    ensures e.Cut? ==> e.k <= |run|
  {
    if EndsAnd(run) then (if m.between then More(m.(between := false)) else Cut(4, Tok.And))
    else if EndsOr(run) then Cut(3, Tok.Or)
    else if EndsBetween(run) then More(m.(between := true))
    else More(m)
  }

  function Read(run: string, m: Mode, c: char): (e: Effect)
    ensures e.Cut? ==> e.k <= |run|
  {
    if m.quoted then More(m.(quoted := c != '\''))
    else if c == '\'' then More(m.(quoted := true))
    else if m.depth > 0 then
      More(m.(depth := if c == '(' then m.depth + 1 else if c == ')' then m.depth - 1 else m.depth))
    else if c == ')' then Cut(0, Close)
    else if c == '(' then (if Blank(run) then Cut(0, Open) else More(m.(depth := 1)))
    else if c == ' ' then AtSpace(run, m)
    else More(m)
  }

  /** The text read since the last token: nothing, if it is blank. */
  function Flush(run: string, tail: seq<Tok<string>>): seq<Tok<string>> {
    if Blank(run) then tail else [Term(run)] + tail
  }

  function Scan(s: string, run: string, m: Mode): seq<Tok<string>>
    decreases |s|
  {
    if s == "" then Flush(run, [])
    else
      match Read(run, m, s[0])
      case More(next) => Scan(s[1..], run + [s[0]], next)
      case Cut(k, tok) => Flush(run[..|run| - k], [tok] + Scan(s[1..], "", TOP))
  }

  /** The reader goes through the text without ending a token, and so it does with a space after it. */
  predicate Reads(t: string, run: string, m: Mode)
    decreases |t|
  {
    if t == "" then m == TOP && Read(run, TOP, ' ') == More(TOP)
    else Read(run, m, t[0]).More? && Reads(t[1..], run + [t[0]], Read(run, m, t[0]).m)
  }

  /** A condition that is a unit of SQL: its parentheses and quotes are closed, it does not begin with a
      parenthesis, and what AND and OR it holds are inside those or belong to a BETWEEN. */
  predicate Whole(t: string) { Reads(t, "", TOP) }

  /** A whole text is read whole. */
  lemma {:induction false} ScanText(t: string, rest: string, run: string, m: Mode)
    requires Reads(t, run, m)
    ensures Scan(t + rest, run, m) == Scan(rest, run + t, TOP)
    ensures Read(run + t, TOP, ' ') == More(TOP)
    decreases |t|
  {
    if t == "" {
      assert t + rest == rest && run + t == run;
    } else {
      assert (t + rest)[0] == t[0] && (t + rest)[1..] == t[1..] + rest;
      ScanText(t[1..], rest, run + [t[0]], Read(run, m, t[0]).m);
      assert (run + [t[0]]) + t[1..] == run + t;
    }
  }

  // ---------------------------------------------------------------- the strings that are appended

  predicate IsDelimiter(s: string) {
    IsConnective(s) || s == "(" || s == ")"
  }

  /** After a condition, or nothing. */
  predicate Settled(run: string) {
    Read(run, TOP, ' ') == More(TOP)
  }

  lemma {:induction false} ScanLetters(w: string, rest: string, run: string)
    requires forall i :: 0 <= i < |w| ==> w[i] !in " ()'"
    ensures Scan(w + rest, run, TOP) == Scan(rest, run + w, TOP)
    decreases |w|
  {
    if w == "" {
      assert w + rest == rest && run + w == run;
    } else {
      assert (w + rest)[0] == w[0] && (w + rest)[1..] == w[1..] + rest;
      assert (run + [w[0]]) + w[1..] == run + w;
      ScanLetters(w[1..], rest, run + [w[0]]);
    }
  }

  lemma ReadSpace(s: string, run: string)
    requires s != "" && IsSpace(s[0]) && Settled(run)
    ensures Scan(s, run, TOP) == Scan(s[1..], run + [s[0]], TOP)
  {
  }

  lemma EndsWith(run: string, w: char, isOr: bool)
    requires IsSpace(w)
    ensures var all := (run + [w]) + (if isOr then "OR" else "AND");
      var k := if isOr then 3 else 4;
      && Read(all, TOP, ' ') == Cut(k, OrTok(isOr))
      && all[..|all| - k] == run
  {
    var all := (run + [w]) + (if isOr then "OR" else "AND");
    var k := if isOr then 3 else 4;
    assert all[|all| - k] == w && all[..|all| - k] == run;
    assert if isOr then EndsOr(all) && !EndsAnd(all) else EndsAnd(all);
  }

  /** A connective between white space. */
  lemma ReadWordBetween(w: char, isOr: bool, run: string, rest: string)
    requires IsSpace(w) && Settled(run)
    ensures var word := if isOr then "OR" else "AND";
      Scan([w] + (word + (" " + rest)), run, TOP) == Flush(run, [OrTok(isOr)] + Scan(rest, "", TOP))
  {
    var word := if isOr then "OR" else "AND";
    var s := [w] + (word + (" " + rest));
    assert s[0] == w && s[1..] == word + (" " + rest);
    ReadSpace(s, run);
    ScanLetters(word, " " + rest, run + [w]);
    EndsWith(run, w, isOr);
    assert (" " + rest)[0] == ' ' && (" " + rest)[1..] == rest;
    CutHere(" " + rest, (run + [w]) + word, TOP, |word| + 1, OrTok(isOr));
  }

  lemma CutHere(s: string, run: string, m: Mode, k: nat, tok: Tok<string>)
    requires s != "" && Read(run, m, s[0]) == Cut(k, tok)
    ensures k <= |run| && Scan(s, run, m) == Flush(run[..|run| - k], [tok] + Scan(s[1..], "", TOP))
  {
  }

  lemma ReadAnd(w: char, run: string, rest: string)
    requires IsSpace(w) && Settled(run)
    ensures Scan([w] + "AND " + rest, run, TOP) == Flush(run, [Tok.And] + Scan(rest, "", TOP))
  {
    ReadWordBetween(w, false, run, rest);
    assert [w] + "AND " + rest == [w] + ("AND" + (" " + rest));
  }

  lemma ReadOr(w: char, run: string, rest: string)
    requires IsSpace(w) && Settled(run)
    ensures Scan([w] + "OR " + rest, run, TOP) == Flush(run, [Tok.Or] + Scan(rest, "", TOP))
  {
    ReadWordBetween(w, true, run, rest);
    assert [w] + "OR " + rest == [w] + ("OR" + (" " + rest));
  }

  lemma ReadClose(run: string, rest: string)
    ensures Scan(")" + rest, run, TOP) == Flush(run, [Close] + Scan(rest, "", TOP))
  {
    assert (")" + rest)[0] == ')' && (")" + rest)[1..] == rest && run[..|run| - 0] == run;
  }

  lemma ReadOpen(run: string, rest: string)
    requires Blank(run)
    ensures Scan("(" + rest, run, TOP) == [Open] + Scan(rest, "", TOP)
  {
    assert ("(" + rest)[0] == '(' && ("(" + rest)[1..] == rest && run[..|run| - 0] == run;
  }

  /** The connective of a new group: a space and a line break before it. */
  lemma ReadNewGroup(isOr: bool, run: string, rest: string)
    requires Settled(run)
    ensures Scan((if isOr then OR_NEW else AND_NEW) + rest, run, TOP) ==
            Flush(run, [Close] + ([OrTok(isOr)] + ([Open] + Scan(rest, "", TOP))))
  {
    var inner := (if isOr then ['\n'] + "OR " else ['\n'] + "AND ") + ("(" + rest);
    assert (if isOr then OR_NEW else AND_NEW) + rest == ")" + (" " + inner);
    ReadClose(run, " " + inner);
    ReadSpace(" " + inner, "");
    assert (" " + inner)[1..] == inner && "" + [' '] == " ";
    if isOr {
      ReadOr('\n', " ", "(" + rest);
    } else {
      ReadAnd('\n', " ", "(" + rest);
    }
    ReadOpen("", rest);
  }

  lemma ReadConnective(k: Conn, run: string, rest: string)
    requires Settled(run)
    ensures Scan(ConnText(k) + rest, run, TOP) == Flush(run, ConnToks(k, Scan(rest, "", TOP)))
  {
    match k
    case CAnd =>
      ReadAnd(' ', run, rest);
      assert AND + rest == [' '] + "AND " + rest;
    case COr =>
      ReadOr(' ', run, rest);
      assert OR + rest == [' '] + "OR " + rest;
    case CAndNew => ReadNewGroup(false, run, rest);
    case COrNew => ReadNewGroup(true, run, rest);
  }

  lemma ReadDelimiter(s: string, run: string, rest: string)
    requires IsDelimiter(s) && Settled(run) && (s == "(" ==> run == "")
    ensures Scan(s + rest, run, TOP) == Flush(run, ChunkToks(s, Scan(rest, "", TOP)))
  {
    if IsConnective(s) {
      var k := KindOf(s).value;
      assert s == ConnText(k);
      KindOfConnText(k);
      ReadConnective(k, run, rest);
    } else if s == "(" {
      ReadOpen(run, rest);
    } else {
      ReadClose(run, rest);
    }
  }

  /** Delimiters, and conditions with a delimiter after each that is no opening parenthesis. */
  predicate Separated(cs: seq<string>) {
    cs != [] ==>
      && (IsDelimiter(cs[0]) || (Unit(cs[0]) && (|cs| > 1 ==> IsDelimiter(cs[1]) && cs[1] != "(")))
      && Separated(cs[1..])
  }

  predicate Unit(t: string) { Opaque(t) && Whole(t) }

  /** Reading the characters finds the strings that were appended. */
  lemma {:induction false} ScanIsLex(cs: seq<string>)
    requires Separated(cs)
    ensures Scan(Concat(cs), "", TOP) == Lex(cs, [])
    decreases |cs|
  {
    if cs != [] {
      var rest := Concat(cs[1..]);
      ScanIsLex(cs[1..]);
      if IsDelimiter(cs[0]) {
        ReadDelimiter(cs[0], "", rest);
      } else {
        ScanText(cs[0], rest, "", TOP);
        assert "" + cs[0] == cs[0];
        if |cs| > 1 {
          ReadDelimiter(cs[1], cs[0], Concat(cs[1..][1..]));
          ReadDelimiter(cs[1], "", Concat(cs[1..][1..]));
        }
      }
    }
  }

  predicate UnitParts(ss: seq<string>) {
    forall i :: 0 <= i < |ss| ==> IsConnective(ss[i]) || Unit(ss[i])
  }

  /** The printing loop never puts two conditions side by side. */
  lemma {:induction false} BodySeparated(ss: seq<string>, i: nat, last: string)
    requires UnitParts(ss) && i <= |ss| && !IsNest(last)
    requires i == 0 || !IsConnective(ss[i - 1]) ==> !IsConnective(last)
    ensures var cs := BodyChunks(ss, i, last, AND) + [")"];
      Separated(cs) && (i > 0 && !IsConnective(ss[i - 1]) ==> IsDelimiter(cs[0]) && cs[0] != "(")
    decreases |ss| - i
  {
    if i == |ss| {
      assert ([] + [")"])[1..] == [];
    } else {
      var next := LastAfter(ss, i, last);
      var rest := BodyChunks(ss, i + 1, next, AND) + [")"];
      var piece := PartChunks(ss, i, last, AND);
      ConnectiveIsNoNest(ss[i]);
      BodySeparated(ss, i + 1, next);
      Assoc(piece, BodyChunks(ss, i + 1, next, AND), [")"]);
      PieceSeparated(piece, ss[i], rest);
    }
  }

  lemma PieceSeparated(piece: seq<string>, s: string, rest: seq<string>)
    requires piece == [s] || piece == [AND, s]
    requires rest != [] && Separated(rest)
    requires IsConnective(s) || (Unit(s) && IsDelimiter(rest[0]) && rest[0] != "(")
    ensures Separated(piece + rest)
    ensures IsConnective(s) || |piece| == 2 ==> IsDelimiter(piece[0]) && piece[0] != "("
  {
    var some := [s] + rest;
    assert some[0] == s && some[1] == rest[0] && some[1..] == rest;
    assert Separated(some);
    KindOfConnText(CAnd);
    if IsConnective(s) {
      ConnectiveIsLong(s);
    }
    if piece == [AND, s] {
      assert (piece + rest)[1..] == some;
    }
  }

  lemma ConnectiveIsLong(s: string)
    requires IsConnective(s)
    ensures |s| >= 4
  {
  }

  lemma ConnectiveIsNoNest(s: string)
    requires IsConnective(s) || Opaque(s)
    ensures !IsNest(s)
  {
    if IsConnective(s) {
      match KindOf(s).value
      case CAnd => assert s[1] == 'A';
      case COr => assert s[1] == 'O';
      case CAndNew => assert s[3] == 'A';
      case COrNew => assert s[3] == 'O';
    }
  }

  /** The strings of a clause behind its keyword and a space. */
  function ClauseBody(where: seq<string>): seq<string> {
    ["("] + (BodyChunks(ClearNull(where), 0, "__", AND) + [")"])
  }

  lemma ClauseIs(where: seq<string>)
    requires UnitParts(ClearNull(where)) && ClearNull(where) != []
    ensures Separated(ClauseBody(where))
    ensures ClauseChunks(true, "WHERE", where, "(", ")", AND) == ["WHERE"] + ([" "] + ClauseBody(where))
  {
    var ss := ClearNull(where);
    var inner := BodyChunks(ss, 0, "__", AND) + [")"];
    assert "__"[0] == '_' && "__"[1] == '_';
    BodySeparated(ss, 0, "__");
    assert (["("] + inner)[1..] == inner;
    assert Opening(true, "WHERE", "(") == ["WHERE"] + ([" "] + ["("]);
    Assoc(["WHERE"] + ([" "] + ["("]), BodyChunks(ss, 0, "__", AND), [")"]);
    Assoc4(["WHERE"], [" "], ["("], inner);
  }

  /** The printed clause is its keyword, a space, and what the reader reads as the appended strings. */
  lemma ClauseText(where: seq<string>)
    requires UnitParts(ClearNull(where)) && ClearNull(where) != []
    ensures var cs := ClauseChunks(true, "WHERE", where, "(", ")", AND);
      && |Concat(cs)| > 5 && Concat(cs)[..5] == "WHERE"
      && [Other("WHERE")] + Scan(Concat(cs)[6..], "", TOP) == Lex(cs, [])
  {
    ClauseIs(where);
    ScanIsLex(ClauseBody(where));
    KeywordText(ClauseBody(where));
  }

  lemma KeywordText(body: seq<string>)
    ensures var text := Concat(["WHERE"] + ([" "] + body));
      |text| > 5 && text[..5] == "WHERE" && text[6..] == Concat(body)
    ensures Lex(["WHERE"] + ([" "] + body), []) == [Other("WHERE")] + Lex(body, [])
  {
    var cs := ["WHERE"] + ([" "] + body);
    assert cs[1..] == [" "] + body && ([" "] + body)[1..] == body;
    assert Concat(cs) == "WHERE" + (" " + Concat(body));
  }

  /** The conditions are units of SQL. */
  predicate WholeCondition(c: BuilderCall) {
    c.Where? ==> Blank(c.text) || Whole(c.text)
  }

  lemma {:induction false} RequestedIsUnits(calls: seq<BuilderCall>, started: bool)
    requires forall c :: c in calls ==> PlainCall(c) && WholeCondition(c)
    ensures UnitParts(ClearNull(Requested(calls, started)))
    decreases |calls|
  {
    if calls != [] {
      assert PlainCall(calls[0]) && WholeCondition(calls[0]);
      if calls[0].Where? {
        RequestedIsUnits(calls[1..], true);
        var rest := Requested(calls[1..], true);
        assert ([calls[0].text] + rest)[1..] == rest;
      } else {
        RequestedIsUnits(calls[1..], started);
        var rest := Requested(calls[1..], started);
        if calls[0].Connect? {
          KindOfConnText(calls[0].k);
          assert ([ConnText(calls[0].k)] + rest)[1..] == rest;
          assert [] + rest == rest;
        }
      }
    }
  }

  /** The round trip on characters: over every history of calls with conditions that are units, the text of
      the WHERE clause, read character by character and parsed, gives back exactly the groups and connectives
      asked for, or nothing if they are not well formed. */
  lemma TextRoundTrip(calls: seq<BuilderCall>)
    requires forall c :: c in calls ==> PlainCall(c) && WholeCondition(c)
    ensures var ps := Parts(ClearNull(Requested(calls, false)));
      var text := Concat(ClauseChunks(true, "WHERE", Replay(EMPTY, calls).where, "(", ")", AND));
      && (ps == [] ==> text == "")
      && (ps != [] ==>
            && |text| > 5 && text[..5] == "WHERE"
            && (ParseChain(Scan(text[6..], "", TOP)).Some? <==> WellFormed(ps))
            && (WellFormed(ps) ==>
                && Meaning(ps).Some?
                && ParseChain(Scan(text[6..], "", TOP)) == Some((Meaning(ps).value, []))))
  {
    var where := Replay(EMPTY, calls).where;
    RoundTrip(calls);
    ReplayCollects(EMPTY, calls);
    assert where == Requested(calls, false);
    if ClearNull(where) != [] {
      RequestedIsUnits(calls, false);
      ClauseText(where);
      var ts := Lex(ClauseChunks(true, "WHERE", where, "(", ")", AND), []);
      var text := Concat(ClauseChunks(true, "WHERE", where, "(", ")", AND));
      assert ([Other("WHERE")] + Scan(text[6..], "", TOP))[1..] == Scan(text[6..], "", TOP);
    }
  }

  // ---------------------------------------------------------------- conditions that are units

  /** No white space, parenthesis or quote. */
  predicate Word(w: string) {
    w != "" && forall i :: 0 <= i < |w| ==> !IsSpace(w[i]) && w[i] !in "()'"
  }

  predicate Keyword(w: string) { w == "AND" || w == "OR" || w == "BETWEEN" }

  /** Nothing, or text with white space at its end. */
  predicate Spaced(run: string) { run == "" || IsSpace(run[|run| - 1]) }

  lemma LastWord(run: string, w: string)
    requires Spaced(run) && Word(w)
    ensures EndsAnd(run + w) ==> w == "AND"
    ensures EndsOr(run + w) ==> w == "OR"
    ensures EndsBetween(run + w) ==> w == "BETWEEN"
  {
    var all := run + w;
    assert run != "" ==> all[|run| - 1] == run[|run| - 1];
    assert forall i :: 0 <= i < |w| ==> all[|run| + i] == w[i];
    WordLength(all, run, w);
  }

  lemma WordLength(all: string, run: string, w: string)
    requires Spaced(run) && Word(w) && all == run + w
    ensures EndsAnd(all) ==> |w| == 3
    ensures EndsOr(all) ==> |w| == 2
    ensures EndsBetween(all) ==> |w| == 7
  {
    assert run != "" ==> all[|run| - 1] == run[|run| - 1];
    var n := |all|;
    assert |w| > 3 ==> all[n - 4] == w[|w| - 4];
    assert |w| > 2 ==> all[n - 3] == w[|w| - 3];
    assert |w| > 7 ==> all[n - 8] == w[|w| - 8];
  }

  lemma {:induction false} ReadLetters(w: string, t: string, run: string, m: Mode)
    requires !m.quoted && m.depth == 0 && forall i :: 0 <= i < |w| ==> w[i] !in " ()'"
    requires Reads(t, run + w, m)
    ensures Reads(w + t, run, m)
    decreases |w|
  {
    if w == "" {
      assert w + t == t && run + w == run;
    } else {
      assert (w + t)[0] == w[0] && (w + t)[1..] == w[1..] + t;
      assert (run + [w[0]]) + w[1..] == run + w;
      ReadLetters(w[1..], t, run + [w[0]], m);
    }
  }

  /** A word and the space after it. */
  lemma ReadWord(w: string, t: string, run: string, m: Mode)
    requires Spaced(run) && Word(w) && !m.quoted && m.depth == 0
    requires !Keyword(w) || (w == "AND" && m.between && run != "") || (w == "BETWEEN" && run != "")
    requires var between := w == "BETWEEN" || (w != "AND" && m.between);
      Reads(t, run + (w + " "), m.(between := between))
    ensures Reads(w + (" " + t), run, m)
  {
    var next := m.(between := w == "BETWEEN" || (w != "AND" && m.between));
    SpaceAfterWord(w, run, m);
    assert (" " + t)[0] == ' ' && (" " + t)[1..] == t && (run + w) + [' '] == run + (w + " ");
    assert Reads(" " + t, run + w, m);
    ReadLetters(w, " " + t, run, m);
  }

  lemma SpaceAfterWord(w: string, run: string, m: Mode)
    requires Spaced(run) && Word(w) && !m.quoted && m.depth == 0
    requires !Keyword(w) || (w == "AND" && m.between && run != "") || (w == "BETWEEN" && run != "")
    ensures Read(run + w, m, ' ') == More(m.(between := w == "BETWEEN" || (w != "AND" && m.between)))
  {
    var all := run + w;
    LastWord(run, w);
    assert forall i :: 0 <= i < |w| ==> all[|run| + i] == w[i];
    assert run != "" ==> all[|run| - 1] == run[|run| - 1];
  }

  lemma ReadLastWord(w: string, run: string)
    requires Spaced(run) && Word(w) && !Keyword(w)
    ensures Reads(w, run, TOP)
  {
    LastWord(run, w);
    assert w + "" == w;
    ReadLetters(w, "", run, TOP);
  }

  /** x BETWEEN y AND z. */
  lemma BetweenIsUnit(x: string, y: string, z: string)
    requires Word(x) && Word(y) && Word(z) && !Keyword(x) && !Keyword(y) && !Keyword(z)
    ensures Whole(x + (" " + ("BETWEEN" + (" " + (y + (" " + ("AND" + (" " + z))))))))
  {
    var m := TOP.(between := true);
    var r1 := x + " ";
    var r2 := r1 + ("BETWEEN" + " ");
    var r3 := r2 + (y + " ");
    var r4 := r3 + ("AND" + " ");
    assert Word("BETWEEN") && Word("AND");
    assert "" + (x + " ") == r1;
    ReadLastWord(z, r4);
    ReadWord("AND", z, r3, m);
    ReadWord(y, "AND" + (" " + z), r2, m);
    ReadWord("BETWEEN", y + (" " + ("AND" + (" " + z))), r1, TOP);
    ReadWord(x, "BETWEEN" + (" " + (y + (" " + ("AND" + (" " + z))))), "", TOP);
  }

  /** Inside a condition's own parentheses anything goes but parentheses and quotes. */
  predicate Inner(w: string) {
    forall i :: 0 <= i < |w| ==> w[i] !in "()'"
  }

  lemma {:induction false} ReadInner(w: string, t: string, run: string, m: Mode)
    requires Inner(w) && !m.quoted && m.depth > 0
    requires Reads(t, run + w, m)
    ensures Reads(w + t, run, m)
    decreases |w|
  {
    if w == "" {
      assert w + t == t && run + w == run;
    } else {
      assert (w + t)[0] == w[0] && (w + t)[1..] == w[1..] + t;
      assert (run + [w[0]]) + w[1..] == run + w;
      ReadInner(w[1..], t, run + [w[0]], m);
    }
  }

  /** A parenthesis behind other text. */
  lemma ReadParenthesized(w: string, run: string)
    requires Inner(w) && !Blank(run)
    ensures Reads("(" + (w + ")"), run, TOP)
  {
    var all := (run + "(") + w;
    assert (all + ")")[|all + ")" | - 1] == ')';
    assert Reads("", all + ")", TOP);
    assert ")"[1..] == "" && ")"[0] == ')' && all + [')'] == all + ")";
    assert Reads(")", all, TOP.(depth := 1));
    ReadInner(w, ")", run + "(", TOP.(depth := 1));
    assert ("(" + (w + ")"))[1..] == w + ")" && run + ['('] == run + "(";
  }

  lemma ReadIn(run: string, w: string)
    requires Spaced(run) && !Blank(run) && Inner(w)
    ensures Reads("IN" + (" " + ("(" + (w + ")"))), run, TOP)
  {
    var next := run + ("IN" + " ");
    assert Word("IN") && exists i :: 0 <= i < |run| && !IsSpace(run[i]);
    var i :| 0 <= i < |run| && !IsSpace(run[i]);
    assert next[i] == run[i];
    ReadParenthesized(w, next);
    ReadWord("IN", "(" + (w + ")"), run, TOP);
  }

  lemma ReadNotIn(run: string, w: string)
    requires Spaced(run) && !Blank(run) && Inner(w)
    ensures Reads("NOT" + (" " + ("IN" + (" " + ("(" + (w + ")"))))), run, TOP)
  {
    var next := run + ("NOT" + " ");
    assert Word("NOT") && exists i :: 0 <= i < |run| && !IsSpace(run[i]);
    var i :| 0 <= i < |run| && !IsSpace(run[i]);
    assert next[i] == run[i];
    ReadIn(next, w);
    ReadWord("NOT", "IN" + (" " + ("(" + (w + ")"))), run, TOP);
  }

  /** x IN (...) and x NOT IN (...). */
  lemma InIsUnit(x: string, isNot: bool, w: string)
    requires Word(x) && !Keyword(x) && Inner(w)
    ensures Whole(x + (" " + ((if isNot then "NOT" + (" " + ("IN" + (" " + ("(" + (w + ")")))))
                               else "IN" + (" " + ("(" + (w + ")")))))))
  {
    var run, list := x + " ", "IN" + (" " + ("(" + (w + ")")));
    assert "" + (x + " ") == run && run[0] == x[0] && !IsSpace(x[0]);
    if isNot {
      ReadNotIn(run, w);
      ReadWord(x, "NOT" + (" " + list), "", TOP);
    } else {
      ReadIn(run, w);
      ReadWord(x, list, "", TOP);
    }
  }

  // ---------------------------------------------------------------- what the wrapper makes

  /** A parameter alias without white space, parentheses and quotes. */
  lemma TokenIsWord(alias: string, n: nat)
    requires Word(alias)
    ensures var t := Placeholders.Token(alias, Placeholders.ParamName(n));
      Word(t) && !Keyword(t) && Inner(t)
  {
    var front, name := "#{" + alias, Placeholders.Decimal(n);
    var t := Placeholders.Token(alias, Placeholders.ParamName(n));
    assert t == front + ".paramNameValuePairs.MPGENVAL" + name + "}";
    forall i | 0 <= i < |t|
      ensures !IsSpace(t[i]) && t[i] !in "()'"
    {
      var k := |front| + 29;
      if 2 <= i < |front| {
        assert t[i] == alias[i - 2];
      } else if k <= i < k + |name| {
        assert t[i] == name[i - k];
      }
    }
    assert t[0] == '#';
  }

  lemma {:induction false} TokenListIsInner(ts: seq<string>, i: nat)
    requires i <= |ts| && forall k :: 0 <= k < |ts| ==> Inner(ts[k])
    ensures Inner(Placeholders.TokenList(ts, i))
    decreases |ts| - i
  {
    if i < |ts| {
      TokenListIsInner(ts, i + 1);
      assert Inner(ts[i]);
    }
  }

  /** The IN conditions that the wrapper makes are units, although they hold parentheses. */
  lemma InTextIsUnit(column: string, isNot: bool, alias: string, start: nat, n: nat)
    requires Placeholders.SafeAlias(alias, n) && Word(alias)
    requires Word(column) && !Keyword(column) && forall k :: 0 <= k < |column| ==> column[k] != '{'
    ensures Whole(Placeholders.ReplaceEach(Placeholders.InText(column, n, isNot),
                                           Placeholders.Tokens(alias, start, n), n))
  {
    var ts := Placeholders.Tokens(alias, start, n);
    Placeholders.InNamesEveryParameter(column, isNot, alias, start, n);
    forall k | 0 <= k < n ensures Inner(ts[k]) {
      TokenIsWord(alias, start + k + 1);
    }
    TokenListIsInner(ts, 0);
    var w := Placeholders.TokenList(ts, 0);
    InIsUnit(column, isNot, w);
    InShape(column, isNot, w + ")");
  }

  lemma InShape(column: string, isNot: bool, rest: string)
    ensures Placeholders.InFront(column, isNot) + rest ==
            column + (" " + (if isNot then "NOT" + (" " + ("IN" + (" " + ("(" + rest))))
                             else "IN" + (" " + ("(" + rest))))
  {
  }

  /** So are its BETWEEN conditions, although they hold an AND. */
  lemma BetweenTextIsUnit(column: string, alias: string, start: nat)
    requires Placeholders.SafeAlias(alias, 2) && Word(alias)
    requires Word(column) && !Keyword(column) && forall k :: 0 <= k < |column| ==> column[k] != '{'
    ensures Whole(Placeholders.ReplaceEach(column + " BETWEEN {0} AND {1}", Placeholders.Tokens(alias, start, 2), 2))
  {
    var ts := Placeholders.Tokens(alias, start, 2);
    var front := column + " BETWEEN ";
    BetweenTemplate(column);
    Placeholders.BetweenNamesBoth(front, alias, start);
    TokenIsWord(alias, start + 1);
    TokenIsWord(alias, start + 2);
    BetweenIsUnit(column, ts[0], ts[1]);
    BetweenShape(column, ts[0], ts[1]);
  }

  lemma BetweenTemplate(column: string)
    ensures column + " BETWEEN {0} AND {1}" ==
            (column + " BETWEEN ") + (Placeholders.Placeholder(0) + (" AND " + Placeholders.Placeholder(1)))
  {
    assert Placeholders.Decimal(0) == "0" && Placeholders.Decimal(1) == "1";
  }

  lemma BetweenShape(x: string, y: string, z: string)
    ensures (x + " BETWEEN ") + (y + (" AND " + z)) ==
            x + (" " + ("BETWEEN" + (" " + (y + (" " + ("AND" + (" " + z)))))))
  {
  }
}
