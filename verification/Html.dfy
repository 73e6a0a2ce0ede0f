/**
 Escaping the HTML characters of a text and turning entities back into characters.
 */
module Html {

  import opened Lists
  import opened Options

  datatype Name = Amp | Lt | Quot | Gt | Apos | Nbsp

  /** What follows the first character of an entity. */
  function Tail(n: Name): string {
    match n
    case Amp => "amp;"
    case Lt => "lt;"
    case Quot => "quot;"
    case Gt => "gt;"
    case Apos => "#39;"
    case Nbsp => "nbsp;"
  }

  /** The entity name, with its semicolon, that a text starts with. */
  function NameAt(s: string): Option<Name> {
    if Tail(Amp) <= s then Some(Amp)
    else if Tail(Lt) <= s then Some(Lt)
    else if Tail(Quot) <= s then Some(Quot)
    else if Tail(Gt) <= s then Some(Gt)
    else if Tail(Apos) <= s then Some(Apos)
    else if Tail(Nbsp) <= s then Some(Nbsp)
    else None
  }

  datatype Char = Escaped(name: Name) | Plain

  /** The entity for a character that is escaped. */
  function Kind(c: char): Char {
    if c == '&' then Escaped(Amp)
    else if c == '<' then Escaped(Lt)
    else if c == '"' then Escaped(Quot)
    else if c == '>' then Escaped(Gt)
    else if c == '\'' then Escaped(Apos)
    else Plain
  }

  /** The character for an entity; `&nbsp;` is not turned back. */
  function Decoded(n: Name): char
    requires n != Nbsp
  {
    match n
    case Amp => '&'
    case Lt => '<'
    case Quot => '"'
    case Gt => '>'
    case Apos => '\''
  }

  /** `unhtml` with its default expression: a character to escape is left alone, together with what
      follows it, when an entity name follows. */
  function Unhtml(s: string): string
    decreases |s|
  {
    if s == "" then ""
    else if Kind(s[0]).Plain? then [s[0]] + Unhtml(s[1..])
    else
      match NameAt(s[1..])
      case Some(n) => s[..1 + |Tail(n)|] + Unhtml(s[1 + |Tail(n)|..])
      case None => "&" + Tail(Kind(s[0]).name) + Unhtml(s[1..])
  }

  predicate EntityAt(s: string) {
    s != "" && s[0] == '&' && NameAt(s[1..]).Some? && NameAt(s[1..]).value != Nbsp
  }

  function Html(s: string): string
    decreases |s|
  {
    if s == "" then ""
    else if EntityAt(s) then
      var n := NameAt(s[1..]).value;
      [Decoded(n)] + Html(s[1 + |Tail(n)|..])
    else [s[0]] + Html(s[1..])
  }

  // ---------------------------------------------------------------- names

  /** A name is found by its text, whatever follows. */
  lemma NameAtTail(n: Name, rest: string)
    ensures NameAt(Tail(n) + rest) == Some(n)
  {
    var t := Tail(n) + rest;
    assert t[..|Tail(n)|] == Tail(n);
    assert t[0] == Tail(n)[0];
  }

  lemma NameAtMeans(s: string, n: Name)
    requires NameAt(s) == Some(n)
    ensures |Tail(n)| <= |s| && s == Tail(n) + s[|Tail(n)|..]
  {
    assert s[..|Tail(n)|] == Tail(n);
  }

  lemma DecodedKind(c: char)
    requires Kind(c).Escaped?
    ensures Kind(c).name != Nbsp && Decoded(Kind(c).name) == c
  {
  }

  /** Text without an ampersand is copied. */
  lemma {:induction false} HtmlCopies(s: string, rest: string)
    requires forall i :: 0 <= i < |s| ==> s[i] != '&'
    ensures Html(s + rest) == s + Html(rest)
    decreases |s|
  {
    if s == "" {
      assert s + rest == rest;
    } else {
      assert s == [s[0]] + s[1..];
      Assoc([s[0]], s[1..], rest);
      Assoc([s[0]], s[1..], Html(rest));
      HtmlOfPlain(s[0], s[1..] + rest);
      HtmlCopies(s[1..], rest);
    }
  }

  lemma TailsHaveNoAmpersand(n: Name)
    ensures forall i :: 0 <= i < |Tail(n)| ==> Tail(n)[i] != '&'
  {
  }

  /** An entity, then the rest. */
  lemma HtmlOfEntity(n: Name, rest: string)
    requires n != Nbsp
    ensures Html("&" + Tail(n) + rest) == [Decoded(n)] + Html(rest)
  {
    var s := "&" + Tail(n) + rest;
    NameAtTail(n, rest);
    assert s[1..] == Tail(n) + rest && s[1 + |Tail(n)|..] == rest;
  }

  /** A character that is no ampersand, or one before `nbsp;`, then a name, then the rest: all copied. */
  lemma HtmlOfOther(c: char, n: Name, rest: string)
    requires c != '&' || n == Nbsp
    ensures Html([c] + Tail(n) + rest) == [c] + Tail(n) + Html(rest)
  {
    Assoc([c], Tail(n), rest);
    Assoc([c], Tail(n), Html(rest));
    NameAtTail(n, rest);
    HtmlOfPlain(c, Tail(n) + rest);
    TailsHaveNoAmpersand(n);
    HtmlCopies(Tail(n), rest);
  }

  lemma HtmlOfPlain(c: char, t: string)
    requires c != '&' || NameAt(t) == Some(Nbsp)
    ensures Html([c] + t) == [c] + Html(t)
  {
    var s := [c] + t;
    assert s[1..] == t;
  }

  // ---------------------------------------------------------------- there and back

  /** Escaping first makes no difference to turning entities back. */
  lemma {:induction false} HtmlUndoesUnhtml(s: string)
    ensures Html(Unhtml(s)) == Html(s)
    decreases |s|
  {
    if s != "" {
      var tail := s[1..];
      if Kind(s[0]).Plain? {
        HtmlUndoesUnhtml(tail);
        HtmlCopies([s[0]], Unhtml(tail));
      } else if NameAt(tail).None? {
        HtmlUndoesUnhtml(tail);
        DecodedKind(s[0]);
        HtmlOfEntity(Kind(s[0]).name, Unhtml(tail));
      } else {
        KeptEntity(s);
      }
    }
  }

  lemma KeptEntity(s: string)
    requires s != "" && Kind(s[0]).Escaped? && NameAt(s[1..]).Some?
    ensures Html(Unhtml(s)) == Html(s)
    decreases |s|, 0
  {
    var n := NameAt(s[1..]).value;
    NameAtMeans(s[1..], n);
    var rest := s[1 + |Tail(n)|..];
    assert s[1..][|Tail(n)|..] == rest;
    assert s == [s[0]] + Tail(n) + rest && s[..1 + |Tail(n)|] == [s[0]] + Tail(n);
    HtmlUndoesUnhtml(rest);
    if s[0] == '&' && n != Nbsp {
      HtmlOfEntity(n, rest);
      HtmlOfEntity(n, Unhtml(rest));
    } else {
      HtmlOfOther(s[0], n, rest);
      HtmlOfOther(s[0], n, Unhtml(rest));
    }
  }

  predicate NoEntity(s: string) {
    forall i :: 0 <= i < |s| ==> !EntityAt(s[i..])
  }

  lemma NoEntityStep(s: string)
    requires s != ""
    ensures NoEntity(s) <==> !EntityAt(s) && NoEntity(s[1..])
  {
    assert s[0..] == s;
    assert forall i :: 0 <= i < |s[1..]| ==> s[1..][i..] == s[i + 1..];
    if !EntityAt(s) && NoEntity(s[1..]) {
      forall i | 0 <= i < |s| ensures !EntityAt(s[i..]) {
        if i > 0 {
          assert s[1..][i - 1..] == s[i..];
        }
      }
    }
  }

  /** Turning entities back shortens a text exactly when there are any. */
  lemma {:induction false} HtmlShortens(s: string)
    ensures |Html(s)| <= |s|
    ensures NoEntity(s) ==> Html(s) == s
    ensures !NoEntity(s) ==> |Html(s)| < |s|
    decreases |s|
  {
    if s != "" {
      NoEntityStep(s);
      if EntityAt(s) {
        var n := NameAt(s[1..]).value;
        NameAtMeans(s[1..], n);
        HtmlShortens(s[1 + |Tail(n)|..]);
      } else {
        HtmlShortens(s[1..]);
        assert s == [s[0]] + s[1..];
      }
    }
  }

  /** Escaping and turning back gives a text again exactly when none of the five entities is in it. */
  lemma RoundTripIff(s: string)
    ensures Html(Unhtml(s)) == s <==> NoEntity(s)
  {
    HtmlUndoesUnhtml(s);
    HtmlShortens(s);
  }

  /** So no two texts without entities are escaped to the same text. */
  lemma UnhtmlIsInjective(s: string, t: string)
    requires NoEntity(s) && NoEntity(t) && Unhtml(s) == Unhtml(t)
    ensures s == t
  {
    RoundTripIff(s);
    RoundTripIff(t);
  }

  // ---------------------------------------------------------------- escaping twice

  lemma UnhtmlOfKept(c: char, n: Name, rest: string)
    requires Kind(c).Escaped?
    ensures Unhtml([c] + Tail(n) + rest) == [c] + Tail(n) + Unhtml(rest)
  {
    var s := [c] + Tail(n) + rest;
    NameAtTail(n, rest);
    assert s[1..] == Tail(n) + rest && s[1 + |Tail(n)|..] == rest && s[..1 + |Tail(n)|] == [c] + Tail(n);
  }

  /** What is escaped once is not escaped again. */
  lemma {:induction false} UnhtmlTwice(s: string)
    ensures Unhtml(Unhtml(s)) == Unhtml(s)
    decreases |s|
  {
    if s != "" {
      var tail := s[1..];
      if Kind(s[0]).Plain? {
        UnhtmlTwice(tail);
        assert ([s[0]] + Unhtml(tail))[1..] == Unhtml(tail);
      } else if NameAt(tail).None? {
        UnhtmlTwice(tail);
        UnhtmlOfKept('&', Kind(s[0]).name, Unhtml(tail));
      } else {
        var n := NameAt(tail).value;
        var rest := UnhtmlKeeps(s, n);
        UnhtmlTwice(rest);
        UnhtmlOfKept(s[0], n, Unhtml(rest));
      }
    }
  }

  lemma UnhtmlKeeps(s: string, n: Name) returns (rest: string)
    requires s != "" && Kind(s[0]).Escaped? && NameAt(s[1..]) == Some(n)
    ensures |rest| < |s| && Unhtml(s) == [s[0]] + Tail(n) + Unhtml(rest)
  {
    NameAtMeans(s[1..], n);
    rest := s[1 + |Tail(n)|..];
    assert s[..1 + |Tail(n)|] == [s[0]] + Tail(n);
  }
}
