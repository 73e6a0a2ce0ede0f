/**
 The SQL condition builder: lists of clause parts, one of which is also reachable through an
 alias, and the printer that puts separators between the parts.

 Text is kept as the list of strings appended to the Java StringBuilder. A null part is "".
 */
module Conditions {

  import opened Lists
  import opened Options
  import opened Sql

  // ---------------------------------------------------------------- strings

  const AND := " AND "
  const OR := " OR "
  const AND_NEW := ") \nAND ("
  const OR_NEW := ") \nOR ("

  /** Character.isWhitespace: control characters, and the separators that allow a line break. */
  predicate IsSpace(c: char) {
    || c in " \t\n\r"
    || c == 11 as char || c == 12 as char || 28 as char <= c <= 31 as char
    || c == '\U{1680}' || ('\U{2000}' <= c <= '\U{200A}' && c != '\U{2007}')
    || c == '\U{2028}' || c == '\U{2029}' || c == '\U{205F}' || c == '\U{3000}'
  }

  /** StringUtils.isEmpty: null, empty or all white space. */
  predicate Blank(s: string) {
    forall i :: 0 <= i < |s| ==> IsSpace(s[i])
  }

  datatype Conn = CAnd | COr | CAndNew | COrNew

  function ConnText(k: Conn): string {
    match k
    case CAnd => AND
    case COr => OR
    case CAndNew => AND_NEW
    case COrNew => OR_NEW
  }

  /** Which connective a part is, if any: parts are compared with the four texts, wherever they came from. */
  function KindOf(s: string): Option<Conn> {
    if s == AND then Some(CAnd)
    else if s == OR then Some(COr)
    else if s == AND_NEW then Some(CAndNew)
    else if s == OR_NEW then Some(COrNew)
    else None
  }

  predicate IsConnective(s: string) { KindOf(s).Some? }

  lemma KindOfConnText(k: Conn)
    ensures KindOf(ConnText(k)) == Some(k)
  {
  }

  /** checkNest: one or more parentheses, bars or white-space characters (regex class \s). */
  predicate IsNest(s: string) {
    s != "" && forall i :: 0 <= i < |s| ==> s[i] in "()| \t\n\r" || s[i] == 11 as char || s[i] == 12 as char
  }

  function Concat(chunks: seq<string>): string {
    if chunks == [] then "" else chunks[0] + Concat(chunks[1..])
  }

  lemma {:induction false} ConcatAppend(a: seq<string>, b: seq<string>)
    ensures Concat(a + b) == Concat(a) + Concat(b)
  {
    if a == [] {
      assert a + b == b;
    } else {
      assert (a + b)[1..] == a[1..] + b;
      ConcatAppend(a[1..], b);
    }
  }

  // ---------------------------------------------------------------- the clause printer

  function ClearNull(parts: seq<string>): seq<string> {
    if parts == [] then []
    else if Blank(parts[0]) then ClearNull(parts[1..])
    else [parts[0]] + ClearNull(parts[1..])
  }

  lemma {:induction false} ClearNullAppend(parts: seq<string>, p: string)
    ensures ClearNull(parts + [p]) == ClearNull(parts) + (if Blank(p) then [] else [p])
  {
    if parts == [] {
      assert [p][1..] == [];
    } else {
      assert (parts + [p])[1..] == parts[1..] + [p];
      ClearNullAppend(parts[1..], p);
    }
  }

  /** What the printing loop appends for part i, given its variable `last`. */
  function PartChunks(parts: seq<string>, i: nat, last: string, conjunction: string): seq<string>
    requires i < |parts|
  {
    if i > 0 && !IsConnective(parts[i]) && !IsConnective(last) && !IsNest(parts[i]) && !IsNest(last)
    then [conjunction, parts[i]]
    else [parts[i]]
  }

  /** `last` after part i: it moves only beside a connective. */
  function LastAfter(parts: seq<string>, i: nat, last: string): string
    requires i < |parts|
  {
    if i > 0 && (IsConnective(parts[i]) || IsConnective(last)) then parts[i] else last
  }

  function BodyChunks(parts: seq<string>, i: nat, last: string, conjunction: string): seq<string>
    requires i <= |parts|
    decreases |parts| - i
  {
    if i == |parts| then []
    else PartChunks(parts, i, last, conjunction) + BodyChunks(parts, i + 1, LastAfter(parts, i, last), conjunction)
  }

  function ClauseChunks(builderEmpty: bool, keyword: string, parts: seq<string>,
                        open: string, close: string, conjunction: string): seq<string>
  {
    var kept := ClearNull(parts);
    if kept == [] then []
    else Opening(builderEmpty, keyword, open) + BodyChunks(kept, 0, "__", conjunction) + [close]
  }

  function Opening(builderEmpty: bool, keyword: string, open: string): seq<string> {
    (if builderEmpty then [] else ["\n"]) + [keyword, " ", open]
  }

  function AddClause(chunks: seq<string>, keyword: string, parts: seq<string>,
                     open: string, close: string, conjunction: string): seq<string>
  {
    chunks + ClauseChunks(Concat(chunks) == "", keyword, parts, open, close, conjunction)
  }

  // ---------------------------------------------------------------- the builder object

  class StringList {
    var items: seq<string>

    constructor ()
      ensures items == []
    {
      items := [];
    }

    method Add(s: string)
      modifies this
      ensures items == old(items) + [s]
    {
      items := items + [s];
    }
  }

  class SafeAppendable {
    var chunks: seq<string>
    var empty: bool

    ghost predicate Valid()
      reads this
    {
      empty <==> Concat(chunks) == ""
    }

    constructor ()
      ensures Valid() && chunks == [] && empty
    {
      chunks, empty := [], true;
    }

    method Append(s: string)
      requires Valid()
      modifies this
      ensures Valid() && chunks == old(chunks) + [s]
    {
      if empty && |s| > 0 {
        empty := false;
      }
      chunks := chunks + [s];
      ConcatAppend(old(chunks), [s]);
    }
  }

  /** One call on the builder. */
  datatype BuilderCall =
    | Where(text: string)
    | Connect(k: Conn)
    | Supp(text: string)
    | GroupBy(text: string)
    | Having(text: string)
    | OrderBy(text: string)
    | Last(text: string)

  /** Which list `lastList` is an alias of. */
  datatype Target = Detached | WhereList | HavingList

  datatype Clauses = Clauses(where: seq<string>, having: seq<string>, groupBy: seq<string>,
                             orderBy: seq<string>, last: string, target: Target)

  const EMPTY := Clauses([], [], [], [], "", Detached)

  function Apply(s: Clauses, call: BuilderCall): Clauses {
    match call
    case Where(t) => s.(where := s.where + [t], target := WhereList)
    case Connect(k) =>
      (match s.target
       case Detached => s
       case WhereList => s.(where := s.where + [ConnText(k)])
       case HavingList => s.(having := s.having + [ConnText(k)]))
    case Supp(t) => s.(where := s.where + [t])
    case GroupBy(t) => s.(groupBy := s.groupBy + [t])
    case Having(t) => s.(having := s.having + [t], target := HavingList)
    case OrderBy(t) => s.(orderBy := s.orderBy + [t])
    case Last(t) => s.(last := t)
  }

  function SqlChunks(s: Clauses): seq<string> {
    var c1 := AddClause([], "WHERE", s.where, "(", ")", AND);
    var c2 := AddClause(c1, "GROUP BY", s.groupBy, "", "", ", ");
    var c3 := AddClause(c2, "HAVING", s.having, "(", ")", AND);
    var c4 := AddClause(c3, "ORDER BY", s.orderBy, "", "", ", ");
    if Blank(s.last) then c4 else c4 + [" "] + [s.last]
  }

  class SqlBuilder {
    const where: StringList
    const having: StringList
    const groupBy: StringList
    const orderBy: StringList
    const detached: StringList
    var last: string
    var lastList: StringList

    ghost predicate Valid()
      reads this
    {
      && where != having && where != groupBy && where != orderBy && where != detached
      && having != groupBy && having != orderBy && having != detached
      && groupBy != orderBy && groupBy != detached && orderBy != detached
      && (lastList == where || lastList == having || lastList == detached)
    }

    ghost function Lists(): set<object>
    {
      {where, having, groupBy, orderBy, detached}
    }

    function State(): Clauses
      reads this, Lists()
    {
      Clauses(where.items, having.items, groupBy.items, orderBy.items, last,
              if lastList == where then WhereList else if lastList == having then HavingList else Detached)
    }

    constructor ()
      ensures Valid() && State() == EMPTY && fresh(Lists())
    {
      where := new StringList();
      having := new StringList();
      groupBy := new StringList();
      orderBy := new StringList();
      var nowhere := new StringList();
      detached, lastList, last := nowhere, nowhere, "";
    }

    method Call(call: BuilderCall)
      requires Valid()
      modifies this, Lists()
      ensures Valid() && State() == Apply(old(State()), call)
    {
      match call {
        case Where(t) => where.Add(t); lastList := where;
        case Connect(k) => lastList.Add(ConnText(k));
        case Supp(t) => where.Add(t);
        case GroupBy(t) => groupBy.Add(t);
        case Having(t) => having.Add(t); lastList := having;
        case OrderBy(t) => orderBy.Add(t);
        case Last(t) => last := t;
      }
    }

    method ClearNullOf(parts: seq<string>) returns (kept: seq<string>)
      ensures kept == ClearNull(parts)
    {
      kept := [];
      for i := 0 to |parts|
        invariant kept == ClearNull(parts[..i])
      {
        assert parts[..i + 1] == parts[..i] + [parts[i]];
        ClearNullAppend(parts[..i], parts[i]);
        if !Blank(parts[i]) {
          kept := kept + [parts[i]];
        }
      }
      assert parts[..|parts|] == parts;
    }

    /** The printing loop. */
    method AppendParts(builder: SafeAppendable, kept: seq<string>, conjunction: string)
      requires builder.Valid()
      modifies builder
      ensures builder.Valid()
      ensures builder.chunks == old(builder.chunks) + BodyChunks(kept, 0, "__", conjunction)
    {
      var lastPart := "__";
      ghost var done: seq<string> := [];
      for i := 0 to |kept|
        invariant builder.Valid() && builder.chunks == old(builder.chunks) + done
        invariant done + BodyChunks(kept, i, lastPart, conjunction) == BodyChunks(kept, 0, "__", conjunction)
      {
        var part := kept[i];
        ghost var more := PartChunks(kept, i, lastPart, conjunction);
        ghost var rest := BodyChunks(kept, i + 1, LastAfter(kept, i, lastPart), conjunction);
        assert done + (more + rest) == (done + more) + rest;
        done := done + more;
        if i > 0 {
          if IsConnective(part) || IsConnective(lastPart) {
            builder.Append(part);
            lastPart := part;
            continue;
          } else if !IsNest(part) && !IsNest(lastPart) {
            builder.Append(conjunction);
          }
        }
        builder.Append(part);
      }
    }

    method AppendOpening(builder: SafeAppendable, keyword: string, open: string)
      requires builder.Valid()
      modifies builder
      ensures builder.Valid()
      ensures builder.chunks == old(builder.chunks) + Opening(Concat(old(builder.chunks)) == "", keyword, open)
    {
      if !builder.empty {
        builder.Append("\n");
      }
      builder.Append(keyword);
      builder.Append(" ");
      builder.Append(open);
    }

    method SqlClause(builder: SafeAppendable, keyword: string, parts: seq<string>,
                     open: string, close: string, conjunction: string)
      requires builder.Valid()
      modifies builder
      ensures builder.Valid()
      ensures builder.chunks == AddClause(old(builder.chunks), keyword, parts, open, close, conjunction)
    {
      var kept := ClearNullOf(parts);
      if kept == [] {
        return;
      }
      AppendEnd(builder.chunks, Opening(Concat(builder.chunks) == "", keyword, open),
            BodyChunks(kept, 0, "__", conjunction), [close]);
      AppendOpening(builder, keyword, open);
      AppendParts(builder, kept, conjunction);
      builder.Append(close);
    }

    method BuildSql() returns (chunks: seq<string>)
      requires Valid()
      ensures chunks == SqlChunks(State())
    {
      var builder := new SafeAppendable();
      SqlClause(builder, "WHERE", where.items, "(", ")", AND);
      SqlClause(builder, "GROUP BY", groupBy.items, "", "", ", ");
      SqlClause(builder, "HAVING", having.items, "(", ")", AND);
      SqlClause(builder, "ORDER BY", orderBy.items, "", "", ", ");
      if !Blank(last) {
        builder.Append(" ");
        builder.Append(last);
      }
      chunks := builder.chunks;
    }
  }
}
