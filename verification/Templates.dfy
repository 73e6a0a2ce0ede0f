/**
 SQL templates: text with dynamic tags, generated from a table description, and the interpreter
 that runs a template on the parameters of one call.
 */
module Templates {

  import opened Options
  import opened Sql

  // ---------------------------------------------------------------- values and output

  datatype Value = Null | Val(text: string)

  /** A comparison in a WHERE clause: a column against a value, or a condition seen as a unit. */
  datatype Atom = Eq(column: string, value: Value) | InList(column: string, values: seq<Value>) | Opaque(text: string)

  datatype SetTo = ToValue(value: Value) | ToText(text: string)

  /** What a template evaluates to. Chosen marks the start of the text of a branch of `choose`. */
  datatype Out =
    | Space
    | Chosen
    | Comma
    | LParen
    | RParen
    | Keyword(text: string)
    | Name(column: string)
    | Param(property: string)
    | Assign(target: string, to: SetTo)
    | Cond(tok: Tok<Atom>)

  // ---------------------------------------------------------------- templates

  datatype Test = NotNull(property: string) | NotEmpty(property: string) | Flag(text: string)

  datatype Text =
    | Blank
    | CommaText
    | ColumnName(column: string)
    | ParamRef(property: string)
    | SetParam(column: string, property: string)
    | SetText(column: string, text: string)
    | SetLiteral(column: string, value: Value)
    | SetKeyword
    | KeyParam(column: string, property: string)
    | KeyIn(column: string)
    | AndCond(atom: Atom)
    | AndParam(column: string, property: string)
    | AndDynamic(columnProperty: string, property: string)
    | Segment

  datatype Tag =
    | If(test: Test)
    | Trim(prefix: seq<Out>, suffix: seq<Out>, suffixOverride: Out)
    | WhereTag
    | Choose
    | When(test: Test)
    | Otherwise

  datatype TagName = IfName | TrimName | WhereName | ChooseName | WhenName | OtherwiseName

  function NameOf(t: Tag): TagName {
    match t
    case If(_) => IfName
    case Trim(_, _, _) => TrimName
    case WhereTag => WhereName
    case Choose => ChooseName
    case When(_) => WhenName
    case Otherwise => OtherwiseName
  }

  datatype Piece = T(text: Text) | Start(tag: Tag) | End(name: TagName)

  // ---------------------------------------------------------------- the interpreter

  /** The parameters of one call: property values, the collection of a batch, the truth of the other
      tests, and the wrapper's segment. */
  datatype Env = Env(value: string -> Value, coll: seq<Value>, flag: string -> bool, segment: seq<Tok<Atom>>)

  predicate TestHolds(t: Test, env: Env) {
    match t
    case NotNull(p) => env.value(p) != Null
    case NotEmpty(p) => env.value(p) != Null && env.value(p) != Val("")
    case Flag(f) => env.flag(f)
  }

  function Conds(ts: seq<Tok<Atom>>): (os: seq<Out>)
    ensures |os| == |ts| && forall i :: 0 <= i < |ts| ==> os[i] == Cond(ts[i])
  {
    seq(|ts|, i requires 0 <= i < |ts| => Cond(ts[i]))
  }

  function Render(t: Text, env: Env): seq<Out> {
    match t
    case Blank => [Space]
    case CommaText => [Comma]
    case ColumnName(c) => [Name(c)]
    case ParamRef(p) => [Param(p)]
    case SetParam(c, p) => [Assign(c, ToValue(env.value(p)))]
    case SetText(c, x) => [Assign(c, ToText(x))]
    case SetLiteral(c, v) => [Assign(c, ToValue(v))]
    case SetKeyword => [Keyword("SET")]
    case KeyParam(c, p) => [Cond(Term(Eq(c, env.value(p))))]
    case KeyIn(c) => [if env.coll == [] then Keyword("IN ()") else Cond(Term(InList(c, env.coll)))]
    case AndCond(a) => [Space, Cond(And), Cond(Term(a))]
    case AndDynamic(cp, p) =>
      [Space, Cond(And), Cond(Term(Eq(if env.value(cp).Null? then "null" else env.value(cp).text, env.value(p))))]
    case AndParam(c, p) => [Space, Cond(And), Cond(Term(Eq(c, env.value(p))))]
    case Segment => Conds(env.segment)
  }

  function DropLeading(os: seq<Out>): seq<Out> {
    if os != [] && os[0] == Space then DropLeading(os[1..]) else os
  }

  function DropTrailing(os: seq<Out>): seq<Out> {
    if os != [] && os[|os| - 1] == Space then DropTrailing(os[..|os| - 1]) else os
  }

  /** Content without leading and trailing white space. */
  function Strip(os: seq<Out>): seq<Out> { DropTrailing(DropLeading(os)) }

  /** `trim`: nothing for blank content, else prefix, content without a trailing override, suffix. */
  function TrimOut(tag: Tag, content: seq<Out>): seq<Out>
    requires tag.Trim?
  {
    var c := Strip(content);
    if c == [] then []
    else tag.prefix + (if c[|c| - 1] == tag.suffixOverride then c[..|c| - 1] else c) + tag.suffix
  }

  /** `where`: nothing for blank content, else WHERE and the content without a leading AND or OR. */
  function WhereOut(content: seq<Out>): seq<Out> {
    var c := Strip(content);
    if c == [] then []
    else [Keyword("WHERE")] + (if c[0] == Cond(And) || c[0] == Cond(Or) then c[1..] else c)
  }

  function UpToChosen(os: seq<Out>): seq<Out> {
    if os == [] || os[0] == Chosen then [] else [os[0]] + UpToChosen(os[1..])
  }

  /** `choose`: the first branch that applies. */
  function FirstBranch(os: seq<Out>): seq<Out> {
    if os == [] then []
    else if os[0] == Chosen then UpToChosen(os[1..])
    else FirstBranch(os[1..])
  }

  function Element(tag: Tag, env: Env, content: seq<Out>): seq<Out> {
    match tag
    case If(t) => if TestHolds(t, env) then content else []
    case Trim(_, _, _) => TrimOut(tag, content)
    case WhereTag => WhereOut(content)
    case Choose => FirstBranch(content)
    case When(t) => if TestHolds(t, env) then [Chosen] + content else []
    case Otherwise => [Chosen] + content
  }

  type RunResult = Option<(seq<Out>, seq<Piece>)>

  function Prefixed(o: seq<Out>, r: RunResult): RunResult {
    match r
    case None => None
    case Some((more, rest)) => Some((o + more, rest))
  }

  /** Runs a template up to its end or to a closing tag that belongs to an opening before it.
      None when the tags are not well nested. */
  function Run(ps: seq<Piece>, env: Env): (r: RunResult)
    ensures r.Some? ==> |r.value.1| <= |ps| && (r.value.1 == [] || r.value.1[0].End?)
    decreases |ps|
  {
    if ps == [] || ps[0].End? then Some(([], ps))
    else
      match ps[0]
      case T(t) => Prefixed(Render(t, env), Run(ps[1..], env))
      case Start(tag) =>
        match Run(ps[1..], env)
        case None => None
        case Some((inner, rest)) =>
          if rest == [] || rest[0] != End(NameOf(tag)) then None
          else Prefixed(Element(tag, env, inner), Run(rest[1..], env))
  }

  /** The pieces are well nested and evaluate to `out`. */
  predicate RunsTo(ps: seq<Piece>, env: Env, out: seq<Out>) {
    Run(ps, env) == Some((out, []))
  }

  /** What running `a` and then `b` gives. */
  function Continued(o: seq<Out>, rest: seq<Piece>, b: seq<Piece>, env: Env): RunResult {
    if rest != [] then Some((o, rest + b)) else Prefixed(o, Run(b, env))
  }

  lemma PrefixedTwice(o1: seq<Out>, o2: seq<Out>, r: RunResult)
    ensures Prefixed(o1, Prefixed(o2, r)) == Prefixed(o1 + o2, r)
  {
    if r.Some? {
      assert o1 + (o2 + r.value.0) == (o1 + o2) + r.value.0;
    }
  }

  lemma PrefixedNothing(r: RunResult)
    ensures Prefixed([], r) == r
  {
    if r.Some? {
      assert [] + r.value.0 == r.value.0;
    }
  }

  lemma {:induction false} RunAppend(a: seq<Piece>, b: seq<Piece>, env: Env)
    requires Run(a, env).Some?
    ensures Run(a + b, env) == Continued(Run(a, env).value.0, Run(a, env).value.1, b, env)
    decreases |a|
  {
    if a == [] {
      assert a + b == b;
      PrefixedNothing(Run(b, env));
    } else if a[0].End? {
      assert (a + b)[0] == a[0];
    } else {
      assert (a + b)[0] == a[0] && (a + b)[1..] == a[1..] + b;
      RunAppend(a[1..], b, env);
      var (inner, rest) := Run(a[1..], env).value;
      if a[0].T? {
        PrefixedTwice(Render(a[0].text, env), inner, Run(b, env));
      } else {
        RunStart(a, inner, rest, env);
        assert (rest + b)[0] == rest[0] && (rest + b)[1..] == rest[1..] + b;
        RunStart(a + b, inner, rest + b, env);
        RunAppend(rest[1..], b, env);
        PrefixedTwice(Element(a[0].tag, env, inner), Run(rest[1..], env).value.0, Run(b, env));
      }
    }
  }

  lemma RunStart(ps: seq<Piece>, inner: seq<Out>, rest: seq<Piece>, env: Env)
    requires ps != [] && ps[0].Start? && Run(ps[1..], env) == Some((inner, rest))
    requires rest != [] && rest[0] == End(NameOf(ps[0].tag))
    ensures Run(ps, env) == Prefixed(Element(ps[0].tag, env, inner), Run(rest[1..], env))
  {
  }

  /** Concatenation of well-nested pieces. */
  lemma RunsToAppend(a: seq<Piece>, b: seq<Piece>, env: Env, oa: seq<Out>, ob: seq<Out>)
    requires RunsTo(a, env, oa) && RunsTo(b, env, ob)
    ensures RunsTo(a + b, env, oa + ob)
  {
    RunAppend(a, b, env);
  }

  lemma RunsToText(t: Text, env: Env)
    ensures RunsTo([T(t)], env, Render(t, env))
  {
    assert Run([], env) == Some(([], []));
    assert Render(t, env) + [] == Render(t, env);
  }

  function Wrap(tag: Tag, ps: seq<Piece>): seq<Piece> { [Start(tag)] + (ps + [End(NameOf(tag))]) }

  /** An element around well-nested pieces. */
  lemma RunsToElement(tag: Tag, ps: seq<Piece>, env: Env, out: seq<Out>)
    requires RunsTo(ps, env, out)
    ensures RunsTo(Wrap(tag, ps), env, Element(tag, env, out))
  {
    var close := [End(NameOf(tag))];
    RunAppend(ps, close, env);
    assert Run(close, env) == Some(([], close));
    assert out + [] == out;
    var all := [Start(tag)] + (ps + close);
    assert all[1..] == ps + close;
    assert close[1..] == [];
    assert Element(tag, env, out) + [] == Element(tag, env, out);
  }

  function Flatten<A>(xs: seq<seq<A>>): seq<A> {
    if xs == [] then [] else xs[0] + Flatten(xs[1..])
  }

  lemma {:induction false} FlattenAppend<A>(xs: seq<seq<A>>, x: seq<A>)
    ensures Flatten(xs + [x]) == Flatten(xs) + x
  {
    if xs == [] {
      assert [x][1..] == [];
      assert x + [] == x && [] + x == x;
    } else {
      assert (xs + [x])[1..] == xs[1..] + [x];
      FlattenAppend(xs[1..], x);
      assert xs[0] + (Flatten(xs[1..]) + x) == (xs[0] + Flatten(xs[1..])) + x;
    }
  }

  // ---------------------------------------------------------------- white space does not matter

  function Solid(os: seq<Out>): seq<Out> {
    if os == [] then []
    else if os[0] == Space then Solid(os[1..])
    else [os[0]] + Solid(os[1..])
  }

  lemma {:induction false} SolidAppend(a: seq<Out>, b: seq<Out>)
    ensures Solid(a + b) == Solid(a) + Solid(b)
  {
    if a == [] {
      assert a + b == b;
    } else {
      assert (a + b)[1..] == a[1..] + b;
      SolidAppend(a[1..], b);
    }
  }

  lemma {:induction false} SolidLeading(os: seq<Out>)
    ensures Solid(DropLeading(os)) == Solid(os)
    ensures DropLeading(os) != [] ==>
      DropLeading(os)[0] != Space && Solid(os) != [] && Solid(os)[0] == DropLeading(os)[0]
  {
    if os != [] && os[0] == Space {
      SolidLeading(os[1..]);
    }
  }

  lemma {:induction false} SolidTrailing(os: seq<Out>)
    requires os != [] ==> os[0] != Space
    ensures Solid(DropTrailing(os)) == Solid(os)
    ensures os != [] ==> DropTrailing(os) != [] && DropTrailing(os)[0] == os[0]
    ensures os != [] ==> var s := Solid(os);
      s != [] && s[|s| - 1] == DropTrailing(os)[|DropTrailing(os)| - 1]
      && s[|s| - 1] != Space && Solid(DropTrailing(os)[..|DropTrailing(os)| - 1]) == s[..|s| - 1]
  {
    if os != [] {
      var n := |os| - 1;
      assert os == os[..n] + [os[n]];
      SolidAppend(os[..n], [os[n]]);
      assert Solid([os[n]]) == if os[n] == Space then [] else [os[n]];
      if os[n] == Space {
        assert n > 0;
        SolidTrailing(os[..n]);
      }
    }
  }

  lemma StripSolid(content: seq<Out>)
    ensures var c, s := Strip(content), Solid(content);
      && (c == [] <==> s == [])
      && (c != [] ==>
            && Solid(c) == s && c[0] == s[0] && c[|c| - 1] == s[|s| - 1]
            && Solid(c[..|c| - 1]) == s[..|s| - 1] && Solid(c[1..]) == s[1..])
  {
    SolidLeading(content);
    SolidTrailing(DropLeading(content));
  }

  lemma SolidThree(a: seq<Out>, b: seq<Out>, c: seq<Out>)
    requires Solid(a) == a && Solid(c) == c
    ensures Solid(a + b + c) == a + Solid(b) + c
  {
    SolidAppend(a + b, c);
    SolidAppend(a, b);
  }

  /** What `trim` and `where` do, white space aside. */
  lemma TrimSolid(tag: Tag, content: seq<Out>)
    requires tag.Trim?
    requires Solid(tag.prefix) == tag.prefix && Solid(tag.suffix) == tag.suffix
    ensures var c := Solid(content);
      Solid(TrimOut(tag, content)) ==
      if c == [] then []
      else tag.prefix + (if c[|c| - 1] == tag.suffixOverride then c[..|c| - 1] else c) + tag.suffix
  {
    StripSolid(content);
    var c := Strip(content);
    if c != [] {
      SolidThree(tag.prefix, if c[|c| - 1] == tag.suffixOverride then c[..|c| - 1] else c, tag.suffix);
    }
  }

  lemma WhereSolid(content: seq<Out>)
    ensures var c := Solid(content);
      Solid(WhereOut(content)) ==
      if c == [] then []
      else [Keyword("WHERE")] + (if c[0] == Cond(And) || c[0] == Cond(Or) then c[1..] else c)
  {
    StripSolid(content);
    var c := Strip(content);
    if c != [] {
      SolidAppend([Keyword("WHERE")], if c[0] == Cond(And) || c[0] == Cond(Or) then c[1..] else c);
    }
  }
}
