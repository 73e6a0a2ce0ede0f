/**
 A fragment of SQL: boolean conditions built with AND, OR and parentheses over opaque atoms.
 The parser reads tokens; the meaning gives AND precedence over OR.
 */
module Sql {

  import opened Options

  datatype Tok<A> = Open | Close | And | Or | Term(atom: A) | Other(text: string)

  /** A factor, and a chain of factors joined by connectives, as written from left to right. */
  datatype Expr<A> = Leaf(atom: A) | Group(body: Chain<A>)
  datatype Chain<A> =
    | One(first: Expr<A>)
    | AndThen(first: Expr<A>, rest: Chain<A>)
    | OrElse(first: Expr<A>, rest: Chain<A>)

  // ---------------------------------------------------------------- meaning

  predicate Holds<A>(e: Expr<A>, v: A -> bool)
    decreases e, 0
  {
    match e
    case Leaf(a) => v(a)
    case Group(c) => ChainHolds(c, v)
  }

  /** AND binds tighter: a chain is a disjunction of the conjunctions between its ORs. */
  predicate ChainHolds<A>(c: Chain<A>, v: A -> bool)
    decreases c, 1
  {
    HeadHolds(c, v) || TailHolds(c, v)
  }

  /** The conjunction up to the first OR. */
  predicate HeadHolds<A>(c: Chain<A>, v: A -> bool)
    decreases c, 0
  {
    Holds(c.first, v) && (c.AndThen? ==> HeadHolds(c.rest, v))
  }

  /** The rest of the disjunction. */
  predicate TailHolds<A>(c: Chain<A>, v: A -> bool)
    decreases c, 0
  {
    match c
    case One(_) => false
    case AndThen(_, rest) => TailHolds(rest, v)
    case OrElse(_, rest) => HeadHolds(rest, v) || TailHolds(rest, v)
  }

  // ---------------------------------------------------------------- parser

  function ParseFactor<A>(ts: seq<Tok<A>>): (r: Option<(Expr<A>, seq<Tok<A>>)>)
    ensures r.Some? ==> |r.value.1| < |ts|
    decreases |ts|, 0
  {
    if ts == [] then None
    else match ts[0]
      case Term(a) => Some((Leaf(a), ts[1..]))
      case Open =>
        (match ParseChain(ts[1..])
         case Some((c, rest)) => if rest != [] && rest[0] == Close then Some((Group(c), rest[1..])) else None
         case None => None)
      case _ => None
  }

  function ParseChain<A>(ts: seq<Tok<A>>): (r: Option<(Chain<A>, seq<Tok<A>>)>)
    ensures r.Some? ==> |r.value.1| < |ts|
    decreases |ts|, 1
  {
    match ParseFactor(ts)
    case None => None
    case Some((f, rest)) =>
      if rest != [] && rest[0] == And then
        match ParseChain(rest[1..])
        case Some((c, rest2)) => Some((AndThen(f, c), rest2))
        case None => None
      else if rest != [] && rest[0] == Or then
        match ParseChain(rest[1..])
        case Some((c, rest2)) => Some((OrElse(f, c), rest2))
        case None => None
      else Some((One(f), rest))
  }
}
