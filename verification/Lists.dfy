/** Sequences: regrouping of concatenations, and lists without repetition. */
module Lists {

  lemma Assoc<A>(a: seq<A>, b: seq<A>, c: seq<A>)
    ensures (a + b) + c == a + (b + c)
  {
  }

  lemma Assoc4<A>(a: seq<A>, b: seq<A>, c: seq<A>, d: seq<A>)
    ensures (a + (b + c)) + d == a + (b + (c + d))
  {
  }

  lemma AppendEnd<A>(a: seq<A>, b: seq<A>, c: seq<A>, d: seq<A>)
    ensures ((a + b) + c) + d == a + ((b + c) + d)
  {
  }

  lemma Assoc5<A>(a: seq<A>, b: seq<A>, c: seq<A>, d: seq<A>, e: seq<A>)
    ensures (((a + b) + c) + d) + e == a + (b + (c + (d + e)))
  {
  }

  predicate NoRepeats<A(==)>(s: seq<A>) {
    forall i, j :: 0 <= i < j < |s| ==> s[i] != s[j]
  }

  /** The list without the first occurrence of a value. */
  function RemoveFirst<A(==)>(s: seq<A>, x: A): seq<A> {
    if s == [] then []
    else if s[0] == x then s[1..]
    else [s[0]] + RemoveFirst(s[1..], x)
  }

  lemma {:induction false} RemoveFirstIs<A>(s: seq<A>, x: A)
    requires NoRepeats(s)
    ensures NoRepeats(RemoveFirst(s, x))
    ensures forall y :: y in RemoveFirst(s, x) <==> y in s && y != x
    ensures |RemoveFirst(s, x)| == |s| - (if x in s then 1 else 0)
  {
    if s != [] {
      var tail := s[1..];
      assert forall y :: y in s <==> y == s[0] || y in tail;
      assert s[0] !in tail;
      RemoveFirstIs(tail, x);
      if s[0] != x {
        var rest := RemoveFirst(s, x);
        assert forall y :: y in rest <==> y == s[0] || y in RemoveFirst(tail, x);
      }
    }
  }

  /** Cutting the first occurrence out, once its index is known. */
  lemma {:induction false} RemoveFirstAt<A>(s: seq<A>, x: A, i: nat)
    requires i <= |s| && (forall j :: 0 <= j < i ==> s[j] != x) && (i < |s| ==> s[i] == x)
    ensures RemoveFirst(s, x) == if i < |s| then s[..i] + s[i + 1..] else s
    decreases i
  {
    if i > 0 {
      RemoveFirstAt(s[1..], x, i - 1);
      CutTail(s, i);
    }
  }

  lemma CutTail<A>(s: seq<A>, i: nat)
    requires 0 < i <= |s|
    ensures s == [s[0]] + s[1..]
    ensures i < |s| ==> s[..i] + s[i + 1..] == [s[0]] + (s[1..][..i - 1] + s[1..][i..])
  {
    if i < |s| {
      assert s[1..][i..] == s[i + 1..];
      assert s[..i] == [s[0]] + s[1..][..i - 1];
    }
  }
}
