/**
 The tree table's data side: flattening a list of nodes with parent ids into rows, parents before
 children, and computing a row's indentation.

 Ids are integers; 0 stands for an id that JavaScript treats as false (0, "", null, undefined).
 */
module TreeTable {

  import opened Lists

  type Id = int

  datatype Node = Node(id: Id, pid: Id)

  predicate DistinctIds(data: seq<Node>) {
    forall i, j :: 0 <= i < j < |data| ==> data[i].id != data[j].id
  }

  /** Parents are acyclic: some rank falls from every parent id to its children. */
  ghost predicate Ranked(data: seq<Node>, rank: Id -> nat) {
    forall i :: 0 <= i < |data| ==> rank(data[i].id) < rank(data[i].pid)
  }

  predicate HasChild(data: seq<Node>, id: Id) {
    exists i :: 0 <= i < |data| && data[i].pid == id
  }

  // ---------------------------------------------------------------- the order of the rows

  /** The nodes below `pid`, as indices: each child from position i on, followed by what is below it. */
  ghost function Scan(data: seq<Node>, rank: Id -> nat, pid: Id, i: nat): seq<nat>
    requires Ranked(data, rank) && i <= |data|
    decreases rank(pid), |data| - i
  {
    if i == |data| then []
    else if data[i].pid == pid then [i] + Scan(data, rank, data[i].id, 0) + Scan(data, rank, pid, i + 1)
    else Scan(data, rank, pid, i + 1)
  }

  /** A chain of nodes from a child of `root` down, each the parent of the next. */
  predicate IsPath(data: seq<Node>, root: Id, p: seq<nat>) {
    && p != [] && (forall k :: 0 <= k < |p| ==> p[k] < |data|)
    && data[p[0]].pid == root
    && forall k :: 0 < k < |p| ==> data[p[k]].pid == data[p[k - 1]].id
  }

  function Last(p: seq<nat>): nat
    requires p != []
  {
    p[|p| - 1]
  }

  ghost predicate Below(data: seq<Node>, root: Id, x: nat) {
    exists p :: IsPath(data, root, p) && Last(p) == x
  }

  lemma {:induction false} PathRank(data: seq<Node>, rank: Id -> nat, root: Id, p: seq<nat>)
    requires Ranked(data, rank) && IsPath(data, root, p)
    ensures rank(data[Last(p)].id) < rank(root)
    decreases |p|
  {
    if |p| > 1 {
      PathRank(data, rank, root, p[..|p| - 1]);
    }
  }

  /** There is at most one path between a root and a node. */
  lemma {:induction false} PathUnique(data: seq<Node>, rank: Id -> nat, root: Id, p: seq<nat>, q: seq<nat>)
    requires DistinctIds(data) && Ranked(data, rank)
    requires IsPath(data, root, p) && IsPath(data, root, q) && Last(p) == Last(q)
    ensures p == q
    decreases |p|
  {
    var m, n := |p| - 1, |q| - 1;
    if n > 0 {
      PathRank(data, rank, root, q[..n]);
    }
    if m > 0 {
      PathRank(data, rank, root, p[..m]);
    }
    if m > 0 && n > 0 {
      assert data[p[m - 1]].id == data[q[n - 1]].id;
      PathUnique(data, rank, root, p[..m], q[..n]);
      assert p == p[..m] + [Last(p)] && q == q[..n] + [Last(q)];
    } else {
      assert p == [p[0]] && q == [q[0]];
    }
  }

  lemma {:induction false} ScanIsBelow(data: seq<Node>, rank: Id -> nat, pid: Id, i: nat, x: nat) returns (p: seq<nat>)
    requires Ranked(data, rank) && i <= |data| && x in Scan(data, rank, pid, i)
    ensures IsPath(data, pid, p) && Last(p) == x && p[0] >= i
    decreases rank(pid), |data| - i
  {
    if data[i].pid == pid && x == i {
      p := [i];
    } else if data[i].pid == pid && x in Scan(data, rank, data[i].id, 0) {
      var q := ScanIsBelow(data, rank, data[i].id, 0, x);
      p := [i] + q;
      assert forall k :: 0 < k < |p| ==> p[k] == q[k - 1];
    } else {
      p := ScanIsBelow(data, rank, pid, i + 1, x);
    }
  }

  lemma {:induction false} BelowIsScanned(data: seq<Node>, rank: Id -> nat, pid: Id, i: nat, p: seq<nat>)
    requires Ranked(data, rank) && i <= |data| && IsPath(data, pid, p) && p[0] >= i
    ensures Last(p) in Scan(data, rank, pid, i)
    decreases rank(pid), |data| - i
  {
    if p[0] == i {
      if |p| > 1 {
        var q := p[1..];
        assert forall k :: 0 <= k < |q| ==> q[k] == p[k + 1];
        BelowIsScanned(data, rank, data[i].id, 0, q);
      }
    } else {
      BelowIsScanned(data, rank, pid, i + 1, p);
    }
  }

  lemma NoRepeatsConcat(a: seq<nat>, b: seq<nat>)
    requires NoRepeats(a) && NoRepeats(b) && forall x :: x in a ==> x !in b
    ensures NoRepeats(a + b)
  {
    var c := a + b;
    forall i, j | 0 <= i < j < |c| ensures c[i] != c[j] {
      if i < |a| && |a| <= j {
        assert c[i] in a && c[j] in b;
      }
    }
  }

  lemma {:induction false} ScanOnce(data: seq<Node>, rank: Id -> nat, pid: Id, i: nat)
    requires DistinctIds(data) && Ranked(data, rank) && i <= |data|
    ensures NoRepeats(Scan(data, rank, pid, i))
    decreases rank(pid), |data| - i
  {
    if i < |data| {
      ScanOnce(data, rank, pid, i + 1);
      if data[i].pid == pid {
        ScanOnce(data, rank, data[i].id, 0);
        var inner, later := Scan(data, rank, data[i].id, 0), Scan(data, rank, pid, i + 1);
        forall x | x in [i] + inner ensures x !in later {
          NotScannedTwice(data, rank, pid, i, x);
        }
        forall x | x in inner ensures x != i {
          var p := ScanIsBelow(data, rank, data[i].id, 0, x);
          PathRank(data, rank, data[i].id, p);
        }
        NoRepeatsConcat([i], inner);
        NoRepeatsConcat([i] + inner, later);
      }
    }
  }

  /** A node at or below child i is not below a later child. */
  lemma NotScannedTwice(data: seq<Node>, rank: Id -> nat, pid: Id, i: nat, x: nat)
    requires DistinctIds(data) && Ranked(data, rank) && i < |data| && data[i].pid == pid
    requires x in [i] + Scan(data, rank, data[i].id, 0)
    ensures x !in Scan(data, rank, pid, i + 1)
  {
    var first := [i];
    if x != i {
      var q := ScanIsBelow(data, rank, data[i].id, 0, x);
      first := [i] + q;
      assert forall k :: 0 < k < |first| ==> first[k] == q[k - 1];
    }
    if x in Scan(data, rank, pid, i + 1) {
      var later := ScanIsBelow(data, rank, pid, i + 1, x);
      PathUnique(data, rank, pid, first, later);
    }
  }

  /** The rows are exactly the nodes below the root, each once, whatever else is in the data. */
  lemma ScanListsEachNodeOnce(data: seq<Node>, rank: Id -> nat, root: Id)
    requires DistinctIds(data) && Ranked(data, rank)
    ensures var rows := Scan(data, rank, root, 0);
      NoRepeats(rows) && forall x: nat :: x in rows <==> Below(data, root, x)
  {
    ScanOnce(data, rank, root, 0);
    var rows := Scan(data, rank, root, 0);
    forall x: nat ensures x in rows <==> Below(data, root, x) {
      if x in rows {
        var p := ScanIsBelow(data, rank, root, 0, x);
      }
      if Below(data, root, x) {
        var p :| IsPath(data, root, p) && Last(p) == x;
        BelowIsScanned(data, rank, root, 0, p);
      }
    }
  }

  /** The order of paths in a preorder that keeps the order of siblings: a path comes before those it
      leads on to, and before those that turn off at a later sibling. */
  predicate Before(p: seq<nat>, q: seq<nat>) {
    q != [] && (p == [] || p[0] < q[0] || (p[0] == q[0] && Before(p[1..], q[1..])))
  }

  /** The path of the j-th row says in which part of the rows it lies. */
  lemma Located(data: seq<Node>, rank: Id -> nat, pid: Id, i: nat, j: nat, p: seq<nat>)
    requires DistinctIds(data) && Ranked(data, rank) && i < |data| && data[i].pid == pid
    requires j < |Scan(data, rank, pid, i)|
    requires IsPath(data, pid, p) && Last(p) == Scan(data, rank, pid, i)[j]
    ensures var inner, later := Scan(data, rank, data[i].id, 0), Scan(data, rank, pid, i + 1);
      var n := 1 + |inner|;
      if j == 0 then p == [i]
      else if j < n then p[0] == i && |p| > 1 && IsPath(data, data[i].id, p[1..]) && Last(p[1..]) == inner[j - 1]
      else j - n < |later| && p[0] > i && Last(p) == later[j - n]
  {
    var inner, later := Scan(data, rank, data[i].id, 0), Scan(data, rank, pid, i + 1);
    var s, n := Scan(data, rank, pid, i), 1 + |inner|;
    assert s == [i] + inner + later;
    if j == 0 {
      PathUnique(data, rank, pid, p, [i]);
    } else if j < n {
      assert s[j] == inner[j - 1];
      var q := ScanIsBelow(data, rank, data[i].id, 0, inner[j - 1]);
      var full := [i] + q;
      assert forall k :: 0 < k < |full| ==> full[k] == q[k - 1];
      PathUnique(data, rank, pid, p, full);
      assert p[1..] == q;
    } else {
      assert s[j] == later[j - n];
      var q := ScanIsBelow(data, rank, pid, i + 1, later[j - n]);
      PathUnique(data, rank, pid, p, q);
    }
  }

  /** The rows are in preorder, siblings in the order of the data. */
  lemma {:induction false} ScanIsPreorder(data: seq<Node>, rank: Id -> nat, pid: Id, i: nat,
                                          j: nat, p: seq<nat>, k: nat, q: seq<nat>)
    requires DistinctIds(data) && Ranked(data, rank) && i <= |data|
    requires j < |Scan(data, rank, pid, i)| && k < |Scan(data, rank, pid, i)|
    requires IsPath(data, pid, p) && Last(p) == Scan(data, rank, pid, i)[j] && p[0] >= i
    requires IsPath(data, pid, q) && Last(q) == Scan(data, rank, pid, i)[k] && q[0] >= i
    ensures j < k <==> Before(p, q)
    decreases rank(pid), |data| - i
  {
    if data[i].pid != pid {
      ScanIsPreorder(data, rank, pid, i + 1, j, p, k, q);
    } else {
      var n := 1 + |Scan(data, rank, data[i].id, 0)|;
      Located(data, rank, pid, i, j, p);
      Located(data, rank, pid, i, k, q);
      if 1 <= j < n && 1 <= k < n {
        ScanIsPreorder(data, rank, data[i].id, 0, j - 1, p[1..], k - 1, q[1..]);
      } else if n <= j && n <= k {
        ScanIsPreorder(data, rank, pid, i + 1, j - n, p, k - n, q);
      }
    }
  }

  lemma {:induction false} LongerIsLater(p: seq<nat>, x: nat)
    ensures Before(p, p + [x])
  {
    if p != [] {
      assert (p + [x])[1..] == p[1..] + [x];
      LongerIsLater(p[1..], x);
    }
  }

  /** So a parent's row comes before its children's rows. */
  lemma ParentFirst(data: seq<Node>, rank: Id -> nat, root: Id, j: nat, k: nat)
    requires DistinctIds(data) && Ranked(data, rank)
    requires j < |Scan(data, rank, root, 0)| && k < |Scan(data, rank, root, 0)|
    requires var s := Scan(data, rank, root, 0);
      s[j] < |data| && s[k] < |data| && data[s[j]].id == data[s[k]].pid
    ensures j < k
  {
    var s := Scan(data, rank, root, 0);
    var p := ScanIsBelow(data, rank, root, 0, s[j]);
    var q := p + [s[k]];
    assert forall l :: 0 <= l < |p| ==> q[l] == p[l];
    LongerIsLater(p, s[k]);
    ScanIsPreorder(data, rank, root, 0, j, p, k, q);
  }

  // ---------------------------------------------------------------- building the rows

  datatype Row = Row(node: nat, isParent: bool)

  function RowOf(data: seq<Node>, x: nat): Row
    requires x < |data|
  {
    Row(x, HasChild(data, data[x].id))
  }

  predicate InRange(data: seq<Node>, s: seq<nat>) {
    forall k :: 0 <= k < |s| ==> s[k] < |data|
  }

  ghost function Rows(data: seq<Node>, s: seq<nat>): (rows: seq<Row>)
    requires InRange(data, s)
    ensures |rows| == |s| && forall k :: 0 <= k < |s| ==> rows[k] == RowOf(data, s[k])
  {
    seq(|s|, k requires 0 <= k < |s| => RowOf(data, s[k]))
  }

  ghost predicate RanksBelow(data: seq<Node>, rank: Id -> nat, s: seq<nat>, pid: Id)
    requires InRange(data, s)
  {
    forall k :: 0 <= k < |s| ==> rank(data[s[k]].id) < rank(pid)
  }

  lemma ScanInRange(data: seq<Node>, rank: Id -> nat, pid: Id, i: nat)
    requires Ranked(data, rank) && i <= |data|
    ensures InRange(data, Scan(data, rank, pid, i))
    ensures RanksBelow(data, rank, Scan(data, rank, pid, i), pid)
  {
    var s := Scan(data, rank, pid, i);
    forall k | 0 <= k < |s| ensures s[k] < |data| {
      var p := ScanIsBelow(data, rank, pid, i, s[k]);
    }
    forall k | 0 <= k < |s| ensures rank(data[s[k]].id) < rank(pid) {
      var p := ScanIsBelow(data, rank, pid, i, s[k]);
      PathRank(data, rank, pid, p);
    }
  }

  ghost function ScanRows(data: seq<Node>, rank: Id -> nat, pid: Id, i: nat): seq<Row>
    requires Ranked(data, rank) && i <= |data|
  {
    ScanInRange(data, rank, pid, i);
    Rows(data, Scan(data, rank, pid, i))
  }

  /** The last row becomes a parent when it is the node whose children are about to be listed. */
  function MarkLast(data: seq<Node>, m: seq<Row>, pid: Id, hasChild: bool): seq<Row>
    requires m != [] ==> m[|m| - 1].node < |data|
  {
    if hasChild && m != [] && data[m[|m| - 1].node].id == pid
    then m[..|m| - 1] + [m[|m| - 1].(isParent := true)]
    else m
  }

  predicate ChildBefore(data: seq<Node>, pid: Id, i: nat)
    requires i <= |data|
  {
    exists j :: 0 <= j < i && data[j].pid == pid
  }

  class Flattener {
    const data: seq<Node>
    var mData: seq<Row>

    constructor (data: seq<Node>)
      ensures this.data == data && mData == []
    {
      this.data, mData := data, [];
    }

    ghost predicate Valid()
      reads this
    {
      mData != [] ==> mData[|mData| - 1].node < |data|
    }

    /** The inner `sort`: appends the rows below pid, and marks the node they are below as a parent. */
    method Sort(pid: Id, ghost rank: Id -> nat)
      requires Valid() && Ranked(data, rank)
      modifies this
      ensures Valid()
      ensures mData == MarkLast(data, old(mData), pid, HasChild(data, pid)) + ScanRows(data, rank, pid, 0)
      decreases rank(pid), 1, 0
    {
      ghost var was := mData;
      ghost var done: seq<Row> := [];
      ListedStart(data, rank, pid, was);
      for i := 0 to |data|
        invariant Valid() && Listed(data, rank, pid, i, was, done, mData)
      {
        if data[i].pid == pid {
          done := NextChild(pid, i, rank, was, done);
        } else {
          ListedSkip(data, rank, pid, i, was, done, mData);
        }
      }
      ListedEnd(data, rank, pid, was, done, mData);
    }

    /** What the loop does for child i, after the rows of the children before it. */
    method NextChild(pid: Id, i: nat, ghost rank: Id -> nat, ghost was: seq<Row>, ghost done: seq<Row>)
      returns (ghost now: seq<Row>)
      requires Valid() && Ranked(data, rank) && i < |data| && data[i].pid == pid
      requires Listed(data, rank, pid, i, was, done, mData)
      modifies this
      ensures Valid() && Listed(data, rank, pid, i + 1, was, now, mData)
      decreases rank(pid), 0, 1
    {
      ghost var more := [RowOf(data, i)] + ScanRows(data, rank, data[i].id, 0);
      MarkAgain(data, was, done, pid, ChildBefore(data, pid, i));
      AddChild(pid, i, rank);
      now := done + more;
      Assoc(MarkLast(data, was, pid, true), done, more);
      ListedPush(data, rank, pid, i, was, done, mData);
    }

    /** Marking the parent row, pushing child i, and listing what is below it. */
    method AddChild(pid: Id, i: nat, ghost rank: Id -> nat)
      requires Valid() && Ranked(data, rank) && i < |data| && data[i].pid == pid
      modifies this
      ensures Valid()
      ensures mData == MarkLast(data, old(mData), pid, true) + ([RowOf(data, i)] + ScanRows(data, rank, data[i].id, 0))
      decreases rank(pid), 0, 0
    {
      var len := |mData|;
      if len > 0 && data[mData[len - 1].node].id == pid {
        mData := mData[..len - 1] + [mData[len - 1].(isParent := true)];
      }
      ghost var marked := mData;
      SortedChild(data, marked, i);
      mData := mData + [Row(i, false)];
      Sort(data[i].id, rank);
      Assoc(marked, [RowOf(data, i)], ScanRows(data, rank, data[i].id, 0));
    }
  }

  /** How far `Sort` has come before child i: the rows it has added are `done`, and those still to come
      are those below pid from i on. */
  ghost predicate Listed(data: seq<Node>, rank: Id -> nat, pid: Id, i: nat, was: seq<Row>, done: seq<Row>, m: seq<Row>)
    requires Ranked(data, rank) && i <= |data|
  {
    && (was != [] ==> was[|was| - 1].node < |data|)
    && NoneIs(data, done, pid)
    && done + ScanRows(data, rank, pid, i) == ScanRows(data, rank, pid, 0)
    && (done == [] <==> !ChildBefore(data, pid, i))
    && m == MarkLast(data, was, pid, ChildBefore(data, pid, i)) + done
  }

  lemma ListedStart(data: seq<Node>, rank: Id -> nat, pid: Id, m: seq<Row>)
    requires Ranked(data, rank) && (m != [] ==> m[|m| - 1].node < |data|)
    ensures Listed(data, rank, pid, 0, m, [], m)
  {
  }

  lemma ListedSkip(data: seq<Node>, rank: Id -> nat, pid: Id, i: nat, was: seq<Row>, done: seq<Row>, m: seq<Row>)
    requires Ranked(data, rank) && i < |data| && data[i].pid != pid && Listed(data, rank, pid, i, was, done, m)
    ensures Listed(data, rank, pid, i + 1, was, done, m)
  {
    ScanRowsStep(data, rank, pid, i);
    ChildBeforeStep(data, pid, i);
  }

  lemma ListedPush(data: seq<Node>, rank: Id -> nat, pid: Id, i: nat, was: seq<Row>, done: seq<Row>, m: seq<Row>)
    requires Ranked(data, rank) && i < |data| && data[i].pid == pid
    requires (was != [] ==> was[|was| - 1].node < |data|) && NoneIs(data, done, pid)
    requires done + ScanRows(data, rank, pid, i) == ScanRows(data, rank, pid, 0)
    requires m == MarkLast(data, was, pid, true) + (done + ([RowOf(data, i)] + ScanRows(data, rank, data[i].id, 0)))
    ensures var now := done + ([RowOf(data, i)] + ScanRows(data, rank, data[i].id, 0));
      Listed(data, rank, pid, i + 1, was, now, m) && (m != [] ==> m[|m| - 1].node < |data|)
  {
    var more := [RowOf(data, i)] + ScanRows(data, rank, data[i].id, 0);
    ScanRowsStep(data, rank, pid, i);
    ChildBeforeStep(data, pid, i);
    Assoc(done, more, ScanRows(data, rank, pid, i + 1));
    ChildRowsAreOthers(data, rank, pid, i);
    NoneInBoth(data, done, more, pid);
    var now := done + more;
    assert m[|m| - 1] == now[|now| - 1];
  }

  lemma ListedEnd(data: seq<Node>, rank: Id -> nat, pid: Id, was: seq<Row>, done: seq<Row>, m: seq<Row>)
    requires Ranked(data, rank) && Listed(data, rank, pid, |data|, was, done, m)
    ensures m == MarkLast(data, was, pid, HasChild(data, pid)) + ScanRows(data, rank, pid, 0)
  {
    assert ScanRows(data, rank, pid, |data|) == [];
    assert done + [] == done;
    assert ChildBefore(data, pid, |data|) <==> HasChild(data, pid);
  }

  ghost predicate NoneIs(data: seq<Node>, rows: seq<Row>, id: Id) {
    forall k :: 0 <= k < |rows| ==> rows[k].node < |data| && data[rows[k].node].id != id
  }

  lemma NoneInBoth(data: seq<Node>, a: seq<Row>, b: seq<Row>, id: Id)
    requires NoneIs(data, a, id) && NoneIs(data, b, id)
    ensures NoneIs(data, a + b, id)
  {
  }

  lemma ChildBeforeStep(data: seq<Node>, pid: Id, i: nat)
    requires i < |data|
    ensures ChildBefore(data, pid, i + 1) <==> ChildBefore(data, pid, i) || data[i].pid == pid
  {
  }

  lemma MarkAgain(data: seq<Node>, m: seq<Row>, done: seq<Row>, pid: Id, before: bool)
    requires m != [] ==> m[|m| - 1].node < |data|
    requires NoneIs(data, done, pid) && (done == [] <==> !before)
    ensures var now := MarkLast(data, m, pid, before) + done;
      && (now != [] ==> now[|now| - 1].node < |data|)
      && MarkLast(data, now, pid, true) == MarkLast(data, m, pid, true) + done
  {
    var now := MarkLast(data, m, pid, before) + done;
    if done != [] {
      assert now[|now| - 1] == done[|done| - 1];
    } else {
      assert now == m;
      assert MarkLast(data, m, pid, true) + done == MarkLast(data, m, pid, true);
    }
  }

  lemma ChildRowsAreOthers(data: seq<Node>, rank: Id -> nat, pid: Id, i: nat)
    requires Ranked(data, rank) && i < |data| && data[i].pid == pid
    ensures NoneIs(data, [RowOf(data, i)] + ScanRows(data, rank, data[i].id, 0), pid)
  {
    var s := Scan(data, rank, data[i].id, 0);
    ScanInRange(data, rank, data[i].id, 0);
    var rows := [RowOf(data, i)] + ScanRows(data, rank, data[i].id, 0);
    forall k | 0 <= k < |rows| ensures rows[k].node < |data| && data[rows[k].node].id != pid {
      if k > 0 {
        assert rows[k] == RowOf(data, s[k - 1]);
        assert rank(data[s[k - 1]].id) < rank(data[i].id);
      }
    }
  }

  lemma SortedChild(data: seq<Node>, m: seq<Row>, i: nat)
    requires i < |data|
    ensures MarkLast(data, m + [Row(i, false)], data[i].id, HasChild(data, data[i].id)) == m + [RowOf(data, i)]
  {
    var pushed := m + [Row(i, false)];
    assert pushed[..|pushed| - 1] == m;
  }

  lemma ScanRowsStep(data: seq<Node>, rank: Id -> nat, pid: Id, i: nat)
    requires Ranked(data, rank) && i < |data|
    ensures ScanRows(data, rank, pid, i) ==
            if data[i].pid == pid
            then ([RowOf(data, i)] + ScanRows(data, rank, data[i].id, 0)) + ScanRows(data, rank, pid, i + 1)
            else ScanRows(data, rank, pid, i + 1)
  {
  }

  // ---------------------------------------------------------------- indentation

  /** The first row with the given id, or the number of rows. */
  function FindId(data: seq<Node>, id: Id, i: nat): nat
    requires i <= |data|
    decreases |data| - i
  {
    if i == |data| || data[i].id == id then i else FindId(data, id, i + 1)
  }

  lemma {:induction false} FindIdIs(data: seq<Node>, id: Id, i: nat, x: nat)
    requires DistinctIds(data) && i <= x < |data| && data[x].id == id
    ensures FindId(data, id, i) == x
    decreases |data| - i
  {
    if data[i].id != id {
      FindIdIs(data, id, i + 1, x);
    }
  }

  lemma {:induction false} FindIdNone(data: seq<Node>, id: Id, i: nat)
    requires i <= |data| && forall j :: 0 <= j < |data| ==> data[j].id != id
    ensures FindId(data, id, i) == |data|
    decreases |data| - i
  {
    if i < |data| {
      FindIdNone(data, id, i + 1);
    }
  }

  lemma {:induction false} FindIdBound(data: seq<Node>, id: Id, i: nat)
    requires i <= |data|
    ensures i <= FindId(data, id, i) <= |data|
    ensures FindId(data, id, i) < |data| ==> data[FindId(data, id, i)].id == id
    decreases |data| - i
  {
    if i < |data| && data[i].id != id {
      FindIdBound(data, id, i + 1);
    }
  }

  ghost predicate RanksUpTo(data: seq<Node>, rank: Id -> nat, top: nat) {
    forall i :: 0 <= i < |data| ==> rank(data[i].pid) <= top
  }

  /** How many ancestors getEmptyNum counts from a parent id upwards. */
  ghost function EmptyNum(data: seq<Node>, rank: Id -> nat, top: nat, pid: Id): nat
    requires Ranked(data, rank) && RanksUpTo(data, rank, top)
    decreases if pid != 0 && FindId(data, pid, 0) < |data| then top + 1 - rank(pid) else 0
  {
    FindIdBound(data, pid, 0);
    var i := FindId(data, pid, 0);
    if pid == 0 || i == |data| then 0 else 1 + EmptyNum(data, rank, top, data[i].pid)
  }

  method GetEmptyNum(data: seq<Node>, pid: Id, ghost rank: Id -> nat, ghost top: nat) returns (num: nat)
    requires Ranked(data, rank) && RanksUpTo(data, rank, top)
    ensures num == EmptyNum(data, rank, top, pid)
    decreases if pid != 0 && FindId(data, pid, 0) < |data| then top + 1 - rank(pid) else 0, if pid == 0 then 0 else 1
  {
    num := 0;
    if pid == 0 {
      return;
    }
    var tPid := 0;
    var i := 0;
    FindIdBound(data, pid, 0);
    while i < |data|
      invariant 0 <= i <= |data| && num == 0 && tPid == 0
      invariant FindId(data, pid, 0) == FindId(data, pid, i)
    {
      if pid == data[i].id {
        num := num + 1;
        tPid := data[i].pid;
        break;
      }
      i := i + 1;
    }
    assert i == FindId(data, pid, 0);
    var rest := GetEmptyNum(data, tPid, rank, top);
    num := num + rest;
  }

  /** In a list of nodes that does not hold the root, the count from a node's parent up is the node's
      depth exactly when no ancestor has an id that counts as false. */
  lemma {:induction false} DepthInList(list: seq<Node>, rank: Id -> nat, top: nat, root: Id, p: seq<nat>)
    requires DistinctIds(list) && Ranked(list, rank) && RanksUpTo(list, rank, top) && IsPath(list, root, p)
    requires forall i :: 0 <= i < |list| ==> list[i].id != root
    ensures EmptyNum(list, rank, top, list[Last(p)].pid) <= |p| - 1
    ensures EmptyNum(list, rank, top, list[Last(p)].pid) == |p| - 1 <==>
            forall k :: 0 <= k < |p| - 1 ==> list[p[k]].id != 0
    decreases |p|
  {
    if |p| == 1 {
      FindIdNone(list, root, 0);
    } else {
      var q := p[..|p| - 1];
      DepthInList(list, rank, top, root, q);
      FindIdIs(list, list[Last(p)].pid, 0, Last(q));
      assert Last(q) == p[|p| - 2];
    }
  }

  /** The flattened nodes, over which the indentation is counted. */
  ghost function FlatNodes(data: seq<Node>, rank: Id -> nat, root: Id): (list: seq<Node>)
    requires Ranked(data, rank)
    ensures var s := Scan(data, rank, root, 0);
      |list| == |s| && InRange(data, s) && forall k :: 0 <= k < |s| ==> list[k] == data[s[k]]
    ensures Ranked(list, rank)
  {
    var s := Scan(data, rank, root, 0);
    ScanInRange(data, rank, root, 0);
    seq(|s|, k requires 0 <= k < |s| => data[s[k]])
  }

  /** Whatever the data holds, the flattened nodes have distinct ids, and none has the root's. */
  lemma FlatNodesAre(data: seq<Node>, rank: Id -> nat, top: nat, root: Id)
    requires DistinctIds(data) && Ranked(data, rank) && RanksUpTo(data, rank, top)
    ensures var list := FlatNodes(data, rank, root);
      DistinctIds(list) && RanksUpTo(list, rank, top) && forall i :: 0 <= i < |list| ==> list[i].id != root
  {
    var s, list := Scan(data, rank, root, 0), FlatNodes(data, rank, root);
    ScanOnce(data, rank, root, 0);
    ScanInRange(data, rank, root, 0);
    forall i, j | 0 <= i < j < |list| ensures list[i].id != list[j].id {
      assert s[i] != s[j];
    }
    forall i | 0 <= i < |list| ensures list[i].id != root {
      assert rank(data[s[i]].id) < rank(root);
    }
  }

  /** A path's nodes are all among the flattened ones. */
  lemma {:induction false} FlatPath(data: seq<Node>, rank: Id -> nat, root: Id, p: seq<nat>) returns (q: seq<nat>)
    requires Ranked(data, rank) && IsPath(data, root, p)
    ensures var list := FlatNodes(data, rank, root);
      IsPath(list, root, q) && |q| == |p| && forall k :: 0 <= k < |p| ==> list[q[k]] == data[p[k]]
    decreases |p|
  {
    var s, n := Scan(data, rank, root, 0), |p| - 1;
    BelowIsScanned(data, rank, root, 0, p);
    var last: nat :| last < |s| && s[last] == p[n];
    if n == 0 {
      q := [last];
    } else {
      var front := FlatPath(data, rank, root, p[..n]);
      q := front + [last];
      assert forall k :: 0 <= k < n ==> q[k] == front[k];
    }
  }

  /** A row's indentation, which getEmptyNum counts over the flattened rows, is its depth below the
      root exactly when no ancestor on the way has an id that counts as false; at the first such
      ancestor the count stops short. Nothing is assumed of the root: its own node may be in the data. */
  lemma IndentIsDepthIff(data: seq<Node>, rank: Id -> nat, top: nat, root: Id, p: seq<nat>)
    requires DistinctIds(data) && Ranked(data, rank) && RanksUpTo(data, rank, top) && IsPath(data, root, p)
    ensures var list := FlatNodes(data, rank, root);
      && RanksUpTo(list, rank, top)
      && EmptyNum(list, rank, top, data[Last(p)].pid) <= |p| - 1
      && (EmptyNum(list, rank, top, data[Last(p)].pid) == |p| - 1 <==>
          forall k :: 0 <= k < |p| - 1 ==> data[p[k]].id != 0)
  {
    FlatNodesAre(data, rank, top, root);
    var q := FlatPath(data, rank, root, p);
    DepthInList(FlatNodes(data, rank, root), rank, top, root, q);
  }
}
