/**
 The tree table's view: which directories are open and which rows are shown, as rows are clicked,
 expanded and folded. A click on a directory clicks the rows below it in turn.
 */
module TreeView {

  import TreeTable

  datatype Row = Row(id: TreeTable.Id, pid: TreeTable.Id, isDir: bool)

  /** What the flattening guarantees of its rows: one row an id, parents before their children, and a
      row is a directory if some row is its child (the converse is DirsHaveChildren). */
  ghost predicate WellFormed(rows: seq<Row>) {
    && (forall i, j :: 0 <= i < j < |rows| ==> rows[i].id != rows[j].id)
    && (forall p, x :: 0 <= p < |rows| && 0 <= x < |rows| && rows[x].pid == rows[p].id ==> p < x && rows[p].isDir)
  }

  ghost predicate DirsHaveChildren(rows: seq<Row>) {
    forall p :: 0 <= p < |rows| && rows[p].isDir ==> HasChildRow(rows, p)
  }

  ghost predicate HasChildRow(rows: seq<Row>, p: nat)
    requires p < |rows|
  {
    exists x :: 0 <= x < |rows| && rows[x].pid == rows[p].id
  }

  // ---------------------------------------------------------------- parents

  function ParentBefore(rows: seq<Row>, pid: TreeTable.Id, k: nat): (p: int)
    requires k <= |rows|
    ensures -1 <= p < k && (p >= 0 ==> rows[p].id == pid)
    ensures p < 0 ==> forall j :: 0 <= j < k ==> rows[j].id != pid
  {
    if k == 0 then -1 else if rows[k - 1].id == pid then k - 1 else ParentBefore(rows, pid, k - 1)
  }

  /** The row of a row's parent, or -1. */
  function Parent(rows: seq<Row>, x: nat): (p: int)
    requires x < |rows|
    ensures -1 <= p < x
  {
    ParentBefore(rows, rows[x].pid, x)
  }

  lemma ParentIs(rows: seq<Row>, x: nat, i: nat)
    requires WellFormed(rows) && x < |rows| && i < |rows|
    ensures Parent(rows, x) == i <==> rows[x].pid == rows[i].id
    ensures Parent(rows, x) == i ==> rows[i].isDir
  {
  }

  predicate Under(rows: seq<Row>, x: nat, r: nat)
    requires x < |rows|
    decreases x
  {
    var p := Parent(rows, x);
    p >= 0 && (p == r || Under(rows, p, r))
  }

  predicate Inside(rows: seq<Row>, x: nat, r: nat)
    requires x < |rows|
  {
    x == r || Under(rows, x, r)
  }

  /** The child of r at or above x. */
  ghost function Branch(rows: seq<Row>, x: nat, r: nat): (b: nat)
    requires x < |rows| && Under(rows, x, r)
    ensures r < b <= x && Parent(rows, b) == r && Inside(rows, x, b)
    decreases x
  {
    if Parent(rows, x) == r then x else Branch(rows, Parent(rows, x), r)
  }

  lemma {:induction false} BranchIs(rows: seq<Row>, x: nat, r: nat, c: nat)
    requires x < |rows| && c < |rows| && Parent(rows, c) == r && Inside(rows, x, c)
    ensures Under(rows, x, r) && Branch(rows, x, r) == c
    decreases x
  {
    if x != c {
      BranchIs(rows, Parent(rows, x), r, c);
      ParentOfInside(rows, x, c);
    }
  }

  lemma {:induction false} ParentOfInside(rows: seq<Row>, x: nat, r: nat)
    requires x < |rows| && Under(rows, x, r)
    ensures r < x && r <= Parent(rows, x)
    decreases x
  {
    if Parent(rows, x) != r {
      ParentOfInside(rows, Parent(rows, x), r);
    }
  }

  // ---------------------------------------------------------------- what is kept

  datatype State = State(open: seq<bool>, shown: seq<bool>)

  predicate Sized(rows: seq<Row>, s: State) {
    |s.open| == |s.shown| == |rows|
  }

  predicate AncestorsOpen(rows: seq<Row>, open: seq<bool>, x: nat)
    requires x < |rows| == |open|
    decreases x
  {
    var p := Parent(rows, x);
    p < 0 || (open[p] && AncestorsOpen(rows, open, p))
  }

  /** A row is shown exactly when all its ancestors are open. */
  ghost predicate ShownRight(rows: seq<Row>, s: State)
    requires Sized(rows, s)
  {
    match s
    case State(open, shown) => forall x :: 0 <= x < |rows| ==> shown[x] == AncestorsOpen(rows, open, x)
  }

  /** A closed directory has only closed directories below it. */
  ghost predicate ClosedDown(rows: seq<Row>, s: State)
    requires Sized(rows, s)
  {
    match s
    case State(open, _) =>
      forall r, x :: 0 <= r < |rows| && 0 <= x < |rows| && Under(rows, x, r) && !open[r] && rows[x].isDir ==> !open[x]
  }

  ghost predicate Inv(rows: seq<Row>, s: State) {
    Sized(rows, s) && ShownRight(rows, s) && ClosedDown(rows, s)
  }

  /** Below row i, the children of a closed row are hidden and closed. */
  ghost predicate Local(rows: seq<Row>, s: State, i: nat)
    requires Sized(rows, s)
  {
    forall x :: 0 <= x < |rows| && Under(rows, x, i) && !s.open[Parent(rows, x)] ==>
                !s.shown[x] && (rows[x].isDir ==> !s.open[x])
  }

  lemma {:induction false} ClosedBelow(rows: seq<Row>, s: State, i: nat, x: nat)
    requires WellFormed(rows) && Sized(rows, s) && Local(rows, s, i) && i < |rows| && !s.open[i]
    requires x < |rows| && Under(rows, x, i)
    ensures !s.shown[x] && (rows[x].isDir ==> !s.open[x])
    decreases x
  {
    var p := Parent(rows, x);
    if p != i {
      ParentIs(rows, x, p);
      ClosedBelow(rows, s, i, p);
    }
  }

  lemma InvIsLocal(rows: seq<Row>, s: State, i: nat)
    requires WellFormed(rows) && Inv(rows, s)
    ensures Local(rows, s, i)
  {
    forall x | 0 <= x < |rows| && Under(rows, x, i) && !s.open[Parent(rows, x)]
      ensures !s.shown[x] && (rows[x].isDir ==> !s.open[x])
    {
      assert Under(rows, x, Parent(rows, x));
    }
  }

  // ---------------------------------------------------------------- a click

  /** Whether row x is open after a click on row i. */
  predicate OpenAfter(rows: seq<Row>, linkage: bool, s: State, i: nat, x: nat)
    requires Sized(rows, s) && i < |rows| && x < |rows|
  {
    if !rows[i].isDir then s.open[x]
    else if x == i then !s.open[i]
    else if Under(rows, x, i) && rows[x].isDir && (s.open[i] || linkage) then !s.open[i]
    else s.open[x]
  }

  /** Whether row x is shown after a click on row i. */
  predicate ShownAfter(rows: seq<Row>, linkage: bool, s: State, i: nat, x: nat)
    requires Sized(rows, s) && i < |rows| && x < |rows|
  {
    if !rows[i].isDir || !Under(rows, x, i) then s.shown[x]
    else if s.open[i] then false
    else s.shown[x] || linkage || Parent(rows, x) == i
  }

  /** A click closes a directory with everything below it, and opens it alone, or with everything below
      it when linkage is on. */
  function Clicked(rows: seq<Row>, linkage: bool, s: State, i: nat): (t: State)
    requires Sized(rows, s) && i < |rows|
    ensures Sized(rows, t)
    ensures forall x :: 0 <= x < |rows| ==>
              t.open[x] == OpenAfter(rows, linkage, s, i, x) && t.shown[x] == ShownAfter(rows, linkage, s, i, x)
  {
    State(seq(|rows|, x requires 0 <= x < |rows| => OpenAfter(rows, linkage, s, i, x)),
          seq(|rows|, x requires 0 <= x < |rows| => ShownAfter(rows, linkage, s, i, x)))
  }

  /** Whether the click on directory i is done with row x once the branches before row j are done. */
  ghost predicate DoneWith(rows: seq<Row>, i: nat, j: nat, x: nat)
    requires x < |rows|
  {
    x == i || (Under(rows, x, i) && Branch(rows, x, i) < j)
  }

  /** The state in the middle of a click on directory i: the branches before row j are done. */
  ghost function Midway(rows: seq<Row>, linkage: bool, s: State, i: nat, j: nat): (t: State)
    requires Sized(rows, s) && i < |rows|
    ensures Sized(rows, t)
    ensures forall x :: 0 <= x < |rows| ==>
              t.open[x] == (if DoneWith(rows, i, j, x) then OpenAfter(rows, linkage, s, i, x) else s.open[x])
    ensures forall x :: 0 <= x < |rows| ==>
              t.shown[x] == (if DoneWith(rows, i, j, x) then ShownAfter(rows, linkage, s, i, x) else s.shown[x])
  {
    State(seq(|rows|, x requires 0 <= x < |rows| =>
                if DoneWith(rows, i, j, x) then OpenAfter(rows, linkage, s, i, x) else s.open[x]),
          seq(|rows|, x requires 0 <= x < |rows| =>
                if DoneWith(rows, i, j, x) then ShownAfter(rows, linkage, s, i, x) else s.shown[x]))
  }

  lemma Extensional(rows: seq<Row>, s: State, t: State)
    requires Sized(rows, s) && Sized(rows, t)
    requires forall x :: 0 <= x < |rows| ==> s.open[x] == t.open[x] && s.shown[x] == t.shown[x]
    ensures s == t
  {
    assert s.open == t.open && s.shown == t.shown;
  }

  /** Row j is no child of i: nothing is done. */
  lemma MidwaySkip(rows: seq<Row>, linkage: bool, s: State, i: nat, j: nat, t: State)
    requires WellFormed(rows) && Sized(rows, s) && i < |rows| && j < |rows|
    requires t == Midway(rows, linkage, s, i, j) && Parent(rows, j) != i
    ensures t == Midway(rows, linkage, s, i, j + 1)
  {
    var u := Midway(rows, linkage, s, i, j + 1);
    forall x | 0 <= x < |rows| ensures t.open[x] == u.open[x] && t.shown[x] == u.shown[x] {
      assert DoneWith(rows, i, j + 1, x) == DoneWith(rows, i, j, x);
    }
    Extensional(rows, t, u);
  }

  /** Row j is a child of i: its branch is done, and nothing else. */
  lemma MidwayPush(rows: seq<Row>, linkage: bool, s: State, i: nat, j: nat, t: State, u: State)
    requires WellFormed(rows) && Sized(rows, s) && Sized(rows, u) && i < |rows| && j < |rows|
    requires t == Midway(rows, linkage, s, i, j) && Parent(rows, j) == i
    requires forall x :: 0 <= x < |rows| && !Inside(rows, x, j) ==> u.open[x] == t.open[x] && u.shown[x] == t.shown[x]
    requires forall x :: 0 <= x < |rows| && Inside(rows, x, j) ==>
               u.open[x] == OpenAfter(rows, linkage, s, i, x) && u.shown[x] == ShownAfter(rows, linkage, s, i, x)
    ensures u == Midway(rows, linkage, s, i, j + 1)
  {
    var v := Midway(rows, linkage, s, i, j + 1);
    forall x | 0 <= x < |rows| ensures u.open[x] == v.open[x] && u.shown[x] == v.shown[x] {
      if Inside(rows, x, j) {
        BranchIs(rows, x, i, j);
        assert DoneWith(rows, i, j + 1, x);
      } else {
        assert DoneWith(rows, i, j + 1, x) == DoneWith(rows, i, j, x);
      }
    }
    Extensional(rows, u, v);
  }

  /** Inside a branch that is still to do, nothing has changed. */
  lemma BranchUntouched(rows: seq<Row>, linkage: bool, s: State, i: nat, j: nat, t: State, x: nat)
    requires Sized(rows, s) && i < |rows| && j < |rows| && x < |rows|
    requires t == Midway(rows, linkage, s, i, j) && Parent(rows, j) == i && Inside(rows, x, j)
    ensures t.open[x] == s.open[x] && t.shown[x] == s.shown[x]
    ensures Under(rows, x, i) && x != i && (x != j ==> Parent(rows, x) != i)
  {
    BranchIs(rows, x, i, j);
    ParentOfInside(rows, x, i);
    if x != j {
      ParentOfInside(rows, x, j);
    }
    assert !DoneWith(rows, i, j, x);
  }

  lemma BranchLocal(rows: seq<Row>, linkage: bool, s: State, i: nat, j: nat, t: State, u: State)
    requires WellFormed(rows) && Sized(rows, s) && i < |rows| && j < |rows| && Local(rows, s, i)
    requires t == Midway(rows, linkage, s, i, j) && Parent(rows, j) == i
    requires u.open == t.open && Sized(rows, u) && forall x :: 0 <= x < |rows| && x != j ==> u.shown[x] == t.shown[x]
    ensures Local(rows, u, j)
  {
    forall x | 0 <= x < |rows| && Under(rows, x, j) && !u.open[Parent(rows, x)]
      ensures !u.shown[x] && (rows[x].isDir ==> !u.open[x])
    {
      ParentOfInside(rows, x, j);
      BranchUntouched(rows, linkage, s, i, j, t, x);
      BranchUntouched(rows, linkage, s, i, j, t, Parent(rows, x));
    }
  }

  /** Child j is not clicked, so its branch is as it should be once j itself is hidden or shown. */
  lemma MidwayAlone(rows: seq<Row>, linkage: bool, s: State, i: nat, j: nat, t: State, u: State)
    requires WellFormed(rows) && Sized(rows, s) && i < |rows| && j < |rows| && Local(rows, s, i) && rows[i].isDir
    requires t == Midway(rows, linkage, s, i, j) && Parent(rows, j) == i
    requires u == t.(shown := t.shown[j := !s.open[i]])
    requires !rows[j].isDir || (if s.open[i] then !t.open[j] else !linkage || t.open[j])
    ensures u == Midway(rows, linkage, s, i, j + 1)
  {
    forall x | 0 <= x < |rows| && Inside(rows, x, j)
      ensures u.open[x] == OpenAfter(rows, linkage, s, i, x) && u.shown[x] == ShownAfter(rows, linkage, s, i, x)
    {
      BranchUntouched(rows, linkage, s, i, j, t, x);
      BranchUntouched(rows, linkage, s, i, j, t, j);
      if !rows[j].isDir {
        FileIsLeaf(rows, x, j);
      } else if s.open[i] {
        if x != j {
          BranchLocal(rows, linkage, s, i, j, t, u);
          ClosedBelow(rows, u, j, x);
        }
      } else {
        ClosedBelow(rows, s, i, j);
      }
    }
    MidwayPush(rows, linkage, s, i, j, t, u);
  }

  lemma {:induction false} FileIsLeaf(rows: seq<Row>, x: nat, j: nat)
    requires WellFormed(rows) && x < |rows| && j < |rows| && !rows[j].isDir
    ensures !Under(rows, x, j)
    decreases x
  {
    var p := Parent(rows, x);
    ParentIs(rows, x, j);
    if p >= 0 {
      FileIsLeaf(rows, p, j);
    }
  }

  /** Child j is clicked in turn. */
  lemma MidwayClicked(rows: seq<Row>, linkage: bool, s: State, i: nat, j: nat, t: State, u: State)
    requires WellFormed(rows) && Sized(rows, s) && i < |rows| && j < |rows| && Local(rows, s, i) && rows[i].isDir
    requires t == Midway(rows, linkage, s, i, j) && Parent(rows, j) == i && rows[j].isDir
    requires t.open[j] == s.open[i] && (s.open[i] || linkage)
    requires u == Clicked(rows, linkage, t.(shown := t.shown[j := !s.open[i]]), j)
    ensures u == Midway(rows, linkage, s, i, j + 1)
  {
    var v := t.(shown := t.shown[j := !s.open[i]]);
    ParentOfInside(rows, j, i);
    assert !Under(rows, j, j) by {
      if Under(rows, j, j) {
        ParentOfInside(rows, j, j);
      }
    }
    forall x | 0 <= x < |rows| && Inside(rows, x, j)
      ensures u.open[x] == OpenAfter(rows, linkage, s, i, x) && u.shown[x] == ShownAfter(rows, linkage, s, i, x)
    {
      BranchUntouched(rows, linkage, s, i, j, t, x);
      assert u.open[x] == OpenAfter(rows, linkage, v, j, x) && u.shown[x] == ShownAfter(rows, linkage, v, j, x);
    }
    forall x | 0 <= x < |rows| && !Inside(rows, x, j) ensures u.open[x] == t.open[x] && u.shown[x] == t.shown[x] {
      assert u.open[x] == OpenAfter(rows, linkage, v, j, x) && u.shown[x] == ShownAfter(rows, linkage, v, j, x);
    }
    MidwayPush(rows, linkage, s, i, j, t, u);
  }

  lemma MidwayStart(rows: seq<Row>, linkage: bool, s: State, i: nat, t: State)
    requires Sized(rows, s) && i < |rows| && rows[i].isDir && t == s.(open := s.open[i := !s.open[i]])
    ensures t == Midway(rows, linkage, s, i, 0)
  {
    assert !Under(rows, i, i) by {
      if Under(rows, i, i) {
        ParentOfInside(rows, i, i);
      }
    }
    var m := Midway(rows, linkage, s, i, 0);
    forall x | 0 <= x < |rows| ensures t.open[x] == m.open[x] && t.shown[x] == m.shown[x] {
      assert DoneWith(rows, i, 0, x) == (x == i);
    }
    Extensional(rows, t, m);
  }

  lemma MidwayEnd(rows: seq<Row>, linkage: bool, s: State, i: nat, t: State)
    requires Sized(rows, s) && i < |rows| && rows[i].isDir && t == Midway(rows, linkage, s, i, |rows|)
    ensures t == Clicked(rows, linkage, s, i)
  {
    var c := Clicked(rows, linkage, s, i);
    forall x | 0 <= x < |rows| ensures t.open[x] == c.open[x] && t.shown[x] == c.shown[x] {
      assert DoneWith(rows, i, |rows|, x) == Inside(rows, x, i);
    }
    Extensional(rows, t, c);
  }

  lemma FileClicked(rows: seq<Row>, linkage: bool, s: State, i: nat)
    requires Sized(rows, s) && i < |rows| && !rows[i].isDir
    ensures Clicked(rows, linkage, s, i) == s
  {
    Extensional(rows, s, Clicked(rows, linkage, s, i));
  }

  // ---------------------------------------------------------------- what a click keeps

  lemma {:induction false} UnderTrans(rows: seq<Row>, x: nat, c: nat, r: nat)
    requires x < |rows| && c < |rows| && Under(rows, x, c) && Inside(rows, c, r)
    ensures Under(rows, x, r)
    decreases x
  {
    if Parent(rows, x) != c {
      UnderTrans(rows, Parent(rows, x), c, r);
    }
  }

  /** Two rows above one row are above one another. */
  lemma {:induction false} UnderBoth(rows: seq<Row>, x: nat, c: nat, r: nat)
    requires x < |rows| && Inside(rows, x, c) && Under(rows, x, r)
    ensures r < |rows| && c < |rows| && (Inside(rows, r, c) || Under(rows, c, r))
    decreases x
  {
    ParentOfInside(rows, x, r);
    if x != c {
      ParentOfInside(rows, x, c);
      if Parent(rows, x) != r {
        UnderBoth(rows, Parent(rows, x), c, r);
      }
    }
  }

  lemma {:induction false} AncestorsAreDirs(rows: seq<Row>, x: nat, r: nat)
    requires WellFormed(rows) && x < |rows| && r < |rows| && Under(rows, x, r)
    ensures rows[r].isDir
    decreases x
  {
    ParentIs(rows, x, Parent(rows, x));
    if Parent(rows, x) != r {
      AncestorsAreDirs(rows, Parent(rows, x), r);
    }
  }

  lemma {:induction false} AncestorsOpenMeans(rows: seq<Row>, open: seq<bool>, x: nat, r: nat)
    requires x < |rows| == |open| && r < |rows| && Under(rows, x, r) && AncestorsOpen(rows, open, x)
    ensures open[r]
    decreases x
  {
    if Parent(rows, x) != r {
      AncestorsOpenMeans(rows, open, Parent(rows, x), r);
    }
  }

  lemma {:induction false} HiddenHasClosedAncestor(rows: seq<Row>, open: seq<bool>, x: nat) returns (r: nat)
    requires x < |rows| == |open| && !AncestorsOpen(rows, open, x)
    ensures r < |rows| && Under(rows, x, r) && !open[r]
    decreases x
  {
    r := Parent(rows, x);
    if open[r] {
      var p := r;
      r := HiddenHasClosedAncestor(rows, open, p);
      UnderTrans(rows, x, p, r);
    }
  }

  lemma NotUnderItself(rows: seq<Row>, i: nat)
    requires i < |rows|
    ensures !Under(rows, i, i)
  {
    if Under(rows, i, i) {
      ParentOfInside(rows, i, i);
    }
  }

  lemma {:induction false} ClickShowsRight(rows: seq<Row>, linkage: bool, s: State, i: nat, x: nat)
    requires WellFormed(rows) && Inv(rows, s) && i < |rows| && x < |rows| && rows[i].isDir && s.shown[i]
    ensures var t := Clicked(rows, linkage, s, i); t.shown[x] == AncestorsOpen(rows, t.open, x)
    decreases x
  {
    var t, p := Clicked(rows, linkage, s, i), Parent(rows, x);
    NotUnderItself(rows, i);
    if p >= 0 {
      ClickShowsRight(rows, linkage, s, i, p);
      ParentIs(rows, x, p);
      assert s.shown[x] == (s.open[p] && s.shown[p]);
      if Under(rows, x, i) && p != i && !s.open[i] {
        assert Under(rows, p, i) && !s.open[p];
      }
    }
  }

  lemma ClickClosesDown(rows: seq<Row>, linkage: bool, s: State, i: nat, r: nat, x: nat)
    requires WellFormed(rows) && Inv(rows, s) && i < |rows| && rows[i].isDir && s.shown[i]
    requires r < |rows| && x < |rows| && Under(rows, x, r) && rows[x].isDir
    requires var t := Clicked(rows, linkage, s, i); t.open[x]
    ensures var t := Clicked(rows, linkage, s, i); t.open[r]
  {
    NotUnderItself(rows, i);
    AncestorsAreDirs(rows, x, r);
    if Inside(rows, r, i) {
      UnderTrans(rows, x, r, i);
      assert Under(rows, x, i);
    } else if Inside(rows, x, i) {
      UnderBoth(rows, x, i, r);
      assert AncestorsOpen(rows, s.open, i);
      AncestorsOpenMeans(rows, s.open, i, r);
    } else {
      assert s.open[x];
    }
  }

  /** A click keeps the view right exactly when it is on a shown row, or on no directory at all. */
  lemma ClickKeepsIff(rows: seq<Row>, linkage: bool, s: State, i: nat)
    requires WellFormed(rows) && Inv(rows, s) && i < |rows|
    ensures s.shown[i] || !rows[i].isDir ==> Inv(rows, Clicked(rows, linkage, s, i))
    ensures DirsHaveChildren(rows) ==> (Inv(rows, Clicked(rows, linkage, s, i)) <==> s.shown[i] || !rows[i].isDir)
  {
    var t := Clicked(rows, linkage, s, i);
    if !rows[i].isDir {
      FileClicked(rows, linkage, s, i);
    } else if s.shown[i] {
      forall x | 0 <= x < |rows| ensures t.shown[x] == AncestorsOpen(rows, t.open, x) {
        ClickShowsRight(rows, linkage, s, i, x);
      }
      forall r, x | 0 <= r < |rows| && 0 <= x < |rows| && Under(rows, x, r) && !t.open[r] && rows[x].isDir
        ensures !t.open[x]
      {
        if t.open[x] {
          ClickClosesDown(rows, linkage, s, i, r, x);
        }
      }
    } else if DirsHaveChildren(rows) {
      var r := HiddenHasClosedAncestor(rows, s.open, i);
      assert !s.open[i];
      var x :| 0 <= x < |rows| && rows[x].pid == rows[i].id;
      ParentIs(rows, x, i);
      NotUnderItself(rows, i);
      assert Under(rows, x, i) && t.shown[x] && !t.shown[i];
    }
  }

  // ---------------------------------------------------------------- expanding and folding

  /** What a sweep does at row k. */
  function SweepRow(rows: seq<Row>, linkage: bool, t: State, want: bool, k: nat): (u: State)
    requires Sized(rows, t) && k < |rows|
    ensures Sized(rows, u)
  {
    if rows[k].isDir && t.open[k] != want then Clicked(rows, linkage, t, k) else t
  }

  /** The first k rows have been visited by `expandAll` (want is true) or `foldAll` (want is false): each
      directory that is not as wanted has been clicked. */
  function Swept(rows: seq<Row>, linkage: bool, s: State, want: bool, k: nat): (t: State)
    requires Sized(rows, s) && k <= |rows|
    ensures Sized(rows, t)
    decreases k
  {
    if k == 0 then s else SweepRow(rows, linkage, Swept(rows, linkage, s, want, k - 1), want, k - 1)
  }

  ghost predicate SweptTo(rows: seq<Row>, s: State, want: bool, k: nat, t: State) {
    && Sized(rows, s) && Inv(rows, t)
    && (forall x :: 0 <= x < k && x < |rows| && rows[x].isDir ==> t.open[x] == want)
    && (forall x :: 0 <= x < |rows| && !rows[x].isDir ==> t.open[x] == s.open[x])
  }

  /** When the sweep comes to a row that it clicks, that row is shown. */
  lemma SweepClicksShown(rows: seq<Row>, s: State, want: bool, k: nat, t: State)
    requires WellFormed(rows) && k < |rows| && SweptTo(rows, s, want, k, t)
    requires rows[k].isDir && t.open[k] != want
    ensures t.shown[k]
  {
    if !t.shown[k] {
      var r := HiddenHasClosedAncestor(rows, t.open, k);
      ParentOfInside(rows, k, r);
      AncestorsAreDirs(rows, k, r);
    }
  }

  lemma SweptStep(rows: seq<Row>, linkage: bool, s: State, want: bool, k: nat, t: State, u: State)
    requires WellFormed(rows) && k < |rows| && SweptTo(rows, s, want, k, t)
    requires u == SweepRow(rows, linkage, t, want, k)
    ensures SweptTo(rows, s, want, k + 1, u)
  {
    if rows[k].isDir && t.open[k] != want {
      SweepClicksShown(rows, s, want, k, t);
      ClickKeepsIff(rows, linkage, t, k);
      forall x | 0 <= x < k + 1 && rows[x].isDir ensures u.open[x] == want {
        assert u.open[x] == OpenAfter(rows, linkage, t, k, x);
      }
    }
  }

  lemma SweptUnfold(rows: seq<Row>, linkage: bool, s: State, want: bool, k: nat)
    requires Sized(rows, s) && 0 < k <= |rows|
    ensures Swept(rows, linkage, s, want, k) ==
            SweepRow(rows, linkage, Swept(rows, linkage, s, want, k - 1), want, k - 1)
  {
  }

  lemma SweptNone(rows: seq<Row>, linkage: bool, s: State, want: bool)
    requires Inv(rows, s)
    ensures SweptTo(rows, s, want, 0, Swept(rows, linkage, s, want, 0))
  {
  }

  lemma {:induction false} SweptSoFar(rows: seq<Row>, linkage: bool, s: State, want: bool, k: nat)
    requires WellFormed(rows) && Inv(rows, s) && k <= |rows|
    ensures SweptTo(rows, s, want, k, Swept(rows, linkage, s, want, k))
    decreases k
  {
    if k == 0 {
      SweptNone(rows, linkage, s, want);
    } else {
      SweptUnfold(rows, linkage, s, want, k);
      SweptSoFar(rows, linkage, s, want, k - 1);
      SweptStep(rows, linkage, s, want, k - 1,
                Swept(rows, linkage, s, want, k - 1), Swept(rows, linkage, s, want, k));
    }
  }

  lemma SweptNext(rows: seq<Row>, linkage: bool, s: State, want: bool, k: nat)
    requires WellFormed(rows) && Inv(rows, s) && k < |rows|
    ensures Inv(rows, Swept(rows, linkage, s, want, k + 1))
    ensures Swept(rows, linkage, s, want, k + 1) == SweepRow(rows, linkage, Swept(rows, linkage, s, want, k), want, k)
  {
    SweptUnfold(rows, linkage, s, want, k + 1);
    SweptSoFar(rows, linkage, s, want, k + 1);
  }

  /** Expanding opens every directory and shows every row, whatever the linkage; folding closes every
      directory and shows only the rows without a parent. */
  lemma SweptAll(rows: seq<Row>, linkage: bool, s: State, want: bool)
    requires WellFormed(rows) && Inv(rows, s)
    ensures var t := Swept(rows, linkage, s, want, |rows|);
      && Inv(rows, t)
      && (forall x :: 0 <= x < |rows| ==> t.open[x] == if rows[x].isDir then want else s.open[x])
      && (forall x :: 0 <= x < |rows| ==> t.shown[x] == (want || Parent(rows, x) < 0))
  {
    SweptSoFar(rows, linkage, s, want, |rows|);
    var t := Swept(rows, linkage, s, want, |rows|);
    forall x | 0 <= x < |rows| ensures t.shown[x] == (want || Parent(rows, x) < 0) {
      if !t.shown[x] {
        var r := HiddenHasClosedAncestor(rows, t.open, x);
        AncestorsAreDirs(rows, x, r);
      } else if Parent(rows, x) >= 0 {
        ParentIs(rows, x, Parent(rows, x));
        assert AncestorsOpen(rows, t.open, x);
      }
    }
  }

  // ---------------------------------------------------------------- runs

  datatype Event = Click(i: nat) | ExpandAll | FoldAll

  function Step(rows: seq<Row>, linkage: bool, s: State, e: Event): (t: State)
    requires Sized(rows, s) && (e.Click? ==> e.i < |rows|)
    ensures Sized(rows, t)
  {
    match e
    case Click(i) => Clicked(rows, linkage, s, i)
    case ExpandAll => Swept(rows, linkage, s, true, |rows|)
    case FoldAll => Swept(rows, linkage, s, false, |rows|)
  }

  /** A user can click what is shown. */
  predicate Enabled(rows: seq<Row>, s: State, e: Event)
    requires Sized(rows, s)
  {
    e.Click? ==> e.i < |rows| && s.shown[e.i]
  }

  predicate Run(rows: seq<Row>, linkage: bool, s: State, events: seq<Event>)
    requires Sized(rows, s)
    decreases |events|
  {
    events != [] ==> Enabled(rows, s, events[0]) && Run(rows, linkage, Step(rows, linkage, s, events[0]), events[1..])
  }

  function End(rows: seq<Row>, linkage: bool, s: State, events: seq<Event>): (t: State)
    requires Sized(rows, s) && Run(rows, linkage, s, events)
    ensures Sized(rows, t)
    decreases |events|
  {
    if events == [] then s else End(rows, linkage, Step(rows, linkage, s, events[0]), events[1..])
  }

  lemma StepKeeps(rows: seq<Row>, linkage: bool, s: State, e: Event)
    requires WellFormed(rows) && Inv(rows, s) && Enabled(rows, s, e)
    ensures Inv(rows, Step(rows, linkage, s, e))
  {
    match e
    case Click(i) => ClickKeepsIff(rows, linkage, s, i);
    case ExpandAll => SweptAll(rows, linkage, s, true);
    case FoldAll => SweptAll(rows, linkage, s, false);
  }

  /** Along every run of clicks on shown rows, expandings and foldings, a row is shown exactly when all
      its ancestors are open, and everything below a closed directory is closed. */
  lemma {:induction false} RunKeeps(rows: seq<Row>, linkage: bool, s: State, events: seq<Event>)
    requires WellFormed(rows) && Inv(rows, s) && Run(rows, linkage, s, events)
    ensures Inv(rows, End(rows, linkage, s, events))
    decreases |events|
  {
    if events != [] {
      StepKeeps(rows, linkage, s, events[0]);
      RunKeeps(rows, linkage, Step(rows, linkage, s, events[0]), events[1..]);
    }
  }

  /** Opening a closed directory that is shown and closing it again restores the view. */
  lemma OpenThenClose(rows: seq<Row>, linkage: bool, s: State, i: nat)
    requires WellFormed(rows) && Inv(rows, s) && i < |rows| && rows[i].isDir && !s.open[i]
    ensures Clicked(rows, linkage, Clicked(rows, linkage, s, i), i) == s
  {
    var t := Clicked(rows, linkage, s, i);
    var u := Clicked(rows, linkage, t, i);
    NotUnderItself(rows, i);
    InvIsLocal(rows, s, i);
    forall x | 0 <= x < |rows| ensures u.open[x] == s.open[x] && u.shown[x] == s.shown[x] {
      if Under(rows, x, i) {
        ClosedBelow(rows, s, i, x);
      }
    }
    Extensional(rows, u, s);
  }

  class View {
    const rows: seq<Row>
    const linkage: bool
    var open: seq<bool>
    var shown: seq<bool>

    /** A fresh table: every row open and shown. */
    constructor (rows: seq<Row>, linkage: bool)
      requires WellFormed(rows)
      ensures this.rows == rows && this.linkage == linkage && Inv(rows, Now())
      ensures Now() == State(seq(|rows|, x => true), seq(|rows|, x => true))
    {
      this.rows, this.linkage := rows, linkage;
      this.open, this.shown := seq(|rows|, x => true), seq(|rows|, x => true);
      new;
      forall x | 0 <= x < |rows| ensures AncestorsOpen(rows, this.open, x) {
        AllOpenShown(rows, this.open, x);
      }
    }

    function Now(): State
      reads this
    {
      State(open, shown)
    }

    /** `toggleRows`: the rows the source clicks in turn are recursive calls here. */
    method ToggleRows(i: nat)
      requires WellFormed(rows) && i < |rows| && Sized(rows, Now()) && Local(rows, Now(), i)
      modifies this
      ensures Now() == Clicked(rows, linkage, old(Now()), i)
      decreases |rows| - i, 2
    {
      ghost var s := Now();
      if !rows[i].isDir {
        FileClicked(rows, linkage, s, i);
        return;
      }
      var isOpen := FlipIcon(i);
      VisitRows(i, isOpen, s);
      MidwayEnd(rows, linkage, s, i, Now());
    }

    method VisitRows(i: nat, isOpen: bool, ghost s: State)
      requires WellFormed(rows) && i < |rows| && rows[i].isDir
      requires Sized(rows, s) && Local(rows, s, i) && isOpen == s.open[i]
      requires Sized(rows, Now()) && Now() == Midway(rows, linkage, s, i, 0)
      modifies this
      ensures Sized(rows, Now()) && Now() == Midway(rows, linkage, s, i, |rows|)
      decreases |rows| - i, 1
    {
      for j := 0 to |rows|
        invariant Sized(rows, Now()) && Now() == Midway(rows, linkage, s, i, j)
      {
        VisitRow(i, isOpen, j, s);
      }
    }

    method FlipIcon(i: nat) returns (isOpen: bool)
      requires Sized(rows, Now()) && i < |rows| && rows[i].isDir
      modifies this
      ensures isOpen == old(open[i]) && Sized(rows, Now()) && Now() == Midway(rows, linkage, old(Now()), i, 0)
    {
      isOpen := open[i];
      open := open[i := !isOpen];
      MidwayStart(rows, linkage, old(Now()), i, Now());
    }

    /** `expandAll` (want is true) and `foldAll` (want is false). */
    method Sweep(want: bool)
      requires WellFormed(rows) && Inv(rows, Now())
      modifies this
      ensures Now() == Swept(rows, linkage, old(Now()), want, |rows|)
    {
      ghost var s := Now();
      for i := 0 to |rows|
        invariant Inv(rows, Now()) && Now() == Swept(rows, linkage, s, want, i)
      {
        SweepAt(i, want);
        SweptNext(rows, linkage, s, want, i);
      }
    }

    method SweepAt(i: nat, want: bool)
      requires WellFormed(rows) && Inv(rows, Now()) && i < |rows|
      modifies this
      ensures Now() == SweepRow(rows, linkage, old(Now()), want, i)
    {
      InvIsLocal(rows, Now(), i);
      var tOpen := open[i];
      if rows[i].isDir && tOpen != want {
        ToggleRows(i);
      }
    }

    method Handle(e: Event)
      requires WellFormed(rows) && Inv(rows, Now()) && Enabled(rows, Now(), e)
      modifies this
      ensures Now() == Step(rows, linkage, old(Now()), e) && Inv(rows, Now())
    {
      StepKeeps(rows, linkage, Now(), e);
      match e
      case Click(i) =>
        InvIsLocal(rows, Now(), i);
        ToggleRows(i);
      case ExpandAll => Sweep(true);
      case FoldAll => Sweep(false);
    }

    /** The body of the loop over all rows, at row j. */
    method VisitRow(i: nat, isOpen: bool, j: nat, ghost s: State)
      requires WellFormed(rows) && i < |rows| && j < |rows| && rows[i].isDir
      requires Sized(rows, s) && Local(rows, s, i) && isOpen == s.open[i]
      requires Now() == Midway(rows, linkage, s, i, j)
      modifies this
      ensures Sized(rows, Now()) && Now() == Midway(rows, linkage, s, i, j + 1)
      decreases |rows| - i, 0
    {
      ParentIs(rows, j, i);
      ghost var t := Now();
      var tOpen := open[j];
      if rows[i].id == rows[j].pid {
        shown := shown[j := !isOpen];
        if (isOpen || linkage) && rows[j].isDir && tOpen == isOpen {
          BranchLocal(rows, linkage, s, i, j, t, Now());
          ToggleRows(j);
          MidwayClicked(rows, linkage, s, i, j, t, Now());
        } else {
          MidwayAlone(rows, linkage, s, i, j, t, Now());
        }
      } else {
        MidwaySkip(rows, linkage, s, i, j, t);
      }
    }
  }

  lemma {:induction false} AllOpenShown(rows: seq<Row>, open: seq<bool>, x: nat)
    requires x < |rows| == |open| && forall k :: 0 <= k < |rows| ==> open[k]
    ensures AncestorsOpen(rows, open, x)
    decreases x
  {
    if Parent(rows, x) >= 0 {
      AllOpenShown(rows, open, Parent(rows, x));
    }
  }

  // ---------------------------------------------------------------- the rows of a tree table

  function ViewRow(data: seq<TreeTable.Node>, row: TreeTable.Row): Row
    requires row.node < |data|
  {
    Row(data[row.node].id, data[row.node].pid, row.isParent)
  }

  ghost function ViewRows(data: seq<TreeTable.Node>, rank: TreeTable.Id -> nat, root: TreeTable.Id): (rows: seq<Row>)
    requires TreeTable.Ranked(data, rank)
    ensures |rows| == |TreeTable.Scan(data, rank, root, 0)|
  {
    var flat := TreeTable.ScanRows(data, rank, root, 0);
    TreeTable.ScanInRange(data, rank, root, 0);
    seq(|flat|, k requires 0 <= k < |flat| => ViewRow(data, flat[k]))
  }

  lemma ViewRowIs(data: seq<TreeTable.Node>, rank: TreeTable.Id -> nat, root: TreeTable.Id, k: nat)
    requires TreeTable.Ranked(data, rank) && k < |ViewRows(data, rank, root)|
    ensures var x := TreeTable.Scan(data, rank, root, 0)[k];
      && x < |data|
      && ViewRows(data, rank, root)[k] == Row(data[x].id, data[x].pid, TreeTable.HasChild(data, data[x].id))
  {
    TreeTable.ScanInRange(data, rank, root, 0);
    assert TreeTable.ScanRows(data, rank, root, 0)[k] == TreeTable.RowOf(data, TreeTable.Scan(data, rank, root, 0)[k]);
  }

  /** The rows that the flattening makes are what the view relies on. */
  lemma FlattenedIsWellFormed(data: seq<TreeTable.Node>, rank: TreeTable.Id -> nat, root: TreeTable.Id)
    requires TreeTable.DistinctIds(data) && TreeTable.Ranked(data, rank)
    ensures WellFormed(ViewRows(data, rank, root)) && DirsHaveChildren(ViewRows(data, rank, root))
  {
    var rows, s := ViewRows(data, rank, root), TreeTable.Scan(data, rank, root, 0);
    TreeTable.ScanListsEachNodeOnce(data, rank, root);
    forall i, j | 0 <= i < j < |rows| ensures rows[i].id != rows[j].id {
      ViewRowIs(data, rank, root, i);
      ViewRowIs(data, rank, root, j);
      assert s[i] != s[j];
    }
    forall p, x | 0 <= p < |rows| && 0 <= x < |rows| && rows[x].pid == rows[p].id ensures p < x && rows[p].isDir {
      ViewRowIs(data, rank, root, p);
      ViewRowIs(data, rank, root, x);
      TreeTable.ParentFirst(data, rank, root, p, x);
    }
    forall p | 0 <= p < |rows| && rows[p].isDir ensures HasChildRow(rows, p) {
      ChildIsListed(data, rank, root, p);
    }
  }

  lemma ChildIsListed(data: seq<TreeTable.Node>, rank: TreeTable.Id -> nat, root: TreeTable.Id, p: nat)
    requires TreeTable.DistinctIds(data) && TreeTable.Ranked(data, rank)
    requires p < |ViewRows(data, rank, root)| && ViewRows(data, rank, root)[p].isDir
    ensures HasChildRow(ViewRows(data, rank, root), p)
  {
    var rows, s := ViewRows(data, rank, root), TreeTable.Scan(data, rank, root, 0);
    ViewRowIs(data, rank, root, p);
    var c: nat :| c < |data| && data[c].pid == data[s[p]].id;
    var path := TreeTable.ScanIsBelow(data, rank, root, 0, s[p]);
    var longer := path + [c];
    assert longer[..|path|] == path;
    TreeTable.BelowIsScanned(data, rank, root, 0, longer);
    var x: nat :| x < |s| && s[x] == c;
    ViewRowIs(data, rank, root, x);
  }
}
