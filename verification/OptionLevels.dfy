/**
 How the multi-level select renders nested options: one level after the other, each option carrying its
 parent's value, the children of the next level kept in an object keyed by their parent's value.
 */
module OptionLevels {

  import opened LinkageSelect
  import opened Lists

  datatype Option = Option(val: Value, children: seq<Option>)

  /** Options still to render, by their parent's value. */
  type Pending = map<Value, seq<Option>>

  type Entry = (Value, Option)

  const ROOT: Value := "0"

  function Entries(pending: Pending): set<Entry> {
    set pid, o | pid in pending && o in pending[pid] :: (pid, o)
  }

  predicate UniqueValues(es: set<Entry>) {
    forall a, b :: a in es && b in es && a.1.val == b.1.val ==> a == b
  }

  /** The options of a level, as the rendering leaves them. */
  function Group(es: set<Entry>): Level
    requires UniqueValues(es)
  {
    map e | e in es :: e.1.val := e.0
  }

  /** What is left for the next level. */
  function Next(es: set<Entry>): Pending
    requires UniqueValues(es)
  {
    map e | e in es && e.1.children != [] :: e.1.val := e.1.children
  }

  predicate FitsIn(opts: seq<Option>, n: nat)
    decreases n
  {
    opts == [] || (n > 0 && forall o :: o in opts ==> FitsIn(o.children, n - 1))
  }

  predicate PendingFits(pending: Pending, n: nat) {
    forall pid :: pid in pending ==> FitsIn(pending[pid], n)
  }

  /** Values are distinct on every level. */
  predicate DistinctLevels(pending: Pending, n: nat)
    decreases n
  {
    UniqueValues(Entries(pending)) && (n > 0 ==> DistinctLevels(Next(Entries(pending)), n - 1))
  }

  function LevelsFrom(pending: Pending, n: nat): (levels: seq<Level>)
    requires DistinctLevels(pending, n)
    ensures levels != [] && levels[0] == Group(Entries(pending))
    decreases n, 1
  {
    [Group(Entries(pending))] + DeeperLevels(pending, n)
  }

  function DeeperLevels(pending: Pending, n: nat): seq<Level>
    requires DistinctLevels(pending, n)
    decreases n, 0
  {
    if n == 0 || Next(Entries(pending)).Keys == {} then [] else LevelsFrom(Next(Entries(pending)), n - 1)
  }

  lemma NextFits(pending: Pending, n: nat)
    requires PendingFits(pending, n) && UniqueValues(Entries(pending))
    ensures n == 0 ==> Entries(pending) == {}
    ensures n > 0 ==> PendingFits(Next(Entries(pending)), n - 1)
  {
    var es := Entries(pending);
    forall e | e in es ensures n > 0 && FitsIn(e.1.children, n - 1) {
      assert FitsIn(pending[e.0], n);
    }
  }

  // ---------------------------------------------------------------- paths in the options

  ghost predicate InForest(opts: seq<Option>, p: Path)
    decreases |p|
  {
    p != [] && exists o :: o in opts && o.val == p[0] && (|p| == 1 || InForest(o.children, p[1..]))
  }

  /** A path of rendered options from a level down, starting below the option `pid`. */
  ghost predicate Rendered(levels: seq<Level>, k: nat, pid: Value, p: Path)
    decreases |p|
  {
    && p != [] && HasOption(levels, k, p[0]) && levels[k][p[0]] == pid
    && (|p| == 1 || Rendered(levels, k + 1, p[0], p[1..]))
  }

  lemma {:induction false} RenderedShift(first: Level, levels: seq<Level>, k: nat, pid: Value, p: Path)
    ensures Rendered([first] + levels, k + 1, pid, p) <==> Rendered(levels, k, pid, p)
    decreases |p|
  {
    if |p| > 1 {
      RenderedShift(first, levels, k + 1, p[0], p[1..]);
    }
  }

  /** The option with a value, on its level. */
  lemma EntryOf(pending: Pending, pid: Value, o: Option)
    requires UniqueValues(Entries(pending)) && pid in pending && o in pending[pid]
    ensures o.val in Group(Entries(pending)) && Group(Entries(pending))[o.val] == pid
    ensures o.children != [] <==> o.val in Next(Entries(pending))
    ensures o.children != [] ==> Next(Entries(pending))[o.val] == o.children
  {
    var e := (pid, o);
    assert e in Entries(pending) && e.1.val == o.val;
  }

  /** At most one option below `pid` has a value, and it is the one rendered on the level. */
  lemma HeadOption(pending: Pending, pid: Value, v: Value) returns (found: bool, o: Option)
    requires UniqueValues(Entries(pending)) && pid in pending
    ensures found <==> v in Group(Entries(pending)) && Group(Entries(pending))[v] == pid
    ensures found ==> o in pending[pid] && o.val == v
    ensures forall q :: q in pending[pid] && q.val == v ==> found && q == o
  {
    var es := Entries(pending);
    found, o := false, Option(v, []);
    if v in Group(es) && Group(es)[v] == pid {
      var e :| e in es && e.1.val == v;
      EntryOf(pending, e.0, e.1);
      found, o := true, e.1;
    }
    forall q | q in pending[pid] && q.val == v ensures found && q == o {
      EntryOf(pending, pid, q);
      assert (pid, q) in es;
    }
  }

  lemma RenderedHead(levels: seq<Level>, k: nat, pid: Value, p: Path)
    requires p != []
    ensures Rendered(levels, k, pid, p) <==>
            && HasOption(levels, k, p[0]) && levels[k][p[0]] == pid
            && (|p| == 1 || Rendered(levels, k + 1, p[0], p[1..]))
  {
  }

  lemma InForestHead(opts: seq<Option>, p: Path, found: bool, o: Option)
    requires p != [] && (found ==> o in opts && o.val == p[0])
    requires forall q :: q in opts && q.val == p[0] ==> found && q == o
    ensures InForest(opts, p) <==> found && (|p| == 1 || InForest(o.children, p[1..]))
  {
  }

  /** The paths rendered from a level are the paths in the options. */
  lemma {:induction false} RenderedIffInForest(pending: Pending, n: nat, pid: Value, k: nat, p: Path)
    requires PendingFits(pending, n) && DistinctLevels(pending, n) && pid in pending && k == 0
    ensures Rendered(LevelsFrom(pending, n), k, pid, p) <==> InForest(pending[pid], p)
    decreases n
  {
    if p != [] {
      NextFits(pending, n);
      var found, o := HeadOption(pending, pid, p[0]);
      RenderedHead(LevelsFrom(pending, n), k, pid, p);
      InForestHead(pending[pid], p, found, o);
      assert found ==> (pid, o) in Entries(pending);
      if found && |p| > 1 {
        EntryOf(pending, pid, o);
        RenderedBelow(pending, n, o, k, p[1..]);
      }
    }
  }

  lemma LevelsUnfold(pending: Pending, n: nat)
    requires n > 0 && DistinctLevels(pending, n)
    ensures var es := Entries(pending);
      if Next(es).Keys == {} then LevelsFrom(pending, n) == [Group(es)]
      else LevelsFrom(pending, n) == [Group(es)] + LevelsFrom(Next(es), n - 1)
  {
  }

  lemma NotInEmpty(opts: seq<Option>, p: Path)
    ensures InForest(opts, p) ==> opts != []
  {
  }

  /** The options of a path's next level are rendered below its first option. */
  lemma {:induction false} RenderedBelow(pending: Pending, n: nat, o: Option, k: nat, tail: Path)
    requires n > 0 && DistinctLevels(pending, n) && PendingFits(Next(Entries(pending)), n - 1)
    requires o.children != [] <==> o.val in Next(Entries(pending))
    requires o.children != [] ==> Next(Entries(pending))[o.val] == o.children
    requires k == 0
    ensures Rendered(LevelsFrom(pending, n), k + 1, o.val, tail) <==> InForest(o.children, tail)
    decreases n, 0
  {
    var next, first, levels := Next(Entries(pending)), Group(Entries(pending)), LevelsFrom(pending, n);
    LevelsUnfold(pending, n);
    NotInEmpty(o.children, tail);
    if next.Keys != {} {
      var below := LevelsFrom(next, n - 1);
      RenderedShift(first, below, k, o.val, tail);
      if o.children != [] {
        RenderedIffInForest(next, n - 1, o.val, k, tail);
      } else {
        NoOneBelow(next, n - 1, o.val, k, tail);
      }
    }
  }

  lemma NoOneBelow(pending: Pending, n: nat, pid: Value, k: nat, p: Path)
    requires DistinctLevels(pending, n) && pid !in pending && k == 0
    ensures !Rendered(LevelsFrom(pending, n), k, pid, p)
  {
    if p != [] && p[0] in Group(Entries(pending)) {
      var e :| e in Entries(pending) && e.1.val == p[0];
      EntryOf(pending, e.0, e.1);
    }
  }

  // ---------------------------------------------------------------- and in the select

  lemma {:induction false} RenderedIsPath(levels: seq<Level>, k: nat, pid: Value, p: Path)
    ensures Rendered(levels, k, pid, p) <==>
            IsPathFrom(levels, k, p) && levels[k][p[0]] == pid
    decreases |p|
  {
    if p != [] && |p| > 1 {
      var q := p[1..];
      RenderedIsPath(levels, k + 1, p[0], q);
      if Rendered(levels, k, pid, p) {
        forall i | 0 <= i < |p| ensures HasOption(levels, k + i, p[i]) {
          assert i > 0 ==> HasOption(levels, k + 1 + (i - 1), q[i - 1]);
        }
        forall i | 0 < i < |p| ensures HasOption(levels, k + i, p[i]) && levels[k + i][p[i]] == p[i - 1] {
          assert HasOption(levels, k + 1 + (i - 1), q[i - 1]);
        }
      }
      if IsPathFrom(levels, k, p) {
        forall i | 0 <= i < |q| ensures HasOption(levels, k + 1 + i, q[i]) {
          assert HasOption(levels, k + (i + 1), p[i + 1]);
        }
        forall i | 0 < i < |q| ensures HasOption(levels, k + 1 + i, q[i]) && levels[k + 1 + i][q[i]] == q[i - 1] {
          assert HasOption(levels, k + (i + 1), p[i + 1]);
        }
        assert HasOption(levels, k + 1, p[1]);
        assert HasOption(levels, k + 0, p[0]);
      }
    } else if p != [] {
      assert IsPathFrom(levels, k, p) ==> HasOption(levels, k + 0, p[0]);
    }
  }

  lemma RootIsOnlyParent(pending: Pending)
    requires UniqueValues(Entries(pending)) && pending.Keys == {ROOT}
    ensures forall v :: v in Group(Entries(pending)) ==> Group(Entries(pending))[v] == ROOT
  {
  }

  lemma PathsFromTheTop(levels: seq<Level>, p: Path)
    ensures IsPath(levels, p) <==> IsPathFrom(levels, 0, p)
  {
    if IsPath(levels, p) {
      assert forall i :: 0 <= i < |p| ==> HasOption(levels, 0 + i, p[i]);
    }
    if IsPathFrom(levels, 0, p) {
      forall i | 0 <= i < |p| ensures HasOption(levels, i, p[i]) {
        assert HasOption(levels, 0 + i, p[i]);
      }
      forall i | 0 < i < |p| ensures HasOption(levels, i, p[i]) && levels[i][p[i]] == p[i - 1] {
        assert HasOption(levels, 0 + i, p[i]);
      }
    }
  }

  /** The paths that can be clicked through are exactly those in the options. */
  lemma PathsAreOptions(opts: seq<Option>, n: nat, p: Path)
    requires FitsIn(opts, n) && DistinctLevels(map[ROOT := opts], n)
    ensures IsPath(LevelsFrom(map[ROOT := opts], n), p) <==> InForest(opts, p)
  {
    var pending := map[ROOT := opts];
    var levels := LevelsFrom(pending, n);
    RenderedIffInForest(pending, n, ROOT, 0, p);
    RenderedIsPath(levels, 0, ROOT, p);
    PathsFromTheTop(levels, p);
    RootIsOnlyParent(pending);
    assert p != [] && HasOption(levels, 0, p[0]) ==> levels[0][p[0]] == ROOT;
    assert IsPath(levels, p) ==> HasOption(levels, 0, p[0]);
  }

  lemma ChildExtendsPath(levels: seq<Level>, p: Path, v: Value)
    requires IsPath(levels, p)
    ensures IsChild(levels, |p| - 1, p[|p| - 1], v) <==> IsPath(levels, p + [v])
  {
    var q := p + [v];
    assert q[|p|] == v && q[..|p|] == p;
    if IsChild(levels, |p| - 1, p[|p| - 1], v) {
      assert forall k :: 0 <= k < |p| ==> q[k] == p[k];
    }
    if IsPath(levels, q) {
      assert HasOption(levels, |p|, q[|p|]) && levels[|p|][q[|p|]] == q[|p| - 1];
    }
  }

  /** The leaves that can be selected are exactly the options without children. */
  lemma LeafPathsAreOptions(opts: seq<Option>, n: nat, p: Path)
    requires FitsIn(opts, n) && DistinctLevels(map[ROOT := opts], n)
    ensures IsLeafPath(LevelsFrom(map[ROOT := opts], n), p) <==>
            InForest(opts, p) && forall v: Value :: !InForest(opts, p + [v])
  {
    var levels := LevelsFrom(map[ROOT := opts], n);
    PathsAreOptions(opts, n, p);
    if IsPath(levels, p) {
      forall v: Value
        ensures IsChild(levels, |p| - 1, p[|p| - 1], v) <==> InForest(opts, p + [v])
      {
        ChildExtendsPath(levels, p, v);
        PathsAreOptions(opts, n, p + [v]);
      }
      LeafIff(levels, opts, |p| - 1, p[|p| - 1], p);
    }
  }

  lemma LeafIff(levels: seq<Level>, opts: seq<Option>, k: nat, u: Value, p: Path)
    requires forall v: Value :: IsChild(levels, k, u, v) <==> InForest(opts, p + [v])
    ensures IsLeaf(levels, k, u) <==> forall v: Value :: !InForest(opts, p + [v])
  {
  }

  lemma {:induction false} LevelsHaveParents(pending: Pending, n: nat)
    requires DistinctLevels(pending, n)
    ensures ParentsExist(LevelsFrom(pending, n))
    decreases n
  {
    var es, levels := Entries(pending), LevelsFrom(pending, n);
    if n > 0 {
      LevelsUnfold(pending, n);
      if Next(es).Keys != {} {
        LevelsHaveParents(Next(es), n - 1);
        AboveHasParents(es, LevelsFrom(Next(es), n - 1));
      }
    }
  }

  lemma AboveHasParents(es: set<Entry>, below: seq<Level>)
    requires UniqueValues(es) && UniqueValues(Entries(Next(es)))
    requires below != [] && below[0] == Group(Entries(Next(es))) && ParentsExist(below)
    ensures ParentsExist([Group(es)] + below)
  {
    var levels := [Group(es)] + below;
    forall k, v | 0 < k < |levels| && v in levels[k] ensures levels[k][v] in levels[k - 1] {
      if k == 1 {
        assert levels[k] == below[0];
        var e :| e in Entries(Next(es)) && e.1.val == v;
        assert e.0 in Next(es);
      } else {
        assert levels[k] == below[k - 1] && levels[k - 1] == below[k - 2];
      }
    }
  }

  // ---------------------------------------------------------------- rendering

  lemma EntryIn(es: set<Entry>, e: Entry)
    requires UniqueValues(es) && e in es
    ensures e.1.val in Group(es) && Group(es)[e.1.val] == e.0
    ensures e.1.children != [] <==> e.1.val in Next(es)
    ensures e.1.children != [] ==> Next(es)[e.1.val] == e.1.children
  {
  }

  lemma AddEntry(es: set<Entry>, e: Entry)
    requires UniqueValues(es) && UniqueValues(es + {e})
    ensures Group(es + {e}) == Group(es)[e.1.val := e.0]
    ensures Next(es + {e}) == if e.1.children != [] then Next(es)[e.1.val := e.1.children] else Next(es)
  {
    AddToGroup(es, e);
    AddToNext(es, e);
  }

  lemma AddToGroup(es: set<Entry>, e: Entry)
    requires UniqueValues(es) && UniqueValues(es + {e})
    ensures Group(es + {e}) == Group(es)[e.1.val := e.0]
  {
    var more, now := es + {e}, Group(es)[e.1.val := e.0];
    forall v | v in Group(more) ensures v in now && now[v] == Group(more)[v] {
      var a :| a in more && a.1.val == v;
      EntryIn(more, a);
      if a != e {
        EntryIn(es, a);
      }
    }
    forall v | v in now ensures v in Group(more) {
      EntryIn(more, e);
      if v != e.1.val {
        var a :| a in es && a.1.val == v;
        EntryIn(more, a);
      }
    }
  }

  lemma AddToNext(es: set<Entry>, e: Entry)
    requires UniqueValues(es) && UniqueValues(es + {e})
    ensures Next(es + {e}) == if e.1.children != [] then Next(es)[e.1.val := e.1.children] else Next(es)
  {
    if e.1.children != [] {
      AddParent(es, e);
    } else {
      AddLeaf(es, e);
    }
  }

  lemma NextHas(es: set<Entry>, v: Value) returns (a: Entry)
    requires UniqueValues(es) && v in Next(es)
    ensures a in es && a.1.children != [] && a.1.val == v && Next(es)[v] == a.1.children
  {
    a :| a in es && a.1.children != [] && a.1.val == v;
    EntryIn(es, a);
  }

  lemma AddParent(es: set<Entry>, e: Entry)
    requires UniqueValues(es) && UniqueValues(es + {e}) && e.1.children != []
    ensures Next(es + {e}) == Next(es)[e.1.val := e.1.children]
  {
    var more := es + {e};
    forall v | v in Next(more) && v != e.1.val ensures v in Next(es) && Next(es)[v] == Next(more)[v] {
      var a := NextHas(more, v);
      EntryIn(es, a);
    }
    forall v | v in Next(es) ensures v in Next(more) {
      var a := NextHas(es, v);
      EntryIn(more, a);
    }
    EntryIn(more, e);
    OneMore(Next(es), Next(more), e.1.val);
  }

  lemma OneMore<K, V>(was: map<K, V>, now: map<K, V>, k: K)
    requires k in now && (forall v :: v in was ==> v in now)
    requires forall v :: v in now && v != k ==> v in was && was[v] == now[v]
    ensures now == was[k := now[k]]
  {
  }

  lemma AddLeaf(es: set<Entry>, e: Entry)
    requires UniqueValues(es) && UniqueValues(es + {e}) && e.1.children == []
    ensures Next(es + {e}) == Next(es)
  {
    var more := es + {e};
    var was, now := Next(es), Next(more);
    forall v | v in now ensures v in was && was[v] == now[v] {
      var a := NextHas(more, v);
      EntryIn(es, a);
    }
    forall v | v in was ensures v in now {
      var a := NextHas(es, v);
      EntryIn(more, a);
    }
  }

  function EntriesOf(pid: Value, arr: seq<Option>): set<Entry> {
    set o | o in arr :: (pid, o)
  }

  function EntriesAmong(pending: Pending, pids: set<Value>): set<Entry> {
    set pid, o | pid in pids && pid in pending && o in pending[pid] :: (pid, o)
  }

  lemma SubsetUnique(a: set<Entry>, b: set<Entry>)
    requires a <= b && UniqueValues(b)
    ensures UniqueValues(a)
  {
  }

  /** One parent's options are put into the level. */
  method RenderSiblings(pid: Value, arr: seq<Option>, group: Level, next: Pending, ghost done: set<Entry>)
    returns (group': Level, next': Pending)
    requires UniqueValues(done + EntriesOf(pid, arr)) && UniqueValues(done)
    requires group == Group(done) && next == Next(done)
    ensures group' == Group(done + EntriesOf(pid, arr)) && next' == Next(done + EntriesOf(pid, arr))
  {
    group', next' := group, next;
    ghost var now := done;
    for i := 0 to |arr|
      invariant now == done + EntriesOf(pid, arr[..i]) && UniqueValues(now)
      invariant group' == Group(now) && next' == Next(now)
    {
      var item := arr[i];
      EntriesGrow(pid, arr, i);
      assert now + {(pid, item)} <= done + EntriesOf(pid, arr);
      SubsetUnique(now + {(pid, item)}, done + EntriesOf(pid, arr));
      AddEntry(now, (pid, item));
      now := now + {(pid, item)};
      group' := group'[item.val := pid];
      if |item.children| > 0 {
        next' := next'[item.val := item.children];
      }
    }
    assert arr[..|arr|] == arr;
  }

  lemma EntriesGrow(pid: Value, arr: seq<Option>, i: nat)
    requires i < |arr|
    ensures EntriesOf(pid, arr[..i + 1]) == EntriesOf(pid, arr[..i]) + {(pid, arr[i])}
    ensures EntriesOf(pid, arr[..i + 1]) <= EntriesOf(pid, arr)
  {
    assert arr[..i + 1] == arr[..i] + [arr[i]];
  }

  /** One level. The order in which the parents are visited does not matter. */
  method RenderLevel(pending: Pending) returns (group: Level, next: Pending)
    requires UniqueValues(Entries(pending))
    ensures group == Group(Entries(pending)) && next == Next(Entries(pending))
  {
    group, next := map[], map[];
    var todo := pending.Keys;
    ghost var done: set<Value> := {};
    while todo != {}
      invariant todo + done == pending.Keys && todo !! done
      invariant UniqueValues(EntriesAmong(pending, done))
      invariant group == Group(EntriesAmong(pending, done)) && next == Next(EntriesAmong(pending, done))
      decreases |todo|
    {
      var pid :| pid in todo;
      AmongGrows(pending, done, pid);
      group, next := RenderSiblings(pid, pending[pid], group, next, EntriesAmong(pending, done));
      todo, done := todo - {pid}, done + {pid};
    }
    assert EntriesAmong(pending, done) == Entries(pending);
  }

  lemma AmongGrows(pending: Pending, done: set<Value>, pid: Value)
    requires pid in pending && UniqueValues(Entries(pending))
    ensures EntriesAmong(pending, done + {pid}) == EntriesAmong(pending, done) + EntriesOf(pid, pending[pid])
    ensures UniqueValues(EntriesAmong(pending, done + {pid}))
  {
    SubsetUnique(EntriesAmong(pending, done + {pid}), Entries(pending));
  }

  /** `renderData` for nested options no deeper than n: the levels of the select. */
  method Render(opts: seq<Option>, ghost n: nat) returns (levels: seq<Level>)
    requires FitsIn(opts, n) && DistinctLevels(map[ROOT := opts], n)
    ensures levels == LevelsFrom(map[ROOT := opts], n)
    ensures ParentsExist(levels)
  {
    var temp: Pending := map[ROOT := opts];
    LevelsHaveParents(temp, n);
    var group, next := RenderLevel(temp);
    levels := [group];
    ghost var was, left := temp, n;
    temp := next;
    while |temp| != 0
      invariant DistinctLevels(was, left) && PendingFits(was, left) && temp == Next(Entries(was))
      invariant levels + DeeperLevels(was, left) == LevelsFrom(map[ROOT := opts], n)
      decreases left
    {
      StillLeft(was, left, levels);
      group, next := RenderLevel(temp);
      levels := levels + [group];
      was, left, temp := temp, left - 1, next;
    }
    NothingDeeper(was, left);
  }

  lemma StillLeft(was: Pending, left: nat, levels: seq<Level>)
    requires DistinctLevels(was, left) && PendingFits(was, left) && |Next(Entries(was))| != 0
    ensures left > 0 && DistinctLevels(Next(Entries(was)), left - 1) && PendingFits(Next(Entries(was)), left - 1)
    ensures levels + DeeperLevels(was, left) ==
            (levels + [Group(Entries(Next(Entries(was))))]) + DeeperLevels(Next(Entries(was)), left - 1)
  {
    NextFits(was, left);
    DeeperUnfold(was, left);
    Assoc(levels, [Group(Entries(Next(Entries(was))))], DeeperLevels(Next(Entries(was)), left - 1));
  }

  lemma DeeperUnfold(was: Pending, left: nat)
    requires left > 0 && DistinctLevels(was, left) && |Next(Entries(was))| != 0
    requires DistinctLevels(Next(Entries(was)), left - 1)
    ensures DeeperLevels(was, left) ==
            [Group(Entries(Next(Entries(was))))] + DeeperLevels(Next(Entries(was)), left - 1)
  {
    var next := Next(Entries(was));
    assert LevelsFrom(next, left - 1) == [Group(Entries(next))] + DeeperLevels(next, left - 1);
  }

  lemma NothingDeeper(was: Pending, left: nat)
    requires DistinctLevels(was, left) && |Next(Entries(was))| == 0
    ensures DeeperLevels(was, left) == []
  {
  }
}
