/** Process-tree closure and termination order (sync_processes.py). */
module Processes {
  import opened Common
  import opened Sorting

  /** A snapshot of the process table: parent of every listed process. */
  type Table = map<int, int>

  // --------------------------------------------------------------- descendants

  ghost predicate ChildClosed(t: Table, s: set<int>) { forall p :: p in t && t[p] in s ==> p in s }

  /** The least set that contains the roots and every child of a member. */
  ghost predicate IsClosure(t: Table, roots: set<int>, s: set<int>) {
    && roots <= s && ChildClosed(t, s)
    && forall other: set<int> :: roots <= other && ChildClosed(t, other) ==> s <= other
  }

  ghost predicate Within(t: Table, roots: set<int>, s: set<int>) {
    forall other: set<int> :: roots <= other && ChildClosed(t, other) ==> s <= other
  }

  /** _descendants: sweep the table until nothing is added; any table will do. */
  method Descendants(t: Table, order: seq<int>, roots: set<int>) returns (selected: set<int>)
    requires Elements(order) == t.Keys
    ensures IsClosure(t, roots, selected) && selected <= roots + t.Keys
  {
    selected := roots;
    var changed := true;
    while changed
      invariant roots <= selected <= roots + t.Keys && Within(t, roots, selected)
      invariant !changed ==> ChildClosed(t, selected)
      decreases (roots + t.Keys) - selected, changed
    {
      changed := false;
      ghost var before := selected;
      for i := 0 to |order|
        invariant before <= selected <= roots + t.Keys && Within(t, roots, selected)
        invariant changed <==> selected != before
        invariant !changed ==> forall j :: 0 <= j < i ==> t[order[j]] in selected ==> order[j] in selected
        invariant forall j :: 0 <= j < |order| ==> order[j] in t
      {
        var pid := order[i];
        assert pid in Elements(order);
        if t[pid] in selected && pid !in selected {
          assert Within(t, roots, selected + {pid}) by { ChildIsWithin(t, roots, selected, pid); }
          selected := selected + {pid};
          changed := true;
        }
      }
      if !changed {
        forall p | p in t && t[p] in selected
          ensures p in selected
        {
          assert p in Elements(order);
        }
      }
    }
  }

  lemma ChildIsWithin(t: Table, roots: set<int>, s: set<int>, pid: int)
    requires Within(t, roots, s) && pid in t && t[pid] in s
    ensures Within(t, roots, s + {pid})
  {
  }

  // --------------------------------------------------------------------- depth

  /** The guard of the walk: the process is listed and its parent is targeted. */
  predicate Climbs(t: Table, targets: set<int>, pid: int) { pid in t && t[pid] in targets }

  /** The n-th step up from a process. */
  function Walk(t: Table, targets: set<int>, pid: int, n: nat): int {
    if n == 0 then pid
    else
      var p := Walk(t, targets, pid, n - 1);
      if Climbs(t, targets, p) then t[p] else p
  }

  ghost predicate ClimbsFor(t: Table, targets: set<int>, pid: int, n: nat) {
    forall m :: 0 <= m < n ==> Climbs(t, targets, Walk(t, targets, pid, m))
  }

  /** No process is its own targeted ancestor. */
  ghost predicate Acyclic(t: Table, targets: set<int>) {
    forall pid, n: nat :: n > 0 && ClimbsFor(t, targets, pid, n) ==> Walk(t, targets, pid, n) != pid
  }

  lemma {:induction false} WalkAdds(t: Table, targets: set<int>, pid: int, m: nat, n: nat)
    ensures Walk(t, targets, Walk(t, targets, pid, m), n) == Walk(t, targets, pid, m + n)
  {
    if n > 0 {
      WalkAdds(t, targets, pid, m, n - 1);
    }
  }

  lemma LaterClimbs(t: Table, targets: set<int>, pid: int, m: nat, n: nat)
    requires ClimbsFor(t, targets, pid, m + n)
    ensures ClimbsFor(t, targets, Walk(t, targets, pid, m), n)
  {
    forall k | 0 <= k < n
      ensures Climbs(t, targets, Walk(t, targets, Walk(t, targets, pid, m), k))
    {
      WalkAdds(t, targets, pid, m, k);
    }
  }

  /** In an acyclic table a walk of n steps visits n different listed processes, so it is short. */
  lemma WalksAreShort(t: Table, targets: set<int>, pid: int, n: nat)
    requires Acyclic(t, targets) && ClimbsFor(t, targets, pid, n)
    ensures n <= |t|
  {
    var visited := seq(n, m requires 0 <= m < n => Walk(t, targets, pid, m));
    forall i, j | 0 <= i < j < n
      ensures visited[i] != visited[j]
    {
      WalkAdds(t, targets, pid, i, j - i);
      assert ClimbsFor(t, targets, pid, i + (j - i));
      LaterClimbs(t, targets, pid, i, j - i);
    }
    ElementsSize(visited);
    assert Elements(visited) <= t.Keys;
    SubsetSize(Elements(visited), t.Keys);
  }

  lemma {:induction false} CycleRepeats(t: Table, targets: set<int>, pid: int, n: nat, m: nat)
    requires n > 0 && ClimbsFor(t, targets, pid, n) && Walk(t, targets, pid, n) == pid
    ensures Climbs(t, targets, Walk(t, targets, pid, m))
    decreases m
  {
    if m >= n {
      CycleRepeats(t, targets, pid, n, m - n);
      WalkAdds(t, targets, pid, n, m - n);
    }
  }

  ghost predicate Stops(t: Table, targets: set<int>, pid: int) {
    exists n: nat :: !Climbs(t, targets, Walk(t, targets, pid, n))
  }

  /** The depth walk stops for every process exactly when no targeted process is its own ancestor. */
  lemma WalksStopExactly(t: Table, targets: set<int>)
    ensures (forall pid :: Stops(t, targets, pid)) <==> Acyclic(t, targets)
    ensures (forall pid :: pid in targets ==> Stops(t, targets, pid)) <==> Acyclic(t, targets)
  {
    if Acyclic(t, targets) {
      forall pid
        ensures Stops(t, targets, pid)
      {
        if ClimbsFor(t, targets, pid, |t| + 1) {
          WalksAreShort(t, targets, pid, |t| + 1);
        }
      }
    } else {
      var pid, n: nat :| n > 0 && ClimbsFor(t, targets, pid, n) && Walk(t, targets, pid, n) == pid;
      forall m: nat
        ensures Climbs(t, targets, Walk(t, targets, pid, m))
      {
        CycleRepeats(t, targets, pid, n, m);
      }
      assert !Stops(t, targets, pid);
      assert Climbs(t, targets, Walk(t, targets, pid, n - 1));
      assert pid in targets;
    }
  }

  /** The number of steps the walk takes. */
  ghost predicate IsDepth(t: Table, targets: set<int>, pid: int, depth: nat) {
    ClimbsFor(t, targets, pid, depth) && !Climbs(t, targets, Walk(t, targets, pid, depth))
  }

  /** _depth: climb while the parent is targeted. */
  method Depth(t: Table, targets: set<int>, pid: int) returns (depth: nat)
    requires Acyclic(t, targets)
    ensures IsDepth(t, targets, pid, depth)
  {
    depth := 0;
    var current := pid;
    while Climbs(t, targets, current)
      invariant current == Walk(t, targets, pid, depth) && ClimbsFor(t, targets, pid, depth)
      decreases |t| - depth
    {
      WalksAreShort(t, targets, pid, depth + 1);
      depth := depth + 1;
      current := t[current];
    }
  }

  lemma DepthIsUnique(t: Table, targets: set<int>, pid: int, a: nat, b: nat)
    requires IsDepth(t, targets, pid, a) && IsDepth(t, targets, pid, b)
    ensures a == b
  {
  }

  /** A targeted child is one step deeper than its targeted parent. */
  lemma ChildIsDeeper(t: Table, targets: set<int>, pid: int, a: nat, b: nat)
    requires Climbs(t, targets, pid) && IsDepth(t, targets, pid, a) && IsDepth(t, targets, t[pid], b)
    ensures a == b + 1
  {
    assert Walk(t, targets, pid, 1) == t[pid] by { assert Walk(t, targets, pid, 0) == pid; }
    WalkAdds(t, targets, pid, 1, b);
    forall m | 0 <= m < b + 1
      ensures Climbs(t, targets, Walk(t, targets, pid, m))
    {
      if m > 0 {
        WalkAdds(t, targets, pid, 1, m - 1);
      } else {
        assert Walk(t, targets, pid, 0) == pid;
      }
    }
    DepthIsUnique(t, targets, pid, a, b + 1);
  }

  // ------------------------------------------------------------------- the order

  /** Deeper first, then the higher pid. */
  predicate KilledBefore(a: (int, int), b: (int, int)) { a.0 > b.0 || (a.0 == b.0 && a.1 > b.1) }

  lemma KilledBeforeIsOrder()
    ensures WeakOrder(KilledBefore)
  {
  }

  ghost predicate ParentsLast(t: Table, order: seq<int>) {
    forall i, j :: 0 <= i < |order| && 0 <= j < |order| && order[i] in t && t[order[i]] == order[j] ==> i < j
  }

  method Ranks(t: Table, targets: set<int>, pids: seq<int>) returns (ranks: seq<(int, int)>)
    requires Acyclic(t, targets)
    ensures |ranks| == |pids|
    ensures forall i :: 0 <= i < |pids| ==>
      ranks[i].1 == pids[i] && ranks[i].0 >= 0 && IsDepth(t, targets, pids[i], ranks[i].0)
  {
    ranks := [];
    for i := 0 to |pids|
      invariant |ranks| == i
      invariant forall j :: 0 <= j < i ==>
        ranks[j].1 == pids[j] && ranks[j].0 >= 0 && IsDepth(t, targets, pids[j], ranks[j].0)
    {
      var d := Depth(t, targets, pids[i]);
      ranks := ranks + [(d, pids[i])];
    }
  }

  /** The targets in termination order: each exactly once, every child before its parent. */
  method TerminationOrder(t: Table, targets: set<int>, pids: seq<int>) returns (order: seq<int>)
    requires Acyclic(t, targets) && Distinct(pids) && Elements(pids) == targets
    ensures Distinct(order) && Elements(order) == targets
    ensures ParentsLast(t, order)
  {
    var ranks := Ranks(t, targets, pids);
    var sorted := Sort(ranks, KilledBefore);
    KilledBeforeIsOrder();
    SortSorts(ranks, KilledBefore);
    SortPermutes(ranks, KilledBefore);
    order := Pids(sorted);
    assert Pids(ranks) == pids;
    SamePids(ranks, sorted);
    SortedParentsLast(t, targets, pids, ranks, sorted);
  }

  function Pids(ranks: seq<(int, int)>): (r: seq<int>)
    ensures |r| == |ranks|
  {
    seq(|ranks|, i requires 0 <= i < |ranks| => ranks[i].1)
  }

  lemma PidsIncluded(a: seq<(int, int)>, b: seq<(int, int)>)
    requires forall x :: x in a ==> x in b
    ensures Elements(Pids(a)) <= Elements(Pids(b))
  {
    forall pid | pid in Elements(Pids(a))
      ensures pid in Elements(Pids(b))
    {
      var i :| 0 <= i < |a| && Pids(a)[i] == pid;
      assert a[i] in b;
      var j :| 0 <= j < |b| && b[j] == a[i];
      assert Pids(b)[j] == pid;
    }
  }

  lemma SamePids(ranks: seq<(int, int)>, sorted: seq<(int, int)>)
    requires multiset(ranks) == multiset(sorted) && Distinct(Pids(ranks))
    ensures Distinct(Pids(sorted)) && Elements(Pids(sorted)) == Elements(Pids(ranks))
  {
    PermutationElements(ranks, sorted);
    PidsIncluded(ranks, sorted);
    PidsIncluded(sorted, ranks);
    SubsetSize(Elements(Pids(ranks)), Elements(Pids(sorted)));
    SubsetSize(Elements(Pids(sorted)), Elements(Pids(ranks)));
    ElementsSize(Pids(ranks));
    ElementsSize(Pids(sorted));
  }

  lemma SortedParentsLast(t: Table, targets: set<int>, pids: seq<int>, ranks: seq<(int, int)>, sorted: seq<(int, int)>)
    requires Elements(pids) == targets && |ranks| == |pids| && multiset(ranks) == multiset(sorted)
    requires forall i :: 0 <= i < |pids| ==>
      ranks[i].1 == pids[i] && ranks[i].0 >= 0 && IsDepth(t, targets, pids[i], ranks[i].0)
    requires SortedBy(sorted, KilledBefore)
    ensures ParentsLast(t, Pids(sorted))
  {
    PermutationElements(ranks, sorted);
    forall i, j | 0 <= i < |sorted| && 0 <= j < |sorted| && sorted[i].1 in t && t[sorted[i].1] == sorted[j].1
      ensures i < j
    {
      assert sorted[i] in ranks && sorted[j] in ranks;
      var a :| 0 <= a < |ranks| && ranks[a] == sorted[i];
      var b :| 0 <= b < |ranks| && ranks[b] == sorted[j];
      assert pids[b] in Elements(pids);
      ChildIsDeeper(t, targets, sorted[i].1, sorted[i].0, sorted[j].0);
      assert KilledBefore(sorted[i], sorted[j]);
    }
  }

  /** The order asks for the depths of a closure less some excluded processes.  Two of those that name
      each other as parents, as when a worker's child gets the id of the worker's dead parent, keep the
      walk going for ever. */
  lemma ReusedParentNeverStops(t: Table, roots: set<int>, selected: set<int>, excluded: set<int>, a: int, b: int)
    requires IsClosure(t, roots, selected) && a in roots && a !in excluded && b !in excluded
    requires a in t && b in t && t[a] == b && t[b] == a
    ensures var targets := selected - excluded;
      a in targets && b in targets && !Stops(t, targets, a) && !Acyclic(t, targets)
  {
    var targets := selected - excluded;
    assert b in selected;
    assert Walk(t, targets, a, 0) == a;
    assert Walk(t, targets, a, 1) == b;
    assert Walk(t, targets, a, 2) == a;
    assert ClimbsFor(t, targets, a, 2);
    forall m: nat
      ensures Climbs(t, targets, Walk(t, targets, a, m))
    {
      CycleRepeats(t, targets, a, 2, m);
    }
  }

  /** The smallest such table, with its closure. */
  lemma TwoProcessesNeverStop(a: int, b: int)
    requires a != b
    ensures var t := map[a := b, b := a];
      IsClosure(t, {a}, {a, b}) && !Stops(t, {a, b}, a)
  {
    var t := map[a := b, b := a];
    assert IsClosure(t, {a}, {a, b}) by {
      forall s: set<int> | {a} <= s && ChildClosed(t, s)
        ensures {a, b} <= s
      {
        assert t[b] in s;
      }
    }
    ReusedParentNeverStops(t, {a}, {a, b}, {}, a, b);
    assert {a, b} - {} == {a, b};
  }
}
