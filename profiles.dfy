/** Profile truncation: the children of a profile node whose sample count is below a minimum
    are cut off and the node is marked ellipsed. The service does it breadth first, with an
    explicit queue, over mutable nodes; here the nodes live in a table indexed by position
    (children after their parent), and the queue method is proved against a recursive
    definition on profile trees. */
module Profiles {
  import opened Wrappers
  import opened Aggregates

  // ---------------------------------------------------------------------------------------
  // The recursive definition on trees

  /** The children that survive: those with at least `minSamples` samples, in their order. */
  function Filter(children: seq<ProfileTree>, minSamples: int): (kept: seq<ProfileTree>)
    ensures |kept| <= |children|
    ensures forall x :: x in kept ==> x in children && x.sampleCount >= minSamples
    ensures forall k :: 0 <= k < |children| && children[k].sampleCount >= minSamples ==>
              children[k] in kept
    ensures |kept| == |children| <==>
            forall k :: 0 <= k < |children| ==> children[k].sampleCount >= minSamples
  {
    if children == [] then []
    else
      var init := children[..|children| - 1];
      var last := children[|children| - 1];
      var rest := Filter(init, minSamples);
      assert forall k :: 0 <= k < |init| ==> init[k] == children[k];
      if last.sampleCount < minSamples then rest else rest + [last]
  }

  /** Truncation below a node: the node itself stays; its small children are cut off, which
      marks it ellipsed; the surviving children are truncated in turn. */
  function Prune(t: ProfileTree, minSamples: int): (r: ProfileTree)
    ensures r.sampleCount == t.sampleCount && r.timerName == t.timerName
    ensures r.ellipsed <==>
            t.ellipsed || exists k :: 0 <= k < |t.children| && t.children[k].sampleCount < minSamples
    ensures |r.children| <= |t.children|
    decreases t
  {
    var kept := Filter(t.children, minSamples);
    ProfileTree(t.sampleCount, t.timerName,
                seq(|kept|, k requires 0 <= k < |kept| =>
                      assert kept[k] in kept; Prune(kept[k], minSamples)),
                t.ellipsed || |kept| < |t.children|)
  }

  /** Every node strictly below `t` has at least `minSamples` samples. */
  ghost predicate AllBelowAtLeast(t: ProfileTree, minSamples: int)
    decreases t
  {
    forall k :: 0 <= k < |t.children| ==>
      t.children[k].sampleCount >= minSamples && AllBelowAtLeast(t.children[k], minSamples)
  }

  /** After truncation every node below the top has at least the minimum. */
  lemma {:induction false} PruneAtLeast(t: ProfileTree, minSamples: int)
    ensures AllBelowAtLeast(Prune(t, minSamples), minSamples)
    decreases t
  {
    var kept := Filter(t.children, minSamples);
    var r := Prune(t, minSamples);
    forall k | 0 <= k < |r.children|
      ensures r.children[k].sampleCount >= minSamples &&
              AllBelowAtLeast(r.children[k], minSamples)
    {
      assert kept[k] in kept;
      assert kept[k] in t.children;
      assert r.children[k] == Prune(kept[k], minSamples);
      PruneAtLeast(kept[k], minSamples);
    }
  }

  lemma {:induction false} FilterAll(children: seq<ProfileTree>, minSamples: int)
    requires forall k :: 0 <= k < |children| ==> children[k].sampleCount >= minSamples
    ensures Filter(children, minSamples) == children
  {
    if children != [] {
      var init, last := children[..|children| - 1], children[|children| - 1];
      assert forall k :: 0 <= k < |init| ==> init[k] == children[k];
      FilterAll(init, minSamples);
      assert init + [last] == children;
      FilterSnoc(init, last, minSamples);
    }
  }

  /** A tree with nothing below the minimum is left exactly as it is. */
  lemma {:induction false} PruneIdentity(t: ProfileTree, minSamples: int)
    requires AllBelowAtLeast(t, minSamples)
    ensures Prune(t, minSamples) == t
    decreases t
  {
    FilterAll(t.children, minSamples);
    var r := Prune(t, minSamples);
    forall k | 0 <= k < |t.children| ensures r.children[k] == t.children[k] {
      PruneIdentity(t.children[k], minSamples);
    }
    assert r.children == t.children;
  }

  /** Truncating twice is truncating once. */
  lemma PruneIdempotent(t: ProfileTree, minSamples: int)
    ensures Prune(Prune(t, minSamples), minSamples) == Prune(t, minSamples)
  {
    PruneAtLeast(t, minSamples);
    PruneIdentity(Prune(t, minSamples), minSamples);
  }

  lemma {:induction false} AllBelowAtLeastWeaken(t: ProfileTree, low: int, high: int)
    requires low <= high && AllBelowAtLeast(t, high)
    ensures AllBelowAtLeast(t, low)
    decreases t
  {
    forall k | 0 <= k < |t.children| ensures AllBelowAtLeast(t.children[k], low) {
      AllBelowAtLeastWeaken(t.children[k], low, high);
    }
  }

  /** A minimum of zero or less removes nothing from a tree of non-negative sample counts. */
  lemma PruneNonPositiveMinimum(t: ProfileTree, minSamples: int)
    requires minSamples <= 0 && AllBelowAtLeast(t, 0)
    ensures Prune(t, minSamples) == t
  {
    AllBelowAtLeastWeaken(t, minSamples, 0);
    PruneIdentity(t, minSamples);
  }

  /** `a` is `b` with some elements left out, the rest in their order. */
  predicate IsSubsequence<T(==)>(a: seq<T>, b: seq<T>)
    decreases |b|
  {
    if a == [] then true
    else if b == [] then false
    else if a[|a| - 1] == b[|b| - 1] then IsSubsequence(a[..|a| - 1], b[..|b| - 1])
    else IsSubsequence(a, b[..|b| - 1])
  }

  /** The surviving children keep their relative order, and each truncated child keeps its
      sample count and timer name. */
  lemma {:induction false} PruneKeepsOrder(t: ProfileTree, minSamples: int)
    ensures IsSubsequence(Filter(t.children, minSamples), t.children)
    ensures var kept := Filter(t.children, minSamples);
            var r := Prune(t, minSamples);
            |r.children| == |kept| &&
            forall k :: 0 <= k < |kept| ==>
              r.children[k].sampleCount == kept[k].sampleCount &&
              r.children[k].timerName == kept[k].timerName
  {
    FilterIsSubsequence(t.children, minSamples);
  }

  lemma {:induction false} FilterIsSubsequence(children: seq<ProfileTree>, minSamples: int)
    ensures IsSubsequence(Filter(children, minSamples), children)
  {
    if children != [] {
      var init := children[..|children| - 1];
      FilterIsSubsequence(init, minSamples);
      var last := children[|children| - 1];
      var rest := Filter(init, minSamples);
      if last.sampleCount < minSamples {
        SubsequenceSnoc(rest, init, last);
        assert init + [last] == children;
      } else {
        assert (rest + [last])[..|rest|] == rest;
        assert children[..|children| - 1] == init;
      }
    }
  }

  lemma {:induction false} SubsequenceSnoc<T>(a: seq<T>, b: seq<T>, x: T)
    requires IsSubsequence(a, b)
    ensures IsSubsequence(a, b + [x])
    decreases |b|, 1
  {
    assert (b + [x])[..|b|] == b;
    if a != [] && a[|a| - 1] == x {
      assert b != [];
      SubsequenceDropLast(a, b);
    }
  }

  lemma {:induction false} SubsequenceDropLast<T>(a: seq<T>, b: seq<T>)
    requires a != [] && IsSubsequence(a, b)
    ensures IsSubsequence(a[..|a| - 1], b)
    decreases |b|, 0
  {
    var init := a[..|a| - 1];
    if a[|a| - 1] == b[|b| - 1] {
      SubsequenceSnoc(init, b[..|b| - 1], b[|b| - 1]);
      assert b[..|b| - 1] + [b[|b| - 1]] == b;
    } else {
      SubsequenceDropLast(a, b[..|b| - 1]);
      SubsequenceSnoc(init, b[..|b| - 1], b[|b| - 1]);
      assert b[..|b| - 1] + [b[|b| - 1]] == b;
    }
  }

  // ---------------------------------------------------------------------------------------
  // The node table

  /** Profile nodes by position: sample count, timer name, child positions and ellipsed flag.
      A child always comes after its parent. */
  datatype NodeTable = NodeTable(sampleCount: seq<int>, timerName: seq<string>,
                                 children: seq<seq<nat>>, ellipsed: seq<bool>)
  {
    ghost predicate WellFormed()
    {
      |timerName| == |sampleCount| && |children| == |sampleCount| &&
      |ellipsed| == |sampleCount| &&
      forall i, k :: 0 <= i < |children| && 0 <= k < |children[i]| ==>
        i < children[i][k] < |sampleCount|
    }

    /** The tree rooted at a node. */
    function Tree(i: nat): ProfileTree
      requires WellFormed() && i < |sampleCount|
      decreases |sampleCount| - i
    {
      ProfileTree(sampleCount[i], timerName[i],
                  seq(|children[i]|, k requires 0 <= k < |children[i]| => Tree(children[i][k])),
                  ellipsed[i])
    }

    /** The trees at the given positions. */
    function Trees(idx: seq<nat>): (r: seq<ProfileTree>)
      requires WellFormed() && forall k :: 0 <= k < |idx| ==> idx[k] < |sampleCount|
      ensures |r| == |idx| && forall k :: 0 <= k < |idx| ==> r[k] == Tree(idx[k])
    {
      seq(|idx|, k requires 0 <= k < |idx| => Tree(idx[k]))
    }
  }

  /** The surviving child positions, in their order. */
  function FilterIndices(idx: seq<nat>, sampleCount: seq<int>, minSamples: int): (kept: seq<nat>)
    requires forall k :: 0 <= k < |idx| ==> idx[k] < |sampleCount|
    ensures |kept| <= |idx|
    ensures forall k :: 0 <= k < |kept| ==> kept[k] < |sampleCount|
    ensures forall x :: x in kept ==> x in idx && sampleCount[x] >= minSamples
    ensures forall k :: 0 <= k < |idx| && sampleCount[idx[k]] >= minSamples ==> idx[k] in kept
  {
    if idx == [] then []
    else
      var rest := FilterIndices(idx[..|idx| - 1], sampleCount, minSamples);
      var last := idx[|idx| - 1];
      if sampleCount[last] < minSamples then rest else rest + [last]
  }

  /** One more index is kept or dropped by its own count alone. */
  lemma FilterIndicesSnoc(idx: seq<nat>, sampleCount: seq<int>, minSamples: int, k: nat)
    requires k < |idx| && forall j :: 0 <= j < |idx| ==> idx[j] < |sampleCount|
    ensures FilterIndices(idx[..k + 1], sampleCount, minSamples) ==
            if sampleCount[idx[k]] < minSamples then FilterIndices(idx[..k], sampleCount, minSamples)
            else FilterIndices(idx[..k], sampleCount, minSamples) + [idx[k]]
  {
    assert idx[..k + 1][..k] == idx[..k];
  }

  lemma {:induction false} FilterIndicesIdempotent(idx: seq<nat>, sampleCount: seq<int>,
                                                   minSamples: int)
    requires forall k :: 0 <= k < |idx| ==> idx[k] < |sampleCount|
    ensures var kept := FilterIndices(idx, sampleCount, minSamples);
            FilterIndices(kept, sampleCount, minSamples) == kept
  {
    if idx != [] {
      var init := idx[..|idx| - 1];
      FilterIndicesIdempotent(init, sampleCount, minSamples);
      var rest := FilterIndices(init, sampleCount, minSamples);
      var last := idx[|idx| - 1];
      if sampleCount[last] >= minSamples {
        assert (rest + [last])[..|rest|] == rest;
      }
    }
  }

  /** The trees of `nodes` at the positions `idx`. */
  function Pick(nodes: seq<ProfileTree>, idx: seq<nat>): (r: seq<ProfileTree>)
    requires forall k :: 0 <= k < |idx| ==> idx[k] < |nodes|
    ensures |r| == |idx| && forall k :: 0 <= k < |idx| ==> r[k] == nodes[idx[k]]
  {
    seq(|idx|, k requires 0 <= k < |idx| => nodes[idx[k]])
  }

  /** One step of Filter: a child appended last is kept or dropped. */
  lemma FilterSnoc(children: seq<ProfileTree>, child: ProfileTree, minSamples: int)
    ensures Filter(children + [child], minSamples) ==
            if child.sampleCount < minSamples then Filter(children, minSamples)
            else Filter(children, minSamples) + [child]
  {
    assert (children + [child])[..|children|] == children;
  }

  lemma PickSnoc(nodes: seq<ProfileTree>, idx: seq<nat>, i: nat)
    requires forall k :: 0 <= k < |idx| ==> idx[k] < |nodes|
    requires i < |nodes|
    ensures Pick(nodes, idx + [i]) == Pick(nodes, idx) + [nodes[i]]
  {
  }

  /** Filtering positions by their sample counts and then picking is filtering the picks. */
  lemma {:induction false} FilterPick(nodes: seq<ProfileTree>, sampleCount: seq<int>,
                                      idx: seq<nat>, minSamples: int)
    requires |nodes| == |sampleCount|
    requires forall i :: 0 <= i < |nodes| ==> nodes[i].sampleCount == sampleCount[i]
    requires forall k :: 0 <= k < |idx| ==> idx[k] < |nodes|
    ensures Filter(Pick(nodes, idx), minSamples) ==
            Pick(nodes, FilterIndices(idx, sampleCount, minSamples))
  {
    if idx != [] {
      var init := idx[..|idx| - 1];
      var last := idx[|idx| - 1];
      assert idx == init + [last];
      FilterPick(nodes, sampleCount, init, minSamples);
      PickSnoc(nodes, init, last);
      FilterSnoc(Pick(nodes, init), nodes[last], minSamples);
      var rest := FilterIndices(init, sampleCount, minSamples);
      if sampleCount[last] >= minSamples {
        PickSnoc(nodes, rest, last);
      }
    }
  }

  /** Filtering positions and then taking their trees is filtering the trees. */
  lemma FilterTrees(t: NodeTable, idx: seq<nat>, minSamples: int)
    requires t.WellFormed() && forall k :: 0 <= k < |idx| ==> idx[k] < |t.sampleCount|
    ensures Filter(t.Trees(idx), minSamples) ==
            t.Trees(FilterIndices(idx, t.sampleCount, minSamples))
  {
    var nodes := seq(|t.sampleCount|, i requires 0 <= i < |t.sampleCount| => t.Tree(i));
    FilterPick(nodes, t.sampleCount, idx, minSamples);
    assert t.Trees(idx) == Pick(nodes, idx);
    var kept := FilterIndices(idx, t.sampleCount, minSamples);
    assert t.Trees(kept) == Pick(nodes, kept);
  }

  /** The table `after` has the same nodes as `before`, only children and flags differ. */
  ghost predicate SameNodes(before: NodeTable, after: NodeTable)
  {
    before.WellFormed() && after.WellFormed() &&
    after.sampleCount == before.sampleCount && after.timerName == before.timerName
  }

  /** Node `j` has been truncated once: its children filtered, its flag set if one was lost. */
  ghost predicate PrunedAt(before: NodeTable, after: NodeTable, j: nat, minSamples: int)
    requires SameNodes(before, after) && j < |before.sampleCount|
  {
    var kept := FilterIndices(before.children[j], before.sampleCount, minSamples);
    after.children[j] == kept &&
    after.ellipsed[j] == (before.ellipsed[j] || |kept| < |before.children[j]|)
  }

  ghost predicate UnchangedAt(before: NodeTable, after: NodeTable, j: nat)
    requires SameNodes(before, after) && j < |before.sampleCount|
  {
    after.children[j] == before.children[j] && after.ellipsed[j] == before.ellipsed[j]
  }

  /** If every node of a set closed under (surviving) children has been truncated once, the
      tree at each of them is the truncation of its tree before. */
  lemma {:induction false} ClosedSetPruned(before: NodeTable, after: NodeTable, visited: set<nat>,
                                           minSamples: int, j: nat)
    requires SameNodes(before, after)
    requires forall x :: x in visited ==> x < |before.sampleCount| &&
                                          PrunedAt(before, after, x, minSamples)
    requires forall x, k :: x in visited && 0 <= k < |after.children[x]| ==>
                              after.children[x][k] in visited
    requires j in visited
    ensures after.Tree(j) == Prune(before.Tree(j), minSamples)
    decreases |before.sampleCount| - j
  {
    var kids := before.children[j];
    var kept := FilterIndices(kids, before.sampleCount, minSamples);
    FilterTrees(before, kids, minSamples);
    assert before.Tree(j).children == before.Trees(kids);
    var a := after.Tree(j);
    var p := Prune(before.Tree(j), minSamples);
    assert |a.children| == |kept| == |p.children|;
    forall k | 0 <= k < |kept| ensures a.children[k] == p.children[k] {
      assert after.children[j][k] == kept[k];
      ClosedSetPruned(before, after, visited, minSamples, kept[k]);
    }
    assert a.children == p.children;
  }

  // ---------------------------------------------------------------------------------------
  // The termination measure of the queue

  function SumNat(s: seq<nat>): nat
  {
    if s == [] then 0 else SumNat(s[..|s| - 1]) + s[|s| - 1]
  }

  /** The number of downward paths starting at a node. */
  ghost function Paths(t: NodeTable, i: nat): nat
    requires t.WellFormed() && i < |t.sampleCount|
    decreases |t.sampleCount| - i, 1
  {
    1 + SumNat(ChildPaths(t, i))
  }

  ghost function ChildPaths(t: NodeTable, i: nat): (r: seq<nat>)
    requires t.WellFormed() && i < |t.sampleCount|
    ensures |r| == |t.children[i]|
    decreases |t.sampleCount| - i, 0
  {
    seq(|t.children[i]|, k requires 0 <= k < |t.children[i]| => Paths(t, t.children[i][k]))
  }

  ghost function QueuePaths(t: NodeTable, q: seq<nat>): nat
    requires t.WellFormed() && forall k :: 0 <= k < |q| ==> q[k] < |t.sampleCount|
  {
    if q == [] then 0 else QueuePaths(t, q[..|q| - 1]) + Paths(t, q[|q| - 1])
  }

  lemma {:induction false} QueuePathsAppend(t: NodeTable, a: seq<nat>, b: seq<nat>)
    requires t.WellFormed()
    requires forall k :: 0 <= k < |a| ==> a[k] < |t.sampleCount|
    requires forall k :: 0 <= k < |b| ==> b[k] < |t.sampleCount|
    ensures QueuePaths(t, a + b) == QueuePaths(t, a) + QueuePaths(t, b)
  {
    if b == [] {
      assert a + b == a;
    } else {
      assert (a + b)[..|a + b| - 1] == a + b[..|b| - 1];
      QueuePathsAppend(t, a, b[..|b| - 1]);
    }
  }

  lemma {:induction false} QueuePathsPrefix(t: NodeTable, i: nat, n: nat)
    requires t.WellFormed() && i < |t.sampleCount| && n <= |t.children[i]|
    ensures QueuePaths(t, t.children[i][..n]) == SumNat(ChildPaths(t, i)[..n])
  {
    if n > 0 {
      QueuePathsPrefix(t, i, n - 1);
      assert t.children[i][..n][..n - 1] == t.children[i][..n - 1];
      assert ChildPaths(t, i)[..n][..n - 1] == ChildPaths(t, i)[..n - 1];
    }
  }

  lemma PathsUnfold(t: NodeTable, i: nat)
    requires t.WellFormed() && i < |t.sampleCount|
    ensures Paths(t, i) == 1 + QueuePaths(t, t.children[i])
  {
    var n := |t.children[i]|;
    QueuePathsPrefix(t, i, n);
    assert t.children[i][..n] == t.children[i];
    assert ChildPaths(t, i)[..n] == ChildPaths(t, i);
  }

  lemma {:induction false} QueuePathsFilter(t: NodeTable, idx: seq<nat>, minSamples: int)
    requires t.WellFormed() && forall k :: 0 <= k < |idx| ==> idx[k] < |t.sampleCount|
    ensures QueuePaths(t, FilterIndices(idx, t.sampleCount, minSamples)) <= QueuePaths(t, idx)
  {
    if idx != [] {
      var init := idx[..|idx| - 1];
      QueuePathsFilter(t, init, minSamples);
      var rest := FilterIndices(init, t.sampleCount, minSamples);
      var last := idx[|idx| - 1];
      if t.sampleCount[last] >= minSamples {
        assert (rest + [last])[..|rest|] == rest;
      }
    }
  }

  /** Visiting a node removes its paths from the queue and adds at most the paths of its
      children. */
  lemma QueueShrinks(t: NodeTable, q: seq<nat>, minSamples: int)
    requires t.WellFormed() && q != [] && forall k :: 0 <= k < |q| ==> q[k] < |t.sampleCount|
    ensures var kept := FilterIndices(t.children[q[0]], t.sampleCount, minSamples);
            QueuePaths(t, q[1..] + kept) < QueuePaths(t, q)
  {
    var node := q[0];
    var rest := q[1..];
    var kids := t.children[node];
    var kept := FilterIndices(kids, t.sampleCount, minSamples);
    QueuePathsAppend(t, rest, kept);
    QueuePathsAppend(t, [node], rest);
    assert [node] + rest == q;
    assert [node][..0] == [];
    assert QueuePaths(t, [node]) == Paths(t, node);
    PathsUnfold(t, node);
    QueuePathsFilter(t, kids, minSamples);
  }

  // ---------------------------------------------------------------------------------------
  // The mutable nodes

  const IntMin: int := -0x8000_0000
  const IntMax: int := 0x7fff_ffff

  /** Java's cast of a double to int: truncation toward zero, saturating at the int range
      (the double is taken as the exact real). */
  function TruncateToInt(x: real): (n: int)
    ensures IntMin <= n <= IntMax
    ensures 0.0 <= x < (IntMax + 1) as real ==> n as real <= x < n as real + 1.0
    ensures (IntMin - 1) as real < x <= 0.0 ==> n as real - 1.0 < x <= n as real
  {
    var t := if x >= 0.0 then x.Floor else -((-x).Floor);
    if t < IntMin then IntMin else if t > IntMax then IntMax else t
  }

  /** The minimum of getProfile: the synthetic root's sample count times the percentage. */
  function MinSamples(rootSampleCount: int, truncateLeafPercentage: real): int
  {
    TruncateToInt(rootSampleCount as real * truncateLeafPercentage)
  }

  lemma MinSamplesExample()
    ensures MinSamples(100, 0.1) == 10
    ensures MinSamples(7, 0.5) == 3
    ensures MinSamples(1000, 0.0015) == 1
  {
  }

  /** A fraction of a non-negative count is between zero and the count. */
  lemma MinSamplesBounds(rootSampleCount: int, truncateLeafPercentage: real)
    requires 0 <= rootSampleCount <= IntMax && 0.0 <= truncateLeafPercentage <= 1.0
    ensures 0 <= MinSamples(rootSampleCount, truncateLeafPercentage) <= rootSampleCount
  {
    var x := FractionBounds(rootSampleCount as real, truncateLeafPercentage);
    TruncateBetween(x, rootSampleCount);
  }

  lemma TruncateBetween(x: real, n: int)
    requires 0.0 <= x <= n as real && n <= IntMax
    ensures 0 <= TruncateToInt(x) <= n
  {
    assert x.Floor as real <= x;
  }

  lemma FractionBounds(c: real, p: real) returns (x: real)
    requires 0.0 <= c && 0.0 <= p <= 1.0
    ensures x == c * p && 0.0 <= x <= c
  {
    x := c * p;
    assert c * p + c * (1.0 - p) == c;
    assert c * (1.0 - p) >= 0.0;
  }

  /** Replacing the children of a node by some of them keeps the table well formed. */
  lemma CutKeepsWellFormed(t: NodeTable, node: nat, kept: seq<nat>, ellipsed: seq<bool>)
    requires t.WellFormed() && node < |t.sampleCount| && |ellipsed| == |t.sampleCount|
    requires forall x :: x in kept ==> x in t.children[node]
    ensures NodeTable(t.sampleCount, t.timerName, t.children[node := kept], ellipsed).WellFormed()
  {
    var c := t.children[node := kept];
    forall i, k | 0 <= i < |c| && 0 <= k < |c[i]| ensures i < c[i][k] < |t.sampleCount| {
      if i == node {
        assert c[i][k] in t.children[node];
      }
    }
  }

  class ProfileArena {
    var sampleCount: seq<int>
    var timerName: seq<string>
    var children: seq<seq<nat>>
    var ellipsed: seq<bool>

    function Table(): NodeTable
      reads this
    {
      NodeTable(sampleCount, timerName, children, ellipsed)
    }

    ghost predicate Valid()
      reads this
    {
      Table().WellFormed()
    }

    /** A fresh table of unmarked nodes. */
    constructor (sampleCount: seq<int>, timerName: seq<string>, children: seq<seq<nat>>)
      requires NodeTable(sampleCount, timerName, children, seq(|sampleCount|, _ => false)).WellFormed()
      ensures Valid()
      ensures Table() == NodeTable(sampleCount, timerName, children, seq(|sampleCount|, _ => false))
    {
      this.sampleCount := sampleCount;
      this.timerName := timerName;
      this.children := children;
      this.ellipsed := seq(|sampleCount|, _ => false);
    }

    /** The iterator loop of truncateLeafs over one node's children: each child below the
        minimum is removed and marks the node ellipsed; the others are returned, in order,
        to be queued. */
    method TruncateChildren(node: nat, minSamples: int) returns (kept: seq<nat>)
      requires Valid() && node < |sampleCount|
      modifies this
      ensures sampleCount == old(sampleCount) && timerName == old(timerName)
      ensures Valid()
      ensures kept == FilterIndices(old(children[node]), sampleCount, minSamples)
      ensures children == old(children)[node := kept]
      ensures ellipsed == old(ellipsed)[node := old(ellipsed[node]) || |kept| < |old(children[node])|]
    {
      var nodeChildren := children[node];
      assert forall j :: 0 <= j < |nodeChildren| ==> nodeChildren[j] < |sampleCount|;
      var nodeEllipsed := ellipsed[node];
      kept := [];
      for k := 0 to |nodeChildren|
        invariant kept == FilterIndices(nodeChildren[..k], sampleCount, minSamples)
        invariant nodeEllipsed == (old(ellipsed[node]) || |kept| < k)
        modifies {}
      {
        FilterIndicesSnoc(nodeChildren, sampleCount, minSamples, k);
        var childNode := nodeChildren[k];
        if sampleCount[childNode] < minSamples {
          nodeEllipsed := true;
        } else {
          kept := kept + [childNode];
        }
      }
      assert nodeChildren[..|nodeChildren|] == nodeChildren;
      CutKeepsWellFormed(Table(), node, kept, ellipsed[node := nodeEllipsed]);
      children := children[node := kept];
      ellipsed := ellipsed[node := nodeEllipsed];
    }

    /** truncateLeafs: breadth first from the given nodes, each visited node loses the
        children below the minimum (and is marked ellipsed if it lost one); the given nodes
        themselves stay. The tree at each given node becomes its truncation, every node is
        either unchanged or truncated once, and nodes before all given ones are untouched. */
    method TruncateLeafs(rootNodes: seq<nat>, minSamples: int)
      requires Valid()
      requires forall k :: 0 <= k < |rootNodes| ==> rootNodes[k] < |sampleCount|
      modifies this
      ensures Valid() && SameNodes(old(Table()), Table())
      ensures forall k :: 0 <= k < |rootNodes| ==>
                Table().Tree(rootNodes[k]) == Prune(old(Table()).Tree(rootNodes[k]), minSamples)
      ensures forall j :: 0 <= j < |sampleCount| ==>
                UnchangedAt(old(Table()), Table(), j) || PrunedAt(old(Table()), Table(), j, minSamples)
      ensures forall j :: 0 <= j < |sampleCount| && (forall r :: r in rootNodes ==> j < r) ==>
                UnchangedAt(old(Table()), Table(), j)
    {
      ghost var before := Table();
      ghost var visited: set<nat> := {};
      var toBeVisited := rootNodes;
      while toBeVisited != []
        invariant Valid()
        invariant QueueInvariant(before, Table(), visited, toBeVisited, rootNodes, minSamples)
        decreases QueuePaths(before, toBeVisited)
      {
        var node := toBeVisited[0];
        ghost var queue := toBeVisited;
        ghost var pre := Table();
        toBeVisited := toBeVisited[1..];
        var kept := TruncateChildren(node, minSamples);
        VisitStep(before, pre, Table(), visited, queue, rootNodes, minSamples);
        toBeVisited := toBeVisited + kept;
        visited := visited + {node};
      }
      QueueDrained(before, Table(), visited, rootNodes, minSamples);
    }

    /** getProfile over a merged profile whose synthetic root is `syntheticRoot`: a zero
        percentage leaves the profile as it is; otherwise the root's children are truncated
        with the minimum taken from the root's sample count, and the root keeps them all. */
    method GetProfile(syntheticRoot: nat, truncateLeafPercentage: real)
      requires Valid() && syntheticRoot < |sampleCount|
      modifies this
      ensures Valid() && SameNodes(old(Table()), Table())
      ensures UnchangedAt(old(Table()), Table(), syntheticRoot)
      ensures truncateLeafPercentage == 0.0 ==> Table() == old(Table())
      ensures truncateLeafPercentage != 0.0 ==>
                var minSamples := MinSamples(old(sampleCount[syntheticRoot]), truncateLeafPercentage);
                var roots := old(children[syntheticRoot]);
                (forall k :: 0 <= k < |roots| ==>
                   Table().Tree(roots[k]) == Prune(old(Table()).Tree(roots[k]), minSamples)) &&
                (forall j :: 0 <= j < |sampleCount| ==>
                   UnchangedAt(old(Table()), Table(), j) || PrunedAt(old(Table()), Table(), j, minSamples))
    {
      if truncateLeafPercentage != 0.0 {
        var minSamples := MinSamples(sampleCount[syntheticRoot], truncateLeafPercentage);
        ghost var before := Table();
        assert forall r :: r in children[syntheticRoot] ==> syntheticRoot < r;
        TruncateLeafs(children[syntheticRoot], minSamples);
        assert UnchangedAt(before, Table(), syntheticRoot);
      }
    }
  }

  // ---------------------------------------------------------------------------------------
  // The invariant of the queue loop of truncateLeafs, one conjunct at a time

  /** Every visited node has been truncated once. */
  ghost predicate VisitedPruned(before: NodeTable, now: NodeTable, visited: set<nat>, minSamples: int)
    requires SameNodes(before, now)
  {
    forall x :: x in visited ==> x < |before.sampleCount| && PrunedAt(before, now, x, minSamples)
  }

  /** Every node not visited is untouched. */
  ghost predicate OthersUnchanged(before: NodeTable, now: NodeTable, visited: set<nat>)
    requires SameNodes(before, now)
  {
    forall j :: 0 <= j < |before.sampleCount| && j !in visited ==> UnchangedAt(before, now, j)
  }

  /** The queue holds node positions. */
  ghost predicate QueueBounded(now: NodeTable, queue: seq<nat>)
  {
    forall k :: 0 <= k < |queue| ==> queue[k] < |now.sampleCount|
  }

  /** The surviving children of a visited node are visited or queued. */
  ghost predicate ChildrenReached(now: NodeTable, visited: set<nat>, queue: seq<nat>)
  {
    forall x, k {:trigger now.children[x][k]} ::
      x in visited && x < |now.children| && 0 <= k < |now.children[x]| ==>
                     now.children[x][k] in visited || now.children[x][k] in queue
  }

  /** Every given node is visited or queued. */
  ghost predicate RootsReached(rootNodes: seq<nat>, visited: set<nat>, queue: seq<nat>)
  {
    forall k :: 0 <= k < |rootNodes| ==> rootNodes[k] in visited || rootNodes[k] in queue
  }

  /** Everything visited or queued lies at or after some given node. */
  ghost predicate AfterRoots(rootNodes: seq<nat>, visited: set<nat>, queue: seq<nat>)
  {
    (forall x :: x in visited ==> exists r :: r in rootNodes && r <= x) &&
    (forall k :: 0 <= k < |queue| ==> exists r :: r in rootNodes && r <= queue[k])
  }

  /** The invariant of the queue loop of truncateLeafs. */
  ghost predicate QueueInvariant(before: NodeTable, now: NodeTable, visited: set<nat>,
                                 queue: seq<nat>, rootNodes: seq<nat>, minSamples: int)
  {
    SameNodes(before, now) && VisitedPruned(before, now, visited, minSamples) &&
    OthersUnchanged(before, now, visited) && QueueBounded(before, queue) &&
    ChildrenReached(now, visited, queue) && RootsReached(rootNodes, visited, queue) &&
    AfterRoots(rootNodes, visited, queue)
  }

  /** Visiting the head of the queue keeps the invariant and shrinks the queue's paths. */
  lemma VisitStep(before: NodeTable, pre: NodeTable, post: NodeTable, visited: set<nat>,
                  queue: seq<nat>, rootNodes: seq<nat>, minSamples: int)
    requires QueueInvariant(before, pre, visited, queue, rootNodes, minSamples) && queue != []
    requires post.WellFormed()
    requires post.sampleCount == pre.sampleCount && post.timerName == pre.timerName
    requires var kept := FilterIndices(pre.children[queue[0]], pre.sampleCount, minSamples);
             post.children == pre.children[queue[0] := kept] &&
             post.ellipsed == pre.ellipsed[queue[0] := pre.ellipsed[queue[0]] ||
                                                      |kept| < |pre.children[queue[0]]|]
    ensures var kept := FilterIndices(pre.children[queue[0]], pre.sampleCount, minSamples);
            QueueInvariant(before, post, visited + {queue[0]}, queue[1..] + kept, rootNodes,
                           minSamples) &&
            QueuePaths(before, queue[1..] + kept) < QueuePaths(before, queue)
  {
    var node := queue[0];
    var kept := FilterIndices(pre.children[node], pre.sampleCount, minSamples);
    StepPruned(before, pre, post, visited, node, minSamples);
    StepReached(pre, post, visited, queue, kept, rootNodes);
    assert forall k :: 0 <= k < |kept| ==> node < post.children[node][k];
    StepAfterRoots(rootNodes, visited, queue, kept);
    QueueShrinks(before, queue, minSamples);
    var next := queue[1..] + kept;
    forall k | 0 <= k < |next| ensures next[k] < |before.sampleCount| {
      if k < |queue| - 1 {
        assert next[k] == queue[k + 1];
      } else {
        assert next[k] == kept[k - |queue| + 1];
      }
    }
  }

  /** Truncating the head of the queue truncates it once more only in name: a node visited
      twice keeps its children, since filtering is idempotent. */
  lemma StepPruned(before: NodeTable, pre: NodeTable, post: NodeTable, visited: set<nat>,
                   node: nat, minSamples: int)
    requires SameNodes(before, pre) && SameNodes(before, post) && node < |before.sampleCount|
    requires VisitedPruned(before, pre, visited, minSamples) && OthersUnchanged(before, pre, visited)
    requires var kept := FilterIndices(pre.children[node], pre.sampleCount, minSamples);
             post.children == pre.children[node := kept] &&
             post.ellipsed == pre.ellipsed[node := pre.ellipsed[node] ||
                                                  |kept| < |pre.children[node]|]
    ensures FilterIndices(pre.children[node], pre.sampleCount, minSamples) ==
            FilterIndices(before.children[node], before.sampleCount, minSamples)
    ensures VisitedPruned(before, post, visited + {node}, minSamples)
    ensures OthersUnchanged(before, post, visited + {node})
  {
    if node in visited {
      FilterIndicesIdempotent(before.children[node], before.sampleCount, minSamples);
    } else {
      assert UnchangedAt(before, pre, node);
    }
    assert PrunedAt(before, post, node, minSamples);
    forall x | x in visited + {node}
      ensures x < |before.sampleCount| && PrunedAt(before, post, x, minSamples)
    {
      if x != node {
        assert PrunedAt(before, pre, x, minSamples);
      }
    }
    forall j | 0 <= j < |before.sampleCount| && j !in visited + {node}
      ensures UnchangedAt(before, post, j)
    {
      assert UnchangedAt(before, pre, j);
    }
  }

  lemma StepReached(pre: NodeTable, post: NodeTable, visited: set<nat>, queue: seq<nat>,
                    kept: seq<nat>, rootNodes: seq<nat>)
    requires queue != [] && queue[0] < |pre.children|
    requires post.children == pre.children[queue[0] := kept]
    requires ChildrenReached(pre, visited, queue) && RootsReached(rootNodes, visited, queue)
    ensures ChildrenReached(post, visited + {queue[0]}, queue[1..] + kept)
    ensures RootsReached(rootNodes, visited + {queue[0]}, queue[1..] + kept)
  {
    var node := queue[0];
    var nextVisited := visited + {node};
    var nextQueue := queue[1..] + kept;
    forall c | c in queue ensures c in nextVisited || c in nextQueue {
      var i :| 0 <= i < |queue| && queue[i] == c;
      if i > 0 {
        assert nextQueue[i - 1] == c;
      }
    }
    forall x, k | x in nextVisited && x < |post.children| && 0 <= k < |post.children[x]|
      ensures post.children[x][k] in nextVisited || post.children[x][k] in nextQueue
    {
      if x == node {
        assert nextQueue[|queue| - 1 + k] == kept[k];
      } else {
        assert post.children[x][k] == pre.children[x][k];
      }
    }
  }

  lemma StepAfterRoots(rootNodes: seq<nat>, visited: set<nat>, queue: seq<nat>, kept: seq<nat>)
    requires queue != [] && AfterRoots(rootNodes, visited, queue)
    requires forall k :: 0 <= k < |kept| ==> queue[0] < kept[k]
    ensures AfterRoots(rootNodes, visited + {queue[0]}, queue[1..] + kept)
  {
    var node := queue[0];
    var nextQueue := queue[1..] + kept;
    assert exists r :: r in rootNodes && r <= node;
    forall k | 0 <= k < |nextQueue| ensures exists r :: r in rootNodes && r <= nextQueue[k] {
      if k < |queue| - 1 {
        assert nextQueue[k] == queue[k + 1];
      } else {
        var r :| r in rootNodes && r <= node;
        assert nextQueue[k] == kept[k - |queue| + 1];
      }
    }
  }

  /** Once the queue is empty, the visited nodes are closed under surviving children. */
  lemma QueueDrained(before: NodeTable, now: NodeTable, visited: set<nat>, rootNodes: seq<nat>,
                     minSamples: int)
    requires SameNodes(before, now)
    requires VisitedPruned(before, now, visited, minSamples) && OthersUnchanged(before, now, visited)
    requires ChildrenReached(now, visited, []) && RootsReached(rootNodes, visited, [])
    requires AfterRoots(rootNodes, visited, [])
    ensures forall k :: 0 <= k < |rootNodes| ==>
              now.Tree(rootNodes[k]) == Prune(before.Tree(rootNodes[k]), minSamples)
    ensures forall j :: 0 <= j < |before.sampleCount| ==>
              UnchangedAt(before, now, j) || PrunedAt(before, now, j, minSamples)
    ensures forall j :: 0 <= j < |before.sampleCount| && (forall r :: r in rootNodes ==> j < r) ==>
              UnchangedAt(before, now, j)
  {
    forall k | 0 <= k < |rootNodes|
      ensures now.Tree(rootNodes[k]) == Prune(before.Tree(rootNodes[k]), minSamples)
    {
      ClosedSetPruned(before, now, visited, minSamples, rootNodes[k]);
    }
  }
}
