// Levels of a dependency graph, specified by longest dependency chains, and
// the guarantees the executor draws from them.
module Levels {
  import opened Sorting
  import opened Graph
  import opened Kahn

  // A dependency chain from s downwards.
  ghost predicate IsChain<T(!new)>(g: Digraph<T>, s: T, p: seq<T>) {
    IsWalk(g, p) && p[0] == s
  }

  // The longest dependency chain below s has exactly k edges.
  ghost predicate LongestChain<T(!new)>(g: Digraph<T>, s: T, k: int) {
    && (exists p :: IsChain(g, s, p) && |p| == k + 1)
    && forall p :: IsChain(g, s, p) ==> |p| <= k + 1
  }

  lemma LongestChainIsUnique<T(!new)>(g: Digraph<T>, s: T, j: int, k: int)
    requires LongestChain(g, s, j) && LongestChain(g, s, k)
    ensures j == k >= 0
  {
    var p :| IsChain(g, s, p) && |p| == j + 1;
    var q :| IsChain(g, s, q) && |q| == k + 1;
  }

  lemma PrependToChain<T(!new)>(g: Digraph<T>, s: T, t: T, p: seq<T>)
    requires IsChain(g, t, p) && t in Targets(g, s)
    ensures IsChain(g, s, [s] + p)
  {
    forall i | 0 <= i < |p| ensures EdgeAt(g, [s] + p, i) {
      if i > 0 {
        assert EdgeAt(g, p, i - 1);
      }
    }
  }

  // The recurrence computeLevels uses: one more than the deepest dependency,
  // where no dependency counts as depth -1.
  lemma LongestChainStep<T(!new)>(g: Digraph<T>, s: T, depth: map<T, int>, m: int)
    requires forall t :: t in Targets(g, s) ==> t in depth && LongestChain(g, t, depth[t]) && depth[t] <= m
    requires m == -1 || exists t :: t in Targets(g, s) && depth[t] == m
    requires m >= -1
    ensures LongestChain(g, s, m + 1)
  {
    if m == -1 {
      assert IsChain(g, s, [s]);
    } else {
      var t :| t in Targets(g, s) && depth[t] == m;
      var p :| IsChain(g, t, p) && |p| == m + 1;
      PrependToChain(g, s, t, p);
      assert |[s] + p| == m + 2;
    }
    forall p | IsChain(g, s, p) ensures |p| <= m + 2 {
      if |p| > 1 {
        assert EdgeAt(g, p, 0);
        SubwalkIsWalk(g, p, 1, |p|);
        assert IsChain(g, p[1], p[1..|p|]);
        assert LongestChain(g, p[1], depth[p[1]]);
      }
    }
  }

  // What follows a longest chain's first element is a longest chain itself.
  lemma SuffixIsLongest<T(!new)>(g: Digraph<T>, s: T, p: seq<T>, i: nat)
    requires IsChain(g, s, p) && LongestChain(g, s, |p| - 1) && i < |p|
    ensures LongestChain(g, p[i], |p| - 1 - i)
  {
    SubwalkIsWalk(g, p, i, |p|);
    assert IsChain(g, p[i], p[i..|p|]);
    forall q | IsChain(g, p[i], q) ensures |q| <= |p| - i {
      var r := p[..i] + q;
      forall k | 0 <= k < |r| - 1 ensures EdgeAt(g, r, k) {
        if k < i {
          assert EdgeAt(g, p, k);
          assert r[k + 1] == p[k + 1];
        } else {
          assert EdgeAt(g, q, k - i);
        }
      }
      assert IsChain(g, s, r);
    }
  }

  ghost function Select<T>(order: seq<T>, chosen: seq<bool>): seq<T>
    requires |chosen| == |order|
  {
    if order == [] then []
    else
      var last := |order| - 1;
      Select(order[..last], chosen[..last]) + if chosen[last] then [order[last]] else []
  }

  lemma {:induction false} InSelect<T>(order: seq<T>, chosen: seq<bool>)
    requires |chosen| == |order|
    ensures forall s :: s in Select(order, chosen) <==> exists i :: 0 <= i < |order| && order[i] == s && chosen[i]
    ensures NoDup(order) ==> NoDup(Select(order, chosen))
  {
    if order != [] {
      var last := |order| - 1;
      InSelect(order[..last], chosen[..last]);
      assert order == order[..last] + [order[last]];
      if NoDup(order) {
        assert NoDup(order[..last]) && order[last] !in order[..last];
        AppendNoDup(Select(order[..last], chosen[..last]), order[last]);
      }
    }
  }

  lemma {:induction false} SelectPrefix<T>(order: seq<T>, chosen: seq<bool>, n: nat)
    requires |chosen| == |order| && n <= |order|
    requires forall i :: 0 <= i < |order| ==> (chosen[i] <==> i < n)
    ensures Select(order, chosen) == order[..n]
  {
    if order != [] {
      var last := |order| - 1;
      var m := if n <= last then n else last;
      SelectPrefix(order[..last], chosen[..last], m);
      assert order[..last][..m] == order[..m];
      assert n > last ==> order[..n] == order[..last] + [order[last]];
    }
  }

  // The steps of `order` at depth k, in that order.
  ghost function AtDepth(g: Digraph<string>, order: seq<string>, k: int): seq<string> {
    Select(order, seq(|order|, i requires 0 <= i < |order| => LongestChain(g, order[i], k)))
  }

  lemma InAtDepth(g: Digraph<string>, order: seq<string>, k: int)
    ensures forall s :: s in AtDepth(g, order, k) <==> s in order && LongestChain(g, s, k)
    ensures NoDup(order) ==> NoDup(AtDepth(g, order, k))
  {
    InSelect(order, seq(|order|, i requires 0 <= i < |order| => LongestChain(g, order[i], k)));
  }

  // The levels computeLevels must return for a graph and a processing order.
  ghost predicate IsLevelling(g: Digraph<string>, order: seq<string>, levels: seq<seq<string>>) {
    && |levels| > 0
    && (forall k :: 0 <= k < |levels| ==> levels[k] == AtDepth(g, order, k))
    && (forall s :: s in order ==> exists k :: 0 <= k < |levels| && LongestChain(g, s, k))
    && exists s :: s in order && LongestChain(g, s, |levels| - 1)
  }

  lemma LevellingIsUnique(g: Digraph<string>, order: seq<string>, a: seq<seq<string>>, b: seq<seq<string>>)
    requires IsLevelling(g, order, a) && IsLevelling(g, order, b)
    ensures a == b
  {
    NotLonger(g, order, a, b);
    NotLonger(g, order, b, a);
    assert forall k :: 0 <= k < |a| ==> a[k] == b[k];
  }

  lemma NotLonger(g: Digraph<string>, order: seq<string>, a: seq<seq<string>>, b: seq<seq<string>>)
    requires IsLevelling(g, order, a) && IsLevelling(g, order, b)
    ensures |a| <= |b|
  {
    var s :| s in order && LongestChain(g, s, |a| - 1);
    var k :| 0 <= k < |b| && LongestChain(g, s, k);
    LongestChainIsUnique(g, s, k, |a| - 1);
  }

  // Every step is in exactly one level, the one of its longest chain.
  lemma LevelsPartition(g: Digraph<string>, order: seq<string>, levels: seq<seq<string>>, s: string)
    requires IsLevelling(g, order, levels) && NoDup(order) && s in order
    ensures exists k :: 0 <= k < |levels| && s in levels[k] && LongestChain(g, s, k)
    ensures forall j, k :: 0 <= j < |levels| && 0 <= k < |levels| && s in levels[j] && s in levels[k] ==> j == k
    ensures forall k :: 0 <= k < |levels| ==> NoDup(levels[k])
  {
    forall k | 0 <= k < |levels|
      ensures s in levels[k] <==> LongestChain(g, s, k)
      ensures NoDup(levels[k])
    {
      InAtDepth(g, order, k);
    }
    forall j, k | 0 <= j < |levels| && 0 <= k < |levels| && s in levels[j] && s in levels[k] ensures j == k {
      LongestChainIsUnique(g, s, j, k);
    }
  }

  // A dependency sits in a strictly earlier level.
  lemma DependencyIsEarlier(g: Digraph<string>, order: seq<string>, levels: seq<seq<string>>,
                            s: string, d: string, j: int, k: int)
    requires IsLevelling(g, order, levels) && d in Targets(g, s)
    requires 0 <= j < |levels| && 0 <= k < |levels| && d in levels[j] && s in levels[k]
    ensures j < k
  {
    InAtDepth(g, order, j);
    InAtDepth(g, order, k);
    var p :| IsChain(g, d, p) && |p| == j + 1;
    PrependToChain(g, s, d, p);
  }

  lemma {:induction false} WalkStaysInside(g: Digraph<string>, p: seq<string>, i: nat)
    requires Closed(g) && IsWalk(g, p) && p[0] in g && i < |p|
    ensures p[i] in g
  {
    if i > 0 {
      WalkStaysInside(g, p, i - 1);
      assert EdgeAt(g, p, i - 1);
    }
  }

  // No level is empty: the longest chain of a deepest step visits all of them.
  lemma NoLevelIsEmpty(g: Digraph<string>, order: seq<string>, levels: seq<seq<string>>, k: nat)
    requires IsLevelling(g, order, levels) && k < |levels|
    requires Closed(g) && Elems(order) == g.Keys
    ensures levels[k] != []
  {
    var s :| s in order && LongestChain(g, s, |levels| - 1);
    var p :| IsChain(g, s, p) && |p| == |levels|;
    var i := |levels| - 1 - k;
    SuffixIsLongest(g, s, p, i);
    assert s in Elems(order);
    WalkStaysInside(g, p, i);
    assert p[i] in Elems(order);
    InAtDepth(g, order, k);
  }

  // A way to run the steps in numbered rounds, each after its dependencies.
  ghost predicate ValidRounds(g: Digraph<string>, round: map<string, int>) {
    && round.Keys == g.Keys
    && (forall s :: s in g ==> round[s] >= 0)
    && forall s, d :: s in g && d in g[s] && d in g ==> round[d] < round[s]
  }

  lemma {:induction false} RoundsFallAlongWalk(g: Digraph<string>, round: map<string, int>, p: seq<string>, i: nat)
    requires Closed(g) && ValidRounds(g, round) && IsWalk(g, p) && p[0] in g && i < |p|
    ensures p[i] in g && round[p[i]] + i <= round[p[0]]
  {
    if i > 0 {
      RoundsFallAlongWalk(g, round, p, i - 1);
      assert EdgeAt(g, p, i - 1);
    }
  }

  lemma RoundAtLeastDepth(g: Digraph<string>, round: map<string, int>, s: string, k: int)
    requires Closed(g) && ValidRounds(g, round) && s in g && LongestChain(g, s, k)
    ensures round[s] >= k
  {
    var p :| IsChain(g, s, p) && |p| == k + 1;
    RoundsFallAlongWalk(g, round, p, k);
  }

  // No other assignment runs a step earlier or needs fewer rounds.
  lemma LevelsAreMinimal(g: Digraph<string>, order: seq<string>, levels: seq<seq<string>>, round: map<string, int>)
    requires IsLevelling(g, order, levels) && Closed(g) && Elems(order) == g.Keys
    requires ValidRounds(g, round)
    ensures forall k, s :: 0 <= k < |levels| && s in levels[k] ==> s in g && round[s] >= k
    ensures exists s :: s in g && round[s] >= |levels| - 1
  {
    forall k, s | 0 <= k < |levels| && s in levels[k] ensures s in g && round[s] >= k {
      InAtDepth(g, order, k);
      assert s in Elems(order);
      RoundAtLeastDepth(g, round, s, k);
    }
    var s :| s in order && LongestChain(g, s, |levels| - 1);
    assert s in Elems(order);
    RoundAtLeastDepth(g, round, s, |levels| - 1);
  }

  // Level 0 is the list of roots.
  lemma LevelZeroIsRoots(g: Digraph<string>, levels: seq<seq<string>>)
    requires IsLevelling(g, KahnOrder(g), levels)
    ensures levels[0] == SortedListing(RootSet(g))
  {
    var order, roots := KahnOrder(g), SortedListing(RootSet(g));
    OrderStartsWithRoots(g);
    forall i | 0 <= i < |order| ensures LongestChain(g, order[i], 0) <==> i < |roots| {
      RootsComeFirst(g, order, roots, i);
    }
    SelectPrefix(order, seq(|order|, i requires 0 <= i < |order| => LongestChain(g, order[i], 0)), |roots|);
  }

  lemma OrderStartsWithRoots(g: Digraph<string>)
    ensures SortedListing(RootSet(g)) <= KahnOrder(g) && KahnState(g, KahnOrder(g), [])
  {
    var roots := SortedListing(RootSet(g));
    KahnStart(g);
    KahnFromEnds(g, [], roots);
    assert [] + roots == roots;
  }

  // Among the steps of a finished run those without dependencies are the roots.
  lemma RootsComeFirst(g: Digraph<string>, order: seq<string>, roots: seq<string>, i: nat)
    requires KahnState(g, order, []) && roots <= order && Elems(roots) == RootSet(g) && i < |order|
    ensures LongestChain(g, order[i], 0) <==> i < |roots|
  {
    assert order + [] == order;
    assert order[i] in order + [] && ListedRight(g, order, [], order[i]);
    DepthZero(g, order[i]);
    PrefixMembers(order, |roots|, i);
    assert order[i] in roots <==> order[i] in Elems(roots);
  }

  lemma PrefixMembers<T>(s: seq<T>, n: nat, i: nat)
    requires NoDup(s) && n <= |s| && i < |s|
    ensures s[i] in s[..n] <==> i < n
  {
    if i < n {
      assert s[..n][i] == s[i];
    }
  }

  lemma DepthZero(g: Digraph<string>, s: string)
    requires s in g
    ensures LongestChain(g, s, 0) <==> g[s] == {}
  {
    assert IsChain(g, s, [s]);
    if g[s] != {} {
      var t :| t in g[s];
      assert IsChain(g, t, [t]);
      PrependToChain(g, s, t, [t]);
    } else {
      LongestChainStep(g, s, map[], -1);
    }
  }
}
