// Finite dependency graphs: walks, cycles, and the two facts every cycle test
// of the engine rests on. The graph maps a node to the nodes it points at; a
// node without an entry points at nothing.
module Graph {
  import opened Sorting

  type Digraph<T(==)> = map<T, set<T>>

  function Targets<T>(g: Digraph<T>, n: T): set<T> {
    if n in g then g[n] else {}
  }

  // A walk follows edges; a cycle is a walk of at least one edge back to its start.
  ghost predicate EdgeAt<T(!new)>(g: Digraph<T>, p: seq<T>, i: int)
    requires 0 <= i < |p| - 1
  {
    p[i + 1] in Targets(g, p[i])
  }

  ghost predicate IsWalk<T(!new)>(g: Digraph<T>, p: seq<T>) {
    |p| > 0 && forall i :: 0 <= i < |p| - 1 ==> EdgeAt(g, p, i)
  }

  ghost predicate IsCycle<T(!new)>(g: Digraph<T>, p: seq<T>) {
    |p| >= 2 && IsWalk(g, p) && p[0] == p[|p| - 1]
  }

  ghost predicate HasCycle<T(!new)>(g: Digraph<T>) {
    exists p :: IsCycle(g, p)
  }

  lemma SubwalkIsWalk<T(!new)>(g: Digraph<T>, p: seq<T>, lo: nat, hi: nat)
    requires IsWalk(g, p) && lo < hi <= |p|
    ensures IsWalk(g, p[lo..hi])
  {
    forall i | 0 <= i < hi - lo - 1 ensures EdgeAt(g, p[lo..hi], i) {
      assert EdgeAt(g, p, lo + i);
    }
  }

  // A walk can be prolonged along any edge that leaves its end.
  lemma ExtendWalk<T(!new)>(g: Digraph<T>, p: seq<T>, t: T)
    requires IsWalk(g, p) && t in Targets(g, p[|p| - 1])
    ensures IsWalk(g, p + [t])
  {
    forall i | 0 <= i < |p| ensures EdgeAt(g, p + [t], i) {
      if i < |p| - 1 {
        assert EdgeAt(g, p, i);
      }
    }
  }

  // Every target of the node at i stands before i.
  ghost predicate TargetsBefore<T(!new)>(g: Digraph<T>, order: seq<T>, i: int)
    requires 0 <= i < |order|
  {
    forall t :: t in Targets(g, order[i]) ==> t in order[..i]
  }

  ghost predicate Topological<T(!new)>(g: Digraph<T>, order: seq<T>) {
    NoDup(order) && forall i :: 0 <= i < |order| ==> TargetsBefore(g, order, i)
  }

  lemma PositionDecreases<T(!new)>(g: Digraph<T>, order: seq<T>, i: nat, t: T) returns (j: nat)
    requires Topological(g, order) && i < |order| && t in Targets(g, order[i])
    ensures j < i && order[j] == t
  {
    assert TargetsBefore(g, order, i);
    j :| 0 <= j < i && order[..i][j] == t;
  }

  // Along a walk that starts inside a topological order the positions fall.
  lemma {:induction false} WalkFalls<T(!new)>(g: Digraph<T>, order: seq<T>, p: seq<T>, i: nat) returns (j: nat)
    requires Topological(g, order) && IsWalk(g, p) && i < |order| && p[0] == order[i]
    ensures j < |order| && order[j] == p[|p| - 1] && j + |p| <= i + 1
    decreases |p|
  {
    if |p| == 1 {
      j := i;
    } else {
      assert EdgeAt(g, p, 0);
      var k := PositionDecreases(g, order, i, p[1]);
      SubwalkIsWalk(g, p, 1, |p|);
      assert p[1..|p|] == p[1..];
      j := WalkFalls(g, order, p[1..], k);
    }
  }

  // A topological order of every node with an outgoing edge rules out cycles.
  lemma TopologicalIsAcyclic<T(!new)>(g: Digraph<T>, order: seq<T>)
    requires Topological(g, order)
    requires forall n :: n in g && g[n] != {} ==> n in order
    ensures !HasCycle(g)
  {
    if HasCycle(g) {
      var p :| IsCycle(g, p);
      assert EdgeAt(g, p, 0);
      var i :| 0 <= i < |order| && order[i] == p[0];
      var j := WalkFalls(g, order, p, i);
      assert false;
    }
  }

  // A nonempty set in which every node points back into the set.
  ghost predicate Stuck<T(!new)>(g: Digraph<T>, r: set<T>) {
    r != {} && forall n {:trigger PointsInto(g, n, r)} :: n in r ==> PointsInto(g, n, r)
  }

  ghost predicate PointsInto<T(!new)>(g: Digraph<T>, n: T, r: set<T>) {
    exists t :: t in Targets(g, n) && t in r
  }

  lemma {:induction false} StuckWalk<T(!new)>(g: Digraph<T>, r: set<T>, n: nat) returns (p: seq<T>)
    requires Stuck(g, r)
    ensures IsWalk(g, p) && |p| == n + 1 && forall i :: 0 <= i < |p| ==> p[i] in r
    decreases n
  {
    if n == 0 {
      var x :| x in r;
      p := [x];
    } else {
      var q := StuckWalk(g, r, n - 1);
      var x := q[|q| - 1];
      assert PointsInto(g, x, r);
      var y :| y in Targets(g, x) && y in r;
      ExtendWalk(g, q, y);
      p := q + [y];
    }
  }

  lemma {:induction false} Pigeonhole<T>(p: seq<T>, r: set<T>) returns (i: nat, j: nat)
    requires |p| > |r| && forall k :: 0 <= k < |p| ==> p[k] in r
    ensures i < j < |p| && p[i] == p[j]
    decreases |p|
  {
    var last := |p| - 1;
    if k :| 0 <= k < last && p[k] == p[last] {
      i, j := k, last;
    } else {
      assert forall k :: 0 <= k < last ==> p[..last][k] in r - {p[last]};
      i, j := Pigeonhole(p[..last], r - {p[last]});
    }
  }

  lemma StuckHasCycle<T(!new)>(g: Digraph<T>, r: set<T>)
    requires Stuck(g, r)
    ensures HasCycle(g)
  {
    var p := StuckWalk(g, r, |r|);
    var i, j := Pigeonhole(p, r);
    var c := p[i..j + 1];
    SubwalkIsWalk(g, p, i, j + 1);
    assert IsCycle(g, c);
  }

  // A listing closed under "all targets listed" that misses a node of the
  // graph leaves a stuck remainder.
  lemma MissedNodesAreStuck<T(!new)>(g: Digraph<T>, listed: set<T>)
    requires listed < g.Keys
    requires forall n, t :: n in g && t in g[n] ==> t in g
    requires forall n :: n in g && g[n] <= listed ==> n in listed
    ensures HasCycle(g)
  {
    var r := g.Keys - listed;
    var x :| x in g.Keys && x !in listed;
    assert x in r;
    forall n | n in r ensures PointsInto(g, n, r) {
      var t :| t in g[n] && t !in listed;
      assert t in Targets(g, n) && t in r;
    }
    StuckHasCycle(g, r);
  }
}
