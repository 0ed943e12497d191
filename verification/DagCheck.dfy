// validateDAG: the validator's own cycle test and reachability pass, on any
// list of steps. It skips references to unknown steps and repeated references
// inside one step, and merges steps that share an id.
module DagCheck {
  import opened Wrappers
  import opened Sorting
  import opened Graph
  import opened Kahn
  import Dag

  // Whether the cycle error was added, and the ids warned about as unreachable.
  datatype Report = Report(cycleError: bool, unreachable: seq<string>)

  // The references the validator keeps, as a graph.
  ghost function KeptGraph(def: seq<Dag.StepDef>): Digraph<string> {
    map id | id in Dag.Ids(def) ::
      set s, d | s in def && s.id == id && d in s.dependsOn && d in Dag.Ids(def) :: d
  }

  type Adjacency = map<string, seq<string>>

  // Entry for entry, `reverse` is `edges` turned around.
  ghost predicate Mirrored(edges: Adjacency, reverse: Adjacency) {
    forall n, d {:trigger MirroredAt(edges, reverse, n, d)} :: MirroredAt(edges, reverse, n, d)
  }

  ghost predicate MirroredAt(edges: Adjacency, reverse: Adjacency, n: string, d: string) {
    multiset(Dag.Listed(edges, n))[d] == multiset(Dag.Listed(reverse, d))[n]
  }

  ghost predicate EdgesOf(g: Digraph<string>, edges: Adjacency) {
    && edges.Keys <= g.Keys
    && forall n :: n in g ==> Elems(Dag.Listed(edges, n)) == g[n]
  }

  // ----- Building the adjacency lists -----

  method KeepReferences(s: Dag.StepDef, ids: set<string>, edges0: Adjacency, reverse0: Adjacency)
    returns (edges: Adjacency, reverse: Adjacency)
    requires Mirrored(edges0, reverse0)
    ensures Mirrored(edges, reverse)
    ensures edges.Keys <= edges0.Keys + {s.id}
    ensures forall n :: n != s.id ==> Dag.Listed(edges, n) == Dag.Listed(edges0, n)
    ensures forall d :: d in Dag.Listed(edges, s.id) <==>
                        d in Dag.Listed(edges0, s.id) || (d in s.dependsOn && d in ids)
  {
    edges, reverse := edges0, reverse0;
    var seen: set<string> := {};
    for i := 0 to |s.dependsOn|
      invariant Mirrored(edges, reverse)
      invariant edges.Keys <= edges0.Keys + {s.id}
      invariant forall n :: n != s.id ==> Dag.Listed(edges, n) == Dag.Listed(edges0, n)
      invariant forall d :: d in seen <==> d in s.dependsOn[..i] && d in ids
      invariant forall d :: d in Dag.Listed(edges, s.id) <==> d in Dag.Listed(edges0, s.id) || d in seen
    {
      var dep := s.dependsOn[i];
      assert s.dependsOn[..i + 1] == s.dependsOn[..i] + [dep];
      if !(dep !in ids || dep in seen) {
        seen := seen + {dep};
        MirrorAppend(edges, reverse, s.id, dep);
        edges := edges[s.id := Dag.Listed(edges, s.id) + [dep]];
        reverse := reverse[dep := Dag.Listed(reverse, dep) + [s.id]];
      }
    }
    assert s.dependsOn[..|s.dependsOn|] == s.dependsOn;
  }

  lemma MirrorAppend(edges: Adjacency, reverse: Adjacency, n: string, d: string)
    requires Mirrored(edges, reverse)
    ensures Mirrored(edges[n := Dag.Listed(edges, n) + [d]], reverse[d := Dag.Listed(reverse, d) + [n]])
  {
    var e, r := edges[n := Dag.Listed(edges, n) + [d]], reverse[d := Dag.Listed(reverse, d) + [n]];
    forall n', d' ensures MirroredAt(e, r, n', d') {
      assert MirroredAt(edges, reverse, n', d');
    }
  }

  ghost predicate Kept(def: seq<Dag.StepDef>, ids: set<string>, n: string, d: string) {
    exists s :: s in def && s.id == n && d in s.dependsOn && d in ids
  }

  lemma KeptStep(def: seq<Dag.StepDef>, ids: set<string>, i: nat, n: string, d: string)
    requires i < |def|
    ensures Kept(def[..i + 1], ids, n, d) <==>
            Kept(def[..i], ids, n, d) || (def[i].id == n && d in def[i].dependsOn && d in ids)
  {
    assert def[..i + 1] == def[..i] + [def[i]];
    if Kept(def[..i], ids, n, d) {
      var s :| s in def[..i] && s.id == n && d in s.dependsOn && d in ids;
      assert s in def[..i + 1];
    }
    if def[i].id == n && d in def[i].dependsOn && d in ids {
      assert def[i] in def[..i + 1];
    }
  }

  method BuildLists(def: seq<Dag.StepDef>, ids: set<string>) returns (edges: Adjacency, reverse: Adjacency)
    requires ids == Dag.Ids(def)
    ensures EdgesOf(KeptGraph(def), edges) && Mirrored(edges, reverse)
  {
    edges, reverse := map[], map[];
    for i := 0 to |def|
      invariant edges.Keys <= ids
      invariant Mirrored(edges, reverse)
      invariant forall n, d :: d in Dag.Listed(edges, n) <==> Kept(def[..i], ids, n, d)
    {
      assert def[i] in def;
      ghost var before := edges;
      edges, reverse := KeepReferences(def[i], ids, edges, reverse);
      forall n, d ensures d in Dag.Listed(edges, n) <==> Kept(def[..i + 1], ids, n, d) {
        KeptStep(def, ids, i, n, d);
        assert d in Dag.Listed(before, n) <==> Kept(def[..i], ids, n, d);
      }
    }
    assert def[..|def|] == def;
    forall n, d | n in ids ensures d in Dag.Listed(edges, n) <==> d in KeptGraph(def)[n] {
      assert d in Dag.Listed(edges, n) <==> Kept(def, ids, n, d);
    }
  }

  // ----- Counting what is still missing, with multiplicity -----

  function Outside<T(==)>(s: seq<T>, v: set<T>): nat {
    if s == [] then 0
    else Outside(s[..|s| - 1], v) + if s[|s| - 1] in v then 0 else 1
  }

  lemma {:induction false} OutsideFalls<T>(s: seq<T>, v: set<T>, x: T)
    requires x !in v
    ensures Outside(s, v + {x}) == Outside(s, v) - multiset(s)[x]
  {
    if s != [] {
      OutsideFalls(s[..|s| - 1], v, x);
      assert s == s[..|s| - 1] + [s[|s| - 1]];
    }
  }

  lemma {:induction false} OutsideZero<T>(s: seq<T>, v: set<T>)
    ensures Outside(s, v) == 0 <==> Elems(s) <= v
    ensures Outside(s, {}) == |s|
  {
    if s != [] {
      var last := |s| - 1;
      OutsideZero(s[..last], v);
      assert s == s[..last] + [s[last]];
      assert Elems(s) == Elems(s[..last]) + {s[last]};
    }
  }

  // After the entries in `served` of the current node's reverse list.
  ghost predicate Counts(g: Digraph<string>, edges: Adjacency, inDegree: map<string, int>,
                         done: set<string>, served: seq<string>)
  {
    && inDegree.Keys == g.Keys
    && forall n {:trigger CountAt(edges, inDegree, done, served, n)} ::
         n in g ==> CountAt(edges, inDegree, done, served, n)
  }

  ghost predicate CountAt(edges: Adjacency, inDegree: map<string, int>, done: set<string>, served: seq<string>,
                          n: string)
  {
    n in inDegree && inDegree[n] == Outside(Dag.Listed(edges, n), done) - multiset(served)[n]
  }

  lemma PrefixCount<T>(s: seq<T>, i: nat, x: T)
    requires i < |s|
    ensures multiset(s[..i + 1])[x] == multiset(s[..i])[x] + (if s[i] == x then 1 else 0) <= multiset(s)[x]
  {
    assert s[..i + 1] == s[..i] + [s[i]];
    assert s == s[..i + 1] + s[i + 1..];
  }

  // One decrement keeps the counts, and reaches zero only at the step's last
  // remaining entry.
  lemma ServeEntry(g: Digraph<string>, edges: Adjacency, reverse: Adjacency,
                   done: set<string>, node: string, inDegree: map<string, int>, i: nat)
    requires EdgesOf(g, edges) && Mirrored(edges, reverse) && node !in done
    requires i < |Dag.Listed(reverse, node)|
    requires Counts(g, edges, inDegree, done, Dag.Listed(reverse, node)[..i])
    ensures var dependents := Dag.Listed(reverse, node); var dep := dependents[i];
            dep in g && inDegree[dep] > 0 &&
            Counts(g, edges, inDegree[dep := inDegree[dep] - 1], done, dependents[..i + 1])
  {
    var dependents := Dag.Listed(reverse, node);
    EntryIsCounted(g, edges, reverse, done, node, i);
    forall n ensures multiset(dependents[..i + 1])[n]
                  == multiset(dependents[..i])[n] + (if dependents[i] == n then 1 else 0) {
      PrefixCount(dependents, i, n);
    }
    var dep := dependents[i];
    assert CountAt(edges, inDegree, done, dependents[..i], dep);
    var inDegree' := inDegree[dep := inDegree[dep] - 1];
    forall n | n in g ensures CountAt(edges, inDegree', done, dependents[..i + 1], n) {
      assert CountAt(edges, inDegree, done, dependents[..i], n);
    }
  }

  // The steps whose counter reaches zero are the ones the current node unlocks.
  lemma ZeroMeansUnlocked(g: Digraph<string>, edges: Adjacency, reverse: Adjacency,
                          done: seq<string>, node: string, inDegree: map<string, int>, n: string)
    requires EdgesOf(g, edges) && Mirrored(edges, reverse)
    requires Counts(g, edges, inDegree, Elems(done) + {node}, [])
    ensures n in Dag.Listed(reverse, node) && n in g && inDegree[n] == 0 <==> n in Unlocked(g, done, node)
  {
    if n in g {
      assert CountAt(edges, inDegree, Elems(done) + {node}, [], n);
      OutsideZero(Dag.Listed(edges, n), Elems(done) + {node});
      assert MirroredAt(edges, reverse, n, node);
      assert node in Dag.Listed(edges, n) <==> node in Elems(Dag.Listed(edges, n));
    }
  }

  // The steps served so far whose counter is zero.
  ghost predicate Zeroed(g: Digraph<string>, inDegree: map<string, int>, served: seq<string>, zero: seq<string>) {
    && inDegree.Keys == g.Keys && NoDup(zero)
    && forall n {:trigger ZeroAt(g, inDegree, served, zero, n)} :: ZeroAt(g, inDegree, served, zero, n)
  }

  ghost predicate ZeroAt(g: Digraph<string>, inDegree: map<string, int>, served: seq<string>, zero: seq<string>,
                         n: string)
    requires inDegree.Keys == g.Keys
  {
    n in zero <==> n in served && n in g && inDegree[n] == 0
  }

  lemma ZeroedStep(g: Digraph<string>, inDegree: map<string, int>, served: seq<string>, zero: seq<string>, dep: string)
    requires Zeroed(g, inDegree, served, zero) && dep in g && inDegree[dep] > 0
    ensures Zeroed(g, inDegree[dep := inDegree[dep] - 1], served + [dep],
                   if inDegree[dep] == 1 then zero + [dep] else zero)
  {
    assert ZeroAt(g, inDegree, served, zero, dep);
    if inDegree[dep] == 1 {
      AppendNoDup(zero, dep);
    }
    var inDegree', zero' := inDegree[dep := inDegree[dep] - 1], if inDegree[dep] == 1 then zero + [dep] else zero;
    forall n ensures ZeroAt(g, inDegree', served + [dep], zero', n) {
      assert ZeroAt(g, inDegree, served, zero, n);
    }
  }

  lemma ZeroedAll(g: Digraph<string>, edges: Adjacency, reverse: Adjacency,
                  done: seq<string>, node: string, inDegree: map<string, int>, zero: seq<string>)
    requires EdgesOf(g, edges) && Mirrored(edges, reverse)
    requires Counts(g, edges, inDegree, Elems(done) + {node}, [])
    requires Zeroed(g, inDegree, Dag.Listed(reverse, node), zero)
    ensures Elems(zero) == Unlocked(g, done, node)
  {
    forall n ensures n in zero <==> n in Unlocked(g, done, node) {
      assert ZeroAt(g, inDegree, Dag.Listed(reverse, node), zero, n);
      ZeroMeansUnlocked(g, edges, reverse, done, node, inDegree, n);
    }
  }

  // Mid-way through the current node's reverse list.
  ghost predicate Serving(g: Digraph<string>, edges: Adjacency, reverse: Adjacency, done: seq<string>, node: string,
                          i: nat, inDegree: map<string, int>, zero: seq<string>)
  {
    && EdgesOf(g, edges) && Mirrored(edges, reverse) && node !in Elems(done)
    && i <= |Dag.Listed(reverse, node)|
    && Counts(g, edges, inDegree, Elems(done), Dag.Listed(reverse, node)[..i])
    && Zeroed(g, inDegree, Dag.Listed(reverse, node)[..i], zero)
  }

  lemma ServingStep(g: Digraph<string>, edges: Adjacency, reverse: Adjacency, done: seq<string>, node: string,
                    i: nat, inDegree: map<string, int>, zero: seq<string>)
    requires Serving(g, edges, reverse, done, node, i, inDegree, zero) && i < |Dag.Listed(reverse, node)|
    ensures var dep := Dag.Listed(reverse, node)[i];
            dep in inDegree &&
            Serving(g, edges, reverse, done, node, i + 1, inDegree[dep := inDegree[dep] - 1],
                    if inDegree[dep] == 1 then zero + [dep] else zero)
  {
    var dependents := Dag.Listed(reverse, node);
    ServeEntry(g, edges, reverse, Elems(done), node, inDegree, i);
    ZeroedStep(g, inDegree, dependents[..i], zero, dependents[i]);
    assert dependents[..i + 1] == dependents[..i] + [dependents[i]];
  }

  lemma ServingEnd(g: Digraph<string>, edges: Adjacency, reverse: Adjacency, done: seq<string>, node: string,
                   inDegree: map<string, int>, zero: seq<string>)
    requires Serving(g, edges, reverse, done, node, |Dag.Listed(reverse, node)|, inDegree, zero)
    ensures Counts(g, edges, inDegree, Elems(done) + {node}, [])
    ensures NoDup(zero) && Elems(zero) == Unlocked(g, done, node)
  {
    var dependents := Dag.Listed(reverse, node);
    assert dependents[..|dependents|] == dependents;
    AllEntriesCounted(g, edges, reverse, inDegree, Elems(done), node);
    ZeroedAll(g, edges, reverse, done, node, inDegree, zero);
  }

  method ServeReverse(ghost g: Digraph<string>, ghost edges: Adjacency, reverse: Adjacency,
                      ghost done: seq<string>, node: string,
                      inDegree0: map<string, int>, queue0: seq<string>)
    returns (inDegree: map<string, int>, queue: seq<string>, ghost unlocked: seq<string>)
    requires Serving(g, edges, reverse, done, node, 0, inDegree0, [])
    ensures Counts(g, edges, inDegree, Elems(done) + {node}, [])
    ensures queue == queue0 + unlocked && NoDup(unlocked) && Elems(unlocked) == Unlocked(g, done, node)
  {
    var dependents := Dag.Listed(reverse, node);
    inDegree, queue, unlocked := inDegree0, queue0, [];
    assert queue == queue0 + unlocked;
    for i := 0 to |dependents|
      invariant Serving(g, edges, reverse, done, node, i, inDegree, unlocked)
      invariant queue == queue0 + unlocked
    {
      ServingStep(g, edges, reverse, done, node, i, inDegree, unlocked);
      var dep := dependents[i];
      inDegree := inDegree[dep := inDegree[dep] - 1];
      if inDegree[dep] == 0 {
        queue := queue + [dep];
        assert queue == queue0 + (unlocked + [dep]);
        unlocked := unlocked + [dep];
      }
    }
    ServingEnd(g, edges, reverse, done, node, inDegree, unlocked);
  }

  // Before its own decrement an entry's step still counts this node.
  lemma EntryIsCounted(g: Digraph<string>, edges: Adjacency, reverse: Adjacency,
                       done: set<string>, node: string, i: nat)
    requires EdgesOf(g, edges) && Mirrored(edges, reverse) && node !in done
    requires i < |Dag.Listed(reverse, node)|
    ensures var dependents := Dag.Listed(reverse, node); var dep := dependents[i];
            dep in g && Outside(Dag.Listed(edges, dep), done) > multiset(dependents[..i])[dep]
  {
    var dependents := Dag.Listed(reverse, node);
    var dep := dependents[i];
    assert MirroredAt(edges, reverse, dep, node);
    PrefixCount(dependents, i, dep);
    OutsideFalls(Dag.Listed(edges, dep), done, node);
    assert node in Dag.Listed(edges, dep);
  }

  lemma AllEntriesCounted(g: Digraph<string>, edges: Adjacency, reverse: Adjacency,
                          inDegree: map<string, int>, done: set<string>, node: string)
    requires Mirrored(edges, reverse) && node !in done
    requires Counts(g, edges, inDegree, done, Dag.Listed(reverse, node))
    ensures Counts(g, edges, inDegree, done + {node}, [])
  {
    forall n | n in g ensures CountAt(edges, inDegree, done + {node}, [], n) {
      assert CountAt(edges, inDegree, done, Dag.Listed(reverse, node), n);
      OutsideFalls(Dag.Listed(edges, n), done, node);
      assert MirroredAt(edges, reverse, n, node);
    }
  }

  method CountVisited(ghost g: Digraph<string>, ids: set<string>, edges: Adjacency, reverse: Adjacency)
    returns (visited: nat)
    requires ids == g.Keys && EdgesOf(g, edges) && Mirrored(edges, reverse) && Closed(g)
    ensures visited == |ids| <==> !HasCycle(g)
  {
    var inDegree: map<string, int> := map id | id in ids :: |Dag.Listed(edges, id)|;
    forall n | n in g
      ensures inDegree[n] == Outside(Dag.Listed(edges, n), {})
      ensures inDegree[n] == 0 <==> g[n] == {}
    {
      OutsideZero(Dag.Listed(edges, n), {});
    }
    var queue := Dag.CollectRoots(inDegree, g);
    ghost var done: seq<string> := [];
    visited := 0;
    KahnStart(g);
    assert Elems(done) == {};
    while queue != []
      invariant KahnState(g, done, queue) && visited == |done|
      invariant Counts(g, edges, inDegree, Elems(done), [])
      decreases g.Keys - Elems(done)
    {
      var node := queue[0];
      ghost var unlocked;
      HeadIsNew(g, done, queue);
      ghost var queueBefore := queue;
      inDegree, queue, unlocked := ServeReverse(g, edges, reverse, done, node, inDegree, queue[1..]);
      KahnStepAny(g, done, queueBefore, unlocked);
      done := done + [node];
      visited := visited + 1;
    }
    KahnEnd(g, done);
    assert |g| == |g.Keys|;
  }

  lemma HeadIsNew(g: Digraph<string>, done: seq<string>, queue: seq<string>)
    requires KahnState(g, done, queue) && queue != []
    ensures queue[0] !in Elems(done)
  {
    KahnStep(g, done, queue);
  }

  // ----- Reachability from the roots -----

  // Reached steps that are no longer queued have all their dependents reached.
  ghost predicate Spread(g: Digraph<string>, reachable: set<string>, pending: set<string>) {
    && pending <= reachable <= g.Keys
    && RootSet(g) <= reachable
    && forall n, x :: n in reachable && n !in pending && x in g && n in g[x] ==> x in reachable
  }

  // In an acyclic graph a set that holds the roots and is closed under
  // dependents holds every step.
  lemma SpreadReachesAll(g: Digraph<string>, reachable: set<string>)
    requires Closed(g) && !HasCycle(g) && Spread(g, reachable, {})
    ensures reachable == g.Keys
  {
    var missed := g.Keys - reachable;
    if missed != {} {
      forall u | u in missed ensures PointsInto(g, u, missed) {
        assert u !in RootSet(g);
        var d :| d in g[u];
        assert d in Targets(g, u) && d in missed;
      }
      StuckHasCycle(g, missed);
    }
  }

  method ReachDependents(ghost g: Digraph<string>, dependents: seq<string>, node: string,
                         reachable0: set<string>, queue0: seq<string>)
    returns (reachable: set<string>, queue: seq<string>)
    requires forall x :: x in dependents <==> x in g && node in g[x]
    requires node in reachable0 && Spread(g, reachable0, Elems(queue0) + {node})
    ensures Spread(g, reachable, Elems(queue)) && reachable0 <= reachable
    ensures reachable == reachable0 ==> queue == queue0
  {
    reachable, queue := reachable0, queue0;
    for i := 0 to |dependents|
      invariant Spread(g, reachable, Elems(queue) + {node}) && reachable0 <= reachable
      invariant Elems(dependents[..i]) <= reachable
      invariant reachable == reachable0 ==> queue == queue0
    {
      var dep := dependents[i];
      assert dep in dependents;
      assert dependents[..i + 1] == dependents[..i] + [dep];
      ElemsAppend(dependents[..i], [dep]);
      if dep !in reachable {
        ElemsAppend(queue, [dep]);
        reachable := reachable + {dep};
        queue := queue + [dep];
      }
    }
    assert dependents[..|dependents|] == dependents;
    assert forall x :: x in dependents ==> x in Elems(dependents);
  }

  method CollectRoots(ghost g: Digraph<string>, ids: set<string>, edges: Adjacency) returns (roots: seq<string>)
    requires ids == g.Keys && EdgesOf(g, edges)
    ensures Elems(roots) == RootSet(g)
  {
    var todo := ids;
    roots := [];
    while todo != {}
      invariant todo <= ids
      invariant forall n :: n in roots <==> n in g && n !in todo && g[n] == {}
    {
      var id :| id in todo;
      NoElems(Dag.Listed(edges, id));
      if |Dag.Listed(edges, id)| == 0 {
        roots := roots + [id];
      }
      todo := todo - {id};
    }
  }

  method Reach(ghost g: Digraph<string>, ids: set<string>, edges: Adjacency, reverse: Adjacency)
    returns (reachable: set<string>)
    requires ids == g.Keys && EdgesOf(g, edges) && Mirrored(edges, reverse)
    ensures Spread(g, reachable, {})
  {
    var bfsQueue := CollectRoots(g, ids, edges);
    reachable := set r | r in bfsQueue;
    assert reachable == Elems(bfsQueue);
    while |bfsQueue| > 0
      invariant Spread(g, reachable, Elems(bfsQueue))
      decreases g.Keys - reachable, |bfsQueue|
    {
      reachable, bfsQueue := ReachStep(g, edges, reverse, reachable, bfsQueue);
    }
    assert Elems(bfsQueue) == {};
  }

  // One turn of that loop.
  method ReachStep(ghost g: Digraph<string>, ghost edges: Adjacency, reverse: Adjacency,
                   reachable: set<string>, bfsQueue: seq<string>)
    returns (reachable': set<string>, bfsQueue': seq<string>)
    requires EdgesOf(g, edges) && Mirrored(edges, reverse)
    requires bfsQueue != [] && Spread(g, reachable, Elems(bfsQueue))
    ensures Spread(g, reachable', Elems(bfsQueue'))
    ensures g.Keys - reachable' < g.Keys - reachable || (reachable' == reachable && |bfsQueue'| < |bfsQueue|)
  {
    var node, rest := bfsQueue[0], bfsQueue[1..];
    assert bfsQueue == [node] + rest;
    ElemsAppend([node], rest);
    assert node in Elems(bfsQueue);
    DependentsAreMirrored(g, edges, reverse, node);
    reachable', bfsQueue' := ReachDependents(g, Dag.Listed(reverse, node), node, reachable, rest);
  }

  lemma DependentsAreMirrored(g: Digraph<string>, edges: Adjacency, reverse: Adjacency, node: string)
    requires EdgesOf(g, edges) && Mirrored(edges, reverse)
    ensures forall x :: x in Dag.Listed(reverse, node) <==> x in g && node in g[x]
  {
    forall x ensures x in Dag.Listed(reverse, node) <==> x in g && node in g[x] {
      assert MirroredAt(edges, reverse, x, node);
      assert x in Dag.Listed(reverse, node) <==> x in multiset(Dag.Listed(reverse, node));
      assert node in Dag.Listed(edges, x) <==> node in multiset(Dag.Listed(edges, x));
      if x in g {
        assert node in Dag.Listed(edges, x) <==> node in Elems(Dag.Listed(edges, x));
      }
    }
  }

  lemma KeptGraphIsClosed(def: seq<Dag.StepDef>)
    ensures Closed(KeptGraph(def))
  {
  }

  // The cycle error is exact on every input, and a graph without a cycle never
  // draws an unreachability warning: the second pass is dead weight.
  method ValidateDAG(def: seq<Dag.StepDef>) returns (report: Report)
    ensures report.cycleError <==> HasCycle(KeptGraph(def))
    ensures report.unreachable == []
  {
    var ids := set s | s in def :: s.id;
    ghost var g := KeptGraph(def);
    KeptGraphIsClosed(def);
    var edges, reverse := BuildLists(def, ids);
    var visited := CountVisited(g, ids, edges, reverse);
    if visited != |ids| {
      return Report(true, []);
    }
    var reachable := Reach(g, ids, edges, reverse);
    var unreachable: seq<string> := [];
    for i := 0 to |def|
      invariant Elems(unreachable) <= ids - reachable
    {
      assert def[i] in def;
      if def[i].id !in reachable {
        unreachable := unreachable + [def[i].id];
      }
    }
    SpreadReachesAll(g, reachable);
    NoElems(unreachable);
    return Report(false, unreachable);
  }

  // On references that resolve, validator and compiler look at the same graph,
  // so the validator reports a cycle exactly when ParseDAG would.
  lemma ValidatorAgreesWithCompiler(def: seq<Dag.StepDef>)
    requires forall s, d :: s in def && d in s.dependsOn ==> d in Dag.Ids(def)
    ensures KeptGraph(def) == Dag.GraphOf(def)
  {
    forall id | id in Dag.Ids(def) ensures KeptGraph(def)[id] == Dag.GraphOf(def)[id] {
      forall d ensures d in KeptGraph(def)[id] <==> d in Dag.GraphOf(def)[id] {
        if d in Dag.GraphOf(def)[id] {
          var s :| s in def && s.id == id && d in s.dependsOn;
          assert d in Dag.Ids(def);
        }
      }
    }
  }

  // So the two verdicts agree: on a definition that is otherwise well formed the
  // validator reports a cycle exactly when the compiler refuses it with one.
  method ValidateAndCompile(def: seq<Dag.StepDef>) returns (report: Report, r: Result<Dag.Dag, Dag.ErrorCode>)
    ensures Dag.WellFormed(def) ==> (report.cycleError <==> r == Err(Dag.CycleDetected))
    ensures Dag.WellFormed(def) ==> (r.Ok? <==> report == Report(false, []))
  {
    report := ValidateDAG(def);
    r := Dag.ParseDAG(def);
    if Dag.WellFormed(def) {
      ValidatorAgreesWithCompiler(def);
    }
  }
}
