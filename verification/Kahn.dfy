// The order Kahn's algorithm produces, as a function of the graph alone, and
// what that order means: it lists a step after all its dependencies, and it
// lists every step exactly when the graph has no cycle.
module Kahn {
  import opened Sorting
  import opened Graph

  // Steps map to their dependencies, and every dependency is a step.
  ghost predicate Closed(g: Digraph<string>) {
    forall n, d :: n in g && d in g[n] ==> d in g
  }

  ghost function RootSet(g: Digraph<string>): set<string> {
    set n | n in g && g[n] == {}
  }

  // The steps whose last missing dependency is `node`.
  ghost function Unlocked(g: Digraph<string>, done: seq<string>, node: string): set<string> {
    set n | n in g && node in g[n] && g[n] <= Elems(done) + {node}
  }

  // Listed or queued are exactly the steps whose dependencies are all listed.
  ghost predicate KahnState(g: Digraph<string>, done: seq<string>, queue: seq<string>) {
    && NoDup(done + queue)
    && Topological(g, done)
    && forall n {:trigger ListedRight(g, done, queue, n)} :: ListedRight(g, done, queue, n)
  }

  ghost predicate ListedRight(g: Digraph<string>, done: seq<string>, queue: seq<string>, n: string) {
    n in done + queue <==> n in g && g[n] <= Elems(done)
  }

  ghost function KahnFrom(g: Digraph<string>, done: seq<string>, queue: seq<string>): seq<string>
    requires KahnState(g, done, queue)
    decreases g.Keys - Elems(done)
  {
    if queue == [] then done
    else
      KahnStep(g, done, queue);
      KahnFrom(g, done + [queue[0]], queue[1..] + SortedListing(Unlocked(g, done, queue[0])))
  }

  ghost function KahnOrder(g: Digraph<string>): seq<string> {
    KahnStart(g);
    KahnFrom(g, [], SortedListing(RootSet(g)))
  }

  lemma KahnStart(g: Digraph<string>)
    ensures KahnState(g, [], SortedListing(RootSet(g)))
  {
    var q := SortedListing(RootSet(g));
    assert [] + q == q;
    forall n ensures ListedRight(g, [], q, n) {
      assert n in q <==> n in Elems(q);
    }
  }

  lemma ElemsAppend<T>(s: seq<T>, t: seq<T>)
    ensures Elems(s + t) == Elems(s) + Elems(t)
  {
  }

  lemma NoDupConcat<T>(s: seq<T>, t: seq<T>)
    requires NoDup(s) && NoDup(t) && Elems(s) !! Elems(t)
    ensures NoDup(s + t)
  {
    forall i, j | 0 <= i < j < |s + t| ensures (s + t)[i] != (s + t)[j] {
      if i < |s| <= j {
        assert s[i] in Elems(s) && t[j - |s|] in Elems(t);
      }
    }
  }

  lemma TopologicalExtends(g: Digraph<string>, done: seq<string>, node: string)
    requires Topological(g, done) && node !in done && Targets(g, node) <= Elems(done)
    ensures Topological(g, done + [node])
  {
    var d := done + [node];
    forall i | 0 <= i < |d| ensures TargetsBefore(g, d, i) {
      if i < |done| {
        assert TargetsBefore(g, done, i);
        assert d[..i] == done[..i];
      } else {
        assert d[..i] == done;
        forall t | t in Targets(g, node) ensures t in done {
          assert t in Elems(done);
        }
      }
    }
  }

  // Serving the head of the queue keeps the state, however the newly unlocked
  // steps are arranged.
  lemma KahnStepAny(g: Digraph<string>, done: seq<string>, queue: seq<string>, unlocked: seq<string>)
    requires KahnState(g, done, queue) && queue != []
    requires NoDup(unlocked) && Elems(unlocked) == Unlocked(g, done, queue[0])
    ensures KahnState(g, done + [queue[0]], queue[1..] + unlocked)
    ensures queue[0] in g.Keys - Elems(done)
    ensures Elems(done + [queue[0]]) == Elems(done) + {queue[0]}
  {
    var node := queue[0];
    var done', queue' := done + [node], queue[1..] + unlocked;
    assert (done + queue)[|done|] == node;
    assert node in done + queue && ListedRight(g, done, queue, node);
    assert node !in done by {
      forall i | 0 <= i < |done| ensures done[i] != node {
        assert (done + queue)[i] == done[i];
      }
    }
    TopologicalExtends(g, done, node);
    ElemsAppend(done, [node]);
    assert done' + queue' == (done + queue) + unlocked;
    forall n ensures ListedRight(g, done', queue', n) {
      assert ListedRight(g, done, queue, n);
      assert n in done' + queue' <==> n in done + queue || n in unlocked;
      assert n in unlocked <==> n in Elems(unlocked);
    }
    forall n | n in Elems(unlocked) ensures n !in Elems(done + queue) {
      assert node in g[n] && node !in Elems(done);
      assert ListedRight(g, done, queue, n);
    }
    NoDupConcat(done + queue, unlocked);
  }

  lemma KahnStep(g: Digraph<string>, done: seq<string>, queue: seq<string>)
    requires KahnState(g, done, queue) && queue != []
    ensures KahnState(g, done + [queue[0]],
                      queue[1..] + SortedListing(Unlocked(g, done, queue[0])))
    ensures queue[0] in g.Keys - Elems(done)
    ensures g.Keys - Elems(done + [queue[0]]) < g.Keys - Elems(done)
  {
    KahnStepAny(g, done, queue, SortedListing(Unlocked(g, done, queue[0])));
  }

  // A state of the run: continuing from it gives Kahn's order.
  ghost predicate OnKahnRun(g: Digraph<string>, done: seq<string>, queue: seq<string>) {
    KahnState(g, done, queue) && KahnFrom(g, done, queue) == KahnOrder(g)
  }

  lemma OnKahnRunStart(g: Digraph<string>)
    ensures OnKahnRun(g, [], SortedListing(RootSet(g)))
  {
    KahnStart(g);
  }

  lemma OnKahnRunEnd(g: Digraph<string>, done: seq<string>)
    requires OnKahnRun(g, done, [])
    ensures done == KahnOrder(g)
  {
  }

  lemma OnKahnRunStep(g: Digraph<string>, done: seq<string>, queue: seq<string>)
    requires OnKahnRun(g, done, queue) && queue != []
    ensures OnKahnRun(g, done + [queue[0]], queue[1..] + SortedListing(Unlocked(g, done, queue[0])))
    ensures queue[0] in g.Keys - Elems(done)
    ensures Elems(done + [queue[0]]) == Elems(done) + {queue[0]}
  {
    KahnStep(g, done, queue);
    ElemsAppend(done, [queue[0]]);
  }

  // The queue is served first in, first out, and the run ends with nothing ready.
  lemma {:induction false} KahnFromEnds(g: Digraph<string>, done: seq<string>, queue: seq<string>)
    requires KahnState(g, done, queue)
    ensures KahnState(g, KahnFrom(g, done, queue), [])
    ensures done + queue <= KahnFrom(g, done, queue)
    decreases g.Keys - Elems(done)
  {
    if queue == [] {
      assert done + queue == done;
    } else {
      KahnStep(g, done, queue);
      var done', queue' := done + [queue[0]], queue[1..] + SortedListing(Unlocked(g, done, queue[0]));
      KahnFromEnds(g, done', queue');
      assert done' + queue' == (done + queue) + SortedListing(Unlocked(g, done, queue[0]));
    }
  }

  // A run that ends with an empty queue has listed every step exactly when
  // the graph is acyclic.
  lemma KahnEnd(g: Digraph<string>, order: seq<string>)
    requires Closed(g) && KahnState(g, order, [])
    ensures Elems(order) <= g.Keys
    ensures Elems(order) == g.Keys <==> !HasCycle(g)
    ensures |order| == |g| <==> !HasCycle(g)
  {
    var listed := Elems(order);
    assert order + [] == order;
    forall n ensures n in listed <==> n in g && g[n] <= listed {
      assert ListedRight(g, order, [], n);
    }
    NoDupLength(order);
    if listed == g.Keys {
      TopologicalIsAcyclic(g, order);
    } else {
      MissedNodesAreStuck(g, listed);
      CardinalityProper(listed, g.Keys);
    }
    assert |g| == |g.Keys|;
  }

  // Kahn's order is complete exactly on the acyclic graphs, and is topological.
  lemma KahnOrderIsTopological(g: Digraph<string>)
    requires Closed(g)
    ensures Topological(g, KahnOrder(g))
    ensures Elems(KahnOrder(g)) <= g.Keys
    ensures Elems(KahnOrder(g)) == g.Keys <==> !HasCycle(g)
    ensures |KahnOrder(g)| == |g| <==> !HasCycle(g)
  {
    KahnStart(g);
    KahnFromEnds(g, [], SortedListing(RootSet(g)));
    KahnEnd(g, KahnOrder(g));
  }

  lemma {:induction false} NoDupLength<T>(s: seq<T>)
    requires NoDup(s)
    ensures |Elems(s)| == |s|
  {
    if s == [] {
    } else {
      NoDupLength(s[1..]);
      assert s == [s[0]] + s[1..];
      assert s[0] !in s[1..];
      assert Elems(s) == {s[0]} + Elems(s[1..]);
    }
  }

  lemma CardinalityProper<T>(a: set<T>, b: set<T>)
    requires a < b
    ensures |a| < |b|
  {
    assert b == a + (b - a);
    assert |b| == |a| + |b - a|;
    var x :| x in b && x !in a;
    assert x in b - a;
  }
}
