// ParseDAG: from a list of step definitions to adjacency lists, a topological
// order, roots and parallel levels. Go iterates over its maps in no fixed
// order; the loops here pick the next key nondeterministically, so whatever is
// proved holds for every iteration order.
module Dag {
  import opened Wrappers
  import opened Sorting
  import opened Graph
  import opened Kahn
  import opened Levels

  // A step as ParseDAG sees it. Whether the type-specific config is acceptable
  // is a verdict on JSON, which is taken as given.
  datatype StepDef = StepDef(id: string, stepType: string, configValid: bool, dependsOn: seq<string>)

  datatype ErrorCode = Validation | CycleDetected

  datatype Dag = Dag(
    steps: map<string, StepDef>,
    edges: map<string, seq<string>>,    // step -> dependencies
    reverse: map<string, seq<string>>,  // step -> dependents
    sorted: seq<string>,
    roots: seq<string>,
    levels: seq<seq<string>>)

  const VALID_STEP_TYPES := {"action", "condition", "reasoning", "parallel", "loop", "wait"}

  function DefaultType(s: StepDef): StepDef {
    if s.stepType == "" then s.(stepType := "action") else s
  }

  // ----- What a definition means -----

  ghost function Ids(def: seq<StepDef>): set<string> {
    set s | s in def :: s.id
  }

  ghost predicate UniqueIds(def: seq<StepDef>) {
    forall i, j :: 0 <= i < j < |def| ==> def[i].id != def[j].id
  }

  ghost predicate StepOk(s: StepDef) {
    s.id != "" && DefaultType(s).stepType in VALID_STEP_TYPES && s.configValid
  }

  ghost predicate DepsOk(s: StepDef, ids: set<string>) {
    NoDup(s.dependsOn) && forall d :: d in s.dependsOn ==> d in ids
  }

  ghost predicate WellFormed(def: seq<StepDef>) {
    && def != []
    && UniqueIds(def)
    && forall s :: s in def ==> StepOk(s) && DepsOk(s, Ids(def))
  }

  // depends_on as a graph; no order of the list matters.
  ghost function GraphOf(def: seq<StepDef>): Digraph<string> {
    map id | id in Ids(def) :: set s, d | s in def && s.id == id && d in s.dependsOn :: d
  }

  ghost predicate IsTable(def: seq<StepDef>, steps: map<string, StepDef>) {
    && steps.Keys == Ids(def)
    && forall s :: s in def ==> s.id in steps && steps[s.id] == DefaultType(s)
  }

  ghost function EdgeGraph(edges: map<string, seq<string>>): Digraph<string> {
    map id | id in edges :: Elems(edges[id])
  }

  lemma TableEdges(def: seq<StepDef>, steps: map<string, StepDef>, edges: map<string, seq<string>>)
    requires IsTable(def, steps)
    requires edges.Keys == steps.Keys && forall id :: id in edges ==> edges[id] == steps[id].dependsOn
    ensures EdgeGraph(edges) == GraphOf(def)
  {
    var g := GraphOf(def);
    forall id | id in steps ensures g[id] == Elems(edges[id]) {
      var s :| s in def && s.id == id;
      assert steps[s.id] == DefaultType(s);
      forall s', d | s' in def && s'.id == id && d in s'.dependsOn ensures d in Elems(edges[id]) {
        assert steps[s'.id] == DefaultType(s');
      }
    }
  }

  // ----- First pass: register steps, reject empty and duplicate ids and unknown types -----

  method Register(def: seq<StepDef>) returns (r: Result<map<string, StepDef>, ErrorCode>)
    ensures r.Err? ==> r.error == Validation
    ensures r.Ok? <==> UniqueIds(def) &&
                       forall s :: s in def ==> s.id != "" && DefaultType(s).stepType in VALID_STEP_TYPES
    ensures r.Ok? ==> IsTable(def, r.value)
  {
    var steps := map[];
    for i := 0 to |def|
      invariant UniqueIds(def[..i])
      invariant forall s :: s in def[..i] ==> s.id != "" && DefaultType(s).stepType in VALID_STEP_TYPES
      invariant IsTable(def[..i], steps)
    {
      var step := def[i];
      assert step in def;
      assert def[..i + 1] == def[..i] + [step];
      assert forall s :: s in def[..i + 1] <==> s in def[..i] || s == step;
      if step.id == "" {
        return Err(Validation);
      }
      if step.id in steps {
        var s :| s in def[..i] && s.id == step.id;
        return Err(Validation);
      }
      step := DefaultType(step);
      if step.stepType !in VALID_STEP_TYPES {
        return Err(Validation);
      }
      steps := steps[step.id := step];
    }
    assert def[..|def|] == def;
    return Ok(steps);
  }

  // ----- Second pass: type-specific configuration -----

  method ValidateConfigs(steps: map<string, StepDef>) returns (ok: bool)
    ensures ok <==> forall id :: id in steps ==> steps[id].configValid
  {
    var todo := steps.Keys;
    while todo != {}
      invariant todo <= steps.Keys
      invariant forall id :: id in steps && id !in todo ==> steps[id].configValid
    {
      var id :| id in todo;
      if !steps[id].configValid {
        return false;
      }
      todo := todo - {id};
    }
    return true;
  }

  // ----- Third pass: adjacency lists -----

  function Listed(m: map<string, seq<string>>, k: string): seq<string> {
    if k in m then m[k] else []
  }

  // The reverse lists when the steps in `done` are processed and `cur` is
  // processed up to its first k dependencies.
  ghost predicate ReverseOf(steps: map<string, StepDef>, reverse: map<string, seq<string>>,
                            done: set<string>, cur: string, k: nat)
    requires done <= steps.Keys && cur in steps && k <= |steps[cur].dependsOn|
  {
    forall d :: NoDup(Listed(reverse, d)) &&
                forall n :: n in Listed(reverse, d) <==>
                            (n in done && d in steps[n].dependsOn) ||
                            (n == cur && d in steps[cur].dependsOn[..k])
  }

  ghost predicate AdjacencyOk(steps: map<string, StepDef>, id: string)
    requires id in steps
  {
    DepsOk(steps[id], steps.Keys) && id !in steps[id].dependsOn
  }

  method LinkStep(steps: map<string, StepDef>, id: string, reverse0: map<string, seq<string>>,
                  ghost done: set<string>)
    returns (r: Result<(seq<string>, map<string, seq<string>>), ErrorCode>)
    requires done <= steps.Keys && id in steps && id !in done
    requires ReverseOf(steps, reverse0, done, id, 0)
    ensures r.Ok? <==> AdjacencyOk(steps, id)
    ensures r.Ok? ==> r.value.0 == steps[id].dependsOn &&
                      ReverseOf(steps, r.value.1, done, id, |steps[id].dependsOn|)
    ensures r == Err(CycleDetected) ==> id in steps[id].dependsOn
    ensures r == Err(Validation) ==> !DepsOk(steps[id], steps.Keys)
  {
    var dependsOn := steps[id].dependsOn;
    var seen: set<string> := {};
    var deps, reverse := [], reverse0;
    for i := 0 to |dependsOn|
      invariant deps == dependsOn[..i]
      invariant seen == Elems(dependsOn[..i])
      invariant NoDup(dependsOn[..i]) && id !in dependsOn[..i]
      invariant forall d :: d in dependsOn[..i] ==> d in steps
      invariant ReverseOf(steps, reverse, done, id, i)
    {
      var dep := dependsOn[i];
      assert dep in dependsOn;
      assert dependsOn[..i + 1] == dependsOn[..i] + [dep];
      if dep !in steps {
        return Err(Validation);
      }
      if dep == id {
        return Err(CycleDetected);
      }
      if dep in seen {
        var j :| 0 <= j < i && dependsOn[..i][j] == dep;
        assert dependsOn[j] == dependsOn[i];
        return Err(Validation);
      }
      seen := seen + {dep};
      deps := deps + [dep];
      ghost var before := reverse;
      AppendNoDup(dependsOn[..i], dep);
      assert id !in Listed(reverse, dep);
      AppendNoDup(Listed(reverse, dep), id);
      reverse := reverse[dep := Listed(reverse, dep) + [id]];
      assert forall d :: d != dep ==> Listed(reverse, d) == Listed(before, d);
      assert forall n :: n in Listed(reverse, dep) <==> n in Listed(before, dep) || n == id;
    }
    assert dependsOn[..|dependsOn|] == dependsOn;
    return Ok((deps, reverse));
  }

  method BuildAdjacency(steps: map<string, StepDef>)
    returns (r: Result<(map<string, seq<string>>, map<string, seq<string>>), ErrorCode>)
    ensures r.Ok? <==> forall id :: id in steps ==> AdjacencyOk(steps, id)
    ensures r.Ok? ==> r.value.0.Keys == steps.Keys &&
                      forall id :: id in steps ==> r.value.0[id] == steps[id].dependsOn
    ensures r.Ok? ==> ReverseOfAll(r.value.0, r.value.1)
    ensures r == Err(CycleDetected) ==> exists id :: id in steps && id in steps[id].dependsOn
    ensures r == Err(Validation) ==> exists id :: id in steps && !DepsOk(steps[id], steps.Keys)
  {
    var edges, reverse: map<string, seq<string>> := map[], map[];
    var todo := steps.Keys;
    while todo != {}
      invariant todo <= steps.Keys
      invariant edges.Keys == steps.Keys - todo
      invariant forall id :: id in edges ==> AdjacencyOk(steps, id) && edges[id] == steps[id].dependsOn
      invariant ReverseOfAll(edges, reverse)
    {
      var id :| id in todo;
      var link := LinkStep(steps, id, reverse, edges.Keys);
      if link.Err? {
        return Err(link.error);
      }
      edges, reverse := edges[id := link.value.0], link.value.1;
      todo := todo - {id};
      assert steps[id].dependsOn[..|steps[id].dependsOn|] == steps[id].dependsOn;
    }
    return Ok((edges, reverse));
  }

  ghost predicate ReverseOfAll(edges: map<string, seq<string>>, reverse: map<string, seq<string>>) {
    forall d :: NoDup(Listed(reverse, d)) &&
                forall n :: n in Listed(reverse, d) <==> n in edges && d in edges[n]
  }

  // ----- Kahn's loop -----

  lemma CountFalls(deps: set<string>, done: set<string>, node: string)
    requires node !in done
    ensures |deps - (done + {node})| == |deps - done| - (if node in deps then 1 else 0)
  {
    if node in deps {
      assert deps - done == (deps - (done + {node})) + {node};
    } else {
      assert deps - done == deps - (done + {node});
    }
  }

  // What is still counted against a step, while the dependents in `served` of
  // the current node have been decremented already.
  ghost predicate Counts(g: Digraph<string>, inDegree: map<string, int>, done: set<string>,
                         node: string, served: seq<string>)
  {
    && inDegree.Keys == g.Keys
    && forall n :: n in g ==>
       inDegree[n] == |g[n] - (if n in served then done + {node} else done)|
  }

  // One decrement: the dependent has no dependency left exactly when its
  // counter reaches zero.
  lemma ServeOne(g: Digraph<string>, inDegree: map<string, int>, done: set<string>, node: string,
                 served: seq<string>, dep: string)
    requires Counts(g, inDegree, done, node, served)
    requires node !in done && dep in g && node in g[dep] && dep !in served
    ensures Counts(g, inDegree[dep := inDegree[dep] - 1], done, node, served + [dep])
    ensures inDegree[dep] - 1 == 0 <==> g[dep] <= done + {node}
  {
    CountFalls(g[dep], done, node);
    assert inDegree[dep] == |g[dep] - done|;
    assert g[dep] - (done + {node}) == {} <==> g[dep] <= done + {node};
    forall n ensures n in served + [dep] <==> n in served || n == dep {}
  }

  lemma ServedAll(g: Digraph<string>, inDegree: map<string, int>, done: set<string>, node: string,
                  served: seq<string>)
    requires Counts(g, inDegree, done, node, served)
    requires forall n :: n in served <==> n in g && node in g[n]
    ensures Counts(g, inDegree, done + {node}, "", [])
  {
    forall n | n in g ensures inDegree[n] == |g[n] - (done + {node})| {
      if n !in served {
        assert g[n] - done == g[n] - (done + {node});
      }
    }
  }

  lemma NotInPrefix(s: seq<string>, i: nat)
    requires StrictlySorted(s) && i < |s|
    ensures s[i] !in s[..i] && s[..i + 1] == s[..i] + [s[i]]
    ensures forall x :: x in s[..i] ==> StrLt(x, s[i])
  {
  }

  method ServeDependents(ghost g: Digraph<string>, ghost done: seq<string>, node: string,
                         dependents: seq<string>, inDegree0: map<string, int>, queue0: seq<string>)
    returns (inDegree: map<string, int>, queue: seq<string>)
    requires node !in Elems(done)
    requires ListsSorted(dependents, Dependents(g, node))
    requires Counts(g, inDegree0, Elems(done), "", [])
    ensures Counts(g, inDegree, Elems(done) + {node}, "", [])
    ensures queue == queue0 + SortedListing(Unlocked(g, done, node))
  {
    inDegree, queue := inDegree0, queue0;
    ghost var ext: seq<string>, ready := [], Unlocked(g, done, node);
    ghost var doneSet := Elems(done);
    assert forall x :: x in dependents <==> x in Elems(dependents);
    assert queue == queue0 + ext;
    for i := 0 to |dependents|
      invariant Counts(g, inDegree, doneSet, node, dependents[..i])
      invariant queue == queue0 + ext
      invariant StrictlySorted(ext)
      invariant forall x :: x in ext <==> x in dependents[..i] && x in ready
    {
      var dep := dependents[i];
      assert dep in Elems(dependents);
      NotInPrefix(dependents, i);
      ServeOne(g, inDegree, doneSet, node, dependents[..i], dep);
      inDegree := inDegree[dep := inDegree[dep] - 1];
      if inDegree[dep] == 0 {
        queue := queue + [dep];
        AppendSorted(ext, dep);
        ext := ext + [dep];
      }
    }
    assert dependents[..|dependents|] == dependents;
    ServedAll(g, inDegree, doneSet, node, dependents);
    assert Elems(ext) == ready;
    ListsSortedIsUnique(ext, SortedListing(ready), ready);
  }

  lemma AppendSorted(s: seq<string>, x: string)
    requires StrictlySorted(s) && forall y :: y in s ==> StrLt(y, x)
    ensures StrictlySorted(s + [x])
  {
  }

  method CollectRoots(inDegree: map<string, int>, ghost g: Digraph<string>) returns (roots: seq<string>)
    requires inDegree.Keys == g.Keys && forall n :: n in g ==> (inDegree[n] == 0 <==> g[n] == {})
    ensures roots == SortedListing(RootSet(g))
  {
    var queue: seq<string> := [];
    var todo := inDegree.Keys;
    while todo != {}
      invariant todo <= inDegree.Keys
      invariant NoDup(queue)
      invariant forall x :: x in queue <==> x in g && x !in todo && g[x] == {}
    {
      var id :| id in todo;
      if inDegree[id] == 0 {
        AppendNoDup(queue, id);
        queue := queue + [id];
      }
      todo := todo - {id};
    }
    assert Elems(queue) == RootSet(g);
    roots := SortedCopy(queue);
    SortingIsListing(queue, roots);
  }

  lemma CountsFromEdges(edges: map<string, seq<string>>, inDegree: map<string, int>)
    requires forall n :: n in edges ==> NoDup(edges[n])
    requires inDegree == map id | id in edges :: |edges[id]|
    ensures Counts(EdgeGraph(edges), inDegree, {}, "", [])
    ensures forall n :: n in edges ==> (inDegree[n] == 0 <==> EdgeGraph(edges)[n] == {})
  {
    forall n | n in edges
      ensures inDegree[n] == |EdgeGraph(edges)[n] - {}|
      ensures inDegree[n] == 0 <==> EdgeGraph(edges)[n] == {}
    {
      NoDupLength(edges[n]);
      NoElems(edges[n]);
      assert Elems(edges[n]) - {} == Elems(edges[n]);
    }
  }

  ghost function Dependents(g: Digraph<string>, node: string): set<string> {
    set n | n in g && node in g[n]
  }

  ghost predicate ListsDependents(g: Digraph<string>, reverse: map<string, seq<string>>) {
    forall d {:trigger Listed(reverse, d)} ::
      NoDup(Listed(reverse, d)) && Elems(Listed(reverse, d)) == Dependents(g, d)
  }

  method SortedDependents(ghost g: Digraph<string>, reverse: map<string, seq<string>>, node: string)
    returns (dependents: seq<string>)
    requires ListsDependents(g, reverse)
    ensures ListsSorted(dependents, Dependents(g, node))
  {
    dependents := SortedCopy(Listed(reverse, node));
    SortingIsListing(Listed(reverse, node), dependents);
  }

  method KahnLoop(ghost g: Digraph<string>, reverse: map<string, seq<string>>,
                  inDegree0: map<string, int>, roots: seq<string>)
    returns (sorted: seq<string>)
    requires ListsDependents(g, reverse)
    requires Counts(g, inDegree0, {}, "", [])
    requires roots == SortedListing(RootSet(g))
    ensures sorted == KahnOrder(g)
  {
    var inDegree, queue := inDegree0, roots;
    sorted := [];
    KahnLoopStart(g, inDegree0);
    while queue != []
      invariant KahnLoopState(g, inDegree, sorted, queue)
      decreases g.Keys - Elems(sorted)
    {
      var node := queue[0];
      inDegree, queue := KahnTurn(g, reverse, sorted, inDegree, queue);
      sorted := sorted + [node];
    }
    OnKahnRunEnd(g, sorted);
  }

  ghost predicate KahnLoopState(g: Digraph<string>, inDegree: map<string, int>, sorted: seq<string>,
                                queue: seq<string>)
  {
    OnKahnRun(g, sorted, queue) && Counts(g, inDegree, Elems(sorted), "", [])
  }

  lemma KahnLoopStart(g: Digraph<string>, inDegree: map<string, int>)
    requires Counts(g, inDegree, {}, "", [])
    ensures KahnLoopState(g, inDegree, [], SortedListing(RootSet(g)))
    ensures Elems<string>([]) == {}
  {
    OnKahnRunStart(g);
    NoElems<string>([]);
  }

  // One turn of that loop.
  method KahnTurn(ghost g: Digraph<string>, reverse: map<string, seq<string>>, ghost sorted: seq<string>,
                  inDegree0: map<string, int>, queue0: seq<string>)
    returns (inDegree: map<string, int>, queue: seq<string>)
    requires ListsDependents(g, reverse) && queue0 != []
    requires KahnLoopState(g, inDegree0, sorted, queue0)
    ensures KahnLoopState(g, inDegree, sorted + [queue0[0]], queue)
    ensures queue0[0] in g.Keys - Elems(sorted) && Elems(sorted + [queue0[0]]) == Elems(sorted) + {queue0[0]}
  {
    OnKahnRunStep(g, sorted, queue0);
    var dependents := SortedDependents(g, reverse, queue0[0]);
    inDegree, queue := ServeDependents(g, sorted, queue0[0], dependents, inDegree0, queue0[1..]);
  }

  method RunKahn(edges: map<string, seq<string>>, reverse: map<string, seq<string>>)
    returns (sorted: seq<string>, roots: seq<string>)
    requires forall n :: n in edges ==> NoDup(edges[n])
    requires ReverseOfAll(edges, reverse)
    ensures sorted == KahnOrder(EdgeGraph(edges))
    ensures roots == SortedListing(RootSet(EdgeGraph(edges)))
  {
    ghost var g := EdgeGraph(edges);
    var inDegree: map<string, int> := map id | id in edges :: |edges[id]|;
    CountsFromEdges(edges, inDegree);
    roots := CollectRoots(inDegree, g);
    assert ListsDependents(g, reverse);
    sorted := KahnLoop(g, reverse, inDegree, roots);
  }

  // ----- computeLevels -----

  ghost predicate DepthsOk(g: Digraph<string>, order: seq<string>, depth: map<string, int>) {
    depth.Keys == Elems(order) && forall s :: s in depth ==> LongestChain(g, s, depth[s])
  }

  method ComputeDepths(edges: map<string, seq<string>>, sorted: seq<string>) returns (depth: map<string, int>)
    requires Topological(EdgeGraph(edges), sorted) && Elems(sorted) == edges.Keys
    ensures DepthsOk(EdgeGraph(edges), sorted, depth)
  {
    ghost var g := EdgeGraph(edges);
    depth := map[];
    for i := 0 to |sorted|
      invariant DepthsOk(g, sorted[..i], depth)
    {
      var id := sorted[i];
      assert id in Elems(sorted);
      assert TargetsBefore(g, sorted, i);
      assert sorted[..i + 1] == sorted[..i] + [id];
      ElemsAppend(sorted[..i], [id]);
      var maxDep := DeepestDependency(edges[id], depth);
      LongestChainStep(g, id, depth, maxDep);
      depth := depth[id := maxDep + 1];
    }
    assert sorted[..|sorted|] == sorted;
  }

  method DeepestDependency(deps: seq<string>, depth: map<string, int>) returns (maxDep: int)
    requires forall d :: d in deps ==> d in depth
    ensures maxDep >= -1
    ensures forall d :: d in deps ==> depth[d] <= maxDep
    ensures maxDep == -1 || exists d :: d in deps && depth[d] == maxDep
  {
    maxDep := -1;
    for i := 0 to |deps|
      invariant maxDep >= -1
      invariant forall d :: d in deps[..i] ==> depth[d] <= maxDep
      invariant maxDep == -1 || exists d :: d in deps[..i] && depth[d] == maxDep
    {
      assert deps[..i + 1] == deps[..i] + [deps[i]];
      if depth[deps[i]] > maxDep {
        maxDep := depth[deps[i]];
      }
    }
    assert deps[..|deps|] == deps;
  }

  method MaxDepth(depth: map<string, int>) returns (maxLevel: int)
    ensures maxLevel >= 0 && forall s :: s in depth ==> depth[s] <= maxLevel
    ensures maxLevel == 0 || exists s :: s in depth && depth[s] == maxLevel
  {
    maxLevel := 0;
    var todo := depth.Keys;
    while todo != {}
      invariant todo <= depth.Keys && maxLevel >= 0
      invariant forall s :: s in depth && s !in todo ==> depth[s] <= maxLevel
      invariant maxLevel == 0 || exists s :: s in depth && depth[s] == maxLevel
    {
      var id :| id in todo;
      if depth[id] > maxLevel {
        maxLevel := depth[id];
      }
      todo := todo - {id};
    }
  }

  lemma AtDepthGrows(g: Digraph<string>, order: seq<string>, i: nat, k: int)
    requires i < |order|
    ensures AtDepth(g, order[..i + 1], k)
         == AtDepth(g, order[..i], k) + (if LongestChain(g, order[i], k) then [order[i]] else [])
  {
    var longer := order[..i + 1];
    var flags := seq(|longer|, j requires 0 <= j < |longer| => LongestChain(g, longer[j], k));
    assert longer[..i] == order[..i];
    assert flags[..i] == seq(i, j requires 0 <= j < i => LongestChain(g, order[..i][j], k));
  }

  method GroupByDepth(ghost g: Digraph<string>, sorted: seq<string>, depth: map<string, int>, maxLevel: nat)
    returns (levels: seq<seq<string>>)
    requires DepthsOk(g, sorted, depth)
    requires forall s :: s in depth ==> 0 <= depth[s] <= maxLevel
    ensures |levels| == maxLevel + 1
    ensures forall k :: 0 <= k < |levels| ==> levels[k] == AtDepth(g, sorted, k)
  {
    levels := seq(maxLevel + 1, _ => []);
    for i := 0 to |sorted|
      invariant |levels| == maxLevel + 1
      invariant forall k :: 0 <= k <= maxLevel ==> levels[k] == AtDepth(g, sorted[..i], k)
    {
      var id := sorted[i];
      assert id in Elems(sorted);
      var d := depth[id];
      forall k | 0 <= k <= maxLevel
        ensures AtDepth(g, sorted[..i + 1], k) == AtDepth(g, sorted[..i], k) + (if k == d then [id] else [])
      {
        AtDepthGrows(g, sorted, i, k);
        if LongestChain(g, id, k) {
          LongestChainIsUnique(g, id, k, d);
        }
      }
      levels := levels[d := levels[d] + [id]];
    }
    assert sorted[..|sorted|] == sorted;
  }

  method ComputeLevels(edges: map<string, seq<string>>, sorted: seq<string>) returns (levels: seq<seq<string>>)
    requires Topological(EdgeGraph(edges), sorted) && Elems(sorted) == edges.Keys && sorted != []
    ensures IsLevelling(EdgeGraph(edges), sorted, levels)
  {
    ghost var g := EdgeGraph(edges);
    var depth := ComputeDepths(edges, sorted);
    var maxLevel := MaxDepth(depth);
    forall s | s in depth ensures depth[s] >= 0 {
      LongestChainIsUnique(g, s, depth[s], depth[s]);
    }
    levels := GroupByDepth(g, sorted, depth, maxLevel);
    DepthsGiveLevelling(g, sorted, depth, maxLevel, levels);
  }

  lemma DepthsGiveLevelling(g: Digraph<string>, sorted: seq<string>, depth: map<string, int>, maxLevel: nat,
                            levels: seq<seq<string>>)
    requires DepthsOk(g, sorted, depth) && sorted != []
    requires forall s :: s in depth ==> 0 <= depth[s] <= maxLevel
    requires maxLevel == 0 || exists s :: s in depth && depth[s] == maxLevel
    requires |levels| == maxLevel + 1
    requires forall k :: 0 <= k < |levels| ==> levels[k] == AtDepth(g, sorted, k)
    ensures IsLevelling(g, sorted, levels)
  {
    forall s | s in sorted ensures s in depth && LongestChain(g, s, depth[s]) {
      assert s in Elems(sorted);
    }
    var s := sorted[0];
    if maxLevel > 0 {
      s :| s in depth && depth[s] == maxLevel;
      assert s in Elems(sorted);
    }
    assert s in sorted && LongestChain(g, s, |levels| - 1);
  }

  // ----- ParseDAG -----

  // Everything a compiled DAG is used for, pinned down by the definition.
  ghost predicate Compiled(def: seq<StepDef>, dag: Dag) {
    var g := GraphOf(def);
    && IsTable(def, dag.steps)
    && dag.edges.Keys == dag.steps.Keys
    && (forall id :: id in dag.edges ==> dag.edges[id] == dag.steps[id].dependsOn)
    && ReverseOfAll(dag.edges, dag.reverse)
    && dag.roots == SortedListing(RootSet(g))
    && dag.sorted == KahnOrder(g)
    && IsLevelling(g, dag.sorted, dag.levels)
  }

  method ParseDAG(def: seq<StepDef>) returns (r: Result<Dag, ErrorCode>)
    ensures r.Ok? <==> WellFormed(def) && !HasCycle(GraphOf(def))
    ensures r.Ok? ==> Compiled(def, r.value)
    ensures WellFormed(def) && HasCycle(GraphOf(def)) ==> r == Err(CycleDetected)
    ensures r == Err(CycleDetected) ==> HasCycle(GraphOf(def))
  {
    if |def| == 0 {
      return Err(Validation);
    }
    var registered := Register(def);
    if registered.Err? {
      return Err(registered.error);
    }
    var steps := registered.value;
    TableReflects(def, steps);
    var configsOk := ValidateConfigs(steps);
    if !configsOk {
      return Err(Validation);
    }
    var adjacency := BuildAdjacency(steps);
    if adjacency.Err? {
      if adjacency.error == CycleDetected {
        ghost var id :| id in steps && id in steps[id].dependsOn;
        SelfDependencyIsCycle(def, steps, id);
      }
      return Err(adjacency.error);
    }
    r := SortAndLevel(def, steps, adjacency.value.0, adjacency.value.1);
  }

  // The graph phase of ParseDAG, on steps that passed every other check.
  method SortAndLevel(ghost def: seq<StepDef>, steps: map<string, StepDef>,
                      edges: map<string, seq<string>>, reverse: map<string, seq<string>>)
    returns (r: Result<Dag, ErrorCode>)
    requires def != [] && IsTable(def, steps) && edges.Keys == steps.Keys
    requires forall id :: id in steps ==> edges[id] == steps[id].dependsOn && DepsOk(steps[id], steps.Keys)
    requires ReverseOfAll(edges, reverse)
    ensures r.Ok? <==> !HasCycle(GraphOf(def))
    ensures r.Ok? ==> Compiled(def, r.value)
    ensures r.Err? ==> r.error == CycleDetected
  {
    ghost var g := GraphOf(def);
    TableEdges(def, steps, edges);
    ClosedGraph(def, steps);
    var sorted, roots := RunKahn(edges, reverse);
    KahnOrderIsTopological(g);
    assert |g| == |steps| by {
      assert |g| == |g.Keys| && |steps| == |steps.Keys| && g.Keys == steps.Keys;
    }
    if |sorted| != |steps| {
      return Err(CycleDetected);
    }
    assert sorted != [] by {
      assert def[0] in def && def[0].id in steps;
    }
    var levels := ComputeLevels(edges, sorted);
    return Ok(Dag.Dag(steps, edges, reverse, sorted, roots, levels));
  }

  lemma TableReflects(def: seq<StepDef>, steps: map<string, StepDef>)
    requires IsTable(def, steps)
    ensures (forall id :: id in steps ==> steps[id].configValid) <==> (forall s :: s in def ==> s.configValid)
    ensures (forall id :: id in steps ==> DepsOk(steps[id], steps.Keys)) <==>
            (forall s :: s in def ==> DepsOk(s, Ids(def)))
    ensures forall id :: id in steps ==> exists s :: s in def && s.id == id && steps[id] == DefaultType(s)
  {
    forall id | id in steps ensures exists s :: s in def && s.id == id && steps[id] == DefaultType(s) {
      var s :| s in def && s.id == id;
      assert steps[s.id] == DefaultType(s);
    }
    forall s | s in def ensures DepsOk(s, Ids(def)) <==> DepsOk(steps[s.id], steps.Keys) {
      assert steps[s.id] == DefaultType(s);
    }
  }

  lemma SelfDependencyIsCycle(def: seq<StepDef>, steps: map<string, StepDef>, id: string)
    requires IsTable(def, steps) && id in steps && id in steps[id].dependsOn
    ensures HasCycle(GraphOf(def))
  {
    var g := GraphOf(def);
    var s :| s in def && s.id == id;
    assert steps[s.id] == DefaultType(s);
    assert id in g[id];
    assert EdgeAt(g, [id, id], 0);
    assert IsCycle(g, [id, id]);
  }

  lemma ClosedGraph(def: seq<StepDef>, steps: map<string, StepDef>)
    requires IsTable(def, steps)
    requires forall id :: id in steps ==> DepsOk(steps[id], steps.Keys)
    ensures Closed(GraphOf(def))
  {
    forall n, d | n in GraphOf(def) && d in GraphOf(def)[n] ensures d in GraphOf(def) {
      var s :| s in def && s.id == n && d in s.dependsOn;
      assert steps[s.id] == DefaultType(s);
    }
  }

  // ----- What a caller may rely on -----

  lemma CompiledEdges(def: seq<StepDef>, dag: Dag)
    requires Compiled(def, dag) && WellFormed(def)
    ensures Closed(GraphOf(def)) && EdgeGraph(dag.edges) == GraphOf(def) && dag.edges.Keys == Ids(def)
  {
    TableReflects(def, dag.steps);
    ClosedGraph(def, dag.steps);
    TableEdges(def, dag.steps, dag.edges);
  }

  lemma CompiledGraph(def: seq<StepDef>, dag: Dag)
    requires Compiled(def, dag) && WellFormed(def) && !HasCycle(GraphOf(def))
    ensures Closed(GraphOf(def)) && EdgeGraph(dag.edges) == GraphOf(def) && dag.edges.Keys == Ids(def)
    ensures NoDup(dag.sorted) && Elems(dag.sorted) == Ids(def) && dag.sorted != []
    ensures Topological(GraphOf(def), dag.sorted)
  {
    CompiledEdges(def, dag);
    KahnOrderIsTopological(GraphOf(def));
    NoElems(dag.sorted);
    assert def[0] in def && def[0].id in Ids(def);
  }

  // The compiled order lists every step once, after all it depends on.
  lemma SortedIsTopological(def: seq<StepDef>, dag: Dag)
    requires Compiled(def, dag) && WellFormed(def) && !HasCycle(GraphOf(def))
    ensures NoDup(dag.sorted) && Elems(dag.sorted) == Ids(def)
    ensures forall i, d :: 0 <= i < |dag.sorted| && dag.sorted[i] in dag.edges && d in dag.edges[dag.sorted[i]]
                           ==> d in dag.sorted[..i]
  {
    CompiledGraph(def, dag);
    forall i, d | 0 <= i < |dag.sorted| && dag.sorted[i] in dag.edges && d in dag.edges[dag.sorted[i]]
      ensures d in dag.sorted[..i]
    {
      assert d in EdgeGraph(dag.edges)[dag.sorted[i]];
      assert TargetsBefore(EdgeGraph(dag.edges), dag.sorted, i);
    }
  }

  // The compiled levels start with the roots, hold only steps, and none is empty.
  lemma LevelsAreFilled(def: seq<StepDef>, dag: Dag, k: nat)
    requires Compiled(def, dag) && WellFormed(def) && !HasCycle(GraphOf(def))
    requires k < |dag.levels|
    ensures dag.levels[0] == dag.roots
    ensures dag.levels[k] != [] && NoDup(dag.levels[k]) && Elems(dag.levels[k]) <= Ids(def)
  {
    var g := GraphOf(def);
    CompiledGraph(def, dag);
    LevelZeroIsRoots(g, dag.levels);
    NoLevelIsEmpty(g, dag.sorted, dag.levels, k);
    InAtDepth(g, dag.sorted, k);
    forall s | s in dag.levels[k] ensures s in Ids(def) {
      assert s in Elems(dag.sorted);
    }
  }

  // Every step is in exactly one level, numbered by its longest dependency
  // chain, and every dependency is in a strictly earlier one.
  lemma LevelOfStep(def: seq<StepDef>, dag: Dag, s: string) returns (k: nat)
    requires Compiled(def, dag) && WellFormed(def) && !HasCycle(GraphOf(def))
    requires s in Ids(def)
    ensures k < |dag.levels| && s in dag.levels[k] && LongestChain(GraphOf(def), s, k)
    ensures forall j :: 0 <= j < |dag.levels| && s in dag.levels[j] ==> j == k
    ensures forall d, j :: d in dag.edges[s] && 0 <= j < |dag.levels| && d in dag.levels[j] ==> j < k
  {
    var g := GraphOf(def);
    CompiledGraph(def, dag);
    assert s in Elems(dag.sorted);
    LevelsPartition(g, dag.sorted, dag.levels, s);
    k :| 0 <= k < |dag.levels| && s in dag.levels[k] && LongestChain(g, s, k);
    forall d, j | d in dag.edges[s] && 0 <= j < |dag.levels| && d in dag.levels[j] ensures j < k {
      assert d in EdgeGraph(dag.edges)[s];
      DependencyIsEarlier(g, dag.sorted, dag.levels, s, d, j, k);
    }
  }

  // Compilation is deterministic: definitions that agree on which steps exist
  // and what each depends on get the same order, roots and levels, whatever the
  // order of their lists and of Go's map iteration.
  lemma CompilationIsDeterministic(def: seq<StepDef>, def': seq<StepDef>, dag: Dag, dag': Dag)
    requires Compiled(def, dag) && Compiled(def', dag')
    requires GraphOf(def) == GraphOf(def')
    ensures dag.sorted == dag'.sorted && dag.roots == dag'.roots && dag.levels == dag'.levels
  {
    LevellingIsUnique(GraphOf(def), dag.sorted, dag.levels, dag'.levels);
  }

  // Shuffling the step list changes neither the verdict nor the graph.
  lemma StepOrderIsIrrelevant(def: seq<StepDef>, def': seq<StepDef>)
    requires multiset(def) == multiset(def')
    ensures GraphOf(def) == GraphOf(def')
    ensures WellFormed(def) <==> WellFormed(def')
  {
    forall s ensures s in def <==> s in def' {
      assert s in def <==> s in multiset(def);
      assert s in def' <==> s in multiset(def');
    }
    assert |def| == |multiset(def)| == |multiset(def')| == |def'|;
    assert Ids(def) == Ids(def');
    forall id | id in Ids(def) ensures GraphOf(def)[id] == GraphOf(def')[id] {}
    if UniqueIds(def) {
      UniqueIdsPermute(def, def');
    }
    if UniqueIds(def') {
      UniqueIdsPermute(def', def);
    }
  }

  lemma UniqueIdsPermute(def: seq<StepDef>, def': seq<StepDef>)
    requires UniqueIds(def) && multiset(def) == multiset(def')
    ensures UniqueIds(def')
  {
    MultisetOfNoDup(def, def');
    forall i, j | 0 <= i < j < |def'| ensures def'[i].id != def'[j].id {
      assert def'[i] in Elems(def) && def'[j] in Elems(def);
    }
  }
}
