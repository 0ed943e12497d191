// The sub-steps that conditions, loops and parallel steps create while a
// workflow runs: each gets a state of its own under the key
// parent.namespace.id, in the same map as the top-level steps. An Exec is what
// one execution of a step came to, down to the sub-steps it went through.
module SubSteps {
  import opened Wrappers
  import opened Lifecycle

  datatype State = State(status: StepStatus, output: Option<string>)

  datatype Exec = Exec(id: string, end: State, failed: bool, flow: Flow)

  datatype Flow =
    | Plain
    | Condition(key: string, taken: Body)
    | Loop(iterations: seq<Body>)
    | Parallel(branches: seq<Body>)

  datatype Body = Body(steps: seq<Exec>)

  // ----- Namespaces -----

  // fmt's %d.
  function Itoa(n: nat): (s: string)
    ensures s != [] && forall c | c in s :: '0' <= c <= '9'
  {
    var digit := ['0' + (n % 10) as char];
    if n < 10 then digit else Itoa(n / 10) + digit
  }

  function Atoi(s: string): int {
    if s == [] then 0 else 10 * Atoi(s[..|s| - 1]) + (s[|s| - 1] as int - '0' as int)
  }

  lemma {:induction false} AtoiOfItoa(n: nat)
    ensures Atoi(Itoa(n)) == n
  {
    if n >= 10 {
      AtoiOfItoa(n / 10);
      assert Itoa(n)[..|Itoa(n)| - 1] == Itoa(n / 10);
    } else {
      assert Itoa(n)[..0] == [];
    }
  }

  predicate DotFree(s: string) {
    '.' !in s
  }

  // ----- The states an execution creates -----

  datatype Entry = Entry(name: string, end: State)

  function StepEntries(key: string, e: Exec): seq<Entry>
    decreases e, 0
  {
    [Entry(key, e.end)] + FlowEntries(key, e.flow)
  }

  function FlowEntries(key: string, flow: Flow): seq<Entry>
    decreases flow, 0
  {
    match flow
    case Plain => []
    case Condition(branch, taken) => BodyEntries(key + "." + branch, taken.steps)
    case Loop(iterations) => GroupEntries(key, "iter_", iterations, 0, true)
    case Parallel(branches) => GroupEntries(key, "branch_", branches, 0, false)
  }

  // A failing sub-step ends its body.
  function BodyEntries(prefix: string, steps: seq<Exec>): seq<Entry>
    decreases steps, 0
  {
    if steps == [] then []
    else
      StepEntries(prefix + "." + steps[0].id, steps[0])
      + if steps[0].failed then [] else BodyEntries(prefix, steps[1..])
  }

  // A failing iteration ends its loop; parallel branches all run.
  function GroupEntries(key: string, word: string, bodies: seq<Body>, i: nat, stop: bool): seq<Entry>
    decreases bodies, if i <= |bodies| then |bodies| - i else 0
  {
    if i >= |bodies| then []
    else
      BodyEntries(key + "." + (word + Itoa(i)), bodies[i].steps)
      + if stop && Fails(bodies[i].steps) then [] else GroupEntries(key, word, bodies, i + 1, stop)
  }

  predicate Fails(steps: seq<Exec>) {
    exists s :: s in steps && s.failed
  }

  // Every list of steps has distinct ids without dots.
  ghost predicate WellNamed(steps: seq<Exec>)
    decreases steps
  {
    && (forall i, j | 0 <= i < j < |steps| :: steps[i].id != steps[j].id)
    && forall i | 0 <= i < |steps| :: DotFree(steps[i].id) && WellNamedFlow(steps[i].flow)
  }

  ghost predicate WellNamedFlow(flow: Flow)
    decreases flow
  {
    match flow
    case Plain => true
    case Condition(_, taken) => WellNamed(taken.steps)
    case Loop(iterations) => forall i | 0 <= i < |iterations| :: WellNamed(iterations[i].steps)
    case Parallel(branches) => forall i | 0 <= i < |branches| :: WellNamed(branches[i].steps)
  }

  // ----- Moving keys under a prefix -----

  function Shifted(q: string, es: seq<Entry>): seq<Entry> {
    seq(|es|, i requires 0 <= i < |es| => Entry(q + es[i].name, es[i].end))
  }

  lemma ShiftAppend(q: string, a: seq<Entry>, b: seq<Entry>)
    ensures Shifted(q, a + b) == Shifted(q, a) + Shifted(q, b)
  {
  }

  lemma JoinAssociates(q: string, key: string, s: string)
    ensures (q + key) + "." + s == q + (key + "." + s)
  {
  }

  lemma {:induction false} StepShift(q: string, key: string, e: Exec)
    ensures StepEntries(q + key, e) == Shifted(q, StepEntries(key, e))
    decreases e, 0
  {
    FlowShift(q, key, e.flow);
    ShiftAppend(q, [Entry(key, e.end)], FlowEntries(key, e.flow));
  }

  lemma {:induction false} FlowShift(q: string, key: string, flow: Flow)
    ensures FlowEntries(q + key, flow) == Shifted(q, FlowEntries(key, flow))
    decreases flow, 0
  {
    match flow
    case Plain =>
    case Condition(branch, taken) =>
      JoinAssociates(q, key, branch);
      BodyShift(q, key + "." + branch, taken.steps);
    case Loop(iterations) => GroupShift(q, key, "iter_", iterations, 0, true);
    case Parallel(branches) => GroupShift(q, key, "branch_", branches, 0, false);
  }

  lemma {:induction false} BodyShift(q: string, prefix: string, steps: seq<Exec>)
    ensures BodyEntries(q + prefix, steps) == Shifted(q, BodyEntries(prefix, steps))
    decreases steps, 0
  {
    if steps != [] {
      var key := prefix + "." + steps[0].id;
      var rest := if steps[0].failed then [] else BodyEntries(prefix, steps[1..]);
      JoinAssociates(q, prefix, steps[0].id);
      StepShift(q, key, steps[0]);
      BodyShift(q, prefix, steps[1..]);
      ShiftAppend(q, StepEntries(key, steps[0]), rest);
    }
  }

  lemma {:induction false} GroupShift(q: string, key: string, word: string, bodies: seq<Body>, i: nat, stop: bool)
    ensures GroupEntries(q + key, word, bodies, i, stop) == Shifted(q, GroupEntries(key, word, bodies, i, stop))
    decreases bodies, if i <= |bodies| then |bodies| - i else 0
  {
    if i < |bodies| {
      var prefix := key + "." + (word + Itoa(i));
      var rest := if stop && Fails(bodies[i].steps) then [] else GroupEntries(key, word, bodies, i + 1, stop);
      JoinAssociates(q, key, word + Itoa(i));
      BodyShift(q, prefix, bodies[i].steps);
      GroupShift(q, key, word, bodies, i + 1, stop);
      ShiftAppend(q, BodyEntries(prefix, bodies[i].steps), rest);
    }
  }

  // ----- Keys never meet -----

  // n is p or starts with p and a dot.
  predicate Under(n: string, p: string) {
    p <= n && (|n| == |p| || n[|p|] == '.')
  }

  lemma UnderMore(n: string, p: string, s: string)
    requires Under(n, p + "." + s)
    ensures Under(n, p) && |n| > |p|
  {
    assert p + "." + s == p + ("." + s);
    assert n[|p|] == (p + "." + s)[|p|];
  }

  // What follows a common prefix, up to the next dot, can be read off.
  lemma SegmentIsUnique(n: string, p: string, a: string, b: string)
    requires Under(n, p + a) && Under(n, p + b) && DotFree(a) && DotFree(b)
    ensures a == b
  {
    assert forall i | 0 <= i < |a| :: n[|p| + i] == (p + a)[|p| + i] == a[i];
    assert forall i | 0 <= i < |b| :: n[|p| + i] == (p + b)[|p| + i] == b[i];
    assert |a| == |b|;
  }

  lemma {:induction false} StepEntriesUnder(key: string, e: Exec, x: Entry)
    requires x in StepEntries(key, e)
    ensures Under(x.name, key)
    decreases e, 0
  {
    if x != Entry(key, e.end) {
      FlowEntriesUnder(key, e.flow, x);
    }
  }

  lemma {:induction false} FlowEntriesUnder(key: string, flow: Flow, x: Entry)
    requires x in FlowEntries(key, flow)
    ensures Under(x.name, key) && |x.name| > |key|
    decreases flow, 0
  {
    match flow
    case Condition(branch, taken) =>
      var i := BodyEntriesUnder(key + "." + branch, taken.steps, x);
      UnderMore(x.name, key + "." + branch, taken.steps[i].id);
      UnderMore(x.name, key, branch);
    case Loop(iterations) =>
      var i := GroupEntriesUnder(key, "iter_", iterations, 0, true, x);
    case Parallel(branches) =>
      var i := GroupEntriesUnder(key, "branch_", branches, 0, false, x);
  }

  lemma {:induction false} BodyEntriesUnder(prefix: string, steps: seq<Exec>, x: Entry) returns (i: nat)
    requires x in BodyEntries(prefix, steps)
    ensures i < |steps| && Under(x.name, prefix + "." + steps[i].id)
    ensures x in StepEntries(prefix + "." + steps[i].id, steps[i])
    decreases steps, 0
  {
    if x in StepEntries(prefix + "." + steps[0].id, steps[0]) {
      StepEntriesUnder(prefix + "." + steps[0].id, steps[0], x);
      i := 0;
    } else {
      var k := BodyEntriesUnder(prefix, steps[1..], x);
      i := k + 1;
    }
  }

  lemma {:induction false} GroupEntriesUnder(key: string, word: string, bodies: seq<Body>, i: nat, stop: bool, x: Entry)
    returns (k: nat)
    requires x in GroupEntries(key, word, bodies, i, stop)
    ensures i <= k < |bodies| && Under(x.name, key + "." + (word + Itoa(k)))
    ensures x in BodyEntries(key + "." + (word + Itoa(k)), bodies[k].steps)
    ensures Under(x.name, key) && |x.name| > |key|
    decreases bodies, if i <= |bodies| then |bodies| - i else 0
  {
    var prefix := key + "." + (word + Itoa(i));
    if x in BodyEntries(prefix, bodies[i].steps) {
      var j := BodyEntriesUnder(prefix, bodies[i].steps, x);
      UnderMore(x.name, prefix, bodies[i].steps[j].id);
      UnderMore(x.name, key, word + Itoa(i));
      k := i;
    } else {
      k := GroupEntriesUnder(key, word, bodies, i + 1, stop, x);
    }
  }

  // No two siblings of a body, at any depth, share a key.
  ghost predicate Apart(steps: seq<Exec>)
    decreases steps
  {
    && (forall i, j | 0 <= i < j < |steps| ::
          NoneShared(StepEntries(steps[i].id, steps[i]), StepEntries(steps[j].id, steps[j])))
    && forall i | 0 <= i < |steps| :: ApartFlow(steps[i].flow)
  }

  ghost predicate ApartFlow(flow: Flow)
    decreases flow
  {
    match flow
    case Plain => true
    case Condition(_, taken) => Apart(taken.steps)
    case Loop(iterations) => forall i | 0 <= i < |iterations| :: Apart(iterations[i].steps)
    case Parallel(branches) => forall i | 0 <= i < |branches| :: Apart(branches[i].steps)
  }

  ghost predicate NoneShared(a: seq<Entry>, b: seq<Entry>) {
    forall x, y | x in a && y in b :: x.name != y.name
  }

  // Ids without dots are enough.
  lemma {:induction false} WellNamedIsApart(steps: seq<Exec>)
    requires WellNamed(steps)
    ensures Apart(steps)
    decreases steps
  {
    forall i, j | 0 <= i < j < |steps|
      ensures NoneShared(StepEntries(steps[i].id, steps[i]), StepEntries(steps[j].id, steps[j]))
    {
      forall x, y | x in StepEntries(steps[i].id, steps[i]) && y in StepEntries(steps[j].id, steps[j])
        ensures x.name != y.name
      {
        StepEntriesUnder(steps[i].id, steps[i], x);
        StepEntriesUnder(steps[j].id, steps[j], y);
        if x.name == y.name {
          SegmentIsUnique(x.name, "", steps[i].id, steps[j].id);
        }
      }
    }
    forall i | 0 <= i < |steps| ensures ApartFlow(steps[i].flow) {
      WellNamedFlowIsApart(steps[i].flow);
    }
  }

  lemma {:induction false} WellNamedFlowIsApart(flow: Flow)
    requires WellNamedFlow(flow)
    ensures ApartFlow(flow)
    decreases flow
  {
    match flow
    case Plain =>
    case Condition(_, taken) => WellNamedIsApart(taken.steps);
    case Loop(iterations) =>
      forall i | 0 <= i < |iterations| ensures Apart(iterations[i].steps) {
        WellNamedIsApart(iterations[i].steps);
      }
    case Parallel(branches) =>
      forall i | 0 <= i < |branches| ensures Apart(branches[i].steps) {
        WellNamedIsApart(branches[i].steps);
      }
  }

  ghost predicate DistinctNames(es: seq<Entry>) {
    forall i, j | 0 <= i < j < |es| :: es[i].name != es[j].name
  }

  lemma DistinctAppend(a: seq<Entry>, b: seq<Entry>)
    requires DistinctNames(a) && DistinctNames(b)
    requires forall x, y | x in a && y in b :: x.name != y.name
    ensures DistinctNames(a + b)
  {
    forall i, j | 0 <= i < j < |a + b| ensures (a + b)[i].name != (a + b)[j].name {
      if i < |a| <= j {
        assert a[i] in a && b[j - |a|] in b;
      }
    }
  }

  lemma {:induction false} StepKeysDistinct(key: string, e: Exec)
    requires ApartFlow(e.flow)
    ensures DistinctNames(StepEntries(key, e))
    decreases e, 0
  {
    FlowKeysDistinct(key, e.flow);
    forall x, y | x in [Entry(key, e.end)] && y in FlowEntries(key, e.flow) ensures x.name != y.name {
      FlowEntriesUnder(key, e.flow, y);
    }
    DistinctAppend([Entry(key, e.end)], FlowEntries(key, e.flow));
  }

  lemma {:induction false} FlowKeysDistinct(key: string, flow: Flow)
    requires ApartFlow(flow)
    ensures DistinctNames(FlowEntries(key, flow))
    decreases flow, 0
  {
    match flow
    case Plain =>
    case Condition(branch, taken) => BodyKeysDistinct(key + "." + branch, taken.steps);
    case Loop(iterations) => GroupKeysDistinct(key, "iter_", iterations, 0, true);
    case Parallel(branches) => GroupKeysDistinct(key, "branch_", branches, 0, false);
  }

  lemma {:induction false} BodyKeysDistinct(prefix: string, steps: seq<Exec>)
    requires Apart(steps)
    ensures DistinctNames(BodyEntries(prefix, steps))
    decreases steps, 0
  {
    if steps != [] {
      var key := prefix + "." + steps[0].id;
      StepKeysDistinct(key, steps[0]);
      BodyKeysDistinct(prefix, steps[1..]);
      forall x, y | x in StepEntries(key, steps[0]) && y in BodyEntries(prefix, steps[1..]) ensures x.name != y.name {
        var i := BodyEntriesUnder(prefix, steps[1..], y);
        assert steps[1..][i] == steps[i + 1];
        SiblingsDiffer(prefix, steps, 0, i + 1, x, y);
      }
      DistinctAppend(StepEntries(key, steps[0]), BodyEntries(prefix, steps[1..]));
      assert StepEntries(key, steps[0]) + [] == StepEntries(key, steps[0]);
    }
  }

  lemma SiblingsDiffer(prefix: string, steps: seq<Exec>, i: nat, j: nat, x: Entry, y: Entry)
    requires Apart(steps) && i < j < |steps|
    requires x in StepEntries(prefix + "." + steps[i].id, steps[i])
    requires y in StepEntries(prefix + "." + steps[j].id, steps[j])
    ensures x.name != y.name
  {
    var q := prefix + ".";
    StepShift(q, steps[i].id, steps[i]);
    StepShift(q, steps[j].id, steps[j]);
    var a, b := StepEntries(steps[i].id, steps[i]), StepEntries(steps[j].id, steps[j]);
    var m :| 0 <= m < |a| && x == Shifted(q, a)[m];
    var n :| 0 <= n < |b| && y == Shifted(q, b)[n];
    assert NoneShared(a, b) && a[m] in a && b[n] in b;
    assert x.name[|q|..] == a[m].name && y.name[|q|..] == b[n].name;
  }

  lemma {:induction false} GroupKeysDistinct(key: string, word: string, bodies: seq<Body>, i: nat, stop: bool)
    requires forall k | 0 <= k < |bodies| :: Apart(bodies[k].steps)
    requires DotFree(word)
    ensures DistinctNames(GroupEntries(key, word, bodies, i, stop))
    decreases bodies, if i <= |bodies| then |bodies| - i else 0
  {
    if i < |bodies| {
      var prefix := key + "." + (word + Itoa(i));
      var first, rest := BodyEntries(prefix, bodies[i].steps), GroupEntries(key, word, bodies, i + 1, stop);
      BodyKeysDistinct(prefix, bodies[i].steps);
      GroupKeysDistinct(key, word, bodies, i + 1, stop);
      forall x, y | x in first && y in rest ensures x.name != y.name {
        var j := BodyEntriesUnder(prefix, bodies[i].steps, x);
        UnderMore(x.name, prefix, bodies[i].steps[j].id);
        var k := GroupEntriesUnder(key, word, bodies, i + 1, stop, y);
        if x.name == y.name {
          NumberedWordsDiffer(word, i, k);
          SegmentIsUnique(x.name, key + ".", word + Itoa(i), word + Itoa(k));
        }
      }
      DistinctAppend(first, rest);
      assert first + [] == first;
    }
  }

  lemma NumberedWordsDiffer(word: string, i: nat, k: nat)
    requires DotFree(word) && i != k
    ensures word + Itoa(i) != word + Itoa(k) && DotFree(word + Itoa(i)) && DotFree(word + Itoa(k))
  {
    AtoiOfItoa(i);
    AtoiOfItoa(k);
    assert (word + Itoa(i))[|word|..] == Itoa(i);
    assert (word + Itoa(k))[|word|..] == Itoa(k);
  }

  // ----- The definitions behind an execution -----

  datatype Def = Def(id: string, shape: Shape)

  // What a step's configuration says of the steps below it; simple when it has
  // none. Expressions may evaluate to anything.
  datatype Shape =
    | Simple
    | ConditionOf(branches: map<string, DefBody>, otherwise: DefBody)
    | LoopOf(body: DefBody, maxIter: int)   // no bound when maxIter is not positive
    | ParallelOf(parts: seq<DefBody>)

  datatype DefBody = DefBody(steps: seq<Def>)

  // Ids without dots, distinct within each body and branch.
  ghost predicate WellDefined(defs: seq<Def>)
    decreases defs
  {
    && (forall i, j | 0 <= i < j < |defs| :: defs[i].id != defs[j].id)
    && forall i | 0 <= i < |defs| :: DotFree(defs[i].id) && WellDefinedShape(defs[i].shape)
  }

  ghost predicate WellDefinedShape(shape: Shape)
    decreases shape
  {
    match shape
    case Simple => true
    case ConditionOf(branches, otherwise) =>
      (forall k | k in branches :: WellDefined(branches[k].steps)) && WellDefined(otherwise.steps)
    case LoopOf(body, _) => WellDefined(body.steps)
    case ParallelOf(parts) => forall i | 0 <= i < |parts| :: WellDefined(parts[i].steps)
  }

  // The guard before iteration n.
  predicate TurnAllowed(maxIter: int, n: nat) {
    !(maxIter > 0 && n >= maxIter)
  }

  // steps is what running a prefix of defs can come to.
  ghost predicate Executes(defs: seq<Def>, steps: seq<Exec>)
    decreases steps
  {
    && |steps| <= |defs|
    && forall i | 0 <= i < |steps| :: steps[i].id == defs[i].id && ExecutesFlow(defs[i].shape, steps[i].flow)
  }

  // A step that fails early, or takes an empty branch, has no sub-steps.
  ghost predicate ExecutesFlow(shape: Shape, flow: Flow)
    decreases flow
  {
    match flow
    case Plain => true
    case Condition(key, taken) =>
      && shape.ConditionOf?
      && ((key in shape.branches && Executes(shape.branches[key].steps, taken.steps))
          || (key == "default" && Executes(shape.otherwise.steps, taken.steps)))
    case Loop(iterations) =>
      && shape.LoopOf? && (|iterations| > 0 ==> TurnAllowed(shape.maxIter, |iterations| - 1))
      && forall i | 0 <= i < |iterations| :: Executes(shape.body.steps, iterations[i].steps)
    case Parallel(branches) =>
      && shape.ParallelOf? && |branches| == |shape.parts|
      && forall i | 0 <= i < |branches| :: Executes(shape.parts[i].steps, branches[i].steps)
  }

  lemma {:induction false} ExecutionIsWellNamed(defs: seq<Def>, steps: seq<Exec>)
    requires WellDefined(defs) && Executes(defs, steps)
    ensures WellNamed(steps)
    decreases steps
  {
    forall i | 0 <= i < |steps| ensures WellNamedFlow(steps[i].flow) {
      FlowIsWellNamed(defs[i].shape, steps[i].flow);
    }
  }

  lemma {:induction false} FlowIsWellNamed(shape: Shape, flow: Flow)
    requires WellDefinedShape(shape) && ExecutesFlow(shape, flow)
    ensures WellNamedFlow(flow)
    decreases flow
  {
    match flow
    case Plain =>
    case Condition(key, taken) =>
      if key in shape.branches && Executes(shape.branches[key].steps, taken.steps) {
        ExecutionIsWellNamed(shape.branches[key].steps, taken.steps);
      } else {
        ExecutionIsWellNamed(shape.otherwise.steps, taken.steps);
      }
    case Loop(iterations) =>
      forall i | 0 <= i < |iterations| ensures WellNamed(iterations[i].steps) {
        ExecutionIsWellNamed(shape.body.steps, iterations[i].steps);
      }
    case Parallel(branches) =>
      forall i | 0 <= i < |branches| ensures WellNamed(branches[i].steps) {
        ExecutionIsWellNamed(shape.parts[i].steps, branches[i].steps);
      }
  }

  // ----- A whole workflow -----

  function RunEntries(steps: seq<Exec>): seq<Entry> {
    if steps == [] then [] else StepEntries(steps[0].id, steps[0]) + RunEntries(steps[1..])
  }

  lemma {:induction false} RunEntriesUnder(steps: seq<Exec>, x: Entry) returns (i: nat)
    requires x in RunEntries(steps)
    ensures i < |steps| && Under(x.name, steps[i].id) && x in StepEntries(steps[i].id, steps[i])
  {
    if x in StepEntries(steps[0].id, steps[0]) {
      StepEntriesUnder(steps[0].id, steps[0], x);
      i := 0;
    } else {
      var k := RunEntriesUnder(steps[1..], x);
      i := k + 1;
    }
  }

  // No two states of a run, at any depth, share a key.
  lemma {:induction false} RunKeysDistinct(steps: seq<Exec>)
    requires Apart(steps)
    ensures DistinctNames(RunEntries(steps))
  {
    if steps != [] {
      var key := steps[0].id;
      StepKeysDistinct(key, steps[0]);
      RunKeysDistinct(steps[1..]);
      forall x, y | x in StepEntries(key, steps[0]) && y in RunEntries(steps[1..]) ensures x.name != y.name {
        var i := RunEntriesUnder(steps[1..], y);
        assert steps[1..][i] == steps[i + 1];
        assert NoneShared(StepEntries(key, steps[0]), StepEntries(steps[i + 1].id, steps[i + 1]));
      }
      DistinctAppend(StepEntries(key, steps[0]), RunEntries(steps[1..]));
    }
  }

  lemma KeysNeverMeet(defs: seq<Def>, steps: seq<Exec>)
    requires WellDefined(defs) && Executes(defs, steps)
    ensures DistinctNames(RunEntries(steps))
  {
    ExecutionIsWellNamed(defs, steps);
    WellNamedIsApart(steps);
    RunKeysDistinct(steps);
  }

  // A sub-step's key is never an id without dots.
  lemma SubStepKeyHasDot(key: string, flow: Flow, x: Entry)
    requires x in FlowEntries(key, flow)
    ensures !DotFree(x.name)
  {
    FlowEntriesUnder(key, flow, x);
    assert x.name[|key|] == '.';
  }

  // With a dot in an id, a top-level step and a sub-step can share a key.
  const DONE := State(Completed, None)
  const INNER := Exec("x", DONE, false, Plain)
  const OUTER := Exec("a", DONE, false, Condition("k", Body([INNER])))
  const DOTTED := Exec("a.k.x", DONE, false, Plain)

  lemma OuterEntries()
    ensures StepEntries("a", OUTER) == [Entry("a", DONE), Entry("a.k.x", DONE)]
  {
    assert "a" + "." + "k" == "a.k" && "a.k" + "." + "x" == "a.k.x";
    assert StepEntries("a.k.x", INNER) == [Entry("a.k.x", DONE)];
    assert [INNER][1..] == [];
    assert BodyEntries("a.k", [INNER]) == StepEntries("a.k.x", INNER) + BodyEntries("a.k", []);
    assert FlowEntries("a", OUTER.flow) == BodyEntries("a.k", [INNER]);
  }

  lemma DottedIdsCanMeet()
    ensures OUTER.id != DOTTED.id && WellNamedFlow(OUTER.flow) && WellNamedFlow(DOTTED.flow)
    ensures !DistinctNames(RunEntries([OUTER, DOTTED]))
  {
    OuterEntries();
    var es := RunEntries([OUTER, DOTTED]);
    assert [OUTER, DOTTED][1..] == [DOTTED];
    assert StepEntries("a.k.x", DOTTED) == [Entry("a.k.x", DONE)];
    assert RunEntries([DOTTED]) == StepEntries("a.k.x", DOTTED) + RunEntries([]);
    assert es == StepEntries("a", OUTER) + RunEntries([DOTTED]);
    assert es[1].name == es[2].name;
  }

  // ----- The run's state map -----

  type States = map<string, State>

  function NamesOf(es: seq<Entry>): set<string> {
    set x | x in es :: x.name
  }

  // After the entries were written, and nothing else.
  ghost predicate Recorded(before: States, after: States, es: seq<Entry>) {
    && after.Keys == before.Keys + NamesOf(es)
    && (forall k | k in before && k !in NamesOf(es) :: after[k] == before[k])
    && (forall x | x in es :: x.name in after && after[x.name] == x.end)
  }

  lemma NamesAreDisjoint(a: seq<Entry>, b: seq<Entry>)
    requires DistinctNames(a + b)
    ensures NamesOf(a) !! NamesOf(b)
  {
    forall x, y | x in a && y in b ensures x.name != y.name {
      var i :| 0 <= i < |a| && a[i] == x;
      var j :| 0 <= j < |b| && b[j] == y;
      assert (a + b)[i] == x && (a + b)[|a| + j] == y;
    }
  }

  lemma RecordedAppend(m0: States, m1: States, m2: States, a: seq<Entry>, b: seq<Entry>)
    requires Recorded(m0, m1, a) && Recorded(m1, m2, b) && DistinctNames(a + b)
    ensures Recorded(m0, m2, a + b)
  {
    NamesAreDisjoint(a, b);
    assert NamesOf(a + b) == NamesOf(a) + NamesOf(b);
    forall x | x in a ensures x.name in NamesOf(a) {}
  }

  lemma NotYet(m0: States, m1: States, done: seq<Entry>, mine: seq<Entry>, rest: seq<Entry>)
    requires DistinctNames(done + (mine + rest)) && NamesOf(done + (mine + rest)) !! m0.Keys
    requires Recorded(m0, m1, done)
    ensures NamesOf(mine) !! m1.Keys && DistinctNames(done + mine)
  {
    var all := done + (mine + rest);
    assert all[..|done + mine|] == done + mine;
    forall i, j | 0 <= i < j < |done + mine| ensures (done + mine)[i].name != (done + mine)[j].name {
      assert all[i] == (done + mine)[i] && all[j] == (done + mine)[j];
    }
    NamesAreDisjoint(done, mine);
    forall y | y in mine ensures y.name in NamesOf(all) {
      assert y in all;
    }
  }

  lemma SuffixUnfolds(prefix: string, steps: seq<Exec>, i: nat)
    requires i < |steps|
    ensures BodyEntries(prefix, steps[i..])
         == StepEntries(prefix + "." + steps[i].id, steps[i])
            + if steps[i].failed then [] else BodyEntries(prefix, steps[i + 1..])
  {
    assert steps[i..][1..] == steps[i + 1..];
  }

  lemma StepNames(key: string, e: Exec)
    ensures NamesOf(StepEntries(key, e)) == {key} + NamesOf(FlowEntries(key, e.flow))
    ensures key !in NamesOf(FlowEntries(key, e.flow))
  {
    assert Entry(key, e.end) in StepEntries(key, e);
    forall x | x in FlowEntries(key, e.flow) ensures x.name != key && x in StepEntries(key, e) {
      FlowEntriesUnder(key, e.flow, x);
    }
  }

  lemma Regroup(all: seq<Entry>, done: seq<Entry>, todo: seq<Entry>, mine: seq<Entry>, rest: seq<Entry>)
    requires all == done + todo && todo == mine + rest
    ensures all == done + (mine + rest) && all == (done + mine) + rest
  {
  }

  lemma GroupUnfolds(key: string, word: string, bodies: seq<Body>, i: nat, stop: bool)
    requires i < |bodies|
    ensures GroupEntries(key, word, bodies, i, stop)
         == BodyEntries(key + "." + (word + Itoa(i)), bodies[i].steps)
            + if stop && Fails(bodies[i].steps) then [] else GroupEntries(key, word, bodies, i + 1, stop)
  {
  }

  // A step's own state is written around those of its sub-steps.
  lemma StepRecorded(before: States, started: States, after: States, key: string, e: Exec, end: States)
    requires key in before && started.Keys == before.Keys
    requires forall k | k in before && k != key :: started[k] == before[k]
    requires Recorded(started, after, FlowEntries(key, e.flow)) && end == after[key := e.end]
    ensures Recorded(before, end, StepEntries(key, e))
  {
    StepNames(key, e);
    forall x | x in FlowEntries(key, e.flow) ensures x.name != key {
      assert x.name in NamesOf(FlowEntries(key, e.flow));
    }
  }

  // The output executeSubSteps returns: that of the last completed sub-step.
  function LastOutput(steps: seq<Exec>): Option<string> {
    if steps == [] then None
    else
      var last := steps[|steps| - 1];
      if last.end.status == Completed then last.end.output else LastOutput(steps[..|steps| - 1])
  }

  lemma PrefixExtends(steps: seq<Exec>, i: nat)
    requires i < |steps|
    ensures Fails(steps[..i + 1]) <==> Fails(steps[..i]) || steps[i].failed
    ensures steps[i].failed ==> Fails(steps)
    ensures LastOutput(steps[..i + 1]) ==
            if steps[i].end.status == Completed then steps[i].end.output else LastOutput(steps[..i])
  {
    assert steps[i] in steps && steps[i] in steps[..i + 1];
    assert steps[..i + 1][..i] == steps[..i];
    assert forall s :: s in steps[..i + 1] <==> s in steps[..i] || s == steps[i];
  }

  class WorkflowRun {
    var stepStates: States

    constructor (ids: set<string>)
      ensures stepStates == map id | id in ids :: State(Pending, None)
    {
      stepStates := map id | id in ids :: State(Pending, None);
    }

    ghost predicate Unused(es: seq<Entry>)
      reads this
    {
      NamesOf(es) !! stepStates.Keys
    }

    // A sub-step's state is always created, never overwritten.
    method ExecuteSubSteps(parent: string, namespace: string, steps: seq<Exec>)
      returns (lastOutput: Option<string>, failed: bool)
      requires Apart(steps) && Unused(BodyEntries(parent + "." + namespace, steps))
      modifies this
      ensures Recorded(old(stepStates), stepStates, BodyEntries(parent + "." + namespace, steps))
      ensures failed <==> Fails(steps)
      ensures !failed ==> lastOutput == LastOutput(steps)
      decreases steps, 1
    {
      lastOutput := None;
      ghost var prefix, start := parent + "." + namespace, stepStates;
      ghost var all, done := BodyEntries(prefix, steps), [];
      BodyKeysDistinct(prefix, steps);
      for i := 0 to |steps|
        invariant all == done + BodyEntries(prefix, steps[i..])
        invariant Recorded(start, stepStates, done)
        invariant lastOutput == LastOutput(steps[..i]) && !Fails(steps[..i])
      {
        SuffixUnfolds(prefix, steps, i);
        PrefixExtends(steps, i);
        ghost var mine := StepEntries(prefix + "." + steps[i].id, steps[i]);
        ghost var rest := if steps[i].failed then [] else BodyEntries(prefix, steps[i + 1..]);
        Regroup(all, done, BodyEntries(prefix, steps[i..]), mine, rest);
        var err, ss := ExecuteSubStep(parent + "." + namespace + "." + steps[i].id, steps[i], start, done, rest);
        done := done + mine;
        if err {
          return None, true;
        }
        if ss.status == Completed {
          lastOutput := ss.output;
        }
      }
      assert steps[..|steps|] == steps;
      failed := false;
    }

    // One turn of that loop: the body so far made the entries done, and may
    // still make rest.
    method ExecuteSubStep(subStepID: string, e: Exec,
                          ghost start: States, ghost done: seq<Entry>, ghost rest: seq<Entry>)
      returns (failed: bool, ss: State)
      requires ApartFlow(e.flow) && Recorded(start, stepStates, done)
      requires DistinctNames(done + (StepEntries(subStepID, e) + rest))
      requires NamesOf(done + (StepEntries(subStepID, e) + rest)) !! start.Keys
      modifies this
      ensures Recorded(start, stepStates, done + StepEntries(subStepID, e))
      ensures failed == e.failed && ss == e.end
      decreases e, 1
    {
      ghost var before, mine := stepStates, StepEntries(subStepID, e);
      NotYet(start, stepStates, done, mine, rest);
      StepNames(subStepID, e);
      assert subStepID !in stepStates;
      stepStates := stepStates[subStepID := State(Pending, None)];
      failed := ExecuteStep(subStepID, e);
      assert Entry(subStepID, e.end) in mine;
      ss := stepStates[subStepID];
      RecordedAppend(start, before, stepStates, done, mine);
    }

    method ExecuteStep(key: string, e: Exec) returns (failed: bool)
      requires key in stepStates && ApartFlow(e.flow) && Unused(FlowEntries(key, e.flow))
      modifies this
      ensures Recorded(old(stepStates), stepStates, StepEntries(key, e))
      ensures failed == e.failed
      decreases e, 0
    {
      ghost var before := stepStates;
      stepStates := stepStates[key := State(Running, None)];
      ghost var started := stepStates;
      match e.flow {
        case Plain =>
        case Condition(branch, taken) =>
          var _, _ := ExecuteSubSteps(key, branch, taken.steps);
        case Loop(iterations) =>
          ExecuteGroups(key, "iter_", iterations, true);
        case Parallel(branches) =>
          ExecuteGroups(key, "branch_", branches, false);
      }
      StepRecorded(before, started, stepStates, key, e, stepStates[key := e.end]);
      stepStates := stepStates[key := e.end];
      failed := e.failed;
    }

    // The iterations of a loop, or the branches of a parallel step.
    method ExecuteGroups(key: string, word: string, bodies: seq<Body>, stop: bool)
      requires DotFree(word) && forall i | 0 <= i < |bodies| :: Apart(bodies[i].steps)
      requires Unused(GroupEntries(key, word, bodies, 0, stop))
      modifies this
      ensures Recorded(old(stepStates), stepStates, GroupEntries(key, word, bodies, 0, stop))
      decreases bodies, 0
    {
      ghost var start, all, done := stepStates, GroupEntries(key, word, bodies, 0, stop), [];
      GroupKeysDistinct(key, word, bodies, 0, stop);
      for i := 0 to |bodies|
        invariant all == done + GroupEntries(key, word, bodies, i, stop)
        invariant Recorded(start, stepStates, done)
      {
        var steps := bodies[i].steps;
        ghost var mine := BodyEntries(key + "." + (word + Itoa(i)), steps);
        ghost var rest := if stop && Fails(steps) then [] else GroupEntries(key, word, bodies, i + 1, stop);
        GroupUnfolds(key, word, bodies, i, stop);
        Regroup(all, done, GroupEntries(key, word, bodies, i, stop), mine, rest);
        var err := ExecuteGroup(key, word + Itoa(i), steps, start, done, rest);
        done := done + mine;
        if err && stop {
          return;
        }
      }
    }

    method ExecuteGroup(key: string, namespace: string, steps: seq<Exec>,
                        ghost start: States, ghost done: seq<Entry>, ghost rest: seq<Entry>) returns (failed: bool)
      requires Apart(steps) && Recorded(start, stepStates, done)
      requires DistinctNames(done + (BodyEntries(key + "." + namespace, steps) + rest))
      requires NamesOf(done + (BodyEntries(key + "." + namespace, steps) + rest)) !! start.Keys
      modifies this
      ensures Recorded(start, stepStates, done + BodyEntries(key + "." + namespace, steps))
      ensures failed <==> Fails(steps)
      decreases steps, 2
    {
      ghost var before, mine := stepStates, BodyEntries(key + "." + namespace, steps);
      NotYet(start, stepStates, done, mine, rest);
      var _, err := ExecuteSubSteps(key, namespace, steps);
      RecordedAppend(start, before, stepStates, done, mine);
      failed := err;
    }
  }
}
