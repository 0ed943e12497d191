// Which definitions keep every state of every execution under a key of its own:
// exactly those in which no two siblings can produce the same key.
module SubStepKeys {
  import opened Wrappers
  import opened Lifecycle
  import opened SubSteps

  // ----- The keys a definition can give rise to -----

  // Of a step with the key `full`: its own, and those of steps below it, whichever
  // branch is taken and however often a loop turns.
  ghost predicate StepProduces(full: string, shape: Shape, key: string)
    decreases shape, 1
  {
    key == full || ShapeProduces(full, shape, key)
  }

  ghost predicate ShapeProduces(full: string, shape: Shape, key: string)
    decreases shape, 0
  {
    match shape
    case Simple => false
    case ConditionOf(branches, otherwise) =>
      || (exists b :: b in branches && BodyProduces(full + "." + b, branches[b].steps, key))
      || BodyProduces(full + "." + "default", otherwise.steps, key)
    case LoopOf(body, maxIter) =>
      exists n: nat :: TurnAllowed(maxIter, n) && BodyProduces(Numbered(full, "iter_", n), body.steps, key)
    case ParallelOf(parts) =>
      exists i: nat :: i < |parts| && BodyProduces(Numbered(full, "branch_", i), parts[i].steps, key)
  }

  ghost predicate BodyProduces(prefix: string, defs: seq<Def>, key: string)
    decreases defs
  {
    exists k :: 0 <= k < |defs| && StepProduces(prefix + "." + defs[k].id, defs[k].shape, key)
  }

  function Numbered(key: string, word: string, n: nat): string {
    key + "." + (word + Itoa(n))
  }

  // No two siblings of a body, at any depth, can produce the same key.
  ghost predicate SiblingsApart(defs: seq<Def>)
    decreases defs
  {
    && (forall i, j | 0 <= i < j < |defs| :: !CanMeet(defs[i], defs[j]))
    && forall i | 0 <= i < |defs| :: ShapeApart(defs[i].shape)
  }

  ghost predicate CanMeet(d: Def, e: Def) {
    exists key :: StepProduces(d.id, d.shape, key) && StepProduces(e.id, e.shape, key)
  }

  ghost predicate ShapeApart(shape: Shape)
    decreases shape
  {
    match shape
    case Simple => true
    case ConditionOf(branches, otherwise) =>
      (forall b | b in branches :: SiblingsApart(branches[b].steps)) && SiblingsApart(otherwise.steps)
    case LoopOf(body, _) => SiblingsApart(body.steps)
    case ParallelOf(parts) => forall i | 0 <= i < |parts| :: SiblingsApart(parts[i].steps)
  }

  // ----- Every state's key is produced -----

  lemma {:induction false} StepEntriesProduced(full: string, shape: Shape, e: Exec, x: Entry)
    requires ExecutesFlow(shape, e.flow) && x in StepEntries(full, e)
    ensures StepProduces(full, shape, x.name)
    decreases e, 0
  {
    if x != Entry(full, e.end) {
      FlowEntriesProduced(full, shape, e.flow, x);
    }
  }

  lemma {:induction false} FlowEntriesProduced(full: string, shape: Shape, flow: Flow, x: Entry)
    requires ExecutesFlow(shape, flow) && x in FlowEntries(full, flow)
    ensures ShapeProduces(full, shape, x.name)
    decreases flow, 0
  {
    match flow
    case Condition(key, taken) =>
      if key in shape.branches && Executes(shape.branches[key].steps, taken.steps) {
        BodyEntriesProduced(full + "." + key, shape.branches[key].steps, taken.steps, x);
      } else {
        BodyEntriesProduced(full + "." + "default", shape.otherwise.steps, taken.steps, x);
      }
    case Loop(iterations) =>
      var k := GroupEntriesUnder(full, "iter_", iterations, 0, true, x);
      BodyEntriesProduced(Numbered(full, "iter_", k), shape.body.steps, iterations[k].steps, x);
    case Parallel(branches) =>
      var k := GroupEntriesUnder(full, "branch_", branches, 0, false, x);
      BodyEntriesProduced(Numbered(full, "branch_", k), shape.parts[k].steps, branches[k].steps, x);
  }

  lemma {:induction false} BodyEntriesProduced(prefix: string, defs: seq<Def>, steps: seq<Exec>, x: Entry)
    requires Executes(defs, steps) && x in BodyEntries(prefix, steps)
    ensures BodyProduces(prefix, defs, x.name)
    decreases steps, 0
  {
    var i := BodyEntriesUnder(prefix, steps, x);
    StepEntriesProduced(prefix + "." + defs[i].id, defs[i].shape, steps[i], x);
  }

  lemma {:induction false} ExecutionIsApart(defs: seq<Def>, steps: seq<Exec>)
    requires SiblingsApart(defs) && Executes(defs, steps)
    ensures Apart(steps)
    decreases steps
  {
    forall i, j | 0 <= i < j < |steps|
      ensures NoneShared(StepEntries(steps[i].id, steps[i]), StepEntries(steps[j].id, steps[j]))
    {
      forall x, y | x in StepEntries(steps[i].id, steps[i]) && y in StepEntries(steps[j].id, steps[j])
        ensures x.name != y.name
      {
        StepEntriesProduced(steps[i].id, defs[i].shape, steps[i], x);
        StepEntriesProduced(steps[j].id, defs[j].shape, steps[j], y);
        assert !CanMeet(defs[i], defs[j]);
      }
    }
    forall i | 0 <= i < |steps| ensures ApartFlow(steps[i].flow) {
      FlowIsApart(defs[i].shape, steps[i].flow);
    }
  }

  lemma {:induction false} FlowIsApart(shape: Shape, flow: Flow)
    requires ShapeApart(shape) && ExecutesFlow(shape, flow)
    ensures ApartFlow(flow)
    decreases flow
  {
    match flow
    case Plain =>
    case Condition(key, taken) =>
      if key in shape.branches && Executes(shape.branches[key].steps, taken.steps) {
        ExecutionIsApart(shape.branches[key].steps, taken.steps);
      } else {
        ExecutionIsApart(shape.otherwise.steps, taken.steps);
      }
    case Loop(iterations) =>
      forall i | 0 <= i < |iterations| ensures Apart(iterations[i].steps) {
        ExecutionIsApart(shape.body.steps, iterations[i].steps);
      }
    case Parallel(branches) =>
      forall i | 0 <= i < |branches| ensures Apart(branches[i].steps) {
        ExecutionIsApart(shape.parts[i].steps, branches[i].steps);
      }
  }

  // ----- Every produced key is some state's -----

  // An execution in which nothing below the steps happens.
  function Idle(d: Def): Exec {
    Exec(d.id, State(Completed, None), false, Plain)
  }

  function Idles(defs: seq<Def>): seq<Exec> {
    seq(|defs|, i requires 0 <= i < |defs| => Idle(defs[i]))
  }

  // A whole body, run without a failure.
  ghost predicate RunsWhole(defs: seq<Def>, steps: seq<Exec>) {
    Executes(defs, steps) && |steps| == |defs| && !Fails(steps)
  }

  ghost predicate Names(es: seq<Entry>, key: string) {
    exists x :: x in es && x.name == key
  }

  // With step k running like this and the others idle.
  lemma OneRuns(defs: seq<Def>, k: nat, flow: Flow) returns (steps: seq<Exec>)
    requires k < |defs| && ExecutesFlow(defs[k].shape, flow)
    ensures RunsWhole(defs, steps) && steps == Idles(defs)[k := Idle(defs[k]).(flow := flow)]
  {
    steps := Idles(defs)[k := Idle(defs[k]).(flow := flow)];
    forall i | 0 <= i < |steps| ensures steps[i].id == defs[i].id && ExecutesFlow(defs[i].shape, steps[i].flow) {}
  }

  lemma {:induction false} BodyHolds(prefix: string, steps: seq<Exec>, k: nat, x: Entry)
    requires k < |steps| && !Fails(steps) && x in StepEntries(prefix + "." + steps[k].id, steps[k])
    ensures x in BodyEntries(prefix, steps)
  {
    assert steps[0] in steps;
    if k > 0 {
      assert forall s :: s in steps[1..] ==> s in steps;
      BodyHolds(prefix, steps[1..], k - 1, x);
    }
  }

  lemma {:induction false} GroupHolds(key: string, word: string, bodies: seq<Body>, i: nat, k: nat, stop: bool,
                                      x: Entry)
    requires i <= k < |bodies| && x in BodyEntries(Numbered(key, word, k), bodies[k].steps)
    requires stop ==> forall j :: i <= j < k ==> !Fails(bodies[j].steps)
    ensures x in GroupEntries(key, word, bodies, i, stop)
    decreases k - i
  {
    GroupUnfolds(key, word, bodies, i, stop);
    if i < k {
      GroupHolds(key, word, bodies, i + 1, k, stop, x);
    }
  }

  lemma {:induction false} Producer(full: string, shape: Shape, key: string) returns (flow: Flow)
    requires ShapeProduces(full, shape, key)
    ensures ExecutesFlow(shape, flow) && Names(FlowEntries(full, flow), key)
    decreases shape
  {
    match shape
    case ConditionOf(branches, otherwise) =>
      if b :| b in branches && BodyProduces(full + "." + b, branches[b].steps, key) {
        var steps := BodyProducer(full + "." + b, branches[b].steps, key);
        flow := Condition(b, Body(steps));
      } else {
        var steps := BodyProducer(full + "." + "default", otherwise.steps, key);
        flow := Condition("default", Body(steps));
      }
    case LoopOf(body, maxIter) =>
      var n: nat :| TurnAllowed(maxIter, n) && BodyProduces(Numbered(full, "iter_", n), body.steps, key);
      var steps := BodyProducer(Numbered(full, "iter_", n), body.steps, key);
      flow := LoopUpTo(full, body, maxIter, n, steps, key);
    case ParallelOf(parts) =>
      var k: nat :| k < |parts| && BodyProduces(Numbered(full, "branch_", k), parts[k].steps, key);
      var steps := BodyProducer(Numbered(full, "branch_", k), parts[k].steps, key);
      flow := OneBranch(full, parts, k, steps, key);
  }

  lemma {:induction false} BodyProducer(prefix: string, defs: seq<Def>, key: string) returns (steps: seq<Exec>)
    requires BodyProduces(prefix, defs, key)
    ensures RunsWhole(defs, steps) && Names(BodyEntries(prefix, steps), key)
    decreases defs
  {
    var k :| 0 <= k < |defs| && StepProduces(prefix + "." + defs[k].id, defs[k].shape, key);
    var flow := StepProducer(prefix + "." + defs[k].id, defs[k], key);
    steps := OneRuns(defs, k, flow);
    var x :| x in StepEntries(prefix + "." + defs[k].id, Idle(defs[k]).(flow := flow)) && x.name == key;
    BodyHolds(prefix, steps, k, x);
  }

  lemma {:induction false} StepProducer(full: string, d: Def, key: string) returns (flow: Flow)
    requires StepProduces(full, d.shape, key)
    ensures ExecutesFlow(d.shape, flow) && Names(StepEntries(full, Idle(d).(flow := flow)), key)
    decreases d
  {
    var e := Idle(d);
    if key == full {
      flow := Plain;
      assert Entry(full, e.end) in StepEntries(full, e.(flow := flow));
    } else {
      flow := Producer(full, d.shape, key);
      var x :| x in FlowEntries(full, flow) && x.name == key;
      assert x in StepEntries(full, e.(flow := flow));
    }
  }

  // Idle turns up to the one that matters.
  lemma LoopUpTo(full: string, body: DefBody, maxIter: int, n: nat, steps: seq<Exec>, key: string)
    returns (flow: Flow)
    requires TurnAllowed(maxIter, n)
    requires RunsWhole(body.steps, steps) && Names(BodyEntries(Numbered(full, "iter_", n), steps), key)
    ensures ExecutesFlow(LoopOf(body, maxIter), flow) && Names(FlowEntries(full, flow), key)
  {
    var iterations := seq(n + 1, i => if i == n then Body(steps) else Body(Idles(body.steps)));
    flow := Loop(iterations);
    IdlesRun(body.steps);
    var x :| x in BodyEntries(Numbered(full, "iter_", n), steps) && x.name == key;
    GroupHolds(full, "iter_", iterations, 0, n, true, x);
  }

  lemma OneBranch(full: string, parts: seq<DefBody>, k: nat, steps: seq<Exec>, key: string) returns (flow: Flow)
    requires k < |parts| && RunsWhole(parts[k].steps, steps)
    requires Names(BodyEntries(Numbered(full, "branch_", k), steps), key)
    ensures ExecutesFlow(ParallelOf(parts), flow) && Names(FlowEntries(full, flow), key)
  {
    var branches := BranchesWith(parts, k, steps);
    flow := Parallel(branches);
    var x :| x in BodyEntries(Numbered(full, "branch_", k), steps) && x.name == key;
    GroupHolds(full, "branch_", branches, 0, k, false, x);
  }

  function BranchesWith(parts: seq<DefBody>, k: nat, steps: seq<Exec>): (branches: seq<Body>)
    ensures |branches| == |parts| && (k < |parts| ==> branches[k] == Body(steps))
    ensures forall i :: 0 <= i < |parts| && i != k ==> branches[i] == Body(Idles(parts[i].steps))
  {
    seq(|parts|, i requires 0 <= i < |parts| => if i == k then Body(steps) else Body(Idles(parts[i].steps)))
  }

  lemma IdlesRun(defs: seq<Def>)
    ensures RunsWhole(defs, Idles(defs))
  {
  }

  // ----- From distinct keys to siblings apart -----

  lemma DistinctParts(a: seq<Entry>, b: seq<Entry>)
    requires DistinctNames(a + b)
    ensures DistinctNames(a) && DistinctNames(b) && NoneShared(a, b)
  {
    var c := a + b;
    NamesAreDisjoint(a, b);
    forall i, j | 0 <= i < j < |a| ensures a[i].name != a[j].name {
      assert c[i] == a[i] && c[j] == a[j];
    }
    forall i, j | 0 <= i < j < |b| ensures b[i].name != b[j].name {
      assert c[|a| + i] == b[i] && c[|a| + j] == b[j];
    }
    forall x, y | x in a && y in b ensures x.name != y.name {
      assert x.name in NamesOf(a) && y.name in NamesOf(b);
    }
  }

  lemma {:induction false} RunHolds(steps: seq<Exec>, k: nat, x: Entry)
    requires k < |steps| && x in StepEntries(steps[k].id, steps[k])
    ensures x in RunEntries(steps)
  {
    if k > 0 {
      RunHolds(steps[1..], k - 1, x);
    }
  }

  lemma {:induction false} DistinctRun(steps: seq<Exec>, i: nat, j: nat)
    requires DistinctNames(RunEntries(steps)) && i < |steps|
    ensures DistinctNames(StepEntries(steps[i].id, steps[i]))
    ensures i < j < |steps| ==> NoneShared(StepEntries(steps[i].id, steps[i]), StepEntries(steps[j].id, steps[j]))
  {
    DistinctParts(StepEntries(steps[0].id, steps[0]), RunEntries(steps[1..]));
    if i > 0 {
      DistinctRun(steps[1..], i - 1, if j > 0 then j - 1 else 0);
    } else if 0 < j < |steps| {
      forall y | y in StepEntries(steps[j].id, steps[j]) ensures y in RunEntries(steps[1..]) {
        RunHolds(steps[1..], j - 1, y);
      }
    }
  }

  // A body that does not fail is a run under a prefix.
  lemma {:induction false} BodyIsShiftedRun(prefix: string, steps: seq<Exec>)
    requires !Fails(steps)
    ensures BodyEntries(prefix, steps) == Shifted(prefix + ".", RunEntries(steps))
  {
    if steps != [] {
      assert steps[0] in steps && forall s :: s in steps[1..] ==> s in steps;
      BodyIsShiftedRun(prefix, steps[1..]);
      StepShift(prefix + ".", steps[0].id, steps[0]);
      ShiftAppend(prefix + ".", StepEntries(steps[0].id, steps[0]), RunEntries(steps[1..]));
    }
  }

  lemma BodyRepeats(prefix: string, steps: seq<Exec>)
    requires !Fails(steps) && !DistinctNames(RunEntries(steps))
    ensures !DistinctNames(BodyEntries(prefix, steps))
  {
    BodyIsShiftedRun(prefix, steps);
    var es := RunEntries(steps);
    var i, j :| 0 <= i < j < |es| && es[i].name == es[j].name;
    assert Shifted(prefix + ".", es)[i].name == Shifted(prefix + ".", es)[j].name;
  }

  lemma {:induction false} DistinctGroups(key: string, word: string, bodies: seq<Body>, i: nat, k: nat)
    requires i <= k < |bodies| && DistinctNames(GroupEntries(key, word, bodies, i, false))
    ensures DistinctNames(BodyEntries(Numbered(key, word, k), bodies[k].steps))
    decreases k - i
  {
    GroupUnfolds(key, word, bodies, i, false);
    DistinctParts(BodyEntries(Numbered(key, word, i), bodies[i].steps), GroupEntries(key, word, bodies, i + 1, false));
    if i < k {
      DistinctGroups(key, word, bodies, i + 1, k);
    }
  }

  // A definition with siblings that can meet has an execution in which they do.
  lemma {:induction false} MeetingRun(defs: seq<Def>) returns (steps: seq<Exec>)
    requires !SiblingsApart(defs)
    ensures RunsWhole(defs, steps) && !DistinctNames(RunEntries(steps))
    decreases defs
  {
    if i, j :| 0 <= i < j < |defs| && CanMeet(defs[i], defs[j]) {
      steps := SiblingsMeet(defs, i, j);
    } else {
      var i :| 0 <= i < |defs| && !ShapeApart(defs[i].shape);
      var flow := MeetingFlow(defs[i].id, defs[i].shape);
      steps := OneRuns(defs, i, flow);
      if DistinctNames(RunEntries(steps)) {
        DistinctRun(steps, i, 0);
        DistinctParts([Entry(defs[i].id, steps[i].end)], FlowEntries(defs[i].id, flow));
      }
    }
  }

  lemma SiblingsMeet(defs: seq<Def>, i: nat, j: nat) returns (steps: seq<Exec>)
    requires i < j < |defs| && CanMeet(defs[i], defs[j])
    ensures RunsWhole(defs, steps) && !DistinctNames(RunEntries(steps))
  {
    var key :| StepProduces(defs[i].id, defs[i].shape, key) && StepProduces(defs[j].id, defs[j].shape, key);
    var f := StepProducer(defs[i].id, defs[i], key);
    var g := StepProducer(defs[j].id, defs[j], key);
    var e, h := Idle(defs[i]).(flow := f), Idle(defs[j]).(flow := g);
    steps := Idles(defs)[i := e][j := h];
    forall k | 0 <= k < |steps| ensures steps[k].id == defs[k].id && ExecutesFlow(defs[k].shape, steps[k].flow) {}
    var x :| x in StepEntries(defs[i].id, e) && x.name == key;
    var y :| y in StepEntries(defs[j].id, h) && y.name == key;
    assert !NoneShared(StepEntries(steps[i].id, steps[i]), StepEntries(steps[j].id, steps[j]));
    if DistinctNames(RunEntries(steps)) {
      DistinctRun(steps, i, j);
    }
  }

  lemma {:induction false} MeetingFlow(full: string, shape: Shape) returns (flow: Flow)
    requires !ShapeApart(shape)
    ensures ExecutesFlow(shape, flow) && !DistinctNames(FlowEntries(full, flow))
    decreases shape
  {
    match shape
    case ConditionOf(branches, otherwise) =>
      if b :| b in branches && !SiblingsApart(branches[b].steps) {
        var steps := MeetingRun(branches[b].steps);
        BodyRepeats(full + "." + b, steps);
        flow := Condition(b, Body(steps));
      } else {
        var steps := MeetingRun(otherwise.steps);
        BodyRepeats(full + "." + "default", steps);
        flow := Condition("default", Body(steps));
      }
    case LoopOf(body, maxIter) =>
      var steps := MeetingRun(body.steps);
      flow := MeetingTurn(full, body, maxIter, steps);
    case ParallelOf(parts) =>
      var k :| 0 <= k < |parts| && !SiblingsApart(parts[k].steps);
      var steps := MeetingRun(parts[k].steps);
      flow := MeetingBranch(full, parts, k, steps);
  }

  lemma MeetingTurn(full: string, body: DefBody, maxIter: int, steps: seq<Exec>) returns (flow: Flow)
    requires RunsWhole(body.steps, steps) && !DistinctNames(RunEntries(steps))
    ensures ExecutesFlow(LoopOf(body, maxIter), flow) && !DistinctNames(FlowEntries(full, flow))
  {
    flow := Loop([Body(steps)]);
    var first := BodyEntries(Numbered(full, "iter_", 0), steps);
    var rest := GroupEntries(full, "iter_", [Body(steps)], 1, true);
    GroupUnfolds(full, "iter_", [Body(steps)], 0, true);
    assert FlowEntries(full, flow) == first + rest;
    BodyRepeats(Numbered(full, "iter_", 0), steps);
    if DistinctNames(FlowEntries(full, flow)) {
      DistinctParts(first, rest);
    }
  }

  lemma MeetingBranch(full: string, parts: seq<DefBody>, k: nat, steps: seq<Exec>) returns (flow: Flow)
    requires k < |parts| && RunsWhole(parts[k].steps, steps) && !DistinctNames(RunEntries(steps))
    ensures ExecutesFlow(ParallelOf(parts), flow) && !DistinctNames(FlowEntries(full, flow))
  {
    var branches := BranchesWith(parts, k, steps);
    flow := Parallel(branches);
    forall i | 0 <= i < |parts| ensures Executes(parts[i].steps, branches[i].steps) {
      IdlesRun(parts[i].steps);
    }
    BodyRepeats(Numbered(full, "branch_", k), steps);
    if DistinctNames(FlowEntries(full, flow)) {
      DistinctGroups(full, "branch_", branches, 0, k);
    }
  }

  // For every definition: no execution ever puts two states under one key if and
  // only if no two siblings can produce the same key.
  lemma KeysNeverMeetIff(defs: seq<Def>)
    ensures (forall steps :: Executes(defs, steps) ==> DistinctNames(RunEntries(steps))) <==> SiblingsApart(defs)
  {
    if SiblingsApart(defs) {
      forall steps | Executes(defs, steps) ensures DistinctNames(RunEntries(steps)) {
        ExecutionIsApart(defs, steps);
        RunKeysDistinct(steps);
      }
    } else {
      var steps := MeetingRun(defs);
    }
  }

  // A bound on a loop is part of that: one iteration cannot clash with the key of
  // a sixth.
  lemma BoundedLoopStaysApart()
    ensures SiblingsApart([BOUNDED, SIXTH]) && !SiblingsApart([BOUNDED.(shape := UNBOUNDED), SIXTH])
  {
    forall key ensures !(StepProduces("a", BOUNDED.shape, key) && StepProduces("a.iter_5.x", Simple, key)) {
      if StepProduces("a.iter_5.x", Simple, key) && ShapeProduces("a", BOUNDED.shape, key) {
        BoundedProduces(key);
      }
    }
    UnboundedProduces();
    assert [BOUNDED, SIXTH][0] == BOUNDED && [BOUNDED, SIXTH][1] == SIXTH;
    var free := [BOUNDED.(shape := UNBOUNDED), SIXTH];
    assert free[0].shape == UNBOUNDED && free[1] == SIXTH && CanMeet(free[0], free[1]);
  }

  const ONE_STEP := DefBody([Def("x", Simple)])
  const BOUNDED := Def("a", LoopOf(ONE_STEP, 1))
  const UNBOUNDED := LoopOf(ONE_STEP, 0)
  const SIXTH := Def("a.iter_5.x", Simple)

  lemma BoundedProduces(key: string)
    requires ShapeProduces("a", BOUNDED.shape, key)
    ensures key == "a.iter_0.x"
  {
    var n: nat :| TurnAllowed(1, n) && BodyProduces(Numbered("a", "iter_", n), ONE_STEP.steps, key);
    assert Itoa(0) == "0" && Numbered("a", "iter_", 0) == "a.iter_0";
    assert "a.iter_0" + "." + "x" == "a.iter_0.x";
  }

  lemma UnboundedProduces()
    ensures StepProduces("a", UNBOUNDED, "a.iter_5.x")
  {
    assert Itoa(5) == "5" && Numbered("a", "iter_", 5) == "a.iter_5";
    assert "a.iter_5" + "." + "x" == "a.iter_5.x";
    assert ONE_STEP.steps[0] == Def("x", Simple);
    assert StepProduces("a.iter_5" + "." + "x", Simple, "a.iter_5.x");
    assert BodyProduces("a.iter_5", ONE_STEP.steps, "a.iter_5.x");
    assert TurnAllowed(0, 5);
  }

  // What a caller can look at: siblings can meet only if the id of one is the id
  // of the other followed by a dot and more, or they are equal.
  lemma MeetingIdsExtend(d: Def, e: Def)
    requires CanMeet(d, e)
    ensures Under(d.id, e.id) || Under(e.id, d.id)
  {
    var key :| StepProduces(d.id, d.shape, key) && StepProduces(e.id, e.shape, key);
    var f := StepProducer(d.id, d, key);
    var g := StepProducer(e.id, e, key);
    var x :| x in StepEntries(d.id, Idle(d).(flow := f)) && x.name == key;
    var y :| y in StepEntries(e.id, Idle(e).(flow := g)) && y.name == key;
    StepEntriesUnder(d.id, Idle(d).(flow := f), x);
    StepEntriesUnder(e.id, Idle(e).(flow := g), y);
    if |d.id| <= |e.id| {
      PrefixesNest(key, d.id, e.id);
    } else {
      PrefixesNest(key, e.id, d.id);
    }
  }

  lemma PrefixesNest(key: string, p: string, q: string)
    requires Under(key, p) && Under(key, q) && |p| <= |q|
    ensures Under(q, p)
  {
    assert p == key[..|p|] && q == key[..|q|];
    if |p| < |q| {
      assert q[|p|] == key[|p|];
    }
  }
}
