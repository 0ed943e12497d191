// The bounded worker pool as interleaved atomic steps of any number of Submit
// callers, their goroutines and Shutdown callers. Channel, wait group, flag and
// metrics are plain counters; the invariants say what each one counts.
module WorkerPool {
  import opened Wrappers

  datatype Ending = Succeeded | Errored | Panicked

  // A submitted task, from the call of Submit to the end of its goroutine.
  datatype TaskPc =
    | Calling               // before the first look at `closed`
    | Selecting             // waiting for a slot, the context or shutdown
    | Holding               // slot acquired, `closed` not looked at again yet
    | Releasing             // refused after all, slot still held
    | Refused
    | Running               // registered; the function is executing
    | Recovering            // it panicked; nothing counted yet
    | PanicCounted          // panic metric done, failure metric to come
    | Counted(how: Ending)
    | Inactive(how: Ending)
    | SlotFreed(how: Ending)
    | Done(how: Ending)

  datatype ShutdownPc = ShutdownCalled | Draining | Returned(closer: bool)

  datatype Pool = Pool(
    size: nat,
    held: int,              // tokens in the semaphore channel
    waitGroup: int,
    active: int,
    completed: int,
    failed: int,
    panics: int,
    closed: bool,
    tasks: map<nat, TaskPc>,
    shutdowns: map<nat, ShutdownPc>)

  datatype Act =
    | Submit(task: nat)
    | CheckClosed(task: nat)
    | Acquire(task: nat)
    | ContextDone(task: nat)
    | SeeShutdown(task: nat)
    | Register(task: nat)
    | Release(task: nat)
    | Return(task: nat, ok: bool)
    | PanicIn(task: nat)
    | CountPanic(task: nat)
    | CountFailure(task: nat)
    | Deactivate(task: nat)
    | FreeSlot(task: nat)
    | WaitGroupDone(task: nat)
    | CallShutdown(caller: nat)
    | Close(caller: nat)
    | Drained(caller: nat)

  function New(size: int): Pool {
    Pool(if size <= 0 then 1 else size, 0, 0, 0, 0, 0, 0, false, map[], map[])
  }

  predicate At(p: Pool, t: nat, pc: TaskPc) {
    t in p.tasks && p.tasks[t] == pc
  }

  function To(p: Pool, t: nat, pc: TaskPc): Pool {
    p.(tasks := p.tasks[t := pc])
  }

  function Step(p: Pool, a: Act): Option<Pool> {
    match a
    case Submit(t) => if t in p.tasks then None else Some(To(p, t, Calling))
    case CheckClosed(t) =>
      if !At(p, t, Calling) then None else Some(To(p, t, if p.closed then Refused else Selecting))
    case Acquire(t) =>
      if !At(p, t, Selecting) || p.held >= p.size then None else Some(To(p, t, Holding).(held := p.held + 1))
    case ContextDone(t) =>
      if !At(p, t, Selecting) then None else Some(To(p, t, Refused))
    case SeeShutdown(t) =>
      if !At(p, t, Selecting) || !p.closed then None else Some(To(p, t, Refused))
    case Register(t) =>
      if !At(p, t, Holding) then None
      else if p.closed then Some(To(p, t, Releasing))
      else Some(To(p, t, Running).(waitGroup := p.waitGroup + 1, active := p.active + 1))
    case Release(t) =>
      if !At(p, t, Releasing) then None else Some(To(p, t, Refused).(held := p.held - 1))
    case Return(t, ok) =>
      if !At(p, t, Running) then None
      else if ok then Some(To(p, t, Counted(Succeeded)).(completed := p.completed + 1))
      else Some(To(p, t, Counted(Errored)).(failed := p.failed + 1))
    case PanicIn(t) =>
      if !At(p, t, Running) then None else Some(To(p, t, Recovering))
    case CountPanic(t) =>
      if !At(p, t, Recovering) then None else Some(To(p, t, PanicCounted).(panics := p.panics + 1))
    case CountFailure(t) =>
      if !At(p, t, PanicCounted) then None else Some(To(p, t, Counted(Panicked)).(failed := p.failed + 1))
    case Deactivate(t) =>
      if !(t in p.tasks && p.tasks[t].Counted?) then None
      else Some(To(p, t, Inactive(p.tasks[t].how)).(active := p.active - 1))
    case FreeSlot(t) =>
      if !(t in p.tasks && p.tasks[t].Inactive?) then None
      else Some(To(p, t, SlotFreed(p.tasks[t].how)).(held := p.held - 1))
    case WaitGroupDone(t) =>
      if !(t in p.tasks && p.tasks[t].SlotFreed?) then None
      else Some(To(p, t, Done(p.tasks[t].how)).(waitGroup := p.waitGroup - 1))
    case CallShutdown(c) =>
      if c in p.shutdowns then None else Some(p.(shutdowns := p.shutdowns[c := ShutdownCalled]))
    case Close(c) =>
      if !(c in p.shutdowns && p.shutdowns[c].ShutdownCalled?) then None
      else if p.closed then Some(p.(shutdowns := p.shutdowns[c := Returned(false)]))
      else Some(p.(closed := true, shutdowns := p.shutdowns[c := Draining]))
    case Drained(c) =>
      if !(c in p.shutdowns && p.shutdowns[c].Draining?) || p.waitGroup != 0 then None
      else Some(p.(shutdowns := p.shutdowns[c := Returned(true)]))
  }

  function Execute(size: int, acts: seq<Act>): Option<Pool> {
    if acts == [] then Some(New(size))
    else
      var before := Execute(size, acts[..|acts| - 1]);
      if before.None? then None else Step(before.value, acts[|acts| - 1])
  }

  // ----- Who holds what -----

  predicate HoldsSlot(pc: TaskPc) {
    pc.Holding? || pc.Releasing? || pc.Running? || pc.Recovering? || pc.PanicCounted? || pc.Counted? || pc.Inactive?
  }

  predicate IsActive(pc: TaskPc) {
    pc.Running? || pc.Recovering? || pc.PanicCounted? || pc.Counted?
  }

  predicate Ended(pc: TaskPc) {
    pc.Counted? || pc.Inactive? || pc.SlotFreed? || pc.Done?
  }

  predicate IsAccepted(pc: TaskPc) {
    pc.Running? || pc.Recovering? || pc.PanicCounted? || Ended(pc)
  }

  predicate Registered(pc: TaskPc) {
    IsAccepted(pc) && !pc.Done?
  }

  predicate CountsCompleted(pc: TaskPc) {
    Ended(pc) && pc.how == Succeeded
  }

  predicate CountsFailed(pc: TaskPc) {
    Ended(pc) && pc.how != Succeeded
  }

  predicate CountsPanic(pc: TaskPc) {
    pc.PanicCounted? || (Ended(pc) && pc.how == Panicked)
  }

  ghost function Those(tasks: map<nat, TaskPc>, f: TaskPc -> bool): set<nat> {
    set t | t in tasks && f(tasks[t])
  }

  ghost function Accepted(p: Pool): set<nat> {
    Those(p.tasks, IsAccepted)
  }

  ghost predicate CountedRight(p: Pool) {
    && p.held == |Those(p.tasks, HoldsSlot)| <= p.size
    && p.waitGroup == |Those(p.tasks, Registered)|
    && p.active == |Those(p.tasks, IsActive)|
    && p.completed == |Those(p.tasks, CountsCompleted)|
    && p.failed == |Those(p.tasks, CountsFailed)|
    && p.panics == |Those(p.tasks, CountsPanic)|
  }

  ghost predicate Inv(p: Pool) {
    && CountedRight(p)
    && (forall c :: c in p.shutdowns && !p.shutdowns[c].ShutdownCalled? ==> p.closed)
    && (forall c :: c in p.shutdowns && p.shutdowns[c] == Returned(true) ==> p.waitGroup == 0)
  }

  function Bit(b: bool): int {
    if b then 1 else 0
  }

  lemma CardinalityBit(s: set<nat>, t: nat)
    ensures |s| == |s - {t}| + Bit(t in s)
  {
    if t in s {
      assert s == (s - {t}) + {t};
    } else {
      assert s == s - {t};
    }
  }

  // Moving one task moves each count by what it stops and starts counting for.
  lemma CountMove(tasks: map<nat, TaskPc>, t: nat, pc: TaskPc, f: TaskPc -> bool)
    ensures |Those(tasks[t := pc], f)| ==
            |Those(tasks, f)| - Bit(t in tasks && f(tasks[t])) + Bit(f(pc))
  {
    var before, after := Those(tasks, f), Those(tasks[t := pc], f);
    assert after - {t} == before - {t};
    assert t in before <==> t in tasks && f(tasks[t]);
    assert t in after <==> f(pc);
    CardinalityBit(before, t);
    CardinalityBit(after, t);
  }

  predicate IsTaskAct(a: Act) {
    !a.CallShutdown? && !a.Close? && !a.Drained?
  }

  // What a task stops and starts counting for when it moves.
  function Shift(tasks: map<nat, TaskPc>, t: nat, pc: TaskPc, f: TaskPc -> bool): int {
    Bit(f(pc)) - Bit(t in tasks && f(tasks[t]))
  }

  // Every action on a task shifts the counters by exactly what its move shifts.
  lemma SlotsFollow(p: Pool, a: Act)
    requires Step(p, a).Some? && IsTaskAct(a)
    ensures var p' := Step(p, a).value; var t := a.task;
            && t in p'.tasks && p'.tasks == p.tasks[t := p'.tasks[t]] && p'.size == p.size
            && p'.held == p.held + Shift(p.tasks, t, p'.tasks[t], HoldsSlot)
            && (p'.held <= p.held || p'.held <= p.size)
            && p'.waitGroup == p.waitGroup + Shift(p.tasks, t, p'.tasks[t], Registered)
            && p'.active == p.active + Shift(p.tasks, t, p'.tasks[t], IsActive)
  {
  }

  lemma OutcomesFollow(p: Pool, a: Act)
    requires Step(p, a).Some? && IsTaskAct(a)
    ensures var p' := Step(p, a).value; var t := a.task;
            && t in p'.tasks
            && p'.completed == p.completed + Shift(p.tasks, t, p'.tasks[t], CountsCompleted)
            && p'.failed == p.failed + Shift(p.tasks, t, p'.tasks[t], CountsFailed)
            && p'.panics == p.panics + Shift(p.tasks, t, p'.tasks[t], CountsPanic)
  {
  }

  lemma CountFollows(tasks: map<nat, TaskPc>, t: nat, pc: TaskPc, f: TaskPc -> bool, n: int)
    requires n == |Those(tasks, f)|
    ensures n + Shift(tasks, t, pc, f) == |Those(tasks[t := pc], f)|
  {
    CountMove(tasks, t, pc, f);
  }

  lemma StepKeepsCounts(p: Pool, a: Act)
    requires CountedRight(p) && Step(p, a).Some?
    ensures CountedRight(Step(p, a).value)
  {
    var p' := Step(p, a).value;
    if IsTaskAct(a) {
      SlotsFollow(p, a);
      OutcomesFollow(p, a);
      TaskMoveKeepsCounts(p, p', a.task);
    } else {
      assert p'.tasks == p.tasks;
    }
  }

  lemma TaskMoveKeepsCounts(p: Pool, p': Pool, t: nat)
    requires CountedRight(p) && t in p'.tasks && p'.tasks == p.tasks[t := p'.tasks[t]] && p'.size == p.size
    requires p'.held == p.held + Shift(p.tasks, t, p'.tasks[t], HoldsSlot) && (p'.held <= p.held || p'.held <= p.size)
    requires p'.waitGroup == p.waitGroup + Shift(p.tasks, t, p'.tasks[t], Registered)
    requires p'.active == p.active + Shift(p.tasks, t, p'.tasks[t], IsActive)
    requires p'.completed == p.completed + Shift(p.tasks, t, p'.tasks[t], CountsCompleted)
    requires p'.failed == p.failed + Shift(p.tasks, t, p'.tasks[t], CountsFailed)
    requires p'.panics == p.panics + Shift(p.tasks, t, p'.tasks[t], CountsPanic)
    ensures CountedRight(p')
  {
    var pc := p'.tasks[t];
    CountFollows(p.tasks, t, pc, HoldsSlot, p.held);
    CountFollows(p.tasks, t, pc, Registered, p.waitGroup);
    CountFollows(p.tasks, t, pc, IsActive, p.active);
    CountFollows(p.tasks, t, pc, CountsCompleted, p.completed);
    CountFollows(p.tasks, t, pc, CountsFailed, p.failed);
    CountFollows(p.tasks, t, pc, CountsPanic, p.panics);
  }

  lemma StepKeeps(p: Pool, a: Act)
    requires Inv(p) && Step(p, a).Some?
    ensures Inv(Step(p, a).value)
  {
    StepKeepsCounts(p, a);
  }

  lemma {:induction false} Reachable(size: int, acts: seq<Act>)
    requires Execute(size, acts).Some?
    ensures Inv(Execute(size, acts).value)
  {
    if acts == [] {
      var p := New(size);
      assert Those(p.tasks, HoldsSlot) == Those(p.tasks, Registered) == Those(p.tasks, IsActive) == {};
      assert Those(p.tasks, CountsCompleted) == Those(p.tasks, CountsFailed) == Those(p.tasks, CountsPanic) == {};
    } else {
      Reachable(size, acts[..|acts| - 1]);
      StepKeeps(Execute(size, acts[..|acts| - 1]).value, acts[|acts| - 1]);
    }
  }

  // ----- Guarantees, over every interleaving -----

  lemma SizeStays(p: Pool, a: Act)
    requires Step(p, a).Some?
    ensures Step(p, a).value.size == p.size
  {
  }

  lemma {:induction false} SizeIsFixed(size: int, acts: seq<Act>)
    requires Execute(size, acts).Some?
    ensures Execute(size, acts).value.size == if size <= 0 then 1 else size
  {
    if acts != [] {
      SizeIsFixed(size, acts[..|acts| - 1]);
      SizeStays(Execute(size, acts[..|acts| - 1]).value, acts[|acts| - 1]);
    }
  }

  // Never more active tasks than slots held, never more slots held than the pool has.
  lemma Bounded(size: int, acts: seq<Act>)
    requires Execute(size, acts).Some?
    ensures var p := Execute(size, acts).value; 0 <= p.active <= p.held <= if size <= 0 then 1 else size
  {
    Reachable(size, acts);
    SizeIsFixed(size, acts);
    var p := Execute(size, acts).value;
    Subset(Those(p.tasks, IsActive), Those(p.tasks, HoldsSlot));
  }

  lemma {:induction false} Subset(a: set<nat>, b: set<nat>)
    requires a <= b
    ensures |a| <= |b|
  {
    assert b == a + (b - a);
    assert |b| == |a| + |b - a|;
  }

  // Once closed, the set of accepted tasks is frozen.
  lemma {:induction false} NothingAcceptedAfterClose(size: int, acts: seq<Act>, more: seq<Act>)
    requires Execute(size, acts).Some? && Execute(size, acts).value.closed && Execute(size, acts + more).Some?
    ensures Execute(size, acts + more).value.closed
    ensures Accepted(Execute(size, acts + more).value) == Accepted(Execute(size, acts).value)
  {
    if more == [] {
      assert acts + more == acts;
    } else {
      var n := |more| - 1;
      assert (acts + more)[..|acts + more| - 1] == acts + more[..n];
      NothingAcceptedAfterClose(size, acts, more[..n]);
      AcceptedIsFrozen(Execute(size, acts + more[..n]).value, more[n]);
    }
  }

  lemma AcceptedIsFrozen(p: Pool, a: Act)
    requires p.closed && Step(p, a).Some?
    ensures Step(p, a).value.closed && Accepted(Step(p, a).value) == Accepted(p)
  {
    var p' := Step(p, a).value;
    forall t ensures t in Accepted(p') <==> t in Accepted(p) {
    }
  }

  // A refused task holds no slot, and nothing later changes that.
  lemma {:induction false} RefusedHoldsNothing(size: int, acts: seq<Act>, more: seq<Act>, t: nat)
    requires Execute(size, acts).Some? && At(Execute(size, acts).value, t, Refused)
    requires Execute(size, acts + more).Some?
    ensures At(Execute(size, acts + more).value, t, Refused) && !HoldsSlot(Refused)
  {
    if more == [] {
      assert acts + more == acts;
    } else {
      var n := |more| - 1;
      assert (acts + more)[..|acts + more| - 1] == acts + more[..n];
      RefusedHoldsNothing(size, acts, more[..n], t);
      RefusedStays(Execute(size, acts + more[..n]).value, more[n], t);
    }
  }

  lemma RefusedStays(p: Pool, a: Act, t: nat)
    requires At(p, t, Refused) && Step(p, a).Some?
    ensures At(Step(p, a).value, t, Refused)
  {
  }

  lemma IdleTasks(tasks: map<nat, TaskPc>)
    requires Those(tasks, Registered) == {}
    ensures Those(tasks, IsActive) == {}
    ensures Those(tasks, IsAccepted) == Those(tasks, CountsCompleted) + Those(tasks, CountsFailed)
    ensures Those(tasks, CountsCompleted) !! Those(tasks, CountsFailed)
    ensures Those(tasks, CountsPanic) <= Those(tasks, CountsFailed)
  {
    forall t | t in tasks ensures !Registered(tasks[t]) {
      assert t !in Those(tasks, Registered);
    }
  }

  lemma IdleCountsAddUp(p: Pool)
    requires CountedRight(p) && Those(p.tasks, Registered) == {}
    ensures p.active == 0 && |Accepted(p)| == p.completed + p.failed && p.panics <= p.failed
  {
    IdleTasks(p.tasks);
    var completed, failed := Those(p.tasks, CountsCompleted), Those(p.tasks, CountsFailed);
    assert |completed + failed| == |completed| + |failed|;
    Subset(Those(p.tasks, CountsPanic), failed);
  }

  // When the Shutdown call that closed the pool has returned, the pool is idle
  // and its metrics add up; and so they stay.
  lemma ShutdownDrains(size: int, acts: seq<Act>, c: nat)
    requires Execute(size, acts).Some?
    requires var p := Execute(size, acts).value; c in p.shutdowns && p.shutdowns[c] == Returned(true)
    ensures var p := Execute(size, acts).value;
            && p.closed && p.active == 0
            && |Accepted(p)| == p.completed + p.failed
            && p.panics <= p.failed
  {
    Reachable(size, acts);
    var p := Execute(size, acts).value;
    assert Those(p.tasks, Registered) == {};
    IdleCountsAddUp(p);
  }

  lemma ReturnStays(p: Pool, a: Act, c: nat)
    requires Step(p, a).Some? && c in p.shutdowns && p.shutdowns[c] == Returned(true)
    ensures var p' := Step(p, a).value; c in p'.shutdowns && p'.shutdowns[c] == Returned(true)
  {
  }

  lemma {:induction false} ReturnIsForever(size: int, acts: seq<Act>, more: seq<Act>, c: nat)
    requires Execute(size, acts).Some? && Execute(size, acts + more).Some?
    requires var p := Execute(size, acts).value; c in p.shutdowns && p.shutdowns[c] == Returned(true)
    ensures var p := Execute(size, acts + more).value; c in p.shutdowns && p.shutdowns[c] == Returned(true)
  {
    if more == [] {
      assert acts + more == acts;
    } else {
      var n := |more| - 1;
      assert (acts + more)[..|acts + more| - 1] == acts + more[..n];
      ReturnIsForever(size, acts, more[..n], c);
      ReturnStays(Execute(size, acts + more[..n]).value, more[n], c);
    }
  }

  // At any moment the panic metric exceeds the failure metric by at most the
  // tasks caught between the two increments.
  lemma PanicsTrailFailures(size: int, acts: seq<Act>)
    requires Execute(size, acts).Some?
    ensures var p := Execute(size, acts).value;
            p.panics <= p.failed + |Those(p.tasks, BetweenCounts)|
  {
    Reachable(size, acts);
    var p := Execute(size, acts).value;
    var between := Those(p.tasks, BetweenCounts);
    Subset(Those(p.tasks, CountsPanic), Those(p.tasks, CountsFailed) + between);
    UnionSize(Those(p.tasks, CountsFailed), between);
  }

  predicate BetweenCounts(pc: TaskPc) {
    pc.PanicCounted?
  }

  lemma UnionSize(a: set<nat>, b: set<nat>)
    ensures |a + b| <= |a| + |b|
  {
    assert a + b == a + (b - a);
    Subset(b - a, b);
  }
}
