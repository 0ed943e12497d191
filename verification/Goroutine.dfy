// What holds between one step's goroutine, the log's view of the step and its
// decision, at every point of executeStep.
module Goroutine {
  import opened Wrappers
  import opened Lifecycle
  import opened EventLog
  import opened Decisions
  import opened Execution

  // A step as the persistent state shows it: its replayed view, how often a
  // decision was requested for it, and the decision row.
  datatype Record = Record(view: StepView, requests: nat, decision: Option<Decision>)

  function RecordOf(m: Machine, id: string): Record {
    Record(ReplayStep(m.log, id), CountKind(m.log, id, DecisionRequested), Lookup(m.decisions, id))
  }

  function After(r: Record, e: Effect, ask: Decision): Record {
    Record(
      if e.event.Some? then Apply(r.view, e.event.value) else r.view,
      r.requests + if e.event == Some(DecisionRequested) then 1 else 0,
      if e.inserted then Some(ask.(status := Open)) else r.decision)
  }

  function RetryBudget(def: StepDef): int {
    if def.maxRetries.Some? && def.maxRetries.value > 0 then def.maxRetries.value else 0
  }

  // What may complete a reasoning step: its decision is resolved, a retry has
  // run the action path instead, or its error is ignored.
  predicate Answered(def: StepDef, r: Record) {
    def.kind == Reasoning ==> IsResolved(r.decision) || r.view.retryCount > 0 || def.onError == Ignore
  }

  predicate IsResolved(d: Option<Decision>) {
    d.Some? && d.value.status.Resolved?
  }

  predicate IsOpen(d: Option<Decision>) {
    d.Some? && d.value.status == Open
  }

  // ----- What survives a crash -----

  predicate Sound(def: StepDef, r: Record) {
    && r.view.retryCount <= RetryBudget(def)
    && r.requests <= (if r.decision.Some? then 1 else 0)
    && (r.view.status == Completed ==> Answered(def, r))
    && 0 <= r.view.retryCount
  }

  // ----- What holds while the run is in memory -----

  // What a goroutine sees of its run: the step's view at the start, whether its
  // decision was open then, and whether the run's context has ended.
  datatype Frame = Frame(entry: StepView, asked: bool, over: bool)

  // Which appends fail: none, or only those on a context that is over.
  datatype Mode = Mode(lossless: bool, reliable: bool)

  // The log is one retry ahead between appending step_retrying and counting it.
  predicate RetryCountsAgree(v: StepView, l: Local) {
    v.retryCount == l.live.retryCount + if l.pc.RetryLogged? then 1 else 0
  }

  // Between an append and the write that follows it.
  predicate InWindow(pc: Pc) {
    pc.StartLogged? || pc.SuspendLogged? || pc.SkipLogged? || pc.CompleteLogged? ||
    pc.RetryLogged? || pc.RestartLogged? || pc.FailLogged?
  }

  // Outcomes the log was refused: the two ends of executeStep whose append failed.
  predicate Refused(pc: Pc) {
    pc.IgnoredUnlogged? || pc.FailedUnlogged?
  }

  // Whether log and memory agree that the step is over.
  predicate TerminalAgrees(v: StepView, l: Local) {
    match l.pc
    case Idle => v == l.live
    case SkipLogged => v.status == Skipped && l.live.status == Running
    case CompleteLogged => v.status == Completed && l.live.status == Running
    case FailLogged => v.status == Failed && l.live.status == Running
    case Returned(failed) =>
      && (IsTerminal(v.status) || IsTerminal(l.live.status) ==> v.status == l.live.status)
      && (!failed ==> l.live.status in {Completed, Skipped, Suspended})
      && (failed ==> l.live.status !in {Completed, Skipped})
    case FailedUnlogged => !IsTerminal(v.status) && l.live.status == Failed
    case IgnoredUnlogged(_) => l.live.status == Running
    case Panicked => !IsTerminal(v.status) && l.live.status == Running
    case _ => !IsTerminal(v.status) && !IsTerminal(l.live.status)
  }

  // The status in memory, where the write has caught up with the append.
  predicate LiveAt(l: Local) {
    match l.pc
    case Idle => true
    case Entered => true
    case Starting => true
    case StartLogged => true
    case BackingOff => l.live.status == Retrying
    case RestartLogged => l.live.status == Retrying
    case Returned(_) => true
    case FailedUnlogged => true
    case _ => l.live.status == Running
  }

  // The exact status of the log when every append so far committed.
  predicate StatusAgrees(v: StepView, asked: bool, l: Local) {
    match l.pc
    case Idle => v.status == l.live.status
    case Entered => v.status == l.live.status
    case Starting => v.status == l.live.status || (l.live.status == Scheduled && v.status == Pending)
    case DecisionLogged => v.status == Suspended
    case SuspendLogged => v.status == (if asked then Running else Suspended)
    case SkipLogged => v.status == Skipped
    case CompleteLogged => v.status == Completed
    case FailLogged => v.status == Failed
    case RetryLogged => v.status == Retrying
    case BackingOff => v.status == Retrying
    case Returned(_) => v.status == (if l.live.status == Suspended && asked then Running else l.live.status)
    case IgnoreRefused(_) => false
    case FailingAgain => false
    case FailRefused => false
    case FailedUnlogged => false
    case IgnoredUnlogged(_) => false
    case _ => v.status == Running
  }

  // On the retry path.
  predicate HasRetried(pc: Pc) {
    pc.RetryLogged? || pc.BackingOff? || pc.RestartLogged? || pc == Working(true) || pc == Completing(true)
  }

  // Paths that need retries, on_error ignore or a fresh decision row.
  predicate PathPossible(def: StepDef, r: Record, l: Local) {
    && (HasRetried(l.pc) ==> def.maxRetries.Some?)
    && (def.onError != Ignore ==> !l.pc.Ignoring? && !l.pc.IgnoreRefused? && !l.pc.IgnoredUnlogged?)
    && (l.pc.DecisionCreated? ==> r.requests == 0 && r.decision.Some?)
    && (HasRetried(l.pc) ==> r.view.retryCount > 0)
    && (l.pc.Succeeded? || l.pc.Completing? || l.pc.CompleteLogged? ==> Answered(def, r))
  }

  // Before it asks, or finds a decision, the goroutine's decision is open only if
  // it was when the run began; a decision it created was not there then.
  predicate AskedRight(d: Option<Decision>, asked: bool, pc: Pc) {
    && (asked ==> d.Some?)
    && (BeforeAsking(pc) && IsOpen(d) ==> asked)
    && (pc.DecisionCreated? || pc.DecisionLogged? ==> !asked)
    && (pc.Resuspending? ==> asked)
  }

  predicate BeforeAsking(pc: Pc) {
    pc.Idle? || pc.Entered? || pc.Starting? || pc.StartLogged? || pc == Working(false) || pc.Undecided?
  }

  // Only a step with a timeout times out, and an ignored error is lost for the
  // reason the goroutine remembers.
  predicate LateRight(def: StepDef, f: Frame, l: Local, reliable: bool) {
    && (l.timedOut ==> def.timed && l.pc != Idle)
    && (l.pc.IgnoreRefused? || l.pc.IgnoredUnlogged? ==>
          && (l.pc.why == StepTimeout ==> l.timedOut)
          && (l.pc.why == RunOver ==> f.over)
          && (reliable ==> l.pc.why != StoreRefusal))
  }

  predicate Tracks(def: StepDef, r: Record, f: Frame, l: Local, mode: Mode) {
    && RetryCountsAgree(r.view, l)
    && TerminalAgrees(r.view, l)
    && LiveAt(l)
    && PathPossible(def, r, l)
    && AskedRight(r.decision, f.asked, l.pc)
    && LateRight(def, f, l, mode.reliable)
    && (l.pc == Idle ==> l.live == f.entry)
    && (l.pc != Idle ==> !IsTerminal(f.entry.status))
    && (mode.lossless ==> StatusAgrees(r.view, f.asked, l))
  }

  predicate Fits(mode: Mode, a: StepAct) {
    a.Append? ==> (mode.lossless ==> a.outcome == Committed) && (mode.reliable ==> a.outcome != StoreRefused)
  }

  // The action leads from one consistent point to another, and reopens a step
  // only while the log does not show it as over.
  ghost predicate Keeps(def: StepDef, r: Record, f: Frame, l: Local, e: Effect, mode: Mode) {
    && Sound(def, After(r, e, def.ask))
    && Tracks(def, After(r, e, def.ask), f, e.local, mode)
    && (e.event.Some? && Reopens(e.event.value) ==> !IsTerminal(r.view.status))
    && (e.inserted ==> r.decision.None?)
    && e.local.pc != Idle && l.pc != Idle
  }

  // A consistent point from which the action is possible.
  ghost predicate Ready(def: StepDef, r: Record, f: Frame, l: Local, a: StepAct, e: Effect, mode: Mode) {
    && Sound(def, r) && Tracks(def, r, f, l, mode)
    && Fits(mode, a)
    && Advance(def, r.decision, f.over, l, a) == Some(e)
  }

  lemma TimeOutKeeps(def: StepDef, r: Record, f: Frame, l: Local, a: StepAct, e: Effect, mode: Mode)
    requires Ready(def, r, f, l, a, e, mode)
    requires a.TimeOut?
    ensures Keeps(def, r, f, l, e, mode)
  {
  }

  lemma StartKeeps(def: StepDef, r: Record, f: Frame, l: Local, a: StepAct, e: Effect, mode: Mode)
    requires Ready(def, r, f, l, a, e, mode)
    requires !a.TimeOut? && (l.pc.Entered? || l.pc.Starting? || l.pc.StartLogged?)
    ensures Keeps(def, r, f, l, e, mode)
  {
  }

  lemma WorkKeeps(def: StepDef, r: Record, f: Frame, l: Local, a: StepAct, e: Effect, mode: Mode)
    requires Ready(def, r, f, l, a, e, mode)
    requires !a.TimeOut? && l.pc.Working? && (def.kind != Reasoning || l.pc.retried)
    ensures Keeps(def, r, f, l, e, mode)
  {
  }

  lemma ReasonKeeps(def: StepDef, r: Record, f: Frame, l: Local, a: StepAct, e: Effect, mode: Mode)
    requires Ready(def, r, f, l, a, e, mode)
    requires !a.TimeOut? && l.pc == Working(false) && def.kind == Reasoning
    ensures Keeps(def, r, f, l, e, mode)
  {
  }

  lemma AskKeeps(def: StepDef, r: Record, f: Frame, l: Local, a: StepAct, e: Effect, mode: Mode)
    requires Ready(def, r, f, l, a, e, mode)
    requires !a.TimeOut? && (l.pc.Undecided? || l.pc.DecisionCreated?)
    ensures Keeps(def, r, f, l, e, mode)
  {
  }

  lemma SuspendKeeps(def: StepDef, r: Record, f: Frame, l: Local, a: StepAct, e: Effect, mode: Mode)
    requires Ready(def, r, f, l, a, e, mode)
    requires !a.TimeOut? && (l.pc.DecisionLogged? || l.pc.Resuspending? || l.pc.SuspendLogged?)
    ensures Keeps(def, r, f, l, e, mode)
  {
  }

  lemma SkipKeeps(def: StepDef, r: Record, f: Frame, l: Local, a: StepAct, e: Effect, mode: Mode)
    requires Ready(def, r, f, l, a, e, mode)
    requires !a.TimeOut? && (l.pc.Skipping? || l.pc.SkipLogged?)
    ensures Keeps(def, r, f, l, e, mode)
  {
  }

  lemma CompleteKeeps(def: StepDef, r: Record, f: Frame, l: Local, a: StepAct, e: Effect, mode: Mode)
    requires Ready(def, r, f, l, a, e, mode)
    requires !a.TimeOut? && (l.pc.Succeeded? || l.pc.Completing? || l.pc.CompleteLogged?)
    ensures Keeps(def, r, f, l, e, mode)
  {
  }

  lemma ErrorKeeps(def: StepDef, r: Record, f: Frame, l: Local, a: StepAct, e: Effect, mode: Mode)
    requires Ready(def, r, f, l, a, e, mode)
    requires !a.TimeOut? && l.pc.Erred?
    ensures Keeps(def, r, f, l, e, mode)
  {
  }

  lemma RetryKeeps(def: StepDef, r: Record, f: Frame, l: Local, a: StepAct, e: Effect, mode: Mode)
    requires Ready(def, r, f, l, a, e, mode)
    requires !a.TimeOut? && (l.pc.RetryLogged? || l.pc.BackingOff? || l.pc.RestartLogged?)
    ensures Keeps(def, r, f, l, e, mode)
  {
  }

  lemma IgnoreKeeps(def: StepDef, r: Record, f: Frame, l: Local, a: StepAct, e: Effect, mode: Mode)
    requires Ready(def, r, f, l, a, e, mode)
    requires !a.TimeOut? && (l.pc.Ignoring? || l.pc.IgnoreRefused?)
    ensures Keeps(def, r, f, l, e, mode)
  {
  }

  lemma FailKeeps(def: StepDef, r: Record, f: Frame, l: Local, a: StepAct, e: Effect, mode: Mode)
    requires Ready(def, r, f, l, a, e, mode)
    requires !a.TimeOut? && (l.pc.Failing? || l.pc.FailingAgain?)
    ensures Keeps(def, r, f, l, e, mode)
  {
  }

  lemma GiveUpKeeps(def: StepDef, r: Record, f: Frame, l: Local, a: StepAct, e: Effect, mode: Mode)
    requires Ready(def, r, f, l, a, e, mode)
    requires !a.TimeOut? && (l.pc.FailLogged? || l.pc.FailRefused?)
    ensures Keeps(def, r, f, l, e, mode)
  {
  }

  // Up to the outcome of the step's body.
  predicate InBody(pc: Pc) {
    || pc.Entered? || pc.Starting? || pc.StartLogged? || pc.Working? || pc.Undecided? || pc.DecisionCreated?
    || pc.DecisionLogged? || pc.Resuspending? || pc.SuspendLogged? || pc.Skipping? || pc.SkipLogged?
  }

  lemma BodyKeeps(def: StepDef, r: Record, f: Frame, l: Local, a: StepAct, e: Effect, mode: Mode)
    requires Ready(def, r, f, l, a, e, mode)
    requires !a.TimeOut? && InBody(l.pc)
    ensures Keeps(def, r, f, l, e, mode)
  {
    match l.pc {
      case Entered => StartKeeps(def, r, f, l, a, e, mode);
      case Starting => StartKeeps(def, r, f, l, a, e, mode);
      case StartLogged => StartKeeps(def, r, f, l, a, e, mode);
      case Working(retried) =>
        if def.kind == Reasoning && !retried {
          ReasonKeeps(def, r, f, l, a, e, mode);
        } else {
          WorkKeeps(def, r, f, l, a, e, mode);
        }
      case Undecided => AskKeeps(def, r, f, l, a, e, mode);
      case DecisionCreated => AskKeeps(def, r, f, l, a, e, mode);
      case DecisionLogged => SuspendKeeps(def, r, f, l, a, e, mode);
      case Resuspending => SuspendKeeps(def, r, f, l, a, e, mode);
      case SuspendLogged => SuspendKeeps(def, r, f, l, a, e, mode);
      case _ => SkipKeeps(def, r, f, l, a, e, mode);
    }
  }

  lemma OutcomeKeeps(def: StepDef, r: Record, f: Frame, l: Local, a: StepAct, e: Effect, mode: Mode)
    requires Ready(def, r, f, l, a, e, mode)
    requires !a.TimeOut? && !InBody(l.pc)
    ensures Keeps(def, r, f, l, e, mode)
  {
    match l.pc {
      case Succeeded => CompleteKeeps(def, r, f, l, a, e, mode);
      case Completing(_) => CompleteKeeps(def, r, f, l, a, e, mode);
      case CompleteLogged => CompleteKeeps(def, r, f, l, a, e, mode);
      case Erred(_) => ErrorKeeps(def, r, f, l, a, e, mode);
      case RetryLogged => RetryKeeps(def, r, f, l, a, e, mode);
      case BackingOff => RetryKeeps(def, r, f, l, a, e, mode);
      case RestartLogged => RetryKeeps(def, r, f, l, a, e, mode);
      case Ignoring => IgnoreKeeps(def, r, f, l, a, e, mode);
      case IgnoreRefused(_) => IgnoreKeeps(def, r, f, l, a, e, mode);
      case Failing => FailKeeps(def, r, f, l, a, e, mode);
      case FailingAgain => FailKeeps(def, r, f, l, a, e, mode);
      case _ => GiveUpKeeps(def, r, f, l, a, e, mode);
    }
  }

  // Every action of the goroutine keeps what holds between log and memory.
  lemma AdvanceKeeps(def: StepDef, r: Record, f: Frame, l: Local, a: StepAct, e: Effect, mode: Mode)
    requires Ready(def, r, f, l, a, e, mode)
    ensures Keeps(def, r, f, l, e, mode)
  {
    if a.TimeOut? {
      TimeOutKeeps(def, r, f, l, a, e, mode);
    } else if InBody(l.pc) {
      BodyKeeps(def, r, f, l, a, e, mode);
    } else {
      OutcomeKeeps(def, r, f, l, a, e, mode);
    }
  }
}
