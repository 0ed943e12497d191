// The executor as a small-step system. One workflow; each step below is one
// atomic action of the Go code: an append to the event log, an update of the
// decision table or the workflow row, a write to the in-memory step map, or a
// control decision of the level loop. Goroutines of a level interleave freely
// and a crash may strike between any two actions, leaving the log, the decision
// table and the workflow row.
module Execution {
  import opened Wrappers
  import opened Lifecycle
  import opened EventLog
  import opened Decisions

  // ----- Configuration -----

  datatype StepKind = Action | Reasoning | Flow

  // on_error strategies; fallback_step is not part of this model.
  datatype Strategy = NoHandler | Ignore | FailWorkflow | DeferToRetry

  // `timed` is whether the step has a timeout of its own.
  datatype StepDef = StepDef(kind: StepKind, maxRetries: Option<int>, onError: Strategy, timed: bool, ask: Decision)

  datatype OnTimeout = FailIt | SuspendIt | CancelIt

  // `timed` is whether the workflow has a timeout, `onTimeout` what it then does.
  datatype Config = Config(
    workflowId: string,
    steps: map<string, StepDef>,
    deps: map<string, set<string>>,
    levels: seq<seq<string>>,
    timed: bool,
    onTimeout: OnTimeout)

  // ----- One step's goroutine -----

  // Why an append did not commit: the step's own timeout, the end of the run's
  // context, or the store.
  datatype Cause = StepTimeout | RunOver | StoreRefusal

  // Where executeStep stands. "Logged" states have the event in the log and the
  // write to the step map still to come.
  datatype Pc =
    | Idle                      // not dispatched in this run
    | Entered                   // before the pending check
    | Starting                  // about to append step_started
    | StartLogged
    | Working(retried: bool)    // the action, flow or reasoning body
    | Undecided                 // reasoning: no decision found, about to create one
    | DecisionCreated           // row inserted, decision_requested not appended
    | DecisionLogged            // decision_requested appended
    | Resuspending              // an open decision exists already
    | SuspendLogged
    | Skipping                  // the decision was cancelled
    | SkipLogged
    | Succeeded                 // first attempt done, before the look at the deadline
    | Completing(retried: bool) // about to append step_completed
    | CompleteLogged
    | Erred(retryable: bool)    // handleStepFailure
    | RetryLogged
    | BackingOff
    | RestartLogged
    | Ignoring                  // on_error ignore, about to append step_completed
    | IgnoreRefused(why: Cause) // that append failed, trying step_failed
    | Failing                   // failStep, first append
    | FailingAgain              // failStep, second append
    | FailLogged
    | FailRefused               // neither append of failStep committed
    | Returned(failed: bool)    // executeStep returned; failed is whether with an error
    | FailedUnlogged            // returned an error, step_failed not appended
    | IgnoredUnlogged(why: Cause) // returned nil, step_completed not appended
    | Panicked                  // recovered by the pool, nothing reported

  predicate Finished(pc: Pc) {
    pc.Returned? || pc.FailedUnlogged? || pc.IgnoredUnlogged? || pc.Panicked?
  }

  predicate AtRest(pc: Pc) {
    pc == Idle || Finished(pc)
  }

  datatype Local = Local(pc: Pc, live: StepView, timedOut: bool)

  // An append on a context that is over always fails, one on a live context only
  // if the store refuses it.
  datatype AppendOutcome = Committed | Expired | StoreRefused

  datatype StepAct =
    | CheckPending
    | TimeOut                   // the step's own timeout fires, at any moment
    // The append the pc is about to make, and whether the error of a failed one
    // counts as retryable.
    | Append(outcome: AppendOutcome, retryable: bool)
    | Write                     // the write to the step map that follows an append
    | Succeed
    | Fail(retryable: bool)
    | Panic
    | ListDecisions(ok: bool)
    | InsertDecision
    | CheckDeadline(exceeded: bool)
    | Triage                    // retries exhausted or not retryable: consult on_error
    | AbortBackoff

  // What an action does: the goroutine afterwards, the event appended, the
  // decision inserted.
  datatype Effect = Effect(local: Local, event: Option<EventKind>, inserted: bool)

  function Move(l: Local, pc: Pc): Option<Effect> {
    Some(Effect(l.(pc := pc), None, false))
  }

  function Log(l: Local, pc: Pc, kind: EventKind): Option<Effect> {
    Some(Effect(l.(pc := pc), Some(kind), false))
  }

  function Record(l: Local, status: StepStatus, pc: Pc): Option<Effect> {
    Some(Effect(l.(pc := pc, live := l.live.(status := status)), None, false))
  }

  predicate RetriesLeft(def: StepDef, retryCount: int) {
    def.maxRetries.Some? && retryCount < def.maxRetries.value
  }

  // Whether the step's context allows the action. `over` is the end of the run's
  // context, on which the step's own is built.
  predicate ContextAllows(def: StepDef, over: bool, l: Local, a: StepAct) {
    var late := over || l.timedOut;
    match a
    case TimeOut => def.timed && !late && !AtRest(l.pc)
    case Append(outcome, _) => outcome == StoreRefused || (outcome == Expired <==> late)
    case CheckDeadline(exceeded) => (exceeded ==> late) && (l.timedOut ==> exceeded)
    case AbortBackoff => late
    case ListDecisions(ok) => ok ==> !late
    case InsertDecision => !late
    case _ => true
  }

  // One atomic action of the goroutine, if it is the next one.
  function Advance(def: StepDef, decision: Option<Decision>, over: bool, l: Local, a: StepAct): Option<Effect> {
    if !ContextAllows(def, over, l, a) then None
    else if a.TimeOut? then Some(Effect(l.(timedOut := true), None, false))
    else Proceed(def, decision, over, l, a)
  }

  predicate Commits(a: StepAct) {
    a.Append? && a.outcome == Committed
  }

  function CauseOf(over: bool, l: Local, a: StepAct): Cause {
    if a.Append? && a.outcome == Expired then if l.timedOut then StepTimeout else RunOver else StoreRefusal
  }

  function Proceed(def: StepDef, decision: Option<Decision>, over: bool, l: Local, a: StepAct): Option<Effect> {
    match l.pc
    case Entered =>
      if !a.CheckPending? then None
      else if l.live.status == Pending then Record(l, Scheduled, Starting)
      else Move(l, Starting)
    case Starting =>
      if !a.Append? then None
      else if Commits(a) then Log(l, StartLogged, StepStarted) else Move(l, Returned(true))
    case StartLogged =>
      if a.Write? then Record(l, Running, Working(false)) else None
    case Working(retried) =>
      if def.kind == Reasoning && !retried then Reason(decision, l, a) else Work(l, retried, a)
    case Undecided =>
      if a.Fail? then Move(l, Erred(a.retryable))
      else if !a.InsertDecision? then None
      else if decision.Some? then Move(l, Erred(true))
      else Some(Effect(l.(pc := DecisionCreated), None, true))
    case DecisionCreated =>
      if !a.Append? then None
      else if Commits(a) then Log(l, DecisionLogged, DecisionRequested) else Move(l, Erred(a.retryable))
    case DecisionLogged => Suspend(l, a)
    case Resuspending => Suspend(l, a)
    case SuspendLogged =>
      if a.Write? then Record(l, Suspended, Returned(false)) else None
    case Skipping =>
      if !a.Append? then None
      else if Commits(a) then Log(l, SkipLogged, StepSkipped) else Move(l, Erred(a.retryable))
    case SkipLogged =>
      if a.Write? then Record(l, Skipped, Returned(false)) else None
    case Succeeded =>
      if !a.CheckDeadline? then None else Move(l, if a.exceeded then Erred(true) else Completing(false))
    case Completing(_) =>
      if !a.Append? then None
      else if Commits(a) then Log(l, CompleteLogged, StepCompleted) else Move(l, Returned(true))
    case CompleteLogged =>
      if a.Write? then Record(l, Completed, Returned(false)) else None
    case Erred(retryable) => HandleFailure(def, l, retryable, a)
    case RetryLogged =>
      if a.Write?
      then Some(Effect(l.(pc := BackingOff, live := StepView(Retrying, l.live.retryCount + 1)), None, false))
      else None
    case BackingOff =>
      if a.AbortBackoff? then Move(l, Returned(true))
      else if !a.Append? then None
      else if Commits(a) then Log(l, RestartLogged, StepStarted) else Move(l, Returned(true))
    case RestartLogged =>
      if a.Write? then Record(l, Running, Working(true)) else None
    case Ignoring =>
      if !a.Append? then None
      else if Commits(a) then Log(l, CompleteLogged, StepCompleted) else Move(l, IgnoreRefused(CauseOf(over, l, a)))
    case IgnoreRefused(why) =>
      if !a.Append? then None
      else if Commits(a) then Log(l, IgnoredUnlogged(why), StepFailed) else Move(l, IgnoredUnlogged(why))
    case Failing =>
      if !a.Append? then None
      else if Commits(a) then Log(l, FailLogged, StepFailed) else Move(l, FailingAgain)
    case FailingAgain =>
      if !a.Append? then None
      else if Commits(a) then Log(l, FailLogged, StepFailed) else Move(l, FailRefused)
    case FailLogged =>
      if a.Write? then Record(l, Failed, Returned(true)) else None
    case FailRefused =>
      if a.Write? then Record(l, Failed, FailedUnlogged) else None
    case Idle => None
    case Returned(_) => None
    case FailedUnlogged => None
    case IgnoredUnlogged(_) => None
    case Panicked => None
  }

  // The body of an action or flow step: its outcome is the outside world's.
  function Work(l: Local, retried: bool, a: StepAct): Option<Effect> {
    match a
    case Succeed => Move(l, if retried then Completing(true) else Succeeded)
    case Fail(retryable) => Move(l, Erred(retryable))
    case Panic => Move(l, Panicked)
    case _ => None
  }

  // executeReasoningStep up to its first write. A failed listing counts as no
  // decision found.
  function Reason(decision: Option<Decision>, l: Local, a: StepAct): Option<Effect> {
    match a
    case Fail(retryable) => Move(l, Erred(retryable))
    case Panic => Move(l, Panicked)
    case ListDecisions(ok) =>
      if !ok || decision.None? then Move(l, Undecided)
      else
        match decision.value.status {
          case Resolved(_, _) => Move(l, Succeeded)
          case Cancelled => Move(l, Skipping)
          case Open => Move(l, Resuspending)
        }
    case _ => None
  }

  function Suspend(l: Local, a: StepAct): Option<Effect> {
    if !a.Append? then None
    else if Commits(a) then Log(l, SuspendLogged, StepSuspended) else Move(l, Erred(a.retryable))
  }

  // handleStepFailure up to its first write.
  function HandleFailure(def: StepDef, l: Local, retryable: bool, a: StepAct): Option<Effect> {
    if retryable && RetriesLeft(def, l.live.retryCount) then
      if !a.Append? then None
      else if Commits(a) then Log(l, RetryLogged, StepRetrying) else Move(l, Returned(true))
    else
      if !a.Triage? then None
      else Move(l, if def.onError == Ignore then Ignoring else Failing)
  }

  // ----- The whole workflow -----

  datatype Outcome = EndCompleted | EndFailed | EndSuspended | EndCancelled

  datatype Control =
    | Preamble                                // Resume: replayed, decisions not listed yet
    | Expiring(listing: set<string>)          // resolving expired decisions
    | ExpiryUnlogged(stepId: string)          // expired without fallback, step_failed not appended
    | Aborting                                // that resume fails the workflow
    | Dispatching(level: nat, index: nat)
    | Waiting(level: nat)
    | Ending(outcome: Outcome)

  // Why a run's context ended: cancelled, past a deadline its caller set, or past
  // the workflow's own timeout.
  datatype EndCause = ByCancel | ByCallerDeadline | ByTimeout

  // A run in memory. `entry` is the step map the run began with, `asked` the
  // steps whose decisions were open then.
  datatype Run = Run(
    entry: map<string, StepView>,
    asked: set<string>,
    over: bool,                               // the run's context has ended
    cause: EndCause,                          // why, once it has
    locals: map<string, Local>,
    rejected: set<string>,                    // steps the pool refused
    control: Control)

  // `spent` is whether the workflow's timeout, counted from its start, has elapsed.
  datatype Machine = Machine(
    log: seq<Event>,
    decisions: DecisionMap,
    status: WorkflowStatus,
    spent: bool,
    run: Option<Run>)

  datatype Act =
    | StartRun
    | Crash
    | Recover(logged: bool)
    | StartResume
    | ListExpired(ok: bool)
    | ExpireWithFallback(stepId: string)
    | ExpireWithoutFallback(stepId: string)
    | LogExpiry(ok: bool)
    | AbortResume(persisted: bool)
    | AbandonResume
    | Proceed
    | Dispatch(accepted: bool)
    | EndOfLevel
    | TimeoutElapses
    | ContextEnds(cause: EndCause)
    | Conclude
    | ContextDone
    | LoopDone
    | StepAction(stepId: string, act: StepAct)
    | CascadeSkip(stepId: string)
    | Finish(persisted: bool)
    | AppendNote(stepId: string, kind: EventKind)
    | SubStepEvent(stepId: string, kind: EventKind)
    | SubStepDecision(stepId: string, ask: Decision)
    | SignalAnswer(stepId: string, agent: string, choice: string)
    | SignalCancel(stepId: string, agent: string)
    | CancelSkip(stepId: string)
    | CancelWorkflow

  // Appends carry the next sequence number of the workflow's rows.
  function AppendTo(cfg: Config, log: seq<Event>, stepId: string, kind: EventKind): seq<Event> {
    log + [Event(cfg.workflowId, stepId, kind, MaxSequence(log) + 1)]
  }

  function Init(): Machine {
    Machine([], map[], WfPending, false, None)
  }

  function FreshLocals(cfg: Config): map<string, Local> {
    map id | id in cfg.steps :: Local(Idle, FRESH, false)
  }

  // Resume's step map: what replay returns, pending where it has no entry.
  function ReplayedLocals(cfg: Config, log: seq<Event>): map<string, Local> {
    map id | id in cfg.steps :: Local(Idle, ReplayStep(log, id), false)
  }

  function LiveViews(locals: map<string, Local>): map<string, StepView> {
    map id | id in locals :: locals[id].live
  }

  function NewRun(locals: map<string, Local>, decisions: DecisionMap, control: Control): Run {
    Run(LiveViews(locals), OpenDecisions(decisions), false, ByCancel, locals, {}, control)
  }

  function OpenDecisions(ds: DecisionMap): set<string> {
    set id | id in ds && ds[id].status == Open
  }

  function Lookup(ds: DecisionMap, id: string): Option<Decision> {
    if id in ds then Some(ds[id]) else None
  }

  function WithControl(m: Machine, c: Control): Option<Machine>
    requires m.run.Some?
  {
    Some(m.(run := Some(m.run.value.(control := c))))
  }

  // The executor's running map is filled only when the level loop starts, so
  // signals reach the decision table before that and when nothing runs.
  predicate Signalable(m: Machine) {
    m.run.None? ||
    match m.run.value.control {
      case Dispatching(_, _) => false
      case Waiting(_) => false
      case Ending(_) => false
      case _ => true
    }
  }

  // Kinds that replay ignores.
  predicate Neutral(kind: EventKind) {
    !Reopens(kind) && !Settles(kind)
  }

  // One action of the system, if it is enabled.
  function Step(cfg: Config, m: Machine, a: Act): Option<Machine> {
    match a
    // Run, once: pending -> active, every step pending.
    case StartRun =>
      if m.run.Some? || m.status != WfPending then None
      else Some(m.(log := AppendTo(cfg, m.log, "", WorkflowStarted), status := WfActive,
                   run := Some(NewRun(FreshLocals(cfg), m.decisions, Dispatching(0, 0)))))
    case Crash => Some(m.(run := None))
    // recoverOrphanedWorkflows.
    case Recover(logged) =>
      if m.run.Some? || m.status != WfActive then None
      else Some(m.(status := WfSuspended,
                   log := if logged then AppendTo(cfg, m.log, "", Note("workflow_interrupted")) else m.log))
    case StartResume =>
      if m.run.Some? || !(m.status == WfSuspended || m.status == WfActive) then None
      else Some(m.(run := Some(NewRun(ReplayedLocals(cfg, m.log), m.decisions, Preamble))))
    case ListExpired(ok) =>
      if m.run.None? || !m.run.value.control.Preamble? then None
      else WithControl(m, Expiring(if ok then OpenDecisions(m.decisions) else {}))
    case ExpireWithFallback(id) =>
      if m.run.None? || !m.run.value.control.Expiring? || id !in m.run.value.control.listing then None
      else if id !in m.decisions || !m.decisions[id].hasTimeout || m.decisions[id].fallback == "" then None
      else
        var r := Expire(m.decisions, id);
        Some(if r.Ok? then m.(decisions := r.value) else m)
    case ExpireWithoutFallback(id) =>
      if m.run.None? || !m.run.value.control.Expiring? || id !in m.run.value.control.listing then None
      else if id !in m.decisions || !m.decisions[id].hasTimeout || m.decisions[id].fallback != "" then None
      else
        var r := Expire(m.decisions, id);
        WithControl(if r.Ok? then m.(decisions := r.value) else m, ExpiryUnlogged(id))
    case LogExpiry(ok) =>
      if m.run.None? || !m.run.value.control.ExpiryUnlogged? then None
      else WithControl(if ok then m.(log := AppendTo(cfg, m.log, m.run.value.control.stepId, StepFailed)) else m,
                       Aborting)
    case AbortResume(persisted) =>
      if m.run.None? || !m.run.value.control.Aborting? then None
      else Some(m.(status := if persisted then WfFailed else m.status, run := None))
    case AbandonResume =>
      if m.run.None? || !m.run.value.control.Expiring? then None else Some(m.(run := None))
    case Proceed =>
      if m.run.None? || !m.run.value.control.Expiring? then None
      else
        var active := if m.status == WfSuspended
                      then m.(status := WfActive, log := AppendTo(cfg, m.log, "", WorkflowStarted)) else m;
        // With no time left the resume ends here, the row active already.
        if m.spent then Some(active.(run := None)) else WithControl(active, Dispatching(0, 0))
    // The level loop: terminal steps are passed over, the rest go to the pool.
    case Dispatch(accepted) => DispatchNext(cfg, m, accepted)
    case EndOfLevel =>
      if m.run.None? || !m.run.value.control.Dispatching? then None
      else
        var c := m.run.value.control;
        if c.level >= |cfg.levels| || c.index != |cfg.levels[c.level]| then None
        else WithControl(m, Waiting(c.level))
    // Time passes from the start of the workflow, running or not.
    case TimeoutElapses =>
      if !cfg.timed || m.status == WfPending then None else Some(m.(spent := true))
    // A cancellation or a deadline, while the loop is under way.
    case ContextEnds(cause) =>
      if m.run.None? || !(m.run.value.control.Dispatching? || m.run.value.control.Waiting?) then None
      else if m.run.value.over || (cause == ByTimeout && !m.spent) then None
      else Some(m.(run := Some(m.run.value.(over := true, cause := cause))))
    case Conclude =>
      if m.run.None? || !m.run.value.control.Waiting? then None
      else ConcludeLevel(cfg, m)
    // The context check before a level's first step and after the last level.
    case ContextDone =>
      if m.run.None? || !m.run.value.control.Dispatching? || m.run.value.control.index != 0 then None
      else if !m.run.value.over then None
      else WithControl(m, Ending(EndOfContext(cfg, m.run.value)))
    case LoopDone =>
      if m.run.None? || m.run.value.control != Dispatching(|cfg.levels|, 0) || m.run.value.over then None
      else WithControl(m, Ending(EndCompleted))
    case StepAction(id, act) => StepMoves(cfg, m, id, act)
    // on_timeout cancel: CancelWorkflow over the step map, which it leaves alone.
    case CascadeSkip(id) =>
      if m.run.None? || m.run.value.control != Ending(EndCancelled) || id !in m.run.value.locals then None
      else if !CanSkip(m.run.value.locals[id].live.status) then None
      else Some(m.(log := AppendTo(cfg, m.log, id, StepSkipped)))
    case Finish(persisted) =>
      if m.run.None? || !m.run.value.control.Ending? then None
      else
        var status := match m.run.value.control.outcome
                      case EndCompleted => WfCompleted
                      case EndFailed => WfFailed
                      case EndSuspended => WfSuspended
                      case EndCancelled => m.status;  // this path never updates the row
        Some(m.(status := if persisted then status else m.status, run := None))
    // Signals, mutations, handler and flow events: anything replay ignores.
    case AppendNote(id, kind) =>
      if Neutral(kind) then Some(m.(log := AppendTo(cfg, m.log, id, kind))) else None
    // Sub-steps write the same log and decision table under ids of their own.
    case SubStepEvent(id, kind) =>
      if id in cfg.steps then None else Some(m.(log := AppendTo(cfg, m.log, id, kind)))
    case SubStepDecision(id, ask) =>
      if id in cfg.steps then None
      else
        var r := Create(m.decisions, id, ask);
        Some(if r.Ok? then m.(decisions := r.value) else m)
    case SignalAnswer(id, agent, choice) =>
      if !Signalable(m) then None
      else
        var r := AnswerBySignal(m.decisions, id, agent, choice);
        Some(if r.Ok? then m.(decisions := r.value) else m)
    case SignalCancel(id, agent) =>
      if !Signalable(m) then None
      else
        var r := CancelBySignal(m.decisions, id, agent);
        Some(if r.Ok? then m.(decisions := r.value) else m)
    // Cancel on a workflow that is not running: skips by the stored statuses,
    // which may lag behind the log, then closes the workflow.
    case CancelSkip(id) =>
      if m.run.Some? || !(m.status == WfActive || m.status == WfSuspended) then None
      else Some(m.(log := AppendTo(cfg, m.log, id, StepSkipped)))
    case CancelWorkflow =>
      if m.run.Some? || !IsValidWorkflowTransition(m.status, WfCancelled) then None
      else Some(m.(log := AppendTo(cfg, m.log, "", WorkflowCancelled), status := WfCancelled))
  }

  // The step the level loop looks at next, if any.
  function NextStep(cfg: Config, m: Machine): Option<string> {
    if m.run.None? || !m.run.value.control.Dispatching? then None
    else
      var c := m.run.value.control;
      if c.level < |cfg.levels| && c.index < |cfg.levels[c.level]| then Some(cfg.levels[c.level][c.index]) else None
  }

  function DispatchNext(cfg: Config, m: Machine, accepted: bool): Option<Machine> {
    var next := NextStep(cfg, m);
    if next.None? || next.value !in m.run.value.locals then None
    else
      var run, id := m.run.value, next.value;
      var onward := run.(control := Dispatching(run.control.level, run.control.index + 1));
      var l := run.locals[id];
      if IsTerminal(l.live.status) then Some(m.(run := Some(onward)))
      else if accepted then Some(m.(run := Some(onward.(locals := run.locals[id := l.(pc := Entered)]))))
      else Some(m.(run := Some(onward.(rejected := run.rejected + {id}))))
  }

  // A step of the level that reported an error and is not suspended.
  predicate ReportsFailure(run: Run, id: string)
    requires id in run.locals
  {
    && (id in run.rejected || run.locals[id].pc == Returned(true) || run.locals[id].pc == FailedUnlogged)
    && run.locals[id].live.status != Suspended
  }

  // A cancelled run fails; past a deadline the workflow's own timeout decides.
  function EndOfContext(cfg: Config, run: Run): Outcome {
    if run.cause == ByCancel || !cfg.timed then EndFailed
    else
      match cfg.onTimeout
      case FailIt => EndFailed
      case SuspendIt => EndSuspended
      case CancelIt => EndCancelled
  }

  function ConcludeLevel(cfg: Config, m: Machine): Option<Machine>
    requires m.run.Some? && m.run.value.control.Waiting?
  {
    var run := m.run.value;
    var k := run.control.level;
    if k >= |cfg.levels| then None
    else if !forall id :: id in cfg.levels[k] ==> id in run.locals && AtRest(run.locals[id].pc)
    then None  // wg.Wait
    else if run.over then WithControl(m, Ending(EndOfContext(cfg, run)))
    else if exists id :: id in cfg.levels[k] && ReportsFailure(run, id) then WithControl(m, Ending(EndFailed))
    else if exists id :: id in cfg.levels[k] && run.locals[id].live.status == Suspended then
      WithControl(m, Ending(EndSuspended))
    else WithControl(m, Dispatching(k + 1, 0))
  }

  function StepMoves(cfg: Config, m: Machine, id: string, act: StepAct): Option<Machine> {
    if m.run.None? || id !in m.run.value.locals || id !in cfg.steps then None
    else
      var run := m.run.value;
      var e := Advance(cfg.steps[id], Lookup(m.decisions, id), run.over, run.locals[id], act);
      if e.None? then None
      else
        Some(m.(
          log := if e.value.event.Some? then AppendTo(cfg, m.log, id, e.value.event.value) else m.log,
          decisions := if e.value.inserted then m.decisions[id := cfg.steps[id].ask.(status := Open)] else m.decisions,
          run := Some(run.(locals := run.locals[id := e.value.local]))))
  }

  // A whole history: any sequence of actions from the initial state.
  function Execute(cfg: Config, acts: seq<Act>): Option<Machine> {
    if acts == [] then Some(Init())
    else
      var before := Execute(cfg, acts[..|acts| - 1]);
      if before.None? then None else Step(cfg, before.value, acts[|acts| - 1])
  }
}
