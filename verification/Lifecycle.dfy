// Step and workflow lifecycles: the transition tables, the events a transition
// emits, and what replaying an event does to a step.
module Lifecycle {
  import opened Wrappers

  datatype StepStatus = Pending | Scheduled | Running | Completed | Failed | Skipped | Suspended | Retrying

  datatype WorkflowStatus = WfPending | WfActive | WfSuspended | WfCompleted | WfFailed | WfCancelled

  // The events that matter to replay or to a lifecycle; every other kind of the
  // log (signals, retry attempts, handler, loop, parallel and wait events) is a Note.
  datatype EventKind =
    | StepStarted | StepCompleted | StepFailed | StepSkipped | StepRetrying | StepSuspended
    | DecisionRequested | DecisionResolved
    | WorkflowStarted | WorkflowCompleted | WorkflowFailed | WorkflowCancelled | WorkflowSuspended
    | Note(name: string)

  // What the log remembers of a step.
  datatype StepView = StepView(status: StepStatus, retryCount: int)

  const FRESH := StepView(Pending, 0)

  predicate IsTerminal(s: StepStatus) {
    s == Completed || s == Failed || s == Skipped
  }

  function ValidStepTransitions(from: StepStatus): seq<StepStatus> {
    match from
    case Pending => [Scheduled, Skipped]
    case Scheduled => [Running, Skipped, Suspended]
    case Running => [Completed, Failed, Suspended, Retrying, Skipped]
    case Retrying => [Running, Failed]
    case Suspended => [Running, Failed, Skipped]
    case Completed => []
    case Failed => []
    case Skipped => []
  }

  function ValidWorkflowTransitions(from: WorkflowStatus): seq<WorkflowStatus> {
    match from
    case WfPending => [WfActive, WfCancelled]
    case WfActive => [WfSuspended, WfCompleted, WfFailed, WfCancelled]
    case WfSuspended => [WfActive, WfCancelled, WfFailed]
    case WfCompleted => []
    case WfFailed => []
    case WfCancelled => []
  }

  predicate IsValidStepTransition(from: StepStatus, to: StepStatus) {
    to in ValidStepTransitions(from)
  }

  predicate IsValidWorkflowTransition(from: WorkflowStatus, to: WorkflowStatus) {
    to in ValidWorkflowTransitions(from)
  }

  predicate CanSkip(s: StepStatus) {
    IsValidStepTransition(s, Skipped)
  }

  function StepEventKind(to: StepStatus): Option<EventKind> {
    match to
    case Running => Some(StepStarted)
    case Completed => Some(StepCompleted)
    case Failed => Some(StepFailed)
    case Skipped => Some(StepSkipped)
    case Retrying => Some(StepRetrying)
    case Suspended => Some(StepSuspended)
    case Pending => None
    case Scheduled => None
  }

  // The effect of one event on its step, as ReplayEvents folds it. There is no
  // case for step_suspended: only decision_requested replays as suspended.
  function Apply(v: StepView, kind: EventKind): StepView {
    match kind
    case StepStarted => v.(status := Running)
    case StepCompleted => v.(status := Completed)
    case StepFailed => v.(status := Failed)
    case StepSkipped => v.(status := Skipped)
    case StepRetrying => StepView(Retrying, v.retryCount + 1)
    case DecisionRequested => v.(status := Suspended)
    case _ => v
  }

  // Events that reopen a step: replay leaves it in a non-terminal status.
  predicate Reopens(kind: EventKind) {
    kind == StepStarted || kind == StepRetrying || kind == DecisionRequested
  }

  predicate Settles(kind: EventKind) {
    kind == StepCompleted || kind == StepFailed || kind == StepSkipped
  }

  // Replay reproduces the status a transition moved to, except suspended, for
  // which it has no case, and scheduled, which is not logged at all.
  lemma ReplayFollowsTransition(v: StepView, from: StepStatus, to: StepStatus)
    requires IsValidStepTransition(from, to)
    ensures to != Scheduled && to != Suspended ==>
            StepEventKind(to).Some? && Apply(v, StepEventKind(to).value).status == to
    ensures to == Suspended ==> Apply(v, StepEventKind(to).value) == v
    ensures to == Scheduled ==> StepEventKind(to).None?
    ensures !IsTerminal(from)
    ensures IsTerminal(to) <==> StepEventKind(to).Some? && Settles(StepEventKind(to).value)
  {
  }
}
