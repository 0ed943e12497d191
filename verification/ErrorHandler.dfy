// HandleStepError: what a step's on_error handler makes of a failure. It only
// logs and decides; acting on the decision is the executor's part.
module ErrorHandler {
  import opened Wrappers
  import opened EventLog

  datatype Strategy = Ignore | FallbackStep | FailWorkflow | Retry | Unknown

  datatype Handler = Handler(strategy: Strategy, fallbackStep: string)

  datatype HandlerResult = HandlerResult(handled: bool, fallbackStepId: string, shouldFailWorkflow: bool)

  const UNHANDLED := HandlerResult(false, "", false)

  // The three ways a failure can go on from here.
  datatype Course = FailStep | IgnoreError | RunFallback(stepId: string)

  // What handleStepFailure does with the result.
  function CourseOf(r: HandlerResult): Course {
    if r.handled && r.fallbackStepId != "" then RunFallback(r.fallbackStepId)
    else if r.handled && !r.shouldFailWorkflow then IgnoreError
    else FailStep
  }

  // `invoked` and `logged` are whether the two best-effort appends commit.
  method HandleStepError(log: EventTable, workflowId: string, stepId: string, handler: Option<Handler>,
                         invoked: bool, logged: bool) returns (r: HandlerResult)
    requires log.Valid()
    modifies log
    ensures log.Valid() && SameReplay(old(log.table), log.table)
    ensures |log.table| <= |old(log.table)| + 2 && (handler.None? ==> log.table == old(log.table))
    ensures CourseOf(r) == IgnoreError <==> handler.Some? && handler.value.strategy == Ignore
    ensures forall id :: CourseOf(r) == RunFallback(id) <==>
              id != "" && handler == Some(Handler(FallbackStep, id))
    ensures r.shouldFailWorkflow <==> handler.Some? && handler.value.strategy == FailWorkflow
  {
    ghost var start := log.table;
    if handler.None? {
      NothingChanges(log.table);
      return UNHANDLED;
    }
    var h := handler.value;
    log.AppendNote(workflowId, stepId, "error_handler_invoked", invoked);
    ghost var middle := log.table;
    match h.strategy {
      case Ignore =>
        log.AppendNote(workflowId, stepId, "step_ignored", logged);
        SameReplayTransitive(start, middle, log.table);
        return HandlerResult(true, "", false);
      case FallbackStep =>
        if h.fallbackStep == "" {
          return UNHANDLED;
        }
        log.AppendNote(workflowId, stepId, "step_fallback", logged);
        SameReplayTransitive(start, middle, log.table);
        return HandlerResult(true, h.fallbackStep, false);
      case FailWorkflow =>
        return HandlerResult(true, "", true);
      case Retry =>
        return UNHANDLED;
      case Unknown =>
        return UNHANDLED;
    }
  }
}
