# OPCODE's workflow engine, modelled and proved

OPCODE runs workflows: lists of steps with `depends_on` edges. A definition is
compiled to levels, the steps of a level run concurrently in a bounded pool, and
every transition is appended to an event log. After a crash, or to answer a
pending decision, a workflow is resumed from that log. This project models
those parts of the engine in Dafny and proves what they guarantee.

Check everything with `dafny verify dfyconfig.toml`.

## What is modelled

**Compiling.** `Sorting`, `Graph`, `Kahn`, `Levels` and `Dag` follow
`ParseDAG`. The mathematics is stated without the algorithm: a cycle is a closed
walk, a level is the length of a longest dependency chain. The loops over Go
maps pick the next key nondeterministically, so what is proved holds for every
iteration order. `DagCheck` is the separate cycle and reachability check of the
validator, on any input, well-formed or not.

**Running.** `Lifecycle` has the transition tables, `EventLog` the log, `Decisions`
the decision table, `ErrorHandler` the on_error dispatch, `Recovery` the start-up
scan. `Execution` is the executor as a small-step system: every append, every
write to the step map, every update of the decision table and every choice of
the level loop is one atomic action, and a crash may strike between any two.
Contexts are part of it: a step's own timeout or the end of the run's context may
come at any moment, from then on every append of the step fails, and on a live
context an append fails only if the store refuses it. So is the workflow's timeout, whose
time counts from the first start over all resumes; a run's end records whether a
cancel, a caller's deadline or that timeout caused it. It keeps the code's
shortcuts: a transition trusts the status its caller names, an error that
is ignored is logged as completed, a reasoning step can be suspended twice, a
retry of any kind of step runs the action path. `Goroutine` relates one step's
log, memory and decision at every point of `executeStep`; `Safety` lifts that to
all reachable states; `Guarantees` states the results. `Pipeline` connects
compiler and executor: what `ParseDAG` returns meets the executor's assumption.
`Pipeline` and `Resumption` also hold concrete runs in which a promise fails.

**Around a step.** `Breakers` is the circuit breaker against a policy
that only looks at the history of calls, `Backoff` the 64-bit delay arithmetic,
`RetryLoop` the retry recursion behind the breaker, with its transitions, waits
and the step's deadline, `WorkerPool` the pool as interleaved atomic steps.
`SubSteps` is the naming and bookkeeping of the steps inside conditions, loops
and parallel branches, `SubStepKeys` the definitions for which it is safe.

**Variables.** `Interpolation` has the `${{...}}` scanner and its two passes,
`CircularRefs` the three-colour search over references, `Scope` the builder of
variable scopes with Go's maps and slices as objects on the heap, so that
sharing and copying are visible.

## Where the code and its promises part

* Dependents are held back until a step is over, with two exceptions, and
  exactly those (`Guarantees.DispatchIsSafe`). A step whose action panicked stays
  running and reports nothing; `Pipeline.PanicLetsDependentsStart` is a run in
  which its dependent is next. A step that ignores errors and whose own timeout
  fired cannot log that it went on, since its appends use the expired context; it
  stays running too and reports nothing. If that happens in its only attempt it
  always ends so (`Guarantees.LateIgnoreStalls`), its dependents start
  (`Pipeline.TimeoutLetsDependentsStart`), and with a store that refuses nothing
  this is the only other way. A workflow can complete with such a step.
* Replay has no case for `step_suspended`, only for `decision_requested`. When
  every append committed, a step that finished its turn replays as it is in
  memory if and only if it is not suspended on a decision that was open when the
  run began (`Guarantees.ReplaySimulatesLive`); one that is replays as running.
  `Resumption.SecondSuspensionReplaysAsRunning` is such a run.
* A retry policy does not promise its retries. A step stops on a retryable error
  with retries left exactly when the next retry is cut off by a failed transition
  or by a wait past the end of its context (`RetryLoop.RetriesAreUsedUpIff`). A
  step whose context is over makes no further attempt, and one whose backoff
  reaches past the end has the retry counted without making it.
* Interpolation in two passes is not one substitution in general: an empty value
  can glue two literals into a marker (`Interpolation.EmptyValueGlues`). For given
  non-secret values it is one substitution, whatever the secrets are, if and only
  if scanning the first pass's result again finds the secrets of the input where
  they were and no others (`Interpolation.TwoPassesAreOneIff`).
* Exponential backoff is exact precisely while the product fits a signed 64-bit
  duration or the cap hides the overflow, and from the sixty-fifth retry on the
  delay is zero (`Backoff`).
* Two states of an execution can share a key (`SubSteps.DottedIdsCanMeet`). No
  execution of a definition has that if and only if no two siblings can produce
  the same key (`SubStepKeys.KeysNeverMeetIff`), for which the id of one must be
  the id of the other, or that id followed by a dot and more. Ids without dots
  are safe, with any branch keys. A bound on a loop counts: what its later
  iterations would be called is free (`SubStepKeys.BoundedLoopStaysApart`).
* `docs/workflow-reference.md:35` says a workflow that `on_timeout: suspend`
  suspended can be resumed later. One whose own timeout did that cannot: once the
  timeout is spent every resume refuses before its level loop, so no step ever
  starts, is retried or is asked again, whatever `on_timeout` says
  (`Guarantees.TimedOutRunIsTheLast`, `Guarantees.SpentTimeoutIsFinal`).
  `Resumption.SuspendedForGood` is such a workflow, whose only step never starts.
  A run that was cancelled at a deadline leaves its row active even on a healthy
  store (`Guarantees.CancelledRowStaysActive`).
* Half-open requests whose actions panic report no outcome, and once all probes
  are spent that way the breaker refuses everything until some outcome is
  recorded (`RetryLoop.PanicIsFinal`, `Breakers.LostProbesBlock`).

The policy of the circuit breaker is stated for a clock that never runs
backwards, as Go's monotonic reading is; `Breakers.BackwardClockBreaksPolicy`
shows that the breaker's code does rely on it.

## Remarks on comments

* The comment on `ErrorStrategyIgnore` (`pkg/schema/workflow.go:67`) says the step
  is marked skipped; the code marks it completed, and so does the model. The
  comment on `DetectCircularRefs` says it is called before execution; nothing
  calls it. The comment on `Build` (`internal/expressions/scope.go:74`) says all
  data is copied; only step outputs and the loop item are, and inputs, workflow
  and context are handed out as they are.

## Model

| member | source | states |
|---|---|---|
| Sorting.SortStrings | internal/engine/dag.go:262-272 | The in-place insertion sort leaves the array ordered by Go's string order and a permutation of what it was. |
| Sorting.SortedIsUnique | internal/engine/dag.go:116-130 | Only one ordered arrangement of a multiset of ids exists, so sorting the same ids always gives the same list. |
| Dag.Register | internal/engine/dag.go:50-72 | The first pass accepts exactly the definitions with distinct non-empty ids and known types (empty meaning action), and its table holds every step. |
| Dag.BuildAdjacency | internal/engine/dag.go:81-100 | Dependencies are accepted exactly when they exist, differ from the step and do not repeat; self-dependency is a cycle error; both lists of edges mirror each other. |
| Dag.ServeDependents | internal/engine/dag.go:127-137 | Serving a node decrements its dependents and queues, in sorted order, exactly the steps whose dependencies are now all listed. |
| Dag.RunKahn | internal/engine/dag.go:102-138 | The queue algorithm returns the one order and the one root list that the graph determines, for every map iteration order. |
| Kahn.KahnOrderIsTopological | internal/engine/dag.go:121-142 | The order puts dependencies first and is complete if and only if the graph has no cycle; its length equals the number of steps exactly then. |
| Graph.TopologicalIsAcyclic | internal/engine/dag.go:140-142 | A graph all of whose nodes are in a dependency-first list has no closed walk. |
| Graph.MissedNodesAreStuck | internal/engine/dag.go:140-142 | Nodes that are never unlocked point at one another, which by pigeonhole closes a walk. |
| Dag.ComputeLevels | internal/engine/dag.go:154-184 | Each step lands in the level numbered by its longest dependency chain, in topological order within the level. |
| Dag.ParseDAG | internal/engine/dag.go:35-150 | Succeeds exactly on well-formed acyclic definitions; a well-formed definition is refused with the cycle error exactly when depends_on has a cycle; the result is pinned down completely by the definition. |
| Dag.SortedIsTopological | internal/engine/dag.go:121-144 | The compiled order is a permutation of the ids with every dependency before its dependent. |
| Dag.LevelsAreFilled | internal/engine/dag.go:154-184 | Level 0 is the list of roots, no level is empty, none repeats a step. |
| Dag.LevelOfStep | internal/engine/dag.go:157-166 | Every step is in exactly one level, its longest chain, and every dependency in a strictly earlier one. |
| Levels.LevelsAreMinimal | internal/engine/dag.go:152-184 | No way of running the steps in rounds after their dependencies runs a step earlier or needs fewer rounds. |
| Levels.LevellingIsUnique | internal/engine/dag.go:154-184 | A graph and an order have one levelling. |
| Dag.CompilationIsDeterministic | internal/engine/dag.go:102-147 | Definitions with the same graph compile to the same order, roots and levels. |
| Dag.StepOrderIsIrrelevant | internal/engine/dag.go:50-147 | Permuting the step list changes neither the verdict nor the graph. |
| DagCheck.BuildLists | internal/validation/dag_check.go:15-35 | Unknown and repeated references are dropped, and the two edge lists mirror each other even when ids repeat. |
| DagCheck.CountVisited | internal/validation/dag_check.go:37-63 | The unsorted queue visits every step exactly when the kept graph has no cycle. |
| DagCheck.SpreadReachesAll | internal/validation/dag_check.go:70-94 | In an acyclic graph everything is reachable from a root. |
| DagCheck.ValidateDAG | internal/validation/dag_check.go:12-105 | On any input the cycle error is reported exactly when the kept references have a cycle, and the reachability pass never warns. |
| DagCheck.ValidatorAgreesWithCompiler | internal/validation/dag_check.go:25-35 | With references that resolve, validator and compiler look at the same graph. |
| DagCheck.ValidateAndCompile | internal/validation/dag_check.go:12-105 | Run on one otherwise well-formed definition, the validator reports a cycle exactly when the compiler refuses it with the cycle error, and is silent exactly when it compiles. |
| Lifecycle.ReplayFollowsTransition | internal/engine/fsm.go:230-247 | Replaying the event of a transition gives the status moved to, except for suspended (no case) and scheduled (not logged). |
| EventLog.EventTable.AppendEvent | internal/store/eventlog.go:24-76 | A committed append takes the workflow's next sequence number and adds one row; other workflows' rows and a failed append's table are untouched; numbers stay 1..n per workflow. |
| EventLog.EventTable.ReplayEvents | internal/store/eventlog.go:90-162 | Fails exactly on a sequence gap, which a table built by appends never has; otherwise holds exactly the steps the log mentions, each with the fold of its own events. |
| EventLog.RetryCountIsLogged | internal/store/eventlog.go:148-150 | The replayed retry count is the number of step_retrying events of the step. |
| EventLog.EventTable.StepTransition | internal/engine/fsm.go:173-215 | Succeeds exactly when the table allows the move, both kinds of hooks agree and its event, if any, commits; exactly that event is logged, also when an after hook then refuses. |
| EventLog.EventTable.CancelWorkflow | internal/engine/fsm.go:253-270 | Succeeds exactly when the workflow can be cancelled and no needed append fails; then every step that can be skipped replays as skipped and all others as before; on failure only some of them do. |
| Recovery.Store.RecoverOrphanedWorkflows | cmd/opcode/main.go:322-348 | Exactly the active workflows whose row can be updated become suspended, the count is right, and what any resume would restore is unchanged. |
| Decisions.ValidateResolution | internal/reasoning/validation.go:10-20 | A choice passes exactly when it is listed or nothing is. |
| Decisions.DecisionTable.CreateDecision | internal/store/libsql.go:550-559 | Inserts exactly when the id is new, and touches no other row. |
| Decisions.DecisionTable.UpdatePending | internal/store/libsql.go:561-586 | Resolving or cancelling works exactly on a pending row and changes nothing else. |
| Decisions.DecisionTable.Signal | internal/engine/executor.go:371-461 | The signal is logged, then pending status, routing and choice are checked in that order, the resolution written is sound, and it is logged last; an error leaves the rows alone exactly when it comes before the update. |
| Decisions.DecisionTable.ResolveExpired | internal/engine/executor.go:1088-1142 | The loop applies expiry to the listing in order, up to the first expired decision without a fallback, and keeps resolutions sound and closed decisions final. |
| Decisions.ExpiryOutcome | internal/engine/executor.go:1097-1140 | Without an abort every expired decision of the listing had a fallback and is closed with it; the one that aborts had none and is closed with an empty choice; all others are as they were. |
| Decisions.SignalKeeps | internal/engine/executor.go:406-460 | Signals keep every stored resolution sound and every closed decision as it is. |
| Decisions.ExpireKeeps | internal/engine/executor.go:1097-1140 | So does expiry, whose choice is the fallback or empty without one. |
| ErrorHandler.HandleStepError | internal/engine/error_handler.go:23-95 | The error is ignored exactly under the ignore strategy, a fallback runs exactly when one is named, every other case fails the step; the events it logs change nothing a resume would restore. |
| Goroutine.AdvanceKeeps | internal/engine/executor.go:752-849 | Every action of executeStep, handleStepFailure, failStep, ignoreStepError and executeReasoningStep keeps the relation between log, memory and decision, and reopens a step only while the log does not show it as over. |
| Safety.DispatchKeeps | internal/engine/executor.go:617-651 | Looking at the next step keeps the invariant: earlier levels settled, later steps untouched. |
| Safety.ConcludeKeeps | internal/engine/executor.go:653-706 | Ending a level keeps it, whichever way the level ends. |
| Safety.StartResumeKeeps | internal/engine/executor.go:266-281 | Starting over from replay keeps it, from any crash. |
| Safety.StepKeeps | internal/engine/executor.go:597-744 | Every action of the whole system keeps the invariant. |
| Safety.Reachable | internal/engine/executor.go:162-368 | The invariant holds after every history of one Run, crashes, recoveries, non-overlapping Resumes and signals. |
| Guarantees.NoRestartAfterCompletion | internal/engine/executor.go:244-368 | Once the log shows a step as completed, failed or skipped, no later event starts, retries or asks it again, in any history, with any appends lost. |
| Guarantees.SequencesHaveNoGap | internal/store/eventlog.go:100-107 | In every history the workflow's sequence numbers are exactly 1..n. |
| Guarantees.RetriesAreBounded | internal/engine/executor.go:1155-1181 | Over a whole history with all its resumes, a step's retries stay within its budget. |
| Guarantees.ReplaySimulatesLive | internal/store/eventlog.go:90-162 | What a resume would restore agrees with memory: same terminal status and retry count outside the window between an append and its write. With all appends committed the pending write gives the restored state, and a finished step replays as it is in memory if and only if it is not suspended on a decision open when the run began. |
| Resumption.SecondSuspensionReplaysAsRunning | internal/engine/executor.go:956-964 | A concrete history of suspension, resume and second suspension, with every append committed, after which the suspended step replays as running. |
| Guarantees.DispatchIsSafe | internal/engine/executor.go:609-651 | When the loop comes to a step, each transitive dependency is over if and only if it neither panicked nor had an ignored error it could not log; the latter takes on_error ignore and, with a store that refuses nothing, a timeout of its own that fired; a dependency that failed had failed at entry. |
| Guarantees.SmoothDispatch | internal/engine/executor.go:609-706 | With no panics and a store that refuses nothing, timeouts and cancellations included, every transitive dependency that does not have both a timeout and on_error ignore is over, and completed or skipped unless failed at entry. |
| Guarantees.LateIgnoreStalls | internal/engine/executor.go:822-830 | A step of any kind that ignores errors, with no retry left, whose timeout fires at any point of its first attempt after step_started and before the event that ends it, the asking of a decision included, always ends running and unreported, whatever its action and the store do. |
| Guarantees.CompletedMeansAllOver | internal/engine/executor.go:728-744 | A workflow ends as completed only with every step over in memory and in the log, with the same two exceptions and no others. |
| Guarantees.CompletedCleanly | internal/engine/executor.go:728-744 | With no panics, a completed run leaves a step over in memory and in the log, if every append committed, or if the store refused nothing and the step does not both have a timeout and ignore errors; one that failed had failed at entry. |
| Guarantees.SpentTimeoutIsFinal | internal/engine/executor.go:324-346 | Once the workflow's timeout has elapsed and no level loop is under way, no continuation of the history, with any resumes, signals and crashes, comes to a step or logs an event that starts, retries or asks one. |
| Guarantees.TimedOutRunIsTheLast | internal/engine/executor.go:708-726 | So a run that the workflow's own timeout ended, be it failed, suspended or cancelled, is the last in which any step runs. |
| Resumption.SuspendedForGood | internal/engine/executor.go:1335-1338 | A concrete workflow, suspended by its own timeout before its step starts, of which no continuation ever starts, retries or asks that step. |
| Resumption.ResumeIsRefused | internal/engine/executor.go:303-338 | Its resume makes the row active, finds no time left and ends there. |
| Guarantees.CancelledRowStaysActive | internal/engine/executor.go:717-721 | In every history a run leaves its row active exactly when a deadline cancelled it under on_timeout cancel or its end could not be persisted. |
| Guarantees.DecisionsAreFinal | internal/store/libsql.go:561-586 | Over any continuation of any history no decision is dropped or asked anew, and a resolved or cancelled one never changes. |
| Guarantees.AskedOnce | internal/engine/executor.go:934-1083 | Each step is asked at most once, and every stored resolution is a listed choice, the fallback, or empty for a timeout without one. |
| Guarantees.ReasoningNeedsResolution | internal/engine/executor.go:938-966 | A reasoning step replays as completed only if its decision is resolved, a retry ran the action path in its place, or its error was ignored. |
| Pipeline.CompiledIsWellLevelled | internal/engine/dag.go:144-149 | Every definition ParseDAG accepts gives the executor levels that meet its assumption. |
| Pipeline.DependenciesRunFirst | internal/engine/executor.go:609-651 | From definition to run: with no panics and a store that refuses nothing, a step is reached only when everything its depends_on leads to is over, save steps that have a timeout and ignore errors. |
| Pipeline.PanicLetsDependentsStart | internal/engine/worker.go:75-84 | A concrete run of a well-levelled definition, with every append committed, in which a panic leaves a step running and its dependent is dispatched next. |
| Pipeline.TimeoutLetsDependentsStart | internal/engine/executor.go:1284-1289 | A concrete run of a well-levelled definition, with a store that refuses nothing, in which a timed-out step with on_error ignore stays running and its dependent is dispatched next. |
| Breakers.CircuitBreaker.AllowRequest | internal/engine/circuit_breaker.go:78-114 | Admits exactly as the state allows, and moves to half-open with one probe counted. |
| Breakers.CircuitBreaker.RecordFailure | internal/engine/circuit_breaker.go:129-149 | Counts the failure and reopens from half-open or at the threshold. |
| Breakers.CircuitBreakerRegistry.AllowRequest | internal/engine/circuit_breaker.go:78-114 | The answer is a function of the action's own call history; other actions' histories are untouched. |
| Breakers.CircuitBreakerRegistry.RecordFailure | internal/engine/circuit_breaker.go:129-149 | Likewise for failures, returning the new state. |
| Breakers.CircuitBreakerRegistry.RecordSuccess | internal/engine/circuit_breaker.go:117-125 | Likewise for successes. |
| Breakers.CircuitBreakerRegistry.GetState | internal/engine/circuit_breaker.go:152-164 | Likewise for queries, which may themselves open the half-open phase. |
| Breakers.CircuitBreakerRegistry.GetOrCreate | internal/engine/circuit_breaker.go:181-193 | An action gets one breaker, fresh on first use and shared with no other action. |
| Breakers.ClosedMeansBelowThreshold | internal/engine/circuit_breaker.go:134-148 | For every history and clock: closed exactly while failures since the last success are below the threshold (at least one). |
| Breakers.BreakerImplementsPolicy | internal/engine/circuit_breaker.go:83-111 | With a monotone clock the breaker admits exactly what the policy on histories admits: in trouble, a full cooldown since the last failure and a free probe. |
| Breakers.ProbesAreBounded | internal/engine/circuit_breaker.go:83-111 | Counting the requests the breaker itself lets through while not closed: at most HalfOpenMax between consecutive outcomes, for every history and every clock. |
| Breakers.LostProbesBlock | internal/engine/circuit_breaker.go:104-110 | Once the history shows HalfOpenMax requests let through since the last outcome, no later request gets through, at any time, before an outcome is recorded. |
| Breakers.BackwardClockBreaksPolicy | internal/engine/circuit_breaker.go:89-110 | Why the policy assumes a monotone clock, as time.Since does: without it, half-open admission would not look at the cooldown again. |
| Backoff.ComputeBackoff | internal/engine/retry.go:70-106 | The delay is the ideal one wrapped to 64 bits and then capped, for every strategy, although the loop wraps at every doubling. |
| Backoff.ExponentialIsExactIff | internal/engine/retry.go:82-103 | The delay is min(base times 2^attempt, cap) if and only if that product fits or the wrapped value reaches the cap. |
| Backoff.LateBackoffVanishes | internal/engine/retry.go:84-88 | For attempt 64 and later, counted from zero, the delay is zero. |
| Backoff.DelaysDoNotShrink | internal/engine/retry.go:82-103 | While the last product fits, delays are exact and never shrink. |
| Backoff.TotalWait | internal/engine/retry.go:82-103 | They add up to base times (2^n - 1) without a cap and to at most n caps with one. |
| RetryLoop.ExecuteActionStep | internal/engine/executor.go:852-925 | Asks the breaker, and reports exactly one outcome to it if and only if the action ran and returned; a panic reports none. |
| RetryLoop.PanicIsFinal | internal/engine/executor.go:902-919 | A step unwound by a panic, in its first attempt or any retry, made that attempt last and counted no retry after it, and the last thing the breaker heard is that attempt's request. |
| RetryLoop.HandleStepFailure | internal/engine/executor.go:1146-1232 | The recursion, with its two transitions and the wait between them, makes the attempts, executions and breaker calls of the value-level retry function, and leaves other actions' breakers alone. |
| RetryLoop.PrepareRetry | internal/engine/executor.go:1172-1192 | A retry is counted exactly when its first transition commits, and comes to its attempt exactly when also the wait ends before the context and the second transition commits. |
| RetryLoop.AttemptsAreBounded | internal/engine/executor.go:1155-1218 | At most 1 + max(0, Max - RetryCount) attempts; the count grows by the attempts after the first, and by one more exactly if the last retry was counted and cut off; it never passes Max. |
| RetryLoop.RetriesAreUsedUpIff | internal/engine/executor.go:1152-1192 | A step stops on a retryable error with a retry left if and only if the next retry is cut off before its attempt. |
| RetryLoop.ExpiredStepMakesNoRetry | internal/engine/executor.go:1172-1175 | A step whose context is over when its first attempt ends makes no other and counts none. |
| RetryLoop.LongBackoffMakesNoRetry | internal/engine/executor.go:1183-1187 | When the policy's 64-bit delay reaches from the retry's transition to the deadline or beyond, a step that failed retryably counts a retry and makes no second attempt. |
| RetryLoop.RetryTimesBreaker | internal/engine/executor.go:852-925 | From a fresh breaker, if the first min(Max + 1, threshold) attempts fail retryably, the retries between them come to their attempts, and a retry after the breaker opened asks it before the cooldown is over, the action runs exactly that many times. |
| WorkerPool.Reachable | internal/engine/worker.go:45-115 | In every interleaving, slots, wait group and metrics count exactly the tasks in the matching stages. |
| WorkerPool.Bounded | internal/engine/worker.go:53-72 | Active tasks never exceed held slots, nor these the pool's size. |
| WorkerPool.NothingAcceptedAfterClose | internal/engine/worker.go:63-73 | Once closed, the set of accepted tasks never changes again. |
| WorkerPool.RefusedHoldsNothing | internal/engine/worker.go:46-70 | A refused task holds no slot, ever after. |
| WorkerPool.ShutdownDrains | internal/engine/worker.go:104-115 | When the closing Shutdown call has returned, nothing is active, accepted = completed + failed and panics <= failed. |
| WorkerPool.ReturnIsForever | internal/engine/worker.go:104-115 | And so in every later state. |
| WorkerPool.PanicsTrailFailures | internal/engine/worker.go:76-80 | At any moment panics exceed failures by at most the tasks between the two increments. |
| SubSteps.KeysNeverMeet | internal/engine/executor_flow.go:509-556 | With dot-free ids, unique within each body and branch, no two steps of an execution share a key, at any nesting of conditions, loops and parallel steps. |
| SubSteps.SubStepKeyHasDot | internal/engine/executor_flow.go:521 | A sub-step's key is never a dot-free id, so never a top-level one. |
| SubSteps.DottedIdsCanMeet | internal/engine/executor_flow.go:521 | With a dot in a top-level id two keys can be equal: a concrete workflow. |
| SubStepKeys.KeysNeverMeetIff | internal/engine/executor_flow.go:135-173 | For every definition, loop bounds included: no execution gives two states one key if and only if no two siblings of a body, at any depth, can produce the same key. |
| SubStepKeys.BoundedLoopStaysApart | internal/engine/executor_flow.go:140-143 | A loop bounded to one iteration cannot meet a step named like its sixth; the same loop without a bound can. |
| SubStepKeys.MeetingIdsExtend | internal/engine/executor_flow.go:521 | Siblings can do so only if their ids are equal or one is the other followed by a dot and more. |
| SubSteps.AtoiOfItoa | internal/engine/executor_flow.go:156 | Iteration and branch numbers can be read back from their namespaces. |
| SubSteps.ExecutionIsWellNamed | internal/engine/executor_flow.go:18-83 | What a definition can execute, whichever branches it takes and however often it loops, inherits unique dot-free ids. |
| SubSteps.WorkflowRun.ExecuteSubSteps | internal/engine/executor_flow.go:509-556 | Creates the states of exactly the sub-steps run, overwriting none, ends at the first failure and returns the output of the last completed one. |
| SubSteps.WorkflowRun.ExecuteGroups | internal/engine/executor_flow.go:135-173 | A loop's iterations up to the first failure, or all parallel branches, add their states under distinct namespaces. |
| SubSteps.WorkflowRun.ExecuteStep | internal/engine/executor.go:752-849 | A step's own state and those below it are written, and no other. |
| Interpolation.ScanIsSound | internal/expressions/interpolation.go:73-102 | What the scanner accepts is a segmentation into literals and tokens whose concatenation is the input. |
| Interpolation.ScanIsComplete | internal/expressions/interpolation.go:73-102 | Every text with such a segmentation is accepted, with that segmentation. |
| Interpolation.SegmentationIsUnique | internal/expressions/interpolation.go:73-128 | There is only one. |
| Interpolation.ResolvePass | internal/expressions/interpolation.go:68-131 | The index loop computes the recursive pass, errors included, in the source's order of checks. |
| Interpolation.PassIsSubstitution | internal/expressions/interpolation.go:104-127 | A pass succeeds exactly on a segmented input whose own tokens resolve, and replaces those and nothing else. |
| Interpolation.PlainTextIsUnchanged | internal/expressions/interpolation.go:73-79 | Text without the marker goes through unchanged. |
| Interpolation.Resolve | internal/expressions/interpolation.go:43-63 | Two passes, the second over the output of the first. |
| Interpolation.SecondPassSeesSecrets | internal/expressions/interpolation.go:50-60 | The second scan cuts its text into the secrets of the input and nothing else if and only if running literals and values together makes no new marker. |
| Interpolation.TwoPassesAreOneIff | internal/expressions/interpolation.go:39-63 | For given non-secret values, Resolve is one substitution of every token for all values of the secrets if and only if scanning the first pass's result finds the secrets where they were, other tokens read as text; with a secret reference that lacks its key, if and only if that scan fails or finds such a one. |
| Interpolation.TwoPassesAreOne | internal/expressions/interpolation.go:39-63 | If non-secret values are non-empty and free of dollar and brace, Resolve is one substitution of every token: same success, same result. |
| Interpolation.EmptyValueGlues | internal/expressions/interpolation.go:125 | With an empty input it is not: a concrete text on which one substitution succeeds and Resolve fails. |
| CircularRefs.ExtractStepRefs | internal/expressions/interpolation.go:465-491 | The scanning loop collects the references of the text, trimmed, empty ones dropped. |
| CircularRefs.CycleFinder.Visit | internal/expressions/interpolation.go:436-451 | For every visiting order: a back edge means a cycle, otherwise the step and all below it end up after what they refer to. |
| CircularRefs.BackEdgeIsCycle | internal/expressions/interpolation.go:440-442 | A reference to a gray step closes a walk. |
| CircularRefs.DetectCircularRefs | internal/expressions/interpolation.go:412-462 | An error is returned if and only if the extracted references have a directed cycle. |
| Scope.DeepCopyAny | internal/expressions/scope.go:179-200 | The copy stands for the same value and shares no object with anything that existed before. |
| Scope.ScopeBuilder.NewScopeBuilder | internal/expressions/scope.go:37-44 | A new builder has no outputs and its own copies of inputs, workflow and context. |
| Scope.ScopeBuilder.AddStepOutput | internal/expressions/scope.go:49-72 | Registers exactly new ids with parsable output (none counting as null), as a private copy. |
| Scope.ScopeBuilder.Build | internal/expressions/scope.go:77-102 | Outputs and the loop item are copied; inputs, workflow and an existing context are handed out as they are. |
| Scope.ScopeBuilder.WithLoopVars | internal/expressions/scope.go:107-121 | The child shares the parent's outputs and has a private copy of the item. |
| Scope.ScopeBuilder.ForParallelBranch | internal/expressions/scope.go:126-136 | The branch starts with equal outputs and shares none of their objects. |
| Scope.ScopeBuilder.MergeBranchOutputs | internal/expressions/scope.go:141-154 | Adds exactly the branch's new ids, as copies, in any order, and leaves the branch alone. |
| Scope.ScopeBuilder.StepOutputs | internal/expressions/scope.go:157-161 | The caller gets its own copy. |
| Scope.OutputsAreForever | internal/expressions/scope.go:49-57 | Over any history of a tree of builders a registered output keeps its value. |
| Scope.OthersAreInvisible | internal/expressions/scope.go:123-136 | Only its own additions and merges into it change what a builder sees. |
| Scope.MergeOrderIsIrrelevantIff | internal/expressions/scope.go:138-154 | All orders of merging give the same outputs if and only if the branches agree on the ids they add. |
| Scope.PerformAll | internal/expressions/scope.go:49-161 | Any history of additions, forks and merges, with callers keeping every map and list they were handed, nested ones included, and overwriting them at any later time, has on real builders exactly the value-level effect. |

## Left out

- fallback_step handlers: they run a step without regard to dependencies or its terminal state, so dispatch and completion claims exclude them.
- Cancel racing a live run: the run then moves on from a hard-coded active status; only cancelling an idle workflow and the cancel on timeout are modelled.
- The wall clock: the workflow's timeout, once spent, stays spent, so a clock that is set back is not covered.
- Overlapping Resumes of one workflow: one run at a time is in memory.
- Step outputs on replay: completion events carry no payload; the log model has status and retry count only.
- Action bodies, CEL, JSON and SQL: their results are arbitrary outcomes, errors or given values; the JSON config check of a step is a given verdict.
- Guarantees.ReplaySimulatesLive: says nothing of the step map during an abort of a resume or the skipping cascade after a workflow timeout, which log skips without touching memory.
- RetryLoop.RetryTimesBreaker: action steps only, with no other user of the breaker; half-open progress is not claimed, since an admitted request can end before an outcome is recorded.
- RetryLoop.HandleStepFailure: the step_completed append after a success and the on_error handling after giving up are in `Execution`, not repeated here; a wait or an append at the very instant the context ends counts as cut off.
- EventLog.EventTable.ReplayEvents: outputs, errors and timestamps are not part of the view.
- EventLog.EventTable.CancelWorkflow: without hooks, which nothing in the engine registers.
- SubSteps.WorkflowRun.ExecuteGroups: branches run one after the other, and race runs them all; since their keys never meet, the states do not depend on the order.
- Execution: the executor is a step system on values rather than a class, since the point is the interleaving of goroutines, appends and crashes.
- WorkerPool: likewise a step system; the channel, wait group and atomics are counters.
- Execution flow steps: the bodies of conditions, loops, parallel and wait steps are one outcome there; `SubSteps` models their naming and state map.
- SubSteps.WorkflowRun.ExecuteSubSteps: takes the outcome of each execution as given; a context that ends between sub-steps shows as a shorter execution.
- Interpolation.ResolvePass: variable lookup and inline rendering are one function from expression to text or failure; bytes that are not UTF-8 are not modelled.
- DagCheck.CountVisited: its initial queue is in any order, which covers sorting it.
- IsRetryableError's network and message patterns: all of them answer yes, as the default does.
- Integers other than durations are unbounded.
- Streaming, scheduling, diagrams, the web panel and its own way of resolving decisions, the command line: not part of the engine's core.
