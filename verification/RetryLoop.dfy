// An action step's attempts: executeActionStep behind the circuit breaker, and
// the recursion of handleStepFailure around it, with its transitions, its waits
// and the step's own deadline. The outside world is a script that says when each
// attempt happens, how its action ends and what the store accepts.
module RetryLoop {
  import opened Wrappers
  import opened Breakers
  import opened Backoff

  // What error classification looks at.
  datatype GoError = GoError(wrapsDeadline: bool, wrapsCanceled: bool, code: Option<string>)

  const NON_RETRYABLE := {
    "VALIDATION_ERROR", "NOT_FOUND", "CONFLICT", "INVALID_TRANSITION", "CYCLE_DETECTED",
    "NON_RETRYABLE", "PERMISSION_DENIED", "CIRCUIT_OPEN", "ASSERTION_FAILED", "PATH_DENIED"}

  const CIRCUIT_OPEN := GoError(false, false, Some("CIRCUIT_OPEN"))
  const TIMED_OUT := GoError(false, false, Some("TIMEOUT_ERROR"))

  // IsRetryableError; the network and message heuristics below the typed cases
  // all answer yes.
  function IsRetryable(e: GoError): bool {
    if e.wrapsDeadline then true
    else if e.wrapsCanceled then false
    else if e.code.Some? then e.code.value !in NON_RETRYABLE
    else true
  }

  // How an action, or an attempt at it, ends. A panic goes up through the executor
  // to the pool, past everything that would record it.
  datatype Outcome = Returns | Fails(error: GoError) | Panics

  // One attempt: when the breaker is asked, an error that strikes before the
  // action is executed, and how and when the action ends.
  datatype Attempt = Attempt(askedAt: int, preparation: Option<GoError>, endedAt: int, outcome: Outcome)

  // A retry: when its first transition is appended, whether the store accepts
  // that append and the one after the wait, and the attempt itself. Of round zero,
  // the first attempt, only the attempt matters.
  datatype Round = Round(retryAt: int, counts: bool, restarts: bool, attempt: Attempt)

  type Script = nat -> Round

  // What stays the same over a step: the breaker's configuration, the retry
  // policy, when the step's context ends, and the script.
  datatype Setting = Setting(cfg: BreakerConfig, policy: Option<RetryPolicy>, deadline: Option<int>, script: Script)

  // ----- On values -----

  // What an attempt leaves: the action's breaker calls, whether the action was
  // executed, and how it ended.
  datatype Tried = Tried(calls: seq<Call>, executed: bool, result: Outcome)

  function Try(cfg: BreakerConfig, calls: seq<Call>, a: Attempt): Tried {
    var asked := calls + [Request(a.askedAt)];
    if !Admits(cfg, After(cfg, calls), a.askedAt) then Tried(asked, false, Fails(CIRCUIT_OPEN))
    else if a.preparation.Some? then Tried(asked, false, Fails(a.preparation.value))
    else
      match a.outcome
      case Fails(_) => Tried(asked + [Failure(a.endedAt)], true, a.outcome)
      case Returns => Tried(asked + [Success], true, a.outcome)
      case Panics => Tried(asked, true, a.outcome)
  }

  // How a stretch of attempts ends: with success, with an error that is not
  // retried, because a retry was cut off before its attempt, or in a panic.
  datatype End = Succeeded | GaveUp(error: GoError) | CutOff(error: GoError) | Unwound

  // How many attempts were made, how many reached the action, and the retry count.
  datatype Ran = Ran(attempts: nat, executions: nat, retryCount: nat, end: End)

  // The same, with the breaker calls of the action as they then are.
  datatype Traced = Traced(ran: Ran, calls: seq<Call>)

  function Remaining(policy: Option<RetryPolicy>, retryCount: nat): nat {
    if policy.Some? && retryCount < policy.value.max then policy.value.max - retryCount else 0
  }

  function Ahead(ran: Ran, executed: bool): Ran {
    ran.(attempts := ran.attempts + 1, executions := ran.executions + if executed then 1 else 0)
  }

  // The step's context has ended by time t.
  predicate Over(s: Setting, t: int) {
    s.deadline.Some? && t >= s.deadline.value
  }

  // When the backoff before a retry is done; a delay that is not positive is none.
  function WaitedUntil(s: Setting, k: nat, retryCount: nat): int {
    var delay := if s.policy.Some? then Delay(s.policy.value, retryCount) else 0;
    s.script(k).retryAt + if delay > 0 then delay else 0
  }

  // The transition to retrying commits, which counts the retry.
  predicate Counts(s: Setting, k: nat) {
    s.script(k).counts && !Over(s, s.script(k).retryAt)
  }

  // The retry comes to its attempt: it is counted, its wait completes and the
  // transition back to running commits.
  predicate Goes(s: Setting, k: nat, retryCount: nat) {
    Counts(s, k) && s.script(k).restarts && !Over(s, WaitedUntil(s, k, retryCount))
  }

  // After a failed attempt, with script(k) the next one.
  function Retries(s: Setting, calls: seq<Call>, k: nat, retryCount: nat, err: GoError): Traced
    decreases Remaining(s.policy, retryCount)
  {
    if !IsRetryable(err) || Remaining(s.policy, retryCount) == 0 then Traced(Ran(0, 0, retryCount, GaveUp(err)), calls)
    else if !Counts(s, k) then Traced(Ran(0, 0, retryCount, CutOff(err)), calls)
    else if !Goes(s, k, retryCount) then Traced(Ran(0, 0, retryCount + 1, CutOff(err)), calls)
    else
      var t := Try(s.cfg, calls, s.script(k).attempt);
      var rest := if t.result.Fails? then Retries(s, t.calls, k + 1, retryCount + 1, t.result.error)
                  else Traced(Ran(0, 0, retryCount + 1, Last(t.result)), t.calls);
      rest.(ran := Ahead(rest.ran, t.executed))
  }

  // How the step ends if its last attempt did not fail.
  function Last(result: Outcome): End {
    if result.Panics? then Unwound else Succeeded
  }

  // Success that comes after the deadline is a timeout; only the first attempt is
  // looked at that way.
  function FirstResult(s: Setting, result: Outcome): Outcome {
    if result.Returns? && Over(s, s.script(0).attempt.endedAt) then Fails(TIMED_OUT) else result
  }

  // A step from its first attempt on.
  function WholeStep(s: Setting, calls: seq<Call>, retryCount: nat): Traced {
    var t := Try(s.cfg, calls, s.script(0).attempt);
    var result := FirstResult(s, t.result);
    var rest := if result.Fails? then Retries(s, t.calls, 1, retryCount, result.error)
                else Traced(Ran(0, 0, retryCount, Last(result)), t.calls);
    rest.(ran := Ahead(rest.ran, t.executed))
  }

  // ----- As the executor does it -----

  // A result of Panics stands for the panic itself: callers stop at once.
  method ExecuteActionStep(registry: CircuitBreakerRegistry, action: string, a: Attempt)
    returns (result: Outcome, executed: bool)
    requires registry.Valid()
    modifies registry, registry.breakers.Values
    ensures registry.Valid()
    ensures var t := Try(registry.config, old(registry.Calls(action)), a);
            result == t.result && executed == t.executed && registry.Calls(action) == t.calls
    ensures forall other :: other != action ==> registry.Calls(other) == old(registry.Calls(other))
    ensures forall b :: b in registry.breakers.Values ==> b in old(registry.breakers.Values) || fresh(b)
  {
    var allowed := registry.AllowRequest(action, a.askedAt);
    if !allowed {
      return Fails(CIRCUIT_OPEN), false;
    }
    if a.preparation.Some? {
      return Fails(a.preparation.value), false;
    }
    match a.outcome {
      case Panics =>
      case Fails(_) =>
        var newState := registry.RecordFailure(action, a.endedAt);
      case Returns =>
        registry.RecordSuccess(action);
    }
    return a.outcome, true;
  }

  // The two transitions of a retry with the wait between them.
  method PrepareRetry(s: Setting, k: nat, retryCount: nat) returns (counted: bool, goes: bool)
    ensures counted == Counts(s, k) && goes == Goes(s, k, retryCount)
  {
    var round := s.script(k);
    if !round.counts || Over(s, round.retryAt) {
      return false, false;
    }
    var delay := ComputeBackoff(s.policy, retryCount);
    if delay > 0 && Over(s, round.retryAt + delay) {
      return true, false;
    }
    return true, round.restarts;
  }

  method HandleStepFailure(registry: CircuitBreakerRegistry, action: string, s: Setting, k: nat,
                           retryCount: nat, err: GoError)
    returns (ran: Ran)
    requires registry.Valid() && registry.config == s.cfg
    modifies registry, registry.breakers.Values
    ensures registry.Valid()
    ensures Traced(ran, registry.Calls(action)) == Retries(s, old(registry.Calls(action)), k, retryCount, err)
    ensures forall other :: other != action ==> registry.Calls(other) == old(registry.Calls(other))
    ensures forall b :: b in registry.breakers.Values ==> b in old(registry.breakers.Values) || fresh(b)
    decreases Remaining(s.policy, retryCount)
  {
    if !(IsRetryable(err) && s.policy.Some? && retryCount < s.policy.value.max) {
      return Ran(0, 0, retryCount, GaveUp(err));
    }
    var counted, goes := PrepareRetry(s, k, retryCount);
    if !goes {
      return Ran(0, 0, if counted then retryCount + 1 else retryCount, CutOff(err));
    }
    var result, executed := ExecuteActionStep(registry, action, s.script(k).attempt);
    if result.Fails? {
      ran := HandleStepFailure(registry, action, s, k + 1, retryCount + 1, result.error);
    } else {
      ran := Ran(0, 0, retryCount + 1, Last(result));
    }
    ran := Ahead(ran, executed);
  }

  method ExecuteStep(registry: CircuitBreakerRegistry, action: string, s: Setting, retryCount: nat)
    returns (ran: Ran)
    requires registry.Valid() && registry.config == s.cfg
    modifies registry, registry.breakers.Values
    ensures registry.Valid()
    ensures Traced(ran, registry.Calls(action)) == WholeStep(s, old(registry.Calls(action)), retryCount)
    ensures forall other :: other != action ==> registry.Calls(other) == old(registry.Calls(other))
  {
    var result, executed := ExecuteActionStep(registry, action, s.script(0).attempt);
    if result.Returns? && Over(s, s.script(0).attempt.endedAt) {
      result := Fails(TIMED_OUT);
    }
    if result.Fails? {
      ran := HandleStepFailure(registry, action, s, 1, retryCount, result.error);
    } else {
      ran := Ran(0, 0, retryCount, Last(result));
    }
    ran := Ahead(ran, executed);
  }

  // ----- Bounds -----

  // A retry that was counted and then cut off.
  predicate LostRetry(s: Setting, ran: Ran, next: nat) {
    ran.end.CutOff? && Counts(s, next)
  }

  // What follows an attempt of round k.
  function Rest(s: Setting, t: Tried, k: nat, retryCount: nat): Ran {
    if t.result.Fails? then Retries(s, t.calls, k + 1, retryCount + 1, t.result.error).ran
    else Ran(0, 0, retryCount + 1, Last(t.result))
  }

  lemma RetriesUnfold(s: Setting, calls: seq<Call>, k: nat, retryCount: nat, err: GoError, t: Tried, rest: Ran)
    requires IsRetryable(err) && Remaining(s.policy, retryCount) > 0 && Goes(s, k, retryCount)
    requires t == Try(s.cfg, calls, s.script(k).attempt) && rest == Rest(s, t, k, retryCount)
    ensures Retries(s, calls, k, retryCount, err).ran == Ahead(rest, t.executed)
    ensures Remaining(s.policy, retryCount + 1) == Remaining(s.policy, retryCount) - 1
  {
  }

  lemma RetriesEnd(s: Setting, calls: seq<Call>, k: nat, retryCount: nat, err: GoError)
    requires !(IsRetryable(err) && Remaining(s.policy, retryCount) > 0 && Goes(s, k, retryCount))
    ensures var ran := Retries(s, calls, k, retryCount, err).ran;
            && ran.attempts == ran.executions == 0 && (ran.end.GaveUp? || ran.end.CutOff?)
            && ran.retryCount == retryCount + (if LostRetry(s, ran, k) then 1 else 0)
            && ran.retryCount <= retryCount + Remaining(s.policy, retryCount)
  {
  }

  predicate CountedRight(s: Setting, ran: Ran, k: nat, retryCount: nat) {
    && ran.executions <= ran.attempts <= Remaining(s.policy, retryCount)
    && ran.retryCount == retryCount + ran.attempts + (if LostRetry(s, ran, k + ran.attempts) then 1 else 0)
    && ran.retryCount <= retryCount + Remaining(s.policy, retryCount)
  }

  lemma OneAheadIsCounted(s: Setting, rest: Ran, executed: bool, k: nat, retryCount: nat)
    requires CountedRight(s, rest, k + 1, retryCount + 1)
    requires Remaining(s.policy, retryCount + 1) == Remaining(s.policy, retryCount) - 1
    ensures CountedRight(s, Ahead(rest, executed), k, retryCount)
  {
    assert k + 1 + rest.attempts == k + (rest.attempts + 1);
  }

  lemma {:induction false} RetriesAreCounted(s: Setting, calls: seq<Call>, k: nat, retryCount: nat, err: GoError)
    ensures CountedRight(s, Retries(s, calls, k, retryCount, err).ran, k, retryCount)
    decreases Remaining(s.policy, retryCount)
  {
    if IsRetryable(err) && Remaining(s.policy, retryCount) > 0 && Goes(s, k, retryCount) {
      var t := Try(s.cfg, calls, s.script(k).attempt);
      var rest := Rest(s, t, k, retryCount);
      RetriesUnfold(s, calls, k, retryCount, err, t, rest);
      if t.result.Fails? {
        RetriesAreCounted(s, t.calls, k + 1, retryCount + 1, t.result.error);
      }
      OneAheadIsCounted(s, rest, t.executed, k, retryCount);
    } else {
      RetriesEnd(s, calls, k, retryCount, err);
    }
  }

  // The action runs at most once more than the retries that were left. The retry
  // count grows by the attempts after the first, and by one more exactly if the
  // last retry was counted and never came to its attempt.
  lemma AttemptsAreBounded(s: Setting, calls: seq<Call>, retryCount: nat)
    ensures var ran := WholeStep(s, calls, retryCount).ran;
            && ran.executions <= ran.attempts <= 1 + Remaining(s.policy, retryCount)
            && ran.retryCount == retryCount + (ran.attempts - 1) + (if LostRetry(s, ran, ran.attempts) then 1 else 0)
            && ran.retryCount <= retryCount + Remaining(s.policy, retryCount)
  {
    var t := Try(s.cfg, calls, s.script(0).attempt);
    var result := FirstResult(s, t.result);
    if result.Fails? {
      RetriesAreCounted(s, t.calls, 1, retryCount, result.error);
    }
  }

  // Why a step stops on an error, n retries after retryCount: on an error that
  // may be retried, with a retry left, if and only if the next retry does not come
  // to its attempt.
  predicate StopsRight(s: Setting, end: End, next: nat, made: nat) {
    end.GaveUp? || end.CutOff? ==>
      && (end.CutOff? <==> IsRetryable(end.error) && Remaining(s.policy, made) > 0)
      && (end.CutOff? ==> !Goes(s, next, made))
  }

  lemma StoppingUnstarted(s: Setting, calls: seq<Call>, k: nat, retryCount: nat, err: GoError)
    requires !(IsRetryable(err) && Remaining(s.policy, retryCount) > 0 && Goes(s, k, retryCount))
    ensures var ran := Retries(s, calls, k, retryCount, err).ran;
            ran.attempts == 0 && StopsRight(s, ran.end, k, retryCount)
  {
  }

  // The same, of the attempts made from round k on.
  predicate RanStopsRight(s: Setting, ran: Ran, k: nat, retryCount: nat) {
    StopsRight(s, ran.end, k + ran.attempts, retryCount + ran.attempts)
  }

  lemma OneAheadStopsRight(s: Setting, rest: Ran, executed: bool, k: nat, retryCount: nat)
    requires RanStopsRight(s, rest, k + 1, retryCount + 1)
    ensures RanStopsRight(s, Ahead(rest, executed), k, retryCount)
  {
    assert k + 1 + rest.attempts == k + (rest.attempts + 1);
    assert retryCount + 1 + rest.attempts == retryCount + (rest.attempts + 1);
  }

  lemma {:induction false} RetriesStopRight(s: Setting, calls: seq<Call>, k: nat, retryCount: nat, err: GoError)
    ensures RanStopsRight(s, Retries(s, calls, k, retryCount, err).ran, k, retryCount)
    decreases Remaining(s.policy, retryCount)
  {
    if IsRetryable(err) && Remaining(s.policy, retryCount) > 0 && Goes(s, k, retryCount) {
      var t := Try(s.cfg, calls, s.script(k).attempt);
      var rest := Rest(s, t, k, retryCount);
      RetriesUnfold(s, calls, k, retryCount, err, t, rest);
      if t.result.Fails? {
        RetriesStopRight(s, t.calls, k + 1, retryCount + 1, t.result.error);
      }
      OneAheadStopsRight(s, rest, t.executed, k, retryCount);
    } else {
      StoppingUnstarted(s, calls, k, retryCount, err);
    }
  }

  lemma RetriesAreUsedUpIff(s: Setting, calls: seq<Call>, retryCount: nat)
    ensures var ran := WholeStep(s, calls, retryCount).ran;
            StopsRight(s, ran.end, ran.attempts, retryCount + (ran.attempts - 1))
  {
    var t := Try(s.cfg, calls, s.script(0).attempt);
    var result := FirstResult(s, t.result);
    if result.Fails? {
      RetriesStopRight(s, t.calls, 1, retryCount, result.error);
    }
  }

  // A step whose context has ended when its first attempt has, makes no other and
  // counts none, however many retries it has left.
  lemma ExpiredStepMakesNoRetry(s: Setting, calls: seq<Call>, retryCount: nat)
    requires Over(s, s.script(0).attempt.endedAt) && s.script(1).retryAt >= s.script(0).attempt.endedAt
    ensures var ran := WholeStep(s, calls, retryCount).ran; ran.attempts == 1 && ran.retryCount == retryCount
  {
  }

  // A delay of the policy that reaches from the retry's transition to the deadline
  // or beyond costs the step a retry and makes no attempt.
  lemma LongBackoffMakesNoRetry(s: Setting, calls: seq<Call>, retryCount: nat)
    requires var result := FirstResult(s, Try(s.cfg, calls, s.script(0).attempt).result);
             result.Fails? && IsRetryable(result.error)
    requires s.policy.Some? && retryCount < s.policy.value.max && s.deadline.Some? && s.script(1).counts
    requires s.script(1).retryAt < s.deadline.value <= s.script(1).retryAt + Delay(s.policy.value, retryCount)
    ensures var ran := WholeStep(s, calls, retryCount).ran;
            ran.attempts == 1 && ran.retryCount == retryCount + 1 && ran.end.CutOff?
  {
  }

  // The step was unwound by the attempt of round `last`, and the breaker that let
  // that attempt through never heard of it.
  predicate UnwoundBy(s: Setting, tr: Traced, last: int) {
    tr.ran.end.Unwound? ==>
      && last >= 0 && s.script(last).attempt.outcome.Panics?
      && tr.calls != [] && tr.calls[|tr.calls| - 1] == Request(s.script(last).attempt.askedAt)
  }

  lemma {:induction false} RetriesUnwind(s: Setting, calls: seq<Call>, k: nat, retryCount: nat, err: GoError)
    ensures var tr := Retries(s, calls, k, retryCount, err); UnwoundBy(s, tr, k + tr.ran.attempts - 1)
    decreases Remaining(s.policy, retryCount)
  {
    if IsRetryable(err) && Remaining(s.policy, retryCount) > 0 && Goes(s, k, retryCount) {
      var t := Try(s.cfg, calls, s.script(k).attempt);
      if t.result.Fails? {
        RetriesUnwind(s, t.calls, k + 1, retryCount + 1, t.result.error);
      }
    }
  }

  // A panic, in whichever attempt, ends the step at once: it is the last attempt
  // made, no retry is counted after it, and the breaker hears of its request only.
  lemma PanicIsFinal(s: Setting, calls: seq<Call>, retryCount: nat)
    ensures var tr := WholeStep(s, calls, retryCount);
            && UnwoundBy(s, tr, tr.ran.attempts - 1)
            && (tr.ran.end.Unwound? ==> tr.ran.retryCount == retryCount + (tr.ran.attempts - 1))
  {
    var t := Try(s.cfg, calls, s.script(0).attempt);
    var result := FirstResult(s, t.result);
    if result.Fails? {
      RetriesUnwind(s, t.calls, 1, retryCount, result.error);
    }
    AttemptsAreBounded(s, calls, retryCount);
  }

  // ----- Retry against the breaker -----

  // How often the action can run before the retries or the breaker give out.
  function Limit(s: Setting): int {
    Least(1 + Remaining(s.policy, 0), Threshold(s.cfg))
  }

  function Least(a: int, b: int): int {
    if a < b then a else b
  }

  // Up to that limit every attempt fails in a retryable way and every retry comes
  // to its attempt; the one the open breaker is then asked about, if there is one,
  // comes before the cooldown has passed.
  ghost predicate AlwaysFails(s: Setting) {
    && (forall k: nat :: k < Limit(s) ==> FailsAt(s, k))
    && (forall k: nat :: k + 1 < Limit(s) ==> LeadsOn(s, k))
    && (Limit(s) <= Remaining(s.policy, 0) && LeadsOn(s, Limit(s) - 1) ==>
          s.script(Limit(s)).attempt.askedAt - s.script(Limit(s) - 1).attempt.endedAt < s.cfg.cooldown)
  }

  predicate FailsAt(s: Setting, k: nat) {
    var a := s.script(k).attempt;
    a.preparation.None? && a.outcome.Fails? && IsRetryable(a.outcome.error)
  }

  predicate LeadsOn(s: Setting, k: nat) {
    Goes(s, k + 1, k)
  }

  function Threshold(cfg: BreakerConfig): nat {
    if cfg.failureThreshold > 1 then cfg.failureThreshold else 1
  }

  // After n recorded failures and nothing else since it was fresh.
  ghost predicate Failed(cfg: BreakerConfig, calls: seq<Call>, n: nat, last: int) {
    var b := After(cfg, calls);
    && b.consecutiveFailures == n
    && (b.state == Closed <==> n < Threshold(cfg))
    && (b.state != Closed ==> b.state == Open && b.lastFailureTime == last)
  }

  lemma FailureAddsOne(cfg: BreakerConfig, calls: seq<Call>, n: nat, last: int, a: Attempt)
    requires Failed(cfg, calls, n, last) && n < Threshold(cfg)
    requires a.preparation.None? && a.outcome.Fails?
    ensures var t := Try(cfg, calls, a);
            t.executed && t.result == a.outcome && Failed(cfg, t.calls, n + 1, a.endedAt)
  {
    var asked := calls + [Request(a.askedAt)];
    assert asked[..|calls|] == calls;
    var done := asked + [Failure(a.endedAt)];
    assert done[..|asked|] == asked;
  }

  // Once the breaker is open the next retry is refused, and a refusal is final.
  lemma OpenBreakerStops(s: Setting, calls: seq<Call>, k: nat, retryCount: nat, err: GoError, last: int)
    requires IsRetryable(err) && Remaining(s.policy, retryCount) > 0 && Goes(s, k, retryCount)
    requires Failed(s.cfg, calls, Threshold(s.cfg), last) && s.script(k).attempt.askedAt - last < s.cfg.cooldown
    ensures Retries(s, calls, k, retryCount, err).ran.executions == 0
  {
    var t := Try(s.cfg, calls, s.script(k).attempt);
    assert t.result == Fails(CIRCUIT_OPEN) && !t.executed;
    assert !IsRetryable(CIRCUIT_OPEN);
    assert Retries(s, t.calls, k + 1, retryCount + 1, CIRCUIT_OPEN).ran.executions == 0;
  }

  lemma OneMoreFailure(s: Setting, calls: seq<Call>, k: nat, retryCount: nat, err: GoError, last: int, t: Tried)
    requires FailsAt(s, k) && Goes(s, k, retryCount) && IsRetryable(err) && Remaining(s.policy, retryCount) > 0
    requires Failed(s.cfg, calls, k, last) && k < Threshold(s.cfg) && t == Try(s.cfg, calls, s.script(k).attempt)
    ensures t.result.Fails? && IsRetryable(t.result.error) && Failed(s.cfg, t.calls, k + 1, s.script(k).attempt.endedAt)
    ensures Retries(s, calls, k, retryCount, err).ran.executions == 1 + Rest(s, t, k, retryCount).executions
  {
    FailureAddsOne(s.cfg, calls, k, last, s.script(k).attempt);
    RetriesUnfold(s, calls, k, retryCount, err, t, Rest(s, t, k, retryCount));
  }

  lemma NoRetryMade(s: Setting, calls: seq<Call>, k: nat, retryCount: nat, err: GoError)
    requires Remaining(s.policy, retryCount) == 0 || !Goes(s, k, retryCount)
    ensures Retries(s, calls, k, retryCount, err).ran.executions == 0
  {
  }

  // At the limit nothing more is executed: no retry is left, or the next does not
  // come to its attempt, or the breaker refuses it.
  lemma LimitStops(s: Setting, calls: seq<Call>, k: nat, err: GoError)
    requires AlwaysFails(s) && k >= 1 && k == Limit(s) && IsRetryable(err)
    requires Failed(s.cfg, calls, k, s.script(k - 1).attempt.endedAt)
    ensures Retries(s, calls, k, k - 1, err).ran.executions == 0
  {
    if Remaining(s.policy, k - 1) == 0 || !Goes(s, k, k - 1) {
      NoRetryMade(s, calls, k, k - 1, err);
    } else {
      assert LeadsOn(s, k - 1);
      OpenBreakerStops(s, calls, k, k - 1, err, s.script(k - 1).attempt.endedAt);
    }
  }

  lemma {:induction false} FailingRetries(s: Setting, calls: seq<Call>, k: nat, err: GoError)
    requires AlwaysFails(s) && 1 <= k <= Limit(s) && IsRetryable(err)
    requires Failed(s.cfg, calls, k, s.script(k - 1).attempt.endedAt)
    ensures Retries(s, calls, k, k - 1, err).ran.executions == Limit(s) - k
    decreases Limit(s) - k
  {
    if k < Limit(s) {
      assert FailsAt(s, k) && LeadsOn(s, k - 1);
      var t := Try(s.cfg, calls, s.script(k).attempt);
      OneMoreFailure(s, calls, k, k - 1, err, s.script(k - 1).attempt.endedAt, t);
      FailingRetries(s, t.calls, k + 1, t.result.error);
    } else {
      LimitStops(s, calls, k, err);
    }
  }

  // Against an action that always fails, from a fresh breaker, when every retry
  // comes to its attempt, the action runs until either the retries or the breaker
  // give out, whichever comes first.
  lemma RetryTimesBreaker(s: Setting)
    requires AlwaysFails(s)
    ensures WholeStep(s, [], 0).ran.executions == Least(1 + Remaining(s.policy, 0), Threshold(s.cfg))
  {
    assert FailsAt(s, 0);
    assert Failed(s.cfg, [], 0, 0);
    FailureAddsOne(s.cfg, [], 0, 0, s.script(0).attempt);
    var t := Try(s.cfg, [], s.script(0).attempt);
    FailingRetries(s, t.calls, 1, t.result.error);
  }
}
