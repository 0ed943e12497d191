// The per-action circuit breakers, and the policy on call histories they
// implement: no breaker state, only what was recorded and when.
module Breakers {
  import opened Wrappers

  datatype CircuitState = Closed | Open | HalfOpen

  // Times and durations are the monotonic clock's ticks.
  datatype BreakerConfig = BreakerConfig(failureThreshold: int, cooldown: int, halfOpenMax: int)

  datatype Breaker = Breaker(
    state: CircuitState,
    consecutiveFailures: int,
    lastFailureTime: int,
    halfOpenAttempts: int)

  const FRESH_BREAKER := Breaker(Closed, 0, 0, 0)

  // ----- The breaker's transitions on values -----

  datatype Call =
    | Request(now: int)    // AllowRequest
    | Success              // RecordSuccess
    | Failure(now: int)    // RecordFailure
    | Query(now: int)      // GetState

  function Admits(cfg: BreakerConfig, b: Breaker, now: int): bool {
    match b.state
    case Closed => true
    case Open => now - b.lastFailureTime >= cfg.cooldown
    case HalfOpen => b.halfOpenAttempts < cfg.halfOpenMax
  }

  function Next(cfg: BreakerConfig, b: Breaker, c: Call): Breaker {
    match c
    case Request(now) =>
      if !Admits(cfg, b, now) || b.state == Closed then b
      else if b.state == Open then b.(state := HalfOpen, halfOpenAttempts := 1)
      else b.(halfOpenAttempts := b.halfOpenAttempts + 1)
    case Success => Breaker(Closed, 0, b.lastFailureTime, 0)
    case Failure(now) =>
      var n := b.consecutiveFailures + 1;
      b.(consecutiveFailures := n, lastFailureTime := now,
         state := if b.state == HalfOpen || n >= cfg.failureThreshold then Open else b.state)
    case Query(now) =>
      if b.state == Open && now - b.lastFailureTime >= cfg.cooldown
      then b.(state := HalfOpen, halfOpenAttempts := 0) else b
  }

  function After(cfg: BreakerConfig, h: seq<Call>): Breaker {
    if h == [] then FRESH_BREAKER else Next(cfg, After(cfg, h[..|h| - 1]), h[|h| - 1])
  }

  // ----- The policy, on histories alone -----

  function FailuresSinceSuccess(h: seq<Call>): nat {
    if h == [] then 0
    else
      match h[|h| - 1]
      case Success => 0
      case Failure(_) => FailuresSinceSuccess(h[..|h| - 1]) + 1
      case _ => FailuresSinceSuccess(h[..|h| - 1])
  }

  function LastFailure(h: seq<Call>): Option<int> {
    if h == [] then None
    else if h[|h| - 1].Failure? then Some(h[|h| - 1].now)
    else LastFailure(h[..|h| - 1])
  }

  // Trouble: at least the threshold of failures, and at least one.
  predicate Tripped(cfg: BreakerConfig, h: seq<Call>) {
    FailuresSinceSuccess(h) >= (if cfg.failureThreshold > 1 then cfg.failureThreshold else 1)
  }

  // Requests let through in trouble since the last recorded outcome.
  function Probes(cfg: BreakerConfig, h: seq<Call>): nat
    decreases |h|, 0
  {
    if h == [] then 0
    else
      var before := h[..|h| - 1];
      match h[|h| - 1]
      case Success => 0
      case Failure(_) => 0
      case Query(_) => Probes(cfg, before)
      case Request(now) =>
        Probes(cfg, before) + if Tripped(cfg, before) && PolicyAdmits(cfg, before, now) then 1 else 0
  }

  // In trouble a request needs a full cooldown since the last failure and a
  // free probe slot; otherwise it is always admitted.
  predicate PolicyAdmits(cfg: BreakerConfig, h: seq<Call>, now: int)
    decreases |h|, 1
  {
    !Tripped(cfg, h) ||
    (LastFailure(h).Some? && now - LastFailure(h).value >= cfg.cooldown && Probes(cfg, h) < cfg.halfOpenMax)
  }

  predicate HasTime(c: Call) {
    !c.Success?
  }

  // The monotonic clock never runs backwards.
  ghost predicate Monotone(h: seq<Call>) {
    forall i, j :: 0 <= i < j < |h| && HasTime(h[i]) && HasTime(h[j]) ==> h[i].now <= h[j].now
  }

  ghost predicate NotBefore(h: seq<Call>, now: int) {
    forall i :: 0 <= i < |h| && HasTime(h[i]) ==> h[i].now <= now
  }

  // ----- The breaker against the policy -----

  // Holds for every configuration and every clock.
  ghost predicate Reflects(cfg: BreakerConfig, h: seq<Call>, b: Breaker) {
    && b.consecutiveFailures == FailuresSinceSuccess(h)
    && (b.state == Closed <==> !Tripped(cfg, h))
    && (b.state != Closed ==> LastFailure(h) == Some(b.lastFailureTime))
    && (b.state == HalfOpen ==> b.halfOpenAttempts >= 0)
  }

  lemma {:induction false} BreakerReflectsHistory(cfg: BreakerConfig, h: seq<Call>)
    ensures Reflects(cfg, h, After(cfg, h))
  {
    if h != [] {
      BreakerReflectsHistory(cfg, h[..|h| - 1]);
    }
  }

  // Closed exactly while failures since the last success are below the
  // threshold (a threshold below one acts as one).
  lemma ClosedMeansBelowThreshold(cfg: BreakerConfig, h: seq<Call>)
    ensures After(cfg, h).state == Closed <==>
            FailuresSinceSuccess(h) < (if cfg.failureThreshold > 1 then cfg.failureThreshold else 1)
  {
    BreakerReflectsHistory(cfg, h);
  }

  // With a monotone clock and at least one probe slot.
  ghost predicate CountsProbes(cfg: BreakerConfig, h: seq<Call>, b: Breaker) {
    && (b.state == Open ==> Probes(cfg, h) == 0)
    && (b.state == HalfOpen ==> Probes(cfg, h) == b.halfOpenAttempts <= cfg.halfOpenMax)
    && (b.state == HalfOpen ==> exists t :: t - b.lastFailureTime >= cfg.cooldown && Reached(h, t))
  }

  // Some call happened at time t.
  ghost predicate Reached(h: seq<Call>, t: int) {
    exists i :: 0 <= i < |h| && HasTime(h[i]) && h[i].now == t
  }

  lemma ReachedLater(h: seq<Call>, c: Call, t: int)
    requires Reached(h, t)
    ensures Reached(h + [c], t)
  {
    var i :| 0 <= i < |h| && HasTime(h[i]) && h[i].now == t;
    assert (h + [c])[i] == h[i];
  }

  lemma {:induction false} BreakerCountsProbes(cfg: BreakerConfig, h: seq<Call>)
    requires cfg.halfOpenMax >= 1 && Monotone(h)
    ensures CountsProbes(cfg, h, After(cfg, h))
  {
    if h != [] {
      var n := |h| - 1;
      var before, c := h[..n], h[n];
      assert h == before + [c];
      BreakerCountsProbes(cfg, before);
      BreakerReflectsHistory(cfg, before);
      var b, b' := After(cfg, before), After(cfg, h);
      if b.state == HalfOpen {
        var t :| t - b.lastFailureTime >= cfg.cooldown && Reached(before, t);
        ReachedLater(before, c, t);
        assert c.Request? ==> PolicyAdmits(cfg, before, c.now) == Admits(cfg, b, c.now) by {
          var i :| 0 <= i < |before| && HasTime(before[i]) && before[i].now == t;
          assert h[i] == before[i];
        }
      } else if b'.state == HalfOpen {
        assert Reached(h, c.now);
      }
    }
  }

  // Under a monotone clock and with a probe slot the breaker admits a request
  // exactly when the policy does.
  lemma BreakerImplementsPolicy(cfg: BreakerConfig, h: seq<Call>, now: int)
    requires cfg.halfOpenMax >= 1 && Monotone(h) && NotBefore(h, now)
    ensures Admits(cfg, After(cfg, h), now) <==> PolicyAdmits(cfg, h, now)
  {
    BreakerReflectsHistory(cfg, h);
    BreakerCountsProbes(cfg, h);
    var b := After(cfg, h);
    if b.state == HalfOpen {
      var t :| t - b.lastFailureTime >= cfg.cooldown && Reached(h, t);
    }
  }

  // Requests the breaker itself let through while not closed, since the last
  // recorded outcome.
  function LetThrough(cfg: BreakerConfig, h: seq<Call>): nat {
    if h == [] then 0
    else
      var before := h[..|h| - 1];
      match h[|h| - 1]
      case Success => 0
      case Failure(_) => 0
      case Query(_) => LetThrough(cfg, before)
      case Request(now) =>
        var b := After(cfg, before);
        LetThrough(cfg, before) + if b.state != Closed && Admits(cfg, b, now) then 1 else 0
  }

  // The half-open counter counts them, and is bounded, whatever the clock does.
  lemma {:induction false} BreakerCountsRequests(cfg: BreakerConfig, h: seq<Call>)
    requires cfg.halfOpenMax >= 1
    ensures var b := After(cfg, h);
            && (b.state != HalfOpen ==> LetThrough(cfg, h) == 0)
            && (b.state == HalfOpen ==> LetThrough(cfg, h) == b.halfOpenAttempts <= cfg.halfOpenMax)
  {
    if h != [] {
      BreakerCountsRequests(cfg, h[..|h| - 1]);
    }
  }

  // Between consecutive outcomes the breaker lets at most halfOpenMax requests
  // through while not closed, for every history and every clock.
  lemma ProbesAreBounded(cfg: BreakerConfig, h: seq<Call>)
    requires cfg.halfOpenMax >= 1
    ensures LetThrough(cfg, h) <= cfg.halfOpenMax
  {
    BreakerCountsRequests(cfg, h);
  }

  predicate IsOutcome(c: Call) {
    c.Success? || c.Failure?
  }

  // Once the breaker has let its half-open requests through without hearing of an
  // outcome, as when their actions panic, nothing but an outcome gets another one
  // through, at any time.
  lemma LostProbesBlock(cfg: BreakerConfig, h: seq<Call>, more: seq<Call>, now: int)
    requires cfg.halfOpenMax >= 1 && LetThrough(cfg, h) >= cfg.halfOpenMax
    requires forall c :: c in more ==> !IsOutcome(c)
    ensures !Admits(cfg, After(cfg, h + more), now) && LetThrough(cfg, h + more) == cfg.halfOpenMax
  {
    BreakerCountsRequests(cfg, h);
    FullBreakerStays(cfg, h, more);
    BreakerCountsRequests(cfg, h + more);
  }

  lemma {:induction false} FullBreakerStays(cfg: BreakerConfig, h: seq<Call>, more: seq<Call>)
    requires var b := After(cfg, h); b.state == HalfOpen && b.halfOpenAttempts >= cfg.halfOpenMax
    requires forall c :: c in more ==> !IsOutcome(c)
    ensures After(cfg, h + more) == After(cfg, h)
    decreases |more|
  {
    if more == [] {
      assert h + more == h;
    } else {
      var n := |more| - 1;
      assert more[n] in more && forall c :: c in more[..n] ==> c in more;
      FullBreakerStays(cfg, h, more[..n]);
      assert (h + more)[..|h + more| - 1] == h + more[..n];
    }
  }

  // Why the policy is stated for a monotone clock: once half-open the breaker does
  // not look at the cooldown again, so a clock that stepped back, which Go's
  // monotonic reading never does, would make the two differ.
  lemma BackwardClockBreaksPolicy()
    ensures var cfg := BreakerConfig(1, 10, 2);
            var h := [Failure(0), Request(10)];
            Admits(cfg, After(cfg, h), 5) && !PolicyAdmits(cfg, h, 5)
  {
    var cfg := BreakerConfig(1, 10, 2);
    var h := [Failure(0), Request(10)];
    assert h[..1] == [Failure(0)] && [Failure(0)][..0] == [];
    assert After(cfg, [Failure(0)]) == Breaker(Open, 1, 0, 0);
    assert LastFailure(h) == LastFailure([Failure(0)]) == Some(0);
    assert FailuresSinceSuccess(h) == FailuresSinceSuccess([Failure(0)]) == 1;
  }

  // ----- The registry -----

  class CircuitBreaker {
    const config: BreakerConfig
    var state: CircuitState
    var consecutiveFailures: int
    var lastFailureTime: int
    var halfOpenAttempts: int

    constructor (config: BreakerConfig)
      ensures this.config == config && Value() == FRESH_BREAKER
    {
      this.config := config;
      state := Closed;
      consecutiveFailures, lastFailureTime, halfOpenAttempts := 0, 0, 0;
    }

    function Value(): Breaker
      reads this
    {
      Breaker(state, consecutiveFailures, lastFailureTime, halfOpenAttempts)
    }

    method AllowRequest(now: int) returns (allowed: bool)
      modifies this
      ensures allowed <==> Admits(config, old(Value()), now)
      ensures Value() == Next(config, old(Value()), Request(now))
    {
      match state {
        case Closed =>
          return true;
        case Open =>
          if now - lastFailureTime >= config.cooldown {
            state := HalfOpen;
            halfOpenAttempts := 1;
            return true;
          }
          return false;
        case HalfOpen =>
          if halfOpenAttempts >= config.halfOpenMax {
            return false;
          }
          halfOpenAttempts := halfOpenAttempts + 1;
          return true;
      }
    }

    method RecordSuccess()
      modifies this
      ensures Value() == Next(config, old(Value()), Success)
    {
      consecutiveFailures := 0;
      halfOpenAttempts := 0;
      state := Closed;
    }

    method RecordFailure(now: int) returns (newState: CircuitState)
      modifies this
      ensures Value() == Next(config, old(Value()), Failure(now))
      ensures newState == state
    {
      consecutiveFailures := consecutiveFailures + 1;
      lastFailureTime := now;
      if state == HalfOpen {
        state := Open;
        return Open;
      }
      if consecutiveFailures >= config.failureThreshold {
        state := Open;
        return Open;
      }
      return state;
    }

    method GetState(now: int) returns (current: CircuitState)
      modifies this
      ensures Value() == Next(config, old(Value()), Query(now))
      ensures current == state
    {
      if state == Open && now - lastFailureTime >= config.cooldown {
        state := HalfOpen;
        halfOpenAttempts := 0;
      }
      return state;
    }
  }

  class CircuitBreakerRegistry {
    const config: BreakerConfig
    var breakers: map<string, CircuitBreaker>
    ghost var history: map<string, seq<Call>>

    // Breakers are not shared between actions, and each is where its own calls
    // have taken it.
    ghost predicate Valid()
      reads this, breakers.Values
    {
      && history.Keys == breakers.Keys
      && (forall a :: a in breakers ==> breakers[a].config == config)
      && (forall a, b :: a in breakers && b in breakers && a != b ==> breakers[a] != breakers[b])
      && (forall a :: a in breakers ==> breakers[a].Value() == After(config, history[a]))
    }

    // The calls an action has seen; none before its breaker exists.
    ghost function Calls(action: string): seq<Call>
      reads this
    {
      if action in history then history[action] else []
    }

    constructor (config: BreakerConfig)
      ensures Valid() && this.config == config && history == map[] && breakers == map[]
    {
      this.config := config;
      breakers, history := map[], map[];
    }

    method GetOrCreate(action: string) returns (cb: CircuitBreaker)
      requires Valid()
      modifies this
      ensures Valid() && action in breakers && breakers[action] == cb
      ensures forall a :: Calls(a) == old(Calls(a))
      ensures forall b :: b in breakers.Values ==> b in old(breakers.Values) || fresh(b)
    {
      if action in breakers {
        cb := breakers[action];
      } else {
        cb := new CircuitBreaker(config);
        breakers := breakers[action := cb];
        history := history[action := []];
      }
    }

    method AllowRequest(action: string, now: int) returns (allowed: bool)
      requires Valid()
      modifies this, breakers.Values
      ensures Valid()
      ensures allowed <==> Admits(config, After(config, old(Calls(action))), now)
      ensures Calls(action) == old(Calls(action)) + [Request(now)]
      ensures forall a :: a != action ==> Calls(a) == old(Calls(a))
      ensures forall b :: b in breakers.Values ==> b in old(breakers.Values) || fresh(b)
    {
      var cb := GetOrCreate(action);
      allowed := cb.AllowRequest(now);
      Extend(action, Request(now));
    }

    method RecordSuccess(action: string)
      requires Valid()
      modifies this, breakers.Values
      ensures Valid()
      ensures Calls(action) == old(Calls(action)) + [Success]
      ensures forall a :: a != action ==> Calls(a) == old(Calls(a))
      ensures forall b :: b in breakers.Values ==> b in old(breakers.Values) || fresh(b)
    {
      var cb := GetOrCreate(action);
      cb.RecordSuccess();
      Extend(action, Success);
    }

    method RecordFailure(action: string, now: int) returns (newState: CircuitState)
      requires Valid()
      modifies this, breakers.Values
      ensures Valid()
      ensures newState == After(config, Calls(action)).state
      ensures Calls(action) == old(Calls(action)) + [Failure(now)]
      ensures forall a :: a != action ==> Calls(a) == old(Calls(a))
      ensures forall b :: b in breakers.Values ==> b in old(breakers.Values) || fresh(b)
    {
      var cb := GetOrCreate(action);
      newState := cb.RecordFailure(now);
      Extend(action, Failure(now));
    }

    method GetState(action: string, now: int) returns (current: CircuitState)
      requires Valid()
      modifies this, breakers.Values
      ensures Valid()
      ensures current == After(config, Calls(action)).state
      ensures Calls(action) == old(Calls(action)) + [Query(now)]
      ensures forall a :: a != action ==> Calls(a) == old(Calls(a))
      ensures forall b :: b in breakers.Values ==> b in old(breakers.Values) || fresh(b)
    {
      var cb := GetOrCreate(action);
      current := cb.GetState(now);
      Extend(action, Query(now));
    }

    // Records a call that the action's breaker has just performed.
    ghost method Extend(action: string, c: Call)
      requires action in breakers && history.Keys == breakers.Keys
      requires forall a :: a in breakers ==> breakers[a].config == config
      requires forall a, b :: a in breakers && b in breakers && a != b ==> breakers[a] != breakers[b]
      requires breakers[action].Value() == Next(config, After(config, history[action]), c)
      requires forall a :: a in breakers && a != action ==> breakers[a].Value() == After(config, history[a])
      modifies this`history
      ensures Valid()
      ensures history == old(history)[action := old(history)[action] + [c]]
    {
      var h := history[action];
      assert (h + [c])[..|h|] == h;
      history := history[action := h + [c]];
    }
  }
}
