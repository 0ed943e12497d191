// ComputeBackoff on Go's 64-bit durations.
module Backoff {
  import opened Wrappers

  const TWO63: int := 0x8000_0000_0000_0000
  const TWO64: int := 0x1_0000_0000_0000_0000

  // Two's complement wrap-around of a signed 64-bit result.
  function Wrap64(x: int): (r: int)
    ensures -TWO63 <= r < TWO63
    ensures -TWO63 <= x < TWO63 ==> r == x
  {
    (x + TWO63) % TWO64 - TWO63
  }

  type Duration = d: int | -TWO63 <= d < TWO63

  // Durations are parsed already; None stands for absent or unparsable.
  datatype RetryPolicy = RetryPolicy(max: int, backoff: string, delay: Option<Duration>, maxDelay: Option<Duration>)

  function Pow2(n: nat): nat {
    if n == 0 then 1 else 2 * Pow2(n - 1)
  }

  function Capped(d: int, cap: Option<Duration>): int {
    if cap.Some? && d > cap.value then cap.value else d
  }

  // The delay without machine arithmetic.
  function IdealDelay(policy: RetryPolicy, base: int, attempt: nat): int {
    if policy.backoff == "exponential" then base * Pow2(attempt)
    else if policy.backoff == "linear" then base * (attempt + 1)
    else base
  }

  lemma WrapIsModular(x: int, k: int)
    ensures Wrap64(x + k * TWO64) == Wrap64(x)
  {
    var y := x + TWO63;
    assert (y + k * TWO64) % TWO64 == y % TWO64 by {
      var q := y / TWO64;
      assert y + k * TWO64 == (q + k) * TWO64 + y % TWO64;
    }
  }

  lemma WrapIsOff(x: int) returns (k: int)
    ensures Wrap64(x) == x + k * TWO64
  {
    k := -((x + TWO63) / TWO64);
  }

  // Wrapping a factor first makes no difference to a wrapped product.
  lemma WrapProduct(a: int, b: int)
    ensures Wrap64(a * Wrap64(b)) == Wrap64(a * b)
  {
    var k := WrapIsOff(b);
    assert a * (b + k * TWO64) == a * b + (a * k) * TWO64;
    WrapIsModular(a * b, a * k);
  }

  // The delay before retry number `attempt` (from zero): the ideal delay, but in
  // 64 bits, then capped.
  function Delay(policy: RetryPolicy, attempt: nat): int {
    if policy.delay.None? then 0
    else Capped(Wrap64(IdealDelay(policy, policy.delay.value, attempt)), policy.maxDelay)
  }

  method ComputeBackoff(policy: Option<RetryPolicy>, attempt: nat) returns (delay: int)
    ensures delay == if policy.None? then 0 else Delay(policy.value, attempt)
  {
    if policy.None? || policy.value.delay.None? {
      return 0;
    }
    var base := policy.value.delay.value;
    if policy.value.backoff == "exponential" {
      var multiplier := 1;
      for i := 0 to attempt
        invariant multiplier == Wrap64(Pow2(i))
      {
        WrapProduct(2, Pow2(i));
        multiplier := Wrap64(2 * multiplier);
      }
      WrapProduct(base, Pow2(attempt));
      delay := Wrap64(base * multiplier);
    } else if policy.value.backoff == "linear" {
      WrapProduct(base, attempt + 1);
      delay := Wrap64(base * Wrap64(attempt + 1));
    } else {
      delay := base;
    }
    if policy.value.maxDelay.Some? && delay > policy.value.maxDelay.value {
      delay := policy.value.maxDelay.value;
    }
  }

  // ----- Exponential backoff -----

  predicate Exponential(policy: RetryPolicy, base: int) {
    policy.backoff == "exponential" && policy.delay == Some(base) && base > 0
  }

  lemma Pow2Grows(i: nat, j: nat)
    requires i <= j
    ensures 0 < Pow2(i) <= Pow2(j)
    decreases j
  {
    if i < j {
      Pow2Grows(i, j - 1);
    } else if i > 0 {
      Pow2Grows(i - 1, i - 1);
    }
  }

  lemma ScaledGrows(base: int, i: nat, j: nat)
    requires base > 0 && i <= j
    ensures 0 < base * Pow2(i) <= base * Pow2(j)
  {
    Pow2Grows(i, j);
    Positive(base, Pow2(i));
    Positive(base, Pow2(j) - Pow2(i) + 1);
    assert base * Pow2(j) == base * Pow2(i) + base * (Pow2(j) - Pow2(i));
    assert base * (Pow2(j) - Pow2(i) + 1) == base * (Pow2(j) - Pow2(i)) + base;
    if Pow2(j) > Pow2(i) {
      Positive(base, Pow2(j) - Pow2(i));
    }
  }

  lemma Positive(a: int, b: int)
    requires a > 0 && b > 0
    ensures a * b > 0
  {
  }

  // The delay is the doubled one precisely while that fits a signed 64-bit
  // duration, or when the wrapped value happens to reach the cap.
  lemma ExponentialIsExactIff(policy: RetryPolicy, base: Duration, attempt: nat)
    requires Exponential(policy, base)
    ensures Delay(policy, attempt) == Capped(base * Pow2(attempt), policy.maxDelay) <==>
            base * Pow2(attempt) < TWO63 ||
            (policy.maxDelay.Some? && Wrap64(base * Pow2(attempt)) >= policy.maxDelay.value)
  {
    ScaledGrows(base, attempt, attempt);
  }

  lemma Pow2Of64()
    ensures Pow2(64) == TWO64
  {
    Pow2Splits(32, 32);
    Pow2Splits(16, 16);
    Pow2Splits(8, 8);
    assert Pow2(8) == 256;
  }

  lemma LateMultiplier(base: int, attempt: nat) returns (k: int)
    requires attempt >= 64
    ensures base * Pow2(attempt) == k * TWO64
  {
    Pow2Splits(attempt - 64, 64);
    Pow2Of64();
    k := base * Pow2(attempt - 64);
    Regroup(base, Pow2(attempt - 64), Pow2(64));
  }

  lemma Regroup(a: int, b: int, c: int)
    ensures a * (b * c) == (a * b) * c
  {
  }

  // From the sixty-fifth retry on, the multiplier is zero and so is the delay.
  lemma LateBackoffVanishes(policy: RetryPolicy, base: Duration, attempt: nat)
    requires Exponential(policy, base) && attempt >= 64
    requires policy.maxDelay.Some? ==> policy.maxDelay.value >= 0
    ensures Delay(policy, attempt) == 0
  {
    var k := LateMultiplier(base, attempt);
    WrapIsModular(0, k);
  }

  lemma {:induction false} Pow2Splits(a: nat, b: nat)
    ensures Pow2(a + b) == Pow2(a) * Pow2(b)
  {
    if b > 0 {
      Pow2Splits(a, b - 1);
      assert Pow2(a + b) == 2 * Pow2(a + (b - 1));
    }
  }

  function TotalDelay(policy: RetryPolicy, n: nat): int {
    if n == 0 then 0 else TotalDelay(policy, n - 1) + Delay(policy, n - 1)
  }

  // Over n retries whose last doubling fits, delays never shrink.
  lemma DelaysDoNotShrink(policy: RetryPolicy, base: Duration, i: nat, j: nat)
    requires Exponential(policy, base) && i <= j && base * Pow2(j) < TWO63
    ensures Delay(policy, i) <= Delay(policy, j)
    ensures Delay(policy, i) == Capped(base * Pow2(i), policy.maxDelay)
  {
    ScaledGrows(base, i, j);
  }

  // Over n retries whose last doubling fits, the waits add up to
  // base * (2^n - 1), or to at most n caps.
  lemma {:induction false} TotalWait(policy: RetryPolicy, base: Duration, n: nat)
    requires Exponential(policy, base) && (n > 0 ==> base * Pow2(n - 1) < TWO63)
    ensures policy.maxDelay.None? ==> TotalDelay(policy, n) == base * (Pow2(n) - 1)
    ensures policy.maxDelay.Some? ==> TotalDelay(policy, n) <= n * policy.maxDelay.value
    ensures TotalDelay(policy, n) <= base * (Pow2(n) - 1)
  {
    if n > 0 {
      if n > 1 {
        ScaledGrows(base, n - 2, n - 1);
      }
      TotalWait(policy, base, n - 1);
      ScaledGrows(base, n - 1, n - 1);
      Distribute(base, Pow2(n - 1));
      if policy.maxDelay.Some? {
        assert n * policy.maxDelay.value == (n - 1) * policy.maxDelay.value + policy.maxDelay.value;
      }
    }
  }

  lemma Distribute(base: int, p: int)
    ensures base * (2 * p - 1) == base * (p - 1) + base * p
  {
  }
}
