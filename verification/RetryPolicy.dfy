/** Retry backoff (crates/agent-runtime/src/retry_policy.rs): 32-bit saturating powers and
    saturating durations, here counted in nanoseconds. The class of an error is an input. */
module RetryPolicy {
  import opened Wrappers

  const U32_MAX: nat := 0xFFFF_FFFF
  const U64_MAX: nat := 0xFFFF_FFFF_FFFF_FFFF
  const DURATION_MAX: nat := U64_MAX * 1_000_000_000 + 999_999_999

  type u32 = n: nat | n <= U32_MAX
  type Duration = d: nat | d <= DURATION_MAX

  datatype BackoffConfig = BackoffConfig(initialDelay: Duration, multiplier: u32, maxDelay: Duration, maxAttempts: u32)

  datatype ErrorClass = RateLimited | TransientNetwork | Timeout | PermissionDenied | Validation | Unknown

  datatype Decision =
    | Retry(errorClass: ErrorClass, attempts: u32, delay: Duration)
    | DoNotRetry(errorClass: ErrorClass, attempts: u32)
    | Exhausted(errorClass: ErrorClass, attempts: u32)

  predicate IsRetryable(c: ErrorClass) {
    c.RateLimited? || c.TransientNetwork? || c.Timeout?
  }

  function Power(base: nat, exponent: nat): nat {
    if exponent == 0 then 1 else base * Power(base, exponent - 1)
  }

  function SaturatingPow(base: u32, exponent: u32): u32 {
    Min(Power(base, exponent), U32_MAX)
  }

  function SaturatingMul(d: Duration, factor: u32): Duration {
    Min(d * factor, DURATION_MAX)
  }

  function BackoffDelay(config: BackoffConfig, attempts: u32): Option<Duration> {
    if attempts == 0 || attempts >= config.maxAttempts then None
    else Some(Min(SaturatingMul(config.initialDelay, SaturatingPow(config.multiplier, attempts - 1)), config.maxDelay))
  }

  function ClassifyError(config: BackoffConfig, errorClass: ErrorClass, attempts: u32): Decision {
    if attempts >= config.maxAttempts then Exhausted(errorClass, attempts)
    else if !IsRetryable(errorClass) then DoNotRetry(errorClass, attempts)
    else
      match BackoffDelay(config, attempts)
      case Some(delay) => Retry(errorClass, attempts, delay)
      case None => Exhausted(errorClass, attempts)
  }

  /** The backoff over the integers. */
  function IdealDelay(config: BackoffConfig, attempts: u32): nat
    requires attempts >= 1
  {
    Min(config.maxDelay, config.initialDelay * Power(config.multiplier, attempts - 1))
  }

  lemma TimesMonotone(d: nat, a: nat, b: nat)
    requires a <= b
    ensures d * a <= d * b
  {
  }

  lemma TimesStrict(d: nat, a: nat, b: nat)
    requires a < b && d > 0
    ensures d * a < d * b
  {
  }

  /** Saturating the product at the largest duration makes no difference under the cap. */
  lemma DelayIsCappedProduct(config: BackoffConfig, attempts: u32)
    requires 1 <= attempts < config.maxAttempts
    ensures BackoffDelay(config, attempts) ==
            Some(Min(config.initialDelay * SaturatingPow(config.multiplier, attempts - 1), config.maxDelay))
  {
  }

  /** A delay exists exactly between the first attempt and the last, is bounded by the cap, and is the
      integer one exactly when the 32-bit power does not saturate, or saturates where the cap has
      been reached anyway, or there is nothing to multiply. */
  lemma DelayIsIdealExactlyWhen(config: BackoffConfig, attempts: u32)
    ensures BackoffDelay(config, attempts).Some? <==> 1 <= attempts < config.maxAttempts
    ensures BackoffDelay(config, attempts).Some? ==>
      && BackoffDelay(config, attempts).value <= config.maxDelay
      && (BackoffDelay(config, attempts).value == IdealDelay(config, attempts) <==>
          || Power(config.multiplier, attempts - 1) <= U32_MAX
          || config.initialDelay * U32_MAX >= config.maxDelay
          || config.initialDelay == 0)
  {
    if 1 <= attempts < config.maxAttempts {
      DelayIsCappedProduct(config, attempts);
      var power := Power(config.multiplier, attempts - 1);
      if power > U32_MAX {
        TimesMonotone(config.initialDelay, U32_MAX, power);
        if config.initialDelay > 0 {
          TimesStrict(config.initialDelay, U32_MAX, power);
        }
      }
    }
  }

  /** A configuration on which the saturated power shows: a delay of one nanosecond, multiplied by
      the largest factor twice. */
  lemma SaturationShows()
    ensures
      var config := BackoffConfig(1, U32_MAX, DURATION_MAX, 5);
      BackoffDelay(config, 3) == Some(U32_MAX) && IdealDelay(config, 3) == U32_MAX * U32_MAX
  {
    var config := BackoffConfig(1, U32_MAX, DURATION_MAX, 5);
    assert Power(U32_MAX, 1) == U32_MAX * Power(U32_MAX, 0) == U32_MAX;
    assert Power(U32_MAX, 2) == U32_MAX * Power(U32_MAX, 1) == U32_MAX * U32_MAX;
    DelayIsCappedProduct(config, 3);
  }

  // ---------------------------------------------------------------- growth

  lemma PowerGrows(base: nat, exponent: nat)
    requires base >= 1
    ensures Power(base, exponent) <= Power(base, exponent + 1)
  {
    TimesMonotone(Power(base, exponent), 1, base);
  }

  lemma DelayGrows(config: BackoffConfig, attempts: u32)
    requires config.multiplier >= 1 && 1 <= attempts && attempts + 1 < config.maxAttempts
    ensures BackoffDelay(config, attempts).value <= BackoffDelay(config, attempts + 1).value
  {
    DelayIsCappedProduct(config, attempts);
    DelayIsCappedProduct(config, attempts + 1);
    PowerGrows(config.multiplier, attempts - 1);
    TimesMonotone(config.initialDelay,
                  SaturatingPow(config.multiplier, attempts - 1), SaturatingPow(config.multiplier, attempts));
  }

  ghost predicate NonDecreasing(config: BackoffConfig) {
    forall a: u32, b: u32 | 1 <= a <= b < config.maxAttempts ::
      BackoffDelay(config, a).value <= BackoffDelay(config, b).value
  }

  lemma {:induction false} DelaysAreOrdered(config: BackoffConfig, a: u32, b: u32)
    requires config.multiplier >= 1 && 1 <= a <= b < config.maxAttempts
    ensures BackoffDelay(config, a).value <= BackoffDelay(config, b).value
    decreases b
  {
    if a < b {
      DelaysAreOrdered(config, a, b - 1);
      DelayGrows(config, b - 1);
    }
  }

  /** Delays never decrease with the attempts -- except with multiplier 0, where from the second
      retry on they are 0: then exactly when there is no second retry or the first delay is 0. */
  lemma NonDecreasingExactlyWhen(config: BackoffConfig)
    ensures NonDecreasing(config) <==>
            config.multiplier >= 1 || config.maxAttempts <= 2 || config.initialDelay == 0 || config.maxDelay == 0
  {
    if config.multiplier >= 1 {
      forall a: u32, b: u32 | 1 <= a <= b < config.maxAttempts
        ensures BackoffDelay(config, a).value <= BackoffDelay(config, b).value
      {
        DelaysAreOrdered(config, a, b);
      }
    } else {
      forall a: u32 | 1 <= a < config.maxAttempts
        ensures BackoffDelay(config, a) == Some(if a == 1 then Min(config.initialDelay, config.maxDelay) else 0)
      {
        ZeroMultiplier(config, a);
      }
      if NonDecreasing(config) && config.maxAttempts > 2 {
        var first: u32, second: u32 := 1, 2;
        assert BackoffDelay(config, first).value <= BackoffDelay(config, second).value;
      }
    }
  }

  lemma ZeroMultiplier(config: BackoffConfig, attempts: u32)
    requires config.multiplier == 0 && 1 <= attempts < config.maxAttempts
    ensures BackoffDelay(config, attempts) ==
      Some(if attempts == 1 then Min(config.initialDelay, config.maxDelay) else 0)
  {
    DelayIsCappedProduct(config, attempts);
    assert Power(0, attempts - 1) == if attempts == 1 then 1 else 0;
    assert config.initialDelay * 1 == config.initialDelay;
  }

  /** Which of the three decisions is taken: exhausted when no attempt is left, and for a retryable error
      before the first attempt; otherwise the class decides. */
  lemma DecidesExactly(config: BackoffConfig, errorClass: ErrorClass, attempts: u32)
    ensures
      var retryable := errorClass in {RateLimited, TransientNetwork, Timeout};
      match ClassifyError(config, errorClass, attempts)
      case Exhausted(c, n) =>
        c == errorClass && n == attempts && (attempts >= config.maxAttempts || (retryable && attempts == 0))
      case DoNotRetry(c, n) =>
        c == errorClass && n == attempts && attempts < config.maxAttempts && !retryable
      case Retry(c, n, delay) =>
        && c == errorClass && n == attempts && 0 < attempts < config.maxAttempts && retryable
        && BackoffDelay(config, attempts) == Some(delay)
  {
  }

  // ---------------------------------------------------------------- a whole retry sequence

  /** What a caller waits in all that retries as long as it is told to, its attempts failing with
      the given classes, the first of them counted `attempts`. */
  function TotalWait(config: BackoffConfig, classes: seq<ErrorClass>, attempts: u32): nat
    decreases |classes|
  {
    if classes == [] then 0
    else
      match ClassifyError(config, classes[0], attempts)
      case Retry(_, _, delay) => delay + TotalWait(config, classes[1..], Min(attempts + 1, U32_MAX))
      case _ => 0
  }

  /** How many attempts it makes after the first. */
  function Retries(config: BackoffConfig, classes: seq<ErrorClass>, attempts: u32): nat
    decreases |classes|
  {
    if classes == [] || !ClassifyError(config, classes[0], attempts).Retry? then 0
    else 1 + Retries(config, classes[1..], Min(attempts + 1, U32_MAX))
  }

  /** The failures before the first that is not retryable. */
  function LeadingRetryable(classes: seq<ErrorClass>): nat {
    if classes == [] || !IsRetryable(classes[0]) then 0 else 1 + LeadingRetryable(classes[1..])
  }

  lemma OneMore(n: nat, d: nat)
    ensures (1 + n) * d == d + n * d && 0 * d == 0
  {
  }

  /** From attempt 1 on it retries while the failures are retryable and attempts are left; started at
      attempt 0 it never retries. */
  lemma {:induction false} RetriesAreExact(config: BackoffConfig, classes: seq<ErrorClass>, attempts: u32)
    ensures Retries(config, classes, attempts) ==
            if attempts == 0 || attempts >= config.maxAttempts then 0
            else Min(LeadingRetryable(classes), config.maxAttempts - attempts)
    decreases |classes|
  {
    hide BackoffDelay, IdealDelay;
    DelayIsIdealExactlyWhen(config, attempts);
    if classes != [] && ClassifyError(config, classes[0], attempts).Retry? {
      RetriesAreExact(config, classes[1..], attempts + 1);
    }
  }

  lemma {:induction false} WaitIsBoundedByRetries(config: BackoffConfig, classes: seq<ErrorClass>, attempts: u32)
    ensures TotalWait(config, classes, attempts) <= Retries(config, classes, attempts) * config.maxDelay
    decreases |classes|
  {
    hide BackoffDelay, IdealDelay;
    if classes != [] && ClassifyError(config, classes[0], attempts).Retry? {
      DelayIsIdealExactlyWhen(config, attempts);
      WaitIsBoundedByRetries(config, classes[1..], attempts + 1);
      OneMore(Retries(config, classes[1..], attempts + 1), config.maxDelay);
    }
  }

  /** However its attempts fail, a caller that starts at attempt 1 retries as often as the failures
      before the first that is not retryable, at most max_attempts - 1 times, and waits at most
      that many maximal delays. */
  lemma TotalWaitIsBounded(config: BackoffConfig, classes: seq<ErrorClass>)
    requires config.maxAttempts >= 1
    ensures Retries(config, classes, 1) == Min(LeadingRetryable(classes), config.maxAttempts - 1)
    ensures TotalWait(config, classes, 1) <= (config.maxAttempts - 1) * config.maxDelay
  {
    hide TotalWait, Retries, LeadingRetryable;
    RetriesAreExact(config, classes, 1);
    WaitIsBoundedByRetries(config, classes, 1);
    TimesMonotone(config.maxDelay, Retries(config, classes, 1), config.maxAttempts - 1);
  }
}
