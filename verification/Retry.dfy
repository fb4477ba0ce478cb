/**
 Retries: how often an operation is called, what the history records, and how long the waits can get.
 */
module Retry {

  import opened Options

  datatype Strategy = Exponential | Linear | Constant

  /** `floating` says whether the initial delay is a float, as it is declared, and not an integer. */
  datatype Policy = Policy(maxAttempts: int, strategy: Strategy, initialDelay: real, floating: bool, maxDelay: real,
                           jitter: bool, jitterFactor: real)

  /** A float cannot be multiplied by two to the 1024 or more: the factor does not fit. */
  predicate Overflows(p: Policy, attempt: nat) {
    p.strategy.Exponential? && p.floating && attempt >= 1024
  }

  /** Delays that can be waited for; nothing in the configuration demands them. */
  predicate Waitable(p: Policy) {
    p.initialDelay >= 0.0 && p.maxDelay >= 0.0
  }

  function Pow2(n: nat): (r: nat)
    ensures r >= 1
  {
    if n == 0 then 1 else 2 * Pow2(n - 1)
  }

  function Min(a: real, b: real): real { if a <= b then a else b }

  /** The delay after failed attempt number `attempt`, counted from zero, before jitter. */
  function Base(p: Policy, attempt: nat): real {
    match p.strategy
    case Exponential => Min(p.initialDelay * Pow2(attempt) as real, p.maxDelay)
    case Linear => Min(p.initialDelay * (attempt + 1) as real, p.maxDelay)
    case Constant => p.initialDelay
  }

  type Noise = x: real | -1.0 <= x <= 1.0

  /** The jitter in force: none unless it is switched on with a positive factor. */
  function Factor(p: Policy): (f: real)
    ensures f >= 0.0
  {
    if p.jitter && p.jitterFactor > 0.0 then p.jitterFactor else 0.0
  }

  function Jittered(delay: real, factor: real, noise: Noise): real {
    if factor > 0.0 then
      var jittered := delay + noise * (delay * factor);
      if jittered >= 0.0 then jittered else 0.0
    else delay
  }

  /** `calculate_backoff`, for a random draw that is `noise` times the jitter range. */
  function Backoff(p: Policy, attempt: nat, noise: Noise): real {
    Jittered(Base(p, attempt), Factor(p), noise)
  }

  // ---------------------------------------------------------------- the delays

  lemma Scales(a: real, x: real, y: real)
    requires a >= 0.0 && x <= y
    ensures a * x <= a * y
  {
  }

  lemma Adds(a: real, x: real, y: real)
    ensures a * (x + y) == a * x + a * y && (x + y) * a == x * a + y * a
  {
  }

  /** A time lengthened by a factor. */
  function Stretched(t: real, factor: real): real {
    t + t * factor
  }

  lemma DelaysDoNotShrink(p: Policy, attempt: nat)
    requires Waitable(p)
    ensures 0.0 <= Base(p, attempt) <= Base(p, attempt + 1)
  {
    Scales(p.initialDelay, 0.0, Pow2(attempt) as real);
    Scales(p.initialDelay, Pow2(attempt) as real, Pow2(attempt + 1) as real);
    Scales(p.initialDelay, (attempt + 1) as real, (attempt + 2) as real);
    Scales(p.initialDelay, 0.0, (attempt + 1) as real);
  }

  /** The cap holds for every attempt, unless a constant delay larger than it was configured: the
      constant strategy never consults the cap. */
  lemma CapHoldsUnlessConstantExceedsIt(p: Policy)
    ensures (forall attempt: nat :: Base(p, attempt) <= p.maxDelay)
       <==> !(p.strategy.Constant? && p.initialDelay > p.maxDelay)
  {
    assert p.strategy.Constant? ==> Base(p, 0) == p.initialDelay;
  }

  /** Jitter moves a delay by at most its factor, and never below zero. */
  lemma JitterIsBounded(delay: real, factor: real, noise: Noise)
    requires delay >= 0.0 && factor >= 0.0
    ensures 0.0 <= Jittered(delay, factor, noise) <= Stretched(delay, factor)
    ensures Jittered(delay, factor, noise) >= Stretched(delay, -factor)
  {
    var range := delay * factor;
    Scales(delay, 0.0, factor);
    Scales(range, noise, 1.0);
    Scales(range, -1.0, noise);
    assert noise * range == range * noise;
    Adds(delay, factor, -factor);
  }

  /** The longest a run of `n` waits can take without jitter. */
  function TotalBase(p: Policy, n: nat): real {
    if n == 0 then 0.0 else TotalBase(p, n - 1) + Base(p, n - 1)
  }

  lemma {:induction false} TotalUnderCap(p: Policy, n: nat)
    requires !(p.strategy.Constant? && p.initialDelay > p.maxDelay)
    ensures TotalBase(p, n) <= n as real * p.maxDelay
  {
    if n > 0 {
      CapHoldsUnlessConstantExceedsIt(p);
      TotalUnderCap(p, n - 1);
      Adds(p.maxDelay, (n - 1) as real, 1.0);
      assert n as real == (n - 1) as real + 1.0;
    }
  }

  lemma {:induction false} ExponentialTotal(p: Policy, n: nat)
    requires p.strategy.Exponential?
    ensures TotalBase(p, n) <= (Pow2(n) - 1) as real * p.initialDelay
  {
    if n > 0 {
      ExponentialTotal(p, n - 1);
      var before := (Pow2(n - 1) - 1) as real;
      assert (Pow2(n) - 1) as real == before + Pow2(n - 1) as real;
      Adds(p.initialDelay, before, Pow2(n - 1) as real);
    }
  }

  // ---------------------------------------------------------------- a run

  /** What a call comes to; `Abort` is an exception that the loop does not catch, such as an interrupt. */
  datatype Outcome<V, E> = Success(value: V) | Failure(error: E) | Abort

  /** What a run meets, by the number of the call or by the error: the operation, the retry test, the
      random draws, and whether the `on_retry` callback raises something that is not caught. A sleep
      longer than the platform's longest raises. */
  datatype World<!V, !E> = World(
    operation: nat -> Outcome<V, E>, retryable: E -> bool, noise: nat -> Noise, escapes: nat -> bool,
    longestSleep: real)

  datatype Attempt<E> = Attempt(number: nat, error: E, delay: real)

  datatype Result<V, E> = Result(success: bool, value: Option<V>, finalError: Option<E>, attempts: seq<Attempt<E>>) {
    function AttemptCount(): nat { |attempts| + if success then 1 else 0 }
  }

  /** The waits of a history, added up. */
  function TotalWait<E>(attempts: seq<Attempt<E>>): real {
    if attempts == [] then 0.0 else TotalWait(attempts[..|attempts| - 1]) + attempts[|attempts| - 1].delay
  }

  /** Call number `i`, counted from zero, is one after which a wait follows. */
  predicate Retries<V, E>(p: Policy, w: World<V, E>, i: nat) {
    w.operation(i).Failure? && w.retryable(w.operation(i).error) && i + 1 < p.maxAttempts
  }

  /** And reaches the next call: the delay can be computed, the callback lets it pass, and the sleep is
      neither for a negative time nor for too long a one. */
  predicate GoesOn<V, E>(p: Policy, w: World<V, E>, i: nat) {
    Retries(p, w, i) && !Overflows(p, i) && !w.escapes(i) && 0.0 <= Backoff(p, i, w.noise(i)) <= w.longestSleep
  }

  /** The history of `n` failed calls. */
  ghost predicate Records<V(!new), E(!new)>(attempts: seq<Attempt<E>>, p: Policy, w: World<V, E>, n: nat) {
    && |attempts| == n
    && forall i: nat | i < n ::
         && w.operation(i).Failure?
         && attempts[i] == Attempt(i + 1, w.operation(i).error, Backoff(p, i, w.noise(i)))
  }

  /** What the caller gets after the last call; nothing when the call aborted, or when an exception
      escapes on the way to the next. */
  ghost predicate EndsAs<V(!new), E(!new)>(r: Option<Result<V, E>>, p: Policy, w: World<V, E>, last: nat) {
    if Retries(p, w, last) || w.operation(last).Abort? then r.None?
    else
      && r.Some? && Records(r.value.attempts, p, w, last)
      && (match w.operation(last)
          case Success(v) => r.value.success && r.value.value == Some(v) && r.value.finalError.None?
          case Failure(e) => !r.value.success && r.value.value.None? && r.value.finalError == Some(e)
          case Abort => true)
  }

  /** `retry_sync`. `calls` counts how often the operation was called. There is no result when an
      exception escapes. */
  method RetrySync<V(!new), E(!new)>(p: Policy, w: World<V, E>) returns (r: Option<Result<V, E>>, calls: nat)
    ensures p.maxAttempts <= 0 ==> calls == 0 && r == Some(Result(false, None, None, []))
    ensures p.maxAttempts >= 1 ==>
              && 1 <= calls <= p.maxAttempts
              && (forall i: nat | i < calls - 1 :: GoesOn(p, w, i))
              && !GoesOn(p, w, calls - 1)
              && EndsAs(r, p, w, calls - 1)
    ensures r.Some? && r.value.success ==> r.value.AttemptCount() == calls
    ensures r.Some? && !r.value.success && p.maxAttempts >= 1 ==> r.value.AttemptCount() == calls - 1
  {
    var attempts: seq<Attempt<E>> := [];
    var lastError: Option<E> := None;
    calls := 0;
    var attempt := 0;
    while attempt < p.maxAttempts
      invariant calls == attempt && (attempt == 0 || attempt < p.maxAttempts)
      invariant forall i: nat | i < attempt :: GoesOn(p, w, i)
      invariant Records(attempts, p, w, attempt)
      invariant attempt == 0 ==> lastError.None?
    {
      calls := calls + 1;
      match w.operation(attempt)
      case Abort =>
        return None, calls;
      case Success(v) =>
        return Some(Result(true, Some(v), None, attempts)), calls;
      case Failure(e) =>
        lastError := Some(e);
        if attempt < p.maxAttempts - 1 && w.retryable(e) {
          if Overflows(p, attempt) {
            return None, calls;
          }
          var delay := Backoff(p, attempt, w.noise(attempt));
          attempts := attempts + [Attempt(attempt + 1, e, delay)];
          if w.escapes(attempt) || delay < 0.0 || delay > w.longestSleep {
            return None, calls;
          }
        } else {
          return Some(Result(false, None, lastError, attempts)), calls;
        }
      attempt := attempt + 1;
    }
    r := Some(Result(false, None, lastError, attempts));
  }

  /** The longest delay a policy asks for before jitter: the constant strategy ignores the cap. */
  function Ceiling(p: Policy): real {
    if p.strategy.Constant? then p.initialDelay else p.maxDelay
  }

  /** Every wait of the policy can be slept through, and no delay overflows. */
  predicate Sleepable(p: Policy, longestSleep: real) {
    && Waitable(p) && Stretched(Ceiling(p), Factor(p)) <= longestSleep
    && (p.strategy.Exponential? && p.floating ==> p.maxAttempts <= 1025)
  }

  /** With such a policy nothing escapes on the way to the next call but what the callback raises, so
      every run whose callback is harmless and whose operation is not aborted ends in a result. */
  lemma SleepableRunsGoOn<V, E>(p: Policy, w: World<V, E>, i: nat)
    requires Sleepable(p, w.longestSleep) && !w.escapes(i)
    ensures GoesOn(p, w, i) <==> Retries(p, w, i)
  {
    BackoffIsBounded(p, i, w.noise(i));
    if !p.strategy.Constant? { CapHoldsUnlessConstantExceedsIt(p); }
    assert Base(p, i) <= Ceiling(p);
    StretchedGrows(Factor(p), Base(p, i), Ceiling(p));
  }

  /** Too long a constant delay: one call is made, and its failure is lost with the run. */
  lemma LongDelaysLoseTheRun<V(!new), E(!new)>(p: Policy, w: World<V, E>, r: Option<Result<V, E>>)
    requires p.strategy.Constant? && p.initialDelay > w.longestSleep && Factor(p) == 0.0 && Retries(p, w, 0)
    ensures !GoesOn(p, w, 0) && (EndsAs(r, p, w, 0) <==> r.None?)
  {
  }

  lemma StretchedSum(factor: real, base: real, next: real)
    ensures Stretched(base + next, factor) == Stretched(base, factor) + Stretched(next, factor)
  {
  }

  lemma StretchedGrows(factor: real, t: real, t': real)
    requires factor >= 0.0 && t <= t'
    ensures Stretched(t, factor) <= Stretched(t', factor)
  {
    Scales(factor, t, t');
  }

  lemma BackoffIsBounded(p: Policy, attempt: nat, noise: Noise)
    requires Waitable(p)
    ensures 0.0 <= Backoff(p, attempt, noise) <= Stretched(Base(p, attempt), Factor(p))
  {
    DelaysDoNotShrink(p, attempt);
    JitterIsBounded(Base(p, attempt), Factor(p), noise);
  }

  /** The recorded waits add up to at most the stretched delays. */
  lemma {:induction false} WaitsAreStretchedBases<V(!new), E(!new)>(
      attempts: seq<Attempt<E>>, p: Policy, w: World<V, E>, n: nat)
    requires Waitable(p) && Records(attempts, p, w, n)
    ensures 0.0 <= TotalWait(attempts) <= Stretched(TotalBase(p, n), Factor(p))
    decreases n
  {
    if n > 0 {
      WaitsAreStretchedBases(attempts[..n - 1], p, w, n - 1);
      BackoffIsBounded(p, n - 1, w.noise(n - 1));
      StretchedSum(Factor(p), TotalBase(p, n - 1), Base(p, n - 1));
    }
  }

  lemma WaitsUnder<V(!new), E(!new)>(
      attempts: seq<Attempt<E>>, p: Policy, w: World<V, E>, n: nat, bound: real)
    requires Waitable(p) && Records(attempts, p, w, n) && TotalBase(p, n) <= bound
    ensures TotalWait(attempts) <= Stretched(bound, Factor(p))
  {
    WaitsAreStretchedBases(attempts, p, w, n);
    StretchedGrows(Factor(p), TotalBase(p, n), bound);
  }

  /** A run that made `k` calls waited at most as long as `k - 1` delays at the cap, lengthened by the
      jitter. */
  lemma RunsWaitUnderTheCap<V(!new), E(!new)>(
      attempts: seq<Attempt<E>>, p: Policy, w: World<V, E>, k: nat)
    requires Waitable(p) && k >= 1 && Records(attempts, p, w, k - 1)
    requires !(p.strategy.Constant? && p.initialDelay > p.maxDelay)
    ensures TotalWait(attempts) <= Stretched((k - 1) as real * p.maxDelay, Factor(p))
  {
    TotalUnderCap(p, k - 1);
    WaitsUnder(attempts, p, w, k - 1, (k - 1) as real * p.maxDelay);
  }

  /** Doubling from the initial delay, it also waited at most `2^(k-1) - 1` initial delays, lengthened
      by the jitter. */
  lemma DoublingRunsWait<V(!new), E(!new)>(
      attempts: seq<Attempt<E>>, p: Policy, w: World<V, E>, k: nat, bound: real)
    requires Waitable(p) && k >= 1 && Records(attempts, p, w, k - 1) && p.strategy.Exponential?
    requires bound == (Pow2(k - 1) - 1) as real * p.initialDelay
    ensures TotalWait(attempts) <= Stretched(bound, Factor(p))
  {
    ExponentialTotal(p, k - 1);
    WaitsUnder(attempts, p, w, k - 1, bound);
  }
}
