/** The retry loop of the pipeline and its backoff (crates/nova-executor/src/pipeline.rs). */
module Retry {
  import opened Numbers

  function Pow(base: nat, exponent: nat): nat {
    if exponent == 0 then 1 else base * Pow(base, exponent - 1)
  }

  function SaturatingMul(a: nat, b: nat): nat {
    Min(a * b, U64_MAX)
  }

  function SaturatingPow(base: nat, exponent: nat): nat {
    Min(Pow(base, exponent), U64_MAX)
  }

  // ---- Backoff ----

  /** Milliseconds before the given attempt; attempts are counted in 8 bits, the others in 64. */
  function Backoff(attempt: nat, baseMs: nat, maxMs: nat): nat {
    var exponent := if attempt == 0 then 0 else attempt - 1;
    Min(SaturatingMul(baseMs, SaturatingPow(5, exponent)), maxMs)
  }

  lemma ProductGrows(a: nat, b: nat, c: nat)
    ensures b <= c ==> a * b <= a * c
    ensures a >= 1 ==> a * b >= b
  {}

  /** Saturation never shows: the delay is the exact power, cut off at the maximum. */
  lemma BackoffIsExact(attempt: nat, baseMs: nat, maxMs: nat)
    requires attempt >= 1 && maxMs <= U64_MAX
    ensures Backoff(attempt, baseMs, maxMs) == Min(baseMs * Pow(5, attempt - 1), maxMs)
  {
    var p := Pow(5, attempt - 1);
    if p > U64_MAX && baseMs >= 1 {
      ProductGrows(baseMs, U64_MAX, p);
    }
  }

  lemma BackoffGrows(attempt: nat, baseMs: nat, maxMs: nat)
    requires attempt >= 1 && maxMs <= U64_MAX
    ensures Backoff(attempt, baseMs, maxMs) <= Backoff(attempt + 1, baseMs, maxMs)
  {
    BackoffIsExact(attempt, baseMs, maxMs);
    BackoffIsExact(attempt + 1, baseMs, maxMs);
    ProductGrows(baseMs, Pow(5, attempt - 1), 5 * Pow(5, attempt - 1));
  }

  // ---- The loop ----

  const NANOS_PER_MS: nat := 1_000_000

  datatype StageResult = Continue | ShortCircuit | Error(retryable: bool)

  /** What one attempt meets: two readings of the time left, the jitter drawn, the other checks and the stage itself. */
  datatype Attempt = Attempt(
    remaining: nat,
    remainingAgain: nat,
    jitterMs: nat,
    expired: bool,
    circuitOpen: bool,
    result: StageResult)

  datatype Outcome = Success | Shortened | DeadlineExceeded | CircuitOpen | StageError

  /** The jitter is at most a fifth of the delay. */
  ghost predicate PlausibleJitter(env: nat -> Attempt, baseMs: nat, maxMs: nat) {
    forall n :: 1 <= n ==> 5 * env(n).jitterMs <= Backoff(n, baseMs, maxMs)
  }

  /** The deadline leaves no room for the pause before attempt `n`. */
  predicate NoTimeToPause(env: nat -> Attempt, n: nat, baseMs: nat, maxMs: nat) {
    var delayMs := Backoff(n, baseMs, maxMs);
    && n > 0
    && (env(n).remaining <= delayMs * NANOS_PER_MS
        || env(n).remainingAgain <= (delayMs + env(n).jitterMs) * NANOS_PER_MS)
  }

  /** Nothing keeps attempt `n` from being executed. */
  predicate Runs(env: nat -> Attempt, n: nat, baseMs: nat, maxMs: nat) {
    !NoTimeToPause(env, n, baseMs, maxMs) && !env(n).expired && !env(n).circuitOpen
  }

  /** Attempts `0..n` were executed and failed with retryable errors. */
  ghost predicate FailedUpTo(env: nat -> Attempt, n: nat, baseMs: nat, maxMs: nat) {
    forall k :: 0 <= k < n ==> Runs(env, k, baseMs, maxMs) && env(k).result == Error(true)
  }

  /** Attempt `n` was executed after `n` failures and ended the loop. */
  ghost predicate EndedAt(outcome: Outcome, n: nat, maxRetries: nat, env: nat -> Attempt, baseMs: nat, maxMs: nat) {
    && FailedUpTo(env, n, baseMs, maxMs) && Runs(env, n, baseMs, maxMs)
    && match env(n).result
       case Continue => outcome == Success
       case ShortCircuit => outcome == Shortened
       case Error(retryable) => outcome == StageError && (retryable ==> n == maxRetries)
  }

  /** Attempt `n` was not executed any more. */
  ghost predicate EndedBefore(outcome: Outcome, n: nat, pauses: nat, maxRetries: nat, env: nat -> Attempt,
                              baseMs: nat, maxMs: nat)
  {
    && n <= maxRetries && FailedUpTo(env, n, baseMs, maxMs)
    && if NoTimeToPause(env, n, baseMs, maxMs) then outcome == DeadlineExceeded && pauses == n - 1
       else if env(n).expired then outcome == DeadlineExceeded && pauses == n
       else outcome == CircuitOpen && env(n).circuitOpen && pauses == n
  }

  ghost predicate EndedBy(outcome: Outcome, executions: nat, pauses: nat, maxRetries: nat, env: nat -> Attempt,
                          baseMs: nat, maxMs: nat)
  {
    || EndedBefore(outcome, executions, pauses, maxRetries, env, baseMs, maxMs)
    || (executions > 0 && pauses == executions - 1 && EndedAt(outcome, executions - 1, maxRetries, env, baseMs, maxMs))
  }

  /** The pause before attempt `n`: the backoff with its jitter, shorter than the time left when it starts. */
  ghost predicate PausedBefore(n: nat, nanos: nat, env: nat -> Attempt, baseMs: nat, maxMs: nat) {
    && nanos == (Backoff(n, baseMs, maxMs) + env(n).jitterMs) * NANOS_PER_MS
    && Backoff(n, baseMs, maxMs) * NANOS_PER_MS < env(n).remaining && nanos < env(n).remainingAgain
  }

  /** A pause is at least the backoff, in nanoseconds, and at most a fifth longer. */
  lemma PauseIsBackoffAndAFifth(n: nat, nanos: nat, env: nat -> Attempt, baseMs: nat, maxMs: nat)
    requires n >= 1 && PlausibleJitter(env, baseMs, maxMs) && PausedBefore(n, nanos, env, baseMs, maxMs)
    requires maxMs <= U64_MAX
    ensures var delay := Min(baseMs * Pow(5, n - 1), maxMs);
            && nanos == (delay + env(n).jitterMs) * 1_000_000
            && delay * 1_000_000 <= nanos && 5 * nanos <= 6 * (delay * 1_000_000)
  {
    BackoffIsExact(n, baseMs, maxMs);
  }

  /**
  `execute_with_retry`. At most one execution more than the smaller retry limit; every pause is shorter than the
  time left when it starts; the outcome and the number of executions are decided by the first attempt that
  does not end in a retryable error.
  */
  method ExecuteWithRetry(requestRetries: nat, configRetries: nat, baseMs: nat, maxMs: nat, env: nat -> Attempt)
    returns (outcome: Outcome, executions: nat, pauses: seq<nat>)
    ensures executions <= Min(requestRetries, configRetries) + 1
    ensures EndedBy(outcome, executions, |pauses|, Min(requestRetries, configRetries), env, baseMs, maxMs)
    ensures forall i :: 0 <= i < |pauses| ==> PausedBefore(i + 1, pauses[i], env, baseMs, maxMs)
  {
    var maxRetries := Min(requestRetries, configRetries);
    var attempt: nat := 0;
    executions, pauses := 0, [];
    while true
      invariant attempt <= maxRetries && executions == attempt
      invariant |pauses| == (if attempt == 0 then 0 else attempt - 1)
      invariant FailedUpTo(env, executions, baseMs, maxMs)
      invariant forall i :: 0 <= i < |pauses| ==> PausedBefore(i + 1, pauses[i], env, baseMs, maxMs)
      decreases maxRetries - attempt
    {
      var now := env(attempt);
      if attempt > 0 {
        var delayMs := Backoff(attempt, baseMs, maxMs);
        if now.remaining <= delayMs * NANOS_PER_MS {
          return DeadlineExceeded, executions, pauses;
        }
        var actual := (delayMs + now.jitterMs) * NANOS_PER_MS;
        if now.remainingAgain <= actual {
          return DeadlineExceeded, executions, pauses;
        }
        pauses := pauses + [actual];
      }
      if now.expired {
        return DeadlineExceeded, executions, pauses;
      }
      if now.circuitOpen {
        return CircuitOpen, executions, pauses;
      }
      executions := executions + 1;
      match now.result {
        case Continue => return Success, executions, pauses;
        case ShortCircuit => return Shortened, executions, pauses;
        case Error(retryable) =>
          if !retryable || attempt >= maxRetries {
            return StageError, executions, pauses;
          }
      }
      attempt := attempt + 1;
    }
  }

  /** The time left is used up by the backoff before attempt `n`, with its jitter or without. */
  ghost predicate TooLate(env: nat -> Attempt, n: nat, baseMs: nat, maxMs: nat) {
    n > 0
    && var delay := Min(baseMs * Pow(5, n - 1), maxMs);
    env(n).remaining <= delay * 1_000_000 || env(n).remainingAgain <= (delay + env(n).jitterMs) * 1_000_000
  }

  /** What each outcome means; every attempt before it was in time, found the circuit closed, and may be retried. */
  lemma EndMeans(outcome: Outcome, executions: nat, pauses: nat, maxRetries: nat, env: nat -> Attempt, baseMs: nat,
                 maxMs: nat)
    requires EndedBy(outcome, executions, pauses, maxRetries, env, baseMs, maxMs) && maxMs <= U64_MAX
    ensures forall k :: 0 <= k < executions ==>
              && !TooLate(env, k, baseMs, maxMs) && !env(k).expired && !env(k).circuitOpen
              && (k < executions - 1 ==> env(k).result == Error(true))
    ensures outcome == DeadlineExceeded ==> TooLate(env, executions, baseMs, maxMs) || env(executions).expired
    ensures outcome == CircuitOpen ==> env(executions).circuitOpen
    ensures outcome.Success? || outcome.Shortened? || outcome.StageError? ==>
              && executions > 0
              && match env(executions - 1).result
                 case Continue => outcome == Success
                 case ShortCircuit => outcome == Shortened
                 case Error(_) => outcome == StageError
    ensures outcome == StageError && env(executions - 1).result == Error(true) ==> executions == maxRetries + 1
  {
    forall k | 0 <= k <= executions ensures TooLate(env, k, baseMs, maxMs) <==> NoTimeToPause(env, k, baseMs, maxMs) {
      if k > 0 { BackoffIsExact(k, baseMs, maxMs); }
    }
  }

  /** What is met decides how the loop ends: how often it executes, how often it pauses, and with which outcome. */
  lemma EndIsDetermined(o1: Outcome, e1: nat, p1: nat, o2: Outcome, e2: nat, p2: nat, maxRetries: nat,
                        env: nat -> Attempt, baseMs: nat, maxMs: nat)
    requires EndedBy(o1, e1, p1, maxRetries, env, baseMs, maxMs) && e1 <= maxRetries + 1
    requires EndedBy(o2, e2, p2, maxRetries, env, baseMs, maxMs) && e2 <= maxRetries + 1
    ensures o1 == o2 && e1 == e2 && p1 == p2
  {}
}
