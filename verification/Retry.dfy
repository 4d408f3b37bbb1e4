/**
  The retry loops: serve's publisher and the relay share one shape, the OpenClaw
  adapter has another; all three share the capped exponential backoff.
 */
module Retry {
  import opened Kafka
  import opened Arithmetic

  const MAX_EXPONENT := 31

  function Pow2(n: nat): (p: nat)
    ensures p >= 1
  {
    if n == 0 then 1 else 2 * Pow2(n - 1)
  }

  function SaturatingDecrement(n: U32): U32 { if n == 0 then n else n - 1 }

  function SaturatingMul(a: U64, b: nat): U64 {
    if a * b > U64_MAX then U64_MAX else (assert a * b >= 0; a * b)
  }

  /** `retry_backoff_ms` and `retry_backoff_seconds`, in 64-bit saturating arithmetic. */
  function Backoff(base: U64, cap: U64, attemptIndex: nat): U64 {
    var exponent := Min(attemptIndex, MAX_EXPONENT);
    Min(SaturatingMul(base, Pow2(exponent)), cap)
  }

  /** Saturation is invisible: the result is the capped product over unbounded integers. */
  lemma {:induction false} BackoffExact(base: U64, cap: U64, attemptIndex: nat)
    ensures Backoff(base, cap, attemptIndex) == Min(cap, base * Pow2(Min(attemptIndex, MAX_EXPONENT)))
  {}

  lemma {:induction false} Pow2Monotone(m: nat, n: nat)
    requires m <= n
    ensures Pow2(m) <= Pow2(n)
    decreases n
  {
    if m < n {
      Pow2Monotone(m, n - 1);
    }
  }

  lemma {:induction false} ProductMonotone(a: nat, m: nat, n: nat)
    requires m <= n
    ensures a * m <= a * n
  {}

  /** Later retries never wait less. */
  lemma {:induction false} BackoffMonotone(base: U64, cap: U64, i: nat, j: nat)
    requires i <= j
    ensures Backoff(base, cap, i) <= Backoff(base, cap, j)
  {
    var m, n := Min(i, MAX_EXPONENT), Min(j, MAX_EXPONENT);
    Pow2Monotone(m, n);
    ProductMonotone(base, Pow2(m), Pow2(n));
  }

  /** The time slept before the first `n` retries. */
  function TotalSleep(base: U64, cap: U64, n: nat): nat {
    if n == 0 then 0 else TotalSleep(base, cap, n - 1) + Backoff(base, cap, n - 1)
  }

  lemma {:induction false} SleepUnderCap(base: U64, cap: U64, n: nat)
    ensures TotalSleep(base, cap, n) <= n * cap
  {
    if n > 0 {
      SleepUnderCap(base, cap, n - 1);
      OneMoreCap(TotalSleep(base, cap, n - 1), Backoff(base, cap, n - 1), n, cap);
    }
  }

  lemma {:induction false} OneMoreCap(total: nat, wait: nat, n: nat, cap: nat)
    requires n > 0 && total <= (n - 1) * cap && wait <= cap
    ensures total + wait <= n * cap
  {}

  lemma {:induction false} SleepUnderGeometricSum(base: U64, cap: U64, n: nat)
    ensures TotalSleep(base, cap, n) <= base * (Pow2(n) - 1)
  {
    if n > 0 {
      SleepUnderGeometricSum(base, cap, n - 1);
      BackoffUnderPower(base, cap, n - 1);
      Doubling(base, Pow2(n - 1));
    }
  }

  lemma {:induction false} BackoffUnderPower(base: U64, cap: U64, i: nat)
    ensures Backoff(base, cap, i) <= base * Pow2(i)
  {
    Pow2Monotone(Min(i, MAX_EXPONENT), i);
    ProductMonotone(base, Pow2(Min(i, MAX_EXPONENT)), Pow2(i));
  }

  lemma {:induction false} Doubling(a: int, p: int)
    ensures a * (p - 1) + a * p == a * (2 * p - 1)
  {}

  /** The total is bounded both by the cap and by the geometric sum. */
  lemma {:induction false} TotalSleepBound(base: U64, cap: U64, n: nat)
    ensures TotalSleep(base, cap, n) <= Min(n * cap, base * (Pow2(n) - 1))
  {
    SleepUnderCap(base, cap, n);
    SleepUnderGeometricSum(base, cap, n);
  }

  // ----- Publish until acknowledged -----

  /** The world's answer to send number `k`; sends beyond the list fail without a trace. */
  function Reply(outcomes: seq<SendOutcome>, k: nat): SendOutcome {
    if k < |outcomes| then outcomes[k] else Unacked(false)
  }

  /** The number of sends that do not succeed before the first acknowledgement, at most `limit`. */
  function Failures(outcomes: seq<SendOutcome>, limit: nat): (k: nat)
    ensures k <= limit
    ensures forall j :: 0 <= j < k ==> !Reply(outcomes, j).Acked?
    ensures k < limit ==> Reply(outcomes, k).Acked?
  {
    if limit == 0 then 0
    else
      var k := Failures(outcomes, limit - 1);
      if k < limit - 1 || Reply(outcomes, k).Acked? then k else limit
  }

  /** The number of sends a publish makes: one more than its failures, within its budget. */
  function Sends(maxRetries: U32, outcomes: seq<SendOutcome>): (n: nat)
    ensures 1 <= n <= Max(1, maxRetries)
  {
    Min(Failures(outcomes, Max(1, maxRetries)) + 1, Max(1, maxRetries))
  }

  /** A publish succeeds exactly when one of its allowed sends is acknowledged. */
  predicate Succeeds(maxRetries: U32, outcomes: seq<SendOutcome>) {
    Failures(outcomes, Max(1, maxRetries)) < Max(1, maxRetries)
  }

  /**
    The loop of `publish` and `publish_with_retry`. It stops, it sends between once and
    `max(1, maxRetries)` times, and it sleeps between consecutive sends only.
   */
  method PublishWithRetry(maxRetries: U32, base: U64, cap: U64, outcomes: seq<SendOutcome>)
    returns (ok: bool, sends: nat, slept: nat)
    ensures ok <==> exists k :: 0 <= k < Max(1, maxRetries) && Reply(outcomes, k).Acked?
    ensures ok == Succeeds(maxRetries, outcomes) && sends == Sends(maxRetries, outcomes)
    ensures ok ==> Reply(outcomes, sends - 1).Acked?
    ensures slept == TotalSleep(base, cap, sends - 1)
  {
    var attempt: U32 := 0;
    sends, slept := 0, 0;
    while true
      invariant attempt == sends && sends < Max(1, maxRetries)
      invariant forall j :: 0 <= j < sends ==> !Reply(outcomes, j).Acked?
      invariant slept == TotalSleep(base, cap, sends)
      decreases Max(1, maxRetries) - sends
    {
      var reply := Reply(outcomes, sends);
      sends := sends + 1;
      if reply.Acked? {
        return true, sends, slept;
      }
      attempt := SaturatingIncrement(attempt);
      if attempt >= maxRetries {
        return false, sends, slept;
      }
      slept := slept + Backoff(base, cap, SaturatingDecrement(attempt));
    }
  }

  // ----- The OpenClaw adapter -----

  datatype ForwardResult = Forwarded | Permanent | Retryable

  function ForwardReply(results: seq<ForwardResult>, k: nat): ForwardResult {
    if k < |results| then results[k] else Retryable
  }

  /** At most `maxRetries` posts, none after the first answer that is not retryable. */
  method ForwardWithRetry(maxRetries: U32, base: U64, cap: U64, results: seq<ForwardResult>)
    returns (ok: bool, posts: nat, slept: nat)
    ensures posts <= maxRetries && (maxRetries > 0 ==> posts > 0)
    ensures forall k :: 0 <= k < posts - 1 ==> ForwardReply(results, k) == Retryable
    ensures posts < maxRetries ==> ForwardReply(results, posts - 1) != Retryable
    ensures ok <==> posts > 0 && ForwardReply(results, posts - 1) == Forwarded
    ensures slept == TotalSleep(base, cap, Max(0, posts - 1))
  {
    posts, slept := 0, 0;
    for attempt := 1 to maxRetries + 1
      invariant posts == attempt - 1
      invariant forall k :: 0 <= k < posts ==> ForwardReply(results, k) == Retryable
      invariant slept == TotalSleep(base, cap, posts)
      invariant maxRetries > 0 ==> attempt <= maxRetries
    {
      var reply := ForwardReply(results, posts);
      posts := posts + 1;
      match reply {
        case Forwarded =>
          return true, posts, slept;
        case Permanent =>
          return false, posts, slept;
        case Retryable =>
          if attempt >= maxRetries {
            return false, posts, slept;
          }
          slept := slept + Backoff(base, cap, attempt - 1);
      }
    }
    return false, posts, slept;
  }

  lemma {:induction false} SleepMonotone(base: U64, cap: U64, m: nat, n: nat)
    requires m <= n
    ensures TotalSleep(base, cap, m) <= TotalSleep(base, cap, n)
    decreases n
  {
    if m < n {
      SleepMonotone(base, cap, m, n - 1);
    }
  }

  /** The longest either loop can sleep: `retries` is one less than its number of attempts. */
  lemma {:induction false} RetrySleepBound(base: U64, cap: U64, retries: nat, budget: nat)
    requires retries <= budget
    ensures TotalSleep(base, cap, retries) <= Min(budget * cap, base * (Pow2(budget) - 1))
  {
    SleepMonotone(base, cap, retries, budget);
    TotalSleepBound(base, cap, budget);
  }

  // ----- The delays themselves -----

  /** The first delay is the base, each further one doubles up to the thirty-second, all within the cap. */
  lemma {:induction false} BackoffDoubles(base: U64, cap: U64, i: nat)
    ensures Backoff(base, cap, 0) == Min(base, cap)
    ensures i < 31 ==> Backoff(base, cap, i + 1) == Min(2 * Backoff(base, cap, i), cap)
    ensures i >= 31 ==> Backoff(base, cap, i + 1) == Backoff(base, cap, i)
  {
    BackoffExact(base, cap, 0);
    BackoffExact(base, cap, i);
    BackoffExact(base, cap, i + 1);
    if i < 31 {
      Twice(base, Pow2(i));
    }
  }

  lemma {:induction false} Twice(base: int, p: int)
    ensures base * (2 * p) == 2 * (base * p)
  {}

  /** As long as the cap is not reached the delays sum up to the geometric series; from the cap on they are the cap. */
  lemma {:induction false} TotalSleepExact(base: U64, cap: U64, n: nat)
    requires n <= 32 && (base >= cap || n == 0 || base * Pow2(n - 1) <= cap)
    ensures base >= cap ==> TotalSleep(base, cap, n) == n * cap
    ensures base < cap ==> TotalSleep(base, cap, n) == base * (Pow2(n) - 1)
  {
    if n > 0 {
      var i := n - 1;
      if n > 1 && base < cap {
        ProductMonotone(base, Pow2(n - 2), Pow2(n - 1));
      }
      TotalSleepExact(base, cap, i);
      BackoffExact(base, cap, i);
      if base >= cap {
        ProductMonotone(base, 1, Pow2(i));
        assert n * cap == i * cap + cap;
      } else {
        Doubling(base, Pow2(i));
      }
    }
  }
}
