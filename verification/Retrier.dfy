/** Retrying a callback with a doubling delay between the attempts. */
module Retrier {
  import opened Options

  function Pow2(k: nat): nat {
    if k == 0 then 1 else 2 * Pow2(k - 1)
  }

  function Most(n: int): int {
    if n < 1 then 1 else n
  }

  /** The delay after the attempt `i` failed. */
  function Backoff(minBackoffMs: nat, i: nat): nat {
    minBackoffMs * Pow2(i)
  }

  /** Makes one attempt and, unless the budget or the backoff is used up, sleeps and starts over with one retry less
      and twice the delay. `callback` tells what each attempt returns, None for a rejection. */
  method Retry<T>(callback: nat -> Option<T>, attempt: nat, maxRetryCount: int, minBackoffMs: nat, maxBackoffMs: int)
    returns (r: Option<T>, calls: nat, slept: nat)
    ensures 1 <= calls <= Most(maxRetryCount)
    ensures r == callback(attempt + calls - 1) && forall k :: attempt <= k < attempt + calls - 1 ==> callback(k).None?
    ensures forall i :: 0 <= i < calls - 1 ==> Backoff(minBackoffMs, i) < maxBackoffMs
    ensures r.None? ==> maxRetryCount - (calls - 1) <= 1 || Backoff(minBackoffMs, calls - 1) >= maxBackoffMs
    ensures slept + minBackoffMs == Backoff(minBackoffMs, calls - 1)
    ensures maxBackoffMs > 0 ==> slept < 2 * maxBackoffMs
    decreases Most(maxRetryCount)
  {
    Doubled(minBackoffMs, 0);
    r, calls, slept := callback(attempt), 1, 0;
    if r.Some? || maxRetryCount <= 1 || minBackoffMs >= maxBackoffMs {
      return;
    }
    var more, sleptAfter;
    r, more, sleptAfter := Retry(callback, attempt + 1, maxRetryCount - 1, minBackoffMs * 2, maxBackoffMs);
    calls, slept := more + 1, minBackoffMs + sleptAfter;
    hide Backoff, Pow2;
    forall i | 0 <= i < calls - 1
      ensures Backoff(minBackoffMs, i) < maxBackoffMs
    {
      if i > 0 {
        Doubled(minBackoffMs, i - 1);
      }
    }
    Doubled(minBackoffMs, more - 1);
    SleptInTime(minBackoffMs, calls, maxBackoffMs);
  }

  lemma Doubled(m: nat, k: nat)
    ensures Backoff(m, k + 1) == Backoff(m * 2, k) == 2 * Backoff(m, k)
    ensures Backoff(m, 0) == m
  {
    var p := Pow2(k);
    assert m * 2 * p == m * (2 * p) == 2 * (m * p);
  }

  /** The last delay was below the limit, so the one after it is below twice the limit. */
  lemma SleptInTime(m: nat, calls: nat, max: int)
    requires calls >= 2 && Backoff(m, calls - 2) < max
    ensures Backoff(m, calls - 1) < 2 * max
  {
    Doubled(m, calls - 2);
  }
}
