/** Exponential backoff as the engine computes it in floating point:
    `internal/reset/engine.go`, `backoffDuration` and `transientBackoff`.

    A base below 2^53 ns and a power of two multiply exactly in a float64, so the
    product is an integer here. Converting a product of 2^63 or more to an int64 has
    no defined result in Go: `converted` stands for whatever the platform returns. */
module Backoff {
  import opened Basics
  import opened Records

  const INT64_LIMIT: int := 0x8000_0000_0000_0000
  const LONGEST_BACKOFF: Time := 6 * HOUR
  const MINIMUM_FAILURE_BACKOFF: Time := 30 * MINUTE
  const LONGEST_CLEAR_RETRY: Time := 30 * MINUTE

  function Pow2(n: nat): nat {
    if n == 0 then 1 else 2 * Pow2(n - 1)
  }

  function Product(level: int, base: Time): int {
    base * Pow2(Max(level, 1) - 1)
  }

  function Duration(level: int, base: Time, maximum: Time, jitter: Time, converted: Time): Time {
    var product := Product(level, base);
    var delay := if product < INT64_LIMIT then product else converted;
    (if delay > maximum then maximum else delay) + jitter
  }

  // `retryAfter` is the Retry-After of an HTTP status error, absent for any other cause.
  function Transient(retryAfter: Option<Time>, level: int, base: Time, jitter: Time, converted: Time): Time {
    var delay := Duration(level, Max(base, MINUTE), LONGEST_BACKOFF, jitter, converted);
    if retryAfter.Some? && retryAfter.value > delay then retryAfter.value else delay
  }

  function LogicalBase(failureBackoff: Time): Time {
    Max(failureBackoff, MINIMUM_FAILURE_BACKOFF)
  }

  predicate JitterOf(base: Time, jitter: Time) {
    0 <= jitter <= Max(base, MINUTE) / 5
  }

  predicate IsInt64(x: int) {
    -INT64_LIMIT <= x < INT64_LIMIT
  }

  // The intended law holds on every platform exactly when the product fits an int64.
  lemma DurationExact(level: int, base: Time, maximum: Time, jitter: Time)
    requires 0 < base && 0 <= maximum
    ensures (forall converted | IsInt64(converted) ::
               Duration(level, base, maximum, jitter, converted) == Min(Product(level, base), maximum) + jitter)
            <==> Product(level, base) < INT64_LIMIT
  {
    if Product(level, base) >= INT64_LIMIT {
      assert IsInt64(-INT64_LIMIT);
      var wrong := Duration(level, base, maximum, jitter, -INT64_LIMIT);
      assert wrong == -INT64_LIMIT + jitter;
      assert Min(Product(level, base), maximum) >= 0;
    }
  }

  lemma {:induction false} Pow2Monotone(m: nat, n: nat)
    requires m <= n
    ensures 0 < Pow2(m) <= Pow2(n)
    decreases n
  {
    if m < n {
      Pow2Monotone(m, n - 1);
    } else if m > 0 {
      Pow2Monotone(m - 1, m - 1);
    }
  }

  lemma ProductMonotone(low: int, high: int, base: Time)
    requires low <= high && 0 < base
    ensures base <= Product(low, base) <= Product(high, base)
  {
    var m, n := Max(low, 1) - 1, Max(high, 1) - 1;
    Pow2Monotone(0, m);
    Pow2Monotone(m, n);
    assert base * Pow2(0) <= base * Pow2(m) <= base * Pow2(n);
  }

  lemma DurationMonotone(low: int, high: int, base: Time, maximum: Time, c: Time, d: Time)
    requires low <= high && 0 < base && Product(high, base) < INT64_LIMIT
    ensures Duration(low, base, maximum, 0, c) <= Duration(high, base, maximum, 0, d)
  {
    ProductMonotone(low, high, base);
  }

  lemma TransientAtLeastRetryAfter(retryAfter: Time, level: int, base: Time, jitter: Time, converted: Time)
    ensures Transient(Some(retryAfter), level, base, jitter, converted) >= retryAfter
    ensures Transient(Some(retryAfter), level, base, jitter, converted) >= Transient(None, level, base, jitter, converted)
  {
  }

  // A transient failure always waits one base, at most six hours, and its jitter: it is recorded at level one,
  // so the delay does not grow when failures repeat.
  lemma FirstLevelDelay(base: Time, jitter: Time, converted: Time)
    requires MINUTE <= base <= 7 * 24 * HOUR
    ensures Transient(None, 1, base, jitter, converted) == Min(base, LONGEST_BACKOFF) + jitter
  {
    assert Pow2(0) == 1;
    assert Product(1, base) == base;
  }

  // Every logical failure waits at least half an hour, whatever is configured.
  lemma LogicalFailureDelay(failureBackoff: Time, jitter: Time, converted: Time)
    requires failureBackoff <= 7 * 24 * HOUR && 0 <= jitter
    ensures Transient(None, 1, LogicalBase(failureBackoff), jitter, converted) >= MINIMUM_FAILURE_BACKOFF
  {
    assert Pow2(0) == 1;
    assert Product(1, LogicalBase(failureBackoff)) == LogicalBase(failureBackoff);
  }

  // The attempt counter of a local clear is never capped: its retry delay is exact up to
  // level 28 and undefined from level 29 on, where it can lie in the past.
  lemma ClearRetryDomain(level: int)
    ensures Product(level, MINUTE) < INT64_LIMIT <==> level <= 28
    ensures level >= 29 ==> Duration(level, MINUTE, LONGEST_CLEAR_RETRY, 0, -INT64_LIMIT) < 0
  {
    assert Pow2(27) == 0x800_0000 by {
      assert Pow2(9) == 0x200;
      assert Pow2(18) == 0x4_0000;
    }
    assert Pow2(28) == 2 * Pow2(27);
    if level <= 28 {
      ProductMonotone(level, 28, MINUTE);
    } else {
      ProductMonotone(29, level, MINUTE);
    }
  }
}
