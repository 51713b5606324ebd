/** Retry loops: the watchdog's restart chain and the restore on boot. */
module Restart {
  import opened Numbers

  // ---- the watchdog's delay -----------------------------------------------------

  const MILLISECOND: int := 1_000_000
  const MAX_DELAY: int := 30_000 * MILLISECOND

  function ClampBase(baseMs: int): (ms: int)
    ensures 100 <= ms <= 30_000
  {
    if baseMs < 100 then 100 else if baseMs > 30_000 then 30_000 else baseMs
  }

  lemma Pow2Grows(a: nat, b: nat)
    requires a <= b
    ensures Pow2(a) <= Pow2(b)
    decreases b - a
  {
    if a < b { Pow2Grows(a, b - 1); }
  }

  lemma DoublePow(d: int, steps: nat)
    requires steps > 0
    ensures 2 * d * Pow2(steps - 1) == d * Pow2(steps)
  {
  }

  /** The delay before an attempt, in closed form. */
  function RestartDelay(baseMs: int, attempt: nat): int
    requires attempt >= 1
  {
    MinInt(MAX_DELAY, ClampBase(baseMs) * MILLISECOND * Pow2(attempt - 1))
  }

  /** Doubling further does not bring a capped delay below the cap. */
  lemma CappedStays(base: int, i: nat, attempt: nat)
    requires base > 0 && 1 <= i <= attempt && base * Pow2(i - 1) >= MAX_DELAY
    ensures MinInt(MAX_DELAY, base * Pow2(attempt - 1)) == MAX_DELAY
  {
    Pow2Grows(i - 1, attempt - 1);
    TimesGrows(base, Pow2(i - 1), Pow2(attempt - 1));
  }

  lemma TimesGrows(base: int, a: int, b: int)
    requires base > 0 && a <= b
    ensures base * a <= base * b
  {
  }

  /** The delay that scheduleAutoRestartLocked computes by doubling: the setting, kept
      between 100 ms and 30 s and doubled with each further attempt, and never more than
      30 s. In nanoseconds. */
  method AutoRestartDelay(baseMs: int, attempt: nat) returns (delay: int)
    requires attempt >= 1
    ensures delay == RestartDelay(baseMs, attempt)
    ensures var ms := if baseMs < 100 then 100 else if baseMs > 30_000 then 30_000 else baseMs;
            delay == MinInt(30_000_000_000, ms * 1_000_000 * Pow2(attempt - 1))
  {
    var base := ClampBase(baseMs) * MILLISECOND;
    delay := base;
    var i := 1;
    while i < attempt
      invariant 1 <= i <= attempt
      invariant delay == base * Pow2(i - 1) <= MAX_DELAY
    {
      DoublePow(base, i);
      delay := delay * 2;
      i := i + 1;
      if delay >= MAX_DELAY {
        CappedStays(base, i, attempt);
        return MAX_DELAY;
      }
    }
  }

  // ---- restore on boot -----------------------------------------------------------

  predicate IsInt64(x: int) { -TWO_63 <= x < TWO_63 }

  function PositiveOr(x: int, fallback: int): int { if x <= 0 then fallback else x }

  /** The delay after a number of doublings, with the early return at `max`. */
  function Doubled(delay: int, steps: nat, max: int): int
    decreases steps
  {
    if steps == 0 then MinInt(delay, max)
    else
      var d := Wrap(2 * delay);
      if d >= max then max else Doubled(d, steps - 1, max)
  }

  /** bootRestoreRetryDelay */
  method BootRetryDelay(attempt: int, base: int, max: int) returns (delay: int)
    requires IsInt64(base) && IsInt64(max)
    ensures var (b, m) := (PositiveOr(base, 1000 * MILLISECOND), PositiveOr(max, MAX_DELAY));
            delay == Doubled(b, if attempt <= 1 then 0 else attempt - 1, m)
  {
    var b, m := PositiveOr(base, 1000 * MILLISECOND), PositiveOr(max, MAX_DELAY);
    delay := b;
    var step := 1;
    ghost var steps := if attempt <= 1 then 0 else attempt - 1;
    while step < attempt
      invariant 1 <= step <= steps + 1
      invariant Doubled(delay, steps + 1 - step, m) == Doubled(b, steps, m)
      decreases attempt - step
    {
      delay := Wrap(delay * 2);
      if delay >= m { return m; }
      step := step + 1;
    }
    if delay > m { return m; }
  }

  /** Doubling from d reaches max before it passes 2^62, the last value whose
      double still fits. */
  predicate ReachesInTime(d: int, max: int)
    requires d > 0
    decreases TWO_62 - d
  {
    d < TWO_62 && (2 * d >= max || ReachesInTime(2 * d, max))
  }

  lemma TimesPow(d: int, n: nat)
    requires d > 0
    ensures d * Pow2(n) >= d
  {
    assert Pow2(n) >= 1;
  }

  lemma {:induction false} NoWrapClosedForm(d: int, steps: nat, max: int)
    requires 0 < d && 0 < max && ReachesInTime(d, max)
    ensures Doubled(d, steps, max) == MinInt(max, d * Pow2(steps))
    decreases steps
  {
    if steps > 0 {
      DoublePow(d, steps);
      assert Wrap(2 * d) == 2 * d;
      if 2 * d >= max {
        TimesPow(2 * d, steps - 1);
      } else {
        NoWrapClosedForm(2 * d, steps - 1, max);
      }
    }
  }

  lemma {:induction false} WrapBreaksClosedForm(d: int, max: int) returns (steps: nat)
    requires 0 < d < TWO_63 && 0 < max && !ReachesInTime(d, max)
    ensures Doubled(d, steps, max) != MinInt(max, d * Pow2(steps))
    decreases TWO_62 - d
  {
    if d >= TWO_62 {
      steps := 1;
      assert Wrap(2 * d) == 2 * d - TWO_64 < 0;
      assert Pow2(1) == 2;
      assert Doubled(d, 1, max) == Doubled(Wrap(2 * d), 0, max) == Wrap(2 * d);
    } else {
      steps := WrapBreaksClosedForm(2 * d, max);
      steps := steps + 1;
      DoublePow(d, steps);
      assert Wrap(2 * d) == 2 * d;
    }
  }

  /** The delays are min(max, base doubled per attempt) for every attempt exactly
      when doubling the base reaches the maximum before it overflows. */
  lemma BootDelayClosedFormIff(base: int, max: int)
    requires 0 < base < TWO_63 && 0 < max < TWO_63
    ensures (forall steps: nat :: Doubled(base, steps, max) == MinInt(max, base * Pow2(steps)))
            <==> ReachesInTime(base, max)
  {
    if ReachesInTime(base, max) {
      forall steps: nat
        ensures Doubled(base, steps, max) == MinInt(max, base * Pow2(steps))
      {
        NoWrapClosedForm(base, steps, max);
      }
    } else {
      var steps := WrapBreaksClosedForm(base, max);
    }
  }

  /** The service's own settings, two seconds doubling up to thirty, never overflow. */
  lemma DefaultBootDelays(steps: nat)
    ensures Doubled(2_000 * MILLISECOND, steps, MAX_DELAY) == MinInt(MAX_DELAY, 2_000 * MILLISECOND * Pow2(steps))
  {
    assert ReachesInTime(2_000 * MILLISECOND * 8, MAX_DELAY);
    assert ReachesInTime(2_000 * MILLISECOND * 4, MAX_DELAY);
    NoWrapClosedForm(2_000 * MILLISECOND, steps, MAX_DELAY);
  }

  /** restoreCoreOnBoot after the network wait: `ready` answers each start and
      `cancelled` tells, before a start and during the wait after it, whether the
      context was cancelled. */
  method RestoreCoreOnBoot(maxStartAttempts: int, base: int, max: int, ready: nat -> bool,
                           cancelledBefore: nat -> bool, cancelledDuring: nat -> bool)
    returns (starts: nat, delays: seq<int>)
    requires IsInt64(base) && IsInt64(max)
    ensures starts <= PositiveOr(maxStartAttempts, 1)
    ensures forall k :: 1 <= k < starts ==> !ready(k) && !cancelledDuring(k)
    ensures forall k :: 1 <= k <= starts ==> !cancelledBefore(k)
    ensures |delays| == if starts > 0 && (ready(starts) || starts == PositiveOr(maxStartAttempts, 1)) then starts - 1
                        else starts
    ensures forall k :: 0 <= k < |delays| ==>
                          delays[k] == Doubled(PositiveOr(base, 1000 * MILLISECOND), k, PositiveOr(max, MAX_DELAY))
    ensures (starts > 0 && ready(starts)) || starts == PositiveOr(maxStartAttempts, 1)
            || cancelledBefore(starts + 1) || (starts > 0 && cancelledDuring(starts))
  {
    var maxAttempts := PositiveOr(maxStartAttempts, 1);
    starts, delays := 0, [];
    var attempt := 1;
    while attempt <= maxAttempts
      invariant 1 <= attempt <= maxAttempts && starts == attempt - 1 == |delays|
      invariant forall k :: 1 <= k <= starts ==> !ready(k) && !cancelledDuring(k) && !cancelledBefore(k)
      invariant forall k :: 0 <= k < |delays| ==>
                              delays[k] == Doubled(PositiveOr(base, 1000 * MILLISECOND), k, PositiveOr(max, MAX_DELAY))
      decreases maxAttempts - attempt
    {
      if cancelledBefore(attempt) { return; }
      starts := starts + 1;
      if ready(attempt) { return; }
      if attempt == maxAttempts { return; }
      var delay := BootRetryDelay(attempt, base, max);
      delays := delays + [delay];
      if cancelledDuring(attempt) { return; }
      attempt := attempt + 1;
    }
  }

  /** With the default setting of 500 ms: half a second, doubling up to 16 s, then 30 s. */
  lemma DefaultRestartDelays(attempt: nat)
    requires attempt >= 1
    ensures RestartDelay(500, attempt)
            == if attempt <= 6 then 500_000_000 * Pow2(attempt - 1) else 30_000_000_000
  {
    if attempt <= 6 {
      Pow2Grows(attempt - 1, 5);
      assert Pow2(5) == 2 * Pow2(4) == 32;
    } else {
      Pow2Grows(6, attempt - 1);
      assert Pow2(6) == 2 * Pow2(5) == 64;
    }
  }
}
