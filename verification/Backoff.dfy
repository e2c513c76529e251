/** Retry delays on 64-bit integers. */
module Backoff {
  const TWO_62: int := 0x4000_0000_0000_0000
  const TWO_63: int := 0x8000_0000_0000_0000
  const TWO_64: int := 0x1_0000_0000_0000_0000

  type int64 = x: int | -TWO_63 <= x < TWO_63

  /** Two's complement wrap-around. */
  function Wrap(x: int): (w: int64)
    ensures -TWO_63 <= x < TWO_63 ==> w == x
    ensures (w - x) % TWO_64 == 0
  {
    var low := x % TWO_64;
    if low < TWO_63 then low else low - TWO_64
  }

  function Pow2(n: nat): (p: int)
    ensures p >= 1
  {
    if n == 0 then 1 else 2 * Pow2(n - 1)
  }

  /** base * 2^n. */
  function Scaled(base: int, n: nat): (p: int)
    ensures base > 0 ==> p > 0
  {
    if n == 0 then base else 2 * Scaled(base, n - 1)
  }

  lemma {:induction false} ScaledIsPower(base: int, n: nat)
    ensures Scaled(base, n) == base * Pow2(n)
  {
    if n > 0 {
      ScaledIsPower(base, n - 1);
    }
  }

  /** The delay after n passes of the doubling loop, with its early return. */
  function Doubled(base: int64, max: int64, n: nat): int64 {
    if n == 0 then base
    else
      var delay := Doubled(base, max, n - 1);
      if max > 0 && delay >= max then max else Wrap(delay * 2)
  }

  function NextAttemptDelay(attempt: int, base: int64, max: int64): int64 {
    if base <= 0 then 0
    else
      var delay := Doubled(base, max, if attempt < 1 then 0 else attempt - 1);
      if max > 0 && delay > max then max else delay
  }

  /** Once the loop returns the maximum, it would return it in every later pass. */
  lemma {:induction false} StaysAtMax(base: int64, max: int64, m: nat, n: nat)
    requires m <= n && max > 0 && Doubled(base, max, m) >= max
    ensures Doubled(base, max, n) >= max
    ensures m < n ==> Doubled(base, max, n) == max
  {
    if m < n {
      StaysAtMax(base, max, m, n - 1);
    }
  }

  method ComputeDelay(attempt: int, base: int64, max: int64) returns (delay: int64)
    ensures delay == NextAttemptDelay(attempt, base, max)
  {
    if base <= 0 {
      return 0;
    }
    var attempts := attempt;
    if attempts < 1 {
      attempts := 1;
    }
    delay := base;
    var i := 1;
    while i < attempts
      invariant 1 <= i <= attempts
      invariant delay == Doubled(base, max, i - 1)
    {
      if max > 0 && delay >= max {
        StaysAtMax(base, max, i - 1, attempts - 1);
        return max;
      }
      delay := Wrap(delay * 2);
      i := i + 1;
    }
    if max > 0 && delay > max {
      return max;
    }
  }

  function Min(a: int, b: int): int {
    if a <= b then a else b
  }

  lemma {:induction false} DoubledExact(base: int64, max: int64, n: nat)
    requires base > 0 && 0 < max <= TWO_62
    ensures Doubled(base, max, n) == Scaled(base, n) || (Doubled(base, max, n) >= max && Scaled(base, n) >= max)
    ensures Doubled(base, max, n) > 0
  {
    hide Wrap;
    if n > 0 {
      DoubledExact(base, max, n - 1);
    }
  }

  /** The delay is the doubled base, cut at the maximum. */
  ghost predicate Exact(max: int64) {
    forall base: int64, attempt: int :: base > 0 && attempt >= 1 ==>
      NextAttemptDelay(attempt, base, max) == Min(base * Pow2(attempt - 1), max)
  }

  /** With a maximum, the loop never overflows and the delay is exact for every base and attempt, if and only
      if the maximum is at most 2^62. */
  lemma ExactIff(max: int64)
    requires max > 0
    ensures Exact(max) <==> max <= TWO_62
  {
    if max <= TWO_62 {
      forall base: int64, attempt: int | base > 0 && attempt >= 1
        ensures NextAttemptDelay(attempt, base, max) == Min(base * Pow2(attempt - 1), max)
      {
        DoubledExact(base, max, attempt - 1);
        ScaledIsPower(base, attempt - 1);
      }
    } else {
      var base: int64, attempt: int := TWO_62, 2;
      assert Doubled(base, max, 0) == base;
      assert Doubled(base, max, 1) == Wrap(TWO_63) == -TWO_63;
      assert NextAttemptDelay(attempt, base, max) < 0;
      assert Pow2(1) == 2 * Pow2(0) == 2;
      assert Min(base * Pow2(attempt - 1), max) > 0;
    }
  }

  lemma {:induction false} UnboundedScales(base: int64, max: int64, n: nat)
    requires base > 0 && max <= 0
    ensures (Doubled(base, max, n) - Scaled(base, n)) % TWO_64 == 0
    ensures Scaled(base, n) < TWO_63 ==> Doubled(base, max, n) == Scaled(base, n)
  {
    hide Wrap;
    if n > 0 {
      UnboundedScales(base, max, n - 1);
      CongruentDoubles(Doubled(base, max, n - 1), Scaled(base, n - 1), Wrap(Doubled(base, max, n - 1) * 2));
    }
  }

  /** Without a maximum the delay is the doubled base modulo 2^64, which is exact until it leaves 64 bits. */
  lemma UnboundedDelay(attempt: int, base: int64, max: int64)
    requires base > 0 && max <= 0 && attempt >= 1
    ensures var delay, exact := NextAttemptDelay(attempt, base, max), base * Pow2(attempt - 1);
      (delay - exact) % TWO_64 == 0 && (delay == exact <==> exact < TWO_63)
  {
    UnboundedScales(base, max, attempt - 1);
    ScaledIsPower(base, attempt - 1);
  }

  lemma CongruentDoubles(d: int, p: int, w: int)
    requires (d - p) % TWO_64 == 0 && (w - 2 * d) % TWO_64 == 0
    ensures (w - 2 * p) % TWO_64 == 0
  {
    var a, b := (d - p) / TWO_64, (w - 2 * d) / TWO_64;
    assert w - 2 * p == TWO_64 * (2 * a + b);
  }

  /** Go's division truncates; here the delay may be negative. */
  function Half(delay: int64): int64 {
    if delay >= 0 then delay / 2 else -((0 - delay as int) / 2)
  }

  /** A source of random numbers: of n > 0 it makes one in 0..n. */
  type Draw = draw: int -> int | forall n :: n > 0 ==> 0 <= draw(n) < n witness n => 0

  function Jittered(enabled: bool, delay: int64, draw: Draw): int64 {
    if !enabled then delay
    else
      var spread := Half(delay);
      if spread <= 0 then delay
      else
        var extended := Wrap(delay + draw(spread));
        if extended < delay then delay else extended
  }

  /** Jitter never shortens a delay and stays below one and a half of it, also where the sum wraps around;
      delays below 2 are unchanged, and all are without jitter. */
  lemma JitterBounds(enabled: bool, delay: int64, draw: Draw)
    ensures var j := Jittered(enabled, delay, draw);
      && (enabled && delay >= 2 ==> delay <= j < delay + delay / 2)
      && (!enabled || delay < 2 ==> j == delay)
      && (enabled && delay >= 2 && delay + draw(delay / 2) < TWO_63 ==> j == delay + draw(delay / 2))
  {
    if delay >= 2 {
      var spread := Half(delay);
      assert 0 <= draw(spread) < spread;
    }
  }

  /** How a relay waits before the next attempt. */
  datatype Waits = Waits(base: int64, max: int64, jitter: bool, publishTimeout: int64)

  /** Five seconds, in nanoseconds. */
  const UNKNOWN_RETRY_FLOOR: int64 := 5_000_000_000

  function RetryDelay(waits: Waits, attempts: int, draw: Draw): int64 {
    Jittered(waits.jitter, NextAttemptDelay(attempts, waits.base, waits.max), draw)
  }

  /** The delay after an unknown outcome: the broker may still be at work on the publish. */
  function UnknownRetryDelay(waits: Waits, draw: Draw): int64 {
    Jittered(waits.jitter, if waits.publishTimeout > UNKNOWN_RETRY_FLOOR then waits.publishTimeout else UNKNOWN_RETRY_FLOOR, draw)
  }

  /** A retry delay for a positive base lies between the exact delay and one and a half of it, and is exact without jitter. */
  lemma RetryDelayBounds(waits: Waits, attempts: int, draw: Draw)
    requires waits.base > 0 && attempts >= 1 && 0 < waits.max <= TWO_62
    ensures var exact := Min(waits.base * Pow2(attempts - 1), waits.max);
      var delay := RetryDelay(waits, attempts, draw);
      exact <= delay && 2 * delay < 3 * exact + 2 && (!waits.jitter ==> delay == exact)
  {
    ExactIff(waits.max);
    JitterBounds(waits.jitter, NextAttemptDelay(attempts, waits.base, waits.max), draw);
  }

  /** After an unknown outcome a relay waits at least as long as a publish may take, and five seconds. */
  lemma UnknownDelayBounds(waits: Waits, draw: Draw)
    ensures var delay := UnknownRetryDelay(waits, draw);
      && delay >= waits.publishTimeout && delay >= 5_000_000_000
      && (2 * delay < 3 * waits.publishTimeout || 2 * delay < 3 * 5_000_000_000)
      && (!waits.jitter ==> delay == waits.publishTimeout || delay == 5_000_000_000)
  {
    JitterBounds(waits.jitter,
        if waits.publishTimeout > UNKNOWN_RETRY_FLOOR then waits.publishTimeout else UNKNOWN_RETRY_FLOOR, draw);
  }
}
