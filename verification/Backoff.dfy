/** The two capped doubling loops (job retries and outbox retries) on 64-bit durations that wrap around. */
module Backoff {
  import opened Machine

  /** A Go duration, in nanoseconds. */
  type Duration = Int64

  lemma WrapDouble(d: int)
    requires TWO62 <= d < TWO63
    ensures Wrap(2 * d) == 2 * d - TWO64 < 0
  {
    assert (2 * d + TWO63) % TWO64 == 2 * d + TWO63 - TWO64;
  }

  function Min(a: int, b: int): int {
    if a < b then a else b
  }

  /** What both loops are meant to compute for the given attempt, in unbounded arithmetic. */
  function Ideal(base: int, max: int, attempt: int): int
    requires attempt >= 1
  {
    Min(base * Pow2(attempt - 1), max)
  }

  /** The last duration that can still be doubled into: `base` doubled until it reaches 2^62. */
  function Top(base: int): (r: int)
    requires base > 0
    ensures r >= base && r >= TWO62
    decreases if base < TWO62 then TWO62 - base else 0
  {
    if base >= TWO62 then base else Top(2 * base)
  }

  // ---------------------------------------------------------------------------------------------
  // Job retries

  /** `n` further rounds of the job manager's loop, starting from `d`. */
  function JobLoop(d: Duration, max: Duration, n: nat): Duration
    decreases n
  {
    if n == 0 then (if d > max then max else d)
    else
      var e := Wrap(2 * d);
      if e >= max then max else JobLoop(e, max, n - 1)
  }

  function JobDelay(base: Duration, max: Duration, attempt: int): Duration {
    if attempt <= 0 then base else JobLoop(base, max, attempt - 1)
  }

  method RetryDelayFor(base: Duration, max: Duration, attempt: int) returns (delay: Duration)
    ensures delay == JobDelay(base, max, attempt)
    ensures attempt <= 0 ==> delay == base
  {
    if attempt <= 0 {
      return base;
    }
    delay := base;
    var i := 1;
    while i < attempt
      invariant 1 <= i <= attempt
      invariant JobLoop(base, max, attempt - 1) == JobLoop(delay, max, attempt - i)
    {
      delay := Wrap(delay * 2);
      if delay >= max {
        return max;
      }
      i := i + 1;
    }
    if delay > max {
      return max;
    }
  }

  lemma DoubleOnce(d: int, n: nat)
    requires n > 0
    ensures d * Pow2(n) == (2 * d) * Pow2(n - 1)
  {
  }

  lemma AtLeastDouble(d: int, n: nat)
    requires n > 0 && d > 0
    ensures d * Pow2(n) >= 2 * d
  {
    DoubleOnce(d, n);
    assert (2 * d) * Pow2(n - 1) >= 2 * d;
  }

  lemma {:induction false} JobLoopIdeal(d: Duration, max: Duration, n: nat)
    requires 0 < d < TWO62 && 0 < max <= Top(d)
    ensures JobLoop(d, max, n) == Min(d * Pow2(n), max)
    decreases n
  {
    if n > 0 {
      DoubleOnce(d, n);
      AtLeastDouble(d, n);
      if 2 * d < max {
        JobLoopIdeal(2 * d, max, n - 1);
      }
    }
  }

  /** When doubling can run past the machine range before the cap is met, some attempt gets a negative delay. */
  lemma {:induction false} JobLoopOverflows(d: Duration, max: Duration) returns (n: nat)
    requires 0 < d && 0 < max && (d >= TWO62 || max > Top(d))
    ensures n > 0 && JobLoop(d, max, n) < 0
    decreases TWO63 - d
  {
    if d >= TWO62 {
      WrapDouble(d);
      n := 1;
      assert JobLoop(d, max, 1) == JobLoop(Wrap(2 * d), max, 0);
    } else {
      n := JobLoopOverflows(2 * d, max);
      n := n + 1;
    }
  }

  lemma IdealPositive(base: int, max: int, attempt: int)
    requires base > 0 && max > 0 && attempt >= 1
    ensures Ideal(base, max, attempt) > 0
  {
    assert base * Pow2(attempt - 1) > 0;
  }

  /** The job retry delay is the capped exponential for every attempt exactly when the base is below 2^62 and the cap
      is reached before doubling leaves the machine range. */
  lemma JobDelayExactIff(base: Duration, max: Duration)
    requires base > 0 && max > 0
    ensures (forall attempt: int :: attempt >= 1 ==> JobDelay(base, max, attempt) == Ideal(base, max, attempt)) <==>
            (base < TWO62 && max <= Top(base))
  {
    if base < TWO62 && max <= Top(base) {
      forall attempt: int | attempt >= 1 ensures JobDelay(base, max, attempt) == Ideal(base, max, attempt) {
        JobLoopIdeal(base, max, attempt - 1);
      }
    } else {
      var n := JobLoopOverflows(base, max);
      IdealPositive(base, max, n + 1);
      assert JobDelay(base, max, n + 1) != Ideal(base, max, n + 1);
    }
  }

  lemma {:induction false} PowMonotone(a: nat, b: nat)
    requires a <= b
    ensures Pow2(a) <= Pow2(b)
    decreases b - a
  {
    if a < b {
      PowMonotone(a, b - 1);
    }
  }

  /** No job retry delay is longer than a later one. */
  ghost predicate JobDelaysGrow(base: Duration, max: Duration) {
    forall a: int, c: int :: 1 <= a <= c ==> JobDelay(base, max, a) <= JobDelay(base, max, c)
  }

  /** The job retry delay never shrinks with the attempt exactly when it is the capped exponential for every attempt;
      otherwise some later delay is negative. */
  lemma JobDelayMonotoneIff(base: Duration, max: Duration)
    requires base > 0 && max > 0
    ensures JobDelaysGrow(base, max) <==> (base < TWO62 && max <= Top(base))
  {
    hide JobDelay;
    if base < TWO62 && max <= Top(base) {
      forall a: int, c: int | 1 <= a <= c
        ensures JobDelay(base, max, a) <= JobDelay(base, max, c)
      {
        JobDelayGrows(base, max, a, c);
      }
    } else {
      var n := JobDelayShrinks(base, max);
      assert JobDelay(base, max, 1) > JobDelay(base, max, n);
    }
  }

  lemma JobDelayShrinks(base: Duration, max: Duration) returns (n: int)
    requires base > 0 && max > 0 && !(base < TWO62 && max <= Top(base))
    ensures n > 1 && JobDelay(base, max, 1) > JobDelay(base, max, n)
  {
    var k := JobLoopOverflows(base, max);
    n := k + 1;
  }

  lemma JobDelayGrows(base: Duration, max: Duration, a: int, c: int)
    requires 0 < base < TWO62 && 0 < max <= Top(base) && 1 <= a <= c
    ensures 0 < JobDelay(base, max, a) <= JobDelay(base, max, c) <= max
  {
    JobLoopIdeal(base, max, a - 1);
    JobLoopIdeal(base, max, c - 1);
    IdealGrows(base, max, a, c);
    IdealPositive(base, max, a);
  }

  lemma IdealGrows(base: int, max: int, a: int, c: int)
    requires base > 0 && 1 <= a <= c
    ensures Ideal(base, max, a) <= Ideal(base, max, c) <= max
  {
    PowMonotone(a - 1, c - 1);
    MulMonotone(base, Pow2(a - 1), Pow2(c - 1));
  }

  lemma MulMonotone(x: int, a: int, b: int)
    requires x > 0 && a <= b
    ensures x * a <= x * b
  {
  }

  // ---------------------------------------------------------------------------------------------
  // Outbox retries

  datatype Bounds = Bounds(min: Duration, max: Duration)

  /** `NewProcessor` replaces missing bounds and lifts the maximum to the minimum. */
  function NormalizeBounds(min: Duration, max: Duration): (r: Bounds)
    ensures 0 < r.min <= r.max
    ensures 0 < min <= max ==> r == Bounds(min, max)
    ensures r.min == if min > 0 then min else 5 * 1_000_000_000
    ensures max <= 0 && r.min <= 300 * 1_000_000_000 ==> r.max == 300 * 1_000_000_000
    ensures r.min > max > 0 ==> r.max == r.min
  {
    var min' := if min <= 0 then 5_000_000_000 else min;
    var max' := if max <= 0 then 300_000_000_000 else max;
    Bounds(min', if max' < min' then min' else max')
  }

  function OutboxLoop(d: Duration, b: Bounds, n: nat): Duration
    decreases n
  {
    if n == 0 then (if d < b.min then b.min else if d > b.max then b.max else d)
    else
      var e := Wrap(2 * d);
      if e >= b.max then b.max else OutboxLoop(e, b, n - 1)
  }

  function OutboxDelay(b: Bounds, attempt: int): Duration {
    if attempt <= 1 then b.min else OutboxLoop(b.min, b, attempt - 1)
  }

  method RetryBackoff(b: Bounds, attempt: int) returns (backoff: Duration)
    ensures backoff == OutboxDelay(b, attempt)
  {
    if attempt <= 1 {
      return b.min;
    }
    backoff := b.min;
    var i := 1;
    while i < attempt
      invariant 1 <= i <= attempt
      invariant OutboxLoop(b.min, b, attempt - 1) == OutboxLoop(backoff, b, attempt - i)
    {
      backoff := Wrap(backoff * 2);
      if backoff >= b.max {
        return b.max;
      }
      i := i + 1;
    }
    if backoff < b.min {
      return b.min;
    }
    if backoff > b.max {
      return b.max;
    }
  }

  lemma {:induction false} OutboxLoopInBounds(d: Duration, b: Bounds, n: nat)
    requires b.min <= b.max
    ensures b.min <= OutboxLoop(d, b, n) <= b.max
    decreases n
  {
    if n > 0 && Wrap(2 * d) < b.max {
      OutboxLoopInBounds(Wrap(2 * d), b, n - 1);
    }
  }

  /** Whatever options a processor was given, wrap-around included, a failed record is rescheduled between the
      configured minimum and maximum from now. */
  lemma RescheduledInBounds(min: Duration, max: Duration, attempts: int, now: int)
    ensures var b := NormalizeBounds(min, max);
            now + b.min <= now + OutboxDelay(b, attempts + 1) <= now + b.max
  {
    var b := NormalizeBounds(min, max);
    if attempts >= 1 {
      OutboxLoopInBounds(b.min, b, attempts);
    }
  }

  lemma {:induction false} OutboxLoopIdeal(d: Duration, b: Bounds, n: nat)
    requires 0 < b.min <= d < TWO62 && b.min <= b.max <= Top(d)
    ensures OutboxLoop(d, b, n) == Min(d * Pow2(n), b.max)
    decreases n
  {
    if n > 0 {
      DoubleOnce(d, n);
      AtLeastDouble(d, n);
      if 2 * d < b.max {
        OutboxLoopIdeal(2 * d, b, n - 1);
      }
    }
  }

  lemma {:induction false} OutboxLoopOverflows(d: Duration, b: Bounds) returns (n: nat)
    requires 0 < b.min <= d && b.max > Top(d)
    ensures n > 0 && OutboxLoop(d, b, n) == b.min && d * Pow2(n) >= TWO63
    decreases TWO63 - d
  {
    if d >= TWO62 {
      WrapDouble(d);
      n := 1;
      assert OutboxLoop(d, b, 1) == OutboxLoop(Wrap(2 * d), b, 0);
    } else {
      n := OutboxLoopOverflows(2 * d, b);
      n := n + 1;
      DoubleOnce(d, n);
    }
  }

  lemma OutboxDelayIdeal(b: Bounds, attempt: int)
    requires 0 < b.min <= b.max <= Top(b.min) && attempt >= 1
    ensures OutboxDelay(b, attempt) == Ideal(b.min, b.max, attempt)
  {
    hide OutboxLoop, Top;
    if b.min < TWO62 {
      OutboxLoopIdeal(b.min, b, attempt - 1);
      OutboxFirst(b);
    } else {
      TopOfHigh(b.min);
      OutboxDelayInBounds(b, attempt);
      MulMonotone(b.min, 1, Pow2(attempt - 1));
    }
  }

  lemma TopOfHigh(base: int)
    requires base >= TWO62
    ensures Top(base) == base
  {
  }

  lemma OutboxFirst(b: Bounds)
    requires b.min <= b.max
    ensures OutboxLoop(b.min, b, 0) == b.min
  {
  }

  lemma OutboxDelayInBounds(b: Bounds, attempt: int)
    requires b.min <= b.max
    ensures b.min <= OutboxDelay(b, attempt) <= b.max
  {
    hide OutboxLoop;
    if attempt > 1 {
      OutboxLoopInBounds(b.min, b, attempt - 1);
    }
  }

  lemma OutboxDelayFails(b: Bounds) returns (attempt: int)
    requires 0 < b.min && b.max > Top(b.min)
    ensures attempt > 1 && OutboxDelay(b, attempt) == b.min < b.max == Ideal(b.min, b.max, attempt)
  {
    hide OutboxLoop;
    var n := OutboxLoopOverflows(b.min, b);
    attempt := n + 1;
  }

  /** The outbox delay is the capped exponential for every attempt exactly when the cap is reached before doubling
      leaves the machine range. */
  lemma OutboxDelayExactIff(b: Bounds)
    requires 0 < b.min <= b.max
    ensures (forall attempt: int :: attempt >= 1 ==> OutboxDelay(b, attempt) == Ideal(b.min, b.max, attempt)) <==>
              b.max <= Top(b.min)
  {
    hide OutboxDelay, Ideal, Top;
    if b.max <= Top(b.min) {
      forall attempt: int | attempt >= 1
        ensures OutboxDelay(b, attempt) == Ideal(b.min, b.max, attempt)
      {
        OutboxDelayIdeal(b, attempt);
      }
    } else {
      var attempt := OutboxDelayFails(b);
      assert OutboxDelay(b, attempt) != Ideal(b.min, b.max, attempt);
    }
  }

  // ---------------------------------------------------------------------------------------------
  // When outbox delays grow

  /** The duration after `k` doublings, wrap-around included. */
  function Doubled(d: Duration, k: nat): Duration {
    if k == 0 then d else Wrap(2 * Doubled(d, k - 1))
  }

  function Clamp(d: Duration, b: Bounds): Duration {
    if d < b.min then b.min else if d > b.max then b.max else d
  }

  /** One of the doublings `k + 1 .. k + n` reaches the maximum. */
  ghost predicate Capped(b: Bounds, k: nat, n: nat) {
    exists j :: k < j <= k + n && Doubled(b.min, j) >= b.max
  }

  lemma CappedUnfold(b: Bounds, k: nat, n: nat)
    requires n > 0
    ensures Capped(b, k, n) <==> Doubled(b.min, k + 1) >= b.max || Capped(b, k + 1, n - 1)
  {
    hide Doubled;
  }

  lemma {:induction false} LoopCases(b: Bounds, k: nat, n: nat)
    requires b.min <= b.max
    ensures OutboxLoop(Doubled(b.min, k), b, n) == if Capped(b, k, n) then b.max else Clamp(Doubled(b.min, k + n), b)
    decreases n
  {
    if n > 0 {
      hide Wrap;
      assert Doubled(b.min, k + 1) == Wrap(2 * Doubled(b.min, k));
      LoopCases(b, k + 1, n - 1);
      CappedUnfold(b, k, n);
    }
  }

  lemma DelayCases(b: Bounds, attempt: int)
    requires 0 < b.min <= b.max && attempt >= 1
    ensures OutboxDelay(b, attempt) ==
            if Capped(b, 0, attempt - 1) then b.max else Clamp(Doubled(b.min, attempt - 1), b)
  {
    LoopCases(b, 0, attempt - 1);
  }

  /** Up to round `k` no doubling was above the minimum. */
  ghost predicate Low(b: Bounds, k: nat) {
    forall j :: 1 <= j < k ==> Doubled(b.min, j) <= b.min
  }

  /** The first doubling above the minimum, if there is one, reaches the maximum at once. */
  ghost predicate Steep(b: Bounds) {
    forall k :: 1 <= k < 64 && Low(b, k) ==> Doubled(b.min, k) <= b.min || Doubled(b.min, k) >= b.max
  }

  lemma {:induction false} DoubledIs(d: Duration, k: nat)
    ensures Doubled(d, k) == Wrap(d * Pow2(k))
  {
    if k > 0 {
      hide Wrap;
      DoubledIs(d, k - 1);
      WrapTwice(d * Pow2(k - 1));
      DoubleOnceMore(d, Pow2(k - 1));
    }
  }

  lemma DoubleOnceMore(d: int, p: int)
    ensures 2 * (d * p) == d * (2 * p)
  {
  }

  lemma RemainderIs(v: int, k: int, r: int)
    requires v == TWO64 * k + r && 0 <= r < TWO64
    ensures v % TWO64 == r
  {
  }

  /** Whole words make no difference. */
  lemma WrapShift(x: int, q: int)
    ensures Wrap(x - q * TWO64) == Wrap(x)
  {
    var a := x + TWO63;
    var u, r := a / TWO64, a % TWO64;
    RemainderIs(a - q * TWO64, u - q, r);
  }

  lemma WrapTwice(x: int)
    ensures Wrap(2 * Wrap(x)) == Wrap(2 * x)
  {
    var q := (x + TWO63) / TWO64;
    assert Wrap(x) == x - q * TWO64;
    hide Wrap;
    WrapShift(2 * x, 2 * q);
  }

  /** After 64 doublings nothing is left of a word. */
  lemma {:induction false} WordIsCleared(d: Duration, k: nat)
    requires k >= 64
    ensures Doubled(d, k) == 0
    decreases k
  {
    hide Wrap;
    WrapNothing();
    if k == 64 {
      hide Doubled;
      DoubledIs(d, k);
      SignBit();
      hide Pow2;
      var whole: int := d;
      WrapShift(0, -whole);
    } else {
      WordIsCleared(d, k - 1);
    }
  }

  lemma WrapNothing()
    ensures Wrap(0) == 0
  {
  }

  lemma {:induction false} SteepStaysLow(b: Bounds, k: nat)
    requires Steep(b) && 0 < b.min <= b.max && !Capped(b, 0, k)
    ensures Low(b, k + 1)
  {
    if k > 0 {
      assert !Capped(b, 0, k - 1);
      SteepStaysLow(b, k - 1);
      assert !(Doubled(b.min, k) >= b.max);
      if k >= 64 {
        WordIsCleared(b.min, k);
      }
    }
  }

  lemma SteepGrows(b: Bounds, a: int, c: int)
    requires 0 < b.min <= b.max && Steep(b) && 1 <= a <= c
    ensures OutboxDelay(b, a) <= OutboxDelay(b, c)
  {
    DelayCases(b, a);
    DelayCases(b, c);
    if !Capped(b, 0, c - 1) {
      assert !Capped(b, 0, a - 1);
      SteepStaysLow(b, c - 1);
      assert a > 1 ==> Doubled(b.min, a - 1) <= b.min;
      assert c > 1 ==> Doubled(b.min, c - 1) <= b.min;
    }
  }

  lemma DoubledTwice(d: Duration, k: nat)
    requires Doubled(d, k) >= TWO62
    ensures Doubled(d, k + 1) < 0
  {
    WrapDouble(Doubled(d, k));
  }

  lemma NotCapped(b: Bounds, k: nat)
    requires b.min < b.max && k >= 2 && Low(b, k - 1) && Doubled(b.min, k - 1) < b.max && Doubled(b.min, k) < b.max
    ensures !Capped(b, 0, k) && !Capped(b, 0, k - 1)
  {
    hide Doubled;
  }

  /** From 2^62 on a doubling between the bounds is followed by the minimum again. */
  lemma HighFallsBack(b: Bounds, k: nat)
    requires TWO62 <= b.min < b.max && k >= 1 && Low(b, k) && b.min < Doubled(b.min, k) < b.max
    ensures OutboxDelay(b, k + 1) > OutboxDelay(b, k + 2)
  {
    hide Doubled, OutboxDelay, Wrap, Capped, Low;
    DoubledTwice(b.min, k);
    NotCapped(b, k + 1);
    DelayCases(b, k + 1);
    DelayCases(b, k + 2);
  }

  /** Below 2^62 the second delay is twice the minimum, and a later one falls back to it. */
  lemma LowFallsBack(b: Bounds) returns (n: nat)
    requires 0 < b.min < TWO62 && b.max > Top(b.min)
    ensures n >= 2 && OutboxDelay(b, 2) > OutboxDelay(b, n + 1)
  {
    n := OutboxLoopOverflows(b.min, b);
    TopDoubles(b.min);
    assert OutboxLoop(b.min, b, 1) == OutboxLoop(2 * b.min, b, 0);
    assert Pow2(1) == 2;
  }

  lemma TopDoubles(base: int)
    requires 0 < base < TWO62
    ensures Top(base) >= 2 * base
  {
  }

  /** No outbox delay is longer than a later one. */
  ghost predicate OutboxDelaysGrow(b: Bounds) {
    forall a: int, c: int :: 1 <= a <= c ==> OutboxDelay(b, a) <= OutboxDelay(b, c)
  }

  lemma OutboxDelayGrows(b: Bounds, a: int, c: int)
    requires 0 < b.min <= b.max <= Top(b.min) && 1 <= a <= c
    ensures OutboxDelay(b, a) <= OutboxDelay(b, c)
  {
    hide OutboxDelay;
    OutboxDelayIdeal(b, a);
    OutboxDelayIdeal(b, c);
    IdealGrows(b.min, b.max, a, c);
  }

  /** The outbox delay never shrinks with the attempt exactly when the maximum is reached before doubling leaves the
      machine range or, for a minimum that cannot be doubled at all, when the first wrapped value above the minimum
      reaches the maximum. */
  lemma OutboxDelayMonotoneIff(b: Bounds)
    requires 0 < b.min <= b.max
    ensures OutboxDelaysGrow(b) <==> b.max <= Top(b.min) || (b.min >= TWO62 && Steep(b))
  {
    hide OutboxDelay, Top, Low, Doubled;
    if b.max <= Top(b.min) {
      forall a: int, c: int | 1 <= a <= c
        ensures OutboxDelay(b, a) <= OutboxDelay(b, c)
      {
        OutboxDelayGrows(b, a, c);
      }
    } else if b.min < TWO62 {
      var n := LowFallsBack(b);
      assert OutboxDelay(b, 2) > OutboxDelay(b, n + 1);
    } else if Steep(b) {
      forall a: int, c: int | 1 <= a <= c
        ensures OutboxDelay(b, a) <= OutboxDelay(b, c)
      {
        SteepGrows(b, a, c);
      }
    } else {
      TopOfHigh(b.min);
      var k :| 1 <= k < 64 && Low(b, k) && !(Doubled(b.min, k) <= b.min || Doubled(b.min, k) >= b.max);
      HighFallsBack(b, k);
      assert OutboxDelay(b, k + 1) > OutboxDelay(b, k + 2);
    }
  }
}
