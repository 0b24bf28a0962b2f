/** Retry and polling delays (internal/registry/backoff.go) on Go's wrapping 64-bit nanoseconds. */
module Backoff {
  import opened Wrappers

  const SECOND: int := 1_000_000_000
  const BASE_DELAY: int := 30 * SECOND
  const MAX_DELAY: int := 480 * SECOND

  const TWO_63: int := 0x8000_0000_0000_0000
  const TWO_64: int := 0x1_0000_0000_0000_0000

  type Duration = d: int | -TWO_63 <= d < TWO_63

  /** The value of x as a signed 64-bit integer. */
  function Wrap64(x: int): (w: Duration)
    ensures -TWO_63 <= x < TWO_63 ==> w == x
  {
    var m := x % TWO_64;
    if m < TWO_63 then m else m - TWO_64
  }

  function Pow2(e: nat): (p: nat)
    ensures p >= 1
  {
    if e == 0 then 1 else 2 * Pow2(e - 1)
  }

  function CalculateBackoff(failures: int): Duration {
    if failures <= 0 then BASE_DELAY
    else
      var multiplier := Wrap64(Pow2(failures));
      var duration := Wrap64(BASE_DELAY * multiplier);
      if duration > MAX_DELAY then MAX_DELAY else duration
  }

  /** The documented delay: 30s doubled once a failure, capped at eight minutes, with no wrap-around. */
  function IdealBackoff(failures: int): int {
    if failures <= 0 then BASE_DELAY
    else if BASE_DELAY * Pow2(failures) > MAX_DELAY then MAX_DELAY
    else BASE_DELAY * Pow2(failures)
  }

  lemma {:induction false} Pow2Grows(m: nat, n: nat)
    requires m <= n
    ensures Pow2(m) <= Pow2(n)
  {
    if m < n {
      Pow2Grows(m, n - 1);
    }
  }

  lemma {:induction false} Pow2Add(m: nat, n: nat)
    ensures Pow2(m + n) == Pow2(m) * Pow2(n)
  {
    if m > 0 {
      Pow2Add(m - 1, n);
    }
  }

  lemma Pow2Values()
    ensures Pow2(4) == 16
    ensures Pow2(28) == 0x1000_0000
    ensures Pow2(54) == 0x40_0000_0000_0000
    ensures Pow2(64) == TWO_64
  {
    assert Pow2(4) == 16;
    assert Pow2(8) == 256 by { Pow2Add(4, 4); }
    assert Pow2(16) == 0x1_0000 by { Pow2Add(8, 8); }
    assert Pow2(32) == 0x1_0000_0000 by { Pow2Add(16, 16); }
    Pow2Add(32, 32);
    Pow2Add(16, 8);
    Pow2Add(24, 4);
    Pow2Add(32, 16);
    assert Pow2(6) == 64;
    Pow2Add(48, 6);
  }

  /** Up to 28 failures nothing wraps and the delay is the documented one. */
  lemma BackoffIsIdeal(failures: int)
    requires failures <= 28
    ensures CalculateBackoff(failures) == IdealBackoff(failures)
    ensures 0 < CalculateBackoff(failures) <= MAX_DELAY
  {
    hide Pow2;
    if failures > 0 {
      Pow2Grows(failures, 28);
      Pow2Values();
    }
  }

  lemma BackoffGrows(m: int, n: int)
    requires m <= n <= 28
    ensures CalculateBackoff(m) <= CalculateBackoff(n)
  {
    hide CalculateBackoff;
    BackoffIsIdeal(m);
    BackoffIsIdeal(n);
    if 0 < m {
      Pow2Grows(m, n);
    }
  }

  /** The first failure count that breaks the formula, and the end of it: negative, then zero for good. */
  lemma BackoffWraps(failures: int)
    ensures CalculateBackoff(29) < 0
    ensures failures >= 54 ==> CalculateBackoff(failures) == 0
  {
    Pow2Values();
    assert Pow2(29) == 2 * Pow2(28);
    if failures >= 54 {
      MultiplierDividesAway(failures);
    }
  }

  /** From the 54th doubling on, 30s times the multiplier is a multiple of two to the 64. */
  lemma MultiplierDividesAway(failures: nat)
    requires failures >= 54
    ensures Wrap64(BASE_DELAY * Wrap64(Pow2(failures))) == 0
  {
    Pow2Values();
    Pow2Add(54, failures - 54);
    var c := WrapKeepsFactor(Pow2(failures - 54));
    ScaledWrapsToZero(c);
  }

  lemma ScaledWrapsToZero(c: int)
    ensures Wrap64(BASE_DELAY * (TWO_54 * c)) == 0
  {
    assert BASE_DELAY * (TWO_54 * c) == TWO_64 * (29296875 * c);
    MultipleWrapsToZero(29296875 * c);
  }

  const TWO_54: int := 0x40_0000_0000_0000

  lemma WrapKeepsFactor(k: nat) returns (c: int)
    ensures Wrap64(TWO_54 * k) == TWO_54 * c
  {
    var x := TWO_54 * k;
    var q := x / TWO_64;
    var m := x % TWO_64;
    assert x == TWO_64 * q + m;
    c := if m < TWO_63 then k - 1024 * q else k - 1024 * q - 1024;
  }

  lemma MultipleWrapsToZero(c: int)
    ensures Wrap64(TWO_64 * c) == 0
  {
    assert (TWO_64 * c) % TWO_64 == 0;
  }

  /** Total of the delays from the first to the last of a range of failure counts. */
  function TotalDelay(first: nat, last: nat): int
    decreases last + 1 - first
  {
    if first > last then 0 else CalculateBackoff(first) + TotalDelay(first + 1, last)
  }

  /** One full retry budget: 1 + 2 + 4 + 8 + 8 minutes. */
  lemma RetryBudget()
    ensures CalculateBackoff(0) == 30_000_000_000
    ensures CalculateBackoff(1) == 60_000_000_000 && CalculateBackoff(2) == 120_000_000_000
    ensures CalculateBackoff(3) == 240_000_000_000 && CalculateBackoff(4) == 480_000_000_000
    ensures CalculateBackoff(5) == 480_000_000_000
    ensures TotalDelay(1, 5) == 1_380_000_000_000
  {
    assert Pow2(1) == 2 && Pow2(2) == 4 && Pow2(3) == 8 && Pow2(4) == 16 && Pow2(5) == 32;
    assert TotalDelay(5, 5) == CalculateBackoff(5) + TotalDelay(6, 5);
    assert TotalDelay(3, 5) == CalculateBackoff(3) + (CalculateBackoff(4) + TotalDelay(5, 5));
  }

  lemma CappedDelay(failures: nat)
    requires 4 <= failures <= 28
    ensures CalculateBackoff(failures) == MAX_DELAY
  {
    hide Pow2, CalculateBackoff;
    BackoffIsIdeal(failures);
    Pow2Grows(4, failures);
    Pow2Values();
  }

  /** From the fourth failure on every delay is the longest. */
  lemma {:induction false} CappedDelays(first: nat, last: nat)
    requires 4 <= first <= last + 1 && last <= 28
    ensures TotalDelay(first, last) == (last + 1 - first) * MAX_DELAY
    decreases last + 1 - first
  {
    hide CalculateBackoff;
    if first <= last {
      CappedDelay(first);
      CappedDelays(first + 1, last);
    }
  }

  /** The closed form: 30s times two more than the next power of two up to three, then eight minutes each. */
  lemma TotalDelayClosedForm(n: nat)
    requires 1 <= n <= 28
    ensures TotalDelay(1, n) == if n <= 3 then BASE_DELAY * (2 * Pow2(n) - 2) else 420 * SECOND + (n - 3) * MAX_DELAY
  {
    hide CalculateBackoff;
    RetryBudget();
    assert Pow2(1) == 2 && Pow2(2) == 4 && Pow2(3) == 8;
    if n <= 3 {
      assert TotalDelay(n + 1, n) == 0;
      assert TotalDelay(n, n) == CalculateBackoff(n);
      assert n >= 2 ==> TotalDelay(n - 1, n) == CalculateBackoff(n - 1) + TotalDelay(n, n);
    } else {
      CappedDelays(4, n);
      assert TotalDelay(3, n) == CalculateBackoff(3) + TotalDelay(4, n);
      assert TotalDelay(2, n) == CalculateBackoff(2) + TotalDelay(3, n);
    }
  }

  lemma {:induction false} TotalDelayShrinks(first: nat, last: nat)
    requires 1 <= first && last <= 28
    ensures 0 <= TotalDelay(first, last) <= TotalDelay(1, last)
    decreases first
  {
    TotalDelayNonNegative(first, last);
    if 1 < first {
      TotalDelayShrinks(first - 1, last);
      if first - 1 <= last {
        BackoffIsIdeal(first - 1);
      }
    }
  }

  lemma {:induction false} TotalDelayNonNegative(first: nat, last: nat)
    requires last <= 28
    ensures TotalDelay(first, last) >= 0
    decreases last + 1 - first
  {
    if first <= last {
      BackoffIsIdeal(first);
      TotalDelayNonNegative(first + 1, last);
    }
  }

  /**
   * The interval with a tenth of jitter either way; `draw` decides the random number,
   * and None is the panic of drawing from an empty range.
   */
  function AddJitter(interval: Duration, draw: nat): Option<Duration>
  {
    if interval <= 0 then Some(interval)
    else
      var amount := interval / 10;
      if amount == 0 then None
      else Some(Wrap64(interval + (draw % (2 * amount) - amount)))
  }

  /** The intervals the polling loop survives: long enough to draw from, short enough not to wrap. */
  predicate Pollable(interval: Duration) {
    10 <= interval && interval + interval / 10 - 1 < TWO_63
  }

  /** Jitter stays within ten per cent and positive on every draw, and for no other interval. */
  lemma JitterIsPositiveExactlyWhenPollable(interval: Duration)
    ensures Pollable(interval) <==>
            (forall draw: nat :: AddJitter(interval, draw).Some? && AddJitter(interval, draw).value > 0)
  {
    if Pollable(interval) {
      forall draw: nat
        ensures AddJitter(interval, draw).Some? && AddJitter(interval, draw).value > 0
      {
        JitterRange(interval, draw);
      }
    } else if interval >= 10 {
      var draw: nat := 2 * (interval / 10) - 1;
      SmallRemainder(draw, draw + 1);
      assert AddJitter(interval, draw) == Some(Wrap64(interval + interval / 10 - 1));
    } else {
      assert AddJitter(interval, 0).None? || AddJitter(interval, 0).value <= 0;
    }
  }

  lemma SmallRemainder(a: nat, b: nat)
    requires a < b
    ensures a % b == a
  {
  }

  lemma JitterRange(interval: Duration, draw: nat)
    requires Pollable(interval)
    ensures AddJitter(interval, draw).Some?
    ensures interval - interval / 10 <= AddJitter(interval, draw).value <= interval + interval / 10 - 1
    ensures AddJitter(interval, draw).value > 0
  {
    var amount := interval / 10;
    assert 0 <= draw % (2 * amount) < 2 * amount;
  }

  /** Intervals without length are returned as they are; drawing panics exactly for 1 to 9 ns. */
  lemma JitterPanicsExactly(interval: Duration, draw: nat)
    ensures AddJitter(interval, draw) == None <==> 1 <= interval <= 9
    ensures interval <= 0 ==> AddJitter(interval, draw) == Some(interval)
  {
  }

  /** Every delay in the ten per cent window is drawn by somebody. */
  lemma JitterReachesWholeRange(interval: Duration, delay: int)
    requires Pollable(interval)
    requires interval - interval / 10 <= delay <= interval + interval / 10 - 1
    ensures exists draw: nat :: AddJitter(interval, draw) == Some(delay)
  {
    var amount := interval / 10;
    var draw: nat := delay - interval + amount;
    SmallRemainder(draw, 2 * amount);
    assert AddJitter(interval, draw) == Some(delay);
  }
}
