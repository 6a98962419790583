/**
 The running mean of write latencies: each new value is folded into a truncated integer mean, so the
 rounding errors add up. The method takes any 64-bit latency; the results about the mean are for
 latencies that are not negative, as differences of a monotonic clock are.
 */
module LatencyMean {

  newtype int64 = x: int | -0x8000_0000_0000_0000 <= x < 0x8000_0000_0000_0000

  const MAX_INT64 := 0x7FFF_FFFF_FFFF_FFFF
  const TWO_64 := 0x1_0000_0000_0000_0000

  function Sum(samples: seq<nat>): nat {
    if samples == [] then 0 else Sum(samples[..|samples| - 1]) + samples[|samples| - 1]
  }

  /** The recurrence, on unbounded integers. */
  function Mean(samples: seq<nat>): nat {
    if samples == [] then 0 else
      Fold(Mean(samples[..|samples| - 1]), |samples|, samples[|samples| - 1])
  }

  /** The `n`-th sample folded into the mean of those before it. */
  function Fold(mean: nat, n: nat, sample: nat): nat
    requires n > 0
  {
    Truncated(Dividend(mean, n, sample), n)
  }

  function Dividend(mean: nat, n: nat, sample: nat): nat
    requires n > 0
  {
    mean * (n - 1) + sample
  }

  function Truncated(a: nat, n: nat): nat
    requires n > 0
  {
    a / n
  }

  // ----- The rounding error -----

  lemma Quotient(a: nat, n: nat)
    requires n > 0
    ensures Truncated(a, n) * n <= a <= Truncated(a, n) * n + (n - 1)
  {
    assert a == a / n * n + a % n;
  }

  lemma Monotone(a: nat, b: nat, n: nat)
    ensures a <= b ==> a * n <= b * n
  {
    if a <= b {
      assert b * n == a * n + (b - a) * n;
    }
  }

  /** 0 + 1 + ... + (n - 1) */
  function Triangle(n: nat): nat {
    if n == 0 then 0 else Triangle(n - 1) + (n - 1)
  }

  lemma {:induction false} TriangleValue(n: nat)
    ensures 2 * Triangle(n) == n * (n - 1)
  {
    if n > 0 {
      TriangleValue(n - 1);
    }
  }

  /** The mean is never too large, and too small by at most half of one less than the number of samples. */
  lemma {:induction false} MeanError(samples: seq<nat>)
    ensures Mean(samples) * |samples| <= Sum(samples) <= Mean(samples) * |samples| + Triangle(|samples|)
  {
    if samples != [] {
      var front, last := samples[..|samples| - 1], samples[|samples| - 1];
      MeanError(front);
      Quotient(Dividend(Mean(front), |samples|, last), |samples|);
    }
  }

  /** 0, 1, ..., n - 1 */
  function Upward(n: nat): (samples: seq<nat>)
    ensures |samples| == n
  {
    if n == 0 then [] else Upward(n - 1) + [n - 1]
  }

  /** The error bound is reached for every number of samples. */
  lemma {:induction false} MeanErrorReached(n: nat)
    ensures Mean(Upward(n)) == 0 && Sum(Upward(n)) == Triangle(n)
  {
    if n > 0 {
      MeanErrorReached(n - 1);
      assert Upward(n)[..n - 1] == Upward(n - 1);
    }
  }

  lemma Cancel(a: nat, b: nat, n: nat)
    requires a * n <= b * n + (n - 1)
    ensures a <= b
  {
    Monotone(b + 1, a, n);
    assert (b + 1) * n == b * n + n;
  }

  lemma Scaled(mean: nat, n: nat, x: nat, lo: nat, hi: nat)
    requires n > 0 && lo <= x <= hi && (n > 1 ==> lo <= mean <= hi)
    ensures lo * n <= Dividend(mean, n, x) <= hi * n
  {
    Monotone(lo, mean, n - 1);
    Monotone(mean, hi, n - 1);
    assert lo * n == lo * (n - 1) + lo && hi * n == hi * (n - 1) + hi;
  }

  /** Folding in a value between two bounds keeps the mean between them. */
  lemma Between(mean: nat, n: nat, x: nat, lo: nat, hi: nat)
    requires n > 0 && lo <= x <= hi && (n > 1 ==> lo <= mean <= hi)
    ensures lo <= Fold(mean, n, x) <= hi
  {
    Scaled(mean, n, x, lo, hi);
    var a := Dividend(mean, n, x);
    Quotient(a, n);
    Cancel(Truncated(a, n), hi, n);
    Cancel(lo, Truncated(a, n), n);
  }

  /** The mean lies between the least and the greatest sample. */
  lemma {:induction false} MeanBetween(samples: seq<nat>, lo: nat, hi: nat)
    requires samples != [] && forall i :: 0 <= i < |samples| ==> lo <= samples[i] <= hi
    ensures lo <= Mean(samples) <= hi
  {
    if |samples| > 1 {
      MeanBetween(samples[..|samples| - 1], lo, hi);
    }
    Between(Mean(samples[..|samples| - 1]), |samples|, samples[|samples| - 1], lo, hi);
  }

  /** What the division is given is at most the sum, so it fits whenever the sum does. */
  lemma DividendFits(samples: seq<nat>)
    requires samples != []
    ensures Dividend(Mean(samples[..|samples| - 1]), |samples|, samples[|samples| - 1]) <= Sum(samples)
  {
    MeanError(samples[..|samples| - 1]);
  }

  // ----- 64-bit arithmetic -----

  /** The 64-bit value that an overflowing result wraps to. */
  function Wrap(x: int): (r: int64)
    ensures -MAX_INT64 - 1 <= x <= MAX_INT64 ==> r as int == x
    ensures exists k: int :: x == r as int + k * TWO_64
  {
    assert x == x + 0 * TWO_64;
    assert x == x % TWO_64 + (x / TWO_64) * TWO_64;
    assert x == (x % TWO_64 - TWO_64) + (x / TWO_64 + 1) * TWO_64;
    if -MAX_INT64 - 1 <= x <= MAX_INT64 then x as int64
    else
      var low := x % TWO_64;
      if low <= MAX_INT64 then low as int64 else (low - TWO_64) as int64
  }

  /** Division that truncates toward zero. */
  function Quot(a: int, b: int): int
    requires b != 0
  {
    if a >= 0 then a / b else -(-a / b)
  }

  function Size(x: int): int {
    if x >= 0 then x else -x
  }

  /** The remainder is smaller than the divisor and has the sign of the dividend. */
  lemma QuotTruncates(a: int, b: int)
    requires b != 0
    ensures var rest := a - Quot(a, b) * b;
            -Size(b) < rest < Size(b) && (a >= 0 ==> rest >= 0) && (a <= 0 ==> rest <= 0)
  {
    var n := Size(a);
    assert n == (n / b) * b + n % b;
    if a < 0 {
      assert Quot(a, b) * b == -((n / b) * b);
    }
  }

  /** The new mean as 64-bit arithmetic has it, whatever overflows. */
  function Folded(mean: int64, count: int64, sample: int64): int64
    requires count != 0
  {
    var product := Wrap(mean as int * Wrap(count as int - 1) as int);
    Wrap(Quot(Wrap(product as int + sample as int) as int, count as int))
  }

  lemma TruncatedSmaller(a: nat, n: nat)
    requires n > 0
    ensures Truncated(a, n) <= a && Quot(a, n) == Truncated(a, n)
  {
    Quotient(a, n);
    Monotone(1, n, Truncated(a, n));
  }

  /** While nothing overflows the 64-bit step is the step on unbounded integers. */
  lemma FoldedFits(mean: nat, count: nat, sample: nat, product: nat)
    requires 0 < count <= MAX_INT64 && mean <= MAX_INT64 && product == mean * (count - 1)
    requires product + sample <= MAX_INT64
    ensures Folded(mean as int64, count as int64, sample as int64) as int == Truncated(product + sample, count)
  {
    TruncatedSmaller(product + sample, count);
  }

  // ----- The metrics -----

  class PerformanceMetrics {
    var writeLatencyCount: int64
    var writeLatencyNs: int64
    ghost var samples: seq<nat>

    ghost predicate Valid()
      reads this
    {
      writeLatencyCount as int == |samples| && writeLatencyNs as int == Mean(samples)
    }

    constructor ()
      ensures Valid() && samples == []
    {
      writeLatencyCount, writeLatencyNs, samples := 0, 0, [];
    }

    /** The next sample keeps the count and the sum within 64 bits. */
    ghost predicate Fits(latencyNs: int64)
      reads this
    {
      latencyNs >= 0 && |samples| < MAX_INT64 && Sum(samples) + latencyNs as int <= MAX_INT64
    }

    /**
     Any latency at all, with wrap-around; a count that wraps to zero makes the division panic. While
     the count and the sum fit, nothing wraps and the recurrence is the one on unbounded integers.
     */
    method RecordWriteLatency(latencyNs: int64) returns (panicked: bool)
      modifies this
      ensures writeLatencyCount == Wrap(old(writeLatencyCount) as int + 1)
      ensures panicked <==> writeLatencyCount == 0
      ensures panicked ==> writeLatencyNs == old(writeLatencyNs)
      ensures !panicked ==> writeLatencyNs == Folded(old(writeLatencyNs), writeLatencyCount, latencyNs)
      ensures old(Valid() && Fits(latencyNs)) ==> !panicked && Valid() && samples == old(samples) + [latencyNs as int]
    {
      var count := Wrap(writeLatencyCount as int + 1);
      writeLatencyCount := count;
      if count == 0 {
        return true;
      }
      if old(Valid() && Fits(latencyNs)) {
        Recorded(samples, latencyNs as int);
      }
      writeLatencyNs := Folded(writeLatencyNs, count, latencyNs);
      if latencyNs >= 0 {
        samples := samples + [latencyNs as int];
      }
      panicked := false;
    }
  }

  lemma Recorded(samples: seq<nat>, sample: nat)
    requires |samples| < MAX_INT64 && Sum(samples) + sample <= MAX_INT64
    ensures Mean(samples) <= MAX_INT64
    ensures Folded(Mean(samples) as int64, (|samples| + 1) as int64, sample as int64) as int == Mean(samples + [sample])
  {
    var more := samples + [sample];
    assert more[..|more| - 1] == samples;
    DividendFits(more);
    MeanError(samples);
    if samples != [] {
      Monotone(1, |samples|, Mean(samples));
    }
    FoldedFits(Mean(samples), |more|, sample, Dividend(Mean(samples), |more|, sample) - sample);
  }
}
