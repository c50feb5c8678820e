/** The latency histogram of `crates/justapi-core/src/metrics.rs`: per-bucket counters
    and the percentiles read off them, over real-valued latencies. */
module LatencyHistogram {
  import opened Prelude

  /** The configured bucket bounds, in milliseconds. */
  const LATENCY_BUCKETS_MS: seq<real> :=
    [1.0, 2.5, 5.0, 10.0, 25.0, 50.0, 100.0, 250.0, 500.0, 1000.0, 2500.0, 5000.0, 10000.0]

  ghost predicate Increasing(bounds: seq<real>) {
    bounds != [] && forall i, j :: 0 <= i < j < |bounds| ==> bounds[i] < bounds[j]
  }

  lemma {:induction false} ConfiguredBoundsIncrease()
    ensures Increasing(LATENCY_BUCKETS_MS)
    ensures |LATENCY_BUCKETS_MS| == 13 && LATENCY_BUCKETS_MS[0] == 1.0 && LATENCY_BUCKETS_MS[12] == 10000.0
  {
  }

  datatype Hist = Hist(buckets: seq<nat>, count: nat, sumUs: nat)

  function Empty(n: nat): Hist { Hist(seq(n, _ => 0), 0, 0) }

  /** Whole microseconds of a latency, negative ones read as zero. */
  function Micros(x: real): nat { if x < 0.0 then 0 else (x * 1000.0).Floor }

  /** Index of the first bound not below `x`, or the number of bounds. */
  function BucketOf(bounds: seq<real>, x: real): (k: nat)
    ensures k <= |bounds| && (k < |bounds| ==> x <= bounds[k])
    ensures forall i :: 0 <= i < k ==> bounds[i] < x
  {
    BucketFrom(bounds, x, 0)
  }

  function BucketFrom(bounds: seq<real>, x: real, from: nat): (k: nat)
    requires from <= |bounds| && forall i :: 0 <= i < from ==> bounds[i] < x
    ensures from <= k <= |bounds| && (k < |bounds| ==> x <= bounds[k])
    ensures forall i :: 0 <= i < k ==> bounds[i] < x
    decreases |bounds| - from
  {
    if from == |bounds| || x <= bounds[from] then from else BucketFrom(bounds, x, from + 1)
  }

  function Recorded(bounds: seq<real>, h: Hist, x: real): Hist
    requires |h.buckets| == |bounds|
  {
    var k := BucketOf(bounds, x);
    Hist(if k < |bounds| then h.buckets[k := h.buckets[k] + 1] else h.buckets, h.count + 1, h.sumUs + Micros(x))
  }

  /** The histogram after any sequence of samples. */
  function After(bounds: seq<real>, samples: seq<real>): (h: Hist)
    ensures |h.buckets| == |bounds|
  {
    if samples == [] then Empty(|bounds|)
    else Recorded(bounds, After(bounds, samples[..|samples| - 1]), samples[|samples| - 1])
  }

  lemma {:induction false} AfterSnoc(bounds: seq<real>, samples: seq<real>, x: real)
    ensures After(bounds, samples + [x]) == Recorded(bounds, After(bounds, samples), x)
  {
    assert (samples + [x])[..|samples|] == samples;
  }

  // ------------------------------------------------------------------
  // Buckets and samples
  // ------------------------------------------------------------------

  function Cumulative(buckets: seq<nat>, k: nat): nat
    requires k <= |buckets|
  {
    if k == 0 then 0 else Cumulative(buckets, k - 1) + buckets[k - 1]
  }

  function AtMost(samples: seq<real>, b: real): nat {
    if samples == [] then 0
    else AtMost(samples[..|samples| - 1], b) + if samples[|samples| - 1] <= b then 1 else 0
  }

  function Above(samples: seq<real>, b: real): nat {
    if samples == [] then 0
    else Above(samples[..|samples| - 1], b) + if samples[|samples| - 1] > b then 1 else 0
  }

  lemma {:induction false} CumulativeBump(buckets: seq<nat>, i: nat, k: nat)
    requires i < |buckets| && k <= |buckets|
    ensures Cumulative(buckets[i := buckets[i] + 1], k) == Cumulative(buckets, k) + if i < k then 1 else 0
  {
    if k > 0 {
      CumulativeBump(buckets, i, k - 1);
    }
  }

  lemma {:induction false} CumulativeZero(n: nat, k: nat)
    requires k <= n
    ensures Cumulative(Empty(n).buckets, k) == 0
  {
    if k > 0 {
      CumulativeZero(n, k - 1);
    }
  }

  /** The buckets up to a bound hold exactly the samples that are at most that bound. */
  lemma {:induction false} CumulativeCountsSamples(bounds: seq<real>, samples: seq<real>, k: nat)
    requires Increasing(bounds) && k < |bounds|
    ensures Cumulative(After(bounds, samples).buckets, k + 1) == AtMost(samples, bounds[k])
  {
    if samples == [] {
      CumulativeZero(|bounds|, k + 1);
    } else {
      var init, x := samples[..|samples| - 1], samples[|samples| - 1];
      CumulativeCountsSamples(bounds, init, k);
      var i := BucketOf(bounds, x);
      if i < |bounds| {
        CumulativeBump(After(bounds, init).buckets, i, k + 1);
      }
      assert i <= k <==> x <= bounds[k];
    }
  }

  function Micro(samples: seq<real>): nat {
    if samples == [] then 0 else Micro(samples[..|samples| - 1]) + Micros(samples[|samples| - 1])
  }

  /** Count and sum are those of the samples; the buckets and the overflow, i.e. the
      samples above the last bound, add up to the count. */
  lemma {:induction false} Totals(bounds: seq<real>, samples: seq<real>)
    requires Increasing(bounds)
    ensures var h := After(bounds, samples);
            && h.count == |samples| && h.sumUs == Micro(samples)
            && Cumulative(h.buckets, |bounds|) == AtMost(samples, bounds[|bounds| - 1])
            && Cumulative(h.buckets, |bounds|) + Above(samples, bounds[|bounds| - 1]) == h.count
  {
    CumulativeCountsSamples(bounds, samples, |bounds| - 1);
    CountAndSum(bounds, samples);
    AtMostOrAbove(samples, bounds[|bounds| - 1]);
  }

  function Total(samples: seq<real>): real {
    if samples == [] then 0.0 else Total(samples[..|samples| - 1]) + samples[|samples| - 1]
  }

  /** The recorded sum is the total in microseconds, short of it by less than one per sample. */
  lemma {:induction false} SumWithin(samples: seq<real>)
    requires forall i :: 0 <= i < |samples| ==> samples[i] >= 0.0
    ensures Micro(samples) as real <= 1000.0 * Total(samples) <= Micro(samples) as real + |samples| as real
    ensures samples != [] ==> 1000.0 * Total(samples) < Micro(samples) as real + |samples| as real
  {
    if samples != [] {
      SumWithin(samples[..|samples| - 1]);
    }
  }

  /** A negative latency adds nothing to it. */
  lemma {:induction false} NegativeIsZero(samples: seq<real>, x: real)
    requires x < 0.0
    ensures Micro(samples + [x]) == Micro(samples)
  {
    assert (samples + [x])[..|samples|] == samples;
  }

  lemma {:induction false} CountAndSum(bounds: seq<real>, samples: seq<real>)
    ensures After(bounds, samples).count == |samples| && After(bounds, samples).sumUs == Micro(samples)
  {
    if samples != [] {
      CountAndSum(bounds, samples[..|samples| - 1]);
    }
  }

  lemma {:induction false} AtMostOrAbove(samples: seq<real>, b: real)
    ensures AtMost(samples, b) + Above(samples, b) == |samples|
  {
    if samples != [] {
      AtMostOrAbove(samples[..|samples| - 1], b);
    }
  }

  // ------------------------------------------------------------------
  // The buckets are not cumulative
  // ------------------------------------------------------------------

  /** Every bucket holds the samples at most its bound, as the snapshot documents. */
  ghost predicate IsCumulative(bounds: seq<real>, samples: seq<real>) {
    forall k :: 0 <= k < |bounds| ==> After(bounds, samples).buckets[k] == AtMost(samples, bounds[k])
  }

  lemma {:induction false} AtMostGrows(samples: seq<real>, a: real, b: real)
    requires a <= b
    ensures AtMost(samples, a) <= AtMost(samples, b)
  {
    if samples != [] {
      AtMostGrows(samples[..|samples| - 1], a, b);
    }
  }

  /** A bucket holds what its bound has over the bound before it. */
  lemma {:induction false} BucketHolds(bounds: seq<real>, samples: seq<real>, k: nat)
    requires Increasing(bounds) && k < |bounds|
    ensures After(bounds, samples).buckets[k] ==
            AtMost(samples, bounds[k]) - if k == 0 then 0 else AtMost(samples, bounds[k - 1])
  {
    CumulativeCountsSamples(bounds, samples, k);
    if k > 0 {
      CumulativeCountsSamples(bounds, samples, k - 1);
    }
  }

  /** The stored buckets are the documented cumulative ones exactly when there is a
      single bound, or no sample is at most the last bound but one. */
  lemma {:induction false} CumulativeExactly(bounds: seq<real>, samples: seq<real>)
    requires Increasing(bounds)
    ensures IsCumulative(bounds, samples) <==> |bounds| == 1 || AtMost(samples, bounds[|bounds| - 2]) == 0
  {
    var n := |bounds|;
    if n > 1 && IsCumulative(bounds, samples) {
      BucketHolds(bounds, samples, n - 1);
    }
    if n == 1 || AtMost(samples, bounds[n - 2]) == 0 {
      forall k | 0 <= k < n
        ensures After(bounds, samples).buckets[k] == AtMost(samples, bounds[k])
      {
        BucketHolds(bounds, samples, k);
        if k > 0 {
          AtMostGrows(samples, bounds[k - 1], bounds[n - 2]);
        }
      }
    }
  }

  /** One request of a millisecond is enough; and there is never the extra last entry the
      snapshot documents. */
  lemma {:induction false} OneSampleNotCumulative()
    ensures !IsCumulative(LATENCY_BUCKETS_MS, [1.0])
    ensures |After(LATENCY_BUCKETS_MS, [1.0]).buckets| != |LATENCY_BUCKETS_MS| + 1
  {
    ConfiguredBoundsIncrease();
    CumulativeExactly(LATENCY_BUCKETS_MS, [1.0]);
    assert [1.0][..0] == [];
  }

  // ------------------------------------------------------------------
  // The order of the samples
  // ------------------------------------------------------------------

  lemma {:induction false} RecordsCommute(bounds: seq<real>, h: Hist, x: real, y: real)
    requires |h.buckets| == |bounds|
    ensures Recorded(bounds, Recorded(bounds, h, x), y) == Recorded(bounds, Recorded(bounds, h, y), x)
  {
  }

  function Without(samples: seq<real>, i: nat): seq<real>
    requires i < |samples|
  {
    samples[..i] + samples[i + 1..]
  }

  lemma {:induction false} WithoutCounts(samples: seq<real>, i: nat)
    requires i < |samples|
    ensures multiset(Without(samples, i)) == multiset(samples) - multiset{samples[i]}
    ensures samples[i] in multiset(samples)
  {
    assert samples == samples[..i] + [samples[i]] + samples[i + 1..];
  }

  lemma {:induction false} RecordLast(bounds: seq<real>, samples: seq<real>, i: nat)
    requires i < |samples|
    ensures After(bounds, samples) == Recorded(bounds, After(bounds, Without(samples, i)), samples[i])
    decreases |samples|
  {
    var n := |samples| - 1;
    var init, y := samples[..n], samples[n];
    if i == n {
      assert Without(samples, i) == init;
    } else {
      RecordLast(bounds, init, i);
      RecordsCommute(bounds, After(bounds, Without(init, i)), samples[i], y);
      AfterSnoc(bounds, Without(init, i), y);
      assert Without(samples, i) == Without(init, i) + [y];
    }
  }

  lemma {:induction false} MatchLast(a: seq<real>, b: seq<real>) returns (i: nat)
    requires multiset(a) == multiset(b) && a != []
    ensures i < |b| && b[i] == a[|a| - 1]
    ensures multiset(Without(a, |a| - 1)) == multiset(Without(b, i))
  {
    WithoutCounts(a, |a| - 1);
    assert a[|a| - 1] in multiset(b);
    i :| 0 <= i < |b| && b[i] == a[|a| - 1];
    WithoutCounts(b, i);
  }

  /** The histogram is a summary of the multiset of samples: recordings that arrive in
      another order leave the same counters. */
  lemma {:induction false} OrderIrrelevant(bounds: seq<real>, a: seq<real>, b: seq<real>)
    requires multiset(a) == multiset(b)
    ensures After(bounds, a) == After(bounds, b)
    decreases |a|
  {
    if a == [] {
      assert |multiset(b)| == 0;
    } else {
      var i := MatchLast(a, b);
      OrderIrrelevant(bounds, Without(a, |a| - 1), Without(b, i));
      RecordLast(bounds, a, |a| - 1);
      RecordLast(bounds, b, i);
    }
  }

  // ------------------------------------------------------------------
  // Percentiles
  // ------------------------------------------------------------------

  /** `k` is the first bound that covers `target` samples, or the last bound if none does. */
  ghost predicate FirstCovering(bounds: seq<real>, samples: seq<real>, target: real, k: int) {
    && 0 <= k < |bounds|
    && (forall i :: 0 <= i < k ==> AtMost(samples, bounds[i]) as real < target)
    && (k < |bounds| - 1 ==> AtMost(samples, bounds[k]) as real >= target)
  }

  /** `b` is the least bound that covers a fraction `p` of the samples, or the last
      bound if none does. */
  ghost predicate IsPercentile(bounds: seq<real>, samples: seq<real>, p: real, b: real) {
    exists k :: FirstCovering(bounds, samples, Share(p, |samples|), k) && bounds[k] == b
  }

  function Share(p: real, n: nat): real { n as real * p }

  /** The loop of `compute`, on a snapshot of the histogram. */
  method Compute(bounds: seq<real>, ghost samples: seq<real>, h: Hist, target: real) returns (k: nat)
    requires Increasing(bounds) && h == After(bounds, samples)
    ensures FirstCovering(bounds, samples, target, k)
  {
    var cumulative := 0;
    k := 0;
    while k < |h.buckets|
      invariant k <= |bounds| && cumulative == Cumulative(h.buckets, k)
      invariant forall j :: 0 <= j < k ==> AtMost(samples, bounds[j]) as real < target
    {
      CumulativeCountsSamples(bounds, samples, k);
      cumulative := cumulative + h.buckets[k];
      if cumulative as real >= target {
        return;
      }
      k := k + 1;
    }
    k := |bounds| - 1;
  }

  /** A reported bound other than the last covers the fraction of the samples, and no bound
      below it does. */
  lemma {:induction false} PercentileCovers(bounds: seq<real>, samples: seq<real>, p: real, k: int)
    requires FirstCovering(bounds, samples, Share(p, |samples|), k)
    ensures k < |bounds| - 1 ==> AtMost(samples, bounds[k]) as real >= |samples| as real * p
    ensures forall i :: 0 <= i < k ==> (AtMost(samples, bounds[i]) as real) < |samples| as real * p
  {
  }

  lemma {:induction false} CoverGrows(bounds: seq<real>, samples: seq<real>, s: real, k: int, t: real, m: int)
    requires s <= t
    requires FirstCovering(bounds, samples, s, k) && FirstCovering(bounds, samples, t, m)
    ensures k <= m
  {
  }

  lemma {:induction false} ShareGrows(p: real, q: real, n: nat)
    requires p <= q
    ensures Share(p, n) <= Share(q, n)
  {
  }

  /** A percentile is determined by its fraction and grows with it. */
  lemma {:induction false} PercentilesMonotone(bounds: seq<real>, samples: seq<real>, p: real, a: real, q: real, b: real)
    requires Increasing(bounds) && p <= q
    requires IsPercentile(bounds, samples, p, a) && IsPercentile(bounds, samples, q, b)
    ensures a <= b && (p == q ==> a == b)
  {
    var s, t := Share(p, |samples|), Share(q, |samples|);
    ShareGrows(p, q, |samples|);
    var k :| FirstCovering(bounds, samples, s, k) && bounds[k] == a;
    var m :| FirstCovering(bounds, samples, t, m) && bounds[m] == b;
    CoverGrows(bounds, samples, s, k, t, m);
    if p == q {
      CoverGrows(bounds, samples, t, m, s, k);
    }
  }

  datatype Percentiles = Percentiles(p50: real, p95: real, p99: real, p999: real)

  /** The early-exit loop of `record`. */
  method FindBucket(bounds: seq<real>, x: real) returns (i: nat)
    ensures i == BucketOf(bounds, x)
  {
    i := 0;
    while i < |bounds|
      invariant i <= |bounds| && forall j :: 0 <= j < i ==> bounds[j] < x
      invariant BucketFrom(bounds, x, i) == BucketOf(bounds, x)
    {
      if x <= bounds[i] {
        break;
      }
      i := i + 1;
    }
  }

  class LatencyHist {
    const bounds: seq<real>
    var buckets: seq<nat>
    var count: nat
    var sumUs: nat
    ghost var samples: seq<real>

    ghost predicate Valid()
      reads this
    {
      Increasing(bounds) && Hist(buckets, count, sumUs) == After(bounds, samples)
    }

    constructor ()
      ensures Valid() && samples == [] && bounds == LATENCY_BUCKETS_MS
    {
      bounds := LATENCY_BUCKETS_MS;
      buckets, count, sumUs, samples := seq(|LATENCY_BUCKETS_MS|, _ => 0), 0, 0, [];
      ConfiguredBoundsIncrease();
    }

    method Record(x: real)
      requires Valid()
      modifies this
      ensures Valid() && samples == old(samples) + [x]
    {
      count := count + 1;
      sumUs := sumUs + Micros(x);
      var i := FindBucket(bounds, x);
      if i < |bounds| {
        buckets := buckets[i := buckets[i] + 1];
      }
      samples := samples + [x];
      assert Hist(buckets, count, sumUs) == Recorded(bounds, After(bounds, old(samples)), x);
      AfterSnoc(bounds, old(samples), x);
    }

    method Percentile(p: real) returns (b: real)
      requires Valid()
      ensures IsPercentile(bounds, samples, p, b)
    {
      CountAndSum(bounds, samples);
      var k := Compute(bounds, samples, Hist(buckets, count, sumUs), Share(p, count));
      b := bounds[k];
    }

    /** `percentiles`: nothing to report without samples, else four ordered bounds. */
    method Report() returns (r: Option<Percentiles>)
      requires Valid()
      ensures r.None? <==> samples == []
      ensures r.Some? ==>
                var v := r.value;
                && IsPercentile(bounds, samples, 0.50, v.p50)
                && IsPercentile(bounds, samples, 0.95, v.p95)
                && IsPercentile(bounds, samples, 0.99, v.p99)
                && IsPercentile(bounds, samples, 0.999, v.p999)
                && v.p50 <= v.p95 <= v.p99 <= v.p999
    {
      CountAndSum(bounds, samples);
      if count == 0 {
        return None;
      }
      var p50 := Percentile(0.50);
      var p95 := Percentile(0.95);
      var p99 := Percentile(0.99);
      var p999 := Percentile(0.999);
      PercentilesMonotone(bounds, samples, 0.50, p50, 0.95, p95);
      PercentilesMonotone(bounds, samples, 0.95, p95, 0.99, p99);
      PercentilesMonotone(bounds, samples, 0.99, p99, 0.999, p999);
      r := Some(Percentiles(p50, p95, p99, p999));
    }
  }
}
