/** The percentile bound of a bucketed latency histogram, and what it says about the samples behind it. */
module CaptureLatency {

  const MAX_COUNTER := 0xFFFF_FFFF
  const UPPER_MS: seq<nat> := [0, 1, 5, 10, 25, 50, 100, 250, 500, 1000, 5000, 15000, MAX_COUNTER]

  datatype Histogram = Histogram(buckets: seq<nat>, samples: nat, maxMs: nat, saturated: bool)

  function SumTo(buckets: seq<nat>, n: nat): nat
    requires n <= |buckets|
  {
    if n == 0 then 0 else SumTo(buckets, n - 1) + buckets[n - 1]
  }

  /** The first bucket from n on whose bound is at least ms. */
  function BucketFrom(ms: nat, n: nat): (i: nat)
    requires n < |UPPER_MS| && ms <= MAX_COUNTER
    ensures n <= i < |UPPER_MS| && ms <= UPPER_MS[i]
    ensures forall j :: n <= j < i ==> UPPER_MS[j] < ms
    decreases |UPPER_MS| - n
  {
    if ms <= UPPER_MS[n] then n else BucketFrom(ms, n + 1)
  }

  function BucketOf(ms: nat): (i: nat)
    requires ms <= MAX_COUNTER
    ensures i < |UPPER_MS| && ms <= UPPER_MS[i] && forall j :: 0 <= j < i ==> UPPER_MS[j] < ms
  {
    BucketFrom(ms, 0)
  }

  /** The field bounds and the consistency check of a received histogram. */
  predicate Valid(h: Histogram) {
    && |h.buckets| == |UPPER_MS| && h.samples <= MAX_COUNTER && h.maxMs <= MAX_COUNTER
    && SumTo(h.buckets, |h.buckets|) == h.samples
    && (h.saturated ==> h.samples == MAX_COUNTER)
    && (h.samples == 0 ==> h.maxMs == 0)
    && (h.samples > 0 ==>
          h.buckets[BucketOf(h.maxMs)] > 0 && forall i :: BucketOf(h.maxMs) < i < |h.buckets| ==> h.buckets[i] == 0)
  }

  datatype Answer = BadPercentile | NoAnswer | UpperMs(ms: nat)

  function Rank(samples: nat, percentile: nat): nat {
    (samples * percentile + 99) / 100
  }

  function Min(a: nat, b: nat): nat { if a < b then a else b }

  /** `percentile_upper_ms`: the bound of the first bucket whose running total reaches the rank. */
  method PercentileUpperMs(h: Histogram, percentile: int) returns (answer: Answer)
    requires |h.buckets| == |UPPER_MS|
    ensures answer == PercentileOf(h, percentile)
  {
    if !(1 <= percentile <= 100) { return BadPercentile; }
    if h.samples == 0 || h.saturated { return NoAnswer; }
    var rank, total := Rank(h.samples, percentile), 0;
    for i := 0 to |UPPER_MS|
      invariant total == SumTo(h.buckets, i) && FirstReaching(h.buckets, rank, i) == i
    {
      total := total + h.buckets[i];
      if total >= rank {
        ReachingStays(h.buckets, rank, i + 1, |UPPER_MS|);
        return UpperMs(Min(UPPER_MS[i], h.maxMs));
      }
    }
    return NoAnswer;
  }

  /** The first of the first n buckets whose running total reaches the rank, or n. */
  function FirstReaching(buckets: seq<nat>, rank: nat, n: nat): (i: nat)
    requires n <= |buckets|
    ensures i <= n && (i < n ==> SumTo(buckets, i + 1) >= rank)
    ensures forall j :: 0 < j <= i ==> SumTo(buckets, j) < rank
  {
    if n == 0 then 0
    else
      var before := FirstReaching(buckets, rank, n - 1);
      if before < n - 1 then before else if SumTo(buckets, n) >= rank then n - 1 else n
  }

  lemma {:induction false} ReachingStays(buckets: seq<nat>, rank: nat, n: nat, m: nat)
    requires n <= m <= |buckets| && FirstReaching(buckets, rank, n) < n
    ensures FirstReaching(buckets, rank, m) == FirstReaching(buckets, rank, n)
  {
    if n < m {
      ReachingStays(buckets, rank, n, m - 1);
    }
  }

  function PercentileOf(h: Histogram, percentile: int): Answer
    requires |h.buckets| == |UPPER_MS|
  {
    if !(1 <= percentile <= 100) then BadPercentile
    else if h.samples == 0 || h.saturated then NoAnswer
    else
      var i := FirstReaching(h.buckets, Rank(h.samples, percentile), |UPPER_MS|);
      if i == |UPPER_MS| then NoAnswer else UpperMs(Min(UPPER_MS[i], h.maxMs))
  }

  // ---- The samples behind a histogram ----

  predicate InBucket(ms: nat, i: nat)
    requires i < |UPPER_MS|
  {
    ms <= UPPER_MS[i] && (i == 0 || UPPER_MS[i - 1] < ms)
  }

  function CountIn(xs: seq<nat>, i: nat): nat
    requires i < |UPPER_MS|
  {
    if xs == [] then 0 else CountIn(xs[..|xs| - 1], i) + if InBucket(xs[|xs| - 1], i) then 1 else 0
  }

  ghost predicate Ordered(xs: seq<nat>) {
    && (forall k :: 0 <= k < |xs| ==> xs[k] <= MAX_COUNTER)
    && (forall i, j :: 0 <= i < j < |xs| ==> xs[i] <= xs[j])
  }

  /** The histogram counts exactly these samples, listed in ascending order. */
  ghost predicate Counts(h: Histogram, xs: seq<nat>) {
    && |h.buckets| == |UPPER_MS| && Ordered(xs) && |xs| == h.samples
    && (forall i :: 0 <= i < |UPPER_MS| ==> h.buckets[i] == CountIn(xs, i))
    && h.maxMs == if xs == [] then 0 else xs[|xs| - 1]
  }

  function CountUpTo(xs: seq<nat>, ms: nat): nat {
    if xs == [] then 0 else CountUpTo(xs[..|xs| - 1], ms) + if xs[|xs| - 1] <= ms then 1 else 0
  }

  /** Among ascending samples, the r-th is within a bound exactly when at least r of them are. */
  lemma {:induction false} RankedWithin(xs: seq<nat>, ms: nat, r: nat)
    requires Ordered(xs) && 1 <= r <= |xs|
    ensures CountUpTo(xs, ms) <= |xs|
    ensures xs[r - 1] <= ms <==> CountUpTo(xs, ms) >= r
  {
    var n := |xs| - 1;
    CountBounded(xs[..n], ms);
    if r <= n {
      RankedWithin(xs[..n], ms, r);
      if n > 0 { RankedWithin(xs[..n], ms, n); }
    } else if n > 0 {
      RankedWithin(xs[..n], ms, n);
    }
  }

  lemma {:induction false} CountBounded(xs: seq<nat>, ms: nat)
    ensures CountUpTo(xs, ms) <= |xs|
  {
    if xs != [] {
      CountBounded(xs[..|xs| - 1], ms);
    }
  }

  lemma BoundsRise()
    ensures forall i, j :: 0 <= i < j < |UPPER_MS| ==> UPPER_MS[i] < UPPER_MS[j]
  {
  }

  lemma {:induction false} NextBucketAdds(xs: seq<nat>, i: nat)
    requires i < |UPPER_MS|
    ensures CountUpTo(xs, UPPER_MS[i]) == CountIn(xs, i) + if i == 0 then 0 else CountUpTo(xs, UPPER_MS[i - 1])
  {
    if xs != [] {
      NextBucketAdds(xs[..|xs| - 1], i);
      BoundsRise();
    }
  }

  /** A running total counts the samples up to that bucket's bound. */
  lemma {:induction false} TotalsCountSamples(h: Histogram, xs: seq<nat>, i: nat)
    requires Counts(h, xs) && i < |UPPER_MS|
    ensures SumTo(h.buckets, i + 1) == CountUpTo(xs, UPPER_MS[i])
  {
    NextBucketAdds(xs, i);
    if i > 0 {
      TotalsCountSamples(h, xs, i - 1);
    }
  }

  lemma RankIsPosition(samples: nat, percentile: nat)
    requires samples > 0 && 1 <= percentile <= 100
    ensures 1 <= Rank(samples, percentile) <= samples
    ensures percentile == 100 ==> Rank(samples, percentile) == samples
    ensures 100 * (Rank(samples, percentile) - 1) < samples * percentile <= 100 * Rank(samples, percentile)
  {
    var product := samples * percentile;
    assert samples <= product <= samples * 100;
  }

  /** The bucket found is that of the exact sample of that rank. */
  lemma FindsTheSamplesBucket(h: Histogram, xs: seq<nat>, r: nat)
    requires Counts(h, xs) && 1 <= r <= |xs|
    ensures FirstReaching(h.buckets, r, |UPPER_MS|) == BucketOf(xs[r - 1])
  {
    var found, exact := FirstReaching(h.buckets, r, |UPPER_MS|), BucketOf(xs[r - 1]);
    TotalsCountSamples(h, xs, exact);
    RankedWithin(xs, UPPER_MS[exact], r);
    assert found <= exact;
    TotalsCountSamples(h, xs, found);
    RankedWithin(xs, UPPER_MS[found], r);
  }

  /**
   For any samples the histogram counts: the answer exists, is at least the exact sample of the rank, lies in that
   sample's bucket, and never exceeds the true maximum.
   */
  lemma PercentileBoundsTheSample(h: Histogram, xs: seq<nat>, percentile: int)
    requires Counts(h, xs) && xs != [] && !h.saturated && 1 <= percentile <= 100
    ensures var r := Rank(h.samples, percentile); var a := PercentileOf(h, percentile);
            && 1 <= r <= |xs| && a.UpperMs? && xs[r - 1] <= a.ms <= h.maxMs
            && BucketOf(a.ms) == BucketOf(xs[r - 1])
  {
    var r := Rank(h.samples, percentile);
    RankIsPosition(h.samples, percentile);
    FindsTheSamplesBucket(h, xs, r);
    assert PercentileOf(h, percentile) == UpperMs(Min(UPPER_MS[BucketOf(xs[r - 1])], h.maxMs));
    SameBucket(xs[r - 1], PercentileOf(h, percentile).ms);
  }

  lemma SameBucket(x: nat, y: nat)
    requires x <= y <= MAX_COUNTER && y <= UPPER_MS[BucketOf(x)]
    ensures BucketOf(y) == BucketOf(x)
  {
    BoundsRise();
  }

  lemma {:induction false} ReachingRises(buckets: seq<nat>, r: nat, s: nat, n: nat)
    requires n <= |buckets| && r <= s
    ensures FirstReaching(buckets, r, n) <= FirstReaching(buckets, s, n)
  {
  }

  /** A higher percentile never gives a lower bound. */
  lemma PercentileRises(h: Histogram, xs: seq<nat>, p: int, q: int)
    requires Counts(h, xs) && xs != [] && !h.saturated && 1 <= p <= q <= 100
    ensures PercentileOf(h, p).UpperMs? && PercentileOf(h, q).UpperMs? && PercentileOf(h, p).ms <= PercentileOf(h, q).ms
  {
    PercentileBoundsTheSample(h, xs, p);
    PercentileBoundsTheSample(h, xs, q);
    RankRises(h.samples, p, q);
    ReachingRises(h.buckets, Rank(h.samples, p), Rank(h.samples, q), |UPPER_MS|);
    BoundRises(h.maxMs, FirstReaching(h.buckets, Rank(h.samples, p), |UPPER_MS|),
        FirstReaching(h.buckets, Rank(h.samples, q), |UPPER_MS|));
  }

  lemma BoundRises(top: nat, i: nat, j: nat)
    requires i <= j < |UPPER_MS|
    ensures Min(UPPER_MS[i], top) <= Min(UPPER_MS[j], top)
  {
    BoundsRise();
  }

  lemma RankRises(samples: nat, p: nat, q: nat)
    requires p <= q
    ensures Rank(samples, p) <= Rank(samples, q)
  {
    assert samples * p <= samples * q;
  }

  /** At 100 the answer is the true maximum. */
  lemma HundredIsTheMaximum(h: Histogram, xs: seq<nat>)
    requires Counts(h, xs) && xs != [] && !h.saturated
    ensures PercentileOf(h, 100) == UpperMs(xs[|xs| - 1])
  {
    PercentileBoundsTheSample(h, xs, 100);
    RankIsPosition(h.samples, 100);
  }

  // ---- The consistency check ----

  lemma {:induction false} AllUpToMax(xs: seq<nat>)
    requires forall k :: 0 <= k < |xs| ==> xs[k] <= MAX_COUNTER
    ensures CountUpTo(xs, MAX_COUNTER) == |xs|
  {
    if xs != [] {
      AllUpToMax(xs[..|xs| - 1]);
    }
  }

  lemma {:induction false} NoneAbove(xs: seq<nat>, top: nat, i: nat)
    requires (forall k :: 0 <= k < |xs| ==> xs[k] <= top) && top <= MAX_COUNTER && BucketOf(top) < i < |UPPER_MS|
    ensures CountIn(xs, i) == 0
  {
    if xs != [] {
      NoneAbove(xs[..|xs| - 1], top, i);
      BoundsRise();
      assert UPPER_MS[BucketOf(top)] <= UPPER_MS[i - 1];
    }
  }

  /** A histogram of real samples passes the check. */
  lemma SamplesAreValid(h: Histogram, xs: seq<nat>)
    requires Counts(h, xs) && |xs| <= MAX_COUNTER && (h.saturated ==> |xs| == MAX_COUNTER)
    ensures Valid(h)
  {
    TotalsCountSamples(h, xs, |UPPER_MS| - 1);
    AllUpToMax(xs);
    if xs != [] {
      forall i | BucketOf(h.maxMs) < i < |UPPER_MS|
        ensures h.buckets[i] == 0
      {
        NoneAbove(xs, h.maxMs, i);
      }
    }
  }

  function Repeat(ms: nat, n: nat): (xs: seq<nat>)
    ensures |xs| == n && forall k :: 0 <= k < n ==> xs[k] == ms
  {
    if n == 0 then [] else Repeat(ms, n - 1) + [ms]
  }

  /** Samples these buckets could have counted: each bucket's bound, or the maximum where that is lower. */
  ghost function Witness(buckets: seq<nat>, top: nat, n: nat): (xs: seq<nat>)
    requires n <= |buckets| == |UPPER_MS|
    ensures |xs| == SumTo(buckets, n)
  {
    if n == 0 then [] else Witness(buckets, top, n - 1) + Repeat(Min(UPPER_MS[n - 1], top), buckets[n - 1])
  }

  lemma CountInAppend(xs: seq<nat>, ms: nat, i: nat)
    requires i < |UPPER_MS|
    ensures CountIn(xs + [ms], i) == CountIn(xs, i) + if InBucket(ms, i) then 1 else 0
  {
    assert (xs + [ms])[..|xs|] == xs;
  }

  lemma {:induction false} CountInConcat(xs: seq<nat>, ms: nat, n: nat, i: nat)
    requires i < |UPPER_MS|
    ensures CountIn(xs + Repeat(ms, n), i) == CountIn(xs, i) + if InBucket(ms, i) then n else 0
  {
    if n == 0 {
      assert xs + Repeat(ms, n) == xs;
    } else {
      CountInConcat(xs, ms, n - 1, i);
      CountInAppend(xs + Repeat(ms, n - 1), ms, i);
      assert xs + Repeat(ms, n) == xs + Repeat(ms, n - 1) + [ms];
    }
  }

  lemma {:induction false} WitnessOrdered(buckets: seq<nat>, top: nat, n: nat)
    requires n <= |buckets| == |UPPER_MS| && top <= MAX_COUNTER
    ensures Ordered(Witness(buckets, top, n))
    ensures forall k :: 0 <= k < |Witness(buckets, top, n)| ==>
              n > 0 && Witness(buckets, top, n)[k] <= Min(UPPER_MS[n - 1], top)
  {
    if n > 0 {
      WitnessOrdered(buckets, top, n - 1);
      if n > 1 { BoundRises(top, n - 2, n - 1); }
      var before, more := Witness(buckets, top, n - 1), Repeat(Min(UPPER_MS[n - 1], top), buckets[n - 1]);
      assert forall k :: 0 <= k < |before| ==> before[k] <= Min(UPPER_MS[n - 1], top);
      assert Witness(buckets, top, n) == before + more;
    }
  }

  /** Every occupied bucket holds its own witness. */
  ghost predicate Occupied(buckets: seq<nat>, top: nat)
    requires |buckets| == |UPPER_MS|
  {
    forall j :: 0 <= j < |buckets| && buckets[j] > 0 ==> InBucket(Min(UPPER_MS[j], top), j)
  }

  lemma OnlyBucket(ms: nat, i: nat, j: nat)
    requires i < |UPPER_MS| && j < |UPPER_MS| && InBucket(ms, i) && InBucket(ms, j)
    ensures i == j
  {
    BoundsRise();
  }

  lemma OneMoreBucket(before: seq<nat>, ms: nat, count: nat, j: nat, i: nat)
    requires i < |UPPER_MS| && j < |UPPER_MS| && (count > 0 ==> InBucket(ms, j))
    ensures CountIn(before + Repeat(ms, count), i) == CountIn(before, i) + if i == j then count else 0
  {
    CountInConcat(before, ms, count, i);
    if count > 0 && InBucket(ms, i) { OnlyBucket(ms, i, j); }
  }

  lemma {:induction false} WitnessCounts(buckets: seq<nat>, top: nat, n: nat, i: nat)
    requires n <= |buckets| == |UPPER_MS| && i < |UPPER_MS| && Occupied(buckets, top)
    ensures CountIn(Witness(buckets, top, n), i) == if i < n then buckets[i] else 0
  {
    if n > 0 {
      WitnessCounts(buckets, top, n - 1, i);
      OneMoreBucket(Witness(buckets, top, n - 1), Min(UPPER_MS[n - 1], top), buckets[n - 1], n - 1, i);
    }
  }

  lemma ValidIsOccupied(h: Histogram)
    requires Valid(h) && h.samples > 0
    ensures Occupied(h.buckets, h.maxMs)
  {
    forall i | 0 <= i < |h.buckets| && h.buckets[i] > 0
      ensures InBucket(Min(UPPER_MS[i], h.maxMs), i)
    {
      BoundInBucket(h.maxMs, i);
    }
  }

  lemma BoundInBucket(top: nat, i: nat)
    requires top <= MAX_COUNTER && i <= BucketOf(top)
    ensures InBucket(Min(UPPER_MS[i], top), i)
  {
    BoundsRise();
  }

  lemma {:induction false} LastIsMax(buckets: seq<nat>, top: nat, last: nat, n: nat)
    requires last < n <= |buckets| == |UPPER_MS| && buckets[last] > 0 && top <= UPPER_MS[last]
    requires forall i :: last < i < n ==> buckets[i] == 0
    ensures Witness(buckets, top, n) != [] && Witness(buckets, top, n)[|Witness(buckets, top, n)| - 1] == top
  {
    var before, more := Witness(buckets, top, n - 1), Repeat(Min(UPPER_MS[n - 1], top), buckets[n - 1]);
    assert Witness(buckets, top, n) == before + more;
    if n - 1 > last {
      LastIsMax(buckets, top, last, n - 1);
      assert more == [];
    } else {
      assert more[|more| - 1] == top;
    }
  }

  /** Every histogram that passes the check counts some samples: the check accepts nothing impossible. */
  lemma ValidHasSamples(h: Histogram)
    requires Valid(h)
    ensures exists xs :: Counts(h, xs)
  {
    if h.samples > 0 {
      var xs := Witness(h.buckets, h.maxMs, |UPPER_MS|);
      ValidIsOccupied(h);
      WitnessOrdered(h.buckets, h.maxMs, |UPPER_MS|);
      forall i | 0 <= i < |UPPER_MS| ensures h.buckets[i] == CountIn(xs, i) {
        WitnessCounts(h.buckets, h.maxMs, |UPPER_MS|, i);
      }
      LastIsMax(h.buckets, h.maxMs, BucketOf(h.maxMs), |UPPER_MS|);
      assert Counts(h, xs);
    } else {
      forall i | 0 <= i < |UPPER_MS|
        ensures h.buckets[i] == 0
      {
        EmptyBuckets(h.buckets, i, |UPPER_MS|);
      }
      assert Counts(h, []);
    }
  }

  /** The check accepts exactly the histograms of at most 2^32 - 1 samples, saturated only at that many. */
  lemma ValidExactly(h: Histogram)
    ensures Valid(h) <==>
              (exists xs :: Counts(h, xs) && |xs| <= 0xFFFF_FFFF) && (h.saturated ==> h.samples == 0xFFFF_FFFF)
  {
    if Valid(h) {
      ValidHasSamples(h);
    }
    if xs :| Counts(h, xs) && |xs| <= 0xFFFF_FFFF && (h.saturated ==> h.samples == 0xFFFF_FFFF) {
      SamplesAreValid(h, xs);
    }
  }

  /** A valid histogram answers every percentile from 1 to 100 unless it is empty or saturated. */
  lemma AnswersExactly(h: Histogram, percentile: int)
    requires Valid(h)
    ensures PercentileOf(h, percentile) == BadPercentile <==> percentile < 1 || percentile > 100
    ensures PercentileOf(h, percentile) == NoAnswer <==> 1 <= percentile <= 100 && (h.samples == 0 || h.saturated)
  {
    ValidHasSamples(h);
    var xs :| Counts(h, xs);
    if 1 <= percentile <= 100 && xs != [] && !h.saturated {
      PercentileBoundsTheSample(h, xs, percentile);
    }
  }

  lemma {:induction false} EmptyBuckets(buckets: seq<nat>, i: nat, n: nat)
    requires i < n <= |buckets| && SumTo(buckets, n) == 0
    ensures buckets[i] == 0
  {
    if i < n - 1 {
      EmptyBuckets(buckets, i, n - 1);
    }
  }
}
