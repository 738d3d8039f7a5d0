/** Call metrics of one method: counters and a latency histogram with fixed buckets, from which
    quantiles are read as bucket bounds.  The number of the sample a quantile asks for is computed
    in float64, as in Floats; the bounds reported are exact milliseconds. */
module Metrics {
  import opened Basics
  import opened Floats

  /** Upper bounds of the buckets in microseconds; one more bucket takes what is above. */
  const BOUNDS: seq<nat> := [10, 20, 50, 100, 200, 500,
                             1_000, 2_000, 5_000, 10_000, 20_000, 50_000,
                             100_000, 200_000, 500_000, 1_000_000, 10_000_000]

  const BUCKETS := 18

  /** A latency x falls into bucket i: above the previous bound and not above the own one. */
  predicate InBucket(x: nat, i: nat)
    requires i < BUCKETS
  {
    (i > 0 ==> BOUNDS[i - 1] < x) && (i < BUCKETS - 1 ==> x <= BOUNDS[i])
  }

  predicate IsHistogram(counts: seq<nat>) { |counts| == BUCKETS }

  /** The first bucket whose bound is not exceeded. */
  function BucketOf(x: nat): (i: nat)
    ensures i < BUCKETS && InBucket(x, i)
  {
    BucketFrom(x, 0)
  }

  function BucketFrom(x: nat, i: nat): (r: nat)
    requires i < BUCKETS && (i > 0 ==> BOUNDS[i - 1] < x)
    ensures i <= r < BUCKETS && InBucket(x, r)
    decreases BUCKETS - i
  {
    if i == BUCKETS - 1 || x <= BOUNDS[i] then i else BucketFrom(x, i + 1)
  }

  lemma {:induction false} BoundsIncrease(i: nat, j: nat)
    requires i < j < BUCKETS - 1
    ensures BOUNDS[i] < BOUNDS[j]
    decreases j
  {
    assert BOUNDS[j - 1] < BOUNDS[j];
    if i < j - 1 { BoundsIncrease(i, j - 1); }
  }

  /** The bounds are 10, 20 and 50 times a power of ten up to half a second, then one second and
      ten. */
  lemma {:induction false} OneTwoFive(k: nat)
    ensures |BOUNDS| == 17 && BUCKETS == 18 && BOUNDS[15] == 1_000_000 && BOUNDS[16] == 10_000_000
    ensures k < 5 ==> BOUNDS[3 * k] == 10 * Power10(k)
    ensures k < 5 ==> BOUNDS[3 * k + 1] == 20 * Power10(k) && BOUNDS[3 * k + 2] == 50 * Power10(k)
  {
    assert Power10(0) == 1 && Power10(1) == 10 && Power10(2) == 100;
    assert Power10(3) == 1_000 && Power10(4) == 10_000;
  }

  function Power10(k: nat): nat { if k == 0 then 1 else 10 * Power10(k - 1) }

  /** Every latency has one bucket, and longer ones never have an earlier one. */
  lemma {:induction false} BucketsOrdered(x: nat, i: nat, y: nat, j: nat)
    requires i < BUCKETS && j < BUCKETS && InBucket(x, i) && InBucket(y, j) && x <= y
    ensures i <= j
  {
    if j < i - 1 { BoundsIncrease(j, i - 1); }
  }

  method BucketIndex(us: nat) returns (r: nat)
    ensures r == BucketOf(us)
  {
    var i := 0;
    while i < |BOUNDS|
      invariant i <= |BOUNDS| && (i > 0 ==> BOUNDS[i - 1] < us)
      invariant BucketFrom(us, i) == BucketOf(us)
    {
      if us <= BOUNDS[i] { return i; }
      i := i + 1;
    }
    return BUCKETS - 1;
  }

  // ---------------------------------------------------------------- counting samples

  /** How many of the samples fall into the buckets up to i. */
  function AtMost(samples: seq<nat>, i: nat): nat {
    if samples == [] then 0 else (if BucketOf(samples[0]) <= i then 1 else 0) + AtMost(samples[1..], i)
  }

  /** How many fall into bucket i. */
  function Hits(samples: seq<nat>, i: nat): nat {
    if samples == [] then 0 else (if BucketOf(samples[0]) == i then 1 else 0) + Hits(samples[1..], i)
  }

  /** The counts of the first n buckets together. */
  function Sum(counts: seq<nat>, n: nat): nat
    requires n <= |counts|
  {
    if n == 0 then 0 else Sum(counts, n - 1) + counts[n - 1]
  }

  /** The buckets count these samples. */
  ghost predicate Counts(counts: seq<nat>, samples: seq<nat>) {
    IsHistogram(counts) && forall i :: 0 <= i < BUCKETS ==> counts[i] == Hits(samples, i)
  }

  lemma {:induction false} HitsSnoc(samples: seq<nat>, x: nat, i: nat)
    ensures Hits(samples + [x], i) == Hits(samples, i) + if BucketOf(x) == i then 1 else 0
  {
    if samples == [] {
      assert [] + [x] == [x];
    } else {
      assert (samples + [x])[1..] == samples[1..] + [x];
      HitsSnoc(samples[1..], x, i);
    }
  }

  lemma {:induction false} CountsSnoc(counts: seq<nat>, samples: seq<nat>, x: nat)
    requires Counts(counts, samples)
    ensures Counts(counts[BucketOf(x) := counts[BucketOf(x)] + 1], samples + [x])
  {
    forall i | 0 <= i < BUCKETS ensures Hits(samples + [x], i) == Hits(samples, i) + if i == BucketOf(x) then 1 else 0 {
      HitsSnoc(samples, x, i);
    }
  }

  lemma {:induction false} AtMostSplit(samples: seq<nat>, i: nat)
    ensures AtMost(samples, i) == Hits(samples, i) + if i == 0 then 0 else AtMost(samples, i - 1)
  {
    if samples != [] { AtMostSplit(samples[1..], i); }
  }

  lemma {:induction false} SumIsAtMost(counts: seq<nat>, samples: seq<nat>, n: nat)
    requires Counts(counts, samples) && n <= BUCKETS
    ensures Sum(counts, n) == if n == 0 then 0 else AtMost(samples, n - 1)
  {
    if n > 0 {
      SumIsAtMost(counts, samples, n - 1);
      AtMostSplit(samples, n - 1);
    }
  }

  lemma {:induction false} AllAtMost(samples: seq<nat>)
    ensures AtMost(samples, BUCKETS - 1) == |samples|
  {
    if samples != [] { AllAtMost(samples[1..]); }
  }

  /** The counter of all calls is the sum of the buckets. */
  lemma {:induction false} TotalIsSum(counts: seq<nat>, samples: seq<nat>)
    requires Counts(counts, samples)
    ensures Sum(counts, BUCKETS) == |samples|
  {
    SumIsAtMost(counts, samples, BUCKETS);
    AllAtMost(samples);
  }

  // ---------------------------------------------------------------- order statistics

  predicate Sorted(s: seq<nat>) { forall i, j :: 0 <= i < j < |s| ==> s[i] <= s[j] }

  lemma {:induction false} AtMostConcat(a: seq<nat>, b: seq<nat>, i: nat)
    ensures AtMost(a + b, i) == AtMost(a, i) + AtMost(b, i)
  {
    if a == [] {
      assert a + b == b;
    } else {
      assert (a + b)[1..] == a[1..] + b;
      AtMostConcat(a[1..], b, i);
    }
  }

  /** Reordering the samples changes no count. */
  lemma {:induction false} AtMostReordered(a: seq<nat>, b: seq<nat>, i: nat)
    requires multiset(a) == multiset(b)
    ensures AtMost(a, i) == AtMost(b, i) && |a| == |b|
  {
    assert |multiset(a)| == |a| && |multiset(b)| == |b|;
    if a == [] {
      assert b == [];
    } else {
      assert a[0] in multiset(b);
      var k :| 0 <= k < |b| && b[k] == a[0];
      assert a == [a[0]] + a[1..];
      assert multiset(a[1..]) == multiset(a) - multiset{a[0]};
      AtMostTakenOut(b, k, i);
      AtMostReordered(a[1..], b[..k] + b[k + 1..], i);
    }
  }

  lemma {:induction false} AtMostTakenOut(b: seq<nat>, k: nat, i: nat)
    requires k < |b|
    ensures multiset(b[..k] + b[k + 1..]) == multiset(b) - multiset{b[k]}
    ensures AtMost(b, i) == AtMost(b[..k] + b[k + 1..], i) + if BucketOf(b[k]) <= i then 1 else 0
  {
    assert b == b[..k] + ([b[k]] + b[k + 1..]);
    AtMostConcat(b[..k], [b[k]] + b[k + 1..], i);
    AtMostConcat([b[k]], b[k + 1..], i);
    AtMostConcat(b[..k], b[k + 1..], i);
  }

  /** In sorted samples those in the buckets up to i come first. */
  lemma {:induction false} SortedByBucket(sorted: seq<nat>, i: nat, k: nat)
    requires Sorted(sorted) && k < |sorted|
    ensures k < AtMost(sorted, i) <==> BucketOf(sorted[k]) <= i
  {
    if BucketOf(sorted[0]) > i {
      NoneAtMost(sorted, i);
      BucketsOrdered(sorted[0], BucketOf(sorted[0]), sorted[k], BucketOf(sorted[k]));
    } else if k > 0 {
      SortedByBucket(sorted[1..], i, k - 1);
    }
  }

  lemma {:induction false} NoneAtMost(sorted: seq<nat>, i: nat)
    requires Sorted(sorted) && (sorted != [] ==> BucketOf(sorted[0]) > i)
    ensures AtMost(sorted, i) == 0
  {
    if |sorted| > 1 {
      BucketsOrdered(sorted[0], BucketOf(sorted[0]), sorted[1], BucketOf(sorted[1]));
      NoneAtMost(sorted[1..], i);
    }
  }

  // ---------------------------------------------------------------- quantiles

  /** The first bucket with at least target samples up to and including it. */
  function Rank(counts: seq<nat>, target: nat, i: nat): (r: nat)
    requires IsHistogram(counts) && i < BUCKETS
    ensures i <= r < BUCKETS
    ensures r == BUCKETS - 1 || Sum(counts, r + 1) >= target
    ensures r > i ==> Sum(counts, r) < target
    decreases BUCKETS - i
  {
    if Sum(counts, i + 1) >= target || i == BUCKETS - 1 then i else Rank(counts, target, i + 1)
  }

  /** The float64 constants 0.50, 0.90 and 0.99, in parts of 2^53. */
  const P50: nat := 4503599627370496
  const P90: nat := 8106479329266893
  const P99: nat := 8917127262193582

  /** uint64(float64(total) * p): the number of calls and its product with p are rounded, and the
      fraction dropped. */
  function Scaled(total: nat, p: nat): nat { Round(Round(total) * p) / TWO53 }

  /** Which sample, counted from the smallest as 1, the quantile p asks for. */
  function Target(total: nat, p: nat): nat { if Scaled(total, p) == 0 then 1 else Scaled(total, p) }

  /** The bound of a bucket in milliseconds; of the last one, that of the one before. */
  function BoundMS(i: nat): real {
    BOUNDS[if i >= |BOUNDS| then |BOUNDS| - 1 else i] as real / 1000.0
  }

  method PercentileMS(counts: seq<nat>, total: nat, p: nat) returns (r: real)
    requires IsHistogram(counts)
    ensures r == if total == 0 then 0.0 else BoundMS(Rank(counts, Target(total, p), 0))
  {
    if total == 0 { return 0.0; }
    var target := Scaled(total, p);
    if target == 0 { target := 1; }
    var i := Cumulate(counts, target);
    return BoundMS(i);
  }

  /** The loop of PercentileMS. */
  method Cumulate(counts: seq<nat>, target: nat) returns (i: nat)
    requires IsHistogram(counts)
    ensures i == Rank(counts, target, 0)
  {
    var cum := 0;
    i := 0;
    while i < BUCKETS
      invariant i <= BUCKETS && cum == Sum(counts, i)
      invariant i < BUCKETS ==> Rank(counts, target, i) == Rank(counts, target, 0)
      invariant i == BUCKETS ==> Rank(counts, target, 0) == BUCKETS - 1
    {
      cum := cum + counts[i];
      if cum >= target { return i; }
      i := i + 1;
    }
    return BUCKETS - 1;
  }

  /** The last bucket that is not empty. */
  function Highest(counts: seq<nat>, n: nat): (r: Option<nat>)
    requires IsHistogram(counts) && n <= BUCKETS
  {
    if n == 0 then None else if counts[n - 1] > 0 then Some(n - 1) else Highest(counts, n - 1)
  }

  method MaxSeenMS(counts: seq<nat>) returns (r: real)
    requires IsHistogram(counts)
    ensures r == match Highest(counts, BUCKETS) case Some(i) => BoundMS(i) case None => 0.0
  {
    var i: int := BUCKETS - 1;
    while i >= 0
      invariant -1 <= i < BUCKETS && Highest(counts, i + 1) == Highest(counts, BUCKETS)
    {
      if counts[i] > 0 { return BoundMS(i); }
      i := i - 1;
    }
    return 0.0;
  }

  /** The quantile is the bucket of the target-th smallest sample. */
  lemma {:induction false} QuantileBucket(counts: seq<nat>, samples: seq<nat>, sorted: seq<nat>, target: nat)
    requires Counts(counts, samples) && Sorted(sorted) && multiset(sorted) == multiset(samples)
    requires 1 <= target <= |samples|
    ensures |sorted| == |samples|
    ensures Rank(counts, target, 0) == BucketOf(sorted[target - 1])
  {
    var r := Rank(counts, target, 0);
    TotalIsSum(counts, samples);
    CumulatedSorted(counts, samples, sorted, r, target);
    if r > 0 { CumulatedSorted(counts, samples, sorted, r - 1, target); }
  }

  /** The first i + 1 buckets hold at least target samples exactly when the target-th smallest
      lies in one of them. */
  lemma {:induction false} CumulatedSorted(counts: seq<nat>, samples: seq<nat>, sorted: seq<nat>, i: nat, target: nat)
    requires Counts(counts, samples) && Sorted(sorted) && multiset(sorted) == multiset(samples)
    requires 1 <= target <= |samples| && i < BUCKETS
    ensures |sorted| == |samples| && (target <= Sum(counts, i + 1) <==> BucketOf(sorted[target - 1]) <= i)
  {
    AtMostReordered(samples, sorted, i);
    SumIsAtMost(counts, samples, i + 1);
    SortedByBucket(sorted, i, target - 1);
  }

  /** A count is the step of the cumulated counts, whatever the order of the samples. */
  lemma {:induction false} CountIsStep(counts: seq<nat>, samples: seq<nat>, sorted: seq<nat>, i: nat)
    requires Counts(counts, samples) && multiset(sorted) == multiset(samples) && i < BUCKETS
    ensures counts[i] == AtMost(sorted, i) - if i == 0 then 0 else AtMost(sorted, i - 1)
  {
    AtMostSplit(samples, i);
    AtMostReordered(samples, sorted, i);
    if i > 0 { AtMostReordered(samples, sorted, i - 1); }
  }

  lemma {:induction false} TopBucket(sorted: seq<nat>, i: nat)
    requires Sorted(sorted) && sorted != []
    ensures AtMost(sorted, i) == |sorted| <==> BucketOf(sorted[|sorted| - 1]) <= i
  {
    SortedByBucket(sorted, i, |sorted| - 1);
    AllBelow(sorted, i);
  }

  /** With nothing above it, a bucket is in use exactly if it is that of the largest sample. */
  lemma {:induction false} InUse(counts: seq<nat>, samples: seq<nat>, sorted: seq<nat>, i: nat)
    requires Counts(counts, samples) && Sorted(sorted) && multiset(sorted) == multiset(samples)
    requires sorted != [] && i < BUCKETS && BucketOf(sorted[|sorted| - 1]) <= i
    ensures counts[i] > 0 <==> BucketOf(sorted[|sorted| - 1]) == i
  {
    TopBucket(sorted, i);
    CountIsStep(counts, samples, sorted, i);
    if i > 0 {
      TopBucket(sorted, i - 1);
      AllBelow(sorted, i - 1);
    }
  }

  /** The highest bucket in use is that of the largest sample. */
  lemma {:induction false} HighestBucket(counts: seq<nat>, samples: seq<nat>, sorted: seq<nat>, n: nat)
    requires Counts(counts, samples) && Sorted(sorted) && multiset(sorted) == multiset(samples)
    requires sorted != [] && n <= BUCKETS && BucketOf(sorted[|sorted| - 1]) < n
    ensures Highest(counts, n) == Some(BucketOf(sorted[|sorted| - 1]))
  {
    InUse(counts, samples, sorted, n - 1);
    if BucketOf(sorted[|sorted| - 1]) < n - 1 { HighestBucket(counts, samples, sorted, n - 1); }
  }

  lemma {:induction false} AllBelow(samples: seq<nat>, i: nat)
    ensures AtMost(samples, i) <= |samples|
  {
    if samples != [] { AllBelow(samples[1..], i); }
  }

  /** Despite the rounding a larger quantile never asks for an earlier sample, and none, of those
      up to 0.999, for more than there are. */
  lemma {:induction false} TargetInRange(total: nat, p: nat, q: nat)
    requires total > 0 && p <= q && 1000 * q <= 999 * TWO53
    ensures 1 <= Target(total, p) <= Target(total, q) <= total
  {
    Products(Round(total), p, q);
    RoundMonotone(Round(total) * p, Round(total) * q);
    ScaledBelow(total, q);
  }

  lemma {:induction false} Products(n: nat, p: nat, q: nat)
    requires p <= q
    ensures n * p <= n * q
  {
  }

  lemma {:induction false} ScaledBelow(total: nat, q: nat)
    requires 1000 * q <= 999 * TWO53
    ensures Scaled(total, q) <= total
  {
    RoundError(total);
    RoundError(Round(total) * q);
    PartOf(Round(total), q);
    RoundedTwice(total, Round(total), Round(total) * q, Round(Round(total) * q));
  }

  lemma {:induction false} PartOf(n: nat, q: nat)
    requires 1000 * q <= 999 * TWO53
    ensures 1000 * (n * q) <= n * (999 * TWO53)
  {
    Products(n, 1000 * q, 999 * TWO53);
    assert 1000 * (n * q) == n * (1000 * q);
  }

  lemma {:induction false} RoundedTwice(total: nat, n: nat, x: nat, r: nat)
    requires TWO53 * n <= (TWO53 + 1) * total && 1000 * x <= n * (999 * TWO53) && TWO53 * r <= (TWO53 + 1) * x
    ensures r / TWO53 <= total
  {
  }

  /** The whole part of p hundredths. */
  function Hundredths(total: nat, p: nat): nat { total * p / 100 }

  /** The first number with a remainder of 99 hundredths from 2^47 / 0.99 on. */
  const FIRST_MISS: nat := 142_159_079_146_801

  /** For fewer calls than that the floating-point computation gives exactly the whole part of half,
      nine tenths and 99 hundredths of them: the rounding makes good what the constants lack.  For
      that many it gives one more. */
  lemma {:induction false} ScaledExactly(total: nat)
    ensures total < FIRST_MISS ==>
      && Scaled(total, P50) == Hundredths(total, 50) && Scaled(total, P90) == Hundredths(total, 90)
      && Scaled(total, P99) == Hundredths(total, 99)
    ensures Scaled(FIRST_MISS, P99) == Hundredths(FIRST_MISS, 99) + 1
  {
    if total < FIRST_MISS {
      Exactly(total, P50, 50);
      Exactly(total, P90, 90);
      Exactly(total, P99, 99);
    }
    OneMore();
  }

  lemma {:induction false} Exactly(total: nat, m: nat, p: nat)
    requires total < FIRST_MISS
    requires (m == P50 && p == 50) || (m == P90 && p == 90) || (m == P99 && p == 99)
    ensures Scaled(total, m) == Hundredths(total, p)
  {
    if p == 50 { Around50(total); } else if p == 90 { Around90(total); } else { Around99(total); }
    RoundError(total);
    ReachesWhole(total * m, Hundredths(total, p), total);
    StaysBelow(total, total * m, Hundredths(total, p));
  }

  /** The product n lies so close to the whole number a, from below, and not so close to the next. */
  predicate Placed(total: nat, n: nat, a: nat) {
    && 100 * a * TWO53 <= 100 * n + 8 * total && 49 * total * TWO53 <= 100 * n && 32 * n < TWO53 * TWO53
    && (100 * n <= (100 * a + 98) * TWO53 || (100 * n <= (100 * a + 99) * TWO53 && 64 * n < TWO53 * TWO53))
  }

  lemma {:induction false} Around50(total: nat)
    requires total < FIRST_MISS
    ensures Placed(total, total * P50, Hundredths(total, 50))
  {
    Around(total, 50 * total, total * P50, 0);
  }

  lemma {:induction false} Around90(total: nat)
    requires total < FIRST_MISS
    ensures Placed(total, total * P90, Hundredths(total, 90))
  {
    Around(total, 90 * total, total * P90, 20 * total);
  }

  lemma {:induction false} Around99(total: nat)
    requires total < FIRST_MISS
    ensures Placed(total, total * P99, Hundredths(total, 99))
  {
    Remainder(total);
    Around(total, 99 * total, total * P99, -8 * total);
  }

  lemma {:induction false} Remainder(total: nat)
    ensures 99 * total % 100 == 99 ==> total % 100 == 1
  {
  }

  lemma {:induction false} Around(total: nat, x: nat, n: nat, d: int)
    requires total < FIRST_MISS && 50 * total <= x <= 99 * total && 100 * n == x * TWO53 + d
    requires -8 * total <= d <= 20 * total && (d > 0 ==> x % 100 <= 90)
    requires x % 100 == 99 ==> total <= FIRST_MISS - 100 && d == -8 * total
    ensures Placed(total, n, x / 100)
  {
    assert x == 100 * (x / 100) + x % 100;
  }

  /** The rounded product is not below the whole part: that is within half a unit, if it is above. */
  lemma {:induction false} ReachesWhole(n: nat, a: nat, total: nat)
    requires Placed(total, n, a)
    ensures Round(n) >= a * TWO53
  {
    var c := UnitDivides(n);
    UnitBounds(n);
    Regroup(a, c, Unit(n));
    if a * TWO53 <= n { NearestAbove(n, Unit(n), a * c); } else { NearestHit(n, Unit(n), a * c, a * TWO53); }
  }

  lemma {:induction false} Regroup(a: nat, c: nat, u: nat)
    ensures a * c * u == a * (c * u)
  {
  }

  /** Nor does it reach the next whole number, as half a unit is less than what is missing. */
  lemma {:induction false} StaysBelow(total: nat, n: nat, a: nat)
    requires Placed(total, n, a)
    ensures Round(n) < (a + 1) * TWO53
  {
    Powers();
    UnitAtMost(n, 48);
    if 64 * n < TWO53 * TWO53 { UnitAtMost(n, 47); }
    NearestBounds(n, Unit(n));
  }

  lemma {:induction false} Powers()
    ensures 64 * Pow2(47) == 32 * Pow2(48) == TWO53
  {
    Pow2Of53();
    Pow2Sum(6, 47);
    assert Pow2(6) == 64;
  }

  lemma {:induction false} OneMore()
    ensures Scaled(FIRST_MISS, P99) == Hundredths(FIRST_MISS, 99) + 1
  {
    RoundError(FIRST_MISS);
    var n := FIRST_MISS * P99;
    var k := UnitIsPower(n);
    UnitBounds(n);
    Powers();
    if k < 48 && k != 47 { Pow2Increases(k, 47); }
    if k > 48 { Pow2Increases(48, k); }
    var c := UnitDivides(n);
    NearestHit(n, Unit(n), (Hundredths(FIRST_MISS, 99) + 1) * c, (Hundredths(FIRST_MISS, 99) + 1) * TWO53);
  }

  lemma {:induction false} BoundsMSIncrease(i: nat, j: nat)
    requires i <= j < BUCKETS
    ensures BoundMS(i) <= BoundMS(j)
  {
    if i < j < BUCKETS - 1 { BoundsIncrease(i, j); }
    if i < BUCKETS - 2 && j == BUCKETS - 1 { BoundsIncrease(i, j - 1); }
  }

  /** What a snapshot taken at rest promises about a quantile: the sample it asks for lies in the
      bucket reported, so not above the value (unless above all bounds) and above the bound before. */
  ghost predicate Reports(r: real, samples: seq<nat>, p: nat) {
    samples != [] && AtRank(r, samples, Target(|samples|, p))
  }

  /** The bound of the bucket of the k-th smallest sample. */
  ghost predicate AtRank(r: real, samples: seq<nat>, k: nat) {
    1 <= k <= |samples| &&
    forall sorted: seq<nat> :: Sorted(sorted) && multiset(sorted) == multiset(samples) ==>
      |sorted| == |samples| && r == BoundMS(BucketOf(sorted[k - 1]))
  }

  /** A smaller quantile never reports more than a larger one, nor any more than the maximum. */
  lemma {:induction false} QuantilesOrdered(counts: seq<nat>, samples: seq<nat>, sorted: seq<nat>, i: nat, j: nat)
    requires Counts(counts, samples) && Sorted(sorted) && multiset(sorted) == multiset(samples)
    requires 1 <= i <= j <= |samples|
    ensures Highest(counts, BUCKETS).Some?
    ensures BoundMS(Rank(counts, i, 0)) <= BoundMS(Rank(counts, j, 0)) <= BoundMS(Highest(counts, BUCKETS).value)
  {
    QuantileBucket(counts, samples, sorted, i);
    QuantileBucket(counts, samples, sorted, j);
    HighestBucket(counts, samples, sorted, BUCKETS);
    ReportsOrdered(sorted[i - 1], sorted[j - 1]);
    ReportsOrdered(sorted[j - 1], sorted[|sorted| - 1]);
  }

  lemma {:induction false} ReportsOrdered(x: nat, y: nat)
    requires x <= y
    ensures BoundMS(BucketOf(x)) <= BoundMS(BucketOf(y))
  {
    BucketsOrdered(x, BucketOf(x), y, BucketOf(y));
    BoundsMSIncrease(BucketOf(x), BucketOf(y));
  }

  // ---------------------------------------------------------------- sorting exists

  function Insert(s: seq<nat>, x: nat): seq<nat> {
    if s == [] || x <= s[0] then [x] + s else [s[0]] + Insert(s[1..], x)
  }

  function Sort(s: seq<nat>): seq<nat> { if s == [] then [] else Insert(Sort(s[1..]), s[0]) }

  lemma {:induction false} InsertSorts(s: seq<nat>, x: nat)
    requires Sorted(s)
    ensures Sorted(Insert(s, x)) && Insert(s, x) != []
    ensures Insert(s, x)[0] == if s == [] || x <= s[0] then x else s[0]
  {
    if s != [] && x > s[0] { InsertSorts(s[1..], x); }
  }

  lemma {:induction false} InsertKeeps(s: seq<nat>, x: nat)
    ensures multiset(Insert(s, x)) == multiset(s) + multiset{x}
  {
    if s != [] && x > s[0] {
      InsertKeeps(s[1..], x);
      assert s == [s[0]] + s[1..];
    }
  }

  lemma {:induction false} SortSorts(s: seq<nat>)
    ensures Sorted(Sort(s)) && multiset(Sort(s)) == multiset(s)
  {
    if s != [] {
      SortSorts(s[1..]);
      InsertSorts(Sort(s[1..]), s[0]);
      InsertKeeps(Sort(s[1..]), s[0]);
      assert s == [s[0]] + s[1..];
    }
  }

  // ---------------------------------------------------------------- the counters

  datatype MethodStat = MethodStat(count: nat, errors: nat, avgMS: real,
                                   p50MS: real, p90MS: real, p99MS: real, maxSeenMS: real)

  function Total(samples: seq<nat>): nat {
    if samples == [] then 0 else Total(samples[..|samples| - 1]) + samples[|samples| - 1]
  }

  lemma {:induction false} TotalSnoc(samples: seq<nat>, x: nat)
    ensures Total(samples + [x]) == Total(samples) + x
    ensures (Total(samples) % UINT64_LIMIT + x) % UINT64_LIMIT == (Total(samples) + x) % UINT64_LIMIT
  {
    assert (samples + [x])[..|samples|] == samples;
    var (q, r) := (Total(samples) / UINT64_LIMIT, Total(samples) % UINT64_LIMIT);
    assert Total(samples) + x == UINT64_LIMIT * q + (r + x);
  }

  /** The bound of the bucket of the sample that p hundredths ask for, at least the smallest. */
  ghost predicate InHundredths(r: real, samples: seq<nat>, p: nat) {
    AtRank(r, samples, if |samples| * p / 100 == 0 then 1 else |samples| * p / 100)
  }

  /** The bound of the bucket of the largest sample. */
  ghost predicate OfLargest(r: real, samples: seq<nat>) {
    exists x :: x in samples && (forall y :: y in samples ==> y <= x) && r == BoundMS(BucketOf(x))
  }

  lemma {:induction false} LargestSeen(counts: seq<nat>, samples: seq<nat>, sorted: seq<nat>)
    requires Counts(counts, samples) && Sorted(sorted) && multiset(sorted) == multiset(samples) && samples != []
    ensures Highest(counts, BUCKETS).Some? && OfLargest(BoundMS(Highest(counts, BUCKETS).value), samples)
  {
    assert |multiset(sorted)| == |sorted| && |multiset(samples)| == |samples|;
    var x := sorted[|sorted| - 1];
    HighestBucket(counts, samples, sorted, BUCKETS);
    assert x in multiset(sorted);
    forall y | y in samples ensures y <= x {
      assert y in multiset(samples) && y in multiset(sorted);
    }
  }

  class MethodMetrics {
    var count: nat
    var errors: nat
    var totalUS: uint64
    const buckets: array<nat>
    ghost var samples: seq<nat>           // every latency observed, in microseconds
    ghost var failures: nat

    ghost predicate Valid()
      reads this, buckets
    {
      && buckets.Length == BUCKETS && Counts(buckets[..], samples)
      && count == |samples| && errors == failures <= count
      && totalUS == Total(samples) % 0x1_0000_0000_0000_0000
    }

    constructor ()
      ensures Valid() && fresh(buckets) && samples == [] && failures == 0
    {
      count, errors, totalUS := 0, 0, 0;
      buckets := new nat[BUCKETS](_ => 0);
      samples, failures := [], 0;
    }

    /** Records a call; a negative duration counts as zero. */
    method Observe(microseconds: int, failed: bool)
      requires Valid() && microseconds < UINT64_LIMIT
      modifies this, buckets
      ensures Valid()
      ensures samples == old(samples) + [if microseconds < 0 then 0 else microseconds]
      ensures failures == old(failures) + if failed then 1 else 0
      ensures count == old(count) + 1 && errors == old(errors) + if failed then 1 else 0
    {
      count := count + 1;
      if failed { errors := errors + 1; }
      var us := microseconds;
      if us < 0 { us := 0; }
      TotalSnoc(samples, us);
      totalUS := (totalUS + us) % UINT64_LIMIT;
      var k := BucketIndex(us);
      ghost var counts := buckets[..];
      CountsSnoc(counts, samples, us);
      buckets[k] := buckets[k] + 1;
      assert buckets[..] == counts[k := counts[k] + 1];
      samples := samples + [us];
      failures := failures + if failed then 1 else 0;
    }

    /** A snapshot at rest: the quantiles are those of the latencies observed. */
    method Snapshot() returns (stat: MethodStat)
      requires Valid()
      ensures stat.count == |samples| && stat.errors == failures <= stat.count
      ensures Sum(buckets[..], BUCKETS) == stat.count
      ensures samples != [] ==>
        Reports(stat.p50MS, samples, P50) && Reports(stat.p90MS, samples, P90) && Reports(stat.p99MS, samples, P99)
      ensures 0 < |samples| < 142_159_079_146_801 ==>
        InHundredths(stat.p50MS, samples, 50) && InHundredths(stat.p90MS, samples, 90)
        && InHundredths(stat.p99MS, samples, 99)
      ensures stat.p50MS <= stat.p90MS <= stat.p99MS <= stat.maxSeenMS
      ensures stat.avgMS == if samples == [] then 0.0
        else (Total(samples) % 0x1_0000_0000_0000_0000) as real / |samples| as real / 1000.0
      ensures if samples == [] then stat.maxSeenMS == 0.0 else OfLargest(stat.maxSeenMS, samples)
    {
      TotalIsSum(buckets[..], samples);
      if count == 0 { return MethodStat(0, errors, 0.0, 0.0, 0.0, 0.0, 0.0); }
      var p50, p90, p99, top := Quantiles();
      WholeHundredths(samples, p50, p90, p99);
      stat := MethodStat(count, errors, totalUS as real / count as real / 1000.0, p50, p90, p99, top);
    }

    /** The quantiles of a snapshot, and the maximum seen. */
    method Quantiles() returns (p50: real, p90: real, p99: real, top: real)
      requires Valid() && samples != []
      ensures Reports(p50, samples, P50) && Reports(p90, samples, P90) && Reports(p99, samples, P99)
      ensures p50 <= p90 <= p99 <= top && OfLargest(top, samples)
    {
      ghost var counts := buckets[..];
      p50 := PercentileMS(buckets[..], count, P50);
      p90 := PercentileMS(buckets[..], count, P90);
      p99 := PercentileMS(buckets[..], count, P99);
      top := MaxSeenMS(buckets[..]);
      Reported(counts, samples, P50);
      Reported(counts, samples, P90);
      Reported(counts, samples, P99);
      SortSorts(samples);
      LargestSeen(counts, samples, Sort(samples));
      TargetInRange(count, P50, P90);
      TargetInRange(count, P90, P99);
      QuantilesOrdered(counts, samples, Sort(samples), Target(count, P50), Target(count, P90));
      QuantilesOrdered(counts, samples, Sort(samples), Target(count, P90), Target(count, P99));
    }
  }

  /** For that few samples the quantiles reported are those of whole hundredths. */
  lemma {:induction false} WholeHundredths(samples: seq<nat>, p50: real, p90: real, p99: real)
    requires Reports(p50, samples, P50) && Reports(p90, samples, P90) && Reports(p99, samples, P99)
    ensures |samples| < 142_159_079_146_801 ==>
      InHundredths(p50, samples, 50) && InHundredths(p90, samples, 90) && InHundredths(p99, samples, 99)
  {
    if |samples| < FIRST_MISS {
      Exactly(|samples|, P50, 50);
      Exactly(|samples|, P90, 90);
      Exactly(|samples|, P99, 99);
    }
  }

  lemma {:induction false} Reported(counts: seq<nat>, samples: seq<nat>, p: nat)
    requires Counts(counts, samples) && samples != [] && 1000 * p <= 999 * TWO53
    ensures Reports(BoundMS(Rank(counts, Target(|samples|, p), 0)), samples, p)
  {
    TargetInRange(|samples|, p, p);
    ReportedAt(counts, samples, Target(|samples|, p));
  }

  lemma {:induction false} ReportedAt(counts: seq<nat>, samples: seq<nat>, k: nat)
    requires Counts(counts, samples) && 1 <= k <= |samples|
    ensures AtRank(BoundMS(Rank(counts, k, 0)), samples, k)
  {
    forall sorted: seq<nat> | Sorted(sorted) && multiset(sorted) == multiset(samples)
      ensures |sorted| == |samples|
      ensures Rank(counts, k, 0) == BucketOf(sorted[k - 1])
    {
      QuantileBucket(counts, samples, sorted, k);
    }
  }

  /** The value a quantile reports bounds the sample it asks for from above, unless that is above
      all bounds, and no smaller bound does. */
  lemma {:induction false} BoundIsTight(x: nat)
    ensures BucketOf(x) < BUCKETS - 1 ==> x as real / 1000.0 <= BoundMS(BucketOf(x))
    ensures 0 < BucketOf(x) < BUCKETS - 1 ==> BoundMS(BucketOf(x) - 1) < x as real / 1000.0
    ensures BucketOf(x) == BUCKETS - 1 <==> BoundMS(BUCKETS - 1) < x as real / 1000.0
  {
    if BucketOf(x) < BUCKETS - 2 { BoundsIncrease(BucketOf(x), BUCKETS - 2); }
  }
}
