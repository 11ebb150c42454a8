/** The baselines of internal/metrics/baseline.go.  Buckets are given by their values; timestamps
    play no part.  The square root is a parameter. */
module RobustBaseline {
  import opened Reals
  import opened SpikeStatistics
  import opened Percentiles

  const MIN_BASELINE_POINTS := 7

  datatype BaselineStats = BaselineStats(mean: real, stddev: real, pointCount: nat, reliable: bool)

  type Bucket = seq<real>

  /** isBaselineReliable: at least MIN_BASELINE_POINTS, and at least half of those expected. */
  function Reliable(actual: nat, expected: int): (r: bool)
    ensures r <==> actual >= MIN_BASELINE_POINTS && (expected > 0 ==> 2 * actual >= expected - 1)
  {
    if actual < MIN_BASELINE_POINTS then false
    else if expected > 0 && actual < expected / 2 then false
    else true
  }

  function Median(values: seq<real>): real {
    Percentile(Sort(values), 0.5)
  }

  // ---- The median resists a minority ----

  lemma {:induction false} BeyondPrefix(s: seq<real>, c: real, below: bool, k: nat)
    requires k <= |s| && forall i | 0 <= i < k :: if below then s[i] < c else s[i] > c
    ensures Beyond(s, c, below) >= k
    decreases |s|
  {
    if k < |s| {
      BeyondPrefix(s[..|s| - 1], c, below, k);
    } else if s != [] {
      BeyondPrefix(s[..|s| - 1], c, below, k - 1);
    }
  }

  lemma {:induction false} BeyondSuffix(s: seq<real>, c: real, below: bool, k: nat)
    requires k <= |s| && forall i | |s| - k <= i < |s| :: if below then s[i] < c else s[i] > c
    ensures Beyond(s, c, below) >= k
    decreases |s|
  {
    if k > 0 {
      BeyondSuffix(s[..|s| - 1], c, below, k - 1);
    }
  }

  lemma HalfIndex(n: nat)
    requires n >= 2
    ensures Index(0.5, n).Floor == (n - 1) / 2
    ensures Index(0.5, n).Floor as real == Index(0.5, n) <==> n % 2 == 1
  {
    var idx := Index(0.5, n);
    assert 2.0 * idx == (n - 1) as real;
    if n % 2 == 1 {
      assert idx == ((n - 1) / 2) as real;
    } else {
      assert idx == ((n - 1) / 2) as real + 0.5;
    }
  }

  /** The median lies between the two middle values. */
  lemma MedianBetween(s: seq<real>)
    requires Ascending(s) && |s| >= 2
    ensures s[(|s| - 1) / 2] <= Percentile(s, 0.5) <= s[|s| / 2]
  {
    HalfIndex(|s|);
    AtBetween(s, Index(0.5, |s|));
  }

  /** With fewer than half of the values below lo, the median is not. */
  lemma MedianFloor(values: seq<real>, lo: real)
    requires |values| >= 2 && 2 * Beyond(values, lo, true) < |values|
    ensures Median(values) >= lo
  {
    SortSorts(values);
    SortCounts(values, lo, true);
    MedianBetween(Sort(values));
    LowerMiddle(Sort(values), lo);
  }

  lemma LowerMiddle(s: seq<real>, lo: real)
    requires Ascending(s) && |s| >= 2
    ensures s[(|s| - 1) / 2] >= lo || 2 * Beyond(s, lo, true) >= |s|
  {
    var j := (|s| - 1) / 2;
    if s[j] < lo {
      BeyondPrefix(s, lo, true, j + 1);
    }
  }

  lemma UpperMiddle(s: seq<real>, hi: real)
    requires Ascending(s) && |s| >= 2
    ensures s[|s| / 2] <= hi || 2 * Beyond(s, hi, false) >= |s|
  {
    var j := |s| / 2;
    if s[j] > hi {
      BeyondSuffix(s, hi, false, |s| - j);
    }
  }

  lemma MedianCeiling(values: seq<real>, hi: real)
    requires |values| >= 2 && 2 * Beyond(values, hi, false) < |values|
    ensures Median(values) <= hi
  {
    SortSorts(values);
    SortCounts(values, hi, false);
    MedianBetween(Sort(values));
    UpperMiddle(Sort(values), hi);
  }

  // ---- ComputeRobustBaselineStats ----

  /** The means of the non-empty buckets, in order. */
  function Means(buckets: seq<Bucket>): seq<real> {
    if buckets == [] then []
    else if buckets[|buckets| - 1] == [] then Means(buckets[..|buckets| - 1])
    else Means(buckets[..|buckets| - 1]) + [Mean(buckets[|buckets| - 1])]
  }

  /** Their standard deviations. */
  function Stddevs(buckets: seq<Bucket>, sqrt: real -> real): seq<real> {
    if buckets == [] then []
    else if buckets[|buckets| - 1] == [] then Stddevs(buckets[..|buckets| - 1], sqrt)
    else Stddevs(buckets[..|buckets| - 1], sqrt) + [StddevOf(buckets[|buckets| - 1], sqrt)]
  }

  function Merged(buckets: seq<Bucket>): seq<real> {
    if buckets == [] then [] else Merged(buckets[..|buckets| - 1]) + buckets[|buckets| - 1]
  }

  method ComputeBaselineStats(values: seq<real>, expected: int, sqrt: real -> real) returns (b: BaselineStats)
    requires IsSqrt(sqrt)
    ensures values == [] ==> b == BaselineStats(0.0, 0.0, 0, false)
    ensures values != [] ==> b.mean == Mean(values) && IsStddev(b.stddev, values)
                             && b.pointCount == |values| && b.reliable == Reliable(|values|, expected)
  {
    if |values| == 0 {
      return BaselineStats(0.0, 0.0, 0, false);
    }
    var m := Average(values);
    var sd := Deviation(values, m, sqrt);
    b := BaselineStats(m, sd, |values|, Reliable(|values|, expected));
  }

  function Distances(values: seq<real>, c: real): seq<real> {
    seq(|values|, i requires 0 <= i < |values| => Abs(values[i] - c))
  }

  /** The dispersion of the bucket means, as a standard deviation. */
  function MadStddev(means: seq<real>): real {
    1.4826 * Median(Distances(means, Median(means)))
  }

  method ComputeRobustBaselineStats(buckets: seq<Bucket>, expectedPerBucket: int, sqrt: real -> real) returns (b: BaselineStats)
    requires IsSqrt(sqrt)
    ensures |Means(buckets)| < 2 ==> b.mean == Mean(Merged(buckets)) && IsStddev(b.stddev, Merged(buckets))
    ensures |Means(buckets)| >= 2 ==> b.mean == Median(Means(buckets))
    ensures |Means(buckets)| >= 2 && MadStddev(Means(buckets)) > 0.0 ==> b.stddev == MadStddev(Means(buckets))
    ensures |Means(buckets)| >= 2 && MadStddev(Means(buckets)) <= 0.0 ==> b.stddev == Mean(Stddevs(buckets, sqrt))
    ensures b.pointCount == |Merged(buckets)|
    ensures b.reliable == (Merged(buckets) != [] && Reliable(|Merged(buckets)|, expectedPerBucket * |buckets|))
  {
    var merged: seq<real>, means: seq<real>, stddevs: seq<real> := [], [], [];
    for i := 0 to |buckets|
      invariant merged == Merged(buckets[..i]) && means == Means(buckets[..i]) && stddevs == Stddevs(buckets[..i], sqrt)
      invariant means != [] ==> merged != []
    {
      assert buckets[..i + 1][..i] == buckets[..i];
      if |buckets[i]| != 0 {
        var m := Average(buckets[i]);
        var sd := Deviation(buckets[i], m, sqrt);
        merged, means, stddevs := merged + buckets[i], means + [m], stddevs + [sd];
      }
    }
    assert buckets[..|buckets|] == buckets;
    if |means| < 2 {
      b := ComputeBaselineStats(merged, expectedPerBucket * |buckets|, sqrt);
      return;
    }
    var robustMean := Median(means);
    var mad := Median(Distances(means, robustMean));
    var robustStddev;
    if mad > 0.0 {
      robustStddev := 1.4826 * mad;
    } else {
      robustStddev := Average(stddevs);
    }
    b := BaselineStats(robustMean, robustStddev, |merged|, Reliable(|merged|, expectedPerBucket * |buckets|));
  }

  // ---- One bad week ----

  /** The means of all non-empty buckets but bucket k lie within lo and hi. */
  ghost predicate OthersWithin(buckets: seq<Bucket>, k: nat, lo: real, hi: real) {
    forall i | 0 <= i < |buckets| && i != k && buckets[i] != [] :: lo <= Mean(buckets[i]) <= hi
  }

  lemma BeyondSnoc(s: seq<real>, x: real, c: real, below: bool)
    ensures Beyond(s + [x], c, below) == Beyond(s, c, below) + if (if below then x < c else x > c) then 1 else 0
  {
    assert (s + [x])[..|s|] == s;
  }

  ghost predicate Outside(means: seq<real>, lo: real, hi: real, n: nat) {
    Beyond(means, lo, true) <= n && Beyond(means, hi, false) <= n
  }

  lemma OutsideSnoc(means: seq<real>, m: real, lo: real, hi: real, n: nat)
    requires Outside(means, lo, hi, n)
    ensures Outside(means + [m], lo, hi, n + 1)
    ensures lo <= m <= hi ==> Outside(means + [m], lo, hi, n)
  {
    BeyondSnoc(means, m, lo, true);
    BeyondSnoc(means, m, hi, false);
  }

  lemma OthersWithinInit(buckets: seq<Bucket>, k: nat, lo: real, hi: real)
    requires buckets != [] && OthersWithin(buckets, k, lo, hi)
    ensures OthersWithin(buckets[..|buckets| - 1], k, lo, hi)
  {
    var init := buckets[..|buckets| - 1];
    forall i | 0 <= i < |init| && i != k && init[i] != [] ensures lo <= Mean(init[i]) <= hi {
      assert init[i] == buckets[i];
    }
  }

  lemma HeldInit(buckets: seq<Bucket>, k: nat)
    requires buckets != []
    ensures var n := |buckets| - 1;
            Held(buckets, k) == Held(buckets[..n], k) + if k == n && buckets[n] != [] then 1 else 0
  {
  }

  function Held(buckets: seq<Bucket>, k: nat): nat {
    if k < |buckets| && buckets[k] != [] then 1 else 0
  }

  /** At most bucket k's mean can lie outside, and only if the bucket holds points. */
  lemma {:induction false} AtMostOneOutside(buckets: seq<Bucket>, k: nat, lo: real, hi: real)
    requires OthersWithin(buckets, k, lo, hi)
    ensures Outside(Means(buckets), lo, hi, Held(buckets, k))
  {
    if buckets != [] {
      var n := |buckets| - 1;
      OthersWithinInit(buckets, k, lo, hi);
      AtMostOneOutside(buckets[..n], k, lo, hi);
      HeldInit(buckets, k);
      if buckets[n] != [] {
        OutsideSnoc(Means(buckets[..n]), Mean(buckets[n]), lo, hi, Held(buckets[..n], k));
      }
    }
  }

  /** Whatever bucket k holds, as long as at least two other buckets hold points, the robust mean
      stays between the least and the greatest mean of those others. */
  lemma OneBucketCannotMoveTheMean(buckets: seq<Bucket>, k: nat, lo: real, hi: real)
    requires k < |buckets| && OthersWithin(buckets, k, lo, hi)
    requires |Means(buckets)| >= if buckets[k] == [] then 2 else 3
    ensures lo <= Median(Means(buckets)) <= hi
  {
    AtMostOneOutside(buckets, k, lo, hi);
    MedianFloor(Means(buckets), lo);
    MedianCeiling(Means(buckets), hi);
  }

  // ---- What the robust deviation measures ----

  lemma DistancesSnoc(means: seq<real>, m: real, c: real)
    ensures Distances(means + [m], c) == Distances(means, c) + [Abs(m - c)]
  {
  }

  lemma AbsScales(a: real, x: real)
    requires a > 0.0
    ensures Abs(a * x) == a * Abs(x)
  {
    if x < 0.0 {
      PositiveValue(a, -x, -(a * x));
    } else {
      NonNegativeValue(a, x, a * x);
    }
  }

  lemma AffineDistance(x: real, m: real, a: real, c: real)
    requires a > 0.0
    ensures Abs(Converted(x, a, c) - Converted(m, a, c)) == Converted(Abs(x - m), a, 0.0)
  {
    assert a * x + c - (a * m + c) == a * (x - m);
    AbsScales(a, x - m);
  }

  lemma AffineDistances(means: seq<real>, m: real, a: real, c: real)
    requires a > 0.0
    ensures Distances(Affine(means, a, c), Converted(m, a, c)) == Affine(Distances(means, m), a, 0.0)
  {
    hide Converted, Abs;
    forall i | 0 <= i < |means|
      ensures Distances(Affine(means, a, c), Converted(m, a, c))[i] == Affine(Distances(means, m), a, 0.0)[i]
    {
      AffineDistance(means[i], m, a, c);
    }
  }

  /** It is a deviation: moving all bucket means together leaves it alone, and a change of unit
      changes it with the unit. */
  lemma DeviationFollowsUnit(means: seq<real>, a: real, c: real)
    requires means != [] && a > 0.0
    ensures MadStddev(Affine(means, a, c)) == a * MadStddev(means)
  {
    hide Percentile, Sort, Affine, Distances;
    var m := Median(means);
    AffinePercentile(means, 0.5, a, c);
    AffineDistances(means, m, a, c);
    AsMany(means, m);
    AffinePercentile(Distances(means, m), 0.5, a, 0.0);
    ConvertedIs(m, a, c);
    assert Median(Affine(means, a, c)) == Converted(m, a, c);
    assert 1.4826 * (a * Median(Distances(means, m))) == a * (1.4826 * Median(Distances(means, m)));
  }

  lemma AsMany(means: seq<real>, m: real)
    ensures |Distances(means, m)| == |means|
  {
  }

  /** A mean farther from a point of the interval than its width lies outside. */
  lemma {:induction false} FarMeansAreOutside(means: seq<real>, c: real, lo: real, hi: real)
    requires lo <= c <= hi
    ensures Beyond(Distances(means, c), hi - lo, false) <= Beyond(means, lo, true) + Beyond(means, hi, false)
  {
    if means != [] {
      var init, last := means[..|means| - 1], means[|means| - 1];
      assert means == init + [last];
      DistancesSnoc(init, last, c);
      BeyondSnoc(Distances(init, c), Abs(last - c), hi - lo, false);
      FarMeansAreOutside(init, c, lo, hi);
    }
  }

  lemma {:induction false} OneMeanOutside(buckets: seq<Bucket>, k: nat, lo: real, hi: real)
    requires OthersWithin(buckets, k, lo, hi) && lo <= hi
    ensures Beyond(Means(buckets), lo, true) + Beyond(Means(buckets), hi, false) <= Held(buckets, k)
  {
    if buckets != [] {
      var n := |buckets| - 1;
      OthersWithinInit(buckets, k, lo, hi);
      OneMeanOutside(buckets[..n], k, lo, hi);
      HeldInit(buckets, k);
      if buckets[n] != [] {
        BeyondSnoc(Means(buckets[..n]), Mean(buckets[n]), lo, true);
        BeyondSnoc(Means(buckets[..n]), Mean(buckets[n]), hi, false);
      }
    }
  }

  lemma {:induction false} NoneNegative(means: seq<real>, c: real)
    ensures Beyond(Distances(means, c), 0.0, true) == 0
  {
    if means != [] {
      var init, last := means[..|means| - 1], means[|means| - 1];
      assert means == init + [last];
      DistancesSnoc(init, last, c);
      BeyondSnoc(Distances(init, c), Abs(last - c), 0.0, true);
      NoneNegative(init, c);
    }
  }

  /** One bad bucket cannot blow it up: whatever bucket k holds, the deviation of the means is at
      most 1.4826 times the spread of the other buckets' means. */
  lemma OneBucketCannotInflateTheDeviation(buckets: seq<Bucket>, k: nat, lo: real, hi: real)
    requires k < |buckets| && OthersWithin(buckets, k, lo, hi)
    requires |Means(buckets)| >= if buckets[k] == [] then 2 else 3
    ensures 0.0 <= MadStddev(Means(buckets)) <= 1.4826 * (hi - lo)
  {
    var means := Means(buckets);
    OneBucketCannotMoveTheMean(buckets, k, lo, hi);
    var m := Median(means);
    OneMeanOutside(buckets, k, lo, hi);
    FarMeansAreOutside(means, m, lo, hi);
    MedianCeiling(Distances(means, m), hi - lo);
    NoneNegative(means, m);
    MedianFloor(Distances(means, m), 0.0);
  }

  /** How many bucket means differ from the given one. */
  function Others(means: seq<real>, c: real): nat {
    Beyond(means, c, true) + Beyond(means, c, false)
  }

  lemma {:induction false} OthersAreFar(means: seq<real>, c: real)
    ensures Beyond(Distances(means, c), 0.0, false) == Others(means, c)
  {
    if means != [] {
      var init, last := means[..|means| - 1], means[|means| - 1];
      assert means == init + [last];
      DistancesSnoc(init, last, c);
      BeyondSnoc(Distances(init, c), Abs(last - c), 0.0, false);
      BeyondSnoc(init, last, c, true);
      BeyondSnoc(init, last, c, false);
      OthersAreFar(init, c);
    }
  }

  lemma {:induction false} BeyondAtMost(s: seq<real>, c: real, k: nat)
    requires k <= |s| && forall i | 0 <= i < k :: s[i] <= c
    ensures Beyond(s, c, false) <= |s| - k
    decreases |s|
  {
    if k < |s| {
      BeyondAtMost(s[..|s| - 1], c, k);
    } else if s != [] {
      BeyondAtMost(s[..|s| - 1], c, k - 1);
    }
  }

  lemma MiddleOfTwo(s: seq<real>)
    requires |s| >= 2 && |s| % 2 == 0
    ensures 2.0 * Percentile(s, 0.5) == s[|s| / 2 - 1] + s[|s| / 2]
  {
    var n := |s|;
    assert 2.0 * (0.5 * (n - 1) as real) == (n - 1) as real;
    assert (n - 1) as real == 2.0 * (n / 2 - 1) as real + 1.0;
    PercentileBlends(s, 0.5, n / 2 - 1, 0.5);
  }

  lemma UpperHalf(s: seq<real>, c: real)
    requires Ascending(s) && |s| >= 2 && Beyond(s, c, true) == 0 && 2 * Beyond(s, c, false) >= |s|
    ensures s[|s| / 2] > c && forall i | 0 <= i < |s| :: s[i] >= c
  {
    if s[|s| / 2] <= c {
      BeyondAtMost(s, c, |s| / 2 + 1);
    }
    if s[0] < c {
      BeyondPrefix(s, c, true, 1);
    }
  }

  /** With half of the values above c and none below, the median is above c. */
  lemma MedianAbove(values: seq<real>, c: real)
    requires |values| >= 2 && Beyond(values, c, true) == 0 && 2 * Beyond(values, c, false) >= |values|
    ensures Median(values) > c
  {
    hide Sort, Percentile, Beyond;
    SortSorts(values);
    SortCounts(values, c, true);
    SortCounts(values, c, false);
    UpperHalf(Sort(values), c);
    if |values| % 2 == 1 {
      MedianBetween(Sort(values));
    } else {
      MiddleOfTwo(Sort(values));
    }
  }

  /** The deviation of the means vanishes, and the mean deviation within buckets takes its place,
      exactly when more than half of the bucket means equal their median. */
  lemma DeviationVanishesIff(means: seq<real>)
    requires |means| >= 2
    ensures MadStddev(means) >= 0.0
    ensures MadStddev(means) <= 0.0 <==> 2 * Others(means, Median(means)) < |means|
  {
    var m := Median(means);
    NoneNegative(means, m);
    OthersAreFar(means, m);
    MedianFloor(Distances(means, m), 0.0);
    if 2 * Others(means, m) < |means| {
      MedianCeiling(Distances(means, m), 0.0);
    } else {
      MedianAbove(Distances(means, m), 0.0);
    }
  }

  lemma SortOfAscending(s: seq<real>, x: real)
    requires Sort(s) == s && (s != [] ==> s[|s| - 1] <= x)
    ensures Sort(s + [x]) == s + [x]
  {
    assert (s + [x])[..|s|] == s;
  }

  lemma OthersSnoc(s: seq<real>, x: real, c: real)
    ensures Others(s + [x], c) == Others(s, c) + if x != c then 1 else 0
  {
    BeyondSnoc(s, x, c, true);
    BeyondSnoc(s, x, c, false);
  }

  lemma OneSorted()
    ensures Sort([1.0]) == [1.0] && Others([1.0], 1.0) == 0
  {
    assert [1.0] == [] + [1.0];
    SortOfAscending([], 1.0);
  }

  /** So it does for three weeks at the levels 1, 1 and 5, although not every level is the same. */
  lemma DeviationVanishesThoughMeansDiffer() returns (means: seq<real>)
    ensures means == [1.0, 1.0, 5.0] && MadStddev(means) == 0.0
  {
    hide Sort, Others, Percentile, MadStddev;
    var two := [1.0] + [1.0];
    means := two + [5.0];
    OneSorted();
    SortOfAscending([1.0], 1.0);
    SortOfAscending(two, 5.0);
    PercentileBlends(means, 0.5, 0, 1.0);
    OthersSnoc([1.0], 1.0, 1.0);
    OthersSnoc(two, 5.0, 1.0);
    DeviationVanishesIff(means);
  }
}
