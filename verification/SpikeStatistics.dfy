/** z-scores of internal/metrics/processor.go, and what the two spike gates of processor.go and
    classify.go can hide.  Over the reals; facts about z are stated on its square, so that the
    standard deviation need not be computed. */
module SpikeStatistics {
  import opened Reals
  import opened Signals

  const MIN_POINTS := 10

  /** spikeMaxRatio of classify.go. */
  const MAX_RATIO := 0.15

  function Mean(values: seq<real>): real {
    if values == [] then 0.0 else Sum(values) / |values| as real
  }

  function Shifted(values: seq<real>, m: real): seq<real> {
    seq(|values|, i requires 0 <= i < |values| => values[i] - m)
  }

  function Deviations(values: seq<real>): seq<real> {
    Shifted(values, Mean(values))
  }

  /** The population variance. */
  function Variance(values: seq<real>): real {
    if |values| < 2 then 0.0 else Squares(Deviations(values)) / |values| as real
  }

  ghost predicate IsStddev(sd: real, values: seq<real>) {
    sd >= 0.0 && sd * sd == Variance(values)
  }

  lemma {:induction false} ShiftedSum(values: seq<real>, m: real)
    ensures Sum(Shifted(values, m)) == Sum(values) - |values| as real * m
  {
    if values != [] {
      var n := |values| - 1;
      assert Shifted(values, m)[..n] == Shifted(values[..n], m);
      ShiftedSum(values[..n], m);
    }
  }

  /** Deviations from the mean cancel. */
  lemma DeviationsCancel(values: seq<real>)
    ensures Sum(Deviations(values)) == 0.0
  {
    ShiftedSum(values, Mean(values));
  }

  // ---- Samuelson's inequality ----

  function Others(d: seq<real>, i: nat): seq<real>
    requires i < |d|
  {
    d[..i] + d[i + 1..]
  }

  lemma OthersInit(d: seq<real>, i: nat)
    requires i < |d| - 1
    ensures Others(d, i) == Others(d[..|d| - 1], i) + [d[|d| - 1]]
  {
  }

  lemma OthersLast(d: seq<real>)
    requires d != []
    ensures Others(d, |d| - 1) == d[..|d| - 1]
  {
  }

  lemma SumSnoc(s: seq<real>, x: real)
    ensures Sum(s + [x]) == Sum(s) + x && Squares(s + [x]) == Squares(s) + x * x
  {
    assert (s + [x])[..|s|] == s;
  }

  lemma {:induction false} OthersSum(d: seq<real>, i: nat)
    requires i < |d|
    ensures Sum(Others(d, i)) + d[i] == Sum(d)
    decreases |d|
  {
    if i == |d| - 1 {
      OthersLast(d);
    } else {
      OthersInit(d, i);
      OthersSum(d[..|d| - 1], i);
      SumSnoc(Others(d[..|d| - 1], i), d[|d| - 1]);
    }
  }

  lemma {:induction false} OthersSquares(d: seq<real>, i: nat)
    requires i < |d|
    ensures Squares(Others(d, i)) + d[i] * d[i] == Squares(d)
    decreases |d|
  {
    if i == |d| - 1 {
      OthersLast(d);
    } else {
      OthersInit(d, i);
      OthersSquares(d[..|d| - 1], i);
      SumSnoc(Others(d[..|d| - 1], i), d[|d| - 1]);
    }
  }

  lemma Rearrange(x: real, sum: real, squares: real, n: real)
    requires sum + x == 0.0 && sum * sum <= n * squares
    ensures (n + 1.0) * (x * x) <= n * (squares + x * x)
  {
    assert x == -sum;
    assert sum * sum == x * x;
  }

  lemma Divide(n: real, a: real, k: real, b: real)
    requires n > 0.0 && n * a <= k * b
    ensures a <= k * (b / n)
  {
    var q := b / n;
    assert b == q * n;
    assert n * (k * q - a) >= 0.0;
    Positive(n, k * q - a);
  }

  /** The inequality in numbers: r other points with the given sum and squares. */
  lemma OneAgainstOthers(x: real, r: real, sum: real, squares: real, total: real, variance: real)
    requires r >= 1.0 && sum + x == 0.0 && sum * sum <= r * squares
    requires total == squares + x * x && variance == total / (r + 1.0)
    ensures x * x <= r * variance
  {
    Rearrange(x, sum, squares, r);
    Divide(r + 1.0, x * x, r, total);
  }

  lemma OneAndOthers(d: seq<real>, i: nat) returns (r: real, sum: real, squares: real)
    requires i < |d|
    ensures r == (|d| - 1) as real
    ensures sum + d[i] == Sum(d) && squares + d[i] * d[i] == Squares(d)
    ensures sum * sum <= r * squares
  {
    var rest := Others(d, i);
    OthersSum(d, i);
    OthersSquares(d, i);
    r, sum, squares := CauchySchwarz(rest);
  }

  lemma CauchySchwarz(s: seq<real>) returns (n: real, sum: real, squares: real)
    ensures n == |s| as real && sum == Sum(s) && squares == Squares(s) && sum * sum <= n * squares
  {
    SquareOfSum(s);
    n, sum, squares := |s| as real, Sum(s), Squares(s);
  }

  /** For N points the squared z-score of any of them is at most N - 1. */
  lemma Samuelson(values: seq<real>, i: nat)
    requires i < |values| && |values| >= 2
    ensures Deviations(values)[i] * Deviations(values)[i] <= (|values| - 1) as real * Variance(values)
  {
    var d := Deviations(values);
    DeviationsCancel(values);
    var r, sum, squares := OneAndOthers(d, i);
    OneAgainstOthers(d[i], r, sum, squares, Squares(d), Variance(values));
  }

  // ---- Chebyshev's inequality ----

  predicate IsSpike(deviation: real, variance: real, k2: real) {
    deviation * deviation >= k2 * variance
  }

  /** How many deviations are at least k standard deviations, k2 being the square of k. */
  function Spikes(d: seq<real>, variance: real, k2: real): nat {
    if d == [] then 0
    else Spikes(d[..|d| - 1], variance, k2) + if IsSpike(d[|d| - 1], variance, k2) then 1 else 0
  }

  lemma {:induction false} SpikesWeigh(d: seq<real>, variance: real, k2: real)
    ensures Spikes(d, variance, k2) as real * (k2 * variance) <= Squares(d)
  {
    if d != [] {
      var init, x := d[..|d| - 1], d[|d| - 1];
      SpikesWeigh(init, variance, k2);
      var c, t := Spikes(init, variance, k2), k2 * variance;
      SquareIsNonNegative(x);
      assert (c + 1) as real * t == c as real * t + t;
    }
  }

  /** At most N / k2 of N points lie k or more standard deviations from the mean. */
  lemma Chebyshev(values: seq<real>, k2: real)
    requires Variance(values) > 0.0
    ensures Spikes(Deviations(values), Variance(values), k2) as real * k2 <= |values| as real
  {
    var d, v := Deviations(values), Variance(values);
    SpikesWeigh(d, v, k2);
    var c, n := Spikes(d, v, k2) as real, |values| as real;
    assert Squares(d) == n * v;
    assert v * (n - c * k2) >= 0.0;
    Positive(v, n - c * k2);
  }

  // ---- What the gates can hide ----

  function Zeros(n: nat): seq<real> {
    seq(n, _ => 0.0)
  }

  lemma {:induction false} ZerosSum(n: nat)
    ensures Sum(Zeros(n)) == 0.0 && Squares(Zeros(n)) == 0.0
  {
    if n > 0 {
      assert Zeros(n)[..n - 1] == Zeros(n - 1);
      ZerosSum(n - 1);
    }
  }

  /** Fewer points than the gate asks for, with no point k standard deviations out. */
  ghost predicate NothingHidden(values: seq<real>, k2: real) {
    |values| < MIN_POINTS && Variance(values) > 0.0 ==>
      forall i | 0 <= i < |values| :: !IsSpike(Deviations(values)[i], Variance(values), k2)
  }

  lemma FewPointsNoSpike(values: seq<real>, k2: real)
    requires k2 > 8.0
    ensures NothingHidden(values, k2)
  {
    if |values| < MIN_POINTS && Variance(values) > 0.0 {
      forall i | 0 <= i < |values| ensures !IsSpike(Deviations(values)[i], Variance(values), k2) {
        Samuelson(values, i);
        Scale((|values| - 1) as real, k2, Variance(values));
      }
    }
  }

  lemma Scale(a: real, b: real, v: real)
    requires a <= 8.0 < b && v > 0.0
    ensures a * v < b * v
  {
    assert (b - a) * v > 0.0;
  }

  /** One point at 9 and eight at 0: the largest z nine points can reach. */
  lemma NinePoints() returns (values: seq<real>)
    ensures |values| == 9 && Variance(values) == 8.0 && Deviations(values)[8] == 8.0
  {
    values := Zeros(8) + [9.0];
    ZerosSum(8);
    assert values[..8] == Zeros(8);
    assert Mean(values) == 1.0;
    ShiftedSquares(values, 1.0);
    assert Squares(values) == 81.0;
  }

  lemma {:induction false} ShiftedSquares(values: seq<real>, m: real)
    ensures Squares(Shifted(values, m)) == Squares(values) - 2.0 * m * Sum(values) + |values| as real * (m * m)
  {
    if values != [] {
      var n := |values| - 1;
      assert Shifted(values, m)[..n] == Shifted(values[..n], m);
      ShiftedSquares(values[..n], m);
      var x := values[n];
      assert (x - m) * (x - m) == x * x - 2.0 * m * x + m * m;
      assert 2.0 * m * (Sum(values[..n]) + x) == 2.0 * m * Sum(values[..n]) + 2.0 * m * x;
      assert (n + 1) as real * (m * m) == n as real * (m * m) + m * m;
    }
  }

  /** The gate of MIN_POINTS points in computeSpikes hides no spike exactly when the threshold's
      square exceeds 8; the default threshold 3 meets this, the default 2.5 for error rates does
      not. */
  lemma PointGateHidesNothingIff(k2: real)
    ensures (forall values :: NothingHidden(values, k2)) <==> k2 > 8.0
  {
    if k2 > 8.0 {
      forall values ensures NothingHidden(values, k2) {
        FewPointsNoSpike(values, k2);
      }
    } else {
      var values := NinePoints();
      assert IsSpike(Deviations(values)[8], Variance(values), k2);
      assert !NothingHidden(values, k2);
    }
  }

  /** The ratio of spikes stays below MAX_RATIO, as the spike branch of classifyCore demands. */
  ghost predicate RatioPasses(values: seq<real>, k2: real) {
    Variance(values) > 0.0 ==>
      Spikes(Deviations(values), Variance(values), k2) as real / |values| as real < MAX_RATIO
  }

  lemma RatioStaysLow(values: seq<real>, k2: real)
    requires 3.0 * k2 > 20.0
    ensures RatioPasses(values, k2)
  {
    if Variance(values) > 0.0 {
      var c := Spikes(Deviations(values), Variance(values), k2);
      Chebyshev(values, k2);
      Below(c as real, |values| as real, k2);
    }
  }

  lemma PositiveProduct(a: real, b: real)
    requires a > 0.0 && b > 0.0
    ensures a * b > 0.0
  {
  }

  lemma SquaresOrdered(a: real, b: real)
    requires 0.0 <= a < b
    ensures a * a < b * b
  {
    PositiveProduct(b - a, a + b);
    assert (b - a) * (a + b) == b * b - a * a;
  }

  lemma PositiveFactor(a: real, b: real)
    requires b > 0.0 && a * b > 0.0
    ensures a > 0.0
  {
  }

  lemma Quotient(c: real, n: real, r: real)
    requires n > 0.0 && c < r * n
    ensures c / n < r
  {
    assert (r - c / n) * n == r * n - c;
    PositiveFactor(r - c / n, n);
  }

  lemma Below(c: real, n: real, k2: real)
    requires c >= 0.0 && n > 0.0 && c * k2 <= n && 3.0 * k2 > 20.0
    ensures c / n < 0.15
  {
    if c > 0.0 {
      PositiveValue(c, 3.0 * k2 - 20.0, 3.0 * (c * k2) - 20.0 * c);
    }
    Quotient(c, n, 0.15);
  }

  /** Three points at 1, three at -1 and thirty-four at 0. */
  lemma FortyPoints() returns (values: seq<real>)
    ensures |values| == 40 && Variance(values) == 0.15 && Deviations(values) == values
    ensures values == Zeros(34) + [1.0, 1.0, 1.0, -1.0, -1.0, -1.0]
  {
    var ends := [1.0, 1.0, 1.0, -1.0, -1.0, -1.0];
    values := Zeros(34) + ends;
    ZerosSum(34);
    SumSplits(Zeros(34), ends);
    SixEnds();
    assert Mean(values) == 0.0;
    Unshifted(values);
    assert Squares(values) == 6.0;
  }

  lemma Unshifted(values: seq<real>)
    ensures Shifted(values, 0.0) == values
  {
  }

  lemma SixEnds()
    ensures Sum([1.0, 1.0, 1.0, -1.0, -1.0, -1.0]) == 0.0
    ensures Squares([1.0, 1.0, 1.0, -1.0, -1.0, -1.0]) == 6.0
  {
    SumSplits([1.0, 1.0, 1.0], [-1.0, -1.0, -1.0]);
    assert [1.0, 1.0, 1.0] + [-1.0, -1.0, -1.0] == [1.0, 1.0, 1.0, -1.0, -1.0, -1.0];
    ThreeOf(1.0);
    ThreeOf(-1.0);
  }

  lemma ThreeOf(x: real)
    ensures Sum([x, x, x]) == 3.0 * x && Squares([x, x, x]) == 3.0 * (x * x)
  {
    SumSnoc([], x);
    SumSnoc([x], x);
    SumSnoc([x, x], x);
    assert [] + [x] == [x] && [x] + [x] == [x, x] && [x, x] + [x] == [x, x, x];
  }

  lemma {:induction false} SpikesSplit(a: seq<real>, b: seq<real>, variance: real, k2: real)
    ensures Spikes(a + b, variance, k2) == Spikes(a, variance, k2) + Spikes(b, variance, k2)
  {
    if b == [] {
      assert a + b == a;
    } else {
      SpikesSplit(a, b[..|b| - 1], variance, k2);
      assert (a + b)[..|a + b| - 1] == a + b[..|b| - 1];
    }
  }

  lemma {:induction false} AllSpike(d: seq<real>, variance: real, k2: real)
    requires forall x | x in d :: IsSpike(x, variance, k2)
    ensures Spikes(d, variance, k2) == |d|
  {
    if d != [] {
      AllSpike(d[..|d| - 1], variance, k2);
    }
  }

  lemma SixSpikes(values: seq<real>, k2: real)
    requires 3.0 * k2 <= 20.0
    requires values == Zeros(34) + [1.0, 1.0, 1.0, -1.0, -1.0, -1.0]
    ensures Spikes(values, 0.15, k2) >= 6
  {
    SpikesSplit(Zeros(34), [1.0, 1.0, 1.0, -1.0, -1.0, -1.0], 0.15, k2);
    AllSpike([1.0, 1.0, 1.0, -1.0, -1.0, -1.0], 0.15, k2);
  }

  /** The ratio gate of classifyCore always passes exactly when the threshold's square exceeds
      20/3: redundant at the default 3, but not at the default 2.5 for error rates. */
  lemma RatioGateAlwaysPassesIff(k2: real)
    ensures (forall values :: |values| >= MIN_POINTS ==> RatioPasses(values, k2)) <==> 3.0 * k2 > 20.0
  {
    if 3.0 * k2 > 20.0 {
      forall values | |values| >= MIN_POINTS ensures RatioPasses(values, k2) {
        RatioStaysLow(values, k2);
      }
    } else {
      var values := FortyPoints();
      SixSpikes(values, k2);
      assert |values| >= MIN_POINTS && !RatioPasses(values, k2);
    }
  }

  // ---- computeSpikes ----

  function ZScore(v: real, mean: real, stddev: real): real
    requires stddev > 0.0
  {
    Abs(v - mean) / stddev
  }

  function SpikesByZ(values: seq<real>, mean: real, stddev: real, z: real): nat
    requires stddev > 0.0
  {
    if values == [] then 0
    else SpikesByZ(values[..|values| - 1], mean, stddev, z) + if ZScore(values[|values| - 1], mean, stddev) >= z then 1 else 0
  }

  /** The largest z-score, or 0 if there are no values. */
  ghost predicate IsMaxZ(values: seq<real>, mean: real, stddev: real, z: real)
    requires stddev > 0.0
  {
    && (forall i | 0 <= i < |values| :: ZScore(values[i], mean, stddev) <= z)
    && (z == 0.0 || exists i :: 0 <= i < |values| && ZScore(values[i], mean, stddev) == z)
  }

  method ComputeSpikes(f: SignalFeatures, values: seq<real>, spikeZ: real)
    requires f.stddev >= 0.0
    requires f.maxZScore == 0.0 && f.spikeCount == 0 && f.spikeRatio == 0.0
    modifies f`maxZScore, f`spikeCount, f`spikeRatio
    ensures |values| < MIN_POINTS || f.min == f.max || f.stddev == 0.0 ==>
              f.maxZScore == 0.0 && f.spikeCount == 0 && f.spikeRatio == 0.0
    ensures |values| >= MIN_POINTS && f.min != f.max && f.stddev > 0.0 ==>
              && IsMaxZ(values, f.mean, f.stddev, f.maxZScore)
              && f.spikeCount == SpikesByZ(values, f.mean, f.stddev, spikeZ)
              && f.spikeRatio == f.spikeCount as real / |values| as real
  {
    if |values| < MIN_POINTS {
      return;
    }
    if f.min == f.max || f.stddev == 0.0 {
      return;
    }
    for i := 0 to |values|
      invariant IsMaxZ(values[..i], f.mean, f.stddev, f.maxZScore)
      invariant f.spikeCount == SpikesByZ(values[..i], f.mean, f.stddev, spikeZ)
    {
      var z := ZScore(values[i], f.mean, f.stddev);
      ghost var before := f.maxZScore;
      if z > f.maxZScore {
        f.maxZScore := z;
      }
      if z >= spikeZ {
        f.spikeCount := f.spikeCount + 1;
      }
      MaxZStep(values, i, f.mean, f.stddev, before, f.maxZScore);
    }
    assert values[..|values|] == values;
    f.spikeRatio := f.spikeCount as real / |values| as real;
  }

  lemma MaxZStep(values: seq<real>, i: nat, mean: real, stddev: real, before: real, after: real)
    requires i < |values| && stddev > 0.0 && IsMaxZ(values[..i], mean, stddev, before)
    requires after == if ZScore(values[i], mean, stddev) > before then ZScore(values[i], mean, stddev) else before
    ensures IsMaxZ(values[..i + 1], mean, stddev, after)
    ensures forall z :: SpikesByZ(values[..i + 1], mean, stddev, z)
                        == SpikesByZ(values[..i], mean, stddev, z) + if ZScore(values[i], mean, stddev) >= z then 1 else 0
  {
    var s, t := values[..i], values[..i + 1];
    assert t[..i] == s && t[i] == values[i];
    if after != 0.0 && after == before {
      var h :| 0 <= h < |s| && ZScore(s[h], mean, stddev) == before;
      assert t[h] == s[h];
    }
    forall h | 0 <= h < |t| ensures ZScore(t[h], mean, stddev) <= after {
      if h < i {
        assert t[h] == s[h];
      }
    }
  }

  /** z >= k says the same as its square. */
  lemma ZIsSquare(v: real, mean: real, stddev: real, k: real)
    requires stddev > 0.0 && k >= 0.0
    ensures ZScore(v, mean, stddev) >= k <==> IsSpike(v - mean, stddev * stddev, k * k)
  {
    var d, z, variance := Abs(v - mean), Abs(v - mean) / stddev, stddev * stddev;
    assert z * stddev == d;
    PositiveValue(stddev, stddev, variance);
    assert (v - mean) * (v - mean) == d * d == z * z * variance;
    if z > k {
      SquaresOrdered(k, z);
      PositiveProduct(z * z - k * k, variance);
    } else if z < k {
      SquaresOrdered(z, k);
      PositiveProduct(k * k - z * z, variance);
    }
  }

  lemma {:induction false} CountsAgree(values: seq<real>, mean: real, stddev: real, k: real)
    requires stddev > 0.0 && k >= 0.0
    ensures SpikesByZ(values, mean, stddev, k) == Spikes(Shifted(values, mean), stddev * stddev, k * k)
  {
    if values != [] {
      var n := |values| - 1;
      assert Shifted(values, mean)[..n] == Shifted(values[..n], mean);
      CountsAgree(values[..n], mean, stddev, k);
      ZIsSquare(values[n], mean, stddev, k);
    }
  }

  /** What computeSpikes finds with the fields its caller has set: at most a fraction 1/k2 of the
      points, so at a threshold with 3 k2 > 20 the ratio always passes the gate of classifyCore. */
  lemma SpikeRatioBounded(values: seq<real>, stddev: real, k: real)
    requires |values| >= 2 && IsStddev(stddev, values) && stddev > 0.0 && k > 0.0
    ensures SpikesByZ(values, Mean(values), stddev, k) as real * (k * k) <= |values| as real
    ensures 3.0 * (k * k) > 20.0 ==> SpikesByZ(values, Mean(values), stddev, k) as real / |values| as real < MAX_RATIO
  {
    CountsAgree(values, Mean(values), stddev, k);
    PositiveValue(stddev, stddev, Variance(values));
    Chebyshev(values, k * k);
    if 3.0 * (k * k) > 20.0 {
      RatioStaysLow(values, k * k);
    }
  }

  // ---- A window the default threshold for error rates keeps from being a spike ----

  lemma {:induction false} ZerosDoNotSpike(n: nat, variance: real, k2: real)
    requires k2 * variance > 0.0
    ensures Spikes(Zeros(n), variance, k2) == 0
  {
    if n > 0 {
      assert Zeros(n)[..n - 1] == Zeros(n - 1);
      ZerosDoNotSpike(n - 1, variance, k2);
    }
  }

  lemma FourEnds()
    ensures Sum([1.0, 1.0, -1.0, -1.0]) == 0.0 && Squares([1.0, 1.0, -1.0, -1.0]) == 4.0
  {
    SumSnoc([], 1.0);
    SumSnoc([1.0], 1.0);
    SumSnoc([1.0, 1.0], -1.0);
    SumSnoc([1.0, 1.0, -1.0], -1.0);
    assert [] + [1.0] == [1.0] && [1.0] + [1.0] == [1.0, 1.0];
    assert [1.0, 1.0] + [-1.0] == [1.0, 1.0, -1.0];
    assert [1.0, 1.0, -1.0] + [-1.0] == [1.0, 1.0, -1.0, -1.0];
  }

  /** Twenty-one points at one, two above and two below it. */
  lemma TwentyFivePoints() returns (values: seq<real>)
    ensures |values| == 25 && (forall v | v in values :: 0.0 <= v <= 2.0) && values[21] == 2.0
    ensures Mean(values) == 1.0 && Variance(values) == 0.16 && IsStddev(0.4, values)
    ensures Shifted(values, 1.0) == Zeros(21) + [1.0, 1.0, -1.0, -1.0]
  {
    var d := Zeros(21) + [1.0, 1.0, -1.0, -1.0];
    ZerosSum(21);
    SumSplits(Zeros(21), [1.0, 1.0, -1.0, -1.0]);
    FourEnds();
    values := seq(25, i requires 0 <= i < 25 => d[i] + 1.0);
    assert Shifted(values, 1.0) == d;
    ShiftedSum(values, 1.0);
    assert Sum(values) == 25.0;
    assert Mean(values) == 1.0;
    assert Deviations(values) == d;
  }

  /** At 2.5, the default for error rates, four of these points are spikes: 16 percent. */
  lemma FourOfTwentyFive() returns (values: seq<real>)
    ensures |values| == 25 && (forall v | v in values :: v >= 0.0) && IsStddev(0.4, values) && Mean(values) == 1.0
    ensures SpikesByZ(values, Mean(values), 0.4, 2.5) == 4
    ensures IsMaxZ(values, Mean(values), 0.4, 2.5)
  {
    values := TwentyFivePoints();
    CountsAgree(values, 1.0, 0.4, 2.5);
    SpikesSplit(Zeros(21), [1.0, 1.0, -1.0, -1.0], 0.16, 6.25);
    ZerosDoNotSpike(21, 0.16, 6.25);
    AllSpike([1.0, 1.0, -1.0, -1.0], 0.16, 6.25);
    assert ZScore(values[21], 1.0, 0.4) == 2.5;
    forall i | 0 <= i < 25 ensures ZScore(values[i], 1.0, 0.4) <= 2.5 {
      assert values[i] in values;
    }
  }
}
