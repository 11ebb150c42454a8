/** Order statistics of internal/metrics/processor.go over the reals.  The square root is a
    parameter. */
module Percentiles {
  import opened Reals
  import opened Signals
  import opened SpikeStatistics

  // ---- Sorting ----

  ghost predicate Ascending(s: seq<real>) {
    forall i, j | 0 <= i < j < |s| :: s[i] <= s[j]
  }

  function Insert(s: seq<real>, x: real): seq<real> {
    if s == [] || s[|s| - 1] <= x then s + [x] else Insert(s[..|s| - 1], x) + [s[|s| - 1]]
  }

  /** The values in ascending order. */
  function Sort(s: seq<real>): seq<real> {
    if s == [] then [] else Insert(Sort(s[..|s| - 1]), s[|s| - 1])
  }

  lemma {:induction false} InsertSorts(s: seq<real>, x: real)
    requires Ascending(s)
    ensures Ascending(Insert(s, x)) && |Insert(s, x)| == |s| + 1
    ensures forall top | AtMost(s, top) && x <= top :: AtMost(Insert(s, x), top)
  {
    if !(s == [] || s[|s| - 1] <= x) {
      var init, last := s[..|s| - 1], s[|s| - 1];
      InsertSorts(init, x);
      assert AtMost(init, last);
      assert AtMost(Insert(init, x), last);
      forall top | AtMost(s, top) && x <= top ensures AtMost(Insert(s, x), top) {
        assert s[|s| - 1] <= top;
        assert AtMost(init, top);
      }
    }
  }

  lemma {:induction false} SortSorts(s: seq<real>)
    ensures Ascending(Sort(s)) && |Sort(s)| == |s|
  {
    if s != [] {
      SortSorts(s[..|s| - 1]);
      InsertSorts(Sort(s[..|s| - 1]), s[|s| - 1]);
    }
  }

  /** How many values satisfy a comparison with c: less than c, or greater. */
  function Beyond(s: seq<real>, c: real, below: bool): nat {
    if s == [] then 0
    else
      var x := s[|s| - 1];
      Beyond(s[..|s| - 1], c, below) + if (if below then x < c else x > c) then 1 else 0
  }

  lemma {:induction false} InsertCounts(s: seq<real>, x: real, c: real, below: bool)
    ensures Beyond(Insert(s, x), c, below) == Beyond(s, c, below) + Beyond([x], c, below)
  {
    if s == [] || s[|s| - 1] <= x {
      assert (s + [x])[..|s|] == s;
    } else {
      var init, last := s[..|s| - 1], s[|s| - 1];
      InsertCounts(init, x, c, below);
      assert (Insert(init, x) + [last])[..|Insert(init, x)|] == Insert(init, x);
    }
  }

  /** Sorting permutes: it keeps every such count. */
  lemma {:induction false} SortCounts(s: seq<real>, c: real, below: bool)
    ensures Beyond(Sort(s), c, below) == Beyond(s, c, below)
  {
    if s != [] {
      SortCounts(s[..|s| - 1], c, below);
      InsertCounts(Sort(s[..|s| - 1]), s[|s| - 1], c, below);
      assert [s[|s| - 1]][..0] == [];
    }
  }

  // ---- percentile ----

  /** The value at a fractional index of a sorted sequence, by linear interpolation. */
  function At(s: seq<real>, idx: real): real
    requires s != [] && 0.0 <= idx <= (|s| - 1) as real
  {
    var lower := idx.Floor;
    var upper := if lower as real == idx then lower else lower + 1;
    if lower == upper then s[lower] else s[lower] + (s[upper] - s[lower]) * (idx - lower as real)
  }

  /** The fractional index of the p-quantile of n values. */
  function Index(p: real, n: nat): (idx: real)
    requires 0.0 <= p <= 1.0 && n > 0
    ensures 0.0 <= idx <= (n - 1) as real
  {
    NonNegativeValue(p, (n - 1) as real, p * (n - 1) as real);
    NonNegativeValue(1.0 - p, (n - 1) as real, (n - 1) as real - p * (n - 1) as real);
    p * (n - 1) as real
  }

  function Percentile(sorted: seq<real>, p: real): real
    requires 0.0 <= p <= 1.0
  {
    if |sorted| == 0 then 0.0
    else if |sorted| == 1 then sorted[0]
    else At(sorted, Index(p, |sorted|))
  }

  lemma Interpolates(a: real, b: real, t: real)
    requires a <= b && 0.0 <= t <= 1.0
    ensures a <= a + (b - a) * t <= b
  {
    NonNegativeValue(b - a, t, (b - a) * t);
    NonNegativeValue(b - a, 1.0 - t, b - a - (b - a) * t);
  }

  lemma InterpolatesInOrder(a: real, b: real, t: real, u: real)
    requires a <= b && t <= u
    ensures a + (b - a) * t <= a + (b - a) * u
  {
    NonNegativeValue(b - a, u - t, (b - a) * u - (b - a) * t);
  }

  /** Between its two neighbours. */
  lemma AtBetween(s: seq<real>, idx: real)
    requires Ascending(s) && s != [] && 0.0 <= idx <= (|s| - 1) as real
    ensures s[idx.Floor] <= At(s, idx)
    ensures idx.Floor as real < idx ==> At(s, idx) <= s[idx.Floor + 1]
    ensures idx.Floor as real == idx ==> At(s, idx) == s[idx.Floor]
  {
    var lower := idx.Floor;
    if lower as real != idx {
      Interpolates(s[lower], s[lower + 1], idx - lower as real);
    }
  }

  lemma AtMonotone(s: seq<real>, x: real, y: real)
    requires Ascending(s) && s != [] && 0.0 <= x <= y <= (|s| - 1) as real
    ensures At(s, x) <= At(s, y)
  {
    AtBetween(s, x);
    AtBetween(s, y);
    if x.Floor == y.Floor && x.Floor as real != x {
      InterpolatesInOrder(s[x.Floor], s[x.Floor + 1], x - x.Floor as real, y - y.Floor as real);
    }
  }

  lemma IndexMonotone(p: real, q: real, n: nat)
    requires 0.0 <= p <= q <= 1.0 && n > 0
    ensures Index(p, n) <= Index(q, n)
  {
    NonNegativeValue(q - p, (n - 1) as real, q * (n - 1) as real - p * (n - 1) as real);
  }

  /** percentile never decreases with p. */
  lemma PercentileMonotone(s: seq<real>, p: real, q: real)
    requires Ascending(s) && 0.0 <= p <= q <= 1.0
    ensures Percentile(s, p) <= Percentile(s, q)
  {
    if |s| > 1 {
      IndexMonotone(p, q, |s|);
      AtMonotone(s, Index(p, |s|), Index(q, |s|));
    }
  }

  /** It starts at the least value and ends at the greatest. */
  lemma PercentileEnds(s: seq<real>)
    requires Ascending(s) && s != []
    ensures Percentile(s, 0.0) == s[0] && Percentile(s, 1.0) == s[|s| - 1]
  {
  }

  lemma PercentileBounded(s: seq<real>, p: real)
    requires Ascending(s) && s != [] && 0.0 <= p <= 1.0
    ensures s[0] <= Percentile(s, p) <= s[|s| - 1]
  {
    PercentileEnds(s);
    PercentileMonotone(s, 0.0, p);
    PercentileMonotone(s, p, 1.0);
  }

  lemma OnLine(a: real, b: real, lower: real, idx: real)
    ensures a + b * lower + (a + b * (lower + 1.0) - (a + b * lower)) * (idx - lower) == a + b * idx
  {
    assert a + b * (lower + 1.0) - (a + b * lower) == b;
  }

  lemma AtOnLine(s: seq<real>, idx: real, a: real, b: real)
    requires s != [] && 0.0 <= idx <= (|s| - 1) as real
    requires forall i | 0 <= i < |s| :: s[i] == a + b * i as real
    ensures At(s, idx) == a + b * idx
  {
    var lower := idx.Floor;
    if lower as real != idx {
      OnLine(a, b, lower as real, idx);
      assert (lower + 1) as real == lower as real + 1.0;
    }
  }

  /** On evenly spaced values the percentile is exact: the point p of the way along their line. */
  lemma PercentileOfLine(s: seq<real>, p: real, a: real, b: real)
    requires s != [] && 0.0 <= p <= 1.0
    requires forall i | 0 <= i < |s| :: s[i] == a + b * i as real
    ensures Percentile(s, p) == a + b * (p * (|s| - 1) as real)
  {
    if |s| > 1 {
      AtOnLine(s, Index(p, |s|), a, b);
    }
  }

  lemma Blend(a: real, b: real, t: real)
    ensures a + (b - a) * t == (1.0 - t) * a + t * b
  {
  }

  /** Between two neighbours the percentile moves in a straight line: at p (n - 1) = k + t it takes
      1 - t of value k and t of value k + 1. */
  lemma PercentileBlends(s: seq<real>, p: real, k: nat, t: real)
    requires k + 1 < |s| && 0.0 <= p <= 1.0 && 0.0 <= t <= 1.0 && p * (|s| - 1) as real == k as real + t
    ensures Percentile(s, p) == (1.0 - t) * s[k] + t * s[k + 1]
  {
    var idx := Index(p, |s|);
    assert idx == k as real + t;
    if t < 1.0 {
      assert idx.Floor == k;
      Blend(s[k], s[k + 1], t);
    } else {
      assert idx.Floor == k + 1;
    }
  }

  // ---- The basic statistics of ProcessWithBaselineStats ----

  ghost predicate IsSqrt(sqrt: real -> real) {
    forall x | x >= 0.0 :: sqrt(x) >= 0.0 && sqrt(x) * sqrt(x) == x
  }

  lemma {:induction false} InsertMembers(s: seq<real>, x: real)
    ensures forall v :: v in Insert(s, x) <==> v in s || v == x
  {
    if !(s == [] || s[|s| - 1] <= x) {
      InsertMembers(s[..|s| - 1], x);
      assert s == s[..|s| - 1] + [s[|s| - 1]];
    }
  }

  lemma {:induction false} SortMembers(s: seq<real>)
    ensures forall v :: v in Sort(s) <==> v in s
  {
    if s != [] {
      SortMembers(s[..|s| - 1]);
      InsertMembers(Sort(s[..|s| - 1]), s[|s| - 1]);
      assert s == s[..|s| - 1] + [s[|s| - 1]];
    }
  }

  lemma AtLeastOne(a: real, b: real)
    requires a >= b > 0.0
    ensures a / b >= 1.0
  {
    assert (a / b) * b == a;
  }

  method Average(values: seq<real>) returns (m: real)
    ensures m == Mean(values)
  {
    if |values| == 0 {
      return 0.0;
    }
    var sum := 0.0;
    for i := 0 to |values|
      invariant sum == Sum(values[..i])
    {
      sum := sum + values[i];
      assert values[..i + 1][..i] == values[..i];
    }
    assert values[..|values|] == values;
    m := sum / |values| as real;
  }

  function StddevOf(values: seq<real>, sqrt: real -> real): real {
    if |values| < 2 then 0.0 else sqrt(Variance(values))
  }

  /** stddev with the mean of the values. */
  method Deviation(values: seq<real>, m: real, sqrt: real -> real) returns (sd: real)
    requires m == Mean(values) && IsSqrt(sqrt)
    ensures IsStddev(sd, values)
    ensures sd == StddevOf(values, sqrt)
  {
    if |values| < 2 {
      return 0.0;
    }
    var sum := 0.0;
    ghost var d := Deviations(values);
    for i := 0 to |values|
      invariant sum == Squares(d[..i])
    {
      sum := sum + (values[i] - m) * (values[i] - m);
      assert d[..i + 1][..i] == d[..i];
    }
    assert d[..|values|] == d;
    VarianceNonNegative(values);
    sd := sqrt(sum / |values| as real);
  }

  lemma VarianceNonNegative(values: seq<real>)
    ensures Variance(values) >= 0.0
  {
    SquaresNonNegative(Deviations(values));
  }

  lemma Extremes(values: seq<real>)
    requires values != []
    ensures |Sort(values)| == |values| && Ascending(Sort(values))
    ensures Sort(values)[0] in values && Sort(values)[|values| - 1] in values
    ensures forall v | v in values :: Sort(values)[0] <= v <= Sort(values)[|values| - 1]
  {
    var s := Sort(values);
    SortSorts(values);
    SortMembers(values);
    assert s[0] in s && s[|s| - 1] in s;
    forall v | v in values ensures s[0] <= v <= s[|s| - 1] {
      var i :| 0 <= i < |s| && s[i] == v;
    }
  }

  /** The magnitude, but at least NEAR_ZERO. */
  function Floored(mean: real): (d: real)
    ensures d >= NEAR_ZERO && d >= Abs(mean) && (d == NEAR_ZERO || d == Abs(mean))
  {
    if Abs(mean) > NEAR_ZERO then Abs(mean) else NEAR_ZERO
  }

  /** The deviation relative to that magnitude, so that a mean near zero cannot blow it up. */
  ghost predicate IsVariation(cv: real, sd: real, mean: real) {
    cv * Floored(mean) == sd && 0.0 <= cv <= sd / NEAR_ZERO
  }

  method Variation(sd: real, mean: real) returns (cv: real)
    requires sd >= 0.0
    ensures IsVariation(cv, sd, mean)
  {
    var denom := Floored(mean);
    cv := sd / denom;
    assert cv * denom == sd;
    if cv < 0.0 {
      PositiveValue(-cv, denom, -sd);
    }
    NonNegativeValue(cv, denom - NEAR_ZERO, sd - cv * NEAR_ZERO);
  }

  method BasicStatistics(f: SignalFeatures, values: seq<real>, latency: bool, sqrt: real -> real)
    requires values != [] && IsSqrt(sqrt)
    modifies f`mean, f`stddev, f`cv, f`min, f`max, f`p50, f`p95, f`p99, f`tailRatio
    ensures f.mean == Mean(values) && IsStddev(f.stddev, values)
    ensures IsVariation(f.cv, f.stddev, f.mean)
    ensures f.min in values && f.max in values && forall v | v in values :: f.min <= v <= f.max
    ensures f.min <= f.p50 <= f.p95 <= f.p99 <= f.max
    ensures f.p50 == Percentile(Sort(values), 0.5) && f.p95 == Percentile(Sort(values), 0.95) && f.p99 == Percentile(Sort(values), 0.99)
    ensures if latency && f.p50 > 0.0 then f.tailRatio == f.p99 / f.p50 >= 1.0 else f.tailRatio == old(f.tailRatio)
  {
    hide IsVariation;
    f.mean := Average(values);
    f.stddev := Deviation(values, f.mean, sqrt);
    f.cv := Variation(f.stddev, f.mean);
    var sorted := Sort(values);
    Extremes(values);
    PercentileBounded(sorted, 0.5);
    PercentileMonotone(sorted, 0.5, 0.95);
    PercentileMonotone(sorted, 0.95, 0.99);
    PercentileBounded(sorted, 0.99);
    SortSorts(values);
    f.min, f.max := sorted[0], sorted[|sorted| - 1];
    f.p50, f.p95, f.p99 := Percentile(sorted, 0.5), Percentile(sorted, 0.95), Percentile(sorted, 0.99);
    if latency && f.p50 > 0.0 {
      AtLeastOne(f.p99, f.p50);
      f.tailRatio := f.p99 / f.p50;
    }
  }

  // ---- Other units ----

  /** A value in another unit, from another origin. */
  function Converted(x: real, a: real, c: real): real {
    a * x + c
  }

  function Affine(s: seq<real>, a: real, c: real): seq<real> {
    seq(|s|, i requires 0 <= i < |s| => Converted(s[i], a, c))
  }

  lemma AffineSnoc(s: seq<real>, x: real, a: real, c: real)
    ensures Affine(s + [x], a, c) == Affine(s, a, c) + [Converted(x, a, c)]
  {
    hide Converted;
    var t := Affine(s, a, c) + [Converted(x, a, c)];
    assert |Affine(s + [x], a, c)| == |t|;
    forall i | 0 <= i < |t| ensures Affine(s + [x], a, c)[i] == t[i] {
      assert i == |s| || (s + [x])[i] == s[i];
    }
  }

  lemma AffineOrder(x: real, y: real, a: real, c: real)
    requires a > 0.0
    ensures x <= y <==> Converted(x, a, c) <= Converted(y, a, c)
  {
    if x <= y {
      NonNegativeValue(a, y - x, a * y - a * x);
    } else {
      PositiveValue(a, x - y, a * x - a * y);
    }
  }

  lemma {:induction false} AffineInsert(s: seq<real>, x: real, a: real, c: real)
    requires a > 0.0
    ensures Insert(Affine(s, a, c), Converted(x, a, c)) == Affine(Insert(s, x), a, c)
  {
    hide Converted;
    if s == [] {
      AffineSnoc(s, x, a, c);
    } else {
      var init, last := s[..|s| - 1], s[|s| - 1];
      assert s == init + [last];
      AffineSnoc(init, last, a, c);
      AffineOrder(last, x, a, c);
      var t := Affine(s, a, c);
      assert t[..|t| - 1] == Affine(init, a, c) && t[|t| - 1] == Converted(last, a, c);
      if last <= x {
        AffineSnoc(s, x, a, c);
      } else {
        AffineInsert(init, x, a, c);
        AffineSnoc(Insert(init, x), last, a, c);
      }
    }
  }

  lemma {:induction false} AffineSort(s: seq<real>, a: real, c: real)
    requires a > 0.0
    ensures Sort(Affine(s, a, c)) == Affine(Sort(s), a, c)
  {
    hide Converted, Insert;
    if s != [] {
      var init, last := s[..|s| - 1], s[|s| - 1];
      assert s == init + [last];
      AffineSnoc(init, last, a, c);
      var t := Affine(s, a, c);
      assert t[..|t| - 1] == Affine(init, a, c) && t[|t| - 1] == Converted(last, a, c);
      AffineSort(init, a, c);
      AffineInsert(Sort(init), last, a, c);
    }
  }

  lemma AffineBlend(x: real, y: real, t: real, a: real, c: real)
    ensures Converted(x, a, c) + (Converted(y, a, c) - Converted(x, a, c)) * t == Converted(x + (y - x) * t, a, c)
  {
    assert (a * y + c - (a * x + c)) * t == a * ((y - x) * t);
  }

  lemma AffineAt(s: seq<real>, idx: real, a: real, c: real)
    requires s != [] && 0.0 <= idx <= (|s| - 1) as real
    ensures At(Affine(s, a, c), idx) == Converted(At(s, idx), a, c)
  {
    var lower := idx.Floor;
    if lower as real != idx {
      AffineBlend(s[lower], s[lower + 1], idx - lower as real, a, c);
    }
    hide Converted;
  }

  lemma ConvertedIs(x: real, a: real, c: real)
    ensures Converted(x, a, c) == a * x + c
  {
  }

  /** A change of unit or origin changes a percentile with the values. */
  lemma AffinePercentile(values: seq<real>, p: real, a: real, c: real)
    requires values != [] && 0.0 <= p <= 1.0 && a > 0.0
    ensures Percentile(Sort(Affine(values, a, c)), p) == a * Percentile(Sort(values), p) + c
  {
    hide At, Index, Converted, Sort;
    AffineSort(values, a, c);
    SortSorts(values);
    var s := Sort(values);
    if |s| > 1 {
      AffineAt(s, Index(p, |s|), a, c);
    }
    ConvertedIs(Percentile(s, p), a, c);
  }
}
