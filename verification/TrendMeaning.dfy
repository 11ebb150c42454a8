/** What the trend of internal/metrics/processor.go measures: the slope is that of the best line,
    the score is the drift along it as a share of the baseline, whatever the window's length. */
module TrendMeaning {
  import opened Reals
  import opened Signals
  import opened TrendRegression

  // ---- The slope is that of the best line ----

  function Residual(x: real, y: real, a: real, b: real): real {
    y - a - b * x
  }

  function Squared(r: real): real {
    r * r
  }

  function Weighted(x: real, r: real): real {
    x * r
  }

  /** The squared error of the line a + b x. */
  function SquaredError(xs: seq<real>, ys: seq<real>, a: real, b: real): real
    requires |xs| == |ys|
  {
    if xs == [] then 0.0
    else
      var k := |xs| - 1;
      SquaredError(xs[..k], ys[..k], a, b) + Squared(Residual(xs[k], ys[k], a, b))
  }

  /** Its errors added up, and added up with their x as weight. */
  function Errors(xs: seq<real>, ys: seq<real>, a: real, b: real): real
    requires |xs| == |ys|
  {
    if xs == [] then 0.0
    else var k := |xs| - 1; Errors(xs[..k], ys[..k], a, b) + Residual(xs[k], ys[k], a, b)
  }

  function WeightedErrors(xs: seq<real>, ys: seq<real>, a: real, b: real): real
    requires |xs| == |ys|
  {
    if xs == [] then 0.0
    else var k := |xs| - 1; WeightedErrors(xs[..k], ys[..k], a, b) + Weighted(xs[k], Residual(xs[k], ys[k], a, b))
  }

  function MomentErrors(m: Moments, a: real, b: real): real {
    m.sumY - a * m.n - b * m.sumX
  }

  function MomentWeightedErrors(m: Moments, a: real, b: real): real {
    m.sumXY - a * m.sumX - b * m.sumX2
  }

  lemma {:induction false} ErrorsByMoments(xs: seq<real>, ys: seq<real>, a: real, b: real)
    requires |xs| == |ys|
    ensures Errors(xs, ys, a, b) == MomentErrors(MomentsOf(xs, ys), a, b)
    ensures WeightedErrors(xs, ys, a, b) == MomentWeightedErrors(MomentsOf(xs, ys), a, b)
  {
    if xs != [] {
      hide MomentErrors, MomentWeightedErrors, Residual, Weighted, Step;
      var k := |xs| - 1;
      ErrorsByMoments(xs[..k], ys[..k], a, b);
      ErrorStep(MomentsOf(xs[..k], ys[..k]), xs[k], ys[k], a, b);
    }
  }

  lemma ErrorStep(m: Moments, x: real, y: real, a: real, b: real)
    ensures MomentErrors(Step(m, x, y), a, b) == MomentErrors(m, a, b) + Residual(x, y, a, b)
    ensures MomentWeightedErrors(Step(m, x, y), a, b) == MomentWeightedErrors(m, a, b) + Weighted(x, Residual(x, y, a, b))
  {
    assert a * (m.n + 1.0) == a * m.n + a && b * (m.sumX + x) == b * m.sumX + b * x;
    assert x * (y - a - b * x) == x * y - a * x - b * (x * x);
    assert a * (m.sumX + x) == a * m.sumX + a * x && b * (m.sumX2 + x * x) == b * m.sumX2 + b * (x * x);
  }

  /** The change of the squared error when the line is moved, but for a square. */
  function Change(p: real, q: real, errors: real, weighted: real): real {
    -2.0 * (p * errors + q * weighted)
  }

  lemma ChangeAdds(p: real, q: real, e: real, w: real, r: real, x: real)
    ensures Change(p, q, e + r, w + Weighted(x, r)) == Change(p, q, e, w) + Change(p, q, r, Weighted(x, r))
  {
    assert p * (e + r) == p * e + p * r && q * (w + x * r) == q * w + q * (x * r);
  }

  lemma {:induction false} OtherLine(xs: seq<real>, ys: seq<real>, a: real, b: real, p: real, q: real)
    requires |xs| == |ys|
    ensures SquaredError(xs, ys, a + p, b + q)
            >= SquaredError(xs, ys, a, b) + Change(p, q, Errors(xs, ys, a, b), WeightedErrors(xs, ys, a, b))
  {
    if xs != [] {
      hide Change, Residual, Weighted, Squared;
      var k := |xs| - 1;
      OtherLine(xs[..k], ys[..k], a, b, p, q);
      OtherError(xs[k], ys[k], a, b, p, q);
      ChangeAdds(p, q, Errors(xs[..k], ys[..k], a, b), WeightedErrors(xs[..k], ys[..k], a, b), Residual(xs[k], ys[k], a, b), xs[k]);
    }
  }

  lemma OtherError(x: real, y: real, a: real, b: real, p: real, q: real)
    ensures var r := Residual(x, y, a, b);
            Squared(Residual(x, y, a + p, b + q)) >= Squared(r) + Change(p, q, r, Weighted(x, r))
  {
    var r, d := y - a - b * x, p + q * x;
    assert (b + q) * x == b * x + q * x;
    assert y - (a + p) - (b + q) * x == r - d;
    assert (r - d) * (r - d) == r * r - 2.0 * (d * r) + d * d;
    assert d * r == p * r + q * (x * r);
    SquareIsNonNegative(d);
  }

  lemma NoBetter(xs: seq<real>, ys: seq<real>, a: real, b: real, c: real, d: real)
    requires |xs| == |ys| && Errors(xs, ys, a, b) == 0.0 && WeightedErrors(xs, ys, a, b) == 0.0
    ensures SquaredError(xs, ys, a, b) <= SquaredError(xs, ys, c, d)
  {
    var p, q := c - a, d - b;
    OtherLine(xs, ys, a, b, p, q);
    assert a + p == c && b + q == d;
  }

  lemma NormalEquations(m: Moments, b: real)
    requires m.n > 0.0 && Denominator(m) != 0.0 && b == Numerator(m) / Denominator(m)
    ensures var a := (m.sumY - b * m.sumX) / m.n; MomentErrors(m, a, b) == 0.0 && MomentWeightedErrors(m, a, b) == 0.0
  {
    var a := (m.sumY - b * m.sumX) / m.n;
    assert a * m.n == m.sumY - b * m.sumX;
    assert b * Denominator(m) == Numerator(m);
    var w := m.sumXY - a * m.sumX - b * m.sumX2;
    assert m.n * w == m.n * m.sumXY - (a * m.n) * m.sumX - m.n * (b * m.sumX2);
    assert (a * m.n) * m.sumX == m.sumY * m.sumX - b * m.sumX * m.sumX;
    assert b * Denominator(m) == b * (m.n * m.sumX2) - b * (m.sumX * m.sumX);
    assert m.n * w == 0.0;
  }

  lemma {:induction false} CountIsN(xs: seq<real>, ys: seq<real>)
    requires |xs| == |ys|
    ensures MomentsOf(xs, ys).n == |xs| as real
  {
    if xs != [] {
      CountIsN(xs[..|xs| - 1], ys[..|ys| - 1]);
    }
  }

  lemma ErrorsCancel(points: seq<Point>) returns (a: real)
    requires Fittable(points)
    ensures Errors(Xs(points), Ys(points), a, Slope(points)) == 0.0
    ensures WeightedErrors(Xs(points), Ys(points), a, Slope(points)) == 0.0
  {
    var xs, ys, m, b := Xs(points), Ys(points), Fit(points), Slope(points);
    CountIsN(xs, ys);
    NormalEquations(m, b);
    a := (m.sumY - b * m.sumX) / m.n;
    hide MomentErrors, MomentWeightedErrors, Errors, WeightedErrors, MomentsOf, Xs, Ys;
    ErrorsByMoments(xs, ys, a, b);
  }

  /** Least squares: some line with the computed slope has no larger squared error than any other. */
  lemma LeastSquares(points: seq<Point>) returns (a: real)
    requires Fittable(points)
    ensures forall c, d :: SquaredError(Xs(points), Ys(points), a, Slope(points)) <= SquaredError(Xs(points), Ys(points), c, d)
  {
    var xs, ys, b := Xs(points), Ys(points), Slope(points);
    hide Errors, WeightedErrors, SquaredError, Slope;
    a := ErrorsCancel(points);
    forall c, d ensures SquaredError(xs, ys, a, b) <= SquaredError(xs, ys, c, d) {
      NoBetter(xs, ys, a, b, c, d);
    }
  }

  // ---- The score does not depend on the units ----

  /** The same measurements on another clock and in another unit. */
  ghost predicate Rescaled(points: seq<Point>, others: seq<Point>, k: real, t: real, c: real) {
    && |others| == |points|
    && forall i | 0 <= i < |points| ::
         others[i].minutes == t + k * points[i].minutes && others[i].value == c * points[i].value
  }

  ghost predicate Multiples(s: seq<real>, t: seq<real>, k: real) {
    |s| == |t| && forall i | 0 <= i < |s| :: t[i] == k * s[i]
  }

  ghost predicate ScaledArea(p: Area, q: Area, k: real, c: real) {
    q.xy == (k * c) * p.xy && q.xx == (k * k) * p.xx
  }

  lemma ScaledTerm(p: Area, q: Area, k: real, c: real, dx: real, dy: real, du: real, dv: real)
    requires ScaledArea(p, q, k, c) && du == k * dx && dv == c * dy
    ensures ScaledArea(AddTerm(p, dx, dy), AddTerm(q, du, dv), k, c)
  {
    assert (k * dx) * (c * dy) == (k * c) * (dx * dy) && (k * dx) * (k * dx) == (k * k) * (dx * dx);
    assert (k * c) * (p.xy + dx * dy) == (k * c) * p.xy + (k * c) * (dx * dy);
    assert (k * k) * (p.xx + dx * dx) == (k * k) * p.xx + (k * k) * (dx * dx);
  }

  lemma ScaledSum(p: Area, q: Area, p': Area, q': Area, k: real, c: real)
    requires ScaledArea(p, q, k, c) && ScaledArea(p', q', k, c)
    ensures ScaledArea(Plus(p, p'), Plus(q, q'), k, c)
  {
    assert (k * c) * (p.xy + p'.xy) == (k * c) * p.xy + (k * c) * p'.xy;
    assert (k * k) * (p.xx + p'.xx) == (k * k) * p.xx + (k * k) * p'.xx;
  }

  lemma Apart(u: real, v: real, x: real, y: real, k: real)
    requires u == k * x && v == k * y
    ensures u - v == k * (x - y)
  {
  }

  lemma NothingScales(us: seq<real>, vs: seq<real>, k: real, c: real)
    requires Multiples([], us, k) && Multiples([], vs, c)
    ensures us == vs == [] && ScaledArea(EMPTY, EMPTY, k, c)
  {
  }

  lemma MultiplesInit(s: seq<real>, t: seq<real>, k: real)
    requires Multiples(s, t, k) && s != []
    ensures |t| == |s| && Multiples(s[..|s| - 1], t[..|s| - 1], k) && t[|s| - 1] == k * s[|s| - 1]
  {
  }

  lemma {:induction false} ScaledCross(xs: seq<real>, ys: seq<real>, us: seq<real>, vs: seq<real>,
                                       x: real, y: real, u: real, v: real, k: real, c: real)
    requires |xs| == |ys| && Multiples(xs, us, k) && Multiples(ys, vs, c) && u == k * x && v == c * y
    ensures |us| == |vs| && ScaledArea(Cross(xs, ys, x, y), Cross(us, vs, u, v), k, c)
  {
    hide Multiples, ScaledArea, AddTerm;
    if xs == [] {
      NothingScales(us, vs, k, c);
    } else {
      var n := |xs| - 1;
      MultiplesInit(xs, us, k);
      MultiplesInit(ys, vs, c);
      ScaledCross(xs[..n], ys[..n], us[..n], vs[..n], x, y, u, v, k, c);
      Apart(us[n], u, xs[n], x, k);
      Apart(vs[n], v, ys[n], y, c);
      ScaledTerm(Cross(xs[..n], ys[..n], x, y), Cross(us[..n], vs[..n], u, v), k, c, xs[n] - x, ys[n] - y, us[n] - u, vs[n] - v);
    }
  }

  lemma {:induction false} ScaledPairs(xs: seq<real>, ys: seq<real>, us: seq<real>, vs: seq<real>, k: real, c: real)
    requires |xs| == |ys| && Multiples(xs, us, k) && Multiples(ys, vs, c)
    ensures |us| == |vs| && ScaledArea(Pairs(xs, ys), Pairs(us, vs), k, c)
  {
    hide ScaledArea, Plus, Multiples, Cross;
    if xs == [] {
      NothingScales(us, vs, k, c);
    } else {
      MultiplesInit(xs, us, k);
      MultiplesInit(ys, vs, c);
      var n := |xs| - 1;
      ScaledPairs(xs[..n], ys[..n], us[..n], vs[..n], k, c);
      ScaledCross(xs[..n], ys[..n], us[..n], vs[..n], xs[n], ys[n], us[n], vs[n], k, c);
      ScaledSum(Pairs(xs[..n], ys[..n]), Pairs(us[..n], vs[..n]), Cross(xs[..n], ys[..n], xs[n], ys[n]),
                Cross(us[..n], vs[..n], us[n], vs[n]), k, c);
    }
  }

  lemma ScaledQuotient(xy: real, xx: real, k: real, c: real)
    requires xx != 0.0 && k > 0.0
    ensures (k * k) * xx != 0.0
    ensures ((k * c) * xy) / ((k * k) * xx) * k == c * (xy / xx)
  {
    PositiveValue(k, k, k * k);
    var s, t := xy / xx, ((k * c) * xy) / ((k * k) * xx);
    assert s * xx == xy;
    NonzeroFactor(k * k, xx);
    assert t * ((k * k) * xx) == (k * c) * xy;
    assert t * ((k * k) * xx) == (t * k) * (k * xx) && (k * c) * xy == (c * s) * (k * xx);
    assert (t * k - c * s) * (k * xx) == 0.0;
    NonzeroProduct(t * k - c * s, k, xx);
  }

  lemma NonzeroFactor(a: real, b: real)
    requires a > 0.0
    ensures a * b == 0.0 ==> b == 0.0
  {
  }

  lemma NonzeroProduct(d: real, k: real, x: real)
    requires k > 0.0 && x != 0.0 && d * (k * x) == 0.0
    ensures d == 0.0
  {
    assert k * (d * x) == d * (k * x);
    NonzeroFactor(k, d * x);
  }

  lemma SlopeByPairs(points: seq<Point>)
    requires Fittable(points)
    ensures Pairs(Xs(points), Ys(points)).xx != 0.0
    ensures Slope(points) == Pairs(Xs(points), Ys(points)).xy / Pairs(Xs(points), Ys(points)).xx
  {
    RegressionByPairs(Xs(points), Ys(points));
  }

  lemma RescaledAxes(points: seq<Point>, others: seq<Point>, k: real, t: real, c: real)
    requires Rescaled(points, others, k, t, c)
    ensures |Xs(points)| == |Ys(points)| && |Xs(others)| == |Ys(others)|
    ensures Multiples(Xs(points), Xs(others), k) && Multiples(Ys(points), Ys(others), c)
    ensures points != [] ==> Minutes(others) == k * Minutes(points)
  {
  }

  lemma FitsEither(points: seq<Point>, others: seq<Point>, k: real, t: real, c: real)
    requires Rescaled(points, others, k, t, c) && k > 0.0
    ensures Fittable(others) <==> Fittable(points)
  {
    FittableIff(points);
    FittableIff(others);
    hide Fittable;
    if AtOneTime(others) {
      forall i | 0 <= i < |points| ensures points[i].minutes == points[0].minutes {
        assert k * (points[i].minutes - points[0].minutes) == others[i].minutes - others[0].minutes;
        NonzeroFactor(k, points[i].minutes - points[0].minutes);
      }
    }
  }

  function AreaDrift(p: Area, minutes: real): real {
    if p.xx == 0.0 then 0.0 else p.xy / p.xx * minutes
  }

  lemma DriftOf(p: Area, q: Area, k: real, c: real, minutes: real, others: real)
    requires p.xx != 0.0 && q.xx != 0.0 && k > 0.0 && ScaledArea(p, q, k, c) && others == k * minutes
    ensures AreaDrift(q, others) == c * AreaDrift(p, minutes)
  {
    ScaledQuotient(p.xy, p.xx, k, c);
    var s, t := p.xy / p.xx, q.xy / q.xx;
    assert t * k == c * s;
    Regroup(s, t, k, c, minutes, others);
  }

  lemma Regroup(s: real, t: real, k: real, c: real, minutes: real, others: real)
    requires t * k == c * s && others == k * minutes
    ensures t * others == c * (s * minutes)
  {
    assert t * others == (t * k) * minutes;
    assert c * (s * minutes) == (c * s) * minutes;
  }

  /** The change along the fitted line. */
  function FittedDrift(points: seq<Point>): real
    requires Fittable(points)
  {
    Slope(points) * Minutes(points)
  }

  lemma DriftByPairs(points: seq<Point>)
    requires Fittable(points)
    ensures points != []
    ensures var p := Pairs(Xs(points), Ys(points)); p.xx != 0.0 && FittedDrift(points) == AreaDrift(p, Minutes(points))
  {
    SlopeByPairs(points);
  }

  lemma DriftRescales(points: seq<Point>, others: seq<Point>, k: real, t: real, c: real)
    requires Rescaled(points, others, k, t, c) && k > 0.0 && Fittable(points) && Fittable(others)
    ensures FittedDrift(others) == c * FittedDrift(points)
  {
    hide AreaDrift, Fittable, FittedDrift, Pairs, Xs, Ys, Rescaled, Multiples, ScaledArea, Minutes;
    DriftByPairs(points);
    DriftByPairs(others);
    RescaledAxes(points, others, k, t, c);
    var p, q := Pairs(Xs(points), Ys(points)), Pairs(Xs(others), Ys(others));
    ScaledPairs(Xs(points), Ys(points), Xs(others), Ys(others), k, c);
    DriftOf(p, q, k, c, Minutes(points), Minutes(others));
  }

  lemma ScoreIsShare(points: seq<Point>, baseline: real, mean: real)
    requires Fittable(points)
    ensures Score(points, baseline, mean) ==
            if Scale(baseline, mean) > NEAR_ZERO then FittedDrift(points) / Scale(baseline, mean) else 0.0
  {
  }

  /** The score does not depend on the window's length or its clock: stretching all timestamps by one
      factor and moving them leaves it as it is. */
  lemma ScoreIgnoresClock(points: seq<Point>, others: seq<Point>, k: real, t: real, baseline: real, mean: real)
    requires Rescaled(points, others, k, t, 1.0) && k > 0.0 && Fittable(points)
    ensures Fittable(others) && Score(others, baseline, mean) == Score(points, baseline, mean)
  {
    hide Rescaled, Fittable, FittedDrift, Score, Scale;
    FitsEither(points, others, k, t, 1.0);
    DriftRescales(points, others, k, t, 1.0);
    ScoreIsShare(points, baseline, mean);
    ScoreIsShare(others, baseline, mean);
  }

  /** Nor on the unit of the metric, as long as the baseline is not near zero in either unit. */
  lemma ScoreIgnoresUnit(points: seq<Point>, others: seq<Point>, c: real, baseline: real, mean: real)
    requires Rescaled(points, others, 1.0, 0.0, c) && c > 0.0 && Fittable(points)
    requires Abs(baseline) > NEAR_ZERO && Abs(c * baseline) > NEAR_ZERO
    ensures Fittable(others) && Score(others, c * baseline, c * mean) == Score(points, baseline, mean)
  {
    hide Rescaled, Fittable, FittedDrift, Score, Abs;
    FitsEither(points, others, 1.0, 0.0, c);
    DriftRescales(points, others, 1.0, 0.0, c);
    ScoreIsShare(points, baseline, mean);
    ScoreIsShare(others, c * baseline, c * mean);
    AbsScales(c, baseline);
    SameRatio(FittedDrift(points), Abs(baseline), c);
  }

  lemma AbsScales(c: real, x: real)
    requires c > 0.0
    ensures Abs(c * x) == c * Abs(x)
  {
    if x < 0.0 {
      PositiveValue(c, -x, -(c * x));
    } else {
      NonNegativeValue(c, x, c * x);
    }
  }

  lemma SameRatio(a: real, b: real, c: real)
    requires b > 0.0 && c > 0.0
    ensures c * b > 0.0 && (c * a) / (c * b) == a / b
  {
    PositiveValue(c, b, c * b);
    assert (a / b) * (c * b) == c * a;
    assert ((c * a) / (c * b) - a / b) * (c * b) == 0.0;
    NonzeroProduct((c * a) / (c * b) - a / b, c, b);
  }

  // ---- The score is the drift ----

  ghost predicate OnLine(points: seq<Point>, a: real, b: real) {
    forall i | 0 <= i < |points| :: points[i].value == a + b * (points[i].minutes - points[0].minutes)
  }

  function Drift(points: seq<Point>): real
    requires points != []
  {
    points[|points| - 1].value - points[0].value
  }

  /** On a linear series the score is the change from the first value to the last, as a share of the
      baseline, or of the mean when the baseline is near zero; 0 when both are. */
  lemma LinearScore(points: seq<Point>, a: real, b: real, baseline: real, mean: real)
    requires Fittable(points) && OnLine(points, a, b)
    ensures Score(points, baseline, mean) ==
            if Abs(baseline) > NEAR_ZERO then Drift(points) / Abs(baseline)
            else if Abs(mean) > NEAR_ZERO then Drift(points) / Abs(mean)
            else 0.0
  {
    LinearSlope(points, a, b);
    assert points[|points| - 1].value == a + b * Minutes(points) && points[0].value == a;
    assert Slope(points) * Minutes(points) == Drift(points);
  }

  lemma Exceeds(d: real, scale: real, band: real)
    requires scale > 0.0
    ensures d / scale > band <==> d > band * scale
    ensures d / scale < -band <==> d < -(band * scale)
  {
    var q := d / scale;
    assert q * scale == d;
    if q > band {
      PositiveValue(q - band, scale, d - band * scale);
    } else {
      NonNegativeValue(band - q, scale, band * scale - d);
    }
    if q < -band {
      PositiveValue(-band - q, scale, -(band * scale) - d);
    } else {
      NonNegativeValue(q + band, scale, d + band * scale);
    }
  }

  /** A linear series trends up, or down, exactly when it moved that way by more than FLAT_BAND of
      what it is measured against. */
  lemma LinearTrend(points: seq<Point>, a: real, b: real, baseline: real, mean: real)
    requires Fittable(points) && OnLine(points, a, b)
    ensures var scale := if Abs(baseline) > NEAR_ZERO then Abs(baseline) else Abs(mean);
            var trend := Direction(Score(points, baseline, mean));
            && (trend == Up <==> scale > NEAR_ZERO && Drift(points) > FLAT_BAND * scale)
            && (trend == Down <==> scale > NEAR_ZERO && Drift(points) < -(FLAT_BAND * scale))
  {
    LinearScore(points, a, b, baseline, mean);
    var scale := if Abs(baseline) > NEAR_ZERO then Abs(baseline) else Abs(mean);
    if scale > NEAR_ZERO {
      Exceeds(Drift(points), scale, FLAT_BAND);
    }
  }

  /** On any series the trend follows the drift along the best line. */
  lemma TrendFollowsDrift(points: seq<Point>, baseline: real, mean: real)
    requires Fittable(points)
    ensures var scale := if Abs(baseline) > NEAR_ZERO then Abs(baseline) else Abs(mean);
            var drift := Slope(points) * (points[|points| - 1].minutes - points[0].minutes);
            var trend := Direction(Score(points, baseline, mean));
            && (trend == Up <==> scale > NEAR_ZERO && drift > FLAT_BAND * scale)
            && (trend == Down <==> scale > NEAR_ZERO && drift < -(FLAT_BAND * scale))
  {
    var scale := if Abs(baseline) > NEAR_ZERO then Abs(baseline) else Abs(mean);
    if scale > NEAR_ZERO {
      Exceeds(Slope(points) * Minutes(points), scale, FLAT_BAND);
    }
  }
}
