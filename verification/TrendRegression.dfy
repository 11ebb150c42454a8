/** The linear regression of internal/metrics/processor.go, over the reals. */
module TrendRegression {
  import opened Reals
  import opened Signals

  /** A point at a time in minutes. */
  datatype Point = Point(minutes: real, value: real)

  /** The sums the regression accumulates over the points. */
  datatype Moments = Moments(n: real, sumX: real, sumY: real, sumXY: real, sumX2: real)

  const NONE := Moments(0.0, 0.0, 0.0, 0.0, 0.0)

  function Step(m: Moments, x: real, y: real): Moments {
    Moments(m.n + 1.0, m.sumX + x, m.sumY + y, m.sumXY + x * y, m.sumX2 + x * x)
  }

  function MomentsOf(xs: seq<real>, ys: seq<real>): Moments
    requires |xs| == |ys|
  {
    if xs == [] then NONE
    else Step(MomentsOf(xs[..|xs| - 1], ys[..|ys| - 1]), xs[|xs| - 1], ys[|ys| - 1])
  }

  function Denominator(m: Moments): real {
    m.n * m.sumX2 - m.sumX * m.sumX
  }

  function Numerator(m: Moments): real {
    m.n * m.sumXY - m.sumX * m.sumY
  }

  // ---- The regression sums are sums over pairs of points ----

  /** A sum of products of differences, and the same for the squares of the x differences. */
  datatype Area = Area(xy: real, xx: real)

  const EMPTY := Area(0.0, 0.0)

  function AddTerm(c: Area, dx: real, dy: real): Area {
    Area(c.xy + dx * dy, c.xx + dx * dx)
  }

  function Plus(a: Area, b: Area): Area {
    Area(a.xy + b.xy, a.xx + b.xx)
  }

  /** All points against one more. */
  function Cross(xs: seq<real>, ys: seq<real>, x: real, y: real): Area
    requires |xs| == |ys|
  {
    if xs == [] then EMPTY
    else AddTerm(Cross(xs[..|xs| - 1], ys[..|ys| - 1], x, y), xs[|xs| - 1] - x, ys[|ys| - 1] - y)
  }

  /** The sums over all pairs i < j of (x_i - x_j)(y_i - y_j) and of (x_i - x_j)(x_i - x_j). */
  function Pairs(xs: seq<real>, ys: seq<real>): Area
    requires |xs| == |ys|
  {
    if xs == [] then EMPTY
    else
      var k := |xs| - 1;
      Plus(Pairs(xs[..k], ys[..k]), Cross(xs[..k], ys[..k], xs[k], ys[k]))
  }

  ghost predicate CrossXY(m: Moments, c: Area, x: real, y: real) {
    c.xy == m.sumXY - y * m.sumX - x * m.sumY + m.n * (x * y)
  }

  ghost predicate CrossXX(m: Moments, c: Area, x: real) {
    c.xx == m.sumX2 - 2.0 * (x * m.sumX) + m.n * (x * x)
  }

  lemma CrossXYStep(m: Moments, c: Area, x: real, y: real, u: real, v: real)
    requires CrossXY(m, c, x, y)
    ensures CrossXY(Step(m, u, v), AddTerm(c, u - x, v - y), x, y)
  {
    assert (u - x) * (v - y) == u * v - y * u - x * v + x * y;
    assert (m.n + 1.0) * (x * y) == m.n * (x * y) + x * y;
  }

  lemma CrossXXStep(m: Moments, c: Area, x: real, u: real, v: real, dy: real)
    requires CrossXX(m, c, x)
    ensures CrossXX(Step(m, u, v), AddTerm(c, u - x, dy), x)
  {
    assert (u - x) * (u - x) == u * u - 2.0 * (x * u) + x * x;
    assert (m.n + 1.0) * (x * x) == m.n * (x * x) + x * x;
  }

  lemma {:induction false} CrossForm(xs: seq<real>, ys: seq<real>, x: real, y: real)
    requires |xs| == |ys|
    ensures CrossXY(MomentsOf(xs, ys), Cross(xs, ys, x, y), x, y)
    ensures CrossXX(MomentsOf(xs, ys), Cross(xs, ys, x, y), x)
  {
    if xs != [] {
      var k := |xs| - 1;
      var m, c := MomentsOf(xs[..k], ys[..k]), Cross(xs[..k], ys[..k], x, y);
      CrossForm(xs[..k], ys[..k], x, y);
      CrossXYStep(m, c, x, y, xs[k], ys[k]);
      CrossXXStep(m, c, x, xs[k], ys[k], ys[k] - y);
    }
  }

  ghost predicate NumeratorIs(m: Moments, p: Area) {
    Numerator(m) == p.xy
  }

  ghost predicate DenominatorIs(m: Moments, p: Area) {
    Denominator(m) == p.xx
  }

  lemma NumeratorStep(m: Moments, p: Area, c: Area, x: real, y: real)
    requires NumeratorIs(m, p) && CrossXY(m, c, x, y)
    ensures NumeratorIs(Step(m, x, y), Plus(p, c))
  {
    assert (m.sumX + x) * (m.sumY + y) == m.sumX * m.sumY + y * m.sumX + x * m.sumY + x * y;
    assert (m.n + 1.0) * (m.sumXY + x * y) == m.n * m.sumXY + m.n * (x * y) + m.sumXY + x * y;
  }

  lemma DenominatorStep(m: Moments, p: Area, c: Area, x: real, y: real)
    requires DenominatorIs(m, p) && CrossXX(m, c, x)
    ensures DenominatorIs(Step(m, x, y), Plus(p, c))
  {
    assert (m.sumX + x) * (m.sumX + x) == m.sumX * m.sumX + 2.0 * (x * m.sumX) + x * x;
    assert (m.n + 1.0) * (m.sumX2 + x * x) == m.n * m.sumX2 + m.n * (x * x) + m.sumX2 + x * x;
  }

  /** The numerator and the denominator of the slope are the sums over pairs. */
  lemma {:induction false} RegressionByPairs(xs: seq<real>, ys: seq<real>)
    requires |xs| == |ys|
    ensures NumeratorIs(MomentsOf(xs, ys), Pairs(xs, ys)) && DenominatorIs(MomentsOf(xs, ys), Pairs(xs, ys))
  {
    if xs != [] {
      var k := |xs| - 1;
      RegressionByPairs(xs[..k], ys[..k]);
      CrossForm(xs[..k], ys[..k], xs[k], ys[k]);
      var m, p, c := MomentsOf(xs[..k], ys[..k]), Pairs(xs[..k], ys[..k]), Cross(xs[..k], ys[..k], xs[k], ys[k]);
      NumeratorStep(m, p, c, xs[k], ys[k]);
      DenominatorStep(m, p, c, xs[k], ys[k]);
    }
  }

  // ---- Signs of the pair sums ----

  ghost predicate AllAre(s: seq<real>, x: real) {
    forall i | 0 <= i < |s| :: s[i] == x
  }

  ghost predicate AtLeast(s: seq<real>, x: real) {
    forall i | 0 <= i < |s| :: s[i] >= x
  }

  ghost predicate Constant(s: seq<real>) {
    forall i, j | 0 <= i < j < |s| :: s[i] == s[j]
  }

  ghost predicate Rising(s: seq<real>) {
    forall i, j | 0 <= i < j < |s| :: s[i] <= s[j]
  }

  ghost predicate Falling(s: seq<real>) {
    forall i, j | 0 <= i < j < |s| :: s[i] >= s[j]
  }

  ghost predicate ZeroIff(c: Area, zero: bool) {
    c.xx >= 0.0 && (c.xx == 0.0 <==> zero)
  }

  lemma Square(d: real) returns (q: real)
    ensures q == d * d && q >= 0.0 && (q == 0.0 <==> d == 0.0)
  {
    q := d * d;
    if d > 0.0 {
      PositiveValue(d, d, q);
    } else if d < 0.0 {
      assert q == (-d) * (-d);
      PositiveValue(-d, -d, q);
    }
  }

  lemma ZeroIffStep(c: Area, zero: bool, dx: real, dy: real)
    requires ZeroIff(c, zero)
    ensures ZeroIff(AddTerm(c, dx, dy), zero && dx == 0.0)
  {
    var q := Square(dx);
    assert AddTerm(c, dx, dy).xx == c.xx + q;
  }

  lemma {:induction false} CrossZero(xs: seq<real>, ys: seq<real>, x: real, y: real)
    requires |xs| == |ys|
    ensures ZeroIff(Cross(xs, ys, x, y), AllAre(xs, x))
  {
    if xs != [] {
      var k := |xs| - 1;
      CrossZero(xs[..k], ys[..k], x, y);
      ZeroIffStep(Cross(xs[..k], ys[..k], x, y), AllAre(xs[..k], x), xs[k] - x, ys[k] - y);
      AllAreStep(xs, x);
    }
  }

  lemma AllAreStep(xs: seq<real>, x: real)
    requires xs != []
    ensures AllAre(xs, x) == (AllAre(xs[..|xs| - 1], x) && xs[|xs| - 1] - x == 0.0)
  {
    var init := xs[..|xs| - 1];
    if AllAre(init, x) && xs[|xs| - 1] - x == 0.0 {
      assert forall i | 0 <= i < |init| :: xs[i] == init[i];
    }
  }

  lemma ConstantStep(xs: seq<real>)
    requires xs != []
    ensures Constant(xs) == (Constant(xs[..|xs| - 1]) && AllAre(xs[..|xs| - 1], xs[|xs| - 1]))
  {
  }

  lemma ZeroIffPlus(p: Area, c: Area, a: bool, b: bool)
    requires ZeroIff(p, a) && ZeroIff(c, b)
    ensures ZeroIff(Plus(p, c), a && b)
  {
  }

  /** The denominator is never negative, and zero exactly when all points share one time. */
  lemma {:induction false} DenominatorSign(xs: seq<real>, ys: seq<real>)
    requires |xs| == |ys|
    ensures ZeroIff(Pairs(xs, ys), Constant(xs))
  {
    if xs != [] {
      var k := |xs| - 1;
      DenominatorSign(xs[..k], ys[..k]);
      CrossZero(xs[..k], ys[..k], xs[k], ys[k]);
      ZeroIffPlus(Pairs(xs[..k], ys[..k]), Cross(xs[..k], ys[..k], xs[k], ys[k]), Constant(xs[..k]), AllAre(xs[..k], xs[k]));
      ConstantStep(xs);
    }
  }

  /** The sign of the xy sum when all y differences have one sign; `up` says which. */
  ghost predicate Signed(c: Area, up: bool) {
    if up then c.xy >= 0.0 else c.xy <= 0.0
  }

  lemma SignedStep(c: Area, up: bool, dx: real, dy: real)
    requires Signed(c, up) && dx <= 0.0 && if up then dy <= 0.0 else dy >= 0.0
    ensures Signed(AddTerm(c, dx, dy), up)
  {
    if up {
      assert dx * dy >= 0.0;
    } else {
      assert dx * dy <= 0.0;
    }
  }

  lemma {:induction false} CrossSigned(xs: seq<real>, ys: seq<real>, x: real, y: real, up: bool)
    requires |xs| == |ys| && AtMost(xs, x) && if up then AtMost(ys, y) else AtLeast(ys, y)
    ensures Signed(Cross(xs, ys, x, y), up)
  {
    if xs != [] {
      var k := |xs| - 1;
      CrossSigned(xs[..k], ys[..k], x, y, up);
      SignedStep(Cross(xs[..k], ys[..k], x, y), up, xs[k] - x, ys[k] - y);
    }
  }

  /** Chebyshev's sum inequality: values that never fall have no negative numerator, values that
      never rise no positive one. */
  lemma {:induction false} NumeratorSign(xs: seq<real>, ys: seq<real>, up: bool)
    requires |xs| == |ys| && Rising(xs) && if up then Rising(ys) else Falling(ys)
    ensures Signed(Pairs(xs, ys), up)
  {
    if xs != [] {
      var k := |xs| - 1;
      NumeratorSign(xs[..k], ys[..k], up);
      CrossSigned(xs[..k], ys[..k], xs[k], ys[k], up);
    }
  }

  ghost predicate Linear(xs: seq<real>, ys: seq<real>, a: real, b: real)
    requires |xs| == |ys|
  {
    forall i | 0 <= i < |xs| :: ys[i] == a + b * xs[i]
  }

  ghost predicate Proportional(c: Area, b: real) {
    c.xy == b * c.xx
  }

  lemma ProportionalStep(c: Area, b: real, dx: real, dy: real)
    requires Proportional(c, b) && dy == b * dx
    ensures Proportional(AddTerm(c, dx, dy), b)
  {
    assert dx * (b * dx) == b * (dx * dx);
    assert b * (c.xx + dx * dx) == b * c.xx + b * (dx * dx);
  }

  lemma Rise(a: real, b: real, u: real, x: real)
    ensures a + b * u - (a + b * x) == b * (u - x)
  {
  }

  lemma {:induction false} CrossProportional(xs: seq<real>, ys: seq<real>, x: real, y: real, a: real, b: real)
    requires |xs| == |ys| && Linear(xs, ys, a, b) && y == a + b * x
    ensures Proportional(Cross(xs, ys, x, y), b)
  {
    if xs != [] {
      var k := |xs| - 1;
      CrossProportional(xs[..k], ys[..k], x, y, a, b);
      Rise(a, b, xs[k], x);
      ProportionalStep(Cross(xs[..k], ys[..k], x, y), b, xs[k] - x, ys[k] - y);
    }
  }

  lemma ProportionalPlus(p: Area, c: Area, b: real)
    requires Proportional(p, b) && Proportional(c, b)
    ensures Proportional(Plus(p, c), b)
  {
  }

  lemma {:induction false} LinearPairs(xs: seq<real>, ys: seq<real>, a: real, b: real)
    requires |xs| == |ys| && Linear(xs, ys, a, b)
    ensures Proportional(Pairs(xs, ys), b)
  {
    if xs != [] {
      var k := |xs| - 1;
      LinearPairs(xs[..k], ys[..k], a, b);
      CrossProportional(xs[..k], ys[..k], xs[k], ys[k], a, b);
      ProportionalPlus(Pairs(xs[..k], ys[..k]), Cross(xs[..k], ys[..k], xs[k], ys[k]), b);
    }
  }

  // ---- computeTrend ----

  ghost predicate InTimeOrder(points: seq<Point>) {
    forall i, j | 0 <= i < j < |points| :: points[i].minutes <= points[j].minutes
  }

  /** Minutes since the first point. */
  function Xs(points: seq<Point>): seq<real> {
    seq(|points|, i requires 0 <= i < |points| => points[i].minutes - points[0].minutes)
  }

  function Ys(points: seq<Point>): seq<real> {
    seq(|points|, i requires 0 <= i < |points| => points[i].value)
  }

  function Fit(points: seq<Point>): Moments {
    MomentsOf(Xs(points), Ys(points))
  }

  predicate Fittable(points: seq<Point>) {
    |points| >= 3 && Denominator(Fit(points)) != 0.0
  }

  function Slope(points: seq<Point>): real
    requires Fittable(points)
  {
    Numerator(Fit(points)) / Denominator(Fit(points))
  }

  function Minutes(points: seq<Point>): real
    requires points != []
  {
    points[|points| - 1].minutes - points[0].minutes
  }

  /** What drift is measured against: the baseline, or the mean where that is near zero. */
  function Scale(baseline: real, mean: real): real {
    if Abs(baseline) <= NEAR_ZERO then Abs(mean) else Abs(baseline)
  }

  function Score(points: seq<Point>, baseline: real, mean: real): real
    requires Fittable(points)
  {
    if Scale(baseline, mean) > NEAR_ZERO then Slope(points) * Minutes(points) / Scale(baseline, mean) else 0.0
  }

  function Direction(score: real): Trend {
    if score > FLAT_BAND then Up else if score < -FLAT_BAND then Down else Flat
  }

  /** The loop over the points. */
  method Accumulate(points: seq<Point>) returns (m: Moments)
    ensures m == Fit(points)
  {
    m := NONE;
    ghost var xs, ys := Xs(points), Ys(points);
    for i := 0 to |points|
      invariant m == MomentsOf(xs[..i], ys[..i])
    {
      m := Step(m, points[i].minutes - points[0].minutes, points[i].value);
      MomentsGrow(xs, ys, i);
    }
    assert xs[..|points|] == xs && ys[..|points|] == ys;
  }

  method ComputeTrend(f: SignalFeatures, points: seq<Point>)
    requires f.trendScore == 0.0
    modifies f`trend, f`slopePerMin, f`trendScore
    ensures !Fittable(points) ==>
              f.trend == Flat && f.slopePerMin == old(f.slopePerMin) && f.trendScore == 0.0
    ensures Fittable(points) ==>
              && f.slopePerMin == Slope(points)
              && f.trendScore == Score(points, f.baseline, f.mean)
              && f.trend == Direction(f.trendScore)
  {
    if |points| < 3 {
      f.trend := Flat;
      return;
    }
    var m := Accumulate(points);
    var denom := Denominator(m);
    if denom == 0.0 {
      f.trend := Flat;
      return;
    }
    var slope := Numerator(m) / denom;
    f.slopePerMin := slope;
    var drift := slope * Minutes(points);
    var norm := Abs(f.baseline);
    if norm <= NEAR_ZERO {
      norm := Abs(f.mean);
    }
    if norm > NEAR_ZERO {
      f.trendScore := drift / norm;
    }
    f.trend := Direction(f.trendScore);
  }

  lemma MomentsGrow(xs: seq<real>, ys: seq<real>, i: nat)
    requires i < |xs| == |ys|
    ensures MomentsOf(xs[..i + 1], ys[..i + 1]) == Step(MomentsOf(xs[..i], ys[..i]), xs[i], ys[i])
  {
    assert xs[..i + 1][..i] == xs[..i] && ys[..i + 1][..i] == ys[..i];
  }

  // ---- What the trend means ----

  lemma QuotientSign(a: real, b: real)
    requires b > 0.0
    ensures a >= 0.0 ==> a / b >= 0.0
    ensures a <= 0.0 ==> a / b <= 0.0
  {
    assert a / b * b == a;
  }

  lemma ScoreSign(slope: real, minutes: real, scale: real)
    requires minutes >= 0.0 && scale > 0.0
    ensures slope >= 0.0 ==> slope * minutes / scale >= 0.0
    ensures slope <= 0.0 ==> slope * minutes / scale <= 0.0
  {
    if slope >= 0.0 {
      assert slope * minutes >= 0.0;
    }
    if slope <= 0.0 {
      assert slope * minutes <= 0.0;
    }
    QuotientSign(slope * minutes, scale);
  }

  lemma DenominatorIsSpread(points: seq<Point>)
    ensures Denominator(Fit(points)) == Pairs(Xs(points), Ys(points)).xx
    ensures ZeroIff(Pairs(Xs(points), Ys(points)), Constant(Xs(points)))
  {
    RegressionByPairs(Xs(points), Ys(points));
    DenominatorSign(Xs(points), Ys(points));
  }

  ghost predicate AtOneTime(points: seq<Point>) {
    forall i | 0 <= i < |points| :: points[i].minutes == points[0].minutes
  }

  lemma ConstantXs(points: seq<Point>)
    ensures Constant(Xs(points)) <==> AtOneTime(points)
  {
    var xs := Xs(points);
    if Constant(xs) {
      forall i | 0 <= i < |points| ensures points[i].minutes == points[0].minutes {
        assert i > 0 ==> xs[0] == xs[i];
      }
    }
  }

  /** The fit fails exactly for fewer than three points or points all at one time. */
  lemma FittableIff(points: seq<Point>)
    ensures Fittable(points) <==> |points| >= 3 && !AtOneTime(points)
  {
    DenominatorIsSpread(points);
    ConstantXs(points);
  }

  lemma DenominatorPositive(points: seq<Point>)
    requires Fittable(points)
    ensures Denominator(Fit(points)) > 0.0
  {
    DenominatorIsSpread(points);
  }

  /** A series that never falls has no negative slope and no downward trend, and a series that
      never rises no positive slope and no upward one, whatever its baseline. */
  lemma MonotoneTrend(points: seq<Point>, baseline: real, mean: real, up: bool)
    requires InTimeOrder(points) && Fittable(points)
    requires if up then Rising(Ys(points)) else Falling(Ys(points))
    ensures if up then Slope(points) >= 0.0 && Direction(Score(points, baseline, mean)) != Down
            else Slope(points) <= 0.0 && Direction(Score(points, baseline, mean)) != Up
  {
    RegressionByPairs(Xs(points), Ys(points));
    NumeratorSign(Xs(points), Ys(points), up);
    DenominatorPositive(points);
    QuotientSign(Numerator(Fit(points)), Denominator(Fit(points)));
    if Scale(baseline, mean) > NEAR_ZERO {
      ScoreSign(Slope(points), Minutes(points), Scale(baseline, mean));
    }
  }

  lemma Ratio(b: real, d: real, n: real)
    requires d != 0.0 && n == b * d
    ensures n / d == b
  {
    assert (n / d - b) * d == 0.0;
  }

  /** An exactly linear series gets its own slope back. */
  lemma LinearSlope(points: seq<Point>, a: real, b: real)
    requires Fittable(points)
    requires forall i | 0 <= i < |points| :: points[i].value == a + b * (points[i].minutes - points[0].minutes)
    ensures Slope(points) == b
  {
    RegressionByPairs(Xs(points), Ys(points));
    LinearPairs(Xs(points), Ys(points), a, b);
    Ratio(b, Denominator(Fit(points)), Numerator(Fit(points)));
  }
}
