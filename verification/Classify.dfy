/** The decision tree of internal/metrics/classify.go. */
module Classify {
  import opened Reals
  import opened Signals
  import opened SpikeStatistics

  datatype Classification =
    | Stable | Noisy | Spike | StepRegression | SustainedRegression
    | Recovery | Saturation | Improvement | Flapping | InsufficientData

  datatype BetterDirection = DirectionDown | DirectionUp | DirectionNone

  datatype Thresholds = Thresholds(significantDeltaPct: real, breachRatioForRegress: real, cvForNoisy: real, spikeZScore: real)

  /** The features the tree reads. */
  datatype Features = Features(
    deltaPct: real, cv: real, trendScore: real, stepChangeDetected: bool,
    maxZScore: real, spikeRatio: real,
    breachRatio: real, breachTransitions: nat, saturationDetected: bool,
    actualPoints: nat, windowReliable: bool, baselineReliable: bool)

  datatype Meta = Meta(direction: BetterDirection, hasSlo: bool)

  const SPIKE_MAX_DELTA := 20.0
  const FLAP_RATE := 0.15
  const FLAP_MIN := 0.15
  const FLAP_MAX := 0.85
  const LOW_BREACH := 0.2
  const STEP_MAX_CV := 0.35
  const NOISE_CV := 0.4
  const STRONG_BAND := 0.05

  predicate IsDeltaBased(c: Classification) {
    c.Spike? || c.StepRegression? || c.SustainedRegression? || c.Recovery? || c.Improvement?
  }

  predicate IsDegrading(deltaPct: real, direction: BetterDirection) {
    match direction
    case DirectionDown => deltaPct > 0.0
    case DirectionUp => deltaPct < 0.0
    case DirectionNone => false
  }

  predicate SpikeGates(f: Features, thr: Thresholds) {
    f.maxZScore >= thr.spikeZScore && f.spikeRatio < MAX_RATIO && Abs(f.deltaPct) < SPIKE_MAX_DELTA
  }

  predicate IsFlapping(f: Features, meta: Meta) {
    && meta.hasSlo && f.actualPoints >= 10
    && f.breachTransitions as real / f.actualPoints as real >= FLAP_RATE
    && FLAP_MIN <= f.breachRatio <= FLAP_MAX
  }

  predicate IsRecovering(f: Features, meta: Meta) {
    && meta.hasSlo && f.breachRatio < LOW_BREACH
    && ((f.deltaPct > 0.0 && f.trendScore < -FLAT_BAND) || (f.deltaPct < 0.0 && f.trendScore > FLAT_BAND))
  }

  predicate IsImproving(f: Features, meta: Meta) {
    && !IsDegrading(f.deltaPct, meta.direction) && !meta.direction.DirectionNone?
    && ((meta.direction.DirectionDown? && f.trendScore < -STRONG_BAND)
        || (meta.direction.DirectionUp? && f.trendScore > STRONG_BAND))
    && f.breachRatio < LOW_BREACH
  }

  function Core(f: Features, meta: Meta, thr: Thresholds): Classification {
    var degrading := IsDegrading(f.deltaPct, meta.direction);
    if f.saturationDetected then Saturation
    else if SpikeGates(f, thr) then Spike
    else if IsFlapping(f, meta) then Flapping
    else if Abs(f.deltaPct) < thr.significantDeltaPct then
      if f.cv > thr.cvForNoisy then Noisy else Stable
    else if IsRecovering(f, meta) then Recovery
    else if f.stepChangeDetected && f.cv < STEP_MAX_CV && f.breachRatio > thr.breachRatioForRegress then StepRegression
    else if degrading && f.breachRatio > thr.breachRatioForRegress && Abs(f.trendScore) > STRONG_BAND then SustainedRegression
    else if IsImproving(f, meta) then Improvement
    else if f.cv > NOISE_CV then Noisy
    else if degrading then StepRegression
    else Stable
  }

  function Downgrade(c: Classification, f: Features): Classification {
    if c.Saturation? then c
    else if !f.windowReliable && (IsDeltaBased(c) || c.Flapping?) then InsufficientData
    else if !f.baselineReliable && IsDeltaBased(c) then InsufficientData
    else c
  }

  function Classify(f: Features, meta: Meta, thr: Thresholds): Classification {
    Downgrade(Core(f, meta, thr), f)
  }

  // ---- What a verdict means ----

  /** Delta-based verdicts rest on a reliable window and a reliable baseline, flapping on a
      reliable window, and saturation is reported whatever the data quality.  A verdict that lacks
      its support becomes insufficient data and nothing else. */
  lemma VerdictsAreSupported(f: Features, meta: Meta, thr: Thresholds)
    ensures IsDeltaBased(Classify(f, meta, thr)) ==> f.windowReliable && f.baselineReliable
    ensures Classify(f, meta, thr).Flapping? ==> f.windowReliable && IsFlapping(f, meta)
    ensures Classify(f, meta, thr).Saturation? <==> f.saturationDetected
    ensures Classify(f, meta, thr).InsufficientData? <==>
              var core := Core(f, meta, thr);
              (IsDeltaBased(core) && !(f.windowReliable && f.baselineReliable)) || (core.Flapping? && !f.windowReliable)
    ensures !Classify(f, meta, thr).InsufficientData? ==> Classify(f, meta, thr) == Core(f, meta, thr)
  {
  }

  /** A rise that would be a regression, on a window with gaps: neither noisy nor stable. */
  lemma GapsAreInsufficient() returns (f: Features, meta: Meta)
    ensures !f.windowReliable && Core(f, meta, UNKNOWN).SustainedRegression?
    ensures Classify(f, meta, UNKNOWN).InsufficientData?
  {
    f := Features(50.0, 0.2, 0.3, false, 1.0, 0.0, 0.95, 0, false, 20, false, true);
    meta := Meta(DirectionDown, true);
  }

  function Flipped(meta: Meta): Meta {
    meta.(direction := match meta.direction
                       case DirectionDown => DirectionUp
                       case DirectionUp => DirectionDown
                       case DirectionNone => DirectionNone)
  }

  function Mirrored(f: Features): Features {
    f.(deltaPct := -f.deltaPct, trendScore := -f.trendScore)
  }

  /** Up and down are treated alike: turning the better direction, the delta and the trend around
      turns no verdict. */
  lemma VerdictsAreSymmetric(f: Features, meta: Meta, thr: Thresholds)
    ensures Classify(Mirrored(f), Flipped(meta), thr) == Classify(f, meta, thr)
  {
    assert IsDegrading(-f.deltaPct, Flipped(meta).direction) == IsDegrading(f.deltaPct, meta.direction);
  }

  /** The direction each verdict claims is the one measured: an improvement is no degradation and
      its trend is favourable, a sustained regression degrades and breaches, and a recovery moves
      against its delta. */
  lemma VerdictsMatchDirection(f: Features, meta: Meta, thr: Thresholds)
    requires thr.significantDeltaPct > 0.0
    ensures Classify(f, meta, thr).Improvement? ==>
              && !IsDegrading(f.deltaPct, meta.direction) && f.deltaPct != 0.0
              && (meta.direction.DirectionDown? ==> f.deltaPct < 0.0 && f.trendScore < 0.0)
              && (meta.direction.DirectionUp? ==> f.deltaPct > 0.0 && f.trendScore > 0.0)
    ensures Classify(f, meta, thr).SustainedRegression? ==>
              IsDegrading(f.deltaPct, meta.direction) && f.breachRatio > thr.breachRatioForRegress
    ensures Classify(f, meta, thr).Recovery? ==> f.deltaPct * f.trendScore < 0.0
    ensures Classify(f, meta, thr).StepRegression? ==>
              IsDegrading(f.deltaPct, meta.direction) || (f.stepChangeDetected && f.breachRatio > thr.breachRatioForRegress)
  {
    if IsRecovering(f, meta) {
      OppositeSigns(f.deltaPct, f.trendScore);
    }
  }

  lemma OppositeSigns(a: real, b: real)
    ensures (a > 0.0 && b < 0.0) || (a < 0.0 && b > 0.0) ==> a * b < 0.0
  {
  }

  // ---- When each verdict is given ----

  /** Which way is worse: 1 when lower is better, -1 when higher is, 0 when neither. */
  function Worse(direction: BetterDirection): real {
    match direction
    case DirectionDown => 1.0
    case DirectionUp => -1.0
    case DirectionNone => 0.0
  }

  /** A short burst that has not moved the mean. */
  predicate Bursts(f: Features, thr: Thresholds) {
    f.maxZScore >= thr.spikeZScore && 20.0 * f.spikeRatio < 3.0 && -20.0 < f.deltaPct < 20.0
  }

  /** The SLO threshold is crossed at no fewer than 15 of 100 points, with 15 to 85 of 100 beyond it. */
  predicate Oscillates(f: Features, meta: Meta) {
    && meta.hasSlo && f.actualPoints >= 10
    && 100 * f.breachTransitions >= 15 * f.actualPoints
    && 0.15 <= f.breachRatio <= 0.85
  }

  /** None of the rules that come before the delta applies. */
  predicate Calm(f: Features, meta: Meta, thr: Thresholds) {
    !f.saturationDetected && !Bursts(f, thr) && !Oscillates(f, meta)
  }

  predicate Significant(f: Features, thr: Thresholds) {
    f.deltaPct >= thr.significantDeltaPct || -f.deltaPct >= thr.significantDeltaPct
  }

  /** The delta is significant and the trend takes it back, with the SLO mostly met. */
  predicate ComesBack(f: Features, meta: Meta) {
    && meta.hasSlo && f.breachRatio < 0.2
    && f.deltaPct * f.trendScore < 0.0 && !(-0.02 <= f.trendScore <= 0.02)
  }

  predicate CleanBreachingStep(f: Features, thr: Thresholds) {
    f.stepChangeDetected && f.cv < 0.35 && f.breachRatio > thr.breachRatioForRegress
  }

  predicate DriftsFromWorse(f: Features, meta: Meta, thr: Thresholds) {
    && Worse(meta.direction) * f.deltaPct > 0.0 && f.breachRatio > thr.breachRatioForRegress
    && !(-0.05 <= f.trendScore <= 0.05)
  }

  predicate GetsBetter(f: Features, meta: Meta) {
    && Worse(meta.direction) * f.deltaPct <= 0.0 && Worse(meta.direction) * f.trendScore < -0.05
    && f.breachRatio < 0.2
  }

  /** A significant change that no pattern explains. */
  predicate Unpatterned(f: Features, meta: Meta, thr: Thresholds) {
    && Calm(f, meta, thr) && Significant(f, thr)
    && !ComesBack(f, meta) && !CleanBreachingStep(f, thr) && !DriftsFromWorse(f, meta, thr) && !GetsBetter(f, meta)
  }

  lemma RateAsShare(transitions: nat, points: nat)
    requires points > 0
    ensures transitions as real / points as real >= 0.15 <==> 100 * transitions >= 15 * points
  {
    var q := transitions as real / points as real;
    assert q * points as real == transitions as real;
    if q >= 0.15 {
      NonNegativeValue(q - 0.15, points as real, transitions as real - 0.15 * points as real);
    } else {
      PositiveValue(0.15 - q, points as real, 0.15 * points as real - transitions as real);
    }
  }

  lemma OscillatesIsFlapping(f: Features, meta: Meta)
    ensures Oscillates(f, meta) <==> IsFlapping(f, meta)
  {
    if f.actualPoints >= 10 {
      RateAsShare(f.breachTransitions, f.actualPoints);
    }
  }

  lemma SignOfProduct(a: real, b: real)
    ensures a * b < 0.0 <==> (a > 0.0 && b < 0.0) || (a < 0.0 && b > 0.0)
  {
    OppositeSigns(a, b);
    if a >= 0.0 && b >= 0.0 {
      NonNegativeValue(a, b, a * b);
    } else if a <= 0.0 && b <= 0.0 {
      NonNegativeValue(-a, -b, a * b);
    }
  }

  /** On reliable data: exactly when each verdict is given, in the measurements and the directions
      themselves. */
  lemma VerdictExactly(f: Features, meta: Meta, thr: Thresholds)
    requires f.windowReliable && f.baselineReliable
    ensures var c := Classify(f, meta, thr);
            var changed := Calm(f, meta, thr) && Significant(f, thr);
            var small := Calm(f, meta, thr) && !Significant(f, thr);
            var odd := Unpatterned(f, meta, thr);
            var worse := Worse(meta.direction) * f.deltaPct > 0.0;
            && (c.Saturation? <==> f.saturationDetected)
            && (c.Spike? <==> !f.saturationDetected && Bursts(f, thr))
            && (c.Flapping? <==> !f.saturationDetected && !Bursts(f, thr) && Oscillates(f, meta))
            && (c.Recovery? <==> changed && ComesBack(f, meta))
            && (c.SustainedRegression? <==>
                  changed && !ComesBack(f, meta) && !CleanBreachingStep(f, thr) && DriftsFromWorse(f, meta, thr))
            && (c.Improvement? <==>
                  changed && !ComesBack(f, meta) && !CleanBreachingStep(f, thr) && GetsBetter(f, meta))
            && (c.StepRegression? <==>
                  || (changed && !ComesBack(f, meta) && CleanBreachingStep(f, thr))
                  || (odd && worse && f.cv <= 0.4))
            && (c.Noisy? <==> (small && f.cv > thr.cvForNoisy) || (odd && f.cv > 0.4))
            && (c.Stable? <==> (small && f.cv <= thr.cvForNoisy) || (odd && !worse && f.cv <= 0.4))
            && !c.InsufficientData?
  {
    OscillatesIsFlapping(f, meta);
    SignOfProduct(f.deltaPct, f.trendScore);
  }

  /** On other data: the same verdict when it does not need what is missing, and otherwise an
      admission that the data does not suffice. */
  lemma UnreliableData(f: Features, meta: Meta, thr: Thresholds)
    ensures var c := Classify(f.(windowReliable := true, baselineReliable := true), meta, thr);
            Classify(f, meta, thr) ==
            if c in {Spike, StepRegression, SustainedRegression, Recovery, Improvement} then
              if f.windowReliable && f.baselineReliable then c else InsufficientData
            else if c == Flapping && !f.windowReliable then InsufficientData
            else c
  {
  }

  /** Noise alone never calms a window: what is noisy stays so when the variation grows, and growing
      variation changes a verdict only to noisy or from a clean step to what lies behind it. */
  lemma MoreNoise(f: Features, meta: Meta, thr: Thresholds, cv: real)
    requires f.cv <= cv
    ensures var c, c' := Classify(f, meta, thr), Classify(f.(cv := cv), meta, thr);
            && (c.Noisy? ==> c'.Noisy?)
            && (c' == c || c'.Noisy? || c.StepRegression? || c.InsufficientData?)
            && (c.Stable? && !c'.Stable? ==> c'.Noisy?)
  {
  }

  /** Without a direction there is no sustained regression and no improvement, and without an SLO
      either, no recovery and no flapping. */
  lemma NoDirectionNoRegression(f: Features, meta: Meta, thr: Thresholds)
    requires meta.direction.DirectionNone?
    ensures !Classify(f, meta, thr).SustainedRegression? && !Classify(f, meta, thr).Improvement?
    ensures !meta.hasSlo ==> !Classify(f, meta, thr).Recovery? && !Classify(f, meta, thr).Flapping?
  {
  }

  /** The change is significant and none of the first five rules explains it. */
  predicate Unexplained(f: Features, meta: Meta, thr: Thresholds) {
    && !f.saturationDetected && !SpikeGates(f, thr) && !IsFlapping(f, meta)
    && Abs(f.deltaPct) >= thr.significantDeltaPct && !IsRecovering(f, meta)
  }

  predicate QuietBreachingStep(f: Features, thr: Thresholds) {
    f.stepChangeDetected && f.cv < STEP_MAX_CV && f.breachRatio > thr.breachRatioForRegress
  }

  /** A change that is not for the worse, so any change without a direction, is a step regression
      all the same exactly when it is an otherwise unexplained quiet step that breaches the SLO, on
      reliable data: that rule alone does not look at the direction. */
  lemma StepWithoutDegradingIff(f: Features, meta: Meta, thr: Thresholds)
    requires !IsDegrading(f.deltaPct, meta.direction)
    ensures Classify(f, meta, thr).StepRegression? <==>
              Unexplained(f, meta, thr) && QuietBreachingStep(f, thr) && f.windowReliable && f.baselineReliable
  {
  }

  /** The default thresholds for a metric of unknown kind. */
  const UNKNOWN := Thresholds(10.0, 0.3, 0.3, 3.0)

  /** Such a change, without any direction. */
  lemma StepRegressionWithoutDirection() returns (f: Features, meta: Meta)
    ensures meta.direction.DirectionNone? && Classify(f, meta, UNKNOWN).StepRegression?
  {
    f := Features(50.0, 0.2, 0.0, true, 1.0, 0.0, 0.95, 0, false, 20, true, true);
    meta := Meta(DirectionNone, true);
  }

  /** Features whose spike fields come from computeSpikes on values with the given deviation. */
  ghost predicate SpikesFrom(f: Features, values: seq<real>, stddev: real, thr: Thresholds) {
    && |values| >= MIN_POINTS && IsStddev(stddev, values) && stddev > 0.0 && thr.spikeZScore > 0.0
    && f.spikeRatio == SpikesByZ(values, Mean(values), stddev, thr.spikeZScore) as real / |values| as real
  }

  /** At a threshold whose square exceeds 20/3, such as the default 3, the ratio gate of the spike
      branch never decides: an unsaturated window is a spike exactly when its largest z-score and
      its delta say so. */
  lemma RatioGateNeverDecides(f: Features, meta: Meta, thr: Thresholds, values: seq<real>, stddev: real)
    requires SpikesFrom(f, values, stddev, thr)
    requires 3.0 * (thr.spikeZScore * thr.spikeZScore) > 20.0
    ensures Core(f, meta, thr).Spike? <==>
              !f.saturationDetected && f.maxZScore >= thr.spikeZScore && Abs(f.deltaPct) < SPIKE_MAX_DELTA
  {
    SpikeRatioBounded(values, stddev, thr.spikeZScore);
  }

  const ERROR_RATE := Thresholds(5.0, 0.2, 0.5, 2.5)

  /** At the default threshold for error rates it does decide: here is a window, two points at
      twice the usual rate and two at none among twenty-one at it, with its largest z-score at the
      threshold and no delta, that is not called a spike. */
  lemma RatioGateDecidesAtErrorRate(meta: Meta) returns (f: Features, values: seq<real>)
    ensures SpikesFrom(f, values, 0.4, ERROR_RATE) && IsMaxZ(values, Mean(values), 0.4, f.maxZScore)
    ensures !f.saturationDetected && f.maxZScore >= ERROR_RATE.spikeZScore && Abs(f.deltaPct) < SPIKE_MAX_DELTA
    ensures !Core(f, meta, ERROR_RATE).Spike?
  {
    values := FourOfTwentyFive();
    f := Features(0.0, 0.4, 0.0, false, 2.5, 4.0 / 25.0, 0.0, 0, false, 25, true, true);
  }
}
