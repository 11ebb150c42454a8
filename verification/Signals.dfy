/** The record of features that the passes of internal/metrics/processor.go fill in. */
module Signals {

  datatype Trend = Flat | Up | Down

  const NEAR_ZERO := 0.000001

  /** TrendFlatBand of internal/metrics/types.go: the drift below which a trend is flat. */
  const FLAT_BAND := 0.02

  class SignalFeatures {
    var mean: real
    var stddev: real
    var cv: real
    var min: real
    var max: real
    var p50: real
    var p95: real
    var p99: real
    var tailRatio: real
    var baseline: real
    var trend: Trend
    var slopePerMin: real
    var trendScore: real
    var maxZScore: real
    var spikeCount: nat
    var spikeRatio: real

    /** The zero value of the record. */
    constructor ()
      ensures mean == 0.0 && stddev == 0.0 && cv == 0.0 && min == 0.0 && max == 0.0
      ensures p50 == 0.0 && p95 == 0.0 && p99 == 0.0 && tailRatio == 0.0 && baseline == 0.0
      ensures slopePerMin == 0.0 && trendScore == 0.0
      ensures maxZScore == 0.0 && spikeCount == 0 && spikeRatio == 0.0
    {
      mean, stddev, cv, min, max := 0.0, 0.0, 0.0, 0.0, 0.0;
      p50, p95, p99, tailRatio, baseline := 0.0, 0.0, 0.0, 0.0, 0.0;
      trend, slopePerMin, trendScore := Flat, 0.0, 0.0;
      maxZScore, spikeCount, spikeRatio := 0.0, 0, 0.0;
    }
  }
}
