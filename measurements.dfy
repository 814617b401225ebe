/** `validateMeasurement` and `getMeasurementTrend`: plausibility ranges for
    the three measurements, and the classification of the change between two
    successive values. */
module Measurements {
  import opened GrowthTypes

  /** The exclusive upper bound of each plausible range (kg, cm, cm). */
  function UpperBound(t: MeasurementType): real
  {
    match t
    case Weight => 50.0
    case Height => 200.0
    case Head => 80.0
  }

  /** `validateMeasurement.weight`, `.height` and `.head`. */
  predicate ValidateMeasurement(t: MeasurementType, x: real)
  {
    x > 0.0 && x < UpperBound(t)
  }

  /** The plausible values of each kind form one interval that contains
      neither 0 nor the upper bound. */
  lemma ValidRangeIsOpenInterval(t: MeasurementType, a: real, x: real, b: real)
    requires ValidateMeasurement(t, a) && ValidateMeasurement(t, b) && a <= x <= b
    ensures ValidateMeasurement(t, x)
    ensures !ValidateMeasurement(t, 0.0) && !ValidateMeasurement(t, UpperBound(t))
  {
  }

  /** The cases of the unit tests. */
  lemma ValidateMeasurementExamples()
    ensures ValidateMeasurement(Weight, 3.5) && !ValidateMeasurement(Weight, 0.0)
    ensures !ValidateMeasurement(Weight, -1.0) && !ValidateMeasurement(Weight, 100.0)
    ensures ValidateMeasurement(Height, 50.0) && !ValidateMeasurement(Height, 0.0)
    ensures !ValidateMeasurement(Height, -1.0) && !ValidateMeasurement(Height, 300.0)
    ensures ValidateMeasurement(Head, 35.0) && !ValidateMeasurement(Head, 0.0)
    ensures !ValidateMeasurement(Head, -1.0) && !ValidateMeasurement(Head, 100.0)
  {
  }

  datatype Trend = Up | Down | Stable | NoTrend

  /** `getMeasurementTrend`. A zero `previous` is not an error in JavaScript:
      the percent change is +Infinity, -Infinity or NaN by the sign of
      `current`, which the comparisons classify as up, down and stable. */
  function GetMeasurementTrend(current: real, previous: Option<real>): (t: Trend)
    ensures t == NoTrend <==> previous == None
  {
    match previous
    case None => NoTrend
    case Some(p) =>
      if p == 0.0 then
        if current > 0.0 then Up else if current < 0.0 then Down else Stable
      else
        var percentChange := (current - p) / p * 100.0;
        if percentChange > 2.0 then Up
        else if percentChange < -2.0 then Down
        else Stable
  }

  /** Scaling the percent change back by a positive `previous`. */
  lemma PercentChangeAgainstPositive(pct: real, current: real, previous: real)
    requires previous > 0.0 && pct * previous == (current - previous) * 100.0
    ensures pct > 2.0 <==> current > 1.02 * previous
    ensures pct < -2.0 <==> current < 0.98 * previous
  {
  }

  /** Scaling the percent change back by a negative `previous` flips the sense. */
  lemma PercentChangeAgainstNegative(pct: real, current: real, previous: real)
    requires previous < 0.0 && pct * previous == (current - previous) * 100.0
    ensures pct > 2.0 <==> current < 1.02 * previous
    ensures pct < -2.0 <==> current > 0.98 * previous
  {
  }

  /** Against a positive previous value the trend is up above 102% of it,
      down below 98% of it and stable in between. */
  lemma TrendAgainstPositive(current: real, previous: real)
    requires previous > 0.0
    ensures GetMeasurementTrend(current, Some(previous)) == Up <==> current > 1.02 * previous
    ensures GetMeasurementTrend(current, Some(previous)) == Down <==> current < 0.98 * previous
    ensures GetMeasurementTrend(current, Some(previous)) == Stable <==>
      0.98 * previous <= current <= 1.02 * previous
  {
    PercentChangeAgainstPositive((current - previous) / previous * 100.0, current, previous);
  }

  /** Against a negative previous value the division flips the comparisons:
      up means below 102% of it and down means above 98% of it. */
  lemma TrendAgainstNegative(current: real, previous: real)
    requires previous < 0.0
    ensures GetMeasurementTrend(current, Some(previous)) == Up <==> current < 1.02 * previous
    ensures GetMeasurementTrend(current, Some(previous)) == Down <==> current > 0.98 * previous
  {
    PercentChangeAgainstNegative((current - previous) / previous * 100.0, current, previous);
  }

  /** A zero previous value: the sign of `current` decides. */
  lemma TrendAgainstZero(current: real)
    ensures GetMeasurementTrend(current, Some(0.0)) == Up <==> current > 0.0
    ensures GetMeasurementTrend(current, Some(0.0)) == Down <==> current < 0.0
  {
  }

  /** The cases of the unit tests. */
  lemma TrendExamples()
    ensures GetMeasurementTrend(5.0, None) == NoTrend
    ensures GetMeasurementTrend(5.0, Some(4.5)) == Up
    ensures GetMeasurementTrend(4.5, Some(5.0)) == Down
    ensures GetMeasurementTrend(5.0, Some(4.99)) == Stable
    ensures GetMeasurementTrend(5.0, Some(5.01)) == Stable
  {
  }
}
