/**
  The firmware's numeric post-processing: the single-pole exponential filter
  `smooth` and the linear field-to-force map `calculate_force`. Both are
  modelled over exact reals.
 */
module SignalChain {
  import opened Reals

  /** `FILTER_VAL`: the weight kept from the previous smoothed value. */
  const FilterVal: real := 0.4

  /** `smooth`: blend a new sample into the smoothed value. */
  function Smooth(data: real, filterVal: real, smoothedVal: real): real
  {
    data * (1.0 - filterVal) + smoothedVal * filterVal
  }

  /** Smoothing a value into itself leaves it unchanged. */
  lemma SmoothFixedPoint(x: real, a: real)
    ensures Smooth(x, a, x) == x
  {
  }

  /** A filter value of zero disables smoothing. */
  lemma SmoothWithoutFilter(data: real, s: real)
    ensures Smooth(data, 0.0, s) == data
  {
  }

  /** The step moves the smoothed value towards the sample by a fraction 1 - a of the gap. */
  lemma SmoothStep(data: real, a: real, s: real)
    ensures Smooth(data, a, s) - data == a * (s - data)
  {
  }

  /** For a filter value in [0, 1] the result lies between the sample and the previous value. */
  lemma SmoothBetween(data: real, a: real, s: real)
    requires 0.0 <= a <= 1.0
    ensures data <= s ==> data <= Smooth(data, a, s) <= s
    ensures s <= data ==> s <= Smooth(data, a, s) <= data
  {
    if data <= s {
      SmoothBelowPrevious(data, a, s);
    } else {
      SmoothAbovePrevious(data, a, s);
    }
  }

  lemma SmoothBelowPrevious(data: real, a: real, s: real)
    requires 0.0 <= a <= 1.0 && data <= s
    ensures data <= Smooth(data, a, s) <= s
  {
    SmoothStep(data, a, s);
    FractionOfGap(a, s - data);
    assert Smooth(data, a, s) == data + a * (s - data);
  }

  lemma SmoothAbovePrevious(data: real, a: real, s: real)
    requires 0.0 <= a <= 1.0 && s < data
    ensures s <= Smooth(data, a, s) <= data
  {
    SmoothStepFromPrevious(data, a, s);
    FractionOfGap(1.0 - a, data - s);
    assert Smooth(data, a, s) == s + (1.0 - a) * (data - s);
  }

  /** Measured from the previous value, the step covers a fraction 1 - a of the gap. */
  lemma SmoothStepFromPrevious(data: real, a: real, s: real)
    ensures Smooth(data, a, s) - s == (1.0 - a) * (data - s)
  {
  }

  /** A fraction in [0, 1] of a non-negative gap lies between zero and the gap. */
  lemma FractionOfGap(a: real, g: real)
    requires 0.0 <= a <= 1.0 && g >= 0.0
    ensures 0.0 <= a * g <= g
  {
    ProductNonNegative(a, g);
    ProductNonNegative(1.0 - a, g);
    assert g - a * g == (1.0 - a) * g;
  }

  /** The smoothed value after feeding the same sample `n` times. */
  function SmoothRepeatedly(data: real, a: real, s: real, n: nat): real
  {
    if n == 0 then s else Smooth(data, a, SmoothRepeatedly(data, a, s, n - 1))
  }

  /**
    Feeding a constant sample shrinks the distance to it geometrically: after
    `n` steps the gap is `a^n` times the initial gap, so for `a` in [0, 1) the
    smoothed value converges to the sample.
   */
  lemma {:induction false} SmoothConverges(data: real, a: real, s: real, n: nat)
    ensures SmoothRepeatedly(data, a, s, n) - data == Pow(a, n) * (s - data)
  {
    if n > 0 {
      SmoothConverges(data, a, s, n - 1);
      var prev := SmoothRepeatedly(data, a, s, n - 1);
      SmoothStep(data, a, prev);
      assert a * (prev - data) == a * (Pow(a, n - 1) * (s - data));
    }
  }

  /** `CALIBRATION_SLOPE` and `CALIBRATION_INTERCEPT`, newtons per mT and newtons. */
  const CalibrationSlope: real := 51.94029384743018
  const CalibrationIntercept: real := -692.9925307532482

  /** `calculate_force`: slope times field plus intercept, clamped at zero. */
  function CalculateForce(zMilliTesla: real): (force: real)
    ensures force >= 0.0
    ensures CalibrationSlope * zMilliTesla + CalibrationIntercept >= 0.0 ==>
      force == CalibrationSlope * zMilliTesla + CalibrationIntercept
    ensures CalibrationSlope * zMilliTesla + CalibrationIntercept < 0.0 ==> force == 0.0
  {
    ClampNonNegative(CalibrationSlope * zMilliTesla + CalibrationIntercept)
  }

  /** A stronger field never gives a smaller force. */
  lemma CalculateForceMonotone(z1: real, z2: real)
    requires z1 <= z2
    ensures CalculateForce(z1) <= CalculateForce(z2)
  {
    assert CalibrationSlope * z1 <= CalibrationSlope * z2;
  }

  /** The force is zero up to about 13.342 mT and positive above it. */
  lemma CalculateForceThreshold(z: real)
    ensures z <= 13.342 ==> CalculateForce(z) == 0.0
    ensures z >= 13.343 ==> CalculateForce(z) > 0.0
  {
  }
}
