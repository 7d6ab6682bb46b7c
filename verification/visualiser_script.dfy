/**
  The host visualiser: its own copy of the line extractor (value only), the
  force computed from a reading and the saved calibration, and the rule that
  rescales the force axis.
 */
module VisualiserScript {
  import opened Options
  import opened Reals
  import opened DecimalText
  import opened SerialPattern
  import opened CalibrationScript
  import SignalChain

  /** `extract_sensor_value` in the visualiser: the same pattern, returning the value alone. */
  function ExtractValue(line: string, kw: Keyword): (r: Option<real>)
    ensures !OccursFrom(line, kw, 0) ==> r.None?
    ensures r.Some? <==> Search(line, kw).Some?
    ensures r.Some? ==> var m := Search(line, kw).value; r.value == DecimalValue(line[m.numStart..m.numEnd])
  {
    if !OccursFrom(line, kw, 0) then None
    else
      match Search(line, kw)
      case None => None
      case Some(m) => Some(DecimalValue(line[m.numStart..m.numEnd]))
  }

  /** Both scripts read the same value from every line. */
  lemma ExtractorsAgree(line: string, kw: Keyword)
    ensures ExtractValue(line, kw) == ExtractSensorValue(line, kw).value
  {
  }

  /** `calculate_force`: `None` unless both the reading and the calibration are there; clamped at zero. */
  function CalculateForce(z: Option<real>, calib: Option<Calibration>): (f: Option<real>)
    ensures f.Some? <==> z.Some? && calib.Some?
    ensures f.Some? ==> f.value >= 0.0
    ensures f.Some? ==> var linear := calib.value.slope * z.value + calib.value.intercept;
      (linear >= 0.0 ==> f.value == linear) && (linear < 0.0 ==> f.value == 0.0)
  {
    if z.None? || calib.None? then None
    else Some(ClampNonNegative(calib.value.slope * z.value + calib.value.intercept))
  }

  /** With the constants the firmware was built with, host and firmware compute the same force. */
  lemma ForceAgreesWithFirmware(z: real, rSquared: real, name: string)
    ensures CalculateForce(Some(z), Some(Calibration(SignalChain.CalibrationSlope, SignalChain.CalibrationIntercept, rSquared, name)))
         == Some(SignalChain.CalculateForce(z))
  {
  }

  /** The displayed Z reading, the displayed force, and the right end of the force axis. */
  datatype Plot = Plot(zValue: real, forceValue: real, maxForce: real)

  const InitialPlot: Plot := Plot(0.0, 0.0, 1.0)

  /** The plot state after one `update_plot` call that read `z`. */
  function UpdatePlot(p: Plot, z: Option<real>, calib: Option<Calibration>): (q: Plot)
    ensures q.maxForce >= p.maxForce
    ensures z.None? ==> q == p
    ensures z.Some? ==> q.zValue == z.value
    ensures q.maxForce != p.maxForce <==> CalculateForce(z, calib).Some? && CalculateForce(z, calib).value > p.maxForce
    ensures q.maxForce != p.maxForce ==> q.maxForce == 1.1 * CalculateForce(z, calib).value
    ensures CalculateForce(z, calib).Some? ==> q.forceValue == CalculateForce(z, calib).value
    ensures CalculateForce(z, calib).None? ==> q.forceValue == p.forceValue
  {
    if z.None? then p
    else
      var force := CalculateForce(z, calib);
      if force.None? then p.(zValue := z.value)
      else if force.value > p.maxForce then Plot(z.value, force.value, force.value * 1.1)
      else p.(zValue := z.value, forceValue := force.value)
  }

  /** The displayed force is on the axis, and the axis is never shorter than its initial 1 N. */
  predicate ForceOnAxis(p: Plot)
  {
    0.0 <= p.forceValue <= p.maxForce && p.maxForce >= 1.0
  }

  lemma UpdateKeepsForceOnAxis(p: Plot, z: Option<real>, calib: Option<Calibration>)
    requires ForceOnAxis(p)
    ensures ForceOnAxis(UpdatePlot(p, z, calib))
  {
  }

  /** The plot after one update per reading, in order. */
  function Animate(p: Plot, zs: seq<Option<real>>, calib: Option<Calibration>): Plot
    decreases |zs|
  {
    if |zs| == 0 then p else Animate(UpdatePlot(p, zs[0], calib), zs[1..], calib)
  }

  /** Over any run the force axis only grows and the force stays on it. */
  lemma {:induction false} AnimateKeepsForceOnAxis(p: Plot, zs: seq<Option<real>>, calib: Option<Calibration>)
    requires ForceOnAxis(p)
    ensures ForceOnAxis(Animate(p, zs, calib))
    ensures Animate(p, zs, calib).maxForce >= p.maxForce
    decreases |zs|
  {
    if |zs| > 0 {
      UpdateKeepsForceOnAxis(p, zs[0], calib);
      AnimateKeepsForceOnAxis(UpdatePlot(p, zs[0], calib), zs[1..], calib);
    }
  }

  lemma InitialPlotOnAxis()
    ensures ForceOnAxis(InitialPlot)
  {
  }
}
