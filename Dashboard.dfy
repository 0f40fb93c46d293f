/**
 * The data half of the dashboard's periodic refresh callback: validate the
 * weight and wing area, advance the telemetry buffer by one synthetic sample,
 * select the slider's time window and derive air density, lift coefficient
 * and drag coefficient for every sample in the window. Chart construction and
 * the statistics table are not part of this model.
 */
module Dashboard {
  import opened Rolling
  import opened Params
  import opened Telemetry
  import Aero

  /** What one refresh hands to the charts. */
  datatype Frame = Frame(params: Effective, window: Window, rho: seq<real>, cl: seq<real>, cd: seq<real>)

  /**
   * One refresh. `s`, `a` and `t` are this tick's random draws. Afterwards the
   * buffer holds the advanced series; the frame's window is the selection of
   * the advanced series; rho, cl and cd have one entry per window sample and
   * are computed with the validated weight and area. `FrameCoefficientsPositive`
   * states what the charts can rely on about them.
   */
  method UpdateGraphs(buffer: TelemetryBuffer, weight: Option<real>, area: Option<real>,
                      start: int, stop: int, s: real, a: real, t: real)
      returns (f: Frame)
    requires buffer.Valid()
    requires SpeedLow <= s <= SpeedHigh
    requires AltitudeLow <= a <= AltitudeHigh
    requires ThrustLow <= t <= ThrustHigh
    modifies buffer
    ensures buffer.Valid()
    ensures buffer.Snapshot() == Advanced(old(buffer.Snapshot()), s, a, t)
    ensures f.params == EffectiveParams(weight, area)
    ensures f.window == buffer.Select(start, stop)
    ensures f.rho == Aero.RhoSeries(f.window.altitude)
    ensures Aero.Defined(f.params.area, f.rho, f.window.speed)
    ensures f.cl == Aero.LiftSeries(f.params.weight, f.params.area, f.rho, f.window.speed)
    ensures f.cd == Aero.DragSeries(f.params.area, f.window.thrust, f.rho, f.window.speed)
    ensures |f.rho| == |f.cl| == |f.cd| == |f.window.times|
  {
    var p := EffectiveParams(weight, area);
    buffer.Advance(s, a, t);
    var w := buffer.Select(start, stop);
    CruiseWindow(p.area, w);
    var rho := Aero.RhoSeries(w.altitude);
    var cl := Aero.LiftSeries(p.weight, p.area, rho, w.speed);
    var cd := Aero.DragSeries(p.area, w.thrust, rho, w.speed);
    f := Frame(p, w, rho, cl, cd);
  }

  /**
   * The sample ranges of the buffer are a cruise regime: every altitude is
   * below the altitude where the density model vanishes and every speed and
   * thrust is positive, so no coefficient divides by zero.
   */
  lemma CruiseWindow(area: real, w: Window)
    requires area > 0.0 && WellFormed(w)
    ensures Aero.Cruise(w.altitude, w.speed, w.thrust)
    ensures Aero.Computable(area, w.altitude, w.speed)
  {
    Aero.CruiseDensity(area, w.altitude, w.speed, w.thrust);
  }

  /**
   * On any window the buffer can produce, with the validated weight and area,
   * rho, cl and cd have one entry per sample, every density lies in (0, rho0]
   * and every C_L and C_D is positive.
   */
  lemma FrameCoefficientsPositive(weight: Option<real>, area: Option<real>, w: Window)
    requires WellFormed(w)
    ensures var p := EffectiveParams(weight, area);
            Aero.Defined(p.area, Aero.RhoSeries(w.altitude), w.speed)
    ensures var p := EffectiveParams(weight, area);
            var rho := Aero.RhoSeries(w.altitude);
            var cl := Aero.LiftSeries(p.weight, p.area, rho, w.speed);
            var cd := Aero.DragSeries(p.area, w.thrust, rho, w.speed);
            |rho| == |cl| == |cd| == |w.times|
            && (forall i :: 0 <= i < |rho| ==> 0.0 < rho[i] <= Aero.Rho0)
            && (forall i :: 0 <= i < |cl| ==> cl[i] > 0.0)
            && (forall i :: 0 <= i < |cd| ==> cd[i] > 0.0)
  {
    var p := EffectiveParams(weight, area);
    CruiseWindow(p.area, w);
    Aero.CoefficientsPositive(p.weight, p.area, w.altitude, w.speed, w.thrust);
  }
}
