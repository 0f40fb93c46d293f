/**
 * The aerodynamic coefficients of the cruise dashboard. Air density falls
 * linearly with altitude, rho = rho0 * (1 - alt / 44330); in level cruise lift
 * balances weight and drag balances thrust, so
 *   C_L = 2 W / (rho v^2 S)   and   C_D = 2 T / (rho v^2 S).
 * Arithmetic is over `real`; the source's floating point is not modelled.
 */
module Aero {
  import opened Arith

  /** Air density at sea level, in kg/m^3. */
  const Rho0: real := 1.225
  /** The altitude, in metres, at which the linear density model reaches zero. */
  const ZeroDensityAltitude: real := 44330.0

  /** Air density at altitude `alt`: positive below 44330 m, zero at it, negative above it. */
  function Rho(alt: real): (rho: real)
    ensures rho > 0.0 <==> alt < ZeroDensityAltitude
    ensures rho == 0.0 <==> alt == ZeroDensityAltitude
    ensures alt >= 0.0 ==> rho <= Rho0
  {
    Rho0 * (1.0 - alt / ZeroDensityAltitude)
  }

  /** The density model gives sea-level density at altitude zero and thins out as altitude grows. */
  lemma RhoDecreasing(alt1: real, alt2: real)
    requires alt1 < alt2
    ensures Rho(0.0) == Rho0
    ensures Rho(alt2) < Rho(alt1)
  {
  }

  /** C_L = 2 W / (rho v^2 S). */
  function LiftCoefficient(weight: real, area: real, rho: real, v: real): real
    requires rho != 0.0 && v != 0.0 && area != 0.0
  {
    2.0 * weight / (rho * (v * v) * area)
  }

  /** C_D = 2 T / (rho v^2 S). */
  function DragCoefficient(thrust: real, area: real, rho: real, v: real): real
    requires rho != 0.0 && v != 0.0 && area != 0.0
  {
    2.0 * thrust / (rho * (v * v) * area)
  }

  /**
   * C_L is the coefficient at which lift, rho v^2 S C_L / 2, equals the
   * weight, and C_D the one at which drag, rho v^2 S C_D / 2, equals the
   * thrust; both are positive when every factor is.
   */
  lemma CoefficientsBalanceForces(weight: real, thrust: real, area: real, rho: real, v: real)
    requires rho != 0.0 && v != 0.0 && area != 0.0
    ensures rho * (v * v) * area * LiftCoefficient(weight, area, rho, v) / 2.0 == weight
    ensures rho * (v * v) * area * DragCoefficient(thrust, area, rho, v) / 2.0 == thrust
    ensures weight > 0.0 && area > 0.0 && rho > 0.0 ==> LiftCoefficient(weight, area, rho, v) > 0.0
    ensures thrust > 0.0 && area > 0.0 && rho > 0.0 ==> DragCoefficient(thrust, area, rho, v) > 0.0
  {
  }

  /** Every pair the zip of `rhos` and `speeds` visits has a non-zero denominator rho v^2 S. */
  predicate Defined(area: real, rhos: seq<real>, speeds: seq<real>)
  {
    area != 0.0 && forall i :: 0 <= i < |rhos| && i < |speeds| ==> rhos[i] != 0.0 && speeds[i] != 0.0
  }

  /** `[rho0 * (1 - alt / 44330) for alt in altitudes]`. */
  function RhoSeries(altitudes: seq<real>): (rhos: seq<real>)
    ensures |rhos| == |altitudes|
    ensures forall i :: 0 <= i < |rhos| ==> rhos[i] == Rho(altitudes[i])
  {
    if altitudes == [] then [] else [Rho(altitudes[0])] + RhoSeries(altitudes[1..])
  }

  /** `[2 * W / (r * v ** 2 * S) for r, v in zip(rhos, speeds)]`; `zip` stops at the shorter list. */
  function LiftSeries(weight: real, area: real, rhos: seq<real>, speeds: seq<real>): (cl: seq<real>)
    requires Defined(area, rhos, speeds)
    ensures |cl| == Min(|rhos|, |speeds|)
  {
    if rhos == [] || speeds == [] then []
    else
      [LiftCoefficient(weight, area, rhos[0], speeds[0])] + LiftSeries(weight, area, rhos[1..], speeds[1..])
  }

  /** `[2 * t / (r * v ** 2 * S) for t, r, v in zip(thrusts, rhos, speeds)]`. */
  function DragSeries(area: real, thrusts: seq<real>, rhos: seq<real>, speeds: seq<real>): (cd: seq<real>)
    requires Defined(area, rhos, speeds)
    ensures |cd| == Min(|thrusts|, Min(|rhos|, |speeds|))
  {
    if thrusts == [] || rhos == [] || speeds == [] then []
    else
      [DragCoefficient(thrusts[0], area, rhos[0], speeds[0])] + DragSeries(area, thrusts[1..], rhos[1..], speeds[1..])
  }

  /** Entry i of the lift series is the lift coefficient of the i-th density and speed. */
  lemma {:induction false} LiftSeriesAt(weight: real, area: real, rhos: seq<real>, speeds: seq<real>, i: int)
    requires Defined(area, rhos, speeds)
    requires 0 <= i < |rhos| && i < |speeds|
    ensures LiftSeries(weight, area, rhos, speeds)[i] == LiftCoefficient(weight, area, rhos[i], speeds[i])
  {
    if i > 0 {
      LiftSeriesAt(weight, area, rhos[1..], speeds[1..], i - 1);
    }
  }

  /** Entry i of the drag series is the drag coefficient of the i-th thrust, density and speed. */
  lemma {:induction false} DragSeriesAt(area: real, thrusts: seq<real>, rhos: seq<real>, speeds: seq<real>, i: int)
    requires Defined(area, rhos, speeds)
    requires 0 <= i < |thrusts| && i < |rhos| && i < |speeds|
    ensures DragSeries(area, thrusts, rhos, speeds)[i] == DragCoefficient(thrusts[i], area, rhos[i], speeds[i])
  {
    if i > 0 {
      DragSeriesAt(area, thrusts[1..], rhos[1..], speeds[1..], i - 1);
    }
  }

  /** The altitudes and speeds of a window keep every denominator non-zero. */
  predicate Computable(area: real, altitudes: seq<real>, speeds: seq<real>)
  {
    area != 0.0
    && forall i :: 0 <= i < |altitudes| && i < |speeds| ==> altitudes[i] != ZeroDensityAltitude && speeds[i] != 0.0
  }

  lemma ComputableDefined(area: real, altitudes: seq<real>, speeds: seq<real>)
    requires Computable(area, altitudes, speeds)
    ensures Defined(area, RhoSeries(altitudes), speeds)
  {
  }

  /** At one sample, C_L * T == C_D * W. */
  lemma CoefficientRatio(weight: real, thrust: real, area: real, rho: real, v: real)
    requires rho != 0.0 && v != 0.0 && area != 0.0
    ensures LiftCoefficient(weight, area, rho, v) * thrust == DragCoefficient(thrust, area, rho, v) * weight
  {
  }

  /** The ratio C_L * T == C_D * W at one index of the zipped series. */
  lemma SeriesRatioAt(weight: real, area: real, thrusts: seq<real>, rhos: seq<real>, speeds: seq<real>, i: int)
    requires Defined(area, rhos, speeds)
    requires 0 <= i < |DragSeries(area, thrusts, rhos, speeds)|
    ensures LiftSeries(weight, area, rhos, speeds)[i] * thrusts[i] == DragSeries(area, thrusts, rhos, speeds)[i] * weight
  {
    LiftSeriesAt(weight, area, rhos, speeds, i);
    DragSeriesAt(area, thrusts, rhos, speeds, i);
    CoefficientRatio(weight, thrusts[i], area, rhos[i], speeds[i]);
  }

  /** The ratio C_L * T == C_D * W holds index by index along the zipped series. */
  lemma SeriesRatio(weight: real, area: real, thrusts: seq<real>, rhos: seq<real>, speeds: seq<real>)
    requires Defined(area, rhos, speeds)
    ensures var cl, cd := LiftSeries(weight, area, rhos, speeds), DragSeries(area, thrusts, rhos, speeds);
            forall i :: 0 <= i < |cd| ==> cl[i] * thrusts[i] == cd[i] * weight
  {
    forall i | 0 <= i < |DragSeries(area, thrusts, rhos, speeds)|
      ensures LiftSeries(weight, area, rhos, speeds)[i] * thrusts[i] == DragSeries(area, thrusts, rhos, speeds)[i] * weight
    {
      SeriesRatioAt(weight, area, thrusts, rhos, speeds, i);
    }
  }

  /** Altitudes below 44330 m and positive speeds and thrusts. */
  predicate Cruise(altitudes: seq<real>, speeds: seq<real>, thrusts: seq<real>)
  {
    (forall i :: 0 <= i < |altitudes| ==> 0.0 <= altitudes[i] < ZeroDensityAltitude)
    && (forall i :: 0 <= i < |speeds| ==> speeds[i] > 0.0)
    && (forall i :: 0 <= i < |thrusts| ==> thrusts[i] > 0.0)
  }

  /** In cruise every density lies in (0, rho0] and the denominators are non-zero. */
  lemma CruiseDensity(area: real, altitudes: seq<real>, speeds: seq<real>, thrusts: seq<real>)
    requires area > 0.0 && Cruise(altitudes, speeds, thrusts)
    ensures Computable(area, altitudes, speeds)
    ensures forall i :: 0 <= i < |RhoSeries(altitudes)| ==> 0.0 < RhoSeries(altitudes)[i] <= Rho0
  {
  }

  /** In cruise, with positive weight and area, every C_L and every C_D is positive. */
  lemma CoefficientsPositive(weight: real, area: real, altitudes: seq<real>, speeds: seq<real>, thrusts: seq<real>)
    requires weight > 0.0 && area > 0.0 && Cruise(altitudes, speeds, thrusts)
    ensures Defined(area, RhoSeries(altitudes), speeds)
    ensures forall i :: 0 <= i < |LiftSeries(weight, area, RhoSeries(altitudes), speeds)| ==>
              LiftSeries(weight, area, RhoSeries(altitudes), speeds)[i] > 0.0
    ensures forall i :: 0 <= i < |DragSeries(area, thrusts, RhoSeries(altitudes), speeds)| ==>
              DragSeries(area, thrusts, RhoSeries(altitudes), speeds)[i] > 0.0
  {
    var rhos := RhoSeries(altitudes);
    CruiseDensity(area, altitudes, speeds, thrusts);
    var cl, cd := LiftSeries(weight, area, rhos, speeds), DragSeries(area, thrusts, rhos, speeds);
    forall i | 0 <= i < |cl|
      ensures cl[i] > 0.0
    {
      LiftSeriesAt(weight, area, rhos, speeds, i);
      CoefficientsBalanceForces(weight, 1.0, area, rhos[i], speeds[i]);
    }
    forall i | 0 <= i < |cd|
      ensures cd[i] > 0.0
    {
      DragSeriesAt(area, thrusts, rhos, speeds, i);
      CoefficientsBalanceForces(1.0, thrusts[i], area, rhos[i], speeds[i]);
    }
  }
}
