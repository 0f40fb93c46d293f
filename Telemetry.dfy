/**
 * The four process-wide telemetry series of the dashboard — time index,
 * speed, altitude and thrust — kept index-aligned: entry i of each describes
 * one time step. They start with 100 samples and every refresh appends one
 * synthetic sample to each, then keeps the last 100.
 */
module Telemetry {
  import opened Rolling
  import opened Arith
  import Slicing

  /** Range of the synthetic speed draws. */
  const SpeedLow: real := 200.0
  const SpeedHigh: real := 250.0
  /** Range of the synthetic altitude draws, in metres. */
  const AltitudeLow: real := 30000.0
  const AltitudeHigh: real := 35000.0
  /** Range of the synthetic thrust draws, in newtons. */
  const ThrustLow: real := 20000.0
  const ThrustHigh: real := 25000.0

  /** The samples the user selected with the time-range slider. */
  datatype Window = Window(times: seq<int>, speed: seq<real>, altitude: seq<real>, thrust: seq<real>)

  /** A window whose samples lie in the ranges the simulation draws from and whose times are consecutive. */
  predicate WellFormed(w: Window)
  {
    |w.times| == |w.speed| == |w.altitude| == |w.thrust|
    && Consecutive(w.times)
    && AllIn(w.speed, SpeedLow, SpeedHigh)
    && AllIn(w.altitude, AltitudeLow, AltitudeHigh)
    && AllIn(w.thrust, ThrustLow, ThrustHigh)
  }

  /** The time indices at startup, `list(range(100))`. */
  function InitialTimes(): (t: seq<int>)
    ensures |t| == Capacity && Consecutive(t)
    ensures forall i :: 0 <= i < |t| ==> t[i] == i
  {
    seq(Capacity, i => i)
  }

  /** The four series after one refresh that draws speed `s`, altitude `a` and thrust `t`. */
  function Advanced(w: Window, s: real, a: real, t: real): Window
    requires w.times != []
  {
    Window(Push(w.times, Last(w.times) + 1), Push(w.speed, s), Push(w.altitude, a), Push(w.thrust, t))
  }

  /**
   * A refresh keeps the buffer invariant. The length becomes
   * min(old length + 1, Capacity), the new time is the old last time plus one,
   * and on a full buffer every series loses exactly its oldest sample and
   * gains the new one at the end.
   */
  lemma AdvancedKeepsInvariant(w: Window, s: real, a: real, t: real)
    requires 0 < |w.times| <= Capacity && WellFormed(w)
    requires SpeedLow <= s <= SpeedHigh
    requires AltitudeLow <= a <= AltitudeHigh
    requires ThrustLow <= t <= ThrustHigh
    ensures var w' := Advanced(w, s, a, t);
            WellFormed(w')
            && 0 < |w'.times| <= Capacity
            && |w'.times| == Min(|w.times| + 1, Capacity)
            && Last(w'.times) == Last(w.times) + 1
            && (|w.times| == Capacity ==>
                  w'.times == w.times[1..] + [Last(w.times) + 1]
                  && w'.speed == w.speed[1..] + [s]
                  && w'.altitude == w.altitude[1..] + [a]
                  && w'.thrust == w.thrust[1..] + [t])
  {
    PushShape(w.times, Last(w.times) + 1);
    PushShape(w.speed, s);
    PushShape(w.altitude, a);
    PushShape(w.thrust, t);
    PushConsecutive(w.times);
    PushAllIn(w.speed, s, SpeedLow, SpeedHigh);
    PushAllIn(w.altitude, a, AltitudeLow, AltitudeHigh);
    PushAllIn(w.thrust, t, ThrustLow, ThrustHigh);
    if |w.times| == Capacity {
      PushFull(w.times, Last(w.times) + 1);
      PushFull(w.speed, s);
      PushFull(w.altitude, a);
      PushFull(w.thrust, t);
    }
  }

  /** Slicing a well-formed window's series with one pair of bounds gives a well-formed window. */
  lemma SliceWellFormed(w: Window, start: int, stop: int)
    requires WellFormed(w)
    ensures WellFormed(Window(Slicing.Slice(w.times, start, stop), Slicing.Slice(w.speed, start, stop),
                              Slicing.Slice(w.altitude, start, stop), Slicing.Slice(w.thrust, start, stop)))
  {
    var lo := Slicing.Bound(start, |w.times|);
    var ts := Slicing.Slice(w.times, start, stop);
    forall i | 0 < i < |ts|
      ensures ts[i] == ts[i - 1] + 1
    {
      assert ts[i] == w.times[lo + i] && ts[i - 1] == w.times[lo + i - 1];
    }
  }

  class TelemetryBuffer {
    var times: seq<int>
    var speed: seq<real>
    var altitude: seq<real>
    var thrust: seq<real>

    /**
     * The buffer invariant: four non-empty series of one length, at most
     * `Capacity`, with consecutive time indices and every sample in its range.
     */
    ghost predicate Valid()
      reads this
    {
      0 < |times| <= Capacity && WellFormed(Snapshot())
    }

    /** The four series as one value. */
    function Snapshot(): Window
      reads this
    {
      Window(times, speed, altitude, thrust)
    }

    /** The startup state: times 0..99 and the 100 initial draws of each quantity. */
    constructor (speed0: seq<real>, altitude0: seq<real>, thrust0: seq<real>)
      requires |speed0| == |altitude0| == |thrust0| == Capacity
      requires AllIn(speed0, SpeedLow, SpeedHigh)
      requires AllIn(altitude0, AltitudeLow, AltitudeHigh)
      requires AllIn(thrust0, ThrustLow, ThrustHigh)
      ensures Valid()
      ensures |times| == Capacity && forall i :: 0 <= i < Capacity ==> times[i] == i
      ensures speed == speed0 && altitude == altitude0 && thrust == thrust0
    {
      times := InitialTimes();
      speed := speed0;
      altitude := altitude0;
      thrust := thrust0;
    }

    /**
     * One refresh: the new time is the last time plus one, each series gets
     * its new sample, and each keeps only its last `Capacity` entries. The
     * length becomes min(old length + 1, Capacity); a full buffer drops exactly
     * its oldest sample.
     */
    method Advance(s: real, a: real, t: real)
      requires Valid()
      requires SpeedLow <= s <= SpeedHigh
      requires AltitudeLow <= a <= AltitudeHigh
      requires ThrustLow <= t <= ThrustHigh
      modifies this
      ensures Valid()
      ensures Snapshot() == Advanced(old(Snapshot()), s, a, t)
    {
      ghost var before := Snapshot();
      AdvancedKeepsInvariant(before, s, a, t);
      var newTime := times[|times| - 1] + 1;
      times, speed, altitude, thrust := times + [newTime], speed + [s], altitude + [a], thrust + [t];
      times, speed, altitude, thrust :=
        KeepLast(times, Capacity), KeepLast(speed, Capacity), KeepLast(altitude, Capacity), KeepLast(thrust, Capacity);
    }

    /**
     * `series[start:end]` of all four series. The four slices have one length,
     * max(0, clamped end - clamped start), are index-aligned (entry k of each
     * is entry clamped start + k of its series), and keep the consecutive
     * times and the sample ranges. The buffer is only read.
     */
    function Select(start: int, stop: int): (w: Window)
      reads this
      requires Valid()
      ensures WellFormed(w)
      ensures var lo, hi := Slicing.Bound(start, |times|), Slicing.Bound(stop, |times|);
              |w.times| == Max(0, hi - lo)
              && forall k :: 0 <= k < |w.times| ==>
                   w.times[k] == times[lo + k] && w.speed[k] == speed[lo + k]
                   && w.altitude[k] == altitude[lo + k] && w.thrust[k] == thrust[lo + k]
    {
      SliceWellFormed(Snapshot(), start, stop);
      Window(Slicing.Slice(times, start, stop), Slicing.Slice(speed, start, stop),
             Slicing.Slice(altitude, start, stop), Slicing.Slice(thrust, start, stop))
    }
  }

  /**
   * The buffer after `n` refreshes from startup: the time series is exactly
   * `range(n, n + 100)`, so it stays 100 long and rises by one per step.
   */
  lemma TimesAfterRefreshes(n: nat)
    ensures |AdvanceTimes(InitialTimes(), n)| == Capacity
    ensures forall i :: 0 <= i < Capacity ==> AdvanceTimes(InitialTimes(), n)[i] == n + i
  {
    StartupTimesAfter(InitialTimes(), n);
  }
}
