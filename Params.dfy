/**
 * The two physical parameters the user types in: aircraft weight W (newtons)
 * and wing area S (square metres). A missing or non-positive value makes the
 * callback fall back to the defaults for BOTH parameters.
 */
module Params {

  datatype Option<T> = None | Some(value: T)

  /** Default aircraft weight, in newtons. */
  const DefaultWeight: real := 50000.0
  /** Default wing area, in square metres. */
  const DefaultArea: real := 30.0

  /** The weight and wing area the coefficients are computed with. */
  datatype Effective = Effective(weight: real, area: real)

  /** An input the callback accepts as it is: present and strictly positive. */
  predicate Usable(x: Option<real>)
  {
    x.Some? && x.value > 0.0
  }

  /**
   * The validated pair: both inputs as given when both are usable, otherwise
   * both defaults. The result is always strictly positive.
   */
  function EffectiveParams(weight: Option<real>, area: Option<real>): (p: Effective)
    ensures p.weight > 0.0 && p.area > 0.0
    ensures (p.weight == DefaultWeight && p.area == DefaultArea)
         || (weight == Some(p.weight) && area == Some(p.area))
  {
    if weight.None? || area.None? || weight.value <= 0.0 || area.value <= 0.0 then
      Effective(DefaultWeight, DefaultArea)
    else
      Effective(weight.value, area.value)
  }

  /** One unusable input resets both parameters, even when the other one is usable. */
  lemma FallbackResetsBoth(weight: Option<real>, area: Option<real>)
    requires !Usable(weight) || !Usable(area)
    ensures EffectiveParams(weight, area) == Effective(DefaultWeight, DefaultArea)
  {
  }

  /** Two usable inputs pass through unchanged. */
  lemma UsableInputsPassThrough(weight: Option<real>, area: Option<real>)
    requires Usable(weight) && Usable(area)
    ensures EffectiveParams(weight, area) == Effective(weight.value, area.value)
  {
  }

  /** Validating an already validated pair changes nothing. */
  lemma EffectiveParamsIdempotent(weight: Option<real>, area: Option<real>)
    ensures var p := EffectiveParams(weight, area);
            EffectiveParams(Some(p.weight), Some(p.area)) == p
  {
  }
}
