/** The clamping arithmetic both players apply to the element's position. */
module Transport {
  import opened Maybe

  /** The slider's upper end, `duration || 100`: an unknown (NaN) or zero duration gives 100. */
  function SliderMax(duration: Option<real>): (max: real)
    requires duration.Some? ==> duration.value >= 0.0
    ensures max > 0.0
    ensures duration.Some? && duration.value != 0.0 ==> max == duration.value
    ensures duration.None? || duration.value == 0.0 ==> max == 100.0
  {
    match duration
    case Some(d) => if d != 0.0 then d else 100.0
    case None => 100.0
  }

  /** `Math.max(t - offset, 0)`. */
  function SkipBackTarget(t: real, offset: real): (r: real)
    ensures r >= 0.0 && r >= t - offset
    ensures r == 0.0 || r == t - offset
  {
    if t - offset > 0.0 then t - offset else 0.0
  }

  /** `Math.min(t + offset, d)` for a known duration `d`. */
  function SkipAheadTarget(t: real, offset: real, d: real): (r: real)
    ensures r <= d && r <= t + offset
    ensures r == d || r == t + offset
  {
    if t + offset < d then t + offset else d
  }

  /** `x` brought into `[lo, hi]`. */
  function Clamp(x: real, lo: real, hi: real): (r: real)
    requires lo <= hi
    ensures lo <= r <= hi
    ensures lo <= x <= hi ==> r == x
    ensures x < lo ==> r == lo
    ensures hi < x ==> r == hi
  {
    if x < lo then lo else if hi < x then hi else x
  }

  /**
   * From a position inside `[0, d]`, a skip by a non-negative offset is the
   * target clamped to `[0, d]`: it never leaves the track, it moves in the
   * requested direction, backward from less than the offset lands on 0 and
   * forward from within the offset of the end lands on `d`.
   */
  lemma SkipsAreClamped(t: real, offset: real, d: real)
    requires 0.0 <= t <= d && 0.0 <= offset
    ensures SkipBackTarget(t, offset) == Clamp(t - offset, 0.0, d) <= t
    ensures t <= SkipAheadTarget(t, offset, d) == Clamp(t + offset, 0.0, d)
  {
  }
}
