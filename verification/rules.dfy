/**
 * The piecewise per-row rules of the generator over exact reals: the
 * temperature effect on load, the weekend discount, the peak-hour window,
 * clipping to a band and rounding to one decimal place.
 */
module Rules {

  /** Below this temperature (degrees C) heating adds load. */
  const HeatingBelow: real := 0.0
  /** Above this temperature (degrees C) cooling adds load. */
  const CoolingAbove: real := 25.0

  /** Multiplicative load discount on Saturdays and Sundays. */
  const WeekendFactor: real := 0.85
  /** Multiplicative load boost in the morning and evening peak hours. */
  const PeakBoost: real := 1.12
  /** Capacity held above the (pre-boost) load, in MW. */
  const ReserveMargin: real := 800.0

  /** Clip bands applied to the four measured columns. */
  const LoadMin: real := 2500.0
  const LoadMax: real := 5500.0
  const TempMin: real := -15.0
  const TempMax: real := 35.0
  const WindMin: real := 0.0
  const WindMax: real := 15.0
  const CapacityMin: real := 5000.0
  const CapacityMax: real := 7000.0

  /** How far t lies outside the comfort band [HeatingBelow, CoolingAbove]. */
  function ComfortDistance(t: real): (d: real)
    ensures d >= 0.0
    ensures d == 0.0 <==> HeatingBelow <= t <= CoolingAbove
  {
    if t < HeatingBelow then HeatingBelow - t
    else if t > CoolingAbove then t - CoolingAbove
    else 0.0
  }

  /**
   * Extra load in MW caused by temperature t: 300 MW per 15 degrees below 0
   * and 200 MW per 10 degrees above 25, nothing in between. Both slopes are
   * 20 MW per degree, so the effect is 20 times the distance from the comfort
   * band, continuous at both edges.
   */
  function TempEffect(t: real): (e: real)
    ensures e >= 0.0
    ensures e == 0.0 <==> HeatingBelow <= t <= CoolingAbove
    ensures e == 20.0 * ComfortDistance(t)
  {
    if t < 0.0 then 300.0 * (0.0 - t) / 15.0
    else if t > 25.0 then 200.0 * (t - 25.0) / 10.0
    else 0.0
  }

  /** The effect grows with the distance from the comfort band, on both sides. */
  lemma TempEffectMonotone(t1: real, t2: real)
    requires ComfortDistance(t1) <= ComfortDistance(t2)
    ensures TempEffect(t1) <= TempEffect(t2)
  {
  }

  /** Colder below 0 and hotter above 25 each mean strictly more load. */
  lemma TempEffectStrictOutsideBand(t1: real, t2: real)
    requires (t2 < t1 <= HeatingBelow) || (CoolingAbove <= t1 < t2)
    ensures TempEffect(t1) < TempEffect(t2)
  {
  }

  /** `0.85 if day_of_week >= 5 else 1.0`, with Monday as day 0. */
  function WeekdayFactor(dayOfWeek: int): (f: real)
    ensures f == WeekendFactor <==> dayOfWeek >= 5
    ensures f == 1.0 <==> dayOfWeek < 5
  {
    if dayOfWeek >= 5 then 0.85 else 1.0
  }

  /** Morning (07-10) and evening (17-20) peaks, both ends included. */
  predicate IsPeakHour(hour: int) {
    (7 <= hour <= 10) || (17 <= hour <= 20)
  }

  /** Exactly eight hours of the day are peak hours. */
  lemma PeakHours()
    ensures (set h | 0 <= h < 24 && IsPeakHour(h)) == {7, 8, 9, 10, 17, 18, 19, 20}
  {
  }

  /** `np.clip(x, lo, hi)`, which is `minimum(maximum(x, lo), hi)`. */
  function Clip(x: real, lo: real, hi: real): (r: real)
    ensures lo <= hi ==> lo <= r <= hi
    ensures lo <= x <= hi ==> r == x
    ensures x < lo ==> r == (if lo <= hi then lo else hi)
    ensures hi < x ==> r == hi
  {
    var m := if x < lo then lo else x;
    if m > hi then hi else m
  }

  lemma ClipIdempotent(x: real, lo: real, hi: real)
    requires lo <= hi
    ensures Clip(Clip(x, lo, hi), lo, hi) == Clip(x, lo, hi)
  {
  }

  /** Clipping keeps the order of its inputs. */
  lemma ClipMonotone(x: real, y: real, lo: real, hi: real)
    requires x <= y
    ensures Clip(x, lo, hi) <= Clip(y, lo, hi)
  {
  }

  /** Round to the nearest integer, ties to the even one (`np.rint`). */
  function RoundHalfEven(y: real): (k: int)
    ensures -0.5 <= k as real - y <= 0.5
    ensures (k as real - y == 0.5 || y - k as real == 0.5) ==> k % 2 == 0
  {
    var f := y.Floor;
    var frac := y - f as real;
    if frac < 0.5 then f
    else if frac > 0.5 then f + 1
    else if f % 2 == 0 then f
    else f + 1
  }

  /** `round(1)`: ten times x rounded half to even, divided by ten. */
  function RoundTenth(x: real): (r: real)
    ensures -0.05 <= r - x <= 0.05
  {
    RoundHalfEven(x * 10.0) as real / 10.0
  }

  /** Rounding to tenths keeps a value inside any band with integer ends. */
  lemma RoundTenthKeepsBand(x: real, lo: int, hi: int)
    requires lo as real <= x <= hi as real
    ensures lo as real <= RoundTenth(x) <= hi as real
  {
    var k := RoundHalfEven(x * 10.0);
    assert (lo * 10) as real <= x * 10.0 <= (hi * 10) as real;
    assert lo * 10 <= k <= hi * 10;
  }

  /** A value already on the tenth grid is left alone by rounding. */
  lemma RoundTenthIdempotent(x: real)
    ensures RoundTenth(RoundTenth(x)) == RoundTenth(x)
  {
    var k := RoundHalfEven(x * 10.0);
    assert RoundTenth(x) * 10.0 == k as real;
    var k' := RoundHalfEven(k as real);
    assert k' == k;
  }
}
