/**
 * Clock arithmetic of the itinerary planner (app/core/itinerary_planner.py):
 * times of day are whole minutes since midnight, and adding minutes wraps
 * around at midnight, as Python's `datetime.time` does once the date is
 * dropped.
 */
module PlannerTime {

  const MinutesPerDay: int := 1440

  /** A time of day, `HH:MM`, as minutes since midnight. */
  type Minute = m: int | 0 <= m < 1440

  /** Shortest transfer the planner ever schedules. */
  const MinTravelMinutes: int := 5

  /** `_add_time`: the time of day `minutes` after `t`, wrapping past midnight. */
  function AddTime(t: Minute, minutes: int): (r: Minute)
    ensures (t + minutes - r) % MinutesPerDay == 0
    ensures 0 <= t + minutes < MinutesPerDay ==> r == t + minutes
  {
    (t + minutes) % MinutesPerDay
  }

  /** Adding in two steps lands on the same time of day as adding the sum. */
  lemma {:induction false} AddTimeAssociates(t: Minute, a: int, b: int)
    ensures AddTime(AddTime(t, a), b) == AddTime(t, a + b)
  {
    var q := (t + a) / MinutesPerDay;
    assert AddTime(t, a) == t + a - q * MinutesPerDay;
    assert AddTime(t, a) + b == (t + a + b) - q * MinutesPerDay;
    ModShift(t + a + b, q);
  }

  lemma {:induction false} ModShift(x: int, q: int)
    decreases if q < 0 then -q else q
    ensures (x - q * MinutesPerDay) % MinutesPerDay == x % MinutesPerDay
  {
    if q > 0 {
      ModShift(x, q - 1);
      assert x - q * MinutesPerDay == (x - (q - 1) * MinutesPerDay) - MinutesPerDay;
    } else if q < 0 {
      ModShift(x, q + 1);
      assert x - q * MinutesPerDay == (x - (q + 1) * MinutesPerDay) + MinutesPerDay;
    }
  }

  /** `_compare_times`: -1, 0 or 1 as `a` is before, equal to or after `b`. */
  function CompareTimes(a: Minute, b: Minute): (r: int)
    ensures r == -1 <==> a < b
    ensures r == 0 <==> a == b
    ensures r == 1 <==> a > b
  {
    if a < b then -1 else if a > b then 1 else 0
  }

  /** `_is_time_in_range`: both ends of the window are included. */
  predicate IsTimeInRange(t: Minute, lo: Minute, hi: Minute)
    ensures IsTimeInRange(t, lo, hi) <==> lo <= t <= hi
  {
    CompareTimes(t, lo) >= 0 && CompareTimes(t, hi) <= 0
  }

  /** Python's `int(x)` on a float: rounds toward zero. */
  function Trunc(x: real): (n: int)
    ensures x >= 0.0 ==> n as real <= x < n as real + 1.0
    ensures x < 0.0 ==> n as real - 1.0 < x <= n as real
  {
    if x >= 0.0 then x.Floor else -((-x).Floor)
  }

  /**
   * The `int(...)`/`max(5, ...)` part of `_estimate_travel_time`: the whole
   * minutes a trip of `distanceKm` takes at `speedKmh`, never fewer than five.
   * The great-circle distance itself is computed by the caller.
   */
  function EstimateTravelTime(distanceKm: real, speedKmh: real): (m: int)
    requires speedKmh != 0.0
    ensures m >= MinTravelMinutes
    ensures distanceKm / speedKmh * 60.0 >= 5.0 ==>
              m as real <= distanceKm / speedKmh * 60.0 < m as real + 1.0
    ensures distanceKm / speedKmh * 60.0 < 5.0 ==> m == MinTravelMinutes
  {
    var minutes := Trunc(distanceKm / speedKmh * 60.0);
    if minutes < MinTravelMinutes then MinTravelMinutes else minutes
  }
}
