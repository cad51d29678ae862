/**
 * Time arithmetic of the weekly planner (backend/src/services/planner.js).
 *
 * Instants are whole minutes since an epoch, read in a local zone with a fixed
 * offset. `new Date(x)` either yields an instant or an invalid date; an
 * invalid date compares false with everything.
 */
module PlannerTime {

  const MinutesPerDay: int := 24 * 60

  /** The outcome of `new Date(x)`: an instant, or the invalid date. */
  datatype DateValue = InvalidDate | At(minute: int)

  /** A half-open interval [start, end) of minutes. */
  datatype Interval = Interval(start: int, end: int)

  datatype Error = InvalidWeekStart

  datatype Result<T> = Ok(value: T) | Err(error: Error)

  /** Minute `t` lies in `iv`. */
  predicate Contains(iv: Interval, t: int) {
    iv.start <= t < iv.end
  }

  /** `inner` lies inside `outer`. */
  predicate Within(inner: Interval, outer: Interval) {
    outer.start <= inner.start && inner.end <= outer.end
  }

  /** The overlap test of the interval subtractor and of the allocator's intervals. */
  predicate Overlaps(a: Interval, b: Interval) {
    a.start < b.end && a.end > b.start
  }

  /**
   * `addMinutes`. The contract only fixes the offset; what it promises with
   * `DiffMinutes` is proved in `AddDiffRoundTrip`.
   */
  function AddMinutes(t: int, minutes: int): (r: int)
    ensures r - t == minutes
  {
    t + minutes
  }

  /** Whole minutes from `start` to `end`, never negative. */
  function DiffMinutes(start: int, end: int): (r: nat)
    ensures start <= end ==> AddMinutes(start, r) == end
    ensures end <= start ==> r == 0
  {
    if end > start then end - start else 0
  }

  /** Length of an interval as the planner measures it. */
  function Length(iv: Interval): nat {
    DiffMinutes(iv.start, iv.end)
  }

  /** Adding a non-negative number of minutes and measuring the gap gives it back. */
  lemma AddDiffRoundTrip(t: int, minutes: nat)
    ensures DiffMinutes(t, AddMinutes(t, minutes)) == minutes
  {
  }

  /** Local midnight of the day holding `t` (`setHours(0, 0, 0, 0)`). */
  function Midnight(t: int): (r: int)
    ensures r % MinutesPerDay == 0
    ensures r <= t < r + MinutesPerDay
  {
    t - t % MinutesPerDay
  }

  /** `parseWeekStart`: fails exactly on an invalid date, else gives that day's midnight. */
  function ParseWeekStart(weekStart: DateValue): (r: Result<int>)
    ensures r.Err? <==> weekStart.InvalidDate?
    ensures r.Ok? ==>
              && r.value % MinutesPerDay == 0
              && r.value <= weekStart.minute < r.value + MinutesPerDay
  {
    match weekStart
    case InvalidDate => Err(InvalidWeekStart)
    case At(t) => Ok(Midnight(t))
  }

  /**
   * `dayWithTime`: the day of `base` at `hours:minutes` (out-of-range values
   * roll over). The contract only fixes the offset from midnight; that a time
   * of day stays on the same day is proved in `DayWithTimeSameDay`.
   */
  function DayWithTime(base: int, hours: int, minutes: int): (r: int)
    ensures r - Midnight(base) == hours * 60 + minutes
  {
    Midnight(base) + hours * 60 + minutes
  }

  /** A wall-clock time within one day stays within that day. */
  lemma DayWithTimeSameDay(base: int, hours: int, minutes: int)
    requires 0 <= hours < 24 && 0 <= minutes < 60
    ensures Midnight(DayWithTime(base, hours, minutes)) == Midnight(base)
  {
    var m := Midnight(base);
    var r := DayWithTime(base, hours, minutes);
    assert m <= r < m + MinutesPerDay;
    MidnightUnique(r, m);
  }

  /** The midnight of `t` is the only multiple of a day in (t - day, t]. */
  lemma MidnightUnique(t: int, m: int)
    requires m % MinutesPerDay == 0 && m <= t < m + MinutesPerDay
    ensures Midnight(t) == m
  {
    var d := Midnight(t);
    assert (d - m) % MinutesPerDay == 0 by {
      assert d == (d / MinutesPerDay) * MinutesPerDay;
      assert m == (m / MinutesPerDay) * MinutesPerDay;
      assert d - m == (d / MinutesPerDay - m / MinutesPerDay) * MinutesPerDay;
    }
    assert -MinutesPerDay < d - m < MinutesPerDay;
  }
}
