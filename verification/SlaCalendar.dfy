/** The business calendar of the SLA engine: when the support desk is open, and how much
    open time lies between two instants.  Instants are integer milliseconds in a zone with
    a fixed offset; day 0 is a Thursday, as 1 January 1970 was. */
module SlaCalendar {

  const MINUTE: int := 60000
  const HOUR: int := 3600000
  const DAY: int := 86400000

  /** Opening hours and the weekdays (0 is Sunday) on which the desk is open. */
  datatype Calendar = Calendar(startHour: int, endHour: int, businessDays: seq<int>)

  /** The calendars the deadline computation is meant for; the code does not check its
      configuration, and on others its loops need not end. */
  ghost predicate Valid(cal: Calendar) {
    && 0 <= cal.startHour < cal.endHour <= 24
    && exists w :: 0 <= w < 7 && w in cal.businessDays
  }

  function DayOf(t: int): int { t / DAY }

  function Weekday(d: int): int { (d + 4) % 7 }

  predicate Business(cal: Calendar, d: int) { Weekday(d) in cal.businessDays }

  function OpenAt(cal: Calendar, d: int): int { d * DAY + cal.startHour * HOUR }

  function CloseAt(cal: Calendar, d: int): int { d * DAY + cal.endHour * HOUR }

  predicate IsOpen(cal: Calendar, t: int) {
    Business(cal, DayOf(t)) && OpenAt(cal, DayOf(t)) <= t < CloseAt(cal, DayOf(t))
  }

  /** Open time between two instants: the number of open milliseconds in [a, b). */
  ghost function OpenTime(cal: Calendar, a: int, b: int): nat
    decreases b - a
  {
    if a >= b then 0 else OpenTime(cal, a, b - 1) + if IsOpen(cal, b - 1) then 1 else 0
  }

  /** f is the first open instant from t on. */
  ghost predicate FirstOpen(cal: Calendar, t: int, f: int) {
    t <= f && IsOpen(cal, f) && forall x :: t <= x < f ==> !IsOpen(cal, x)
  }

  // ---------- open time ----------

  lemma {:induction false} OpenTimeSplits(cal: Calendar, a: int, b: int, c: int)
    requires a <= b <= c
    ensures OpenTime(cal, a, c) == OpenTime(cal, a, b) + OpenTime(cal, b, c)
    decreases c - b
  {
    if b < c {
      OpenTimeSplits(cal, a, b, c - 1);
    }
  }

  lemma {:induction false} OpenTimeWhenOpen(cal: Calendar, a: int, b: int)
    requires a <= b
    requires forall x :: a <= x < b ==> IsOpen(cal, x)
    ensures OpenTime(cal, a, b) == b - a
    decreases b - a
  {
    if a < b {
      OpenTimeWhenOpen(cal, a, b - 1);
    }
  }

  lemma {:induction false} OpenTimeWhenClosed(cal: Calendar, a: int, b: int)
    requires forall x :: a <= x < b ==> !IsOpen(cal, x)
    ensures OpenTime(cal, a, b) == 0
    decreases b - a
  {
    if a < b {
      OpenTimeWhenClosed(cal, a, b - 1);
    }
  }

  lemma {:induction false} OpenTimeAtMostElapsed(cal: Calendar, a: int, b: int)
    requires a <= b
    ensures OpenTime(cal, a, b) <= b - a
    decreases b - a
  {
    if a < b {
      OpenTimeAtMostElapsed(cal, a, b - 1);
    }
  }

  /** If the instant before b is open, b is the least instant with its amount of open time. */
  lemma EarliestWithOpenTime(cal: Calendar, a: int, b: int, c: int)
    requires a < b && IsOpen(cal, b - 1)
    requires OpenTime(cal, a, c) >= OpenTime(cal, a, b)
    ensures b <= c
  {
    assert OpenTime(cal, a, b) == OpenTime(cal, a, b - 1) + 1;
    if a <= c < b {
      OpenTimeSplits(cal, a, c, b - 1);
    }
  }

  // ---------- days ----------

  lemma DayIs(t: int, d: int)
    requires d * DAY <= t < (d + 1) * DAY
    ensures DayOf(t) == d
  {
  }

  lemma DayBounds(t: int)
    ensures DayOf(t) * DAY <= t < (DayOf(t) + 1) * DAY
  {
  }

  lemma OpenIffWithinHours(cal: Calendar, d: int, t: int)
    requires Valid(cal) && Business(cal, d) && OpenAt(cal, d) <= t < CloseAt(cal, d)
    ensures DayOf(t) == d && IsOpen(cal, t)
  {
    DayIs(t, d);
  }

  /** The first business day from d on; there is one within a week. */
  ghost function BusinessDayFrom(cal: Calendar, d: int): (r: int)
    requires Valid(cal)
    ensures d <= r <= d + 6 && Business(cal, r)
    ensures forall x :: d <= x < r ==> !Business(cal, x)
  {
    WeekHasBusinessDay(cal, d);
    BusinessDayWithin(cal, d, d + 6)
  }

  ghost function BusinessDayWithin(cal: Calendar, d: int, last: int): (r: int)
    requires exists x :: d <= x <= last && Business(cal, x)
    ensures d <= r <= last && Business(cal, r)
    ensures forall x :: d <= x < r ==> !Business(cal, x)
    decreases last - d
  {
    if Business(cal, d) then d else BusinessDayWithin(cal, d + 1, last)
  }

  lemma WeekHasBusinessDay(cal: Calendar, d: int)
    requires Valid(cal)
    ensures exists x :: d <= x <= d + 6 && Business(cal, x)
  {
    var w :| 0 <= w < 7 && w in cal.businessDays;
    var x := d + (w - Weekday(d)) % 7;
    assert Weekday(x) == w;
    assert Business(cal, x);
  }

  /** Nothing is open between closing time (or a day off) and the next day's opening. */
  lemma ClosedUntilNextOpening(cal: Calendar, t: int)
    requires Valid(cal)
    requires !Business(cal, DayOf(t)) || t >= CloseAt(cal, DayOf(t))
    ensures t < OpenAt(cal, DayOf(t) + 1)
    ensures forall x :: t <= x < OpenAt(cal, DayOf(t) + 1) ==> !IsOpen(cal, x)
  {
    var d := DayOf(t);
    forall x | t <= x < OpenAt(cal, d + 1)
      ensures !IsOpen(cal, x)
    {
      if x < (d + 1) * DAY { DayIs(x, d); } else { DayIs(x, d + 1); }
    }
  }

  lemma ClosedBeforeOpening(cal: Calendar, t: int)
    requires Valid(cal) && t < OpenAt(cal, DayOf(t))
    ensures forall x :: t <= x < OpenAt(cal, DayOf(t)) ==> !IsOpen(cal, x)
  {
    var d := DayOf(t);
    forall x | t <= x < OpenAt(cal, d)
      ensures !IsOpen(cal, x)
    {
      DayIs(x, d);
    }
  }

  /** The first open instant from t on. */
  ghost function NextOpen(cal: Calendar, t: int): (f: int)
    requires Valid(cal)
    ensures FirstOpen(cal, t, f)
    ensures f == t || f == OpenAt(cal, DayOf(f))
  {
    var d := DayOf(t);
    if IsOpen(cal, t) then t
    else if Business(cal, d) && t < OpenAt(cal, d) then
      ClosedBeforeOpening(cal, t);
      OpenIffWithinHours(cal, d, OpenAt(cal, d));
      OpenAt(cal, d)
    else
      var b := BusinessDayFrom(cal, d + 1);
      ClosedThroughDaysOff(cal, t, b);
      OpenIffWithinHours(cal, b, OpenAt(cal, b));
      OpenAt(cal, b)
  }

  lemma {:induction false} ClosedThroughDaysOff(cal: Calendar, t: int, b: int)
    requires Valid(cal)
    requires !Business(cal, DayOf(t)) || t >= CloseAt(cal, DayOf(t))
    requires DayOf(t) < b && forall x :: DayOf(t) < x < b ==> !Business(cal, x)
    ensures t < OpenAt(cal, b)
    ensures forall x :: t <= x < OpenAt(cal, b) ==> !IsOpen(cal, x)
    decreases b - DayOf(t)
  {
    ClosedUntilNextOpening(cal, t);
    var d := DayOf(t) + 1;
    if d < b {
      DayIs(OpenAt(cal, d), d);
      ClosedThroughDaysOff(cal, OpenAt(cal, d), b);
    }
  }
}
