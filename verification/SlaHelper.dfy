/** The deadline computation of the SLA engine, as it moves a mutable timestamp. */
module SlaHelper {
  import opened SlaCalendar

  datatype CalendarType = AroundTheClock | BusinessHours

  /** A mutable timestamp: local time in milliseconds, in a zone with a fixed offset. */
  class Date {
    var time: int

    constructor (time: int)
      ensures this.time == time
    {
      this.time := time;
    }

    function GetDay(): int
      reads this
    {
      Weekday(DayOf(time))
    }

    function GetHours(): int
      reads this
    {
      (time % DAY) / HOUR
    }

    /** Moves to the same time of the following day. */
    method NextDate()
      modifies this
      ensures time == old(time) + DAY
      ensures DayOf(time) == old(DayOf(time)) + 1
    {
      time := time + DAY;
    }

    /** Sets the hour of the current day and clears minutes, seconds and milliseconds;
        hour 24 is the following midnight. */
    method SetHours(hour: int)
      modifies this
      ensures time == old(DayOf(time)) * DAY + hour * HOUR
    {
      time := DayOf(time) * DAY + hour * HOUR;
    }
  }

  /** How many open milliseconds a deadline of so many minutes spends, counted from the
      first open instant f.  A deadline that does not fit in the day of f drops what that
      day has beyond whole minutes. */
  function Budget(cal: Calendar, f: int, minutes: int): int {
    var leftToday := CloseAt(cal, DayOf(f)) - f;
    minutes * MINUTE + if minutes * MINUTE <= leftToday then 0 else leftToday % MINUTE
  }

  /** What a business-hours deadline is: with nothing to spend, the first open instant f;
      otherwise the earliest instant with the budgeted amount of open time before it. */
  ghost predicate Deadline(cal: Calendar, start: int, minutes: int, due: int)
    requires Valid(cal)
  {
    var f := NextOpen(cal, start);
    if minutes <= 0 then due == f
    else f < due && IsOpen(cal, due - 1) && OpenTime(cal, start, due) == Budget(cal, f, minutes)
  }

  /** The number of days the day-skipping loop still has to skip. */
  ghost function DaysOff(cal: Calendar, t: int): nat
    requires Valid(cal)
  {
    BusinessDayFrom(cal, DayOf(t)) - DayOf(t)
  }

  /** Moves the date in place to the first open instant.  The second result counts the
      recursive calls: there is never more than one. */
  method AdjustToBusinessHours(date: Date, cal: Calendar) returns (ghost depth: nat)
    requires Valid(cal)
    modifies date
    ensures date.time == NextOpen(cal, old(date.time))
    ensures depth <= if old(date.GetHours()) >= cal.endHour then 1 else 0
    decreases if date.GetHours() >= cal.endHour then 1 else 0
  {
    depth := 0;
    ghost var start := date.time;
    while !(date.GetDay() in cal.businessDays)
      invariant start <= date.time
      invariant date.time == start || date.time == OpenAt(cal, DayOf(date.time))
      invariant forall x :: start <= x < date.time ==> !IsOpen(cal, x)
      decreases DaysOff(cal, date.time)
    {
      ClosedUntilNextOpening(cal, date.time);
      date.NextDate();
      DayIs(OpenAt(cal, DayOf(date.time)), DayOf(date.time));
      date.SetHours(cal.startHour);
    }
    ghost var d := DayOf(date.time);
    DayBounds(date.time);
    var hours := date.GetHours();
    if hours < cal.startHour {
      ClosedBeforeOpening(cal, date.time);
      date.SetHours(cal.startHour);
      OpenIffWithinHours(cal, d, date.time);
    } else if hours >= cal.endHour {
      ClosedUntilNextOpening(cal, date.time);
      DayIs(OpenAt(cal, d + 1), d + 1);
      date.NextDate();
      date.SetHours(cal.startHour);
      depth := AdjustToBusinessHours(date, cal);
      depth := depth + 1;
    }
    FirstOpenIsUnique(cal, start, date.time);
  }

  lemma FirstOpenIsUnique(cal: Calendar, t: int, f: int)
    requires Valid(cal) && FirstOpen(cal, t, f)
    ensures f == NextOpen(cal, t)
  {
    var g := NextOpen(cal, t);
    assert f < g ==> !IsOpen(cal, f);
    assert g < f ==> !IsOpen(cal, g);
  }

  /** The due date: a new date, the start date left as it was. */
  method CalculateSlaDueDate(startDate: Date, minutesToAdd: int, calendarType: CalendarType, cal: Calendar)
    returns (current: Date)
    requires calendarType.BusinessHours? ==> Valid(cal)
    ensures fresh(current)
    ensures calendarType.AroundTheClock? ==> current.time == startDate.time + minutesToAdd * MINUTE
    ensures calendarType.BusinessHours? ==> Deadline(cal, startDate.time, minutesToAdd, current.time)
  {
    if calendarType.AroundTheClock? {
      current := new Date(startDate.time + minutesToAdd * 60 * 1000);
      return;
    }
    ghost var start := startDate.time;
    current := new Date(startDate.time);
    var remainingMinutes := minutesToAdd;
    ghost var depth := AdjustToBusinessHours(current, cal);
    SpendingStarts(cal, start, minutesToAdd);
    while remainingMinutes > 0
      invariant fresh(current)
      invariant Spending(cal, start, minutesToAdd, current.time, remainingMinutes)
      decreases remainingMinutes, MinutesLeft(cal, current.time) == 0
    {
      ghost var t := current.time;
      var endOfToday := new Date(current.time);
      endOfToday.SetHours(cal.endHour);
      assert endOfToday.time == CloseAt(cal, DayOf(t)) > t;
      var availableToday := Max(0, (endOfToday.time - current.time) / 60000);
      assert availableToday == MinutesLeft(cal, t);
      if remainingMinutes <= availableToday {
        SpendWithinDay(cal, start, minutesToAdd, t, remainingMinutes);
        current := new Date(current.time + remainingMinutes * 60 * 1000);
        remainingMinutes := 0;
      } else {
        SpendRestOfDay(cal, start, minutesToAdd, t, remainingMinutes);
        remainingMinutes := remainingMinutes - availableToday;
        current.NextDate();
        current.SetHours(cal.startHour);
        assert current.time == OpenAt(cal, DayOf(t) + 1);
        depth := AdjustToBusinessHours(current, cal);
      }
    }
  }

  /** The whole minutes left before closing. */
  function MinutesLeft(cal: Calendar, t: int): int { (CloseAt(cal, DayOf(t)) - t) / MINUTE }

  /** The loop's progress: the timestamp is open and what was spent so far plus the budget
      of the remaining minutes is the whole budget; or nothing remains and it is the deadline. */
  ghost predicate Spending(cal: Calendar, start: int, minutes: int, t: int, remaining: int)
    requires Valid(cal)
  {
    if remaining > 0 then
      && 0 < minutes && NextOpen(cal, start) <= t && IsOpen(cal, t)
      && OpenTime(cal, start, t) + Budget(cal, t, remaining) == Budget(cal, NextOpen(cal, start), minutes)
    else Deadline(cal, start, minutes, t)
  }

  function Max(a: int, b: int): int { if a < b then b else a }

  lemma SpendingStarts(cal: Calendar, start: int, minutes: int)
    requires Valid(cal)
    ensures Spending(cal, start, minutes, NextOpen(cal, start), minutes)
  {
    OpenTimeWhenClosed(cal, start, NextOpen(cal, start));
  }

  /** Minutes that fit before closing are spent as elapsed time. */
  lemma SpendWithinDay(cal: Calendar, start: int, minutes: int, t: int, remaining: int)
    requires Valid(cal) && remaining > 0 && Spending(cal, start, minutes, t, remaining)
    requires remaining <= MinutesLeft(cal, t)
    ensures Spending(cal, start, minutes, t + remaining * MINUTE, 0)
  {
    var d := DayOf(t);
    var due := t + remaining * MINUTE;
    forall x | t <= x < due ensures IsOpen(cal, x) {
      OpenIffWithinHours(cal, d, x);
    }
    OpenTimeSplits(cal, start, t, due);
    OpenTimeWhenOpen(cal, t, due);
  }

  /** Minutes that do not fit: the rest of the day is spent, and on the morning of the next
      business day the budget for what remains has no sub-minute part left to drop. */
  lemma SpendRestOfDay(cal: Calendar, start: int, minutes: int, t: int, remaining: int)
    requires Valid(cal) && Spending(cal, start, minutes, t, remaining)
    requires remaining > MinutesLeft(cal, t) >= 0
    ensures var next := NextOpen(cal, OpenAt(cal, DayOf(t) + 1));
            Spending(cal, start, minutes, next, remaining - MinutesLeft(cal, t)) && MinutesLeft(cal, next) > 0
  {
    RestOfDayIsOpen(cal, start, t);
    BudgetCarriesOver(cal, t, NextOpen(cal, OpenAt(cal, DayOf(t) + 1)), remaining);
  }

  lemma BudgetCarriesOver(cal: Calendar, t: int, next: int, minutes: int)
    requires Valid(cal) && t <= CloseAt(cal, DayOf(t)) && next == OpenAt(cal, DayOf(next))
    requires minutes > MinutesLeft(cal, t)
    ensures Budget(cal, t, minutes)
            == (CloseAt(cal, DayOf(t)) - t) + Budget(cal, next, minutes - MinutesLeft(cal, t))
    ensures MinutesLeft(cal, next) > 0
  {
    var left := CloseAt(cal, DayOf(t)) - t;
    NoLossFromOpening(cal, next, minutes - left / MINUTE);
    WholeMinutes(left, minutes);
  }

  /** A day counted from its opening has a whole number of minutes. */
  lemma NoLossFromOpening(cal: Calendar, t: int, minutes: int)
    requires Valid(cal) && t == OpenAt(cal, DayOf(t))
    ensures Budget(cal, t, minutes) == minutes * MINUTE
    ensures CloseAt(cal, DayOf(t)) - t >= HOUR
  {
    assert CloseAt(cal, DayOf(t)) - t == (cal.endHour - cal.startHour) * 60 * MINUTE;
  }

  lemma WholeMinutes(left: int, minutes: int)
    requires 0 <= left && minutes > left / MINUTE
    ensures minutes * MINUTE > left
    ensures minutes * MINUTE + left % MINUTE == left + (minutes - left / MINUTE) * MINUTE
  {
  }

  /** From an open instant to closing everything is open, and from closing to the next
      first open instant, which is an opening, nothing is. */
  lemma RestOfDayIsOpen(cal: Calendar, start: int, t: int)
    requires Valid(cal) && start <= t && IsOpen(cal, t)
    ensures var close, next := CloseAt(cal, DayOf(t)), NextOpen(cal, OpenAt(cal, DayOf(t) + 1));
            && t < close <= next && next == OpenAt(cal, DayOf(next)) && next == NextOpen(cal, close)
            && OpenTime(cal, start, close) == OpenTime(cal, start, t) + (close - t)
            && OpenTime(cal, start, next) == OpenTime(cal, start, close)
  {
    var d := DayOf(t);
    var close, next := CloseAt(cal, d), NextOpen(cal, OpenAt(cal, d + 1));
    forall x | t <= x < close ensures IsOpen(cal, x) {
      OpenIffWithinHours(cal, d, x);
    }
    OpenTimeWhenOpen(cal, t, close);
    OpenTimeSplits(cal, start, t, close);
    NextAfterClosing(cal, d);
    OpenTimeWhenClosed(cal, close, next);
    OpenTimeSplits(cal, start, close, next);
  }

  lemma NextAfterClosing(cal: Calendar, d: int)
    requires Valid(cal)
    ensures CloseAt(cal, d) <= OpenAt(cal, d + 1)
    ensures var next := NextOpen(cal, OpenAt(cal, d + 1));
            next == OpenAt(cal, DayOf(next)) && next == NextOpen(cal, CloseAt(cal, d))
  {
    var close, morning := CloseAt(cal, d), OpenAt(cal, d + 1);
    var next := NextOpen(cal, morning);
    DayIs(morning, d + 1);
    forall x | close <= x < morning ensures !IsOpen(cal, x) {
      if x < (d + 1) * DAY { DayIs(x, d); } else { DayIs(x, d + 1); }
    }
    FirstOpenIsUnique(cal, close, next);
  }
}
