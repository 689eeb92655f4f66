/** What the deadlines of the SLA engine promise, for every start, every number of minutes
    and every valid calendar. */
module SlaDeadlines {
  import opened SlaCalendar
  import opened SlaHelper

  /** The business-hours deadline; CalculateSlaDueDate returns a date at this instant. */
  ghost function DueDate(cal: Calendar, start: int, minutes: int): (due: int)
    requires Valid(cal)
    ensures forall y :: Deadline(cal, start, minutes, y) <==> y == due
  {
    DeadlineExists(cal, start, minutes);
    var due :| Deadline(cal, start, minutes, due);
    DeadlineIsUnique(cal, start, minutes, due);
    due
  }

  lemma DeadlineIsUnique(cal: Calendar, start: int, minutes: int, due: int)
    requires Valid(cal) && Deadline(cal, start, minutes, due)
    ensures forall y :: Deadline(cal, start, minutes, y) ==> y == due
  {
    forall y | Deadline(cal, start, minutes, y) ensures y == due {
      if minutes > 0 {
        EarliestWithOpenTime(cal, start, due, y);
        EarliestWithOpenTime(cal, start, y, due);
      }
    }
  }

  lemma DeadlineExists(cal: Calendar, start: int, minutes: int)
    requires Valid(cal)
    ensures exists due :: Deadline(cal, start, minutes, due)
  {
    SpendingStarts(cal, start, minutes);
    if minutes > 0 {
      SpendingEnds(cal, start, minutes, NextOpen(cal, start), minutes);
    }
  }

  lemma {:induction false} SpendingEnds(cal: Calendar, start: int, minutes: int, t: int, remaining: int)
    requires Valid(cal) && remaining > 0 && Spending(cal, start, minutes, t, remaining)
    ensures exists due :: Deadline(cal, start, minutes, due)
    decreases remaining, MinutesLeft(cal, t) == 0
  {
    if remaining <= MinutesLeft(cal, t) {
      SpendWithinDay(cal, start, minutes, t, remaining);
    } else {
      SpendRestOfDay(cal, start, minutes, t, remaining);
      SpendingEnds(cal, start, minutes, NextOpen(cal, OpenAt(cal, DayOf(t) + 1)), remaining - MinutesLeft(cal, t));
    }
  }

  /** The instant from which a deadline is counted, and the time left on that day. */
  ghost function First(cal: Calendar, start: int): int
    requires Valid(cal)
  {
    NextOpen(cal, start)
  }

  ghost function LeftOnFirstDay(cal: Calendar, start: int): int
    requires Valid(cal)
  {
    CloseAt(cal, DayOf(First(cal, start))) - First(cal, start)
  }

  lemma DeadlineOpenTime(cal: Calendar, start: int, minutes: int)
    requires Valid(cal) && minutes >= 0
    ensures start <= First(cal, start) <= DueDate(cal, start, minutes)
    ensures OpenTime(cal, start, DueDate(cal, start, minutes)) == Budget(cal, First(cal, start), minutes)
  {
    assert Deadline(cal, start, minutes, DueDate(cal, start, minutes));
    OpenTimeWhenClosed(cal, start, First(cal, start));
  }

  // ---------- exactness ----------

  /** A deadline is on the first open day exactly when its minutes fit before closing. */
  lemma OnFirstDayIff(cal: Calendar, start: int, minutes: int)
    requires Valid(cal) && minutes >= 0
    ensures DueDate(cal, start, minutes) <= CloseAt(cal, DayOf(First(cal, start)))
            <==> minutes * MINUTE <= LeftOnFirstDay(cal, start)
  {
    var f, due := First(cal, start), DueDate(cal, start, minutes);
    var close := CloseAt(cal, DayOf(f));
    DeadlineOpenTime(cal, start, minutes);
    RestOfDayIsOpen(cal, f, f);
    OpenTimeWhenClosed(cal, start, f);
    OpenTimeSplits(cal, start, f, close);
    assert OpenTime(cal, start, close) == LeftOnFirstDay(cal, start);
    if minutes * MINUTE <= LeftOnFirstDay(cal, start) {
      if minutes > 0 {
        EarliestWithOpenTime(cal, start, due, close);
      }
    } else if due <= close {
      OpenTimeSplits(cal, start, due, close);
    }
  }

  /** The open time between start and deadline is the requested minutes plus a loss: nothing
      on the first open day, and otherwise what that day has beyond whole minutes. */
  lemma DeadlineIsExact(cal: Calendar, start: int, minutes: int)
    requires Valid(cal) && minutes >= 0
    ensures var f, due := First(cal, start), DueDate(cal, start, minutes);
            var loss := OpenTime(cal, start, due) - minutes * MINUTE;
            && loss == (if due <= CloseAt(cal, DayOf(f)) then 0 else LeftOnFirstDay(cal, start) % MINUTE)
            && 0 <= loss < MINUTE
            && (start % MINUTE == 0 ==> loss == 0)
  {
    DeadlineOpenTime(cal, start, minutes);
    OnFirstDayIff(cal, start, minutes);
    if start % MINUTE == 0 {
      AlignedStart(cal, start);
    }
  }

  /** For example: half a minute after opening, a whole day's minutes lose half a minute. */
  lemma HalfMinuteIsLost(cal: Calendar, d: int)
    requires Valid(cal) && Business(cal, d)
    ensures var start := OpenAt(cal, d) + MINUTE / 2;
            OpenTime(cal, start, DueDate(cal, start, OpenMinutesPerDay(cal)))
            == OpenMinutesPerDay(cal) * MINUTE + MINUTE / 2
  {
    var start := OpenAt(cal, d) + MINUTE / 2;
    OpenIffWithinHours(cal, d, start);
    FirstOpenIsUnique(cal, start, start);
    HalfMinuteLeft(OpenMinutesPerDay(cal), LeftOnFirstDay(cal, start));
    DeadlineIsExact(cal, start, OpenMinutesPerDay(cal));
    OnFirstDayIff(cal, start, OpenMinutesPerDay(cal));
  }

  lemma HalfMinuteLeft(minutes: int, left: int)
    requires left == minutes * MINUTE - MINUTE / 2
    ensures left < minutes * MINUTE && left % MINUTE == MINUTE / 2
  {
    assert left == (minutes - 1) * MINUTE + MINUTE / 2;
  }

  lemma AlignedStart(cal: Calendar, start: int)
    requires Valid(cal) && start % MINUTE == 0
    ensures LeftOnFirstDay(cal, start) % MINUTE == 0
  {
    var f := First(cal, start);
    OpeningIsAligned(cal, DayOf(f));
    ClosingIsAligned(cal, DayOf(f));
    DifferenceIsAligned(CloseAt(cal, DayOf(f)), f);
  }

  lemma ClosingIsAligned(cal: Calendar, d: int)
    ensures CloseAt(cal, d) % MINUTE == 0
  {
    assert CloseAt(cal, d) == (d * 1440 + cal.endHour * 60) * MINUTE;
  }

  lemma DifferenceIsAligned(a: int, b: int)
    requires a % MINUTE == 0 && b % MINUTE == 0
    ensures (a - b) % MINUTE == 0
  {
  }

  // ---------- composition ----------

  /** Spending a minutes and then b more is spending a + b at once. */
  lemma DeadlinesCompose(cal: Calendar, start: int, a: int, b: int)
    requires Valid(cal) && a >= 0 && b > 0
    ensures DueDate(cal, DueDate(cal, start, a), b) == DueDate(cal, start, a + b)
  {
    var x := DueDate(cal, start, a);
    var y := DueDate(cal, x, b);
    DeadlineOpenTime(cal, start, a);
    DeadlineOpenTime(cal, x, b);
    OpenTimeSplits(cal, start, x, y);
    BudgetsAdd(cal, start, a, b);
    assert Deadline(cal, x, b, y);
    assert Deadline(cal, start, a + b, y);
  }

  lemma BudgetsAdd(cal: Calendar, start: int, a: int, b: int)
    requires Valid(cal) && a >= 0 && b > 0
    ensures Budget(cal, First(cal, start), a) + Budget(cal, First(cal, DueDate(cal, start, a)), b)
            == Budget(cal, First(cal, start), a + b)
  {
    var f, x := First(cal, start), DueDate(cal, start, a);
    var g := First(cal, x);
    DeadlineOpenTime(cal, start, a);
    OnFirstDayIff(cal, start, a);
    if x < CloseAt(cal, DayOf(f)) {
      WithinFirstDay(cal, start, a);
      SameFirstDay(cal, f, x);
      BudgetFromLaterInDay(cal, f, a, b);
    } else if x == CloseAt(cal, DayOf(f)) {
      NextAfterClosing(cal, DayOf(f));
      NoLossFromOpening(cal, g, b);
      WithinFirstDay(cal, start, a);
      BudgetPastFirstDay(cal, f, a, b);
    } else {
      AlignedAfterFirstDay(cal, start, a);
      AlignedBudget(cal, x, b);
      BudgetPastFirstDay(cal, f, a, b);
    }
  }

  lemma BudgetFromLaterInDay(cal: Calendar, f: int, a: int, b: int)
    requires a >= 0 && b > 0
    requires var x := f + a * MINUTE; DayOf(x) == DayOf(f) && x < CloseAt(cal, DayOf(f))
    ensures Budget(cal, f, a) + Budget(cal, f + a * MINUTE, b) == Budget(cal, f, a + b)
  {
    var left := CloseAt(cal, DayOf(f)) - f;
    assert (a + b) * MINUTE == a * MINUTE + b * MINUTE;
    assert (left - a * MINUTE) % MINUTE == left % MINUTE;
  }

  lemma BudgetPastFirstDay(cal: Calendar, f: int, a: int, b: int)
    requires a >= 0 && b > 0 && a * MINUTE >= CloseAt(cal, DayOf(f)) - f
    ensures Budget(cal, f, a) + b * MINUTE == Budget(cal, f, a + b)
  {
    assert (a + b) * MINUTE == a * MINUTE + b * MINUTE;
  }

  /** On the first open day a deadline is elapsed time from the first open instant. */
  lemma WithinFirstDay(cal: Calendar, start: int, minutes: int)
    requires Valid(cal) && minutes >= 0
    requires DueDate(cal, start, minutes) <= CloseAt(cal, DayOf(First(cal, start)))
    ensures DueDate(cal, start, minutes) == First(cal, start) + minutes * MINUTE
    ensures DueDate(cal, start, minutes) < CloseAt(cal, DayOf(First(cal, start)))
            ==> First(cal, DueDate(cal, start, minutes)) == DueDate(cal, start, minutes)
  {
    var f, due := First(cal, start), DueDate(cal, start, minutes);
    OnFirstDayIff(cal, start, minutes);
    DeadlineOpenTime(cal, start, minutes);
    forall x | f <= x < CloseAt(cal, DayOf(f)) ensures IsOpen(cal, x) {
      OpenIffWithinHours(cal, DayOf(f), x);
    }
    OpenTimeWhenClosed(cal, start, f);
    OpenTimeSplits(cal, start, f, due);
    OpenTimeWhenOpen(cal, f, due);
    if due < CloseAt(cal, DayOf(f)) {
      FirstOpenIsUnique(cal, due, due);
    }
  }

  /** Past the first open day a deadline is a whole number of minutes after an opening. */
  lemma AlignedAfterFirstDay(cal: Calendar, start: int, minutes: int)
    requires Valid(cal) && minutes >= 0
    requires DueDate(cal, start, minutes) > CloseAt(cal, DayOf(First(cal, start)))
    ensures DueDate(cal, start, minutes) % MINUTE == 0
  {
    SpendingStarts(cal, start, minutes);
    var f, due := First(cal, start), DueDate(cal, start, minutes);
    OnFirstDayIff(cal, start, minutes);
    SpendRestOfDay(cal, start, minutes, f, minutes);
    var next := NextOpen(cal, OpenAt(cal, DayOf(f) + 1));
    RestOfDayIsOpen(cal, f, f);
    OpeningIsAligned(cal, DayOf(next));
    AlignedSpending(cal, start, minutes, next, minutes - MinutesLeft(cal, f));
  }

  lemma {:induction false} AlignedSpending(cal: Calendar, start: int, minutes: int, t: int, remaining: int)
    requires Valid(cal) && remaining > 0 && Spending(cal, start, minutes, t, remaining)
    requires t % MINUTE == 0
    ensures DueDate(cal, start, minutes) % MINUTE == 0
    decreases remaining, MinutesLeft(cal, t) == 0
  {
    if remaining <= MinutesLeft(cal, t) {
      SpendWithinDay(cal, start, minutes, t, remaining);
      StaysAligned(t, remaining);
      assert Deadline(cal, start, minutes, t + remaining * MINUTE);
    } else {
      SpendRestOfDay(cal, start, minutes, t, remaining);
      RestOfDayIsOpen(cal, t, t);
      var next := NextOpen(cal, OpenAt(cal, DayOf(t) + 1));
      OpeningIsAligned(cal, DayOf(next));
      AlignedSpending(cal, start, minutes, next, remaining - MinutesLeft(cal, t));
    }
  }

  lemma OpeningIsAligned(cal: Calendar, d: int)
    ensures OpenAt(cal, d) % MINUTE == 0
  {
    assert OpenAt(cal, d) == (d * 1440 + cal.startHour * 60) * MINUTE;
  }

  lemma StaysAligned(t: int, minutes: int)
    requires t % MINUTE == 0
    ensures (t + minutes * MINUTE) % MINUTE == 0
  {
    assert t + minutes * MINUTE == (t / MINUTE + minutes) * MINUTE;
  }

  lemma AlignedBudget(cal: Calendar, start: int, minutes: int)
    requires Valid(cal) && start % MINUTE == 0
    ensures Budget(cal, First(cal, start), minutes) == minutes * MINUTE
  {
    AlignedStart(cal, start);
  }

  // ---------- order ----------

  lemma DeadlineStrictlyIncreasesInMinutes(cal: Calendar, start: int, m: int, n: int)
    requires Valid(cal) && 0 <= m < n
    ensures DueDate(cal, start, m) < DueDate(cal, start, n)
  {
    DeadlineOpenTime(cal, start, m);
    DeadlineOpenTime(cal, start, n);
    var x, y := DueDate(cal, start, m), DueDate(cal, start, n);
    assert Budget(cal, First(cal, start), m) < Budget(cal, First(cal, start), n);
    if y <= x {
      OpenTimeSplits(cal, start, y, x);
    }
  }

  lemma DeadlineNeverBefore24x7(cal: Calendar, start: int, minutes: int)
    requires Valid(cal) && minutes >= 0
    ensures DueDate(cal, start, minutes) >= start + minutes * MINUTE
  {
    DeadlineOpenTime(cal, start, minutes);
    OpenTimeAtMostElapsed(cal, start, DueDate(cal, start, minutes));
  }

  lemma DeadlineMonotoneInStart(cal: Calendar, s: int, t: int, minutes: int)
    requires Valid(cal) && s <= t
    ensures DueDate(cal, s, minutes) <= DueDate(cal, t, minutes)
  {
    var f, g := First(cal, s), First(cal, t);
    var x, y := DueDate(cal, s, minutes), DueDate(cal, t, minutes);
    assert f <= g by { assert g < f ==> !IsOpen(cal, g); }
    assert Deadline(cal, s, minutes, x) && Deadline(cal, t, minutes, y);
    if minutes > 0 {
      if DayOf(f) == DayOf(g) && minutes * MINUTE <= LeftOnFirstDay(cal, s) {
        OnFirstDayIff(cal, s, minutes);
        WithinFirstDay(cal, s, minutes);
        DeadlineNeverBefore24x7(cal, g, minutes);
        SameDeadlineFromFirst(cal, t, minutes);
      } else {
        OpenTimeToLaterDeadline(cal, s, t, minutes);
        LaterStartSkipsMore(cal, f, g);
        SkippedTimeCoversLoss(cal, f, g, minutes, OpenTime(cal, f, g));
        EarliestWithOpenTime(cal, s, x, y);
      }
    }
  }

  lemma SkippedTimeCoversLoss(cal: Calendar, f: int, g: int, minutes: int, skipped: int)
    requires Valid(cal) && IsOpen(cal, f) && IsOpen(cal, g) && f <= g && minutes > 0
    requires DayOf(f) == DayOf(g) ==> skipped == g - f && minutes * MINUTE > CloseAt(cal, DayOf(f)) - f
    requires DayOf(f) != DayOf(g) ==> skipped >= CloseAt(cal, DayOf(f)) - f
    ensures skipped + Budget(cal, g, minutes) >= Budget(cal, f, minutes)
  {
  }

  lemma SameDeadlineFromFirst(cal: Calendar, t: int, minutes: int)
    requires Valid(cal) && minutes > 0
    ensures DueDate(cal, First(cal, t), minutes) == DueDate(cal, t, minutes)
  {
    DeadlinesCompose(cal, t, 0, minutes);
    assert Deadline(cal, t, 0, First(cal, t));
  }

  lemma OpenTimeToLaterDeadline(cal: Calendar, s: int, t: int, minutes: int)
    requires Valid(cal) && s <= t && minutes > 0 && First(cal, s) <= First(cal, t)
    ensures OpenTime(cal, s, DueDate(cal, t, minutes))
            == OpenTime(cal, First(cal, s), First(cal, t)) + Budget(cal, First(cal, t), minutes)
  {
    var f, g, y := First(cal, s), First(cal, t), DueDate(cal, t, minutes);
    DeadlineOpenTime(cal, t, minutes);
    OpenTimeWhenClosed(cal, s, f);
    OpenTimeWhenClosed(cal, t, g);
    OpenTimeSplits(cal, s, f, y);
    OpenTimeSplits(cal, f, g, y);
    OpenTimeSplits(cal, t, g, y);
  }

  /** The open time skipped by starting later covers what the earlier deadline may lose. */
  lemma LaterStartSkipsMore(cal: Calendar, f: int, g: int)
    requires Valid(cal) && IsOpen(cal, f) && IsOpen(cal, g) && f <= g
    ensures DayOf(f) == DayOf(g) ==> OpenTime(cal, f, g) == g - f
    ensures DayOf(f) != DayOf(g) ==> OpenTime(cal, f, g) >= CloseAt(cal, DayOf(f)) - f
  {
    if DayOf(f) == DayOf(g) {
      SameFirstDay(cal, f, g);
    } else {
      RestOfDayIsOpen(cal, f, f);
      assert CloseAt(cal, DayOf(f)) <= g;
      OpenTimeSplits(cal, f, CloseAt(cal, DayOf(f)), g);
    }
  }

  lemma SameFirstDay(cal: Calendar, f: int, g: int)
    requires Valid(cal) && IsOpen(cal, f) && f <= g < CloseAt(cal, DayOf(f))
    ensures DayOf(g) == DayOf(f)
    ensures OpenTime(cal, f, g) == g - f
  {
    forall x | f <= x <= g ensures IsOpen(cal, x) && DayOf(x) == DayOf(f) {
      OpenIffWithinHours(cal, DayOf(f), x);
    }
    OpenTimeWhenOpen(cal, f, g);
  }

  // ---------- bounds ----------

  /** A deadline is on a business day, between opening and closing time inclusive; the
      instant before it, unless no minutes were asked for, decides the day.  Day 0 is a Thursday. */
  lemma DeadlineWithinBusinessHours(cal: Calendar, start: int, minutes: int)
    requires Valid(cal)
    ensures var due := DueDate(cal, start, minutes);
            var d := (if minutes <= 0 then due else due - 1) / 86400000;
            && (d + 4) % 7 in cal.businessDays
            && d * 86400000 + cal.startHour * 3600000 <= due <= d * 86400000 + cal.endHour * 3600000
  {
    var due := DueDate(cal, start, minutes);
    assert Deadline(cal, start, minutes, due);
    var d := DayOf(if minutes <= 0 then due else due - 1);
    assert Business(cal, d) && OpenAt(cal, d) <= due <= CloseAt(cal, d);
  }

  // ---------- which days are business days ----------

  /** When the desk is open: by the weekday and by the time of day. */
  lemma OpenIff(cal: Calendar, t: int)
    ensures IsOpen(cal, t)
            <==> (t / 86400000 + 4) % 7 in cal.businessDays
                 && cal.startHour * 3600000 <= t % 86400000 < cal.endHour * 3600000
  {
    assert t == t / 86400000 * 86400000 + t % 86400000;
  }

  /** A desk that is open on one weekday only, and closes before midnight, is due on that day. */
  lemma DueOnTheOnlyWeekday(w: int, startHour: int, endHour: int, start: int, minutes: int)
    requires 0 <= w < 7 && 0 <= startHour < endHour < 24
    ensures Valid(Calendar(startHour, endHour, [w]))
    ensures (DueDate(Calendar(startHour, endHour, [w]), start, minutes) / 86400000) % 7 == (w + 3) % 7
  {
    var cal := Calendar(startHour, endHour, [w]);
    assert w in cal.businessDays;
    var due := DueDate(cal, start, minutes);
    var d := (if minutes <= 0 then due else due - 1) / 86400000;
    DeadlineWithinBusinessHours(cal, start, minutes);
    DayIs(due, d);
    assert (d + 4) % 7 == w;
  }

  /** A ticket of the weekend, under a desk open from Monday to Friday, is due on Monday at
      opening plus its minutes, if they fit; days 2 and 3 of each week are its weekend. */
  lemma WeekendIsDueOnMonday(startHour: int, endHour: int, start: int, minutes: int)
    requires 0 <= startHour < endHour <= 24 && (start / 86400000) % 7 in {2, 3}
    requires 0 < minutes <= (endHour - startHour) * 60
    ensures Valid(Calendar(startHour, endHour, [1, 2, 3, 4, 5]))
    ensures var monday := start / 86400000 + (if (start / 86400000) % 7 == 2 then 2 else 1);
            && monday % 7 == 4
            && DueDate(Calendar(startHour, endHour, [1, 2, 3, 4, 5]), start, minutes)
               == monday * 86400000 + startHour * 3600000 + minutes * 60000
  {
    var cal := Calendar(startHour, endHour, [1, 2, 3, 4, 5]);
    assert 1 in cal.businessDays;
    var monday := start / 86400000 + (if (start / 86400000) % 7 == 2 then 2 else 1);
    MondayAfter(start / 86400000, monday);
    assert Business(cal, monday) && forall x :: DayOf(start) <= x < monday ==> !Business(cal, x);
    FirstOpenIsOpening(cal, start, monday);
    OnFirstDayIff(cal, start, minutes);
    WithinFirstDay(cal, start, minutes);
  }

  lemma MondayAfter(d: int, monday: int)
    requires d % 7 in {2, 3} && monday == d + if d % 7 == 2 then 2 else 1
    ensures monday % 7 == 4 && Weekday(monday) == 1
    ensures forall x :: d <= x < monday ==> Weekday(x) == 6 || Weekday(x) == 0
  {
  }

  lemma FirstOpenIsOpening(cal: Calendar, start: int, monday: int)
    requires Valid(cal) && Business(cal, monday) && DayOf(start) < monday
    requires forall x :: DayOf(start) <= x < monday ==> !Business(cal, x)
    ensures First(cal, start) == OpenAt(cal, monday) && DayOf(First(cal, start)) == monday
  {
    ClosedThroughDaysOff(cal, start, monday);
    OpenIffWithinHours(cal, monday, OpenAt(cal, monday));
    FirstOpenIsUnique(cal, start, OpenAt(cal, monday));
  }

  ghost function OpenMinutesPerDay(cal: Calendar): int { (cal.endHour - cal.startHour) * 60 }

  /** The number of open days that so many minutes take up, the last one perhaps in part. */
  ghost function StartedDays(cal: Calendar, minutes: int): int
    requires Valid(cal)
  {
    (minutes + OpenMinutesPerDay(cal) - 1) / OpenMinutesPerDay(cal)
  }

  /** The deadline is no later than closing time, one week per started day of minutes after
      the first open day. */
  lemma DeadlineUpperBound(cal: Calendar, start: int, minutes: int)
    requires Valid(cal) && minutes >= 0
    ensures DueDate(cal, start, minutes)
            <= CloseAt(cal, DayOf(First(cal, start)) + 7 * StartedDays(cal, minutes))
  {
    var f, days := First(cal, start), StartedDays(cal, minutes);
    WeeksCoverBudget(cal, f, minutes, days);
    var due, bound := DueDate(cal, start, minutes), CloseAt(cal, DayOf(f) + 7 * days);
    DeadlineOpenTime(cal, start, minutes);
    OpenTimeWhenClosed(cal, start, f);
    OpenTimeSplits(cal, start, f, bound);
    if minutes > 0 {
      EarliestWithOpenTime(cal, start, due, bound);
    }
  }

  lemma WeeksCoverBudget(cal: Calendar, f: int, minutes: int, days: int)
    requires Valid(cal) && IsOpen(cal, f) && minutes >= 0 && days == StartedDays(cal, minutes)
    ensures f < CloseAt(cal, DayOf(f) + 7 * days)
    ensures OpenTime(cal, f, CloseAt(cal, DayOf(f) + 7 * days)) >= Budget(cal, f, minutes)
  {
    var perDay := OpenMinutesPerDay(cal);
    RoundedUp(minutes, perDay);
    InMilliseconds(minutes, days, perDay);
    OpenTimeOfWeeks(cal, f, days, perDay * MINUTE);
    BudgetAtMost(cal, f, minutes);
  }

  lemma InMilliseconds(minutes: int, days: int, perDay: int)
    requires minutes <= days * perDay
    ensures minutes * MINUTE <= days * (perDay * MINUTE)
  {
    assert days * (perDay * MINUTE) == days * perDay * MINUTE;
  }

  lemma BudgetAtMost(cal: Calendar, f: int, minutes: int)
    requires f <= CloseAt(cal, DayOf(f))
    ensures Budget(cal, f, minutes) <= minutes * MINUTE + (CloseAt(cal, DayOf(f)) - f)
  {
  }

  lemma RoundedUp(m: int, p: int)
    requires m >= 0 && p > 0
    ensures (m + p - 1) / p >= 0 && (m + p - 1) / p * p >= m
  {
    var q := (m + p - 1) / p;
    assert q * p + (m + p - 1) % p == m + p - 1;
  }

  lemma {:induction false} OpenTimeOfWeeks(cal: Calendar, f: int, weeks: int, openPerDay: int)
    requires Valid(cal) && IsOpen(cal, f) && weeks >= 0
    requires openPerDay == OpenMinutesPerDay(cal) * MINUTE
    ensures f < CloseAt(cal, DayOf(f) + 7 * weeks)
    ensures OpenTime(cal, f, CloseAt(cal, DayOf(f) + 7 * weeks))
            >= CloseAt(cal, DayOf(f)) - f + weeks * openPerDay
  {
    var d := DayOf(f);
    if weeks == 0 {
      RestOfDayIsOpen(cal, f, f);
    } else {
      OpenTimeOfWeeks(cal, f, weeks - 1, openPerDay);
      OneMore(weeks, openPerDay);
      OneMoreWeek(cal, f, d, weeks, openPerDay, (weeks - 1) * openPerDay);
    }
  }

  lemma OneMoreWeek(cal: Calendar, f: int, d: int, weeks: int, openPerDay: int, sofar: int)
    requires Valid(cal) && Business(cal, d) && openPerDay == OpenMinutesPerDay(cal) * MINUTE
    requires f < CloseAt(cal, d + 7 * (weeks - 1))
    requires OpenTime(cal, f, CloseAt(cal, d + 7 * (weeks - 1))) >= CloseAt(cal, d) - f + sofar
    ensures f < CloseAt(cal, d + 7 * weeks)
    ensures OpenTime(cal, f, CloseAt(cal, d + 7 * weeks)) >= CloseAt(cal, d) - f + sofar + openPerDay
  {
    SameWeekday(d, weeks);
    NextWeekAdds(cal, f, d + 7 * weeks);
  }

  lemma SameWeekday(d: int, weeks: int)
    ensures Weekday(d + 7 * weeks) == Weekday(d)
  {
  }

  lemma NextWeekAdds(cal: Calendar, f: int, e: int)
    requires Valid(cal) && Business(cal, e) && f < CloseAt(cal, e - 7)
    ensures f < CloseAt(cal, e)
    ensures OpenTime(cal, f, CloseAt(cal, e))
            >= OpenTime(cal, f, CloseAt(cal, e - 7)) + OpenMinutesPerDay(cal) * MINUTE
  {
    assert CloseAt(cal, e - 7) <= OpenAt(cal, e) < CloseAt(cal, e);
    OpenTimeOfDay(cal, e);
    OpenTimeSplits(cal, f, CloseAt(cal, e - 7), CloseAt(cal, e));
    OpenTimeSplits(cal, CloseAt(cal, e - 7), OpenAt(cal, e), CloseAt(cal, e));
  }

  lemma OneMore(n: int, x: int)
    ensures n * x == (n - 1) * x + x
  {
  }

  lemma OpenTimeOfDay(cal: Calendar, d: int)
    requires Valid(cal) && Business(cal, d)
    ensures OpenTime(cal, OpenAt(cal, d), CloseAt(cal, d)) == OpenMinutesPerDay(cal) * MINUTE
  {
    var open, close := OpenAt(cal, d), CloseAt(cal, d);
    forall x | open <= x < close ensures IsOpen(cal, x) {
      OpenIffWithinHours(cal, d, x);
    }
    OpenTimeWhenOpen(cal, open, close);
  }
}
