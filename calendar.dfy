// The date helpers of gym_supervisor/bot.py on naive local timestamps.
// A timestamp is a whole number of seconds since 0001-01-01 00:00 of the
// proleptic Gregorian calendar, so day `t / 86400` is Python's ordinal minus 1
// and, since 0001-01-01 was a Monday, its remainder modulo 7 is `weekday()`.

module Calendar {
  import opened Text
  import opened Wrappers

  const SecondsPerDay := 86400
  const SecondsPerWeek := 7 * SecondsPerDay

  /** `date.toordinal()` of the day holding `t`. */
  function DayOrdinal(t: int): int {
    t / SecondsPerDay + 1
  }

  /** `datetime.weekday()`: Monday is 0, Sunday is 6. */
  function Weekday(t: int): (d: nat)
    ensures d < 7
  {
    (t / SecondsPerDay) % 7
  }

  /** Midnight opening the day of ordinal `ordinal`. */
  function Midnight(ordinal: int): int {
    (ordinal - 1) * SecondsPerDay
  }

  /** `_week_start`: midnight of the Monday of the week holding `t`. */
  function WeekStart(t: int): int {
    Midnight(DayOrdinal(t) - Weekday(t))
  }

  /** `_week_start_date`: the ordinal of that Monday. */
  function WeekStartDate(t: int): int {
    DayOrdinal(t) - Weekday(t)
  }

  /** The week start is a Monday midnight at most a week before `t`, and the date
      of it is the date the nudge markers are keyed by. */
  lemma WeekStartBounds(t: int)
    ensures WeekStart(t) <= t < WeekStart(t) + SecondsPerWeek
    ensures WeekStart(t) % SecondsPerDay == 0
    ensures Weekday(WeekStart(t)) == 0
    ensures DayOrdinal(WeekStart(t)) == WeekStartDate(t)
  {
    var d := t / SecondsPerDay;
    var w := d % 7;
    assert WeekStart(t) == (d - w) * SecondsPerDay;
    assert (d - w) * SecondsPerDay / SecondsPerDay == d - w;
  }

  /** Every instant of the week `[WeekStart(t), WeekStart(t) + 7 days)` has the same
      week start; so the week start of a week start is itself. */
  lemma SameWeek(t: int, u: int)
    requires WeekStart(t) <= u < WeekStart(t) + SecondsPerWeek
    ensures WeekStart(u) == WeekStart(t)
    ensures WeekStartDate(u) == WeekStartDate(t)
  {
    WeekStartBounds(t);
    var m := (t / SecondsPerDay) - (t / SecondsPerDay) % 7;
    assert WeekStart(t) == m * SecondsPerDay;
    var k := u / SecondsPerDay - m;
    assert 0 <= k < 7 by {
      assert m * SecondsPerDay <= u < (m + 7) * SecondsPerDay;
    }
    assert m % 7 == 0;
    assert (u / SecondsPerDay) % 7 == k;
  }

  // ---- the calendar ---------------------------------------------------------------

  /** A civil date: the arguments of `date(year, month, day)`. */
  datatype Date = Date(year: int, month: int, day: int)

  predicate IsLeap(y: int) {
    y % 4 == 0 && (y % 100 != 0 || y % 400 == 0)
  }

  function DaysInMonth(y: int, m: int): (n: nat)
    requires 1 <= m <= 12
    ensures 28 <= n <= 31
  {
    if m == 2 then (if IsLeap(y) then 29 else 28)
    else if m == 4 || m == 6 || m == 9 || m == 11 then 30
    else 31
  }

  function DaysInYear(y: int): nat {
    if IsLeap(y) then 366 else 365
  }

  /** Days of year `y` before the first of month `m`. */
  function DaysBeforeMonth(y: int, m: int): nat
    requires 1 <= m <= 12
  {
    if m == 1 then 0 else DaysBeforeMonth(y, m - 1) + DaysInMonth(y, m - 1)
  }

  /** Days before January 1 of year `y`, counted from 0001-01-01. */
  function DaysBeforeYear(y: int): int {
    var p := y - 1;
    p * 365 + p / 4 - p / 100 + p / 400
  }

  /** `date(y, m, d).toordinal()`. */
  function Ordinal(d: Date): int
    requires 1 <= d.month <= 12
  {
    DaysBeforeYear(d.year) + DaysBeforeMonth(d.year, d.month) + d.day
  }

  /** A date Python's `date` accepts: year 1 to 9999, a real day of its month. */
  predicate ValidDate(d: Date) {
    1 <= d.year <= 9999 && 1 <= d.month <= 12 && 1 <= d.day <= DaysInMonth(d.year, d.month)
  }

  /** The twelve months make up the year. */
  lemma MonthsMakeYear(y: int)
    ensures DaysBeforeMonth(y, 12) + DaysInMonth(y, 12) == DaysInYear(y)
  {
    var feb := DaysInMonth(y, 2);
    assert DaysBeforeMonth(y, 2) == 31;
    assert DaysBeforeMonth(y, 3) == 31 + feb;
    assert DaysBeforeMonth(y, 4) == 31 + feb + 31;
    assert DaysBeforeMonth(y, 5) == 31 + feb + 31 + 30;
    assert DaysBeforeMonth(y, 6) == 31 + feb + 31 + 30 + 31;
    assert DaysBeforeMonth(y, 7) == 31 + feb + 31 + 30 + 31 + 30;
    assert DaysBeforeMonth(y, 8) == 31 + feb + 31 + 30 + 31 + 30 + 31;
    assert DaysBeforeMonth(y, 9) == 31 + feb + 31 + 30 + 31 + 30 + 31 + 31;
    assert DaysBeforeMonth(y, 10) == 31 + feb + 31 + 30 + 31 + 30 + 31 + 31 + 30;
    assert DaysBeforeMonth(y, 11) == 31 + feb + 31 + 30 + 31 + 30 + 31 + 31 + 30 + 31;
    assert DaysBeforeMonth(y, 12) == 31 + feb + 31 + 30 + 31 + 30 + 31 + 31 + 30 + 31 + 30;
  }

  lemma YearLength(y: int)
    ensures DaysBeforeYear(y + 1) == DaysBeforeYear(y) + DaysInYear(y)
  {
    var p := y - 1;
    NextQuotientBy4(p);
    NextQuotientBy100(p);
    NextQuotientBy400(p);
    assert y % 400 == 0 ==> y % 100 == 0 && y % 4 == 0 by {
      if y % 400 == 0 {
        assert y == 400 * (y / 400);
        assert y == 100 * (4 * (y / 400)) && y == 4 * (100 * (y / 400));
      }
    }
    assert y % 100 == 0 ==> y % 4 == 0 by {
      if y % 100 == 0 {
        assert y == 4 * (25 * (y / 100));
      }
    }
  }

  /** Going from `p` to `p + 1` raises the quotient by 4, 100 or 400 exactly when
      `p + 1` is a multiple of it. */
  lemma NextQuotientBy4(p: int)
    ensures (p + 1) / 4 == p / 4 + (if (p + 1) % 4 == 0 then 1 else 0)
  {
  }

  lemma NextQuotientBy100(p: int)
    ensures (p + 1) / 100 == p / 100 + (if (p + 1) % 100 == 0 then 1 else 0)
  {
  }

  lemma NextQuotientBy400(p: int)
    ensures (p + 1) / 400 == p / 400 + (if (p + 1) % 400 == 0 then 1 else 0)
  {
  }

  // ---- windows ------------------------------------------------------------------

  /** A reporting window `[start, end)` and the name `_summary_window` gives it. */
  datatype Window = Window(name: string, start: int, end: int)

  /** The first of the month before `now`'s month, and the window from its midnight
      to midnight of the first of `now`'s month. */
  datatype MonthWindow = MonthWindow(first: Date, start: int, end: int)

  /** `_previous_month_window(now)` for a `now` in year `year`, month `month`:
      building `date(0, 12, 1)` for January of year 1 raises. The `%B %Y` label
      is left to the caller. */
  function PreviousMonthWindow(year: int, month: int): (r: Result<MonthWindow, string>)
    requires 1 <= year <= 9999 && 1 <= month <= 12
    ensures r.Failure? <==> year == 1 && month == 1
    ensures r.Success? ==> ValidDate(r.value.first) && r.value.first.day == 1
    ensures r.Success? && month > 1 ==> r.value.first == Date(year, month - 1, 1)
    ensures r.Success? && month == 1 ==> r.value.first == Date(year - 1, 12, 1)
  {
    var first := if month == 1 then Date(year - 1, 12, 1) else Date(year, month - 1, 1);
    if first.year < 1 then Failure("year 0 is out of range")
    else
      Success(MonthWindow(first, Midnight(Ordinal(first)), Midnight(Ordinal(Date(year, month, 1)))))
  }

  /** The window spans exactly the days of the previous month: it opens at the first
      of that month and is as many days long as that month has. */
  lemma PreviousMonthLength(year: int, month: int)
    requires 1 <= year <= 9999 && 1 <= month <= 12
    requires PreviousMonthWindow(year, month).Success?
    ensures var w := PreviousMonthWindow(year, month).value;
      w.end - w.start == DaysInMonth(w.first.year, w.first.month) * SecondsPerDay
      && Weekday(w.start) == (Ordinal(w.first) + 6) % 7
      && w.start % SecondsPerDay == 0
  {
    var w := PreviousMonthWindow(year, month).value;
    NextFirstOrdinal(year, month);
    MidnightFacts(Ordinal(w.first));
  }

  /** The first of a month lies as many days after the first of the month before
      as that month has. */
  lemma NextFirstOrdinal(year: int, month: int)
    requires 1 <= month <= 12
    ensures var prev := if month == 1 then Date(year - 1, 12, 1) else Date(year, month - 1, 1);
      Ordinal(Date(year, month, 1)) == Ordinal(prev) + DaysInMonth(prev.year, prev.month)
  {
    if month == 1 {
      MonthsMakeYear(year - 1);
      YearLength(year - 1);
    }
  }

  /** Midnight of a day is a whole number of days, the day's ordinal minus one. */
  lemma MidnightFacts(o: int)
    ensures Midnight(o) % SecondsPerDay == 0 && Midnight(o) / SecondsPerDay == o - 1
    ensures Weekday(Midnight(o)) == (o + 6) % 7
  {
    assert Midnight(o) == (o - 1) * SecondsPerDay;
  }

  /** `_summary_window(period)` at time `now`: the period name is stripped and
      lower-cased; any other name than week, month or quarter raises. */
  function SummaryWindow(period: string, now: int): (r: Result<Window, string>)
    ensures r.Success? ==> r.value.end == now && r.value.start < now
  {
    var p := Lower(Strip(period));
    if p == "week" then Success(Window("past week", now - 7 * SecondsPerDay, now))
    else if p == "month" then Success(Window("past month", now - 30 * SecondsPerDay, now))
    else if p == "quarter" then Success(Window("past quarter", now - 90 * SecondsPerDay, now))
    else Failure("invalid period")
  }

  /** The accepted period names, and the length of each window in days. */
  lemma SummaryWindowCases(period: string, now: int)
    ensures SummaryWindow(period, now).Success? <==> Lower(Strip(period)) in {"week", "month", "quarter"}
    ensures Lower(Strip(period)) == "week" ==> SummaryWindow(period, now).value.start == now - 7 * SecondsPerDay
    ensures Lower(Strip(period)) == "month" ==> SummaryWindow(period, now).value.start == now - 30 * SecondsPerDay
    ensures Lower(Strip(period)) == "quarter" ==> SummaryWindow(period, now).value.start == now - 90 * SecondsPerDay
  {
  }
}
