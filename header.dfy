/** The header's previous/next navigation over the current date. */
module Header {
  import opened CivilDates
  import opened AppointmentTypes

  datatype Direction = Prev | Next

  function Opposite(d: Direction): Direction
  {
    if d == Next then Prev else Next
  }

  /** `navigateDate`: a fresh copy of the current date moved by one day, one
      week or one month, as delivered to `onDateChange`. */
  function NavigateDate(currentDate: Date, viewMode: ViewMode, direction: Direction): Date
  {
    var sign := if direction == Next then 1 else -1;
    match viewMode
    case Day => SetDate(currentDate, currentDate.day + sign)
    case Week => SetDate(currentDate, currentDate.day + 7 * sign)
    case Month => SetMonth(currentDate, currentDate.month + sign)
  }

  /** Day mode moves to the next or the previous calendar day. */
  lemma DayNavigation(c: Date)
    ensures NavigateDate(c, Day, Next) == NextDay(c)
    ensures NavigateDate(c, Day, Prev) == PrevDay(c)
    ensures Ord(NavigateDate(c, Day, Next)) == Ord(c) + 1
    ensures Ord(NavigateDate(c, Day, Prev)) == Ord(c) - 1
  {
    SetDateShift(c, 1);
    SetDateShift(c, -1);
    NextDayOrd(c);
    PrevDayOrd(c);
    AddDaysByOrd(c, 1, NextDay(c));
    AddDaysByOrd(c, -1, PrevDay(c));
  }

  /** Week mode moves by exactly seven days and so keeps the weekday. */
  lemma WeekNavigation(c: Date, direction: Direction)
    ensures Ord(NavigateDate(c, Week, direction)) == Ord(c) + (if direction == Next then 7 else -7)
    ensures Weekday(NavigateDate(c, Week, direction)) == Weekday(c)
  {
    var k := if direction == Next then 7 else -7;
    var d := NavigateDate(c, Week, direction);
    assert d == SetDate(c, c.day + k);
    assert Ord(d) == Ord(c) + k by { SetDateShift(c, k); }
    ShiftByWeek(c, d, k);
  }

  /** Two dates a whole week apart fall on the same weekday. */
  lemma ShiftByWeek(c: Date, d: Date, k: int)
    requires k == 7 || k == -7
    requires Ord(d) == Ord(c) + k
    ensures Weekday(d) == Weekday(c)
  {
    var q := Ord(c) + 1;
    var t := if k == 7 then 1 else -1;
    assert Ord(d) + 1 == 7 * t + q;
    ModShift(t, q);
  }

  /** Day and week navigation are undone by navigating back. */
  lemma NavigateBack(c: Date, viewMode: ViewMode, direction: Direction)
    requires viewMode != Month
    ensures NavigateDate(NavigateDate(c, viewMode, direction), viewMode, Opposite(direction)) == c
  {
    var step := if viewMode == Day then 1 else 7;
    var k := if direction == Next then step else -step;
    var d := NavigateDate(c, viewMode, direction);
    assert d == SetDate(c, c.day + k);
    assert NavigateDate(d, viewMode, Opposite(direction)) == SetDate(d, d.day + -k);
    ShiftBack(c, k);
  }

  /** Moving the day of the month by `k` and then by `-k` returns to the
      starting date, across month and year ends. */
  lemma ShiftBack(c: Date, k: int)
    ensures var d := SetDate(c, c.day + k); SetDate(d, d.day + -k) == c
  {
    var d := SetDate(c, c.day + k);
    SetDateShift(c, k);
    SetDateShift(d, -k);
    AddDaysByOrd(d, -k, c);
  }

  /** Month mode, forward: the following month (December rolls into January
      of the next year) on the same day when that day exists there;
      otherwise the surplus days carry into the month after. */
  lemma NextMonthNavigation(c: Date)
    ensures var y, m := NextMonthYear(c.year, c.month), NextMonth(c.month);
            var r := NavigateDate(c, Month, Next);
            && (c.day <= DaysInMonth(y, m) ==> r == Civil(y, m, c.day))
            && (c.day > DaysInMonth(y, m) ==>
                  r == Civil(NextMonthYear(y, m), NextMonth(m), c.day - DaysInMonth(y, m)))
  {
    var y, m := NextMonthYear(c.year, c.month), NextMonth(c.month);
    assert NavigateDate(c, Month, Next) == AddDays(Civil(y, m, 1), c.day - 1);
    if c.day <= DaysInMonth(y, m) {
      InMonth(y, m, c.day - 1);
    } else {
      PastMonthEnd(y, m, c.day - 1 - DaysInMonth(y, m));
    }
  }

  /** Month mode, backward: the previous month (January rolls into December
      of the year before) on the same day when it exists there; otherwise
      the surplus days carry back into the current month. */
  lemma PrevMonthNavigation(c: Date)
    ensures var y, m := PrevMonthYear(c.year, c.month), PrevMonth(c.month);
            var r := NavigateDate(c, Month, Prev);
            && (c.day <= DaysInMonth(y, m) ==> r == Civil(y, m, c.day))
            && (c.day > DaysInMonth(y, m) ==> r == Civil(c.year, c.month, c.day - DaysInMonth(y, m)))
  {
    var y, m := PrevMonthYear(c.year, c.month), PrevMonth(c.month);
    assert NavigateDate(c, Month, Prev) == AddDays(Civil(y, m, 1), c.day - 1);
    if c.day <= DaysInMonth(y, m) {
      InMonth(y, m, c.day - 1);
    } else {
      assert NextMonthYear(y, m) == c.year && NextMonth(m) == c.month;
      PastMonthEnd(y, m, c.day - 1 - DaysInMonth(y, m));
    }
  }

  /** A day that every month has survives a month round trip. */
  lemma MonthNavigateBack(c: Date, direction: Direction)
    requires c.day <= 28
    ensures NavigateDate(NavigateDate(c, Month, direction), Month, Opposite(direction)) == c
  {
    var d := NavigateDate(c, Month, direction);
    if direction == Next {
      NextMonthNavigation(c);
      PrevMonthNavigation(d);
    } else {
      PrevMonthNavigation(c);
      NextMonthNavigation(d);
    }
  }

  /** From 31 January 2025 a month forward lands on 3 March (February has 28
      days), and a month back from there on 3 February: month navigation is
      not undone by navigating back. */
  lemma MonthOverflowExample()
    ensures NavigateDate(Civil(2025, 1, 31), Month, Next) == Civil(2025, 3, 3)
    ensures NavigateDate(Civil(2025, 3, 3), Month, Prev) == Civil(2025, 2, 3)
  {
    NextMonthNavigation(Civil(2025, 1, 31));
    PrevMonthNavigation(Civil(2025, 3, 3));
  }
}
