/** The calendar engine of the scheduling view: month and week grids,
    bucketing of appointments by start date, the sorted day list, the
    half-hour slot labels and slot matching, card heights, the conflict test
    and the drag-and-drop move. */
module Calendar {
  import opened Wrappers
  import opened Seqs
  import opened Text
  import opened CivilDates
  import opened ClockTimes
  import opened AppointmentTypes

  // ----- Date bucketing -----

  /** `apt => new Date(apt.start_time).toDateString() === d.toDateString()` */
  function OnDate(d: Date): Appointment -> bool
  {
    (a: Appointment) => StartDate(a) == d
  }

  /** The appointments whose start falls on `d`, in input order. */
  function Bucket(appointments: seq<Appointment>, d: Date): (r: seq<Appointment>)
    ensures forall a :: a in r <==> a in appointments && StartDate(a) == d
  {
    var r := Filter(appointments, OnDate(d));
    forall a ensures a in r <==> a in appointments && StartDate(a) == d {
      FilterMember(appointments, OnDate(d), a);
    }
    r
  }

  /** Bucketing keeps input order: the bucket of a concatenation is the
      concatenation of the buckets, and each appointment keeps its
      multiplicity when it starts on `d`. */
  lemma BucketOrder(xs: seq<Appointment>, ys: seq<Appointment>, d: Date, a: Appointment)
    ensures Bucket(xs + ys, d) == Bucket(xs, d) + Bucket(ys, d)
    ensures multiset(Bucket(xs, d))[a] == if StartDate(a) == d then multiset(xs)[a] else 0
  {
    FilterConcat(xs, ys, OnDate(d));
    FilterCount(xs, OnDate(d), a);
  }

  /** Cells on consecutive days whose lists are the buckets of their dates. */
  ghost predicate ConsecutiveCells(days: seq<CalendarDay>, appointments: seq<Appointment>)
  {
    && |days| > 0
    && (forall k :: 0 <= k < |days| ==> Ord(days[k].date) == Ord(days[0].date) + k)
    && (forall k :: 0 <= k < |days| ==> days[k].appointments == Bucket(appointments, days[k].date))
  }

  /** Within one grid an appointment is in at most one cell, and it is in a
      cell exactly when it is an input appointment starting on that cell's
      date; so it is in exactly one cell when its start date is in the grid. */
  lemma CellPlacement(days: seq<CalendarDay>, appointments: seq<Appointment>, a: Appointment)
    requires ConsecutiveCells(days, appointments)
    ensures forall i :: 0 <= i < |days| ==>
              (a in days[i].appointments <==> a in appointments && days[i].date == StartDate(a))
    ensures forall i, j ::
              (0 <= i < |days| && 0 <= j < |days| && a in days[i].appointments && a in days[j].appointments) ==> i == j
  {
    forall i, j | 0 <= i < |days| && 0 <= j < |days| && a in days[i].appointments && a in days[j].appointments
      ensures i == j
    {
      assert days[i].date == days[j].date;
    }
  }

  // ----- Month grid -----

  /** The Sunday on or before the first of month `m` of year `y`. */
  function MonthGridStart(y: int, m: int): (r: Date)
    requires 1 <= m <= 12
  {
    AddDays(Civil(y, m, 1), -Weekday(Civil(y, m, 1)))
  }

  /** Cell `i` of a month grid: it lies in the month exactly for the
      `DaysInMonth` indices after the first's weekday, and there it is day
      `i - w + 1`; the other cells fall in the previous or the next month. */
  lemma MonthGridCell(y: int, m: int, i: int)
    requires 1 <= m <= 12 && 0 <= i < 42
    ensures var w := Weekday(Civil(y, m, 1));
            var cell := AddDays(MonthGridStart(y, m), i);
            && (cell.month == m <==> w <= i < w + DaysInMonth(y, m))
            && (w <= i < w + DaysInMonth(y, m) ==> cell == Civil(y, m, i - w + 1))
  {
    var first: Date := Civil(y, m, 1);
    var w := Weekday(first);
    var n := DaysInMonth(y, m);
    AddDaysAdd(first, -w, i);
    if i < w {
      BeforeMonthStart(y, m, w - i);
    } else if i < w + n {
      InMonth(y, m, i - w);
    } else {
      PastMonthEnd(y, m, i - w - n);
    }
  }

  /** The month grid of month `m` of year `y`: 42 cells starting on the
      Sunday on or before the first of the month (at most six days earlier),
      holding every day of the month at index `weekday(first) + day - 1`, and
      flagged as in the current month exactly at those indices. */
  ghost predicate MonthGridShape(days: seq<CalendarDay>, y: int, m: int)
    requires 1 <= m <= 12
  {
    var first: Date := Civil(y, m, 1);
    var w := Weekday(first);
    && |days| == 42
    && Weekday(days[0].date) == 0
    && Ord(first) - 6 <= Ord(days[0].date) <= Ord(first)
    && (forall d :: 1 <= d <= DaysInMonth(y, m) ==> days[w + d - 1].date == Civil(y, m, d))
    && (forall i :: 0 <= i < 42 ==> (days[i].isCurrentMonth <==> w <= i < w + DaysInMonth(y, m)))
  }

  /** `getDaysInMonth`: 42 consecutive cells from the Sunday on or before the
      first of `date`'s month; a cell is flagged as in the current month when
      its month number equals `date`'s, which is exactly the days of that
      month. */
  method GetDaysInMonth(appointments: seq<Appointment>, date: Date) returns (days: seq<CalendarDay>)
    ensures |days| == 42
    ensures ConsecutiveCells(days, appointments)
    ensures MonthGridShape(days, date.year, date.month)
  {
    var year := date.year;
    var month := date.month;
    var firstDay: Date := Civil(year, month, 1);
    var back := -Weekday(firstDay);
    var startDate := SetDate(firstDay, firstDay.day + back);
    assert startDate == MonthGridStart(year, month) by { SetDateShift(firstDay, back); }
    days := [];
    var currentDate := startDate;
    for i := 0 to 42
      invariant |days| == i
      invariant Ord(currentDate) == Ord(startDate) + i
      invariant forall k :: 0 <= k < i ==> Ord(days[k].date) == Ord(startDate) + k
      invariant forall k :: 0 <= k < i ==> days[k].isCurrentMonth == (days[k].date.month == month)
      invariant forall k :: 0 <= k < i ==> days[k].appointments == Bucket(appointments, days[k].date)
    {
      var dayAppointments := Bucket(appointments, currentDate);
      days := days + [CalendarDay(currentDate, currentDate.month == month, dayAppointments)];
      assert Ord(SetDate(currentDate, currentDate.day + 1)) == Ord(currentDate) + 1 by {
        SetDateShift(currentDate, 1);
      }
      currentDate := SetDate(currentDate, currentDate.day + 1);
    }
    assert forall k :: 0 <= k < 42 ==> MonthCell(days[k], appointments, Ord(MonthGridStart(year, month)) + k, month);
    MonthGrid(days, appointments, year, month);
  }

  /** A cell the loop of `GetDaysInMonth` pushes: day number `ord`, flagged
      by its month number, holding the bucket of its date. */
  ghost predicate MonthCell(cell: CalendarDay, appointments: seq<Appointment>, ord: int, month: int)
  {
    && Ord(cell.date) == ord
    && cell.isCurrentMonth == (cell.date.month == month)
    && cell.appointments == Bucket(appointments, cell.date)
  }

  /** What the loop of `GetDaysInMonth` leaves: cell `k` is `k` days after the
      grid start and flagged by its month number. */
  lemma MonthGrid(days: seq<CalendarDay>, appointments: seq<Appointment>, year: int, month: int)
    requires 1 <= month <= 12 && |days| == 42
    requires forall k :: 0 <= k < 42 ==> MonthCell(days[k], appointments, Ord(MonthGridStart(year, month)) + k, month)
    ensures ConsecutiveCells(days, appointments)
    ensures MonthGridShape(days, year, month)
  {
    MonthGridFirst(days[0].date, year, month);
    MonthGridFlags(days, year, month);
    MonthGridDays(days, year, month);
  }

  lemma MonthGridFirst(cell: Date, year: int, month: int)
    requires 1 <= month <= 12
    requires Ord(cell) == Ord(MonthGridStart(year, month))
    ensures Weekday(cell) == 0
    ensures Ord(Civil(year, month, 1)) - 6 <= Ord(cell) <= Ord(Civil(year, month, 1))
  {
    SundayOnOrBefore(Civil(year, month, 1));
    OrdInjective(cell, MonthGridStart(year, month));
  }

  lemma MonthGridFlags(days: seq<CalendarDay>, year: int, month: int)
    requires 1 <= month <= 12 && |days| == 42
    requires forall k :: 0 <= k < 42 ==> Ord(days[k].date) == Ord(MonthGridStart(year, month)) + k
    requires forall k :: 0 <= k < 42 ==> days[k].isCurrentMonth == (days[k].date.month == month)
    ensures forall i :: 0 <= i < 42 ==>
              (days[i].isCurrentMonth <==> Weekday(Civil(year, month, 1)) <= i < Weekday(Civil(year, month, 1)) + DaysInMonth(year, month))
  {
    forall i | 0 <= i < 42
      ensures days[i].isCurrentMonth <==> Weekday(Civil(year, month, 1)) <= i < Weekday(Civil(year, month, 1)) + DaysInMonth(year, month)
    {
      AddDaysByOrd(MonthGridStart(year, month), i, days[i].date);
      MonthGridCell(year, month, i);
    }
  }

  lemma MonthGridDays(days: seq<CalendarDay>, year: int, month: int)
    requires 1 <= month <= 12 && |days| == 42
    requires forall k :: 0 <= k < 42 ==> Ord(days[k].date) == Ord(MonthGridStart(year, month)) + k
    ensures forall d :: 1 <= d <= DaysInMonth(year, month) ==>
              days[Weekday(Civil(year, month, 1)) + d - 1].date == Civil(year, month, d)
  {
    forall d | 1 <= d <= DaysInMonth(year, month)
      ensures days[Weekday(Civil(year, month, 1)) + d - 1].date == Civil(year, month, d)
    {
      var i := Weekday(Civil(year, month, 1)) + d - 1;
      MonthGridDay(days[i].date, year, month, i);
    }
  }

  lemma MonthGridDay(cell: Date, year: int, month: int, i: int)
    requires 1 <= month <= 12
    requires Weekday(Civil(year, month, 1)) <= i < Weekday(Civil(year, month, 1)) + DaysInMonth(year, month)
    requires Ord(cell) == Ord(MonthGridStart(year, month)) + i
    ensures cell == Civil(year, month, i - Weekday(Civil(year, month, 1)) + 1)
  {
    AddDaysByOrd(MonthGridStart(year, month), i, cell);
    MonthGridCell(year, month, i);
  }

  // ----- Week grid -----

  /** `getWeekDays`: the seven days from the Sunday `date - getDay(date)`,
      all flagged as in the current month; `date` is cell `getDay(date)`. */
  method GetWeekDays(appointments: seq<Appointment>, date: Date) returns (days: seq<CalendarDay>)
    ensures |days| == 7
    ensures ConsecutiveCells(days, appointments)
    ensures Ord(days[0].date) == Ord(date) - Weekday(date)
    ensures Weekday(days[0].date) == 0
    ensures days[Weekday(date)].date == date
    ensures forall i :: 0 <= i < 7 ==> days[i].isCurrentMonth
  {
    var back := -Weekday(date);
    var startOfWeek := SetDate(date, date.day + back);
    assert Ord(startOfWeek) == Ord(date) + back by { SetDateShift(date, back); }
    days := [];
    for i := 0 to 7
      invariant |days| == i
      invariant forall k :: 0 <= k < i ==> Ord(days[k].date) == Ord(startOfWeek) + k
      invariant forall k :: 0 <= k < i ==> days[k].isCurrentMonth
      invariant forall k :: 0 <= k < i ==> days[k].appointments == Bucket(appointments, days[k].date)
    {
      var currentDate := SetDate(startOfWeek, startOfWeek.day + i);
      assert Ord(currentDate) == Ord(startOfWeek) + i by { SetDateShift(startOfWeek, i); }
      var dayAppointments := Bucket(appointments, currentDate);
      days := days + [CalendarDay(currentDate, true, dayAppointments)];
    }
    WeekGrid(days, appointments, date);
  }

  /** What the loop of `GetWeekDays` leaves: cell `k` is `k` days after the
      Sunday on or before `date`, which is therefore cell `getDay(date)`. */
  lemma WeekGrid(days: seq<CalendarDay>, appointments: seq<Appointment>, date: Date)
    requires |days| == 7
    requires forall k :: 0 <= k < 7 ==> Ord(days[k].date) == Ord(date) - Weekday(date) + k
    requires forall k :: 0 <= k < 7 ==> days[k].appointments == Bucket(appointments, days[k].date)
    ensures ConsecutiveCells(days, appointments)
    ensures Ord(days[0].date) == Ord(date) - Weekday(date)
    ensures Weekday(days[0].date) == 0
    ensures days[Weekday(date)].date == date
  {
    SundayOnOrBefore(date);
    OrdInjective(days[0].date, AddDays(date, -Weekday(date)));
    OrdInjective(days[Weekday(date)].date, date);
  }

  // ----- Day view -----

  /** Non-decreasing by start instant. */
  predicate SortedByStart(s: seq<Appointment>)
  {
    forall i, j :: 0 <= i < j < |s| ==> Stamp(s[i].start_time) <= Stamp(s[j].start_time)
  }

  /** `x` placed before the first element that starts strictly later. */
  function InsertByStart(x: Appointment, s: seq<Appointment>): (r: seq<Appointment>)
    requires SortedByStart(s)
    ensures SortedByStart(r)
    ensures multiset(r) == multiset(s) + multiset{x}
  {
    if s == [] then [x]
    else if Stamp(x.start_time) < Stamp(s[0].start_time) then [x] + s
    else
      var t := InsertByStart(x, s[1..]);
      ConsSorted(s, x, t);
      [s[0]] + t
  }

  /** The head of a sorted list that starts no later than `x` can go in
      front of the insertion of `x` into the rest. */
  lemma ConsSorted(s: seq<Appointment>, x: Appointment, t: seq<Appointment>)
    requires SortedByStart(s) && |s| > 0 && Stamp(s[0].start_time) <= Stamp(x.start_time)
    requires SortedByStart(t) && multiset(t) == multiset(s[1..]) + multiset{x}
    ensures SortedByStart([s[0]] + t)
    ensures multiset([s[0]] + t) == multiset(s) + multiset{x}
  {
    HeadStartsFirst(s, x, t);
    var r := [s[0]] + t;
    forall i, j | 0 <= i < j < |r| ensures Stamp(r[i].start_time) <= Stamp(r[j].start_time) {
      assert r[j] == t[j - 1];
      if i > 0 {
        assert r[i] == t[i - 1];
      }
    }
    assert multiset(s) == multiset([s[0]]) + multiset(s[1..]) by { assert s == [s[0]] + s[1..]; }
  }

  /** Every element of the rest, which holds the tail of `s` and `x`, starts
      no earlier than the head of `s`. */
  lemma HeadStartsFirst(s: seq<Appointment>, x: Appointment, t: seq<Appointment>)
    requires SortedByStart(s) && |s| > 0 && Stamp(s[0].start_time) <= Stamp(x.start_time)
    requires multiset(t) == multiset(s[1..]) + multiset{x}
    ensures forall k :: 0 <= k < |t| ==> Stamp(s[0].start_time) <= Stamp(t[k].start_time)
  {
    forall k | 0 <= k < |t| ensures Stamp(s[0].start_time) <= Stamp(t[k].start_time) {
      assert t[k] in multiset(t);
      if t[k] != x {
        assert t[k] in multiset(s[1..]);
        var j :| 0 <= j < |s[1..]| && s[1..][j] == t[k];
        assert s[j + 1] == t[k];
      }
    }
  }

  /** A stable sort by start instant (insertion sort), the model of
      `sort((a, b) => a.start - b.start)`. */
  function SortByStart(s: seq<Appointment>): (r: seq<Appointment>)
    ensures SortedByStart(r)
    ensures multiset(r) == multiset(s)
  {
    if s == [] then []
    else
      assert s == s[..|s| - 1] + [s[|s| - 1]];
      InsertByStart(s[|s| - 1], SortByStart(s[..|s| - 1]))
  }

  /** `getDayAppointments`: the day's appointments, a permutation of its
      bucket, ordered by start. */
  function GetDayAppointments(appointments: seq<Appointment>, date: Date): (r: seq<Appointment>)
    ensures multiset(r) == multiset(Bucket(appointments, date))
    ensures SortedByStart(r)
    ensures forall a :: a in r <==> a in appointments && StartDate(a) == date
  {
    var r := SortByStart(Bucket(appointments, date));
    assert forall a :: a in r <==> a in multiset(Bucket(appointments, date));
    r
  }

  // ----- Time slots -----

  /** The minute of the day of slot `i`: 07:00 plus `i` half hours. */
  function SlotMinute(i: int): (m: MinuteOfDay)
    requires 0 <= i < 28
  {
    420 + 30 * i
  }

  lemma HourLabels(hour: int)
    requires 7 <= hour <= 20
    ensures Pad2(hour) + ":00" == HHMM(hour * 60)
    ensures Pad2(hour) + ":30" == HHMM(hour * 60 + 30)
  {
    var m := hour * 60;
    assert m / 60 == hour && m % 60 == 0 by { assert m == 60 * hour; }
    assert (m + 30) / 60 == hour && (m + 30) % 60 == 30 by { assert m + 30 == 60 * hour + 30; }
    assert Pad2(0) == "00" && Pad2(30) == "30";
  }

  /** Slot labels are well formed, name their slot's minute, end in ":00"
      or ":30", and increase strictly as strings. */
  lemma SlotLabel(i: int)
    requires 0 <= i < 28
    ensures IsHHMM(HHMM(SlotMinute(i))) && ParseHHMM(HHMM(SlotMinute(i))) == SlotMinute(i)
    ensures HHMM(SlotMinute(i))[3..] == "00" || HHMM(SlotMinute(i))[3..] == "30"
  {
    var m := SlotMinute(i);
    assert IsHHMM(HHMM(m)) && ParseHHMM(HHMM(m)) == m by { FormatThenParse(m); }
    var hour := 7 + i / 2;
    var p := Pad2(hour);
    if i % 2 == 0 {
      assert HHMM(m) == p + ":00" by { assert i == 2 * (hour - 7); HourSlots(hour); }
      assert (p + ":00")[3..] == "00";
    } else {
      assert HHMM(m) == p + ":30" by { assert i == 2 * (hour - 7) + 1; HourSlots(hour); }
      assert (p + ":30")[3..] == "30";
    }
  }

  lemma SlotLabelsIncrease(i: int, j: int)
    requires 0 <= i < j < 28
    ensures StrLess(HHMM(SlotMinute(i)), HHMM(SlotMinute(j)))
  {
    SlotLabel(i);
    SlotLabel(j);
    StrLessIsTimeOrder(HHMM(SlotMinute(i)), HHMM(SlotMinute(j)));
  }

  /** `generateTimeSlots`: 28 labels "07:00", "07:30", ..., "20:30", strictly
      increasing as strings, each on a whole or half hour. */
  method GenerateTimeSlots() returns (slots: seq<string>)
    ensures |slots| == 28
    ensures forall i :: 0 <= i < 28 ==> slots[i] == HHMM(SlotMinute(i))
    ensures slots[0] == "07:00" && slots[1] == "07:30" && slots[27] == "20:30"
    ensures forall i :: 0 <= i < 28 ==> IsHHMM(slots[i]) && (slots[i][3..] == "00" || slots[i][3..] == "30")
    ensures forall i, j :: 0 <= i < j < 28 ==> StrLess(slots[i], slots[j])
  {
    slots := [];
    for hour := 7 to 21
      invariant |slots| == 2 * (hour - 7)
      invariant forall i :: 0 <= i < |slots| ==> slots[i] == HHMM(SlotMinute(i))
    {
      HourSlots(hour);
      slots := slots + [Pad2(hour) + ":00", Pad2(hour) + ":30"];
    }
    SlotList(slots);
  }

  /** The two labels the loop appends for `hour` are the labels of slots
      `2 * (hour - 7)` and the one after it. */
  lemma HourSlots(hour: int)
    requires 7 <= hour <= 20
    ensures Pad2(hour) + ":00" == HHMM(SlotMinute(2 * (hour - 7)))
    ensures Pad2(hour) + ":30" == HHMM(SlotMinute(2 * (hour - 7) + 1))
  {
    assert SlotMinute(2 * (hour - 7)) == hour * 60;
    HourLabels(hour);
  }

  /** What the list of slot labels satisfies once all 28 are in place. */
  lemma SlotList(slots: seq<string>)
    requires |slots| == 28
    requires forall i :: 0 <= i < 28 ==> slots[i] == HHMM(SlotMinute(i))
    ensures slots[0] == "07:00" && slots[1] == "07:30" && slots[27] == "20:30"
    ensures forall i :: 0 <= i < 28 ==> IsHHMM(slots[i]) && (slots[i][3..] == "00" || slots[i][3..] == "30")
    ensures forall i, j :: 0 <= i < j < 28 ==> StrLess(slots[i], slots[j])
  {
    FirstAndLastSlots();
    forall i | 0 <= i < 28
      ensures IsHHMM(slots[i]) && (slots[i][3..] == "00" || slots[i][3..] == "30")
    {
      SlotLabel(i);
    }
    forall i, j | 0 <= i < j < 28 ensures StrLess(slots[i], slots[j]) {
      SlotLabelsIncrease(i, j);
    }
  }

  lemma FirstAndLastSlots()
    ensures HHMM(SlotMinute(0)) == "07:00" && HHMM(SlotMinute(1)) == "07:30" && HHMM(SlotMinute(27)) == "20:30"
  {
    HourLabels(7);
    HourLabels(20);
    assert Pad2(7) == "07" && Pad2(20) == "20";
  }

  /** `apt => <zero-padded HH:MM of its start> === timeSlot` */
  function StartsAtLabel(timeSlot: string): Appointment -> bool
  {
    (a: Appointment) => HHMM(a.start_time.minute) == timeSlot
  }

  /** `getAppointmentsByTimeSlot`: the appointments whose zero-padded start
      "HH:MM" is the label, in input order. */
  function GetAppointmentsByTimeSlot(appointments: seq<Appointment>, timeSlot: string): (r: seq<Appointment>)
    ensures forall a :: a in r <==> a in appointments && HHMM(a.start_time.minute) == timeSlot
  {
    var r := Filter(appointments, StartsAtLabel(timeSlot));
    forall a ensures a in r <==> a in appointments && HHMM(a.start_time.minute) == timeSlot {
      FilterMember(appointments, StartsAtLabel(timeSlot), a);
    }
    r
  }

  /** An appointment matches slot `i` exactly when it starts at that slot's
      minute; hence it matches at most one slot, it matches one exactly when
      it starts on a half hour between 07:00 and 20:30, and an appointment at
      09:15 matches none. */
  lemma SlotMatching(a: Appointment)
    ensures forall i :: 0 <= i < 28 ==> (HHMM(a.start_time.minute) == HHMM(SlotMinute(i)) <==> a.start_time.minute == SlotMinute(i))
    ensures forall i, j ::
              (0 <= i < 28 && 0 <= j < 28 && HHMM(a.start_time.minute) == HHMM(SlotMinute(i))
               && HHMM(a.start_time.minute) == HHMM(SlotMinute(j))) ==> i == j
    ensures (exists i :: 0 <= i < 28 && HHMM(a.start_time.minute) == HHMM(SlotMinute(i)))
        <==> (420 <= a.start_time.minute <= 1230 && a.start_time.minute % 30 == 0)
  {
    var m := a.start_time.minute;
    forall i | 0 <= i < 28 ensures HHMM(m) == HHMM(SlotMinute(i)) <==> m == SlotMinute(i) {
      SlotLabelMatch(m, i);
    }
    if 420 <= m <= 1230 && m % 30 == 0 {
      HalfHourSlot(m);
    }
    forall i | 0 <= i < 28 ensures SlotMinute(i) % 30 == 0 {
      SlotOnHalfHour(i);
    }
  }

  lemma HalfHourSlot(m: int)
    requires 420 <= m <= 1230 && m % 30 == 0
    ensures 0 <= m / 30 - 14 < 28 && SlotMinute(m / 30 - 14) == m
  {
    assert m == 30 * (m / 30) + m % 30;
  }

  lemma SlotOnHalfHour(i: int)
    requires 0 <= i < 28
    ensures SlotMinute(i) % 30 == 0
  {
    var q := 14 + i;
    assert SlotMinute(i) == 30 * q;
    assert (30 * q) / 30 == q;
  }

  lemma SlotLabelMatch(m: MinuteOfDay, i: int)
    requires 0 <= i < 28
    ensures HHMM(m) == HHMM(SlotMinute(i)) <==> m == SlotMinute(i)
  {
    if HHMM(m) == HHMM(SlotMinute(i)) { HHMMInjective(m, SlotMinute(i)); }
  }

  lemma QuarterPastMatchesNoSlot(a: Appointment)
    requires a.start_time.minute == 9 * 60 + 15
    ensures forall i :: 0 <= i < 28 ==> HHMM(a.start_time.minute) != HHMM(SlotMinute(i))
  {
    SlotMatching(a);
  }

  // ----- Card height -----

  /** `Math.max(1, durationMinutes / 30)` */
  function SlotsSpanned(a: Appointment): (r: real)
    ensures r >= 1.0
  {
    var d := Duration(a) as real / 30.0;
    if d > 1.0 then d else 1.0
  }

  /** `calculateCardHeight`, in rem: four per slot spanned. */
  function CardHeightRem(a: Appointment): (r: real)
    ensures r >= 4.0
  {
    SlotsSpanned(a) * 4.0
  }

  /** Heights are proportional to duration from half an hour on, with no
      rounding, and never below one slot: 90 minutes span 3 slots, 10 minutes
      and 45 minutes span 1 and 1.5. */
  lemma CardHeightLaw(a: Appointment)
    ensures Duration(a) >= 30 ==> CardHeightRem(a) * 30.0 == 4.0 * Duration(a) as real
    ensures Duration(a) <= 30 ==> CardHeightRem(a) == 4.0
    ensures Duration(a) == 90 ==> SlotsSpanned(a) == 3.0
    ensures Duration(a) == 10 ==> SlotsSpanned(a) == 1.0
    ensures Duration(a) == 45 ==> SlotsSpanned(a) == 1.5
  {
  }

  // ----- Conflict detection -----

  /** The per-appointment test inside `checkConflict`'s `some`; `excludeId`
      only excludes when it is non-empty, as a falsy string does not. */
  function ConflictsWith(targetDate: Date, newStart: int, newEnd: int, therapistName: string, excludeId: string): Appointment -> bool
  {
    (a: Appointment) => && !(excludeId != "" && a.id == excludeId)
         && a.therapist_name == therapistName
         && StartDate(a) == targetDate
         && newStart < Stamp(a.end_time) && newEnd > Stamp(a.start_time)
  }

  /** `checkConflict`: the proposed "HH:MM" pair is read on the target date. */
  predicate CheckConflict(appointments: seq<Appointment>, targetDate: Date, startTime: string, endTime: string,
                          therapistName: string, excludeId: string)
    requires IsHHMM(startTime) && IsHHMM(endTime)
  {
    var newStart := Stamp(Instant(targetDate, ParseHHMM(startTime)));
    var newEnd := Stamp(Instant(targetDate, ParseHHMM(endTime)));
    Any(appointments, ConflictsWith(targetDate, newStart, newEnd, therapistName, excludeId))
  }

  /** A conflict is reported exactly when some appointment other than the
      excluded one, of the same therapist, starting on the target date,
      overlaps the proposed interval as half-open intervals. */
  lemma CheckConflictIff(appointments: seq<Appointment>, targetDate: Date, startTime: string, endTime: string,
                         therapistName: string, excludeId: string)
    requires IsHHMM(startTime) && IsHHMM(endTime)
    ensures CheckConflict(appointments, targetDate, startTime, endTime, therapistName, excludeId)
        <==> exists i :: 0 <= i < |appointments|
               && !(excludeId != "" && appointments[i].id == excludeId)
               && appointments[i].therapist_name == therapistName
               && StartDate(appointments[i]) == targetDate
               && Stamp(Instant(targetDate, ParseHHMM(startTime))) < Stamp(appointments[i].end_time)
               && ParseHHMM(endTime) > appointments[i].start_time.minute
  {
    var newStart := Stamp(Instant(targetDate, ParseHHMM(startTime)));
    var newEnd := Stamp(Instant(targetDate, ParseHHMM(endTime)));
    AnyIff(appointments, ConflictsWith(targetDate, newStart, newEnd, therapistName, excludeId));
  }

  /** The overlap law against one appointment of the same therapist on the
      same date: a conflict iff `s1 < e2 && s2 < e1`, so intervals that only
      touch do not conflict. */
  lemma OverlapLaw(a: Appointment, startTime: string, endTime: string, excludeId: string)
    requires IsHHMM(startTime) && IsHHMM(endTime)
    requires excludeId == "" || excludeId != a.id
    ensures CheckConflict([a], StartDate(a), startTime, endTime, a.therapist_name, excludeId)
        <==> Stamp(Instant(StartDate(a), ParseHHMM(startTime))) < Stamp(a.end_time)
             && Stamp(a.start_time) < Stamp(Instant(StartDate(a), ParseHHMM(endTime)))
  {
    CheckConflictIff([a], StartDate(a), startTime, endTime, a.therapist_name, excludeId);
  }

  /** The moved appointment never conflicts with itself when its id is
      non-empty: the result is the same as with it removed. */
  lemma ExcludedNeverConflicts(appointments: seq<Appointment>, targetDate: Date, startTime: string, endTime: string,
                               therapistName: string, excludeId: string)
    requires IsHHMM(startTime) && IsHHMM(endTime) && excludeId != ""
    ensures CheckConflict(appointments, targetDate, startTime, endTime, therapistName, excludeId)
        <==> CheckConflict(Filter(appointments, (a: Appointment) => a.id != excludeId),
                           targetDate, startTime, endTime, therapistName, excludeId)
  {
    var kept := Filter(appointments, (a: Appointment) => a.id != excludeId);
    CheckConflictIff(appointments, targetDate, startTime, endTime, therapistName, excludeId);
    CheckConflictIff(kept, targetDate, startTime, endTime, therapistName, excludeId);
    if CheckConflict(appointments, targetDate, startTime, endTime, therapistName, excludeId) {
      var i :| 0 <= i < |appointments| && ConflictsWith(targetDate, Stamp(Instant(targetDate, ParseHHMM(startTime))),
                 Stamp(Instant(targetDate, ParseHHMM(endTime))), therapistName, excludeId)(appointments[i]);
      FilterMember(appointments, (a: Appointment) => a.id != excludeId, appointments[i]);
      var j :| 0 <= j < |kept| && kept[j] == appointments[i];
    }
    if CheckConflict(kept, targetDate, startTime, endTime, therapistName, excludeId) {
      var j :| 0 <= j < |kept| && ConflictsWith(targetDate, Stamp(Instant(targetDate, ParseHHMM(startTime))),
                 Stamp(Instant(targetDate, ParseHHMM(endTime))), therapistName, excludeId)(kept[j]);
      FilterMember(appointments, (a: Appointment) => a.id != excludeId, kept[j]);
      var i :| 0 <= i < |appointments| && appointments[i] == kept[j];
    }
  }

  /** The examples of the overlap law: against 09:00-10:00 of therapist "T",
      10:00-11:00 does not conflict, 09:30-10:30 does, and 09:30-10:30 for
      another therapist does not. */
  lemma ConflictExamples(d: Date)
    ensures var a := Appointment("1", "Ana", "T", Instant(d, 540), Instant(d, 600), Confirmado, "u");
            && !CheckConflict([a], d, "10:00", "11:00", "T", "2")
            && CheckConflict([a], d, "09:30", "10:30", "T", "2")
            && !CheckConflict([a], d, "09:30", "10:30", "U", "2")
  {
    var a := Appointment("1", "Ana", "T", Instant(d, 540), Instant(d, 600), Confirmado, "u");
    assert ParseHHMM("10:00") == 600 && ParseHHMM("11:00") == 660;
    assert ParseHHMM("09:30") == 570 && ParseHHMM("10:30") == 630;
    OverlapLaw(a, "10:00", "11:00", "2");
    OverlapLaw(a, "09:30", "10:30", "2");
    CheckConflictIff([a], d, "09:30", "10:30", "U", "2");
  }

  // ----- Drag and drop -----

  /** The "HH:MM" pair a drop computes. */
  datatype MoveTimes = MoveTimes(newStartTime: string, newEndTime: string)

  /** The times `handleDrop` computes: with a slot, the slot's start and the
      "HH:MM" of start plus the original duration; without one (month view),
      the original start and end "HH:MM" unchanged. */
  function DropTimes(apt: Appointment, targetDate: Date, timeSlot: Option<string>): (r: MoveTimes)
    requires timeSlot.Some? ==> IsHHMM(timeSlot.value)
    ensures IsHHMM(r.newStartTime) && IsHHMM(r.newEndTime)
    ensures timeSlot.Some? ==>
              && r.newStartTime == timeSlot.value
              && ParseHHMM(r.newEndTime) == (ParseHHMM(timeSlot.value) + Duration(apt)) % 1440
    ensures timeSlot.None? ==>
              && ParseHHMM(r.newStartTime) == apt.start_time.minute
              && ParseHHMM(r.newEndTime) == apt.end_time.minute
  {
    if timeSlot.Some? then
      var newStart := Instant(targetDate, ParseHHMM(timeSlot.value));
      var newEnd := AddMinutes(newStart, Duration(apt));
      assert newEnd.minute == (ParseHHMM(timeSlot.value) + Duration(apt)) % 1440;
      assert HHMM(newStart.minute) == timeSlot.value by { ParseThenFormat(timeSlot.value); }
      assert IsHHMM(HHMM(newEnd.minute)) && ParseHHMM(HHMM(newEnd.minute)) == newEnd.minute by {
        FormatThenParse(newEnd.minute);
      }
      MoveTimes(HHMM(newStart.minute), HHMM(newEnd.minute))
    else
      assert IsHHMM(HHMM(apt.start_time.minute)) && ParseHHMM(HHMM(apt.start_time.minute)) == apt.start_time.minute by {
        FormatThenParse(apt.start_time.minute);
      }
      assert IsHHMM(HHMM(apt.end_time.minute)) && ParseHHMM(HHMM(apt.end_time.minute)) == apt.end_time.minute by {
        FormatThenParse(apt.end_time.minute);
      }
      MoveTimes(HHMM(apt.start_time.minute), HHMM(apt.end_time.minute))
  }

  /** Dropping on a slot keeps the duration, at minute resolution, whenever
      the moved appointment does not run past midnight. */
  lemma DropKeepsDuration(apt: Appointment, targetDate: Date, slot: string)
    requires IsHHMM(slot)
    requires 0 <= Duration(apt) && ParseHHMM(slot) + Duration(apt) < 1440
    ensures var t := DropTimes(apt, targetDate, Some(slot));
            ParseHHMM(t.newEndTime) - ParseHHMM(t.newStartTime) == Duration(apt)
  {
  }

  // ----- A drop that runs past midnight -----

  /** The test a drop onto a slot evidently intends: the new end is the
      instant the original duration after the new start, as `newEnd` is
      before it is turned into a label. The proposed interval is compared as
      instants with each same-therapist booking that starts on the target
      date; like `checkConflict` it keeps that date filter, so bookings on the
      next day that the interval runs into are not tested
      (`DropConflictSkipsOtherDates`). */
  predicate DropConflict(appointments: seq<Appointment>, apt: Appointment, targetDate: Date, slot: string)
    requires IsHHMM(slot)
  {
    var newStart := Instant(targetDate, ParseHHMM(slot));
    var newEnd := AddMinutes(newStart, Duration(apt));
    Any(appointments, ConflictsWith(targetDate, Stamp(newStart), Stamp(newEnd), apt.therapist_name, apt.id))
  }

  /** The intended test reports a conflict exactly when some other booking
      of the same therapist that starts on the target date overlaps the moved
      interval, start plus duration, however late it ends. */
  lemma DropConflictIff(appointments: seq<Appointment>, apt: Appointment, targetDate: Date, slot: string)
    requires IsHHMM(slot)
    ensures DropConflict(appointments, apt, targetDate, slot)
        <==> exists i :: 0 <= i < |appointments|
               && !(apt.id != "" && appointments[i].id == apt.id)
               && appointments[i].therapist_name == apt.therapist_name
               && StartDate(appointments[i]) == targetDate
               && Stamp(Instant(targetDate, ParseHHMM(slot))) < Stamp(appointments[i].end_time)
               && Stamp(appointments[i].start_time) < Stamp(Instant(targetDate, ParseHHMM(slot))) + Duration(apt)
  {
    var newStart := Instant(targetDate, ParseHHMM(slot));
    var newEnd := AddMinutes(newStart, Duration(apt));
    AnyIff(appointments, ConflictsWith(targetDate, Stamp(newStart), Stamp(newEnd), apt.therapist_name, apt.id));
  }

  /** A booking that starts on another date never changes the intended
      test, even when the moved interval runs into that date. */
  lemma DropConflictSkipsOtherDates(appointments: seq<Appointment>, apt: Appointment, targetDate: Date, slot: string,
                                    b: Appointment)
    requires IsHHMM(slot) && StartDate(b) != targetDate
    ensures DropConflict([b] + appointments, apt, targetDate, slot) == DropConflict(appointments, apt, targetDate, slot)
  {
    assert ([b] + appointments)[0] == b && ([b] + appointments)[1..] == appointments;
  }

  /** While the moved appointment ends before midnight, the code's test on the
      computed labels and the intended test agree. */
  lemma DropConflictAgrees(appointments: seq<Appointment>, apt: Appointment, targetDate: Date, slot: string)
    requires IsHHMM(slot)
    requires 0 <= Duration(apt) && ParseHHMM(slot) + Duration(apt) < 1440
    ensures var t := DropTimes(apt, targetDate, Some(slot));
            (DropConflict(appointments, apt, targetDate, slot)
             <==> CheckConflict(appointments, targetDate, t.newStartTime, t.newEndTime, apt.therapist_name, apt.id))
  {
    var t := DropTimes(apt, targetDate, Some(slot));
    var newStart := Instant(targetDate, ParseHHMM(slot));
    var newEnd := AddMinutes(newStart, Duration(apt));
    assert Stamp(Instant(targetDate, ParseHHMM(t.newEndTime))) == Stamp(newEnd);
  }

  /** The appointment of the past-midnight example: 10:00 to 14:00 on `d`. */
  function LongAppointment(d: Date): Appointment
  {
    Appointment("1", "Ana", "T", Instant(d, 600), Instant(d, 840), Confirmado, "u")
  }

  /** The booking of the past-midnight example: 20:00 to 21:00 on `d`, same
      therapist. */
  function EveningBooking(d: Date): Appointment
  {
    Appointment("2", "Bia", "T", Instant(d, 1200), Instant(d, 1260), Confirmado, "u")
  }

  /** As written: a four-hour appointment dropped on the 20:30 slot gets the
      end label "00:30", which `checkConflict` reads on the target day, before
      the new start; so a booking of the same therapist from 20:00 to 21:00
      that day goes unreported, while the intended test reports it. */
  lemma DropPastMidnightMissesConflict(d: Date)
    ensures var t := DropTimes(LongAppointment(d), d, Some("20:30"));
            t.newStartTime == "20:30" && t.newEndTime == "00:30"
    ensures !CheckConflict([EveningBooking(d)], d, "20:30", "00:30", "T", "1")
    ensures DropConflict([EveningBooking(d)], LongAppointment(d), d, "20:30")
  {
    MidnightLabels(d);
    MidnightCodeTest(d);
    MidnightIntendedTest(d);
  }

  /** The example's drop keeps the slot and ends at minute 30 of the day. */
  lemma MidnightEndMinute(d: Date)
    ensures var t := DropTimes(LongAppointment(d), d, Some("20:30"));
            t.newStartTime == "20:30" && ParseHHMM(t.newEndTime) == 30
  {
    assert ParseHHMM("20:30") == 1230;
    assert Duration(LongAppointment(d)) == 240;
  }

  /** The example's drop gets the labels "20:30" and "00:30". */
  lemma MidnightLabels(d: Date)
    ensures var t := DropTimes(LongAppointment(d), d, Some("20:30"));
            t.newStartTime == "20:30" && t.newEndTime == "00:30"
  {
    var t := DropTimes(LongAppointment(d), d, Some("20:30"));
    MidnightEndMinute(d);
    ParseThenFormat(t.newEndTime);
    assert HHMM(30) == "00:30";
  }

  /** The code's test on those labels finds no conflict with the evening booking. */
  lemma MidnightCodeTest(d: Date)
    ensures !CheckConflict([EveningBooking(d)], d, "20:30", "00:30", "T", "1")
  {
    assert ParseHHMM("00:30") == 30;
    CheckConflictIff([EveningBooking(d)], d, "20:30", "00:30", "T", "1");
  }

  /** The intended test finds the evening booking. */
  lemma MidnightIntendedTest(d: Date)
    ensures DropConflict([EveningBooking(d)], LongAppointment(d), d, "20:30")
  {
    assert ParseHHMM("20:30") == 1230 && Duration(LongAppointment(d)) == 240;
    DropConflictIff([EveningBooking(d)], LongAppointment(d), d, "20:30");
  }

  /** Dropping on a month cell copies the original "HH:MM" pair, so only the
      date changes, and the label pair is independent of the cell. */
  lemma MonthDropCopiesTimes(apt: Appointment, d1: Date, d2: Date)
    ensures DropTimes(apt, d1, None) == DropTimes(apt, d2, None)
    ensures DropTimes(apt, d1, None).newStartTime == HHMM(apt.start_time.minute)
    ensures DropTimes(apt, d1, None).newEndTime == HHMM(apt.end_time.minute)
  {
    ParseThenFormat(DropTimes(apt, d1, None).newStartTime);
    ParseThenFormat(DropTimes(apt, d1, None).newEndTime);
  }

  /** The time computation of `handleDrop`, step by step: the original
      duration, then either the slot's start and that start plus the
      duration, or the original start and end, each printed as "HH:MM". */
  method ComputeMoveTimes(appointment: Appointment, targetDate: Date, timeSlot: Option<string>)
    returns (newStartTime: string, newEndTime: string)
    requires timeSlot.Some? ==> IsHHMM(timeSlot.value)
    ensures MoveTimes(newStartTime, newEndTime) == DropTimes(appointment, targetDate, timeSlot)
  {
    var duration := Stamp(appointment.end_time) - Stamp(appointment.start_time);
    assert duration == Duration(appointment);
    if timeSlot.Some? {
      var newStart := Instant(targetDate, ParseHHMM(timeSlot.value));
      var newEnd := AddMinutes(newStart, duration);
      newStartTime := HHMM(newStart.minute);
      newEndTime := HHMM(newEnd.minute);
    } else {
      newStartTime := HHMM(appointment.start_time.minute);
      newEndTime := HHMM(appointment.end_time.minute);
    }
  }

  /** The arguments of one `onAppointmentMove` call. */
  datatype MoveRequest = MoveRequest(appointmentId: string, newDate: Date, newStartTime: string, newEndTime: string)

  const ConflictAlert := "Conflito de horário! Já existe um agendamento para este profissional neste horário."

  /** The calendar component's drag state. `appointments` and whether an
      `onAppointmentMove` handler was given are its props; the calls made to
      that handler and to `alert` are recorded, in order. */
  class CalendarView {
    const appointments: seq<Appointment>
    const hasMoveHandler: bool
    var draggedAppointment: Option<Appointment>
    var moveRequests: seq<MoveRequest>
    var alerts: seq<string>

    constructor (appointments: seq<Appointment>, hasMoveHandler: bool)
      ensures this.appointments == appointments && this.hasMoveHandler == hasMoveHandler
      ensures draggedAppointment == None && moveRequests == [] && alerts == []
    {
      this.appointments := appointments;
      this.hasMoveHandler := hasMoveHandler;
      draggedAppointment := None;
      moveRequests := [];
      alerts := [];
    }

    /** `handleDragStart` */
    method HandleDragStart(appointment: Appointment)
      modifies this
      ensures draggedAppointment == Some(appointment)
      ensures moveRequests == old(moveRequests) && alerts == old(alerts)
    {
      draggedAppointment := Some(appointment);
    }

    /** `handleDrop`. `payload` is the dragged appointment, `None` when the
        drag carried no data. */
    method HandleDrop(payload: Option<Appointment>, targetDate: Date, timeSlot: Option<string>)
      requires timeSlot.Some? ==> IsHHMM(timeSlot.value)
      modifies this
      ensures payload.None? || !hasMoveHandler ==>
                && draggedAppointment == old(draggedAppointment)
                && moveRequests == old(moveRequests) && alerts == old(alerts)
      ensures payload.Some? && hasMoveHandler ==>
                var apt := payload.value;
                var t := DropTimes(apt, targetDate, timeSlot);
                && draggedAppointment == None
                && if CheckConflict(appointments, targetDate, t.newStartTime, t.newEndTime, apt.therapist_name, apt.id)
                   then moveRequests == old(moveRequests) && alerts == old(alerts) + [ConflictAlert]
                   else moveRequests == old(moveRequests) + [MoveRequest(apt.id, targetDate, t.newStartTime, t.newEndTime)]
                        && alerts == old(alerts)
    {
      if payload.None? || !hasMoveHandler {
        return;
      }
      var appointment := payload.value;
      var newStartTime, newEndTime := ComputeMoveTimes(appointment, targetDate, timeSlot);

      if CheckConflict(appointments, targetDate, newStartTime, newEndTime, appointment.therapist_name, appointment.id) {
        alerts := alerts + [ConflictAlert];
        draggedAppointment := None;
        return;
      }

      moveRequests := moveRequests + [MoveRequest(appointment.id, targetDate, newStartTime, newEndTime)];
      draggedAppointment := None;
    }
  }
}
