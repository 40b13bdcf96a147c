/** Calendar dates as JavaScript's `Date` treats the local calendar day:
    proleptic Gregorian (year, month, day) triples, a day number, the
    weekday (`getDay`), and the normalising setters `setDate` / `setMonth`
    that carry an out-of-range day or month into the neighbouring months. */
module CivilDates {

  predicate IsLeapYear(y: int)
  {
    y % 4 == 0 && (y % 100 != 0 || y % 400 == 0)
  }

  function DaysInMonth(y: int, m: int): (n: int)
    requires 1 <= m <= 12
    ensures 28 <= n <= 31
    ensures m == 2 ==> (n == 29 <==> IsLeapYear(y))
  {
    if m == 2 then (if IsLeapYear(y) then 29 else 28)
    else if m == 4 || m == 6 || m == 9 || m == 11 then 30
    else 31
  }

  /** A civil date; `month` is 1-based (JavaScript's `getMonth() + 1`). */
  datatype Civil = Civil(year: int, month: int, day: int)

  predicate ValidCivil(c: Civil)
  {
    1 <= c.month <= 12 && 1 <= c.day <= DaysInMonth(c.year, c.month)
  }

  type Date = c: Civil | ValidCivil(c) witness Civil(1970, 1, 1)

  /** Days from 0001-01-01 to the first of January of year `y`. */
  function DaysBeforeYear(y: int): int
  {
    var p := y - 1;
    365 * p + p / 4 - p / 100 + p / 400
  }

  /** Days from the first of January of `y` to the first of month `m`. */
  function DaysBeforeMonth(y: int, m: int): int
    requires 1 <= m <= 12
  {
    [0, 31, 59, 90, 120, 151, 181, 212, 243, 273, 304, 334][m - 1]
      + (if m > 2 && IsLeapYear(y) then 1 else 0)
  }

  lemma DaysBeforeNextMonth(y: int, m: int)
    requires 1 <= m < 12
    ensures DaysBeforeMonth(y, m + 1) == DaysBeforeMonth(y, m) + DaysInMonth(y, m)
  {
  }

  /** The day number: 0 is Monday 0001-01-01, and consecutive dates have
      consecutive numbers (lemmas below). */
  function Ord(c: Date): (r: int)
  {
    DaysBeforeYear(c.year) + DaysBeforeMonth(c.year, c.month) + c.day - 1
  }

  /** `getDay()`: 0 is Sunday, 6 is Saturday. */
  function Weekday(c: Date): (w: int)
    ensures 0 <= w < 7
  {
    (Ord(c) + 1) % 7
  }

  function FirstOfMonth(c: Date): (r: Date)
  {
    Civil(c.year, c.month, 1)
  }

  function NextDay(c: Date): (r: Date)
  {
    if c.day < DaysInMonth(c.year, c.month) then Civil(c.year, c.month, c.day + 1)
    else if c.month < 12 then Civil(c.year, c.month + 1, 1)
    else Civil(c.year + 1, 1, 1)
  }

  function PrevDay(c: Date): (r: Date)
  {
    if c.day > 1 then Civil(c.year, c.month, c.day - 1)
    else if c.month > 1 then Civil(c.year, c.month - 1, DaysInMonth(c.year, c.month - 1))
    else Civil(c.year - 1, 12, 31)
  }

  /** The date `k` days after (before, when negative) `c`. */
  function AddDays(c: Date, k: int): (d: Date)
    decreases if k < 0 then -k else k
  {
    if k == 0 then c
    else if k > 0 then AddDays(NextDay(c), k - 1)
    else AddDays(PrevDay(c), k + 1)
  }

  /** `d.setDate(v)`: day `v` of `d`'s month, where `v` outside the month
      moves forward or back across month (and year) boundaries. */
  function SetDate(c: Date, v: int): (d: Date)
  {
    AddDays(FirstOfMonth(c), v - 1)
  }

  /** `d.setMonth(v)` with `v` 1-based: the month number is normalised into
      a year and a month first, then the day of `c` is applied with the same
      overflow rule as `setDate`. */
  function SetMonth(c: Date, v: int): (d: Date)
  {
    var y := c.year + (v - 1) / 12;
    var m := (v - 1) % 12 + 1;
    AddDays(Civil(y, m, 1), c.day - 1)
  }

  // ----- Day-number arithmetic -----

  lemma YearLength(y: int)
    ensures DaysBeforeYear(y + 1) - DaysBeforeYear(y) == if IsLeapYear(y) then 366 else 365
  {
    FloorStep4(y);
    FloorStep100(y);
    FloorStep400(y);
  }

  lemma FloorStep4(y: int)
    ensures y / 4 - (y - 1) / 4 == if y % 4 == 0 then 1 else 0
  {
    assert y == 4 * (y / 4) + y % 4;
  }

  lemma FloorStep100(y: int)
    ensures y / 100 - (y - 1) / 100 == if y % 100 == 0 then 1 else 0
  {
    assert y == 100 * (y / 100) + y % 100;
  }

  lemma FloorStep400(y: int)
    ensures y / 400 - (y - 1) / 400 == if y % 400 == 0 then 1 else 0
  {
    assert y == 400 * (y / 400) + y % 400;
  }

  lemma DaysBeforeDecember(y: int)
    ensures DaysBeforeMonth(y, 12) + 31 == DaysBeforeYear(y + 1) - DaysBeforeYear(y)
  {
    YearLength(y);
  }

  /** The first of the next month is `DaysInMonth` days after the first. */
  lemma MonthStep(y: int, m: int)
    requires 1 <= m <= 12
    ensures Ord(Civil(if m < 12 then y else y + 1, if m < 12 then m + 1 else 1, 1))
         == Ord(Civil(y, m, 1)) + DaysInMonth(y, m)
  {
    if m == 12 { DaysBeforeDecember(y); } else { DaysBeforeNextMonth(y, m); }
  }

  lemma NextDayOrd(c: Date)
    ensures Ord(NextDay(c)) == Ord(c) + 1
  {
    if c.day == DaysInMonth(c.year, c.month) { MonthStep(c.year, c.month); }
  }

  lemma PrevDayOrd(c: Date)
    ensures Ord(PrevDay(c)) == Ord(c) - 1
  {
    if c.day == 1 {
      if c.month > 1 { MonthStep(c.year, c.month - 1); } else { MonthStep(c.year - 1, 12); }
    }
  }

  /** `AddDays` moves the day number by exactly `k`. */
  lemma {:induction false} AddDaysOrd(c: Date, k: int)
    ensures Ord(AddDays(c, k)) == Ord(c) + k
    decreases if k < 0 then -k else k
  {
    if k > 0 {
      NextDayOrd(c);
      AddDaysOrd(NextDay(c), k - 1);
    } else if k < 0 {
      PrevDayOrd(c);
      AddDaysOrd(PrevDay(c), k + 1);
    }
  }

  lemma {:induction false} DaysBeforeMonthBounds(y: int, m: int)
    requires 1 <= m <= 12
    ensures DaysBeforeMonth(y, m) + DaysInMonth(y, m) <= DaysBeforeYear(y + 1) - DaysBeforeYear(y)
    ensures forall n :: 1 <= n < m ==> DaysBeforeMonth(y, n) + DaysInMonth(y, n) <= DaysBeforeMonth(y, m)
  {
    YearLength(y);
  }

  lemma {:induction false} DaysBeforeYearGrows(y1: int, y2: int)
    requires y1 < y2
    ensures DaysBeforeYear(y1 + 1) <= DaysBeforeYear(y2)
    decreases y2 - y1
  {
    if y1 + 1 < y2 {
      YearLength(y1 + 1);
      DaysBeforeYearGrows(y1 + 1, y2);
    }
  }

  /** Day numbers follow the calendar order: an earlier year, or the same
      year and an earlier month, gives a smaller number. */
  lemma OrdMonotone(lo: Date, hi: Date)
    requires lo.year < hi.year || (lo.year == hi.year && lo.month < hi.month)
    ensures Ord(lo) < Ord(hi)
  {
    if lo.year < hi.year {
      DaysBeforeMonthBounds(lo.year, lo.month);
      DaysBeforeYearGrows(lo.year, hi.year);
    } else {
      DaysBeforeMonthBounds(lo.year, hi.month);
    }
  }

  /** Distinct dates have distinct day numbers. */
  lemma OrdInjective(a: Date, b: Date)
    requires Ord(a) == Ord(b)
    ensures a == b
  {
    if a.year < b.year || (a.year == b.year && a.month < b.month) {
      OrdMonotone(a, b);
    } else if b.year < a.year || (a.year == b.year && b.month < a.month) {
      OrdMonotone(b, a);
    }
  }

  /** Two dates are `k` days apart exactly when `AddDays` relates them. */
  lemma AddDaysByOrd(c: Date, k: int, d: Date)
    requires Ord(d) == Ord(c) + k
    ensures AddDays(c, k) == d
  {
    AddDaysOrd(c, k);
    OrdInjective(AddDays(c, k), d);
  }

  lemma AddDaysAdd(c: Date, a: int, b: int)
    ensures AddDays(AddDays(c, a), b) == AddDays(c, a + b)
  {
    AddDaysOrd(c, a);
    AddDaysOrd(AddDays(c, a), b);
    AddDaysByOrd(c, a + b, AddDays(AddDays(c, a), b));
  }

  /** `d.setDate(d.getDate() + k)` is a shift by `k` days. */
  lemma SetDateShift(c: Date, k: int)
    ensures SetDate(c, c.day + k) == AddDays(c, k)
    ensures Ord(SetDate(c, c.day + k)) == Ord(c) + k
  {
    AddDaysOrd(FirstOfMonth(c), c.day + k - 1);
    AddDaysByOrd(c, k, SetDate(c, c.day + k));
    AddDaysOrd(c, k);
  }

  /** The `j`-th day after the first of a month, while inside the month. */
  lemma InMonth(y: int, m: int, j: int)
    requires 1 <= m <= 12 && 0 <= j < DaysInMonth(y, m)
    ensures AddDays(Civil(y, m, 1), j) == Civil(y, m, j + 1)
  {
    AddDaysByOrd(Civil(y, m, 1), j, Civil(y, m, j + 1));
  }

  function NextMonthYear(y: int, m: int): int { if m < 12 then y else y + 1 }
  function NextMonth(m: int): int { if m < 12 then m + 1 else 1 }
  function PrevMonthYear(y: int, m: int): int { if m > 1 then y else y - 1 }
  function PrevMonth(m: int): int { if m > 1 then m - 1 else 12 }

  /** Counting past the end of a month lands in the next month, as long as
      the count stays within that month. */
  lemma PastMonthEnd(y: int, m: int, j: int)
    requires 1 <= m <= 12
    requires 0 <= j < DaysInMonth(NextMonthYear(y, m), NextMonth(m))
    ensures AddDays(Civil(y, m, 1), DaysInMonth(y, m) + j)
         == Civil(NextMonthYear(y, m), NextMonth(m), j + 1)
  {
    MonthStep(y, m);
    AddDaysByOrd(Civil(y, m, 1), DaysInMonth(y, m) + j,
                  Civil(NextMonthYear(y, m), NextMonth(m), j + 1));
  }

  /** Counting back from the first of a month lands in the previous month. */
  lemma BeforeMonthStart(y: int, m: int, j: int)
    requires 1 <= m <= 12
    requires 1 <= j <= DaysInMonth(PrevMonthYear(y, m), PrevMonth(m))
    ensures AddDays(Civil(y, m, 1), -j)
         == Civil(PrevMonthYear(y, m), PrevMonth(m), DaysInMonth(PrevMonthYear(y, m), PrevMonth(m)) + 1 - j)
  {
    var py, pm := PrevMonthYear(y, m), PrevMonth(m);
    MonthStep(py, pm);
    AddDaysByOrd(Civil(y, m, 1), -j, Civil(py, pm, DaysInMonth(py, pm) + 1 - j));
  }

  /** Shifting by whole weeks keeps the weekday. */
  lemma WeekdayShift(c: Date, k: int)
    ensures Weekday(AddDays(c, k)) == (Weekday(c) + k) % 7
  {
    AddDaysOrd(c, k);
    var q := Ord(c) + 1;
    assert q == 7 * (q / 7) + q % 7;
    ModShift(q / 7, q % 7 + k);
  }

  /** Going back `getDay()` days reaches the Sunday of the same week. */
  lemma SundayOnOrBefore(c: Date)
    ensures Ord(AddDays(c, -Weekday(c))) == Ord(c) - Weekday(c)
    ensures Weekday(AddDays(c, -Weekday(c))) == 0
  {
    AddDaysOrd(c, -Weekday(c));
    var q := Ord(c) + 1;
    assert q == 7 * (q / 7) + Weekday(c);
    ModShift(q / 7, 0);
  }

  lemma ModShift(t: int, x: int)
    ensures (7 * t + x) % 7 == x % 7
  {
  }

  /** Anchors of the day numbering: 1 January 1970 was a Thursday and
      1 October 2025 a Wednesday. */
  lemma KnownWeekdays()
    ensures Weekday(Civil(1970, 1, 1)) == 4
    ensures Weekday(Civil(2025, 10, 1)) == 3
  {
  }
}
