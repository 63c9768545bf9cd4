/**
 * Calendar arithmetic behind the doctor's agenda: month lengths, the weekday
 * of the first of a month, the month grid and month-by-month navigation.
 *
 * Dates are proleptic Gregorian with astronomical year numbering (year 0
 * exists), as JavaScript's `Date` computes them. Days are counted by a day
 * number: day 0 is 0001-01-01, which was a Monday.
 */
module Calendar {

  /**
   * The year `new Date(year, ...)` actually uses: JavaScript reads the years
   * 0 to 99 as 1900 to 1999.
   */
  function DateYear(year: int): int {
    if 0 <= year <= 99 then 1900 + year else year
  }

  predicate IsLeapYear(y: int) {
    (y % 4 == 0 && y % 100 != 0) || y % 400 == 0
  }

  function YearLength(y: int): int {
    if IsLeapYear(y) then 366 else 365
  }

  /** The number of days of month m (0 = January) of Gregorian year y. */
  function MonthLength(y: int, m: int): int
    requires 0 <= m < 12
  {
    if m == 1 then (if IsLeapYear(y) then 29 else 28)
    else if m == 3 || m == 5 || m == 8 || m == 10 then 30
    else 31
  }

  /** The day number of January 1 of year y. */
  function DaysBeforeYear(y: int): int {
    365 * (y - 1) + (y - 1) / 4 - (y - 1) / 100 + (y - 1) / 400
  }

  /** Days from January 1 to the first of month m, from the cumulative table. */
  function DaysBeforeMonth(y: int, m: int): int
    requires 0 <= m < 12
  {
    [0, 31, 59, 90, 120, 151, 181, 212, 243, 273, 304, 334][m]
    + if m > 1 && IsLeapYear(y) then 1 else 0
  }

  /** The day number of day d of month m of year y; d may be 0 or past the month's end, as in `new Date(y, m, d)`. */
  function DayNumber(y: int, m: int, d: int): int
    requires 0 <= m < 12
  {
    DaysBeforeYear(y) + DaysBeforeMonth(y, m) + d - 1
  }

  /** The weekday of a day number, 0 = Sunday .. 6 = Saturday (`getDay`). */
  function Weekday(n: int): (w: int)
    ensures 0 <= w < 7
  {
    (n + 1) % 7
  }

  /** k days after a day comes the weekday k places further round the week. */
  lemma WeekdayAdvance(n: int, k: nat)
    ensures Weekday(n + k) == (Weekday(n) + k) % 7
  {
    var q, r := (n + 1) / 7, (n + 1) % 7;
    assert n + 1 == 7 * q + r;
    var q2, r2 := (r + k) / 7, (r + k) % 7;
    assert r + k == 7 * q2 + r2 && 0 <= r2 < 7;
    assert n + k + 1 == 7 * (q + q2) + r2;
  }

  lemma {:induction false} FloorDivStep(y: int, k: int)
    requires k == 4 || k == 100 || k == 400
    ensures y / k - (y - 1) / k == if y % k == 0 then 1 else 0
  {
    var q, r := (y - 1) / k, (y - 1) % k;
    assert y - 1 == k * q + r && 0 <= r < k;
    if r == k - 1 {
      assert y == k * (q + 1) + 0;
    } else {
      assert y == k * q + (r + 1);
    }
  }

  lemma DivisibilityChain(y: int)
    ensures y % 400 == 0 ==> y % 100 == 0
    ensures y % 100 == 0 ==> y % 4 == 0
  {
    if y % 400 == 0 {
      var q := y / 400;
      assert y == 100 * (4 * q);
    }
    if y % 100 == 0 {
      var q := y / 100;
      assert y == 4 * (25 * q);
    }
  }

  /** The closed-form day count advances by exactly the length of each year. */
  lemma YearTiling(y: int)
    ensures DaysBeforeYear(y + 1) == DaysBeforeYear(y) + YearLength(y)
  {
    var d4, d100, d400 := y / 4 - (y - 1) / 4, y / 100 - (y - 1) / 100, y / 400 - (y - 1) / 400;
    FloorDivStep(y, 4);
    FloorDivStep(y, 100);
    FloorDivStep(y, 400);
    DivisibilityChain(y);
    assert DaysBeforeYear(y + 1) == DaysBeforeYear(y) + 365 + d4 - d100 + d400;
  }

  /**
   * The first of the month after (y, m) comes MonthLength(y, m) days after
   * the first of (y, m), across the turn of the year too.
   */
  lemma MonthTiling(y: int, m: int)
    requires 0 <= m < 12
    ensures m < 11 ==> DayNumber(y, m + 1, 1) == DayNumber(y, m, 1) + MonthLength(y, m)
    ensures m == 11 ==> DayNumber(y + 1, 0, 1) == DayNumber(y, m, 1) + MonthLength(y, m)
  {
    if m == 11 {
      YearTiling(y);
    }
  }

  /**
   * `getDaysInMonth(year, month)`: the date of `new Date(year, month + 1, 0)`,
   * the day before the first of the following month.
   */
  function DaysInMonth(year: int, month: int): (n: int)
    requires 0 <= month < 12
    ensures 28 <= n <= 31
    ensures month in {0, 2, 4, 6, 7, 9, 11} ==> n == 31
    ensures month in {3, 5, 8, 10} ==> n == 30
    ensures month == 1 ==> (n == 29 <==> IsLeapYear(DateYear(year))) && (n == 28 <==> !IsLeapYear(DateYear(year)))
  {
    MonthLength(DateYear(year), month)
  }

  /**
   * Day 0 of the following month, the date `getDaysInMonth` constructs, is
   * the day numbered DaysInMonth in the month itself: the closed-form day
   * count and the month-length table agree.
   */
  lemma DaysInMonthIsLastDay(year: int, month: int)
    requires 0 <= month < 12
    ensures var y := DateYear(year);
            var n := DaysInMonth(year, month);
            (month < 11 ==> DayNumber(y, month + 1, 0) == DayNumber(y, month, n)) &&
            (month == 11 ==> DayNumber(y + 1, 0, 0) == DayNumber(y, month, n))
  {
    MonthTiling(DateYear(year), month);
  }

  /** `getFirstDayOfMonth(year, month)`: the weekday of `new Date(year, month, 1)`, 0 = Sunday. */
  function FirstDayOfMonth(year: int, month: int): (w: int)
    requires 0 <= month < 12
    ensures 0 <= w < 7
  {
    Weekday(DayNumber(DateYear(year), month, 1))
  }

  /** January 1, 2026 is a Thursday. */
  lemma FirstDayOfJanuary2026()
    ensures FirstDayOfMonth(2026, 0) == 4
  {
    assert DaysBeforeYear(2026) == 739125 + 506 - 20 + 5;
    assert DayNumber(2026, 0, 1) == 739616;
  }

  /** A month shown in the agenda: `currentYear` and the zero-based `currentMonth`. */
  datatype YearMonth = YearMonth(year: int, month: int)

  predicate ValidMonth(ym: YearMonth) {
    0 <= ym.month < 12
  }

  /** Months counted from January of year 0. */
  function MonthIndex(ym: YearMonth): int {
    ym.year * 12 + ym.month
  }

  /** The "previous month" button: from January back to December of the year before. */
  function Previous(ym: YearMonth): (r: YearMonth)
    requires ValidMonth(ym)
    ensures ValidMonth(r) && MonthIndex(r) == MonthIndex(ym) - 1
  {
    if ym.month == 0 then YearMonth(ym.year - 1, 11) else YearMonth(ym.year, ym.month - 1)
  }

  /** The "next month" button: from December on to January of the year after. */
  function Following(ym: YearMonth): (r: YearMonth)
    requires ValidMonth(ym)
    ensures ValidMonth(r) && MonthIndex(r) == MonthIndex(ym) + 1
  {
    if ym.month == 11 then YearMonth(ym.year + 1, 0) else YearMonth(ym.year, ym.month + 1)
  }

  /** Two valid months with the same index are the same month. */
  lemma MonthIndexInjective(a: YearMonth, b: YearMonth)
    requires ValidMonth(a) && ValidMonth(b) && MonthIndex(a) == MonthIndex(b)
    ensures a == b
  {
  }

  /** The two buttons undo each other. */
  lemma NavigationInverse(ym: YearMonth)
    requires ValidMonth(ym)
    ensures Following(Previous(ym)) == ym
    ensures Previous(Following(ym)) == ym
  {
    MonthIndexInjective(Following(Previous(ym)), ym);
    MonthIndexInjective(Previous(Following(ym)), ym);
  }

  /**
   * The month after ym starts on the weekday right after ym's last day,
   * unless the step crosses into or out of the years 0 to 99 that `Date`
   * reads as 1900 to 1999.
   */
  lemma FollowingMonthWeekday(ym: YearMonth)
    requires ValidMonth(ym)
    requires ym.month < 11 || (ym.year != -1 && ym.year != 99)
    ensures var next := Following(ym);
            FirstDayOfMonth(next.year, next.month)
            == (FirstDayOfMonth(ym.year, ym.month) + DaysInMonth(ym.year, ym.month)) % 7
  {
    var y := DateYear(ym.year);
    MonthTiling(y, ym.month);
    WeekdayAdvance(DayNumber(y, ym.month, 1), MonthLength(y, ym.month));
  }

  /** A cell of the month grid: a leading blank or a numbered day. */
  datatype Cell = Blank | Day(day: nat)

  /**
   * `[...emptyDays, ...days]`: `firstDay` blanks followed by the days 1 to
   * `daysInMonth`.
   */
  function GridCells(firstDay: nat, daysInMonth: nat): (cells: seq<Cell>)
    ensures |cells| == firstDay + daysInMonth
    ensures forall i :: 0 <= i < |cells| ==> (cells[i].Blank? <==> i < firstDay)
    ensures forall i :: 0 <= i < |cells| && cells[i].Day? ==> cells[i].day == i - firstDay + 1
  {
    seq(firstDay, _ => Blank) + seq(daysInMonth, i requires 0 <= i < daysInMonth => Day(i + 1))
  }

  /** The cells `renderCalendar` lays out for a month. */
  function MonthGrid(year: int, month: int): (cells: seq<Cell>)
    requires 0 <= month < 12
    ensures |cells| == FirstDayOfMonth(year, month) + DaysInMonth(year, month)
    ensures forall i :: 0 <= i < |cells| ==> (cells[i].Blank? <==> i < FirstDayOfMonth(year, month))
    ensures forall i :: 0 <= i < |cells| && cells[i].Day? ==> cells[i].day == i - FirstDayOfMonth(year, month) + 1
  {
    GridCells(FirstDayOfMonth(year, month), DaysInMonth(year, month))
  }

  /**
   * Every blank precedes every day, the days increase along the grid, and
   * each day of the month has exactly one cell.
   */
  lemma MonthGridLayout(year: int, month: int)
    requires 0 <= month < 12
    ensures var cells := MonthGrid(year, month);
            && (forall i, j :: 0 <= i < j < |cells| && cells[j].Blank? ==> cells[i].Blank?)
            && (forall i, j :: 0 <= i < j < |cells| && cells[i].Day? ==> cells[j].Day? && cells[i].day < cells[j].day)
            && (forall d :: 1 <= d <= DaysInMonth(year, month) ==>
                  forall i :: 0 <= i < |cells| ==> (cells[i] == Day(d) <==> i == FirstDayOfMonth(year, month) + d - 1))
            && (forall i :: 0 <= i < |cells| && cells[i].Day? ==> 1 <= cells[i].day <= DaysInMonth(year, month))
  {
  }

  /**
   * At most six leading blanks and 31 days: never more than 37 cells, so
   * with seven columns the grid never needs more than six rows.
   */
  lemma MonthGridFitsSixWeeks(year: int, month: int)
    requires 0 <= month < 12
    ensures 28 <= |MonthGrid(year, month)| <= 6 + 31
  {
  }

  /** January 2026: four blanks (Sunday to Wednesday), then the 31 days, 35 cells in all. */
  lemma January2026Grid()
    ensures var cells := MonthGrid(2026, 0);
            && |cells| == 35
            && (forall i :: 0 <= i < 4 ==> cells[i] == Blank)
            && cells[4] == Day(1) && cells[34] == Day(31)
  {
    FirstDayOfJanuary2026();
  }
}
