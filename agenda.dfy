/**
 * The doctor's agenda on the month grid: the `YYYY-MM-DD` key of a day and
 * the appointments `getAppointmentsForDay` puts in each cell.
 */
module Agenda {
  import Seqs
  import Text
  import Calendar
  import opened Records

  /**
   * The key `getAppointmentsForDay` builds for a day: the year as `String`
   * writes it, then the one-based month and the day, each padded to two
   * digits, separated by `-`.
   */
  function DayKey(year: int, month: int, day: nat): (key: string)
    requires 0 <= month < 12 && day < 100
    ensures |key| == |Text.IntToDecimal(year)| + 6
  {
    Text.TwoDigitsRoundTrip(month + 1);
    Text.TwoDigitsRoundTrip(day);
    Text.IntToDecimal(year) + "-" + Text.TwoDigits(month + 1) + "-" + Text.TwoDigits(day)
  }

  /** A year field and two two-character fields joined with `-` are cut back out at the separators. */
  lemma JoinedFields(a: string, b: string, c: string)
    requires |b| == 2 && |c| == 2
    ensures var k := a + "-" + b + "-" + c;
            var n := |k| - 6;
            && k[..n] == a
            && k[n + 1..n + 3] == b
            && k[n + 4..] == c
            && k[n] == '-' && k[n + 3] == '-'
  {
    var k := a + "-" + b + "-" + c;
    assert k[..|a|] == a;
    assert k[|a| + 1..|a| + 3] == b;
    assert k[|a| + 4..] == c;
  }

  /** A key cut at its separators: the year field, then the two two-digit fields. */
  lemma DayKeySlices(year: int, month: int, day: nat)
    requires 0 <= month < 12 && day < 100
    ensures var k := DayKey(year, month, day);
            var n := |k| - 6;
            && k[..n] == Text.IntToDecimal(year)
            && k[n + 1..n + 3] == Text.TwoDigits(month + 1)
            && k[n + 4..] == Text.TwoDigits(day)
            && k[n] == '-' && k[n + 3] == '-'
  {
    Text.TwoDigitsLength(month + 1);
    Text.TwoDigitsLength(day);
    JoinedFields(Text.IntToDecimal(year), Text.TwoDigits(month + 1), Text.TwoDigits(day));
  }

  /** The fields of a key, cut back out of it, read back as the year, the one-based month and the day. */
  lemma DayKeyFields(year: int, month: int, day: nat)
    requires 0 <= month < 12 && day < 100
    ensures var k := DayKey(year, month, day);
            var n := |k| - 6;
            && Text.ParseInt(k[..n]) == year
            && Text.AllDigits(k[n + 1..n + 3]) && Text.ParseDecimal(k[n + 1..n + 3]) == month + 1
            && Text.AllDigits(k[n + 4..]) && Text.ParseDecimal(k[n + 4..]) == day
  {
    DayKeySlices(year, month, day);
    Text.TwoDigitsRoundTrip(month + 1);
    Text.TwoDigitsRoundTrip(day);
    Text.IntToDecimalRoundTrip(year);
  }

  /** Different days have different keys. */
  lemma DayKeyInjective(y1: int, m1: int, d1: nat, y2: int, m2: int, d2: nat)
    requires 0 <= m1 < 12 && d1 < 100 && 0 <= m2 < 12 && d2 < 100
    requires DayKey(y1, m1, d1) == DayKey(y2, m2, d2)
    ensures y1 == y2 && m1 == m2 && d1 == d2
  {
    DayKeyFields(y1, m1, d1);
    DayKeyFields(y2, m2, d2);
  }

  /** The extended calendar-date form of ISO 8601: four digits, `-`, two digits, `-`, two digits. */
  predicate IsIsoCalendarDate(s: string) {
    && |s| == 10 && s[4] == '-' && s[7] == '-'
    && Text.AllDigits(s[..4]) && Text.AllDigits(s[5..7]) && Text.AllDigits(s[8..])
  }

  /**
   * For four-digit years the key is an ISO 8601 calendar date whose fields
   * read back as the year, the one-based month and the day.
   */
  lemma DayKeyIsIsoDate(year: int, month: int, day: nat)
    requires 1000 <= year <= 9999 && 0 <= month < 12 && day < 100
    ensures var key := DayKey(year, month, day);
            && IsIsoCalendarDate(key)
            && Text.ParseDecimal(key[..4]) == year
            && Text.ParseDecimal(key[5..7]) == month + 1
            && Text.ParseDecimal(key[8..]) == day
  {
    var ys := Text.Decimal(year);
    assert Text.Pow10(3) == 1000 && Text.Pow10(4) == 10000;
    assert |ys| == 4 by {
      if |ys| > 4 {
        Text.PowMonotone(4, |ys| - 1);
      } else if |ys| < 4 {
        Text.PowMonotone(|ys|, 3);
      }
    }
    Text.DecimalRoundTrip(year);
    Text.TwoDigitsRoundTrip(month + 1);
    Text.TwoDigitsRoundTrip(day);
    DayKeySlices(year, month, day);
  }

  /**
   * `getAppointmentsForDay(day)`: the appointments dated exactly with the
   * day's key, every occurrence kept, in agenda order.
   */
  function AppointmentsForDay(agenda: seq<Appointment>, year: int, month: int, day: nat): (r: seq<Appointment>)
    requires 0 <= month < 12 && day < 100
    ensures forall a :: a in r <==> a in agenda && a.date == DayKey(year, month, day)
    ensures forall a :: multiset(r)[a] == if a.date == DayKey(year, month, day) then multiset(agenda)[a] else 0
    ensures Seqs.IsSubsequence(r, agenda)
  {
    Seqs.Filter(agenda, (a: Appointment) => a.date == DayKey(year, month, day))
  }

  /** The appointments shown in a cell: none in a blank (`day ? ... : []`). */
  function CellAppointments(agenda: seq<Appointment>, year: int, month: int, cell: Calendar.Cell): (r: seq<Appointment>)
    requires 0 <= month < 12
    requires cell.Day? ==> cell.day < 100
    ensures cell.Blank? ==> r == []
    ensures cell.Day? ==> forall a :: a in r <==> a in agenda && a.date == DayKey(year, month, cell.day)
    ensures cell.Day? ==> forall a :: multiset(r)[a] == if a.date == DayKey(year, month, cell.day) then multiset(agenda)[a] else 0
    ensures cell.Day? ==> Seqs.IsSubsequence(r, agenda)
  {
    match cell
    case Blank => []
    case Day(d) => AppointmentsForDay(agenda, year, month, d)
  }

  /** An appointment is shown in at most one cell of a month's grid. */
  lemma AppointmentInAtMostOneCell(agenda: seq<Appointment>, year: int, month: int, a: Appointment, i: nat, j: nat)
    requires 0 <= month < 12
    requires i < j < |Calendar.MonthGrid(year, month)|
    ensures var cells := Calendar.MonthGrid(year, month);
            !(a in CellAppointments(agenda, year, month, cells[i]) && a in CellAppointments(agenda, year, month, cells[j]))
  {
    var cells := Calendar.MonthGrid(year, month);
    Calendar.MonthGridLayout(year, month);
    if cells[i].Day? && cells[j].Day? && a in AppointmentsForDay(agenda, year, month, cells[i].day)
       && a in AppointmentsForDay(agenda, year, month, cells[j].day)
    {
      DayKeyInjective(year, month, cells[i].day, year, month, cells[j].day);
    }
  }

  /** The key of 15 January 2026 is the date the first sample appointment carries. */
  lemma KeyOfJanuary15()
    ensures DayKey(2026, 0, 15) == "2026-01-15"
  {
    assert Text.Decimal(2) == "2";
    assert Text.Decimal(20) == "20";
    assert Text.Decimal(202) == "202";
    assert Text.IntToDecimal(2026) == "2026";
    assert Text.Decimal(1) == "1";
    assert Text.TwoDigits(1) == "01";
    assert Text.Decimal(15) == "15";
    assert Text.TwoDigits(15) == Text.Decimal(15);
  }

  /**
   * On the January 2026 grid the first sample appointment, dated
   * 2026-01-15, is listed on day 15 and on no other day.
   */
  lemma SampleAppointmentOnDay15(day: nat)
    requires 1 <= day <= Calendar.DaysInMonth(2026, 0)
    ensures SampleAgenda[0] in AppointmentsForDay(SampleAgenda, 2026, 0, day) <==> day == 15
  {
    KeyOfJanuary15();
    if day != 15 && DayKey(2026, 0, day) == DayKey(2026, 0, 15) {
      DayKeyInjective(2026, 0, day, 2026, 0, 15);
    }
  }
}
