/** The civil-date day count of examples/court_ingest.rs against the proleptic
    Gregorian calendar (leap years and month lengths as in section 5.7 and
    Appendix C of RFC 3339). */
module CivilDate {
  import opened Options

  datatype Date = Date(year: int, month: int, day: int)

  // ----- the calendar -----

  predicate IsLeap(y: int) {
    y % 4 == 0 && (y % 100 != 0 || y % 400 == 0)
  }

  function YearDays(y: int): int {
    if IsLeap(y) then 366 else 365
  }

  function MonthDays(y: int, m: int): int {
    if m == 2 then (if IsLeap(y) then 29 else 28) else if m == 4 || m == 6 || m == 9 || m == 11 then 30 else 31
  }

  predicate Valid(date: Date) {
    1 <= date.month <= 12 && 1 <= date.day <= MonthDays(date.year, date.month)
  }

  /** Days from 1 January 1970 to 1 January of `y`, year by year. */
  function YearStart(y: int): int
    decreases if y < 1970 then 1970 - y else y - 1970
  {
    if y == 1970 then 0
    else if y > 1970 then YearStart(y - 1) + YearDays(y - 1)
    else YearStart(y + 1) - YearDays(y)
  }

  /** Days of year `y` before month `m`, month by month. */
  function MonthStart(y: int, m: int): int
    requires 1 <= m <= 12
  {
    if m == 1 then 0 else MonthStart(y, m - 1) + MonthDays(y, m - 1)
  }

  /** Days since 1 January 1970. */
  function DayNumber(date: Date): int
    requires Valid(date)
  {
    YearStart(date.year) + MonthStart(date.year, date.month) + date.day - 1
  }

  function NextDay(date: Date): Date {
    if date.day < MonthDays(date.year, date.month) then date.(day := date.day + 1)
    else if date.month < 12 then Date(date.year, date.month + 1, 1)
    else Date(date.year + 1, 1, 1)
  }

  function PreviousDay(date: Date): Date {
    if date.day > 1 then date.(day := date.day - 1)
    else if date.month > 1 then Date(date.year, date.month - 1, MonthDays(date.year, date.month - 1))
    else Date(date.year - 1, 12, 31)
  }

  predicate Earlier(a: Date, b: Date) {
    || a.year < b.year
    || (a.year == b.year && a.month < b.month)
    || (a.year == b.year && a.month == b.month && a.day < b.day)
  }

  // ----- the count as the driver computes it -----

  /** Integer division of the driver: toward zero. */
  function TruncDiv(a: int, b: int): int
    requires b > 0
  {
    if a >= 0 then a / b else -((-a) / b)
  }

  function Era(y: int): int {
    TruncDiv(if y >= 0 then y else y - 399, 400)
  }

  function DaysFromCivil(y: int, m: int, d: int): int {
    var y2 := if m <= 2 then y - 1 else y;
    var era := Era(y2);
    var yoe := y2 - era * 400;
    var mp := (m + 9) % 12;
    var doy := TruncDiv(153 * mp + 2, 5) + d - 1;
    var doe := yoe * 365 + TruncDiv(yoe, 4) - TruncDiv(yoe, 100) + doy;
    era * 146_097 + doe - 719_468
  }

  /** The parsed fields to (year, seconds since the epoch). */
  function CivilSeconds(y: int, m: int, d: int): Option<(int, int)> {
    if !(1 <= m <= 12) || !(1 <= d <= 31) then None else Some((y, DaysFromCivil(y, m, d) * 86_400))
  }

  // ----- the count is the calendar's -----

  /** The branch on the sign turns division toward zero into floor division, so
      the year of the era is always in `[0, 400)`. */
  lemma EraFloors(y: int)
    ensures 400 * Era(y) <= y < 400 * Era(y) + 400
  {}

  /** The count by March years in closed form. */
  function MarchStart(y: int): int {
    365 * y + y / 4 - y / 100 + y / 400 - 719_468
  }

  /** Days from 1 March to the first of month `m`. */
  function MarchDays(m: int): int {
    (153 * ((m + 9) % 12) + 2) / 5
  }

  lemma ClosedForm(y: int, m: int, d: int)
    requires 1 <= m <= 12
    ensures DaysFromCivil(y, m, d) ==
            MarchStart(if m <= 2 then y - 1 else y) + MarchDays(m) + d - 1
  {
    var y2 := if m <= 2 then y - 1 else y;
    EraFloors(y2);
    var era, yoe := Era(y2), y2 - Era(y2) * 400;
    EraSplit(y2, era, yoe);
  }

  lemma EraSplit(y: int, era: int, yoe: int)
    requires y == 400 * era + yoe && 0 <= yoe < 400
    ensures y / 4 == 100 * era + yoe / 4 && y / 100 == 4 * era + yoe / 100 && y / 400 == era
  {}

  lemma MarchStep(y: int)
    ensures MarchStart(y) == MarchStart(y - 1) + 365 + if IsLeap(y) then 1 else 0
  {
    assert y / 4 == (y - 1) / 4 + if y % 4 == 0 then 1 else 0;
    assert y / 100 == (y - 1) / 100 + if y % 100 == 0 then 1 else 0;
    assert y / 400 == (y - 1) / 400 + if y % 400 == 0 then 1 else 0;
  }

  lemma {:induction false} YearStartIs(y: int)
    ensures YearStart(y) == MarchStart(y - 1) + 306
    decreases if y < 1970 then 1970 - y else y - 1970
  {
    if y > 1970 {
      YearStartIs(y - 1);
      MarchStep(y - 1);
    } else if y < 1970 {
      YearStartIs(y + 1);
      MarchStep(y);
    }
  }

  /** March days grow by each month's length. */
  lemma MarchDaysStep(y: int, m: int)
    requires 1 <= m <= 12
    ensures m != 2 && m != 12 ==> MarchDays(m + 1) == MarchDays(m) + MonthDays(y, m)
    ensures MarchDays(1) == 306 && MarchDays(3) == 0 && MarchDays(2) == 337
  {
    hide IsLeap;
    if m == 1 {} else if m == 3 {} else if m == 4 {} else if m == 5 {} else if m == 6 {} else if m == 7 {}
    else if m == 8 {} else if m == 9 {} else if m == 10 {} else if m == 11 {}
  }

  lemma {:induction false} MonthStartIs(y: int, m: int)
    requires 1 <= m <= 12
    ensures m <= 2 ==> MonthStart(y, m) == MarchDays(m) - 306
    ensures m > 2 ==> MonthStart(y, m) == 59 + (if IsLeap(y) then 1 else 0) + MarchDays(m)
  {
    hide MarchDays, IsLeap;
    MarchDaysStep(y, 1);
    if m > 1 {
      MonthStartIs(y, m - 1);
      MarchDaysStep(y, m - 1);
    }
  }

  /** For every valid date, of any year, the driver's count is the number of
      days since 1 January 1970. */
  lemma CountsDays(date: Date)
    requires Valid(date)
    ensures DaysFromCivil(date.year, date.month, date.day) == DayNumber(date)
  {
    hide *;
    var y, m := date.year, date.month;
    DayNumberIs(date);
    ClosedForm(y, m, date.day);
    YearStartIs(y);
    MonthStartIs(y, m);
    MarchStep(y);
  }

  lemma DayNumberIs(date: Date)
    requires Valid(date)
    ensures DayNumber(date) == YearStart(date.year) + MonthStart(date.year, date.month) + date.day - 1
    ensures 1 <= date.month <= 12
  {}

  /** The epoch, and the next civil day: always one more, across month ends and
      leap years. */
  lemma NextDayCounts(date: Date)
    requires Valid(date)
    ensures Valid(NextDay(date)) && DayNumber(NextDay(date)) == DayNumber(date) + 1
    ensures DayNumber(Date(1970, 1, 1)) == 0
  {
    hide IsLeap;
    if date.month == 12 {
      WholeYear(date.year);
      YearStep(date.year);
    }
  }

  lemma YearStep(y: int)
    ensures YearStart(y + 1) == YearStart(y) + YearDays(y)
  {}

  lemma WholeYear(y: int)
    ensures MonthStart(y, 12) + 31 == YearDays(y)
  {
    hide IsLeap;
    MonthStartIs(y, 12);
  }

  lemma PreviousDayCounts(date: Date)
    requires Valid(date)
    ensures Valid(PreviousDay(date)) && NextDay(PreviousDay(date)) == date
    ensures DayNumber(PreviousDay(date)) == DayNumber(date) - 1
  {
    hide IsLeap, YearStart, MonthStart;
    assert Valid(PreviousDay(date));
    NextDayCounts(PreviousDay(date));
  }

  /** Every day number is reached. */
  lemma {:induction false} EveryDay(n: int) returns (date: Date)
    ensures Valid(date) && DayNumber(date) == n
    decreases if n < 0 then -n else n
  {
    hide MonthDays, YearStart, MonthStart, NextDay, PreviousDay, DayNumber;
    if n == 0 {
      date := Date(1970, 1, 1);
      NextDayCounts(date) by { FirstValid(1970); }
      FirstValid(1970);
    } else if n > 0 {
      date := EveryDay(n - 1);
      NextDayCounts(date);
      date := NextDay(date);
    } else {
      date := EveryDay(n + 1);
      PreviousDayCounts(date);
      date := PreviousDay(date);
    }
  }

  lemma FirstValid(y: int)
    ensures Valid(Date(y, 1, 1))
  {}

  lemma {:induction false} YearsAscend(y: int, z: int)
    requires y < z
    ensures YearStart(y) + YearDays(y) <= YearStart(z)
    decreases z - y
  {
    YearStep(z - 1);
    if y < z - 1 {
      hide YearStart;
      YearsAscend(y, z - 1);
    }
  }

  lemma {:induction false} MonthsAscend(y: int, m: int, n: int)
    requires 1 <= m < n <= 12
    ensures MonthStart(y, m) + MonthDays(y, m) <= MonthStart(y, n)
    decreases n
  {
    if m < n - 1 {
      MonthsAscend(y, m, n - 1);
    }
  }

  lemma WithinYear(date: Date)
    requires Valid(date)
    ensures YearStart(date.year) <= DayNumber(date) < YearStart(date.year) + YearDays(date.year)
  {
    hide IsLeap, YearStart;
    WholeYear(date.year);
    if date.month < 12 {
      MonthsAscend(date.year, date.month, 12);
    }
    if date.month > 1 {
      MonthsAscend(date.year, 1, date.month);
    }
  }

  /** Earlier dates have smaller counts. */
  lemma EarlierCounts(a: Date, b: Date)
    requires Valid(a) && Valid(b) && Earlier(a, b)
    ensures DayNumber(a) < DayNumber(b)
  {
    hide YearStart, MonthStart, IsLeap;
    if a.year < b.year {
      hide DayNumber;
      WithinYear(a);
      WithinYear(b);
      YearsAscend(a.year, b.year);
    } else if a.month < b.month {
      MonthsAscend(a.year, a.month, b.month);
    }
  }

  /** The driver's seconds order dates exactly as the calendar does, so distinct
      dates never share a timestamp. */
  lemma SecondsOrder(a: Date, b: Date)
    requires Valid(a) && Valid(b)
    ensures CivilSeconds(a.year, a.month, a.day).Some? && CivilSeconds(b.year, b.month, b.day).Some?
    ensures Earlier(a, b) <==>
            CivilSeconds(a.year, a.month, a.day).value.1 < CivilSeconds(b.year, b.month, b.day).value.1
  {
    hide DaysFromCivil, DayNumber;
    CountsDays(a);
    CountsDays(b);
    if Earlier(a, b) {
      EarlierCounts(a, b);
    } else if Earlier(b, a) {
      EarlierCounts(b, a);
    }
  }

  /** The driver also takes days past the end of a month, and counts them on into
      the next month: it takes a date that does not exist if and only if the day
      is at most 31 and past its month's end. */
  lemma OverlongDay(y: int, m: int, d: int)
    ensures CivilSeconds(y, m, d).Some? && !Valid(Date(y, m, d)) <==> 1 <= m <= 12 && MonthDays(y, m) < d <= 31
    ensures 1 <= m <= 12 && MonthDays(y, m) < d <= 31 ==>
              Valid(Date(y, m + 1, d - MonthDays(y, m))) &&
              CivilSeconds(y, m, d).value.1 == DayNumber(Date(y, m + 1, d - MonthDays(y, m))) * 86_400
  {
    hide DaysFromCivil;
    if 1 <= m <= 12 && MonthDays(y, m) < d <= 31 {
      var last := Date(y, m, MonthDays(y, m));
      CountsDays(last);
      ClosedForm(y, m, d);
      ClosedForm(y, m, last.day);
      assert m < 12;
    }
  }
}
