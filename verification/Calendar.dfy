// Civil calendar arithmetic (libtransmission-app/converters.cc).
//
// SysDays is the source's closed form over 400-year eras. Its reference is
// NaiveDays, which only knows how long each month and each year is and adds
// the lengths up one by one from 1970-01-01.
module Calendar {

  datatype YearMonthDay = YearMonthDay(year: int, month: nat, day: nat, valid: bool)

  // C++ integer division, which truncates toward zero.
  function TruncDiv(a: int, b: int): int
    requires b > 0
  {
    if a >= 0 then a / b else -(-a / b)
  }

  predicate IsLeapYear(y: int) {
    y % 4 == 0 && (y % 100 != 0 || y % 400 == 0)
  }

  function DaysInMonth(y: int, m: nat): nat {
    match m
    case 1 | 3 | 5 | 7 | 8 | 10 | 12 => 31
    case 4 | 6 | 9 | 11 => 30
    case 2 => if IsLeapYear(y) then 29 else 28
    case _ => 0
  }

  predicate IsCivilDate(y: int, m: nat, d: nat) {
    1 <= m <= 12 && 1 <= d <= DaysInMonth(y, m)
  }

  // tr_year_month_day()
  function MakeDate(y: int, m: nat, d: nat): YearMonthDay {
    YearMonthDay(y, m, d, IsCivilDate(y, m, d))
  }

  // tr_sys_days(): days since 1970-01-01, from the month-shifted year that
  // starts in March.
  function SysDays(ymd: YearMonthDay): int {
    var year := if ymd.month <= 2 then ymd.year - 1 else ymd.year;
    var era := TruncDiv(if year >= 0 then year else year - 399, 400);
    var yoe := year - era * 400;
    var shifted := if ymd.month > 2 then ymd.month - 3 else ymd.month + 9;
    var doy := (153 * shifted + 2) / 5 + ymd.day - 1;
    var doe := yoe * 365 + yoe / 4 - yoe / 100 + doy;
    era * 146097 + doe - 719468
  }

  // ----- the naive count

  function DaysInYear(y: int): nat {
    if IsLeapYear(y) then 366 else 365
  }

  // Days from 1970-01-01 to January 1 of year y, one year at a time.
  ghost function DaysToYear(y: int): int
    decreases if y >= 1970 then y - 1970 else 1970 - y
  {
    if y == 1970 then 0
    else if y > 1970 then DaysToYear(y - 1) + DaysInYear(y - 1)
    else DaysToYear(y + 1) - DaysInYear(y)
  }

  // Days of year y before the first of month m, one month at a time.
  ghost function DaysToMonth(y: int, m: nat): nat
    requires 1 <= m <= 13
  {
    if m == 1 then 0 else DaysToMonth(y, m - 1) + DaysInMonth(y, m - 1)
  }

  ghost function NaiveDays(y: int, m: nat, d: nat): int
    requires IsCivilDate(y, m, d)
  {
    DaysToYear(y) + DaysToMonth(y, m) + d - 1
  }

  // The calendar day after a date.
  function NextDay(y: int, m: nat, d: nat): (int, nat, nat)
    requires IsCivilDate(y, m, d)
  {
    if d < DaysInMonth(y, m) then (y, m, d + 1)
    else if m < 12 then (y, m + 1, 1)
    else (y + 1, 1, 1)
  }

  ghost predicate Before(a: YearMonthDay, b: YearMonthDay) {
    || a.year < b.year
    || (a.year == b.year && a.month < b.month)
    || (a.year == b.year && a.month == b.month && a.day < b.day)
  }

  // ----- proofs

  // Leap days of the proleptic calendar before year y, with floor division.
  function LeapDays(y: int): int {
    (y - 1) / 4 - (y - 1) / 100 + (y - 1) / 400
  }

  lemma {:induction false} DaysToYearClosed(y: int)
    ensures DaysToYear(y) == 365 * (y - 1970) + LeapDays(y) - LeapDays(1970)
    decreases if y >= 1970 then y - 1970 else 1970 - y
  {
    if y > 1970 {
      DaysToYearClosed(y - 1);
      LeapDaysStep(y - 1);
    } else if y < 1970 {
      DaysToYearClosed(y + 1);
      LeapDaysStep(y);
    }
  }

  lemma FourStep(y: int)
    ensures y / 4 - (y - 1) / 4 == if y % 4 == 0 then 1 else 0
  {
  }

  lemma DivideBy100(x: int, q: int, r: int)
    requires x == 100 * q + r && 0 <= r < 100
    ensures x / 100 == q
  {
  }

  lemma DivideBy400(x: int, q: int, r: int)
    requires x == 400 * q + r && 0 <= r < 400
    ensures x / 400 == q
  {
  }

  lemma CenturyIsFourth(y: int)
    requires y % 100 == 0
    ensures y % 4 == 0
  {
    var q := y / 100;
    var f := 25 * q;
    assert y == 4 * f;
  }

  lemma EraIsCentury(y: int)
    requires y % 400 == 0
    ensures y % 100 == 0
  {
    var q := y / 400;
    var f := 4 * q;
    assert y == 100 * f;
  }

  lemma CenturyStep(y: int)
    ensures y / 100 - (y - 1) / 100 == if y % 100 == 0 then 1 else 0
  {
    var q, r := y / 100, y % 100;
    if r == 0 {
      DivideBy100(y - 1, q - 1, 99);
    } else {
      DivideBy100(y - 1, q, r - 1);
    }
  }

  lemma EraStep(y: int)
    ensures y / 400 - (y - 1) / 400 == if y % 400 == 0 then 1 else 0
  {
    var q, r := y / 400, y % 400;
    if r == 0 {
      DivideBy400(y - 1, q - 1, 399);
    } else {
      DivideBy400(y - 1, q, r - 1);
    }
  }

  lemma LeapDaysStep(y: int)
    ensures LeapDays(y + 1) - LeapDays(y) == if IsLeapYear(y) then 1 else 0
  {
    FourStep(y);
    CenturyStep(y);
    EraStep(y);
    if y % 400 == 0 {
      EraIsCentury(y);
    }
    if y % 100 == 0 {
      CenturyIsFourth(y);
    }
  }

  // The era arithmetic counts the same leap days as floor division.
  lemma EraIsFloor(year: int)
    ensures var era := TruncDiv(if year >= 0 then year else year - 399, 400);
            era == year / 400 && 0 <= year - era * 400 < 400
  {
  }

  lemma EraDays(year: int)
    ensures var era := year / 400;
            var yoe := year - era * 400;
            era * 146097 + yoe * 365 + yoe / 4 - yoe / 100
            == 365 * year + year / 4 - year / 100 + year / 400
  {
    var era := year / 400;
    var yoe := year - era * 400;
    assert 0 <= yoe < 400;
    assert year / 4 == era * 100 + yoe / 4;
    assert year / 100 == era * 4 + yoe / 100;
  }

  // Main result: the closed form is the naive day count, for every valid date
  // of every year.
  lemma SysDaysIsNaiveCount(y: int, m: nat, d: nat)
    requires MakeDate(y, m, d).valid
    ensures SysDays(MakeDate(y, m, d)) == NaiveDays(y, m, d)
  {
    var year := if m <= 2 then y - 1 else y;
    EraIsFloor(year);
    EraDays(year);
    DaysToYearClosed(y);
    LeapDaysStep(y);
    MonthOffset(y, m);
  }

  // The (153m + 2) / 5 rule is the month table counted from March.
  lemma MonthOffset(y: int, m: nat)
    requires 1 <= m <= 12
    ensures m > 2 ==> (153 * (m - 3) + 2) / 5 == DaysToMonth(y, m) - DaysToMonth(y, 3)
    ensures m <= 2 ==> (153 * (m + 9) + 2) / 5 == DaysToMonth(y, m) + 306
    ensures DaysToMonth(y, 3) == if IsLeapYear(y) then 60 else 59
  {
    assert DaysToMonth(y, 2) == 31;
    assert DaysToMonth(y, 3) == 31 + DaysInMonth(y, 2);
    assert DaysToMonth(y, 4) == DaysToMonth(y, 3) + 31;
    assert DaysToMonth(y, 5) == DaysToMonth(y, 4) + 30;
    assert DaysToMonth(y, 6) == DaysToMonth(y, 5) + 31;
    assert DaysToMonth(y, 7) == DaysToMonth(y, 6) + 30;
    assert DaysToMonth(y, 8) == DaysToMonth(y, 7) + 31;
    assert DaysToMonth(y, 9) == DaysToMonth(y, 8) + 31;
    assert DaysToMonth(y, 10) == DaysToMonth(y, 9) + 30;
    assert DaysToMonth(y, 11) == DaysToMonth(y, 10) + 31;
    assert DaysToMonth(y, 12) == DaysToMonth(y, 11) + 30;
  }

  lemma YearLength(y: int)
    ensures DaysToMonth(y, 13) == DaysInYear(y)
  {
    MonthOffset(y, 12);
  }

  // The next calendar day is always exactly one day later, across month ends,
  // year ends and leap days.
  lemma NextDayIsOneLater(y: int, m: nat, d: nat)
    requires MakeDate(y, m, d).valid
    ensures var (ny, nm, nd) := NextDay(y, m, d);
            MakeDate(ny, nm, nd).valid
            && SysDays(MakeDate(ny, nm, nd)) == SysDays(MakeDate(y, m, d)) + 1
  {
    var (ny, nm, nd) := NextDay(y, m, d);
    SysDaysIsNaiveCount(y, m, d);
    SysDaysIsNaiveCount(ny, nm, nd);
    if d == DaysInMonth(y, m) && m == 12 {
      YearLength(y);
      DaysToYearClosed(y);
      DaysToYearClosed(y + 1);
      LeapDaysStep(y);
    }
  }

  lemma {:induction false} DaysToMonthMonotone(y: int, m: nat, n: nat)
    requires 1 <= m <= n <= 13
    ensures DaysToMonth(y, m) <= DaysToMonth(y, n)
    ensures m < n ==> DaysToMonth(y, m) + DaysInMonth(y, m) <= DaysToMonth(y, n)
    decreases n - m
  {
    if m < n {
      DaysToMonthMonotone(y, m + 1, n);
    }
  }

  lemma {:induction false} DaysToYearMonotone(y: int, z: int)
    requires y < z
    ensures DaysToYear(y) + DaysInYear(y) <= DaysToYear(z)
    decreases z - y
  {
    DaysToYearClosed(y);
    DaysToYearClosed(y + 1);
    LeapDaysStep(y);
    if y + 1 < z {
      DaysToYearMonotone(y + 1, z);
    }
  }

  lemma EarlierIsSmaller(a: YearMonthDay, b: YearMonthDay)
    requires IsCivilDate(a.year, a.month, a.day) && IsCivilDate(b.year, b.month, b.day)
    requires Before(a, b)
    ensures NaiveDays(a.year, a.month, a.day) < NaiveDays(b.year, b.month, b.day)
  {
    if a.year < b.year {
      DaysToYearMonotone(a.year, b.year);
      DaysToMonthMonotone(a.year, a.month, 13);
      YearLength(a.year);
    } else {
      DaysToMonthMonotone(a.year, a.month, b.month);
    }
  }

  // Day numbers order valid dates exactly as the calendar does; in particular
  // no two valid dates share a day number.
  lemma SysDaysStrictlyMonotone(a: YearMonthDay, b: YearMonthDay)
    requires a == MakeDate(a.year, a.month, a.day) && a.valid
    requires b == MakeDate(b.year, b.month, b.day) && b.valid
    ensures Before(a, b) <==> SysDays(a) < SysDays(b)
    ensures a == b <==> SysDays(a) == SysDays(b)
  {
    SysDaysIsNaiveCount(a.year, a.month, a.day);
    SysDaysIsNaiveCount(b.year, b.month, b.day);
    if Before(a, b) {
      EarlierIsSmaller(a, b);
    } else if a != b {
      EarlierIsSmaller(b, a);
    }
  }
}
