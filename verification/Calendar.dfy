/** The day count of a Gregorian date: two closed forms, and the count they stand for. */
module Calendar {

  datatype Date = Date(year: int, month: int, day: int)

  predicate Leap(year: int) { year % 4 == 0 && (year % 100 != 0 || year % 400 == 0) }

  function MonthLength(year: int, month: int): (days: int)
    requires 1 <= month <= 12
    ensures 28 <= days <= 31
  {
    [31, 28, 31, 30, 31, 30, 31, 31, 30, 31, 30, 31][month - 1] + (if month == 2 && Leap(year) then 1 else 0)
  }

  predicate Valid(date: Date) {
    1 <= date.month <= 12 && 1 <= date.day <= MonthLength(date.year, date.month)
  }

  // ----- Counting days one year and one month at a time -----

  function YearLength(year: int): int { if Leap(year) then 366 else 365 }

  /** Days from 1970-01-01 to the first day of the year. */
  function DaysToYear(year: int): int
    decreases if year > 1970 then year - 1970 else 1970 - year
  {
    if year == 1970 then 0
    else if year > 1970 then DaysToYear(year - 1) + YearLength(year - 1)
    else DaysToYear(year + 1) - YearLength(year)
  }

  function DaysToMonth(year: int, month: int): int
    requires 1 <= month <= 13
  {
    if month == 1 then 0 else DaysToMonth(year, month - 1) + MonthLength(year, month - 1)
  }

  function CountedDays(date: Date): int
    requires Valid(date)
  {
    DaysToYear(date.year) + DaysToMonth(date.year, date.month) + date.day - 1
  }

  function NextDay(date: Date): Date
    requires Valid(date)
  {
    if date.day < MonthLength(date.year, date.month) then date.(day := date.day + 1)
    else if date.month < 12 then Date(date.year, date.month + 1, 1)
    else Date(date.year + 1, 1, 1)
  }

  predicate Before(a: Date, b: Date) {
    a.year < b.year || (a.year == b.year && (a.month < b.month || (a.month == b.month && a.day < b.day)))
  }

  // ----- The closed forms -----

  /** Division of the source language, which rounds toward zero. */
  function TruncDiv(a: int, b: int): int
    requires b > 0
  {
    if a >= 0 then a / b else -((-a) / b)
  }

  /** Unsigned 32-bit arithmetic. */
  function U32(x: int): int {
    if 0 <= x < 0x1_0000_0000 then x else x % 0x1_0000_0000
  }

  function Era(year: int): int { TruncDiv(if year >= 0 then year else year - 399, 400) }

  function DayOfYear(shifted: int, day: int): int { U32(U32(153 * shifted + 2) / 5 + day - 1) }

  function DayOfEra(yoe: int, doy: int): int {
    U32(U32(U32(yoe * 365) + yoe / 4 - yoe / 100) + doy)
  }

  function DayNumber(year: int, doy: int): int {
    Era(year) * 146097 + DayOfEra(U32(year - Era(year) * 400), doy) - 719468
  }

  /** The year that a date falls in when years start in March. */
  function MarchYear(date: Date): int { date.year - (if date.month <= 2 then 1 else 0) }

  function ShiftedMonth(month: int): int { if month > 2 then U32(month - 3) else U32(month + 9) }

  function OracleShiftedMonth(month: int): int { U32(month + (if month > 2 then U32(-3) else 9)) }

  /** The copy in the timestamp parser, which picks the shift of the month by a branch. */
  function CivilDays(date: Date): int {
    DayNumber(MarchYear(date), DayOfYear(ShiftedMonth(date.month), date.day))
  }

  /** The copy in the Oracle code, which adds a shift that wraps around when it is negative. */
  function OracleCivilDays(date: Date): int {
    DayNumber(MarchYear(date), DayOfYear(OracleShiftedMonth(date.month), date.day))
  }

  // ----- Eras -----

  /** Days from 1970-01-01 to the first of March. */
  function DaysToMarch(year: int): int {
    365 * year + year / 4 - year / 100 + year / 400 - 719468
  }

  lemma EraFloors(year: int)
    ensures Era(year) == year / 400 && 0 <= year - Era(year) * 400 < 400
  {
  }

  lemma EraSplits(year: int)
    ensures var era, yoe := year / 400, year - year / 400 * 400;
            DaysToMarch(year) == era * 146097 + yoe * 365 + yoe / 4 - yoe / 100 - 719468
  {
    var era := year / 400;
    var yoe := year - era * 400;
    assert year / 4 == era * 100 + yoe / 4;
    assert year / 100 == era * 4 + yoe / 100;
  }

  lemma FloorStep(year: int, n: int)
    requires n == 4 || n == 100 || n == 400
    ensures year / n == (year - 1) / n + (if year % n == 0 then 1 else 0)
  {
  }

  lemma DivStep(year: int)
    ensures DaysToMarch(year) == DaysToMarch(year - 1) + YearLength(year)
  {
    FloorStep(year, 4);
    FloorStep(year, 100);
    FloorStep(year, 400);
    LeapCounts(year);
  }

  /** Leap years as the divisors count them. */
  lemma LeapCounts(year: int)
    ensures YearLength(year) == 365 + (if year % 4 == 0 then 1 else 0) - (if year % 100 == 0 then 1 else 0)
                                + (if year % 400 == 0 then 1 else 0)
  {
  }

  /** March follows the 59 or 60 days of January and February. */
  lemma {:induction false} MarchCounted(year: int)
    ensures DaysToMarch(year) == DaysToYear(year) + YearLength(year) - 306
    decreases if year > 1970 then year - 1970 else 1970 - year
  {
    if year > 1970 {
      MarchCounted(year - 1);
      DivStep(year);
    } else if year < 1970 {
      MarchCounted(year + 1);
      DivStep(year + 1);
    }
  }

  // ----- Months -----

  /** Days from the first of March, in the year that starts there. */
  function ShiftedDays(month: int): int
    requires 1 <= month <= 12
  {
    (153 * (if month > 2 then month - 3 else month + 9) + 2) / 5
  }

  lemma MonthsCounted(year: int, month: int)
    requires 1 <= month <= 12
    ensures month > 2 ==> DaysToMonth(year, month) == YearLength(year) - 306 + ShiftedDays(month)
    ensures month <= 2 ==> DaysToMonth(year, month) == ShiftedDays(month) - 306
  {
    FirstHalf(year);
    SecondHalf(year);
  }

  lemma FirstHalf(year: int)
    ensures DaysToMonth(year, 1) == 0 && DaysToMonth(year, 2) == 31
    ensures DaysToMonth(year, 3) == YearLength(year) - 306
    ensures DaysToMonth(year, 4) == YearLength(year) - 275
    ensures DaysToMonth(year, 5) == YearLength(year) - 245
    ensures DaysToMonth(year, 6) == YearLength(year) - 214
    ensures DaysToMonth(year, 7) == YearLength(year) - 184
  {
  }

  lemma SecondHalf(year: int)
    ensures DaysToMonth(year, 8) == YearLength(year) - 153
    ensures DaysToMonth(year, 9) == YearLength(year) - 122
    ensures DaysToMonth(year, 10) == YearLength(year) - 92
    ensures DaysToMonth(year, 11) == YearLength(year) - 61
    ensures DaysToMonth(year, 12) == YearLength(year) - 31
    ensures DaysToMonth(year, 13) == YearLength(year)
  {
    FirstHalf(year);
  }

  lemma DayOfEraSmall(yoe: int, doy: int)
    requires 0 <= yoe < 400 && 0 <= doy < 400
    ensures DayOfEra(yoe, doy) == yoe * 365 + yoe / 4 - yoe / 100 + doy
  {
  }

  lemma DayNumberSmall(year: int, doy: int)
    requires 0 <= doy < 400
    ensures DayNumber(year, doy) == DaysToMarch(year) + doy
  {
    EraFloors(year);
    EraSplits(year);
    DayOfEraSmall(year - Era(year) * 400, doy);
  }

  lemma DayOfYearSmall(month: int, day: int)
    requires 1 <= month <= 12 && 1 <= day <= 31
    ensures DayOfYear(ShiftedMonth(month), day) == ShiftedDays(month) + day - 1
    ensures 0 <= ShiftedDays(month) <= 337
  {
  }

  /** Nothing in the closed form wraps. */
  lemma CivilUnfolds(date: Date)
    requires 1 <= date.month <= 12 && 1 <= date.day <= 31
    ensures CivilDays(date) == DaysToMarch(MarchYear(date)) + ShiftedDays(date.month) + date.day - 1
  {
    DayOfYearSmall(date.month, date.day);
    DayNumberSmall(MarchYear(date), ShiftedDays(date.month) + date.day - 1);
  }

  // ----- The theorems -----

  lemma CivilCounted(date: Date)
    requires Valid(date)
    ensures CivilDays(date) == CountedDays(date)
  {
    CivilUnfolds(date);
    MonthsCounted(date.year, date.month);
    if date.month > 2 {
      MarchCounted(date.year);
    } else {
      MarchCounted(date.year);
      DivStep(date.year);
    }
  }

  /** The two copies agree on every valid date. */
  lemma CopiesAgree(date: Date)
    requires Valid(date)
    ensures OracleCivilDays(date) == CivilDays(date)
  {
    ShiftsAgree(date.month);
  }

  lemma ShiftsAgree(month: int)
    requires 1 <= month <= 12
    ensures OracleShiftedMonth(month) == ShiftedMonth(month)
  {
  }

  /** Both closed forms give the counted days, for every year before or after 1970. */
  lemma CivilCountsDays(date: Date)
    requires Valid(date)
    ensures CivilDays(date) == OracleCivilDays(date) == CountedDays(date)
  {
    CivilCounted(date);
    CopiesAgree(date);
  }

  lemma NextDayCounts(date: Date)
    requires Valid(date)
    ensures Valid(NextDay(date)) && CountedDays(NextDay(date)) == CountedDays(date) + 1
  {
    SecondHalf(date.year);
    if date.year < 1970 {
      assert DaysToYear(date.year + 1) == DaysToYear(date.year) + YearLength(date.year);
    }
  }

  lemma {:induction false} YearsOrdered(a: int, b: int)
    requires a <= b
    ensures DaysToYear(a) + 365 * (b - a) <= DaysToYear(b)
    decreases b - a
  {
    if a < b {
      YearsOrdered(a, b - 1);
    }
  }

  lemma {:induction false} MonthsOrdered(year: int, a: int, b: int)
    requires 1 <= a <= b <= 13
    ensures DaysToMonth(year, a) + 28 * (b - a) <= DaysToMonth(year, b)
    ensures a < b ==> DaysToMonth(year, a) + MonthLength(year, a) <= DaysToMonth(year, b)
    decreases b - a
  {
    if a < b {
      MonthsOrdered(year, a, b - 1);
    }
  }

  lemma WithinYear(date: Date)
    requires Valid(date)
    ensures DaysToYear(date.year) <= CountedDays(date) < DaysToYear(date.year + 1)
  {
    MonthsOrdered(date.year, 1, date.month);
    MonthsOrdered(date.year, date.month, 13);
    SecondHalf(date.year);
  }

  /** The count keeps the order of dates, so it tells any two apart. */
  lemma CountKeepsOrder(a: Date, b: Date)
    requires Valid(a) && Valid(b)
    ensures Before(a, b) <==> CountedDays(a) < CountedDays(b)
    ensures a == b <==> CountedDays(a) == CountedDays(b)
  {
    if Before(a, b) {
      BeforeCounts(a, b);
    } else if Before(b, a) {
      BeforeCounts(b, a);
    }
  }

  lemma BeforeCounts(a: Date, b: Date)
    requires Valid(a) && Valid(b) && Before(a, b)
    ensures CountedDays(a) < CountedDays(b)
  {
    if a.year < b.year {
      WithinYear(a);
      WithinYear(b);
      YearsOrdered(a.year + 1, b.year);
    } else if a.month < b.month {
      MonthsOrdered(a.year, a.month, b.month);
    }
  }
}
