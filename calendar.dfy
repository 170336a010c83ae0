/** The calendar rules Python's `datetime.date(year, month, day)` enforces:
    MINYEAR = 1 <= year <= MAXYEAR = 9999, 1 <= month <= 12 and
    1 <= day <= the number of days in that month of the proleptic Gregorian
    calendar. Any other triple makes the constructor raise `ValueError`. */
module Calendar {

  predicate IsLeapYear(year: int) {
    year % 4 == 0 && (year % 100 != 0 || year % 400 == 0)
  }

  function DaysInMonth(year: int, month: int): (days: nat)
    requires 1 <= month <= 12
    ensures 28 <= days <= 31
  {
    if month == 2 then (if IsLeapYear(year) then 29 else 28)
    else if month == 4 || month == 6 || month == 9 || month == 11 then 30
    else 31
  }

  /** `date(year, month, day)` succeeds. */
  predicate IsValidDate(year: int, month: int, day: int) {
    1 <= year <= 9999 && 1 <= month <= 12 && 1 <= day <= DaysInMonth(year, month)
  }

  /** The twelve month lengths add up to the length of the Gregorian year:
      366 days in a leap year, 365 otherwise. */
  lemma YearLength(year: int)
    ensures DaysInMonth(year, 1) + DaysInMonth(year, 2) + DaysInMonth(year, 3)
          + DaysInMonth(year, 4) + DaysInMonth(year, 5) + DaysInMonth(year, 6)
          + DaysInMonth(year, 7) + DaysInMonth(year, 8) + DaysInMonth(year, 9)
          + DaysInMonth(year, 10) + DaysInMonth(year, 11) + DaysInMonth(year, 12)
          == if IsLeapYear(year) then 366 else 365
  {
  }

  /** The month table: February has 29 days in a leap year and 28 otherwise,
      April, June, September and November have 30, and the other seven 31. */
  lemma MonthLengths(year: int, month: int)
    requires 1 <= month <= 12
    ensures month == 2 ==> DaysInMonth(year, month) == if IsLeapYear(year) then 29 else 28
    ensures month != 2 ==> (DaysInMonth(year, month) == 30 <==> month in {4, 6, 9, 11})
    ensures month != 2 ==> (DaysInMonth(year, month) == 31 <==> month in {1, 3, 5, 7, 8, 10, 12})
  {
  }

  /** The four-year rule and its century exceptions: 29 February exists in
      2024 and 2000, but not in 2023 or 1900. */
  lemma LeapDayExamples()
    ensures IsValidDate(2024, 2, 29) && IsValidDate(2000, 2, 29)
    ensures !IsValidDate(2023, 2, 29) && !IsValidDate(1900, 2, 29)
  {
  }

  /** April, June, September and November have 30 days, and 31 December is
      the last day of the year. */
  lemma MonthEndExamples()
    ensures IsValidDate(2025, 4, 30) && !IsValidDate(2025, 4, 31)
    ensures IsValidDate(2025, 12, 31) && !IsValidDate(2025, 12, 32) && !IsValidDate(2025, 13, 1)
  {
  }
}
