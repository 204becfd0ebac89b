/** Calendar dates as Python's datetime.date, and the month count rent is billed on. */
module Calendar {
  import opened Common

  datatype Date = Date(year: int, month: int, day: int)

  predicate IsLeapYear(y: int) {
    y % 4 == 0 && (y % 100 != 0 || y % 400 == 0)
  }

  function DaysInMonth(y: int, m: int): int {
    if m == 2 then (if IsLeapYear(y) then 29 else 28)
    else if m == 4 || m == 6 || m == 9 || m == 11 then 30
    else 31
  }

  /** Every datetime.date value satisfies this: years 1..9999, a real month and day. */
  predicate Valid(d: Date) {
    1 <= d.year <= 9999 && 1 <= d.month <= 12 && 1 <= d.day <= DaysInMonth(d.year, d.month)
  }

  /** `a < b` on dates: chronological, that is year, then month, then day. */
  predicate Before(a: Date, b: Date) {
    a.year < b.year
    || (a.year == b.year && a.month < b.month)
    || (a.year == b.year && a.month == b.month && a.day < b.day)
  }

  /** The end of an occupancy: the check-out date if there is one, otherwise today. */
  function EndDate(checkOut: Option<Date>, today: Date): (r: Date)
    ensures checkOut.Some? ==> r == checkOut.value
    ensures checkOut.None? ==> r == today
  {
    if checkOut.Some? then checkOut.value else today
  }

  /**
   * Months billed between check-in and end: the difference in calendar months,
   * plus one more once the end's day of the month has passed the check-in's day.
   * Nothing clamps it: an end before the check-in can give a negative count.
   */
  function MonthsBetween(checkIn: Date, end: Date): (m: int)
    ensures end.year == checkIn.year && end.month == checkIn.month ==>
              (m == 1 <==> end.day > checkIn.day) && (m == 0 <==> end.day <= checkIn.day)
    ensures end.month == checkIn.month && end.day == checkIn.day ==> m == 12 * (end.year - checkIn.year)
    ensures Valid(checkIn) && Valid(end) && !Before(end, checkIn) ==> m >= 0
  {
    (end.year - checkIn.year) * 12 + end.month - checkIn.month
      + (if end.day > checkIn.day then 1 else 0)
  }

  /** A later end date never bills fewer months. */
  lemma {:induction false} MonthsBetweenMonotone(checkIn: Date, e1: Date, e2: Date)
    requires Valid(e1) && Valid(e2)
    requires !Before(e2, e1)
    ensures MonthsBetween(checkIn, e1) <= MonthsBetween(checkIn, e2)
  {
    if e1.year < e2.year {
      assert (e2.year - e1.year) * 12 >= 12;
    }
  }

  /** Ending on the check-in date itself bills nothing. */
  lemma SameDayBillsNothing(checkIn: Date)
    ensures MonthsBetween(checkIn, checkIn) == 0
  {
  }

  /** An end date before the check-in bills at most zero months. */
  lemma {:induction false} MonthsBetweenBeforeCheckIn(checkIn: Date, end: Date)
    requires Valid(checkIn) && Valid(end)
    requires Before(end, checkIn)
    ensures MonthsBetween(checkIn, end) <= 0
  {
    MonthsBetweenMonotone(checkIn, end, checkIn);
  }

  /** Within the check-in month, an end day not past the check-in day bills nothing. */
  lemma SameMonthBillsNothing(checkIn: Date, end: Date)
    requires end.year == checkIn.year && end.month == checkIn.month
    requires end.day <= checkIn.day
    ensures MonthsBetween(checkIn, end) == 0
  {
  }

  /**
   * The day threshold: compared with the monthly anniversary in the same
   * month, an end day past the check-in day bills one month more, and any
   * other end day bills the same.
   */
  lemma DayThreshold(checkIn: Date, end: Date)
    ensures end.day > checkIn.day ==>
              MonthsBetween(checkIn, end) == MonthsBetween(checkIn, end.(day := checkIn.day)) + 1
    ensures end.day <= checkIn.day ==>
              MonthsBetween(checkIn, end) == MonthsBetween(checkIn, end.(day := checkIn.day))
  {
  }

  /** Nothing clamps the count: checking out a year early gives a negative count. */
  lemma NegativeWhenEndLongBefore()
    ensures MonthsBetween(Date(2024, 5, 10), Date(2023, 5, 10)) == -12
  {
  }

  /** January 15 to March 20: two calendar months, and the 20th is past the 15th. */
  lemma ThreeMonthsExample()
    ensures MonthsBetween(Date(2024, 1, 15), Date(2024, 3, 20)) == 3
  {
  }
}
