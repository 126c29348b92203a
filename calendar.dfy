/** Calendar dates as (year, month, day) triples, with the Gregorian month
    lengths and the calendar predecessor and successor of a day. */
module Calendar {

  datatype Date = Date(year: int, month: int, day: int)

  /** Gregorian leap-year rule. */
  predicate IsLeapYear(y: int) {
    y % 4 == 0 && (y % 100 != 0 || y % 400 == 0)
  }

  /** Number of days in the 1-based `month` of `year`. */
  function DaysInMonth(month: int, year: int): (n: int)
    requires 1 <= month <= 12
    ensures 28 <= n <= 31
    ensures month == 2 ==> (n == 29 <==> IsLeapYear(year))
  {
    if month == 2 then (if IsLeapYear(year) then 29 else 28)
    else if month == 4 || month == 6 || month == 9 || month == 11 then 30
    else 31
  }

  predicate ValidDate(d: Date) {
    1 <= d.month <= 12 && 1 <= d.day <= DaysInMonth(d.month, d.year)
  }

  /** The day after `d`, rolling over month and year ends. */
  function NextDay(d: Date): (r: Date)
    requires ValidDate(d)
    ensures ValidDate(r)
  {
    if d.day < DaysInMonth(d.month, d.year) then Date(d.year, d.month, d.day + 1)
    else if d.month < 12 then Date(d.year, d.month + 1, 1)
    else Date(d.year + 1, 1, 1)
  }

  /** The day before `d`, rolling back over month and year starts. */
  function PrevDay(d: Date): (r: Date)
    requires ValidDate(d)
    ensures ValidDate(r)
  {
    if d.day > 1 then Date(d.year, d.month, d.day - 1)
    else if d.month > 1 then Date(d.year, d.month - 1, DaysInMonth(d.month - 1, d.year))
    else Date(d.year - 1, 12, 31)
  }

  /** JavaScript's `new Date(year, monthIndex, 0)`: day 0 of the month with
      0-based index `monthIndex` is the last day of the month before it.  An
      index of 12 overflows into January of the next year. */
  function DayZero(year: int, monthIndex: int): Date
    requires 1 <= monthIndex <= 12
  {
    var first := if monthIndex == 12 then Date(year + 1, 1, 1) else Date(year, monthIndex + 1, 1);
    PrevDay(first)
  }

  /** `new Date(year, month, 0).getDate()` with a 1-based `month`: the length
      of that month. */
  function MonthLength(month: int, year: int): (n: int)
    requires 1 <= month <= 12
    ensures n == DaysInMonth(month, year)
    ensures 28 <= n <= 31
    ensures month == 2 ==> (n == 29 <==> IsLeapYear(year))
  {
    DayZero(year, month).day
  }

  /** Strict chronological order (the order of ISO `YYYY-MM-DD` strings). */
  predicate Before(a: Date, b: Date) {
    a.year < b.year
    || (a.year == b.year && a.month < b.month)
    || (a.year == b.year && a.month == b.month && a.day < b.day)
  }

  /** Predecessor and successor undo each other on every valid date. */
  lemma PrevNextInverse(d: Date)
    requires ValidDate(d)
    ensures PrevDay(NextDay(d)) == d
    ensures NextDay(PrevDay(d)) == d
  {
    if d.day == 1 && d.month == 1 {
      assert PrevDay(d) == Date(d.year - 1, 12, 31);
    }
  }

  /** NextDay is injective on valid dates. */
  lemma NextDayInjective(a: Date, b: Date)
    requires ValidDate(a) && ValidDate(b)
    requires NextDay(a) == NextDay(b)
    ensures a == b
  {
    PrevNextInverse(a);
    PrevNextInverse(b);
  }

  /** NextDay(d) is the immediate calendar successor of d: it comes after d
      and no valid date lies strictly between them. */
  lemma NextDayIsSuccessor(d: Date, x: Date)
    requires ValidDate(d) && ValidDate(x)
    ensures Before(d, NextDay(d))
    ensures !(Before(d, x) && Before(x, NextDay(d)))
  {
  }

  /** PrevDay(d) is the immediate calendar predecessor of d. */
  lemma PrevDayIsPredecessor(d: Date, x: Date)
    requires ValidDate(d) && ValidDate(x)
    ensures Before(PrevDay(d), d)
    ensures !(Before(PrevDay(d), x) && Before(x, d))
  {
    PrevNextInverse(d);
    NextDayIsSuccessor(PrevDay(d), x);
  }
}
