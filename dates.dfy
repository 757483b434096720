/** Calendar dates as Python's `datetime.date` handles them (proleptic Gregorian, years 1..9999). */
module Dates {

  datatype Date = Date(year: int, month: int, day: int)

  predicate IsLeapYear(year: int)
  {
    year % 4 == 0 && (year % 100 != 0 || year % 400 == 0)
  }

  /** `calendar.monthrange(year, month)[1]`. */
  function DaysInMonth(year: int, month: int): (n: int)
    requires 1 <= month <= 12
    ensures 28 <= n <= 31
    ensures n == 31 <==> month in {1, 3, 5, 7, 8, 10, 12}
    ensures n == 28 <==> month == 2 && !IsLeapYear(year)
  {
    if month == 2 then (if IsLeapYear(year) then 29 else 28)
    else if month == 4 || month == 6 || month == 9 || month == 11 then 30
    else 31
  }

  /** The dates `date(year, month, day)` accepts without raising `ValueError`. */
  predicate IsValid(d: Date)
  {
    1 <= d.year <= 9999 && 1 <= d.month <= 12 && 1 <= d.day <= DaysInMonth(d.year, d.month)
  }

  /** Lexicographic order on (year, month, day): Python's `<` on dates. */
  predicate Precedes(a: Date, b: Date)
  {
    a.year < b.year || (a.year == b.year && (a.month < b.month || (a.month == b.month && a.day < b.day)))
  }

  /** An integer key with the order of dates, used for `order_by("date")`. */
  function Ordinal(d: Date): int
  {
    (d.year * 12 + d.month - 1) * 31 + d.day - 1
  }

  lemma OrdinalIsChronological(a: Date, b: Date)
    requires IsValid(a) && IsValid(b)
    ensures Ordinal(a) < Ordinal(b) <==> Precedes(a, b)
    ensures Ordinal(a) == Ordinal(b) <==> a == b
  {
  }

  /** The number of whole months from year 0, January, to the month of `d`. */
  function MonthIndex(d: Date): int
  {
    d.year * 12 + d.month - 1
  }

  /** `date(d.year, d.month, 1)`. */
  function FirstOfMonth(d: Date): (r: Date)
    requires IsValid(d)
    ensures IsValid(r) && r.day == 1 && MonthIndex(r) == MonthIndex(d)
    ensures !Precedes(d, r) && (Precedes(r, d) <==> d.day != 1)
  {
    Date(d.year, d.month, 1)
  }

  function Min(a: int, b: int): int
  {
    if a <= b then a else b
  }
}
