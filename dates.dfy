/**
 * Instants as calendar tuples (year, month 1..12, day, second of the day), compared
 * chronologically, and the month window the budget comparison builds with JavaScript's
 * `new Date(year, monthIndex, day, h, m, s)`, including that constructor's roll-over of
 * out-of-range months and its mapping of years 0..99 to 1900..1999.
 */
module Dates {

  datatype Timestamp = Timestamp(year: int, month: int, day: int, second: int)

  const SecondsPerDay: int := 86400

  predicate IsLeapYear(y: int) {
    (y % 4 == 0 && y % 100 != 0) || y % 400 == 0
  }

  /** The number of days of month `m` of year `y` in the Gregorian calendar. */
  function DaysInMonth(y: int, m: int): (d: int)
    requires 1 <= m <= 12
    ensures 28 <= d <= 31
    ensures m == 2 ==> (d == 29 <==> IsLeapYear(y))
    ensures m in {4, 6, 9, 11} <==> d == 30
  {
    if m == 2 then (if IsLeapYear(y) then 29 else 28)
    else if m in {4, 6, 9, 11} then 30
    else 31
  }

  /** A timestamp that names an existing second. */
  predicate Valid(t: Timestamp) {
    && 1 <= t.month <= 12
    && 1 <= t.day <= DaysInMonth(t.year, t.month)
    && 0 <= t.second < SecondsPerDay
  }

  /** `a` is not later than `b`: the lexicographic order of the tuples. */
  predicate NotAfter(a: Timestamp, b: Timestamp) {
    || a.year < b.year
    || (a.year == b.year && a.month < b.month)
    || (a.year == b.year && a.month == b.month && a.day < b.day)
    || (a.year == b.year && a.month == b.month && a.day == b.day && a.second <= b.second)
  }

  lemma NotAfterTotal(a: Timestamp, b: Timestamp)
    ensures NotAfter(a, b) || NotAfter(b, a)
  {
  }

  lemma NotAfterTransitive(a: Timestamp, b: Timestamp, c: Timestamp)
    requires NotAfter(a, b) && NotAfter(b, c)
    ensures NotAfter(a, c)
  {
  }

  lemma NotAfterAntisymmetric(a: Timestamp, b: Timestamp)
    requires NotAfter(a, b) && NotAfter(b, a)
    ensures a == b
  {
  }

  /** The year `new Date(y, ...)` uses: 0..99 stand for 1900..1999. */
  function FullYear(y: int): (r: int)
    ensures 0 <= y <= 99 ==> r == 1900 + y
    ensures !(0 <= y <= 99) ==> r == y
  {
    if 0 <= y <= 99 then 1900 + y else y
  }

  /**
   * Month `m` of year `y` with `m` outside 1..12 rolled over into neighbouring years, as the
   * `Date` constructor does: the same month counted from year 0, with the month in 1..12.
   */
  function NormalizeMonth(y: int, m: int): (r: (int, int))
    ensures 1 <= r.1 <= 12
    ensures r.0 * 12 + r.1 == y * 12 + m
  {
    var index := y * 12 + (m - 1);
    (index / 12, index % 12 + 1)
  }

  /** `new Date(year, month - 1, 1)`: midnight of the first day of month `month`. */
  function MonthStart(year: int, month: int): (t: Timestamp)
    ensures Valid(t)
  {
    var ym := NormalizeMonth(FullYear(year), month);
    Timestamp(ym.0, ym.1, 1, 0)
  }

  /** `new Date(year, month, 0, 23, 59, 59)`: 23:59:59 on the last day of month `month`. */
  function MonthEnd(year: int, month: int): (t: Timestamp)
    ensures Valid(t)
  {
    var ym := NormalizeMonth(FullYear(year), month);
    Timestamp(ym.0, ym.1, DaysInMonth(ym.0, ym.1), SecondsPerDay - 1)
  }

  /** The query `{ $gte: MonthStart(year, month), $lte: MonthEnd(year, month) }`. */
  predicate InMonthWindow(t: Timestamp, year: int, month: int) {
    NotAfter(MonthStart(year, month), t) && NotAfter(t, MonthEnd(year, month))
  }

  /**
   * Down to the second, the window holds exactly the instants of the (rolled-over) month:
   * the whole month, and nothing of its neighbours.
   */
  lemma InMonthWindowIff(t: Timestamp, year: int, month: int)
    requires Valid(t)
    ensures InMonthWindow(t, year, month) <==> (t.year, t.month) == NormalizeMonth(FullYear(year), month)
  {
  }
}
