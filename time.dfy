/**
 * Timestamps of the store, abstracted from JavaScript `Date` values: a
 * proleptic Gregorian calendar date plus the second of that day, ordered
 * chronologically (lexicographically on the four fields). Time zones and
 * milliseconds are not part of this model.
 */
module Time {

  datatype Instant = Instant(year: int, month: int, day: int, second: int)

  /** 23:59:59 as a second of the day */
  const LastSecond: int := 86399

  predicate IsLeapYear(y: int) {
    (y % 4 == 0 && y % 100 != 0) || y % 400 == 0
  }

  function DaysInMonth(y: int, m: int): (d: int)
    requires 1 <= m <= 12
    ensures 28 <= d <= 31
    ensures d == 29 <==> m == 2 && IsLeapYear(y)
  {
    if m == 2 then (if IsLeapYear(y) then 29 else 28)
    else if m == 4 || m == 6 || m == 9 || m == 11 then 30
    else 31
  }

  /** An instant that names a real calendar second */
  predicate WellFormed(t: Instant) {
    && 1 <= t.month <= 12
    && 1 <= t.day <= DaysInMonth(t.year, t.month)
    && 0 <= t.second <= LastSecond
  }

  /** The chronological order: `a` is not later than `b` */
  predicate AtOrBefore(a: Instant, b: Instant) {
    || a.year < b.year
    || (a.year == b.year && a.month < b.month)
    || (a.year == b.year && a.month == b.month && a.day < b.day)
    || (a.year == b.year && a.month == b.month && a.day == b.day && a.second <= b.second)
  }

  lemma AtOrBeforeTotal(a: Instant, b: Instant)
    ensures AtOrBefore(a, b) || AtOrBefore(b, a)
  {
  }

  lemma AtOrBeforeTransitive(a: Instant, b: Instant, c: Instant)
    requires AtOrBefore(a, b) && AtOrBefore(b, c)
    ensures AtOrBefore(a, c)
  {
  }

  lemma AtOrBeforeAntisymmetric(a: Instant, b: Instant)
    requires AtOrBefore(a, b) && AtOrBefore(b, a)
    ensures a == b
  {
  }

  /**
   * The year a JavaScript `Date` constructor uses for a year argument `y`:
   * the arguments 0 to 99 stand for 1900 to 1999.
   */
  function ConstructorYear(y: int): (r: int)
    ensures 0 <= y <= 99 ==> r == 1900 + y
    ensures (y < 0 || 99 < y) ==> r == y
  {
    if 0 <= y <= 99 then 1900 + y else y
  }

  /**
   * The calendar month a `Date` constructor lands in for year argument `y`
   * and zero-based month index `index`: an index outside 0..11 rolls over
   * into neighbouring years. The result's month is 1-based.
   */
  function RolledMonth(y: int, index: int): (r: (int, int))
    ensures 1 <= r.1 <= 12
    ensures (r.0 - ConstructorYear(y)) * 12 + (r.1 - 1) == index
  {
    (ConstructorYear(y) + index / 12, index % 12 + 1)
  }

  /** First second of a calendar month (1-based month): no instant of the month is earlier */
  function MonthStart(y: int, m: int): (t: Instant)
    requires 1 <= m <= 12
    ensures WellFormed(t) && t.year == y && t.month == m
    ensures forall u :: WellFormed(u) && u.year == y && u.month == m ==> AtOrBefore(t, u)
  {
    Instant(y, m, 1, 0)
  }

  /** 23:59:59 on the last day of a calendar month (1-based month): no instant of the month is later */
  function MonthEnd(y: int, m: int): (t: Instant)
    requires 1 <= m <= 12
    ensures WellFormed(t) && t.year == y && t.month == m
    ensures forall u :: WellFormed(u) && u.year == y && u.month == m ==> AtOrBefore(u, t)
  {
    Instant(y, m, DaysInMonth(y, m), LastSecond)
  }

  /** A well-formed instant lies between a month's bounds exactly when it is dated in that month */
  lemma InMonth(t: Instant, y: int, m: int)
    requires 1 <= m <= 12 && WellFormed(t)
    ensures AtOrBefore(MonthStart(y, m), t) && AtOrBefore(t, MonthEnd(y, m))
        <==> t.year == y && t.month == m
  {
  }

  /** A well-formed instant lies between Jan 1 00:00:00 and Dec 31 23:59:59 of `y` exactly when it is dated in `y` */
  lemma InYear(t: Instant, y: int)
    requires WellFormed(t)
    ensures AtOrBefore(MonthStart(y, 1), t) && AtOrBefore(t, MonthEnd(y, 12)) <==> t.year == y
  {
  }
}
