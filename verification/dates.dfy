/**
 * Calendar dates as the backend's java.time.LocalDate uses them: a year, a
 * month 1..12 and a day within that month's length in the proleptic Gregorian
 * calendar. Adding months or years keeps the day of month when it exists and
 * otherwise clamps it to the last day of the target month.
 */
module Dates {

  datatype Date = Date(year: int, month: int, day: int)

  predicate IsLeapYear(y: int)
  {
    y % 4 == 0 && (y % 100 != 0 || y % 400 == 0)
  }

  function DaysInMonth(y: int, m: int): (n: int)
    ensures 28 <= n <= 31
  {
    if m == 2 then (if IsLeapYear(y) then 29 else 28)
    else if m == 4 || m == 6 || m == 9 || m == 11 then 30
    else 31
  }

  predicate ValidDate(d: Date)
  {
    1 <= d.month <= 12 && 1 <= d.day <= DaysInMonth(d.year, d.month)
  }

  function Min(a: int, b: int): int { if a <= b then a else b }

  /** LocalDate.plusMonths: count months from year 0, add, split again, clamp the day. */
  function PlusMonths(d: Date, n: nat): (r: Date)
    requires ValidDate(d)
    ensures ValidDate(r)
    ensures r.year * 12 + (r.month - 1) == d.year * 12 + (d.month - 1) + n
    ensures r.day == Min(d.day, DaysInMonth(r.year, r.month))
    ensures r.day <= d.day
    ensures r.day == d.day || r.day == DaysInMonth(r.year, r.month)
  {
    var count := d.year * 12 + (d.month - 1) + n;
    var y := count / 12;
    var m := count % 12 + 1;
    Date(y, m, Min(d.day, DaysInMonth(y, m)))
  }

  /** LocalDate.plusYears: same month, day clamped (29 February becomes 28 February). */
  function PlusYears(d: Date, n: int): (r: Date)
    requires ValidDate(d)
    ensures ValidDate(r)
    ensures r.year == d.year + n && r.month == d.month
  {
    var y := d.year + n;
    Date(y, d.month, Min(d.day, DaysInMonth(y, d.month)))
  }

  /** LocalDate.isAfter: strictly later in calendar order. */
  predicate IsAfter(a: Date, b: Date)
  {
    a.year > b.year
    || (a.year == b.year && a.month > b.month)
    || (a.year == b.year && a.month == b.month && a.day > b.day)
  }

  /** Adding a positive number of months always moves strictly forward. */
  lemma PlusMonthsMovesForward(d: Date, n: nat)
    requires ValidDate(d) && n >= 1
    ensures IsAfter(PlusMonths(d, n), d)
  {
    var count := d.year * 12 + (d.month - 1) + n;
    var y := count / 12;
    var m := count % 12 + 1;
    assert y * 12 + (m - 1) == count;
    assert y * 12 + (m - 1) > d.year * 12 + (d.month - 1);
    assert y >= d.year;
  }

  /** Adding years is adding twelve months per year. */
  lemma PlusYearsIsTwelveMonths(d: Date, n: nat)
    requires ValidDate(d)
    ensures PlusYears(d, n) == PlusMonths(d, 12 * n)
  {
    var count := d.year * 12 + (d.month - 1) + 12 * n;
    assert count == (d.year + n) * 12 + (d.month - 1);
    assert count / 12 == d.year + n && count % 12 == d.month - 1 by {
      LemmaDivModUnique(count, d.year + n, d.month - 1);
    }
  }

  lemma LemmaDivModUnique(x: int, q: int, r: int)
    requires 0 <= r < 12 && x == q * 12 + r
    ensures x / 12 == q && x % 12 == r
  {
  }

  /** Calendar order is a strict order: irreflexive and transitive. */
  lemma IsAfterIsStrictOrder(a: Date, b: Date, c: Date)
    ensures !IsAfter(a, a)
    ensures IsAfter(a, b) && IsAfter(b, c) ==> IsAfter(a, c)
    ensures IsAfter(a, b) ==> !IsAfter(b, a)
  {
  }
}
