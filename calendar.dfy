/**
 * Proleptic Gregorian calendar dates and exact day arithmetic.
 *
 * The booking screen moves a date key one calendar day forward or back
 * (src/App.jsx:121-123 and 128-130). Here that shift is defined on the
 * year, month and day components only, so that no time zone enters it;
 * `Ordinal` is an independent day count that pins down what "one day
 * later" means.
 */
module Calendar {

  datatype Date = Date(year: int, month: int, day: int)

  /** Gregorian leap-year rule (years numbered astronomically, year 0 is a leap year). */
  predicate IsLeapYear(y: int)
  {
    y % 4 == 0 && (y % 100 != 0 || y % 400 == 0)
  }

  function DaysInMonth(y: int, m: int): (n: int)
    ensures 28 <= n <= 31
    ensures m == 2 ==> (n == 29 <==> IsLeapYear(y))
  {
    if m == 2 then (if IsLeapYear(y) then 29 else 28)
    else if m == 4 || m == 6 || m == 9 || m == 11 then 30
    else 31
  }

  /** A real calendar date: a month of the year and a day of that month. */
  predicate ValidDate(d: Date)
  {
    1 <= d.month <= 12 && 1 <= d.day <= DaysInMonth(d.year, d.month)
  }

  /** The following calendar day, rolling over month and year ends. */
  function Next(d: Date): (r: Date)
    requires ValidDate(d)
    ensures ValidDate(r)
  {
    if d.day < DaysInMonth(d.year, d.month) then Date(d.year, d.month, d.day + 1)
    else if d.month < 12 then Date(d.year, d.month + 1, 1)
    else Date(d.year + 1, 1, 1)
  }

  /** The preceding calendar day, rolling back over month and year starts. */
  function Prev(d: Date): (r: Date)
    requires ValidDate(d)
    ensures ValidDate(r)
  {
    if d.day > 1 then Date(d.year, d.month, d.day - 1)
    else if d.month > 1 then Date(d.year, d.month - 1, DaysInMonth(d.year, d.month - 1))
    else Date(d.year - 1, 12, 31)
  }

  // ---------------------------------------------------------------------
  // An independent day count: the number of days since 0000-01-01.
  // ---------------------------------------------------------------------

  /** Days in the years before `y`, counted from year 0 (negative for negative years). */
  function DaysBeforeYear(y: int): int
  {
    365 * y + (y + 3) / 4 - (y + 99) / 100 + (y + 399) / 400
  }

  /** Days in the months of year `y` before month `m`. */
  function DaysBeforeMonth(y: int, m: int): int
    requires 1 <= m <= 13
  {
    if m == 1 then 0 else DaysBeforeMonth(y, m - 1) + DaysInMonth(y, m - 1)
  }

  function Ordinal(d: Date): int
    requires ValidDate(d)
  {
    DaysBeforeYear(d.year) + DaysBeforeMonth(d.year, d.month) + d.day - 1
  }

  lemma YearStep(y: int)
    ensures DaysBeforeYear(y + 1) == DaysBeforeYear(y) + (if IsLeapYear(y) then 366 else 365)
  {
    assert (y + 4) / 4 == (y + 3) / 4 + (if y % 4 == 0 then 1 else 0);
    assert (y + 100) / 100 == (y + 99) / 100 + (if y % 100 == 0 then 1 else 0);
    assert (y + 400) / 400 == (y + 399) / 400 + (if y % 400 == 0 then 1 else 0);
    assert y % 400 == 0 ==> y % 100 == 0 && y % 4 == 0;
    assert y % 100 == 0 ==> y % 4 == 0;
  }

  lemma YearLength(y: int)
    ensures DaysBeforeMonth(y, 13) == (if IsLeapYear(y) then 366 else 365)
  {
    var feb := DaysInMonth(y, 2);
    assert DaysBeforeMonth(y, 2) == 31;
    assert DaysBeforeMonth(y, 3) == 31 + feb;
    assert DaysBeforeMonth(y, 4) == 62 + feb;
    assert DaysBeforeMonth(y, 5) == 92 + feb;
    assert DaysBeforeMonth(y, 6) == 123 + feb;
    assert DaysBeforeMonth(y, 7) == 153 + feb;
    assert DaysBeforeMonth(y, 8) == 184 + feb;
    assert DaysBeforeMonth(y, 9) == 215 + feb;
    assert DaysBeforeMonth(y, 10) == 245 + feb;
    assert DaysBeforeMonth(y, 11) == 276 + feb;
    assert DaysBeforeMonth(y, 12) == 306 + feb;
    assert DaysBeforeMonth(y, 13) == 337 + feb;
  }

  lemma DaysBeforeYearMonotone(a: int, b: int)
    requires a <= b
    ensures DaysBeforeYear(a) <= DaysBeforeYear(b)
  {
  }

  lemma {:induction false} DaysBeforeMonthMonotone(y: int, a: int, b: int)
    requires 1 <= a <= b <= 13
    ensures DaysBeforeMonth(y, a) + (b - a) * 28 <= DaysBeforeMonth(y, b)
    decreases b - a
  {
    if a < b {
      DaysBeforeMonthMonotone(y, a, b - 1);
    }
  }

  /** The day count of a valid date lies within the span of its own year. */
  lemma OrdinalWithinYear(d: Date)
    requires ValidDate(d)
    ensures DaysBeforeYear(d.year) <= Ordinal(d) < DaysBeforeYear(d.year + 1)
  {
    YearStep(d.year);
    YearLength(d.year);
    DaysBeforeMonthMonotone(d.year, 1, d.month);
    assert DaysBeforeMonth(d.year, d.month + 1) == DaysBeforeMonth(d.year, d.month) + DaysInMonth(d.year, d.month);
    DaysBeforeMonthMonotone(d.year, d.month + 1, 13);
  }

  /** Two valid dates with the same day count are the same date. */
  lemma OrdinalInjective(a: Date, b: Date)
    requires ValidDate(a) && ValidDate(b)
    requires Ordinal(a) == Ordinal(b)
    ensures a == b
  {
    OrdinalWithinYear(a);
    OrdinalWithinYear(b);
    if a.year < b.year {
      DaysBeforeYearMonotone(a.year + 1, b.year);
      assert false;
    } else if b.year < a.year {
      DaysBeforeYearMonotone(b.year + 1, a.year);
      assert false;
    }
    if a.month < b.month {
      DaysBeforeMonthMonotone(a.year, a.month + 1, b.month);
      assert false;
    } else if b.month < a.month {
      DaysBeforeMonthMonotone(a.year, b.month + 1, a.month);
      assert false;
    }
  }

  /** `Next` is exactly one day later. */
  lemma NextIsOneDayLater(d: Date)
    requires ValidDate(d)
    ensures Ordinal(Next(d)) == Ordinal(d) + 1
  {
    if d.day == DaysInMonth(d.year, d.month) && d.month == 12 {
      YearStep(d.year);
      YearLength(d.year);
    }
  }

  /** `Prev` is exactly one day earlier. */
  lemma PrevIsOneDayEarlier(d: Date)
    requires ValidDate(d)
    ensures Ordinal(Prev(d)) == Ordinal(d) - 1
  {
    if d.day == 1 && d.month == 1 {
      YearStep(d.year - 1);
      YearLength(d.year - 1);
    }
  }

  /** `Next` yields the one valid date a day after `d`, and no other. */
  lemma NextCharacterised(d: Date, e: Date)
    requires ValidDate(d) && ValidDate(e)
    ensures e == Next(d) <==> Ordinal(e) == Ordinal(d) + 1
  {
    NextIsOneDayLater(d);
    if Ordinal(e) == Ordinal(d) + 1 {
      OrdinalInjective(e, Next(d));
    }
  }

  /** Stepping forward then back, or back then forward, returns the date itself. */
  lemma PrevNext(d: Date)
    requires ValidDate(d)
    ensures Prev(Next(d)) == d
    ensures Next(Prev(d)) == d
  {
  }

  /** Worked examples: month end, leap years (including the century rules), year end. */
  lemma NextExamples()
    ensures Next(Date(2025, 7, 20)) == Date(2025, 7, 21)
    ensures Next(Date(2025, 4, 30)) == Date(2025, 5, 1)
    ensures Next(Date(2024, 2, 28)) == Date(2024, 2, 29)
    ensures Next(Date(2023, 2, 28)) == Date(2023, 3, 1)
    ensures Next(Date(1900, 2, 28)) == Date(1900, 3, 1)
    ensures Next(Date(2000, 2, 28)) == Date(2000, 2, 29)
    ensures Next(Date(2023, 12, 31)) == Date(2024, 1, 1)
    ensures Prev(Date(2024, 3, 1)) == Date(2024, 2, 29)
    ensures Prev(Date(2025, 1, 1)) == Date(2024, 12, 31)
  {
  }
}
