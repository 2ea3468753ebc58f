/**
 * Calendar dates as the reservation pages use JavaScript `Date`: a year,
 * a month (1-12) and a day, with the Gregorian leap rule, a day number
 * counted from 1970-01-01 and a weekday (0 = Sunday ... 6 = Saturday).
 */
module Calendar {

  datatype Date = Date(year: int, month: int, day: int)

  predicate IsLeap(y: int) {
    y % 4 == 0 && (y % 100 != 0 || y % 400 == 0)
  }

  function DaysInMonth(y: int, m: int): (n: int)
    ensures 28 <= n <= 31
  {
    if m == 2 then (if IsLeap(y) then 29 else 28)
    else if m == 4 || m == 6 || m == 9 || m == 11 then 30
    else 31
  }

  /** A date of 1970 or later that names a real day. */
  predicate ValidDate(d: Date) {
    d.year >= 1970 && 1 <= d.month <= 12 && 1 <= d.day <= DaysInMonth(d.year, d.month)
  }

  /** Days of year `y` before the first of month `m` (month 13 gives the whole year). */
  function DaysBeforeMonth(y: int, m: int): (n: int)
    requires 1 <= m <= 13
    ensures 28 * (m - 1) <= n <= 31 * (m - 1)
  {
    if m == 1 then 0 else DaysBeforeMonth(y, m - 1) + DaysInMonth(y, m - 1)
  }

  /** Days from 1970-01-01 to the first of January of `y`. */
  function DaysBeforeYear(y: int): int
    requires y >= 1970
  {
    if y == 1970 then 0 else DaysBeforeYear(y - 1) + (if IsLeap(y - 1) then 366 else 365)
  }

  /** Days from 1970-01-01 to `d`. */
  function DayNumber(d: Date): int
    requires ValidDate(d)
  {
    DaysBeforeYear(d.year) + DaysBeforeMonth(d.year, d.month) + d.day - 1
  }

  /** `getDay()`: 1970-01-01 was a Thursday (4). */
  function Weekday(d: Date): (w: int)
    requires ValidDate(d)
    ensures 0 <= w < 7
  {
    (DayNumber(d) + 4) % 7
  }

  const Wednesday: int := 3

  /** The following day: `setDate(getDate() + 1)`. */
  function NextDay(d: Date): (r: Date)
    requires ValidDate(d)
    ensures ValidDate(r)
  {
    if d.day < DaysInMonth(d.year, d.month) then Date(d.year, d.month, d.day + 1)
    else if d.month < 12 then Date(d.year, d.month + 1, 1)
    else Date(d.year + 1, 1, 1)
  }

  lemma DaysInYear(y: int)
    ensures DaysBeforeMonth(y, 13) == if IsLeap(y) then 366 else 365
  {
    assert DaysBeforeMonth(y, 2) == 31;
    assert DaysBeforeMonth(y, 3) == 31 + DaysInMonth(y, 2);
    assert DaysBeforeMonth(y, 4) == DaysBeforeMonth(y, 3) + 31;
    assert DaysBeforeMonth(y, 5) == DaysBeforeMonth(y, 4) + 30;
    assert DaysBeforeMonth(y, 6) == DaysBeforeMonth(y, 5) + 31;
    assert DaysBeforeMonth(y, 7) == DaysBeforeMonth(y, 6) + 30;
    assert DaysBeforeMonth(y, 8) == DaysBeforeMonth(y, 7) + 31;
    assert DaysBeforeMonth(y, 9) == DaysBeforeMonth(y, 8) + 31;
    assert DaysBeforeMonth(y, 10) == DaysBeforeMonth(y, 9) + 30;
    assert DaysBeforeMonth(y, 11) == DaysBeforeMonth(y, 10) + 31;
    assert DaysBeforeMonth(y, 12) == DaysBeforeMonth(y, 11) + 30;
    assert DaysBeforeMonth(y, 13) == DaysBeforeMonth(y, 12) + 31;
  }

  /** The next day is one day later. */
  lemma NextDayNumber(d: Date)
    requires ValidDate(d)
    ensures DayNumber(NextDay(d)) == DayNumber(d) + 1
  {
    if d.day == DaysInMonth(d.year, d.month) && d.month == 12 {
      DaysInYear(d.year);
    }
  }

  /** `n` days after `d`, one day at a time. */
  function AddDays(d: Date, n: nat): (r: Date)
    requires ValidDate(d)
    ensures ValidDate(r)
  {
    if n == 0 then d else NextDay(AddDays(d, n - 1))
  }

  /** `n` days later is `n` day numbers later, and `n` weekdays on, modulo 7. */
  lemma AddDaysNumber(d: Date, n: nat)
    requires ValidDate(d)
    ensures DayNumber(AddDays(d, n)) == DayNumber(d) + n
    ensures Weekday(AddDays(d, n)) == (Weekday(d) + n) % 7
  {
    AddDaysDayNumber(d, n);
    WeekdayShift(DayNumber(d), n);
  }

  lemma {:induction false} AddDaysDayNumber(d: Date, n: nat)
    requires ValidDate(d)
    ensures DayNumber(AddDays(d, n)) == DayNumber(d) + n
  {
    if n > 0 {
      AddDaysDayNumber(d, n - 1);
      NextDayNumber(AddDays(d, n - 1));
    }
  }

  /** The weekday repeats every whole number of weeks. */
  lemma WeekdayRepeats(d: Date, n: nat)
    requires ValidDate(d) && n % 7 == 0
    ensures Weekday(AddDays(d, n)) == Weekday(d)
  {
    AddDaysNumber(d, n);
    WholeWeeks(Weekday(d), n);
  }

  lemma WholeWeeks(w: int, n: int)
    requires 0 <= w < 7 && n % 7 == 0
    ensures (w + n) % 7 == w
  {
    assert n == 7 * (n / 7);
  }

  /** Shifting a day number by `n` shifts its weekday by `n`, modulo 7. */
  lemma WeekdayShift(a: int, n: int)
    ensures (a + n + 4) % 7 == ((a + 4) % 7 + n) % 7
  {
    var q := (a + 4) / 7;
    assert a + 4 == 7 * q + (a + 4) % 7;
    assert a + n + 4 == 7 * q + ((a + 4) % 7 + n);
  }

  lemma {:induction false} AddDaysAdd(d: Date, a: nat, b: nat)
    requires ValidDate(d)
    ensures AddDays(AddDays(d, a), b) == AddDays(d, a + b)
  {
    if b > 0 {
      AddDaysAdd(d, a, b - 1);
    }
  }

  /**
   * Up to 28 days ahead stays in the month, or lands in the next month
   * (January of the next year after December).
   */
  lemma {:induction false} AddDaysShort(d: Date, n: nat)
    requires ValidDate(d) && n <= 28
    ensures var r := AddDays(d, n); var dim := DaysInMonth(d.year, d.month);
      if d.day + n <= dim then r == Date(d.year, d.month, d.day + n)
      else if d.month < 12 then r == Date(d.year, d.month + 1, d.day + n - dim)
      else r == Date(d.year + 1, 1, d.day + n - dim)
  {
    if n > 0 {
      AddDaysShort(d, n - 1);
    }
  }

  /** Within a month, the weekday advances with the day of the month. */
  lemma WeekdayInMonth(y: int, m: int, k: int)
    requires ValidDate(Date(y, m, k))
    ensures Weekday(Date(y, m, k)) == (Weekday(Date(y, m, 1)) + k - 1) % 7
  {
  }

  /** Day numbers tell dates apart. */
  lemma DayNumberInjective(a: Date, b: Date)
    requires ValidDate(a) && ValidDate(b) && DayNumber(a) == DayNumber(b)
    ensures a == b
  {
    if a.year < b.year {
      YearsApart(a.year, b.year);
      MonthBounds(a.year, a.month);
      assert false;
    } else if b.year < a.year {
      YearsApart(b.year, a.year);
      MonthBounds(b.year, b.month);
      assert false;
    } else if a.month < b.month {
      MonthsApart(a.year, a.month, b.month);
      assert false;
    } else if b.month < a.month {
      MonthsApart(a.year, b.month, a.month);
      assert false;
    }
  }

  lemma MonthBounds(y: int, m: int)
    requires 1 <= m <= 12
    ensures DaysBeforeMonth(y, m) + DaysInMonth(y, m) <= DaysBeforeMonth(y, 13)
    decreases 13 - m
  {
    if m < 12 {
      MonthBounds(y, m + 1);
    }
  }

  lemma MonthsApart(y: int, m1: int, m2: int)
    requires 1 <= m1 < m2 <= 13
    ensures DaysBeforeMonth(y, m1) + DaysInMonth(y, m1) <= DaysBeforeMonth(y, m2)
    decreases m2 - m1
  {
    if m1 + 1 < m2 {
      MonthsApart(y, m1, m2 - 1);
    }
  }

  lemma YearsApart(y1: int, y2: int)
    requires 1970 <= y1 < y2
    ensures DaysBeforeYear(y1) + DaysBeforeMonth(y1, 13) <= DaysBeforeYear(y2)
    decreases y2 - y1
  {
    DaysInYear(y1);
    if y1 + 1 < y2 {
      YearsApart(y1 + 1, y2);
      DaysInYear(y1 + 1);
    }
  }
}
