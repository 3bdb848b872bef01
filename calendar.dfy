/** Calendar days of the proleptic Gregorian calendar, the part of Go's `time`
    package the holiday code relies on once instants are reduced to days:
    month lengths, leap years, stepping one day forward or back, comparing
    two days and the day of the week (Sunday = 0, as `time.Weekday`). */
module Calendar {

  /** The `(year, month, day)` triple of Go's `Date()` and of the bot's
      `RawDate`; it need not be a real day (the zero `RawDate` is `0-0-0`). */
  datatype YearMonthDay = YMD(year: int, month: int, day: int)

  const SUNDAY := 0
  const MONDAY := 1
  const FRIDAY := 5
  const SATURDAY := 6

  predicate IsLeapYear(y: int) {
    y % 4 == 0 && (y % 100 != 0 || y % 400 == 0)
  }

  function DaysInMonth(y: int, m: int): (n: int)
    requires 1 <= m <= 12
    ensures 28 <= n <= 31
    ensures n == 29 <==> m == 2 && IsLeapYear(y)
  {
    if m == 2 then (if IsLeapYear(y) then 29 else 28)
    else if m == 4 || m == 6 || m == 9 || m == 11 then 30
    else 31
  }

  predicate IsCalendarDay(d: YearMonthDay) {
    1 <= d.month <= 12 && 1 <= d.day <= DaysInMonth(d.year, d.month)
  }

  /** A day that exists in the calendar. */
  type Date = d: YearMonthDay | IsCalendarDay(d) witness YMD(1, 1, 1)

  function DaysInYear(y: int): int {
    if IsLeapYear(y) then 366 else 365
  }

  /** Days from 0000-01-01 to the first of January of year `y`
      (negative before year 0). */
  function DaysBeforeYear(y: int): int {
    365 * y + (y + 3) / 4 - (y + 99) / 100 + (y + 399) / 400
  }

  /** Days from the first of January to the first of month `m`. */
  function DaysBeforeMonth(y: int, m: int): int
    requires 1 <= m <= 12
  {
    var common := [0, 31, 59, 90, 120, 151, 181, 212, 243, 273, 304, 334];
    common[m - 1] + if m > 2 && IsLeapYear(y) then 1 else 0
  }

  /** The position of a day on the time line: 0000-01-01 is day 0. */
  function DayNumber(d: Date): int {
    DaysBeforeYear(d.year) + DaysBeforeMonth(d.year, d.month) + d.day - 1
  }

  /** Go's `Weekday()`: 0 is Sunday, 6 is Saturday (0000-01-01 was a Saturday). */
  function Weekday(d: Date): (w: int)
    ensures 0 <= w < 7
  {
    (DayNumber(d) + 6) % 7
  }

  predicate IsWeekend(d: Date) {
    Weekday(d) == SATURDAY || Weekday(d) == SUNDAY
  }

  /** Calendar-day comparison, which is what `Before`, `After` and `Equal`
      on two midnights amount to. */
  predicate Before(a: Date, b: Date) {
    DayNumber(a) < DayNumber(b)
  }

  lemma DivStep4(y: int)
    ensures (y + 4) / 4 - (y + 3) / 4 == if y % 4 == 0 then 1 else 0
  {
    var q, r := y / 4, y % 4;
    assert y == 4 * q + r && 0 <= r < 4;
    assert (y + 4) / 4 == q + 1;
  }

  lemma DivStep100(y: int)
    ensures (y + 100) / 100 - (y + 99) / 100 == if y % 100 == 0 then 1 else 0
  {
    var q, r := y / 100, y % 100;
    assert y == 100 * q + r && 0 <= r < 100;
    assert (y + 100) / 100 == q + 1;
  }

  lemma DivStep400(y: int)
    ensures (y + 400) / 400 - (y + 399) / 400 == if y % 400 == 0 then 1 else 0
  {
    var q, r := y / 400, y % 400;
    assert y == 400 * q + r && 0 <= r < 400;
    assert (y + 400) / 400 == q + 1;
  }

  lemma DaysBeforeYearStep(y: int)
    ensures DaysBeforeYear(y + 1) == DaysBeforeYear(y) + DaysInYear(y)
  {
    DivStep4(y);
    DivStep100(y);
    DivStep400(y);
  }

  /** A year's days lie before the next year's first day and no earlier one. */
  lemma {:induction false} DaysBeforeYearGrows(y1: int, y2: int)
    requires y1 < y2
    ensures DaysBeforeYear(y1) + DaysInYear(y1) <= DaysBeforeYear(y2)
    decreases y2 - y1
  {
    DaysBeforeYearStep(y1);
    if y1 + 1 < y2 {
      DaysBeforeYearGrows(y1 + 1, y2);
    }
  }

  lemma DayWithinYear(d: Date)
    ensures DaysBeforeYear(d.year) <= DayNumber(d) < DaysBeforeYear(d.year) + DaysInYear(d.year)
  {
  }

  lemma DayWithinMonth(d: Date, m: int)
    requires d.month < m <= 12
    ensures DayNumber(d) < DaysBeforeYear(d.year) + DaysBeforeMonth(d.year, m)
  {
  }

  /** Ordering days by number is ordering them by year, then month, then day;
      in particular two days with the same number are the same day. */
  lemma DayNumberOrder(a: Date, b: Date)
    ensures DayNumber(a) < DayNumber(b) <==>
      a.year < b.year || (a.year == b.year && (a.month < b.month || (a.month == b.month && a.day < b.day)))
    ensures DayNumber(a) == DayNumber(b) <==> a == b
  {
    if a.year < b.year {
      DayWithinYear(a);
      DayWithinYear(b);
      DaysBeforeYearGrows(a.year, b.year);
    } else if b.year < a.year {
      DayWithinYear(a);
      DayWithinYear(b);
      DaysBeforeYearGrows(b.year, a.year);
    } else if a.month < b.month {
      DayWithinMonth(a, b.month);
    } else if b.month < a.month {
      DayWithinMonth(b, a.month);
    }
  }

  /** Each month starts where the one before it ends, and December ends the
      year. */
  lemma DaysBeforeMonthStep(y: int, m: int)
    requires 1 <= m <= 12
    ensures m < 12 ==> DaysBeforeMonth(y, m + 1) == DaysBeforeMonth(y, m) + DaysInMonth(y, m)
    ensures m == 12 ==> DaysBeforeMonth(y, m) + DaysInMonth(y, m) == DaysInYear(y)
  {
  }

  lemma LastDayOfYear(y: int)
    ensures DayNumber(YMD(y, 12, 31)) + 1 == DaysBeforeYear(y + 1)
  {
    DaysBeforeYearStep(y);
    DaysBeforeMonthStep(y, 12);
  }

  /** `d.AddDate(0, 0, 1)`. */
  function NextDay(d: Date): (r: Date)
    ensures DayNumber(r) == DayNumber(d) + 1
  {
    if d.day < DaysInMonth(d.year, d.month) then
      YMD(d.year, d.month, d.day + 1)
    else if d.month < 12 then
      DaysBeforeMonthStep(d.year, d.month);
      YMD(d.year, d.month + 1, 1)
    else
      LastDayOfYear(d.year);
      YMD(d.year + 1, 1, 1)
  }

  /** `d.AddDate(0, 0, -1)`. */
  function PrevDay(d: Date): (r: Date)
    ensures DayNumber(r) == DayNumber(d) - 1
  {
    if d.day > 1 then
      YMD(d.year, d.month, d.day - 1)
    else if d.month > 1 then
      DaysBeforeMonthStep(d.year, d.month - 1);
      YMD(d.year, d.month - 1, DaysInMonth(d.year, d.month - 1))
    else
      LastDayOfYear(d.year - 1);
      YMD(d.year - 1, 12, 31)
  }

  /** Stepping forward and back are inverse, and `NextDay(a) == b` is the
      day-number test the grouping code performs. */
  lemma NextPrevInverse(a: Date, b: Date)
    ensures PrevDay(NextDay(a)) == a
    ensures NextDay(PrevDay(a)) == a
    ensures NextDay(a) == b <==> DayNumber(b) == DayNumber(a) + 1
  {
    DayNumberOrder(PrevDay(NextDay(a)), a);
    DayNumberOrder(NextDay(PrevDay(a)), a);
    DayNumberOrder(NextDay(a), b);
  }

  /** No day lies strictly between a day and its neighbours. */
  lemma NoDayBetween(d: Date, x: Date)
    ensures Before(PrevDay(d), x) <==> x == d || Before(d, x)
    ensures Before(x, NextDay(d)) <==> x == d || Before(x, d)
  {
    DayNumberOrder(x, d);
  }

  /** The day `k` days after `d` (before it when `k` is negative). */
  function Shift(d: Date, k: int): (r: Date)
    ensures DayNumber(r) == DayNumber(d) + k
    decreases if k < 0 then -k else k
  {
    if k == 0 then d else if k > 0 then Shift(NextDay(d), k - 1) else Shift(PrevDay(d), k + 1)
  }

  /** Days of the week repeat every seven days: `k` days on from weekday
      `(n + 6) % 7` comes weekday `((n + 6) % 7 + k) % 7`. */
  lemma ModSevenShift(n: int, k: int)
    ensures (n + k + 6) % 7 == ((n + 6) % 7 + k) % 7
  {
    var q, r := (n + 6) / 7, (n + 6) % 7;
    assert n + k + 6 == 7 * q + (r + k);
    var q2, r2 := (r + k) / 7, (r + k) % 7;
    assert n + k + 6 == 7 * (q + q2) + r2;
  }

  /** Within one week the day of the week counts the days: from day `n`
      to day `m`, when the count stays within the week. */
  lemma ModSevenAhead(n: int, m: int)
    requires 0 <= (n + 6) % 7 + (m - n) < 7
    ensures (m + 6) % 7 == (n + 6) % 7 + (m - n)
  {
    var a, q := (n + 6) % 7, (n + 6) / 7;
    assert m + 6 == 7 * q + (a + m - n);
  }

  lemma ModSevenStep(n: int)
    ensures var w := (n + 6) % 7;
      && (n + 1 + 6) % 7 == (if w == SATURDAY then SUNDAY else w + 1)
      && (n - 1 + 6) % 7 == (if w == SUNDAY then SATURDAY else w - 1)
  {
    var q, r := (n + 6) / 7, (n + 6) % 7;
    assert n + 6 == 7 * q + r && 0 <= r < 7;
    if r == 6 {
      assert n + 7 == 7 * (q + 1);
    } else {
      assert n + 7 == 7 * q + (r + 1);
    }
    if r == 0 {
      assert n + 5 == 7 * (q - 1) + 6;
    } else {
      assert n + 5 == 7 * q + (r - 1);
    }
  }

  /** Each step forward advances the day of the week by one, each step back
      moves it back by one. */
  lemma WeekdayOfNeighbours(d: Date)
    ensures Weekday(NextDay(d)) == if Weekday(d) == SATURDAY then SUNDAY else Weekday(d) + 1
    ensures Weekday(PrevDay(d)) == if Weekday(d) == SUNDAY then SATURDAY else Weekday(d) - 1
  {
    var n := DayNumber(d);
    ModSevenStep(n);
    assert DayNumber(NextDay(d)) == n + 1 && DayNumber(PrevDay(d)) == n - 1;
  }
}
