/** Gregorian calendar arithmetic. It stands in for what the scripts take from
 *  Python's `datetime` (`date`, `date + timedelta(days=n)`, `date.weekday()`,
 *  comparison of dates) and `calendar.monthrange`. */
module Calendar {

  /** A calendar date as `datetime.date(year, month, day)` holds it. */
  datatype Date = Date(year: int, month: int, day: int)

  /** Day number 0 is 1 January of this year, a Thursday. */
  const BaseYear: int := 2026

  /** Short weekday names, Monday first, as every script lists them. */
  const DayNames: seq<string> := ["Пн", "Вт", "Ср", "Чт", "Пт", "Сб", "Вс"]

  predicate IsLeap(y: int) {
    y % 4 == 0 && (y % 100 != 0 || y % 400 == 0)
  }

  /** `calendar.monthrange(y, m)[1]`. */
  function DaysInMonth(y: int, m: int): (n: int)
    requires 1 <= m <= 12
    ensures 28 <= n <= 31
  {
    if m == 2 then (if IsLeap(y) then 29 else 28)
    else if m == 4 || m == 6 || m == 9 || m == 11 then 30
    else 31
  }

  function DaysInYear(y: int): int {
    if IsLeap(y) then 366 else 365
  }

  /** The dates `datetime.date` accepts. */
  predicate ValidDate(d: Date) {
    1 <= d.month <= 12 && 1 <= d.day <= DaysInMonth(d.year, d.month)
  }

  /** Python's `a < b` on dates. */
  predicate Before(a: Date, b: Date) {
    a.year < b.year || (a.year == b.year && (a.month < b.month || (a.month == b.month && a.day < b.day)))
  }

  /** Number of days of year `y` that lie in the months before month `m`. */
  function MonthStart(y: int, m: int): (n: int)
    requires 1 <= m <= 13
    ensures 28 * (m - 1) <= n <= 31 * (m - 1)
  {
    if m == 1 then 0 else MonthStart(y, m - 1) + DaysInMonth(y, m - 1)
  }

  /** The twelve months together make up the year. */
  lemma {:induction false} MonthStartOfYearEnd(y: int)
    ensures MonthStart(y, 13) == DaysInYear(y)
  {
    assert MonthStart(y, 3) == 31 + DaysInMonth(y, 2);
    assert MonthStart(y, 5) == MonthStart(y, 3) + 61;
    assert MonthStart(y, 7) == MonthStart(y, 5) + 61;
    assert MonthStart(y, 9) == MonthStart(y, 7) + 62;
    assert MonthStart(y, 11) == MonthStart(y, 9) + 61;
    assert MonthStart(y, 13) == MonthStart(y, 11) + 61;
  }

  /** Later months start later, each at least 28 days after the one before. */
  lemma {:induction false} MonthStartMonotone(y: int, a: int, b: int)
    requires 1 <= a <= b <= 13
    ensures MonthStart(y, a) + 28 * (b - a) <= MonthStart(y, b)
    decreases b - a
  {
    if a < b {
      MonthStartMonotone(y, a, b - 1);
    }
  }

  /** Zero-based day of the year: 0 for 1 January. */
  function Ordinal(d: Date): (k: int)
    requires ValidDate(d)
    ensures 0 <= k < DaysInYear(d.year)
  {
    MonthStartMonotone(d.year, d.month + 1, 13);
    MonthStartOfYearEnd(d.year);
    MonthStart(d.year, d.month) + d.day - 1
  }

  /** A date lies in month `m` exactly when its ordinal lies in that month's block. */
  lemma MonthOfOrdinal(d: Date, m: int)
    requires ValidDate(d) && 1 <= m <= 12
    ensures d.month == m <==> MonthStart(d.year, m) <= Ordinal(d) < MonthStart(d.year, m + 1)
  {
    var y := d.year;
    assert MonthStart(y, d.month + 1) == MonthStart(y, d.month) + DaysInMonth(y, d.month);
    assert MonthStart(y, m + 1) == MonthStart(y, m) + DaysInMonth(y, m);
    if d.month < m {
      MonthStartMonotone(y, d.month + 1, m);
    } else if d.month > m {
      MonthStartMonotone(y, m + 1, d.month);
    }
  }

  /** A date in an earlier month of the same year has the smaller ordinal. */
  lemma EarlierMonthOrdinal(a: Date, b: Date)
    requires ValidDate(a) && ValidDate(b) && a.year == b.year && a.month < b.month
    ensures Ordinal(a) < Ordinal(b)
  {
    var y := a.year;
    assert MonthStart(y, a.month + 1) == MonthStart(y, a.month) + DaysInMonth(y, a.month);
    MonthStartMonotone(y, a.month + 1, b.month);
  }

  /** Within a year, date order and ordinal order agree, so the ordinal
   *  identifies the date. */
  lemma OrdinalOrder(a: Date, b: Date)
    requires ValidDate(a) && ValidDate(b) && a.year == b.year
    ensures Before(a, b) <==> Ordinal(a) < Ordinal(b)
    ensures a == b <==> Ordinal(a) == Ordinal(b)
  {
    if a.month < b.month {
      EarlierMonthOrdinal(a, b);
    } else if b.month < a.month {
      EarlierMonthOrdinal(b, a);
    }
  }

  /** `d + timedelta(days=1)`. */
  function Next(d: Date): (e: Date)
    requires ValidDate(d)
    ensures ValidDate(e) && Before(d, e)
  {
    if d.day < DaysInMonth(d.year, d.month) then Date(d.year, d.month, d.day + 1)
    else if d.month < 12 then Date(d.year, d.month + 1, 1)
    else Date(d.year + 1, 1, 1)
  }

  /** The next day is the next ordinal of the same year, or 1 January of the
   *  next year after the last day. */
  lemma NextOrdinal(d: Date)
    requires ValidDate(d)
    ensures Ordinal(d) + 1 < DaysInYear(d.year) ==> Next(d).year == d.year && Ordinal(Next(d)) == Ordinal(d) + 1
    ensures Ordinal(d) + 1 == DaysInYear(d.year) ==> Next(d) == Date(d.year + 1, 1, 1)
  {
    MonthStartOfYearEnd(d.year);
    if d.month < 12 {
      MonthStartMonotone(d.year, d.month + 1, 12);
    }
  }

  /** Number of days from 1 January of `BaseYear` to 1 January of `y`. */
  function YearStart(y: int): int
    decreases if y < BaseYear then BaseYear - y else y - BaseYear
  {
    if y == BaseYear then 0
    else if y > BaseYear then YearStart(y - 1) + DaysInYear(y - 1)
    else YearStart(y + 1) - DaysInYear(y)
  }

  lemma YearStartStep(y: int)
    ensures YearStart(y + 1) == YearStart(y) + DaysInYear(y)
  {
  }

  /** Days since 1 January 2026 (negative before it). */
  function DayNumber(d: Date): int
    requires ValidDate(d)
  {
    YearStart(d.year) + Ordinal(d)
  }

  lemma NextDayNumber(d: Date)
    requires ValidDate(d)
    ensures DayNumber(Next(d)) == DayNumber(d) + 1
  {
    NextOrdinal(d);
    YearStartStep(d.year);
  }

  /** `d.weekday()`: 0 is Monday, 6 is Sunday; 1 January 2026 is a Thursday. */
  function Weekday(d: Date): (w: int)
    requires ValidDate(d)
    ensures 0 <= w < 7
  {
    (DayNumber(d) + 3) % 7
  }

  /** `d + timedelta(days=n)`. */
  function AddDays(d: Date, n: nat): (e: Date)
    requires ValidDate(d)
    ensures ValidDate(e) && DayNumber(e) == DayNumber(d) + n
  {
    if n == 0 then d
    else
      var e := AddDays(d, n - 1);
      NextDayNumber(e);
      Next(e)
  }

  /** Counting days from 1 January of `y` walks the ordinals of `y` in order
   *  and then reaches 1 January of the next year. */
  lemma {:induction false} AddDaysFromNewYear(y: int, k: nat)
    requires k <= DaysInYear(y)
    ensures k < DaysInYear(y) ==> AddDays(Date(y, 1, 1), k).year == y && Ordinal(AddDays(Date(y, 1, 1), k)) == k
    ensures k == DaysInYear(y) ==> AddDays(Date(y, 1, 1), k) == Date(y + 1, 1, 1)
  {
    if k > 0 {
      AddDaysFromNewYear(y, k - 1);
      var e := AddDays(Date(y, 1, 1), k - 1);
      assert e.year == y && Ordinal(e) == k - 1;
      assert AddDays(Date(y, 1, 1), k) == Next(e);
      NextOrdinal(e);
    }
  }

  /** `s` lists every date of year `y` once, in increasing order: its k-th
   *  element is the date with ordinal k. */
  ghost predicate IsYearOf(s: seq<Date>, y: int) {
    && |s| == DaysInYear(y)
    && forall k :: 0 <= k < |s| ==> ValidDate(s[k]) && s[k].year == y && Ordinal(s[k]) == k
  }

  /** The dates of a year sequence strictly increase. */
  lemma YearSorted(s: seq<Date>, y: int)
    requires IsYearOf(s, y)
    ensures forall i, j :: 0 <= i < j < |s| ==> Before(s[i], s[j])
  {
    forall i, j | 0 <= i < j < |s|
      ensures Before(s[i], s[j])
    {
      OrdinalOrder(s[i], s[j]);
    }
  }

  /** Every valid date of year `y` is in a year sequence of `y`, exactly once,
   *  at the index given by its ordinal. */
  lemma YearTotal(s: seq<Date>, y: int, d: Date)
    requires IsYearOf(s, y)
    requires ValidDate(d) && d.year == y
    ensures Ordinal(d) < |s| && s[Ordinal(d)] == d
    ensures forall k :: 0 <= k < |s| && s[k] == d ==> k == Ordinal(d)
  {
    OrdinalOrder(s[Ordinal(d)], d);
  }

  /** A date that is in a year sequence of `y` is a valid date of `y`. */
  lemma YearMember(s: seq<Date>, y: int, d: Date)
    requires IsYearOf(s, y)
    ensures d in s <==> ValidDate(d) && d.year == y
  {
    if ValidDate(d) && d.year == y {
      YearTotal(s, y, d);
    }
  }
}
