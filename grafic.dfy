/** The month merges of grafic.py (`create_calendar_header_2026`). Its date
 *  list, tables, row-1 classification, row-2 month labels, `month_cols`
 *  layout and legend counts are those of vacation_scheduler.py and are
 *  modelled in `HeaderCalendar`; what differs is the search for a month's
 *  last column. That search tests each column against the variable `date`
 *  left over from the layout loop, which after the loop is 31 December,
 *  instead of against the column's own date. */
module Grafic {
  import opened Calendar
  import opened MonthGrid
  import opened HeaderCalendar
  import opened Wrappers

  function Digit(k: int): char
    requires 0 <= k < 10
  {
    (48 + k) as char
  }

  /** The decimal digits of `n`, most significant first. */
  function Digits(n: nat): (s: string)
    ensures |s| >= 1
    decreases n
  {
    if n < 10 then [Digit(n)] else Digits(n / 10) + [Digit(n % 10)]
  }

  /** `str(n)` for an integer. */
  function DecimalString(n: int): string {
    if n < 0 then "-" + Digits(-n) else Digits(n)
  }

  /** Python's `p in s` on strings: `p` occurs in `s` as a block. */
  predicate IsInfix(p: string, s: string)
    decreases |s|
  {
    p <= s || (|s| > 0 && IsInfix(p, s[1..]))
  }

  /** Among the day numbers 1 to 31, "31" occurs in the text of day 31
   *  only. */
  lemma ThirtyFirstText(n: int)
    requires 1 <= n <= 31
    ensures IsInfix("31", DecimalString(n)) <==> n == 31
  {
    var s := DecimalString(n);
    if n < 10 {
      assert s == [Digit(n)];
      assert !IsInfix("31", s[1..]);
    } else {
      assert Digits(n / 10) == [Digit(n / 10)];
      assert s == [Digit(n / 10), Digit(n % 10)];
      assert !IsInfix("31", s[1..]) by {
        assert s[1..] == [Digit(n % 10)];
        assert s[1..][1..] == [];
      }
      if "31" <= s {
        assert s[0] == "31"[0] == '3' && s[1] == "31"[1] == '1';
        assert Digit(n / 10) as int == 48 + n / 10 && Digit(n % 10) as int == 48 + n % 10;
        assert n / 10 == 3 && n % 10 == 1;
      }
      if n == 31 {
        assert s == "31";
      }
    }
  }

  /** `end_date_month`: 31 December for December, otherwise the day before
   *  the 1st of the next month. */
  function EndOfMonth(y: int, m: int): (e: Date)
    requires 1 <= m <= 12
    ensures ValidDate(e) && e.year == y && e.month == m
  {
    if m == 12 then Date(y, 12, 31) else Date(y, m, DaysInMonth(y, m))
  }

  /** The end of a month is its last day: the next day opens the next month,
   *  or the next year after December. */
  lemma EndOfMonthIsLastDay(y: int, m: int)
    requires 1 <= m <= 12
    ensures EndOfMonth(y, m).day == DaysInMonth(y, m)
    ensures Next(EndOfMonth(y, m)) == if m < 12 then Date(y, m + 1, 1) else Date(y + 1, 1, 1)
  {
  }

  /** Which date the search of a month's last column compares: the variable
   *  `date` left over from the layout loop, as written, or the date of the
   *  column being tested. */
  datatype EndSearch = LeftoverDate(date: Date) | ColumnDate

  /** The test of the search at index `k` (column `5 + k`). As written: the
   *  leftover date's day number occurs in the first line of the column's
   *  row-1 text, and the leftover date is not after the month's end. With
   *  the column's own date: that date is not after the month's end. */
  predicate EndMatches(search: EndSearch, cells: seq<HeaderCell>, dates: seq<Date>, endOfMonth: Date, k: int)
    requires 0 <= k < |cells| == |dates|
  {
    match search
    case LeftoverDate(date) =>
      IsInfix(DecimalString(date.day), DecimalString(cells[k].day)) && !Before(endOfMonth, date)
    case ColumnDate => !Before(endOfMonth, dates[k])
  }

  /** The outcome of the test at the indexes below `n`, for the month
   *  ending at `endOfMonth`. */
  function Tests(search: EndSearch, cells: seq<HeaderCell>, dates: seq<Date>, endOfMonth: Date, n: int): (t: seq<bool>)
    requires |cells| == |dates| && 0 <= n <= |cells|
    ensures |t| == n
  {
    if n == 0 then [] else Tests(search, cells, dates, endOfMonth, n - 1) + [EndMatches(search, cells, dates, endOfMonth, n - 1)]
  }

  lemma {:induction false} TestsAt(search: EndSearch, cells: seq<HeaderCell>, dates: seq<Date>, endOfMonth: Date, n: int, k: int)
    requires |cells| == |dates| && 0 <= k < n <= |cells|
    ensures Tests(search, cells, dates, endOfMonth, n)[k] == EndMatches(search, cells, dates, endOfMonth, k)
    decreases n
  {
    if k < n - 1 {
      TestsAt(search, cells, dates, endOfMonth, n - 1, k);
    }
  }

  /** The last index in `lo .. hi - 1` whose test passed, or -1; searched
   *  from the end, independently of the forward loop. */
  function LastTrue(t: seq<bool>, lo: int, hi: int): int
    requires hi <= |t|
    decreases hi - lo
  {
    if hi <= lo || hi <= 0 then -1
    else if t[hi - 1] then hi - 1
    else LastTrue(t, lo, hi - 1)
  }

  /** `LastTrue` is an index of the range whose test passed, with no later
   *  index of the range passing, or -1 when none does. */
  lemma {:induction false} LastTrueMeaning(t: seq<bool>, lo: int, hi: int)
    requires hi <= |t|
    ensures var r := LastTrue(t, lo, hi);
            r == -1 || (lo <= r < hi && 0 <= r && t[r])
    ensures var r := LastTrue(t, lo, hi);
            forall j :: lo <= j < hi && r < j && 0 <= j ==> !t[j]
    decreases hi - lo
  {
    if lo < hi && 0 < hi && !t[hi - 1] {
      LastTrueMeaning(t, lo, hi - 1);
    }
  }

  /** When no test of the range passes, `LastTrue` is -1. */
  lemma {:induction false} LastTrueNone(t: seq<bool>, lo: int, hi: int)
    requires hi <= |t|
    requires forall k :: lo <= k < hi && 0 <= k ==> !t[k]
    ensures LastTrue(t, lo, hi) == -1
    decreases hi - lo
  {
    if lo < hi && 0 < hi {
      LastTrueNone(t, lo, hi - 1);
    }
  }

  /** The end column of month `m` starting at `startCol`: the column of the
   *  last index that passes the test, or the start column when none does. */
  function EndColumn(search: EndSearch, cells: seq<HeaderCell>, dates: seq<Date>, m: int, startCol: int): int
    requires |cells| == |dates| && 1 <= m <= 12 && FirstColumn <= startCol
  {
    EndAmong(Tests(search, cells, dates, EndOfMonth(Year, m), |cells|), startCol, |cells|)
  }

  /** The end column found once the tests of indexes below `hi` are done:
   *  the column of the last index from `startCol` on that passed, or the
   *  start column. */
  function EndAmong(t: seq<bool>, startCol: int, hi: int): int
    requires hi <= |t|
  {
    var last := LastTrue(t, startCol - FirstColumn, hi);
    if last == -1 then startCol else FirstColumn + last
  }

  /** The search loop of one month: `end_col` starts at the month's column
   *  and moves to each later column that passes the test. */
  method SearchEnd(search: EndSearch, cells: seq<HeaderCell>, dates: seq<Date>, m: int, startCol: int, colIndex: int)
    returns (endCol: int)
    requires |cells| == |dates| && 1 <= m <= 12 && FirstColumn <= startCol
    requires colIndex == FirstColumn + |cells|
    ensures endCol == EndColumn(search, cells, dates, m, startCol)
  {
    var endOfMonth := EndOfMonth(Year, m);
    ghost var tests := Tests(search, cells, dates, endOfMonth, |cells|);
    endCol := startCol;
    var col := startCol;
    while col < colIndex
      invariant startCol <= col && (col <= colIndex || col == startCol)
      invariant endCol == EndAmong(tests, startCol, Min(col - FirstColumn, |cells|))
      decreases colIndex - col
    {
      var k := col - FirstColumn;
      var passes := TestColumn(search, cells, dates, endOfMonth, k);
      assert Min(k + 1, |cells|) == k + 1 && Min(k, |cells|) == k;
      assert EndAmong(tests, startCol, k + 1) == if tests[k] then col else EndAmong(tests, startCol, k);
      if passes {
        endCol := col;
      }
      col := col + 1;
    }
  }

  /** The two nested conditions of the search at index `k`. */
  method TestColumn(search: EndSearch, cells: seq<HeaderCell>, dates: seq<Date>, endOfMonth: Date, k: int)
    returns (passes: bool)
    requires 0 <= k < |cells| == |dates|
    ensures passes == Tests(search, cells, dates, endOfMonth, |cells|)[k]
  {
    TestsAt(search, cells, dates, endOfMonth, |cells|, k);
    passes := false;
    match search {
      case LeftoverDate(date) =>
        if IsInfix(DecimalString(date.day), DecimalString(cells[k].day)) {
          if !Before(endOfMonth, date) {
            passes := true;
          }
        }
      case ColumnDate =>
        if !Before(endOfMonth, dates[k]) {
          passes := true;
        }
    }
  }

  ghost predicate MonthColumnsOk(order: seq<int>, monthCols: map<int, int>) {
    forall i :: 0 <= i < |order| ==> 1 <= order[i] <= 12 && order[i] in monthCols && FirstColumn <= monthCols[order[i]]
  }

  /** The merges of row 2 over the months of `order`: month `m` from its
   *  column to its end column, when the end column is further right. */
  function Merges(search: EndSearch, cells: seq<HeaderCell>, dates: seq<Date>, order: seq<int>, monthCols: map<int, int>): seq<Span>
    requires |cells| == |dates| && MonthColumnsOk(order, monthCols)
  {
    if order == [] then []
    else
      var m := order[|order| - 1];
      var startCol := monthCols[m];
      var endCol := EndColumn(search, cells, dates, m, startCol);
      Merges(search, cells, dates, order[..|order| - 1], monthCols) +
      (if endCol > startCol then [Span(m, startCol, endCol)] else [])
  }

  /** `for month, start_col in month_cols.items()`: search the end column
   *  and merge when it is right of the start column. */
  method MergeMonths(search: EndSearch, cells: seq<HeaderCell>, dates: seq<Date>, order: seq<int>,
                     monthCols: map<int, int>, colIndex: int)
    returns (merges: seq<Span>)
    requires |cells| == |dates| && MonthColumnsOk(order, monthCols)
    requires colIndex == FirstColumn + |cells|
    ensures merges == Merges(search, cells, dates, order, monthCols)
  {
    merges := [];
    for i := 0 to |order|
      invariant merges == Merges(search, cells, dates, order[..i], monthCols)
    {
      var startCol := monthCols[order[i]];
      var endCol := SearchEnd(search, cells, dates, order[i], startCol, colIndex);
      assert order[..i + 1][..i] == order[..i];
      if endCol > startCol {
        merges := merges + [Span(order[i], startCol, endCol)];
      }
    }
    assert order[..|order|] == order;
  }

  /** When the leftover date is after a month's end, no column passes the
   *  test and the month keeps its start column. */
  lemma LeftoverPastEnd(date: Date, cells: seq<HeaderCell>, dates: seq<Date>, endOfMonth: Date, lo: int)
    requires |cells| == |dates|
    requires Before(endOfMonth, date)
    ensures LastTrue(Tests(LeftoverDate(date), cells, dates, endOfMonth, |cells|), lo, |cells|) == -1
  {
    var tests := Tests(LeftoverDate(date), cells, dates, endOfMonth, |cells|);
    forall k | 0 <= k < |cells|
      ensures !tests[k]
    {
      TestsAt(LeftoverDate(date), cells, dates, endOfMonth, |cells|, k);
    }
    LastTrueNone(tests, lo, |cells|);
  }

  /** For the dates of 2026 the leftover date is 31 December, and the month
   *  columns are those of the layout. */
  lemma YearFacts(dates: seq<Date>)
    requires IsYearOf(dates, Year)
    ensures |dates| == 365 && dates[364] == Date(Year, 12, 31)
    ensures MonthStart(Year, 12) == 334
    ensures MonthKeys(dates, |dates|) == AllMonths
    ensures forall m :: 1 <= m <= 12 ==> m in FirstColumns(dates, |dates|) && FirstColumns(dates, |dates|)[m] == FirstColumn + MonthStart(Year, m)
  {
    assert MonthStart(Year, 12) == 334;
    YearTotal(dates, Year, Date(Year, 12, 31));
    YearMonthOrder(dates, Year);
    YearMonthColumns(dates, Year);
  }

  /** The month columns of a year, listed in calendar order, are fit for the
   *  merge loop. */
  lemma YearColumnsOk(dates: seq<Date>, n: int)
    requires IsYearOf(dates, Year) && 0 <= n <= 12
    ensures MonthColumnsOk(AllMonths[..n], FirstColumns(dates, |dates|))
  {
    YearFacts(dates);
    forall i | 0 <= i < n
      ensures 1 <= AllMonths[..n][i] <= 12
    {
      assert AllMonths[..n][i] == i + 1;
    }
  }

  /** Months whose end is before the leftover date are never merged. */
  lemma {:induction false} LeftoverMergesNone(date: Date, cells: seq<HeaderCell>, dates: seq<Date>,
                                              order: seq<int>, monthCols: map<int, int>)
    requires |cells| == |dates| && MonthColumnsOk(order, monthCols)
    requires forall i :: 0 <= i < |order| ==> Before(EndOfMonth(Year, order[i]), date)
    ensures Merges(LeftoverDate(date), cells, dates, order, monthCols) == []
    decreases |order|
  {
    if order != [] {
      var m := order[|order| - 1];
      var prefix := order[..|order| - 1];
      assert forall i :: 0 <= i < |prefix| ==> prefix[i] == order[i];
      LeftoverMergesNone(date, cells, dates, prefix, monthCols);
      LeftoverPastEnd(date, cells, dates, EndOfMonth(Year, m), monthCols[m] - FirstColumn);
      assert EndColumn(LeftoverDate(date), cells, dates, m, monthCols[m]) == monthCols[m];
    }
  }

  /** As written, January to November are never merged: their end is
   *  before the leftover 31 December. */
  lemma LeftoverMergesBeforeDecember(dates: seq<Date>, cells: seq<HeaderCell>)
    requires IsYearOf(dates, Year) && |cells| == |dates|
    ensures |dates| == 365 && MonthColumnsOk(AllMonths[..11], FirstColumns(dates, |dates|))
    ensures Merges(LeftoverDate(dates[364]), cells, dates, AllMonths[..11], FirstColumns(dates, |dates|)) == []
  {
    YearFacts(dates);
    YearColumnsOk(dates, 11);
    var order := AllMonths[..11];
    forall i | 0 <= i < |order|
      ensures Before(EndOfMonth(Year, order[i]), dates[364])
    {
      assert order[i] == i + 1;
    }
    LeftoverMergesNone(dates[364], cells, dates, order, FirstColumns(dates, |dates|));
  }

  /** As written, December is merged from its first column, 339, to the
   *  column of 31 December, 369, the only day whose number contains
   *  "31". */
  lemma LeftoverDecemberEnd(dates: seq<Date>, cells: seq<HeaderCell>)
    requires IsYearOf(dates, Year) && cells == HeaderRow(dates, |dates|)
    ensures |cells| == |dates|
    ensures EndColumn(LeftoverDate(dates[364]), cells, dates, 12, FirstColumn + MonthStart(Year, 12)) == 369
  {
    YearFacts(dates);
    HeaderRowAt(dates, |dates|);
    assert cells[364] == HeaderCellOf(dates[364], FirstColumn + 364);
    assert cells[364].day == 31;
    ThirtyFirstText(31);
    assert EndMatches(LeftoverDate(dates[364]), cells, dates, EndOfMonth(Year, 12), 364);
  }

  /** As written, row 2 gets a single merge: December, from column 339 to
   *  column 369. January to November stay unmerged. */
  lemma LeftoverMergesOfYear(dates: seq<Date>, cells: seq<HeaderCell>)
    requires IsYearOf(dates, Year) && cells == HeaderRow(dates, |dates|)
    ensures |cells| == |dates| && MonthColumnsOk(AllMonths, FirstColumns(dates, |dates|))
    ensures Merges(LeftoverDate(dates[364]), cells, dates, AllMonths, FirstColumns(dates, |dates|)) == [Span(12, 339, 369)]
  {
    YearFacts(dates);
    HeaderRowAt(dates, |dates|);
    YearColumnsOk(dates, 12);
    assert AllMonths[..12] == AllMonths;
    LeftoverMergesBeforeDecember(dates, cells);
    LeftoverDecemberEnd(dates, cells);
    assert AllMonths[..11] == AllMonths[..|AllMonths| - 1];
  }

  /** The header as written: the layout of `HeaderCalendar`, then the merge
   *  search against the leftover `date`, which leaves a single merge. */
  method CreateCalendarHeader()
    returns (dates: seq<Date>, cells: seq<HeaderCell>, monthRow: seq<Option<int>>,
             monthCols: map<int, int>, merges: seq<Span>, colIndex: int)
    ensures IsYearOf(dates, Year) && |dates| == 365
    ensures cells == HeaderRow(dates, |dates|) && monthRow == MonthRow(dates, |dates|)
    ensures monthCols == FirstColumns(dates, |dates|)
    ensures merges == [Span(12, 339, 369)]
  {
    dates := AllDates();
    var order;
    cells, monthRow, order, monthCols, colIndex := LayOutHeader(dates);
    var leftover := dates[|dates| - 1];
    LeftoverMergesOfYear(dates, cells);
    YearFacts(dates);
    merges := MergeMonths(LeftoverDate(leftover), cells, dates, order, monthCols, colIndex);
  }

  /** Testing each column's own date, the search of month `m` ends at the
   *  month's last day. */
  lemma ColumnDateEnd(dates: seq<Date>, cells: seq<HeaderCell>, m: int)
    requires IsYearOf(dates, Year) && |cells| == |dates| && 1 <= m <= 12
    ensures 0 <= MonthStart(Year, m) < MonthStart(Year, m + 1) - 1
    ensures EndColumn(ColumnDate, cells, dates, m, FirstColumn + MonthStart(Year, m)) == FirstColumn + MonthStart(Year, m + 1) - 1
  {
    MonthBlock(Year, m);
    assert DaysInMonth(Year, m) >= 28;
    var endOfMonth := EndOfMonth(Year, m);
    var lo, hi := MonthStart(Year, m), |dates|;
    var e := MonthStart(Year, m + 1) - 1;
    assert MonthStart(Year, m + 1) == MonthStart(Year, m) + DaysInMonth(Year, m);
    YearTotal(dates, Year, endOfMonth);
    assert Ordinal(endOfMonth) == e;
    var tests := Tests(ColumnDate, cells, dates, endOfMonth, |cells|);
    TestsAt(ColumnDate, cells, dates, endOfMonth, |cells|, e);
    assert tests[e];
    LastTrueMeaning(tests, lo, hi);
    var r := LastTrue(tests, lo, hi);
    TestsAt(ColumnDate, cells, dates, endOfMonth, |cells|, r);
    assert r != -1 && e <= r;
    OrdinalOrder(endOfMonth, dates[r]);
  }

  /** Merges of months listed in calendar order whose ends are known: month
   *  `i + 1` from the column of index `starts[i]` to that of index
   *  `starts[i + 1] - 1`. */
  lemma {:induction false} ColumnMergesOfMonths(cells: seq<HeaderCell>, dates: seq<Date>, starts: seq<int>,
                                                monthCols: map<int, int>, order: seq<int>)
    requires |cells| == |dates|
    requires |order| <= 12 && forall i :: 0 <= i < |order| ==> order[i] == i + 1
    requires |starts| == 13 && forall k :: 0 <= k < 13 ==> 0 <= starts[k]
    requires forall m :: 1 <= m <= 12 ==>
               && m in monthCols && monthCols[m] == FirstColumn + starts[m - 1]
               && starts[m - 1] < starts[m] - 1
               && EndColumn(ColumnDate, cells, dates, m, FirstColumn + starts[m - 1]) == FirstColumn + starts[m] - 1
    ensures MonthColumnsOk(order, monthCols)
    ensures |Merges(ColumnDate, cells, dates, order, monthCols)| == |order|
    ensures forall i :: 0 <= i < |order| ==>
              Merges(ColumnDate, cells, dates, order, monthCols)[i] == Span(i + 1, FirstColumn + starts[i], FirstColumn + starts[i + 1] - 1)
    decreases |order|
  {
    forall i | 0 <= i < |order|
      ensures 1 <= order[i] <= 12 && order[i] in monthCols && FirstColumn <= monthCols[order[i]]
    {
      assert order[i] == i + 1 && 0 <= starts[i];
    }
    if order != [] {
      var j := |order|;
      var before := order[..j - 1];
      ColumnMergesOfMonths(cells, dates, starts, monthCols, before);
      var merges := Merges(ColumnDate, cells, dates, order, monthCols);
      var prior := Merges(ColumnDate, cells, dates, before, monthCols);
      assert merges == prior + [Span(j, FirstColumn + starts[j - 1], FirstColumn + starts[j] - 1)];
    }
  }

  /** Testing each column's own date, the search of every month of 2026
   *  ends at the index before the next month's start. */
  lemma ColumnDateEnds(dates: seq<Date>, cells: seq<HeaderCell>)
    requires IsYearOf(dates, Year) && |cells| == |dates|
    ensures forall k :: 0 <= k < 13 ==> 0 <= MonthStarts(Year)[k]
    ensures forall m :: 1 <= m <= 12 ==>
              EndColumn(ColumnDate, cells, dates, m, FirstColumn + MonthStarts(Year)[m - 1]) == FirstColumn + MonthStarts(Year)[m] - 1
  {
    var starts := MonthStarts(Year);
    forall k | 0 <= k < 13
      ensures 0 <= starts[k]
    {
      MonthStartMonotone(Year, 1, k + 1);
    }
    forall m | 1 <= m <= 12
      ensures EndColumn(ColumnDate, cells, dates, m, FirstColumn + starts[m - 1]) == FirstColumn + starts[m] - 1
    {
      ColumnDateEnd(dates, cells, m);
    }
  }

  /** Testing each column's own date, row 2 gets the twelve month merges,
   *  each from the month's first column to its last. */
  lemma ColumnMergesOfYear(dates: seq<Date>, cells: seq<HeaderCell>)
    requires IsYearOf(dates, Year) && |cells| == |dates|
    ensures MonthColumnsOk(AllMonths, FirstColumns(dates, |dates|))
    ensures YearMonthSpans(Merges(ColumnDate, cells, dates, AllMonths, FirstColumns(dates, |dates|)), Year, FirstColumn)
  {
    var cols := FirstColumns(dates, |dates|);
    var starts := MonthStarts(Year);
    YearMonthEnds(dates, Year);
    ColumnDateEnds(dates, cells);
    ColumnMergesOfMonths(cells, dates, starts, cols, AllMonths);
    StartsSpans(Merges(ColumnDate, cells, dates, AllMonths, cols), Year, starts);
  }

  /** Spans built from the month starts of year `y` are that year's month
   *  spans. */
  lemma StartsSpans(spans: seq<Span>, y: int, starts: seq<int>)
    requires starts == MonthStarts(y) && |spans| == 12
    requires forall i :: 0 <= i < 12 ==> spans[i] == Span(i + 1, FirstColumn + starts[i], FirstColumn + starts[i + 1] - 1)
    ensures YearMonthSpans(spans, y, FirstColumn)
  {
    forall j | 0 <= j < 12
      ensures spans[j] == Span(j + 1, FirstColumn + MonthStart(y, j + 1), FirstColumn + MonthStart(y, j + 2) - 1)
    {
      assert starts[j] == MonthStart(y, j + 1) && starts[j + 1] == MonthStart(y, j + 2);
    }
  }

  /** The header with the search testing each column's own date: every
   *  month is merged over its own columns. */
  method CreateCalendarHeaderIntended()
    returns (dates: seq<Date>, cells: seq<HeaderCell>, monthRow: seq<Option<int>>,
             monthCols: map<int, int>, merges: seq<Span>, colIndex: int)
    ensures IsYearOf(dates, Year) && |dates| == 365
    ensures cells == HeaderRow(dates, |dates|) && monthRow == MonthRow(dates, |dates|)
    ensures monthCols == FirstColumns(dates, |dates|)
    ensures YearMonthSpans(merges, Year, FirstColumn)
  {
    dates := AllDates();
    var order;
    cells, monthRow, order, monthCols, colIndex := LayOutHeader(dates);
    HeaderRowAt(dates, |dates|);
    YearFacts(dates);
    ColumnMergesOfYear(dates, cells);
    merges := MergeMonths(ColumnDate, cells, dates, order, monthCols, colIndex);
  }
}
