/** The column-header calendar of vacation_scheduler.py
 *  (`create_vacation_schedule_2026`): every date of 2026 gets a column from
 *  E on, row 1 carries the day number and its mark, row 2 the month name at
 *  the first column of each month, merged up to the month's last column,
 *  and the legend sheet carries a few counts over the year. grafic.py
 *  (`create_calendar_header_2026`) carries the same date list, tables,
 *  classification, layout loop and counts; its merge search differs and is
 *  modelled in the `Grafic` module. */
module HeaderCalendar {
  import opened Calendar
  import opened MonthGrid
  import opened Wrappers

  const Year: int := 2026

  /** `holidays`: 1 to 8 January from `range(1, 9)`, then 7 January once
   *  more, 23 February, 8 March, 1 and 9 May, 12 June and 4 November. Unlike
   *  the other scripts, 9 January is not in the table. */
  const Holidays: seq<Date> :=
    [Date(2026, 1, 1), Date(2026, 1, 2), Date(2026, 1, 3), Date(2026, 1, 4),
     Date(2026, 1, 5), Date(2026, 1, 6), Date(2026, 1, 7), Date(2026, 1, 8),
     Date(2026, 1, 7), Date(2026, 2, 23), Date(2026, 3, 8), Date(2026, 5, 1),
     Date(2026, 5, 9), Date(2026, 6, 12), Date(2026, 11, 4)]

  /** `pre_holidays`; 7 March is a Saturday. */
  const PreHolidays: seq<Date> :=
    [Date(2026, 2, 20), Date(2026, 3, 7), Date(2026, 5, 8),
     Date(2026, 6, 11), Date(2026, 11, 3), Date(2026, 12, 31)]

  /** Column E holds 1 January. */
  const FirstColumn: int := 5

  const MonthNames: seq<string> :=
    ["Янв", "Фев", "Мар", "Апр", "Май", "Июн", "Июл", "Авг", "Сен", "Окт", "Ноя", "Дек"]

  /** `months_ru[m]`, the text of a row-2 cell that holds month `m`; the
   *  empty string for a number that is no month. */
  function MonthName(m: int): string {
    if 1 <= m <= 12 then MonthNames[m - 1] else ""
  }

  /** The four branches of the row-1 cell: holiday, pre-holiday, weekend,
   *  workday. There is no working-Saturday case. */
  datatype Kind = Holiday | PreHoliday | Weekend | Workday

  /** The `if/elif` on `is_holiday`, `is_preholiday`, `is_weekend`. */
  function Classify(d: Date): (k: Kind)
    requires ValidDate(d)
    ensures k == Holiday <==> d in Holidays
    ensures k == PreHoliday <==> d !in Holidays && d in PreHolidays
    ensures k == Weekend <==> d !in Holidays && d !in PreHolidays && Weekday(d) >= 5
    ensures k == Workday <==> d !in Holidays && d !in PreHolidays && Weekday(d) < 5
  {
    if d in Holidays then Holiday
    else if d in PreHolidays then PreHoliday
    else if Weekday(d) >= 5 then Weekend
    else Workday
  }

  /** `holiday_fill`, `preholiday_fill`, `weekend_fill`, `workday_fill`. */
  function KindFill(k: Kind): string {
    match k
    case Holiday => "FFCCCC"
    case PreHoliday => "FFFFCC"
    case Weekend => "E6E6E6"
    case Workday => "FFFFFF"
  }

  /** The second line of a row-1 cell: "✶" on a holiday, "◐" on a
   *  pre-holiday, otherwise the name of the weekday. */
  datatype Mark = HolidayMark | PreHolidayMark | WeekdayMark(weekday: int)

  function MarkText(mark: Mark): string {
    match mark
    case HolidayMark => "✶"
    case PreHolidayMark => "◐"
    case WeekdayMark(w) => if 0 <= w < 7 then DayNames[w] else ""
  }

  /** One row-1 cell of a day column: the day number and its mark; then the
   *  fill. */
  datatype HeaderCell = HeaderCell(column: int, day: int, mark: Mark, fill: string)

  function HeaderCellOf(d: Date, column: int): HeaderCell
    requires ValidDate(d)
  {
    var k := Classify(d);
    var mark := if k == Holiday then HolidayMark else if k == PreHoliday then PreHolidayMark else WeekdayMark(Weekday(d));
    HeaderCell(column, d.day, mark, KindFill(k))
  }

  /** The mark reads "✶" exactly on a holiday, "◐" exactly on a pre-holiday
   *  that is not a holiday, and the weekday name otherwise; the four kinds
   *  get four fills, so a weekend and a workday differ only by fill and
   *  weekday name. */
  lemma HeaderCellMeaning(d: Date, column: int)
    requires ValidDate(d)
    ensures HeaderCellOf(d, column).column == column && HeaderCellOf(d, column).day == d.day
    ensures MarkText(HeaderCellOf(d, column).mark) == "✶" <==> d in Holidays
    ensures MarkText(HeaderCellOf(d, column).mark) == "◐" <==> d !in Holidays && d in PreHolidays
    ensures d !in Holidays && d !in PreHolidays ==> MarkText(HeaderCellOf(d, column).mark) == DayNames[Weekday(d)]
    ensures forall a: Kind, b: Kind :: KindFill(a) == KindFill(b) ==> a == b
  {
  }

  /** 7 March 2026 is a Saturday and a pre-holiday: it is drawn with "◐",
   *  not as a weekend. 9 January 2026 is a Friday that is in no table, so it
   *  is drawn as a workday. */
  lemma TableDays()
    ensures Weekday(Date(2026, 3, 7)) == 5 && Classify(Date(2026, 3, 7)) == PreHoliday
    ensures Weekday(Date(2026, 1, 9)) == 4 && Classify(Date(2026, 1, 9)) == Workday
  {
    assert MonthStart(2026, 3) == 59;
  }

  /** With no working-Saturday table, every Saturday and Sunday that is in
   *  neither table is a weekend, and no Saturday or Sunday is a workday. */
  lemma NoWorkingSaturdays(d: Date)
    requires ValidDate(d) && Weekday(d) >= 5
    ensures Classify(d) != Workday
    ensures d !in Holidays && d !in PreHolidays ==> Classify(d) == Weekend
  {
  }

  /** The `all_dates` loop: from 1 January while the date is not past
   *  31 December, appending each date and stepping one day. */
  method AllDates() returns (dates: seq<Date>)
    ensures IsYearOf(dates, Year) && |dates| == 365
  {
    var endDate := Date(Year, 12, 31);
    var current := Date(Year, 1, 1);
    dates := [];
    while !Before(endDate, current)
      invariant ValidDate(current) && |dates| <= DaysInYear(Year)
      invariant current.year == Year ==> Ordinal(current) == |dates|
      invariant current.year != Year ==> current == Date(Year + 1, 1, 1) && |dates| == DaysInYear(Year)
      invariant forall k :: 0 <= k < |dates| ==> ValidDate(dates[k]) && dates[k].year == Year && Ordinal(dates[k]) == k
      decreases DaysInYear(Year) - |dates|
    {
      dates := dates + [current];
      NextOrdinal(current);
      current := Next(current);
    }
  }

  /** In a year sequence each date is the day after the one before it, so
   *  the month changes between neighbours exactly at the 1st of a month. */
  lemma YearNeighbours(s: seq<Date>, y: int, i: int)
    requires IsYearOf(s, y) && 0 < i < |s|
    ensures s[i] == Next(s[i - 1])
    ensures s[i].month != s[i - 1].month <==> s[i].day == 1
  {
    NextOrdinal(s[i - 1]);
    OrdinalOrder(s[i], Next(s[i - 1]));
  }

  /** What the loop writes in row 2 at the i-th date's column: the month
   *  (whose name `MonthName` is the cell's text) where the month differs
   *  from the previous date's, else nothing. */
  function MonthLabel(dates: seq<Date>, i: int): Option<int>
    requires 0 <= i < |dates|
  {
    if i == 0 || dates[i].month != dates[i - 1].month then Some(dates[i].month) else None
  }

  /** Row 1 and row 2 of the first `n` date columns, built one column at a
   *  time as the loop builds them. */
  function HeaderRow(dates: seq<Date>, n: nat): seq<HeaderCell>
    requires n <= |dates| && forall k :: 0 <= k < |dates| ==> ValidDate(dates[k])
  {
    if n == 0 then [] else HeaderRow(dates, n - 1) + [HeaderCellOf(dates[n - 1], FirstColumn + n - 1)]
  }

  function MonthRow(dates: seq<Date>, n: nat): seq<Option<int>>
    requires n <= |dates|
  {
    if n == 0 then [] else MonthRow(dates, n - 1) + [MonthLabel(dates, n - 1)]
  }

  /** Column `FirstColumn + k` of row 1 holds the k-th date's cell. */
  lemma {:induction false} HeaderRowAt(dates: seq<Date>, n: nat)
    requires n <= |dates| && forall k :: 0 <= k < |dates| ==> ValidDate(dates[k])
    ensures |HeaderRow(dates, n)| == n
    ensures forall k :: 0 <= k < n ==> HeaderRow(dates, n)[k] == HeaderCellOf(dates[k], FirstColumn + k)
  {
    if n > 0 {
      HeaderRowAt(dates, n - 1);
      var prev := HeaderRow(dates, n - 1);
      var cell := HeaderCellOf(dates[n - 1], FirstColumn + n - 1);
      assert HeaderRow(dates, n) == prev + [cell];
      SnocIndex(prev, cell);
    }
  }

  /** Appending keeps the elements before the new one in place. */
  lemma SnocIndex<T>(prev: seq<T>, x: T)
    ensures |prev + [x]| == |prev| + 1 && (prev + [x])[|prev|] == x
    ensures forall k :: 0 <= k < |prev| ==> (prev + [x])[k] == prev[k]
  {
  }

  /** Row 2 holds a month name exactly where the month changes, and it is
   *  that month's name. */
  lemma {:induction false} MonthRowAt(dates: seq<Date>, n: nat)
    requires n <= |dates| && forall k :: 0 <= k < |dates| ==> ValidDate(dates[k])
    ensures |MonthRow(dates, n)| == n
    ensures forall k :: 0 <= k < n ==>
              (MonthRow(dates, n)[k] != None <==> k == 0 || dates[k].month != dates[k - 1].month)
    ensures forall k :: 0 <= k < n && MonthRow(dates, n)[k] != None ==>
              MonthRow(dates, n)[k] == Some(dates[k].month)
  {
    if n > 0 {
      MonthRowAt(dates, n - 1);
    }
  }

  /** `i` is the first index of `s` whose date is in month `m`. */
  ghost predicate IsFirstOf(s: seq<Date>, m: int, i: int) {
    && 0 <= i < |s| && s[i].month == m
    && forall j :: 0 <= j < i ==> s[j].month != m
  }

  /** `month_cols` after the first `n` dates: a month gets the column of
   *  the first date in it, the first time it is seen. */
  function FirstColumns(dates: seq<Date>, n: nat): map<int, int>
    requires n <= |dates|
  {
    if n == 0 then map[]
    else
      var cols := FirstColumns(dates, n - 1);
      if dates[n - 1].month in cols then cols else cols[dates[n - 1].month := FirstColumn + n - 1]
  }

  /** The key order of `month_cols` after the first `n` dates: insertion
   *  order. */
  function MonthKeys(dates: seq<Date>, n: nat): seq<int>
    requires n <= |dates|
  {
    if n == 0 then []
    else
      var keys := MonthKeys(dates, n - 1);
      if dates[n - 1].month in FirstColumns(dates, n - 1) then keys else keys + [dates[n - 1].month]
  }

  /** After `n` dates, `month_cols` holds exactly the months of those
   *  dates, each at one of their columns, and its keys are those of the key
   *  order. */
  lemma {:induction false} FirstColumnsKeys(dates: seq<Date>, n: nat)
    requires n <= |dates|
    ensures forall m :: m in FirstColumns(dates, n) <==> m in MonthKeys(dates, n)
    ensures forall k :: 0 <= k < |MonthKeys(dates, n)| ==> MonthKeys(dates, n)[k] in FirstColumns(dates, n)
    ensures forall k :: 0 <= k < n ==> dates[k].month in FirstColumns(dates, n)
    ensures forall m :: m in FirstColumns(dates, n) ==> FirstColumn <= FirstColumns(dates, n)[m] < FirstColumn + n
  {
    if n > 0 {
      FirstColumnsKeys(dates, n - 1);
    }
  }

  /** Each month in `month_cols` sits at the column of its first date. */
  lemma {:induction false} FirstColumnsFirst(dates: seq<Date>, n: nat)
    requires n <= |dates|
    ensures forall m :: m in FirstColumns(dates, n) ==> IsFirstOf(dates, m, FirstColumns(dates, n)[m] - FirstColumn)
  {
    if n > 0 {
      FirstColumnsFirst(dates, n - 1);
      FirstColumnsKeys(dates, n - 1);
      var seen := FirstColumns(dates, n - 1);
      var cols := FirstColumns(dates, n);
      var m0 := dates[n - 1].month;
      if m0 !in seen {
        forall m | m in cols
          ensures IsFirstOf(dates, m, cols[m] - FirstColumn)
        {
          if m == m0 {
            forall j | 0 <= j < n - 1
              ensures dates[j].month != m
            {
              assert dates[j].month in seen;
            }
          } else {
            assert m in seen && cols[m] == seen[m];
          }
        }
      }
    }
  }

  /** Keys listed in increasing order of their columns. */
  ghost predicate OrderedByColumn(keys: seq<int>, cols: map<int, int>) {
    && (forall k :: 0 <= k < |keys| ==> keys[k] in cols)
    && (forall p, q :: 0 <= p < q < |keys| ==> cols[keys[p]] < cols[keys[q]])
  }

  /** Adding a new key at a column past every recorded one keeps the keys in
   *  column order. */
  lemma AppendKey(keys: seq<int>, cols: map<int, int>, m: int, col: int)
    requires OrderedByColumn(keys, cols) && m !in cols
    requires forall x :: x in cols ==> cols[x] < col
    ensures OrderedByColumn(keys + [m], cols[m := col])
  {
    var all := keys + [m];
    var next := cols[m := col];
    forall k | 0 <= k < |keys|
      ensures next[all[k]] == cols[keys[k]] < col
    {
      assert all[k] == keys[k] && keys[k] in cols;
    }
  }

  /** The keys of `month_cols` come in increasing order of their columns. */
  lemma {:induction false} MonthKeysOrdered(dates: seq<Date>, n: nat)
    requires n <= |dates|
    ensures OrderedByColumn(MonthKeys(dates, n), FirstColumns(dates, n))
  {
    if n > 0 {
      MonthKeysOrdered(dates, n - 1);
      FirstColumnsKeys(dates, n - 1);
      var m0 := dates[n - 1].month;
      if m0 !in FirstColumns(dates, n - 1) {
        AppendKey(MonthKeys(dates, n - 1), FirstColumns(dates, n - 1), m0, FirstColumn + n - 1);
      }
    }
  }

  /** Row 1 with the cell of the i-th date appended. */
  method AppendCell(dates: seq<Date>, i: nat, cells: seq<HeaderCell>) returns (cells': seq<HeaderCell>)
    requires i < |dates| && forall k :: 0 <= k < |dates| ==> ValidDate(dates[k])
    requires cells == HeaderRow(dates, i)
    ensures cells' == HeaderRow(dates, i + 1)
  {
    cells' := cells + [HeaderCellOf(dates[i], FirstColumn + i)];
  }

  /** A date in the same month as the one before it finds its month
   *  already recorded. */
  lemma FirstColumnsRepeat(dates: seq<Date>, i: nat)
    requires 0 < i < |dates| && dates[i].month == dates[i - 1].month
    ensures dates[i].month in FirstColumns(dates, i)
  {
  }

  /** The loop over `all_dates` that writes rows 1 and 2: the i-th date goes
   *  to column `5 + i`; the month is written where it differs from the
   *  previous date's (`current_month` starts at 0), and `month_cols`
   *  records, on a month's first sight, its column. `monthOrder` is the key
   *  order of `month_cols`. */
  method LayOutHeader(dates: seq<Date>)
    returns (cells: seq<HeaderCell>, monthRow: seq<Option<int>>, monthOrder: seq<int>,
             monthCols: map<int, int>, colIndex: int)
    requires forall k :: 0 <= k < |dates| ==> ValidDate(dates[k])
    ensures colIndex == FirstColumn + |dates|
    ensures cells == HeaderRow(dates, |dates|) && monthRow == MonthRow(dates, |dates|)
    ensures monthCols == FirstColumns(dates, |dates|) && monthOrder == MonthKeys(dates, |dates|)
  {
    var currentMonth := 0;
    cells, monthRow, monthOrder, monthCols, colIndex := [], [], [], map[], FirstColumn;
    for i := 0 to |dates|
      invariant colIndex == FirstColumn + i
      invariant cells == HeaderRow(dates, i) && monthRow == MonthRow(dates, i)
      invariant currentMonth == if i == 0 then 0 else dates[i - 1].month
      invariant monthCols == FirstColumns(dates, i) && monthOrder == MonthKeys(dates, i)
    {
      cells := AppendCell(dates, i, cells);
      monthRow, monthOrder, monthCols, currentMonth :=
        TrackMonth(dates, i, monthRow, monthOrder, monthCols, currentMonth);
      colIndex := colIndex + 1;
    }
  }

  /** Row 2 for the i-th date: the month is written where it differs from
   *  the previous date's, and `month_cols` records, on a month's first
   *  sight, its column. */
  method TrackMonth(dates: seq<Date>, i: nat, monthRow: seq<Option<int>>, monthOrder: seq<int>,
                    monthCols: map<int, int>, currentMonth: int)
    returns (monthRow': seq<Option<int>>, monthOrder': seq<int>, monthCols': map<int, int>, currentMonth': int)
    requires i < |dates| && forall k :: 0 <= k < |dates| ==> ValidDate(dates[k])
    requires monthRow == MonthRow(dates, i)
    requires currentMonth == if i == 0 then 0 else dates[i - 1].month
    requires monthCols == FirstColumns(dates, i) && monthOrder == MonthKeys(dates, i)
    ensures monthRow' == MonthRow(dates, i + 1)
    ensures currentMonth' == dates[i].month
    ensures monthCols' == FirstColumns(dates, i + 1) && monthOrder' == MonthKeys(dates, i + 1)
  {
    var date := dates[i];
    monthRow', monthOrder', monthCols', currentMonth' := monthRow, monthOrder, monthCols, currentMonth;
    if date.month != currentMonth {
      monthRow' := monthRow + [Some(date.month)];
      currentMonth' := date.month;
      if date.month !in monthCols {
        monthCols' := monthCols[date.month := FirstColumn + i];
        monthOrder' := monthOrder + [date.month];
      }
    } else {
      FirstColumnsRepeat(dates, i);
      monthRow' := monthRow + [None];
    }
  }

  /** The last index in `lo .. hi - 1` whose date is in month `m`, or -1:
   *  searched from the end, independently of the merge loop's forward
   *  scan. */
  function LastOfMonth(s: seq<Date>, m: int, lo: int, hi: int): int
    requires hi <= |s|
    decreases hi - lo
  {
    if hi <= lo || hi <= 0 then -1
    else if s[hi - 1].month == m then hi - 1
    else LastOfMonth(s, m, lo, hi - 1)
  }

  /** `LastOfMonth` finds an index in the range in month `m`, and no later
   *  index of the range is in that month; it is -1 exactly when none is. */
  lemma {:induction false} LastOfMonthMeaning(s: seq<Date>, m: int, lo: int, hi: int)
    requires hi <= |s|
    ensures var r := LastOfMonth(s, m, lo, hi);
            r == -1 || (lo <= r < hi && 0 <= r && s[r].month == m)
    ensures var r := LastOfMonth(s, m, lo, hi);
            forall j :: lo <= j < hi && r < j && 0 <= j ==> s[j].month != m
    decreases hi - lo
  {
    if lo < hi && 0 < hi && s[hi - 1].month != m {
      LastOfMonthMeaning(s, m, lo, hi - 1);
    }
  }

  /** The search for a month's last column: `end_col` starts at the month's
   *  column and moves to every later column whose date (`all_dates[col -
   *  5]`) is in the month. It ends at the last such column. */
  method MergeEnd(dates: seq<Date>, m: int, startCol: int, colIndex: int) returns (endCol: int)
    requires FirstColumn <= startCol && colIndex == FirstColumn + |dates|
    ensures var last := LastOfMonth(dates, m, startCol - FirstColumn, |dates|);
            endCol == if last == -1 then startCol else FirstColumn + last
  {
    endCol := startCol;
    var col := startCol;
    while col < colIndex
      invariant startCol <= col && (col <= colIndex || col == startCol)
      invariant var last := LastOfMonth(dates, m, startCol - FirstColumn, Min(col - FirstColumn, |dates|));
                endCol == if last == -1 then startCol else FirstColumn + last
      decreases colIndex - col
    {
      if dates[col - FirstColumn].month == m {
        endCol := col;
      }
      col := col + 1;
    }
  }

  /** The merges of row 2 that the loop over `month_cols` makes, in key
   *  order: month `m` from its column to its search end, when the two
   *  differ. */
  function MergesOf(dates: seq<Date>, order: seq<int>, monthCols: map<int, int>): seq<Span>
    requires forall i :: 0 <= i < |order| ==> order[i] in monthCols && FirstColumn <= monthCols[order[i]]
  {
    if order == [] then []
    else
      var m := order[|order| - 1];
      var startCol := monthCols[m];
      var last := LastOfMonth(dates, m, startCol - FirstColumn, |dates|);
      var endCol := if last == -1 then startCol else FirstColumn + last;
      MergesOf(dates, order[..|order| - 1], monthCols) + (if startCol != endCol then [Span(m, startCol, endCol)] else [])
  }

  /** `for month, start_col in month_cols.items()`: search each month's end
   *  column and merge when it is not the start column. */
  method MonthMerges(dates: seq<Date>, order: seq<int>, monthCols: map<int, int>, colIndex: int)
    returns (merges: seq<Span>)
    requires forall i :: 0 <= i < |order| ==> order[i] in monthCols && FirstColumn <= monthCols[order[i]]
    requires colIndex == FirstColumn + |dates|
    ensures merges == MergesOf(dates, order, monthCols)
  {
    merges := [];
    for i := 0 to |order|
      invariant merges == MergesOf(dates, order[..i], monthCols)
    {
      var startCol := monthCols[order[i]];
      var endCol := MergeEnd(dates, order[i], startCol, colIndex);
      assert order[..i + 1][..i] == order[..i];
      if startCol != endCol {
        merges := merges + [Span(order[i], startCol, endCol)];
      }
    }
    assert order[..|order|] == order;
  }

  /** In a year sequence, the first date of month `m` has index
   *  `MonthStart(y, m)`, and the last date of the month at or after it has
   *  index `MonthStart(y, m + 1) - 1`. */
  lemma YearMonthBounds(s: seq<Date>, y: int, m: int)
    requires IsYearOf(s, y) && 1 <= m <= 12
    ensures IsFirstOf(s, m, MonthStart(y, m))
    ensures LastOfMonth(s, m, MonthStart(y, m), |s|) == MonthStart(y, m + 1) - 1
  {
    MonthBlock(y, m);
    assert DaysInMonth(y, m) >= 28;
    MonthOfOrdinal(s[MonthStart(y, m)], m);
    MonthOfOrdinal(s[MonthStart(y, m + 1) - 1], m);
    forall j | 0 <= j < MonthStart(y, m)
      ensures s[j].month != m
    {
      MonthOfOrdinal(s[j], m);
    }
    LastOfMonthMeaning(s, m, MonthStart(y, m), |s|);
    var r := LastOfMonth(s, m, MonthStart(y, m), |s|);
    if r != -1 {
      MonthOfOrdinal(s[r], m);
    }
  }

  /** A month recorded in `month_cols` for a year sequence sits at its first
   *  day's column. */
  lemma YearFirstColumns(s: seq<Date>, y: int)
    requires IsYearOf(s, y)
    ensures forall m :: m in FirstColumns(s, |s|) && 1 <= m <= 12 ==>
              FirstColumns(s, |s|)[m] == FirstColumn + MonthStart(y, m)
  {
    FirstColumnsFirst(s, |s|);
    forall m | m in FirstColumns(s, |s|) && 1 <= m <= 12
      ensures FirstColumns(s, |s|)[m] == FirstColumn + MonthStart(y, m)
    {
      YearMonthBounds(s, y, m);
    }
  }

  /** Months that start in order are in order. */
  lemma MonthStartOrder(y: int, a: int, b: int)
    requires 1 <= a <= 13 && 1 <= b <= 13
    ensures MonthStart(y, a) < MonthStart(y, b) ==> a < b
  {
    if b <= a {
      MonthStartMonotone(y, b, a);
    }
  }

  /** Two strictly increasing sequences with the same elements are equal. */
  lemma {:induction false} SortedUnique(a: seq<int>, b: seq<int>)
    requires forall i, j :: 0 <= i < j < |a| ==> a[i] < a[j]
    requires forall i, j :: 0 <= i < j < |b| ==> b[i] < b[j]
    requires forall x :: x in a <==> x in b
    ensures a == b
  {
    assert a != [] ==> a[0] in a;
    assert b != [] ==> b[0] in b;
    if a == [] {
      if b != [] {
        assert false;
      }
    } else if b == [] {
      assert false;
    } else {
      assert a[0] == b[0] by {
        assert a[0] in b && b[0] in a;
        var k :| 0 <= k < |b| && b[k] == a[0];
        var l :| 0 <= l < |a| && a[l] == b[0];
        assert b[0] <= b[k] && a[0] <= a[l];
      }
      forall x
        ensures x in a[1..] <==> x in b[1..]
      {
        if x in a[1..] {
          var k :| 1 <= k < |a| && a[k] == x;
          assert x in b && x != b[0];
        }
        if x in b[1..] {
          var k :| 1 <= k < |b| && b[k] == x;
          assert x in a && x != a[0];
        }
      }
      SortedUnique(a[1..], b[1..]);
      assert a == [a[0]] + a[1..] && b == [b[0]] + b[1..];
    }
  }

  /** For a year sequence, `month_cols` has exactly the twelve months as
   *  keys. */
  lemma YearMonthKeys(s: seq<Date>, y: int)
    requires IsYearOf(s, y)
    ensures forall m :: m in FirstColumns(s, |s|) <==> 1 <= m <= 12
  {
    var cols := FirstColumns(s, |s|);
    FirstColumnsKeys(s, |s|);
    FirstColumnsFirst(s, |s|);
    forall m | m in cols
      ensures 1 <= m <= 12
    {
      assert IsFirstOf(s, m, cols[m] - FirstColumn);
    }
    forall m | 1 <= m <= 12
      ensures m in cols
    {
      YearMember(s, y, Date(y, m, 1));
      var k :| 0 <= k < |s| && s[k] == Date(y, m, 1);
    }
  }

  /** Months listed in the order of their first columns are listed in
   *  calendar order. */
  lemma KeysIncreasing(keys: seq<int>, cols: map<int, int>, y: int)
    requires OrderedByColumn(keys, cols)
    requires forall m :: m in cols ==> 1 <= m <= 12 && cols[m] == FirstColumn + MonthStart(y, m)
    ensures forall p, q :: 0 <= p < q < |keys| ==> keys[p] < keys[q]
  {
    forall p, q | 0 <= p < q < |keys|
      ensures keys[p] < keys[q]
    {
      assert keys[p] in cols && keys[q] in cols;
      MonthStartOrder(y, keys[p], keys[q]);
    }
  }

  /** For a year sequence, `month_cols` holds the twelve months, each at
   *  its first day's column. */
  lemma YearMonthColumns(s: seq<Date>, y: int)
    requires IsYearOf(s, y)
    ensures forall m :: m in FirstColumns(s, |s|) <==> 1 <= m <= 12
    ensures forall m :: 1 <= m <= 12 ==> m in FirstColumns(s, |s|) && FirstColumns(s, |s|)[m] == FirstColumn + MonthStart(y, m)
  {
    YearMonthKeys(s, y);
    YearFirstColumns(s, y);
  }

  /** For a year sequence, the keys of `month_cols` are listed in
   *  increasing order. */
  lemma YearKeysIncreasing(s: seq<Date>, y: int)
    requires IsYearOf(s, y)
    ensures forall p, q :: 0 <= p < q < |MonthKeys(s, |s|)| ==> MonthKeys(s, |s|)[p] < MonthKeys(s, |s|)[q]
  {
    YearMonthKeys(s, y);
    YearFirstColumns(s, y);
    MonthKeysOrdered(s, |s|);
    KeysIncreasing(MonthKeys(s, |s|), FirstColumns(s, |s|), y);
  }

  /** For a year sequence, the keys of `month_cols` are the twelve
   *  months. */
  lemma YearKeysMonths(s: seq<Date>, y: int)
    requires IsYearOf(s, y)
    ensures forall x :: x in MonthKeys(s, |s|) <==> x in AllMonths
  {
    YearMonthKeys(s, y);
    FirstColumnsKeys(s, |s|);
    forall x
      ensures x in MonthKeys(s, |s|) <==> x in AllMonths
    {
      if 1 <= x <= 12 {
        assert AllMonths[x - 1] == x;
      }
    }
  }

  /** For a year sequence, the keys of `month_cols` come in calendar
   *  order. */
  lemma YearMonthOrder(s: seq<Date>, y: int)
    requires IsYearOf(s, y)
    ensures MonthKeys(s, |s|) == AllMonths
  {
    YearKeysIncreasing(s, y);
    YearKeysMonths(s, y);
    SortedUnique(MonthKeys(s, |s|), AllMonths);
  }

  /** When month `m` (1 to 12) starts at index `starts[m - 1]`, is recorded
   *  at that column and ends at index `starts[m] - 1`, at least one date
   *  further on, the merges of the months in calendar order are the month
   *  spans, each from the month's first day's column to its last day's. */
  lemma {:induction false} MergesOfMonths(s: seq<Date>, starts: seq<int>, monthCols: map<int, int>, order: seq<int>)
    requires |order| <= 12 && forall i :: 0 <= i < |order| ==> order[i] == i + 1
    requires |starts| == 13 && forall k :: 0 <= k < 13 ==> 0 <= starts[k]
    requires forall m :: 1 <= m <= 12 ==>
               && m in monthCols && monthCols[m] == FirstColumn + starts[m - 1]
               && starts[m - 1] < starts[m] - 1
               && LastOfMonth(s, m, starts[m - 1], |s|) == starts[m] - 1
    ensures forall i :: 0 <= i < |order| ==> order[i] in monthCols && FirstColumn <= monthCols[order[i]]
    ensures |MergesOf(s, order, monthCols)| == |order|
    ensures forall i :: 0 <= i < |order| ==>
              MergesOf(s, order, monthCols)[i] == Span(i + 1, FirstColumn + starts[i], FirstColumn + starts[i + 1] - 1)
    decreases |order|
  {
    if order != [] {
      var j := |order|;
      var before := order[..j - 1];
      MergesOfMonths(s, starts, monthCols, before);
      forall i | 0 <= i < j
        ensures order[i] in monthCols && FirstColumn <= monthCols[order[i]]
      {
        assert order[i] == i + 1 && 0 <= starts[i];
      }
      var merges := MergesOf(s, order, monthCols);
      var prior := MergesOf(s, before, monthCols);
      assert merges == prior + [Span(j, FirstColumn + starts[j - 1], FirstColumn + starts[j] - 1)];
    }
  }

  /** For the dates of a year, row 2 holds a month exactly at each 1st of a
   *  month, and it is that date's month. */
  lemma YearMonthRow(dates: seq<Date>, y: int)
    requires IsYearOf(dates, y)
    ensures |MonthRow(dates, |dates|)| == |dates|
    ensures forall i :: 0 <= i < |dates| ==> (MonthRow(dates, |dates|)[i] != None <==> dates[i].day == 1)
    ensures forall i :: 0 <= i < |dates| && MonthRow(dates, |dates|)[i] != None ==>
              MonthRow(dates, |dates|)[i] == Some(dates[i].month)
  {
    MonthRowAt(dates, |dates|);
    forall i | 0 <= i < |dates|
      ensures MonthRow(dates, |dates|)[i] != None <==> dates[i].day == 1
    {
      if i > 0 {
        YearNeighbours(dates, y, i);
      } else {
        assert Ordinal(dates[0]) == 0;
        MonthStartMonotone(y, 1, dates[0].month);
      }
    }
  }

  /** The first index of each month of year `y`, and the year's length
   *  last. */
  function MonthStarts(y: int): (starts: seq<int>)
    ensures |starts| == 13 && forall k :: 0 <= k < 13 ==> starts[k] == MonthStart(y, k + 1)
  {
    seq(13, k requires 0 <= k < 13 => MonthStart(y, k + 1))
  }

  /** In the dates of a year, month `m` is recorded at the column of index
   *  `MonthStarts(y)[m - 1]` and runs to the index before
   *  `MonthStarts(y)[m]`, over more than one date. */
  lemma YearMonthEnds(dates: seq<Date>, y: int)
    requires IsYearOf(dates, y)
    ensures forall k :: 0 <= k < 13 ==> 0 <= MonthStarts(y)[k]
    ensures forall m :: 1 <= m <= 12 ==>
              && m in FirstColumns(dates, |dates|)
              && FirstColumns(dates, |dates|)[m] == FirstColumn + MonthStarts(y)[m - 1]
              && MonthStarts(y)[m - 1] < MonthStarts(y)[m] - 1
              && LastOfMonth(dates, m, MonthStarts(y)[m - 1], |dates|) == MonthStarts(y)[m] - 1
  {
    var starts := MonthStarts(y);
    var cols := FirstColumns(dates, |dates|);
    YearMonthColumns(dates, y);
    forall m | 1 <= m <= 12
      ensures m in cols && cols[m] == FirstColumn + starts[m - 1]
      ensures starts[m - 1] < starts[m] - 1
      ensures LastOfMonth(dates, m, starts[m - 1], |dates|) == starts[m] - 1
    {
      YearMonthBounds(dates, y, m);
      MonthBlock(y, m);
      assert DaysInMonth(y, m) >= 28;
    }
    forall k | 0 <= k < 13
      ensures 0 <= starts[k]
    {
      MonthStartMonotone(y, 1, k + 1);
    }
  }

  /** For the dates of a year, the merges made over the months of
   *  `month_cols` are the twelve month spans. */
  lemma YearMonthMerges(dates: seq<Date>, y: int)
    requires IsYearOf(dates, y)
    ensures forall i :: 0 <= i < |MonthKeys(dates, |dates|)| ==>
              MonthKeys(dates, |dates|)[i] in FirstColumns(dates, |dates|) &&
              FirstColumn <= FirstColumns(dates, |dates|)[MonthKeys(dates, |dates|)[i]]
    ensures YearMonthSpans(MergesOf(dates, MonthKeys(dates, |dates|), FirstColumns(dates, |dates|)), y, FirstColumn)
  {
    var cols := FirstColumns(dates, |dates|);
    var starts := MonthStarts(y);
    YearMonthOrder(dates, y);
    YearMonthEnds(dates, y);
    MergesOfMonths(dates, starts, cols, AllMonths);
    var merges := MergesOf(dates, AllMonths, cols);
    forall j | 0 <= j < 12
      ensures merges[j] == Span(j + 1, FirstColumn + MonthStart(y, j + 1), FirstColumn + MonthStart(y, j + 2) - 1)
    {
      assert starts[j] == MonthStart(y, j + 1) && starts[j + 1] == MonthStart(y, j + 2);
    }
  }

  /** The header of `create_vacation_schedule_2026`: every date of 2026 at
   *  column `5 + i` with its cell, the month exactly at each 1st of a month,
   *  `month_cols` at the months' first columns, and row 2 merged over each
   *  month's own columns. */
  method CreateHeader()
    returns (dates: seq<Date>, cells: seq<HeaderCell>, monthRow: seq<Option<int>>,
             monthCols: map<int, int>, merges: seq<Span>, colIndex: int)
    ensures IsYearOf(dates, Year) && |dates| == 365
    ensures |cells| == |monthRow| == |dates|
    ensures forall i :: 0 <= i < |dates| ==> cells[i] == HeaderCellOf(dates[i], FirstColumn + i)
    ensures forall i :: 0 <= i < |dates| ==> (monthRow[i] != None <==> dates[i].day == 1)
    ensures forall i :: 0 <= i < |dates| && monthRow[i] != None ==> monthRow[i] == Some(dates[i].month)
    ensures forall m :: m in monthCols <==> 1 <= m <= 12
    ensures forall m :: 1 <= m <= 12 ==> monthCols[m] == FirstColumn + MonthStart(Year, m)
    ensures YearMonthSpans(merges, Year, FirstColumn)
    ensures colIndex == FirstColumn + DaysInYear(Year)
  {
    dates := AllDates();
    var order;
    cells, monthRow, order, monthCols, colIndex := LayOutHeader(dates);
    HeaderRowAt(dates, |dates|);
    YearMonthRow(dates, Year);
    YearMonthColumns(dates, Year);
    YearMonthMerges(dates, Year);
    merges := MonthMerges(dates, order, monthCols, colIndex);
  }

  /** The holiday table as intended: each holiday once, 7 January without
   *  its repeat. */
  const HolidayDates: seq<Date> :=
    [Date(2026, 1, 1), Date(2026, 1, 2), Date(2026, 1, 3), Date(2026, 1, 4),
     Date(2026, 1, 5), Date(2026, 1, 6), Date(2026, 1, 7), Date(2026, 1, 8),
     Date(2026, 2, 23), Date(2026, 3, 8), Date(2026, 5, 1),
     Date(2026, 5, 9), Date(2026, 6, 12), Date(2026, 11, 4)]

  /** `holidays` lists 7 January twice, so its length overstates the number
   *  of holiday dates by one; `HolidayDates` has the same dates, each once. */
  lemma HolidayTableDuplicate()
    ensures |Holidays| == 15 && Holidays[6] == Holidays[8] == Date(2026, 1, 7)
    ensures HolidayDates == Holidays[..8] + Holidays[9..] && |HolidayDates| == 14
    ensures forall d :: d in HolidayDates <==> d in Holidays
    ensures forall i, j :: 0 <= i < j < |HolidayDates| ==> HolidayDates[i] != HolidayDates[j]
  {
    assert Holidays == HolidayDates[..8] + [Date(2026, 1, 7)] + HolidayDates[8..];
    IncreasingDistinct(HolidayDates);
  }

  /** Dates listed in increasing order are listed once each. */
  lemma IncreasingDistinct(s: seq<Date>)
    requires forall i :: 0 <= i < |s| - 1 ==> Before(s[i], s[i + 1])
    ensures forall i, j :: 0 <= i < j < |s| ==> s[i] != s[j]
  {
    forall i, j | 0 <= i < j < |s|
      ensures Before(s[i], s[j])
    {
      BeforeChain(s, i, j);
    }
  }

  lemma {:induction false} BeforeChain(s: seq<Date>, i: int, j: int)
    requires forall k :: 0 <= k < |s| - 1 ==> Before(s[k], s[k + 1])
    requires 0 <= i < j < |s|
    ensures Before(s[i], s[j])
    decreases j - i
  {
    if j > i + 1 {
      BeforeChain(s, i + 1, j);
    }
  }

  /** The dates of `dates` that pass a legend count's test: a workday
   *  (Monday to Friday and not in `holidays`), a weekend day (Saturday or
   *  Sunday, holiday or not), or the dates the two counts leave out (a
   *  holiday on Monday to Friday). */
  datatype DayCount = WorkdayCount | WeekendCount | WeekdayHolidayCount

  predicate Counted(c: DayCount, d: Date)
    requires ValidDate(d)
  {
    match c
    case WorkdayCount => Weekday(d) < 5 && d !in Holidays
    case WeekendCount => Weekday(d) >= 5
    case WeekdayHolidayCount => Weekday(d) < 5 && d in Holidays
  }

  /** `[d for d in all_dates if …]` for one of the counts. */
  function CountedDates(c: DayCount, dates: seq<Date>): seq<Date>
    requires forall k :: 0 <= k < |dates| ==> ValidDate(dates[k])
  {
    if dates == [] then []
    else
      var last := dates[|dates| - 1];
      CountedDates(c, dates[..|dates| - 1]) + (if Counted(c, last) then [last] else [])
  }

  /** A comprehension keeps exactly the dates that pass its test, in their
   *  order. */
  lemma {:induction false} CountedDatesMeaning(c: DayCount, dates: seq<Date>)
    requires forall k :: 0 <= k < |dates| ==> ValidDate(dates[k])
    ensures |CountedDates(c, dates)| <= |dates|
    ensures forall d :: d in CountedDates(c, dates) <==> d in dates && ValidDate(d) && Counted(c, d)
  {
    if dates != [] {
      var init := dates[..|dates| - 1];
      CountedDatesMeaning(c, init);
      assert dates == init + [dates[|dates| - 1]];
    }
  }

  /** Every date passes exactly one of the three tests, so the workdays, the
   *  weekend days and the weekday holidays add up to all dates. */
  lemma {:induction false} CountsPartition(dates: seq<Date>)
    requires forall k :: 0 <= k < |dates| ==> ValidDate(dates[k])
    ensures |CountedDates(WorkdayCount, dates)| + |CountedDates(WeekendCount, dates)|
            + |CountedDates(WeekdayHolidayCount, dates)| == |dates|
  {
    if dates != [] {
      CountsPartition(dates[..|dates| - 1]);
    }
  }

  /** The "Статистика 2026" block of the legend sheet. */
  datatype Legend = Legend(total: int, workdays: int, weekends: int, holidays: int)

  /** The counts as written: the holiday count is the length of the table,
   *  repeat included. */
  function LegendAsWritten(dates: seq<Date>): Legend
    requires forall k :: 0 <= k < |dates| ==> ValidDate(dates[k])
  {
    Legend(|dates|, |CountedDates(WorkdayCount, dates)|, |CountedDates(WeekendCount, dates)|, |Holidays|)
  }

  /** The counts with the holiday count taken over the distinct holiday
   *  dates. */
  function LegendStats(dates: seq<Date>): Legend
    requires forall k :: 0 <= k < |dates| ==> ValidDate(dates[k])
  {
    Legend(|dates|, |CountedDates(WorkdayCount, dates)|, |CountedDates(WeekendCount, dates)|, |HolidayDates|)
  }

  /** On the dates of 2026 the legend reports 365 days, workdays and weekend
   *  days that leave out exactly the holidays on Monday to Friday, and 15
   *  holidays as written where there are 14 holiday dates. */
  lemma LegendOfYear(dates: seq<Date>)
    requires IsYearOf(dates, Year)
    ensures LegendAsWritten(dates).total == LegendStats(dates).total == 365
    ensures LegendStats(dates).workdays + LegendStats(dates).weekends
            + |CountedDates(WeekdayHolidayCount, dates)| == 365
    ensures LegendAsWritten(dates).holidays == 15 && LegendStats(dates).holidays == 14
    ensures LegendAsWritten(dates).holidays != |set d | d in Holidays|
  {
    CountsPartition(dates);
    HolidayTableDuplicate();
    DistinctCount(HolidayDates);
    assert (set d | d in Holidays) == (set d | d in HolidayDates);
  }

  /** A sequence without repeats has as many elements as its set. */
  lemma {:induction false} DistinctCount(s: seq<Date>)
    requires forall i, j :: 0 <= i < j < |s| ==> s[i] != s[j]
    ensures |set d | d in s| == |s|
  {
    if s != [] {
      var init := s[..|s| - 1];
      DistinctCount(init);
      assert (set d | d in s) == (set d | d in init) + {s[|s| - 1]};
      assert s[|s| - 1] !in init;
    }
  }
}
