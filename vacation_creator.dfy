/** The calendar of vacation_creator.py (`get_russian_calendar_2026`) and the
 *  day grid it lays out on the "ГРАФИК" sheet (`create_calendar_sheet`). The
 *  date tables and the `if/elif` that picks a day type are those of
 *  vacation_schedule_generator.py, modelled in `ScheduleGenerator`; what
 *  differs is the loop, which takes all 366 offsets with no check of the
 *  year, so that 1 January 2027 joins January. */
module VacationCreator {
  import opened Calendar
  import opened MonthGrid
  import opened ScheduleGenerator

  /** One value of the `calendar` dict. */
  datatype DayEntry = DayEntry(date: Date, day: int, month: int, weekday: int, kind: Kind)

  function DayEntryOf(d: Date): (e: DayEntry)
    requires ValidDate(d)
  {
    DayEntry(d, d.day, d.month, Weekday(d), ClassifyKind(d))
  }

  /** The offsets 0 to `DaysInYear(year)` from 1 January of `year`: the
   *  days of the year and then 1 January of the next. */
  ghost predicate IsCreatorKeys(keys: seq<Date>, year: int) {
    && |keys| == DaysInYear(year) + 1
    && IsYearOf(keys[..DaysInYear(year)], year)
    && keys[DaysInYear(year)] == Date(year + 1, 1, 1)
  }

  /** The dates at offsets `0 .. n - 1` from `start`. */
  function Offsets(start: Date, n: nat): (s: seq<Date>)
    requires ValidDate(start)
    ensures |s| == n && forall k :: 0 <= k < n ==> ValidDate(s[k]) && s[k] == AddDays(start, k)
  {
    if n == 0 then [] else Offsets(start, n - 1) + [AddDays(start, n - 1)]
  }

  /** The dict as the loop fills it from the dates of `keys`, in order: an
   *  assignment per date. */
  function EntriesOf(keys: seq<Date>): map<Date, DayEntry>
    requires forall k :: 0 <= k < |keys| ==> ValidDate(keys[k])
  {
    if keys == [] then map[]
    else EntriesOf(keys[..|keys| - 1])[keys[|keys| - 1] := DayEntryOf(keys[|keys| - 1])]
  }

  /** `get_russian_calendar_2026`: one entry per offset 0 to 365, keyed by
   *  date; `keys` is the dict's insertion order. */
  method GetRussianCalendar() returns (keys: seq<Date>, calendar: map<Date, DayEntry>)
    ensures IsCreatorKeys(keys, Year)
    ensures forall k :: 0 <= k < |keys| ==> ValidDate(keys[k])
    ensures calendar == EntriesOf(keys)
  {
    var start := Date(2026, 1, 1);
    keys, calendar := [], map[];
    for i := 0 to 366
      invariant keys == Offsets(start, i)
      invariant calendar == EntriesOf(keys)
    {
      keys, calendar := AddEntry(keys, calendar, start, i);
    }
    OffsetKeys(keys, Year);
  }

  /** One pass of the loop: the date at offset `i` and its entry. */
  method AddEntry(keys: seq<Date>, calendar: map<Date, DayEntry>, start: Date, i: nat)
    returns (keys': seq<Date>, calendar': map<Date, DayEntry>)
    requires ValidDate(start) && keys == Offsets(start, i) && calendar == EntriesOf(keys)
    ensures keys' == Offsets(start, i + 1) && calendar' == EntriesOf(keys')
  {
    var current := AddDays(start, i);
    keys' := keys + [current];
    assert keys'[..|keys'| - 1] == keys;
    calendar' := calendar[current := DayEntryOf(current)];
  }

  /** The dict has exactly the dates of `keys` as keys, each with its own
   *  entry. */
  lemma {:induction false} CalendarEntries(keys: seq<Date>)
    requires forall k :: 0 <= k < |keys| ==> ValidDate(keys[k])
    ensures forall d :: d in EntriesOf(keys) <==> d in keys
    ensures forall d :: d in EntriesOf(keys) ==> ValidDate(d) && EntriesOf(keys)[d] == DayEntryOf(d)
  {
    if keys != [] {
      var prefix := keys[..|keys| - 1];
      CalendarEntries(prefix);
      assert keys == prefix + [keys[|keys| - 1]];
    }
  }

  /** The dates at offsets 0 to `DaysInYear(year)` from 1 January of
   *  `year` are the keys of the loop without a year check. */
  lemma OffsetKeys(keys: seq<Date>, year: int)
    requires |keys| == DaysInYear(year) + 1
    requires forall k :: 0 <= k < |keys| ==> keys[k] == AddDays(Date(year, 1, 1), k)
    ensures IsCreatorKeys(keys, year)
  {
    var n := DaysInYear(year);
    forall k | 0 <= k <= n
      ensures k < n ==> keys[..n][k].year == year && Ordinal(keys[..n][k]) == k
      ensures k == n ==> keys[k] == Date(year + 1, 1, 1)
    {
      AddDaysFromNewYear(year, k);
    }
  }

  /** The extra entry, 1 January 2027, is a Friday in none of the tables,
   *  so it is classified as a plain workday. */
  lemma NextNewYearIsWorkday()
    ensures Weekday(Date(Year + 1, 1, 1)) == 4
    ensures DayEntryOf(Date(Year + 1, 1, 1)).kind == Workday
  {
    YearStartStep(Year);
    assert DayNumber(Date(Year + 1, 1, 1)) == 365;
  }

  /** Columns start at C. */
  const FirstColumn: int := 3

  /** `create_calendar_sheet`: the days grouped by month in the dict's order,
   *  the months sorted, each month's days at `current_col + i` and its
   *  title merged over them; `lastCol` is the returned `current_col - 1`. */
  method CreateCalendarSheet(keys: seq<Date>)
    returns (order: seq<int>, groups: map<int, seq<Date>>, spans: seq<Span>, columnOf: map<Date, int>, lastCol: int)
    requires forall k :: 0 <= k < |keys| ==> ValidDate(keys[k])
    ensures groups == Groups(keys) && order == SortedMonths(MonthsOf(keys))
    ensures forall i :: 0 <= i < |order| ==> order[i] in groups
    ensures spans == SpansOf(order, groups, FirstColumn)
    ensures columnOf == Columns(Flat(order, groups), FirstColumn)
    ensures lastCol == FirstColumn + |Flat(order, groups)| - 1
  {
    var currentCol;
    order, groups, spans, columnOf, currentCol := LayoutMonths(keys, FirstColumn);
    lastCol := currentCol - 1;
  }

  /** The keys split as the year and the extra 1 January. */
  lemma CreatorKeysSplit(keys: seq<Date>, year: int)
    requires IsCreatorKeys(keys, year)
    ensures keys == keys[..DaysInYear(year)] + [Date(year + 1, 1, 1)]
    ensures forall k :: 0 <= k < |keys| ==> ValidDate(keys[k]) && 1 <= keys[k].month <= 12
  {
    var n := DaysInYear(year);
    assert keys == keys[..n] + [keys[n]];
    forall k | 0 <= k < |keys|
      ensures ValidDate(keys[k]) && 1 <= keys[k].month <= 12
    {
      if k < n {
        assert keys[k] == keys[..n][k];
      }
    }
  }

  /** Grouping the keys gives the year's groups with 1 January of the next
   *  year appended to January's. */
  lemma CreatorGroups(keys: seq<Date>, year: int)
    requires IsCreatorKeys(keys, year)
    ensures forall i :: 0 <= i < 12 ==>
              AllMonths[i] in Groups(keys) && AllMonths[i] in Groups(keys[..DaysInYear(year)])
    ensures 1 in Groups(keys[..DaysInYear(year)])
    ensures Groups(keys) ==
            Groups(keys[..DaysInYear(year)])[1 := Groups(keys[..DaysInYear(year)])[1] + [Date(year + 1, 1, 1)]]
  {
    var days := keys[..DaysInYear(year)];
    CreatorKeysSplit(keys, year);
    YearGroupKeys(days, year);
    assert AllMonths[0] == 1;
    GroupsSnoc(days, Date(year + 1, 1, 1));
  }

  /** January's group is its 31 days followed by 1 January of the next
   *  year. */
  lemma CreatorJanuary(keys: seq<Date>, year: int)
    requires IsCreatorKeys(keys, year)
    ensures 1 in Groups(keys)
    ensures Groups(keys)[1] == keys[..31] + [Date(year + 1, 1, 1)] && |Groups(keys)[1]| == 32
  {
    var days := keys[..DaysInYear(year)];
    CreatorGroups(keys, year);
    YearGroup(days, year, 1);
    assert MonthStart(year, 1) == 0 && MonthStart(year, 2) == 31;
    assert days[0..31] == keys[..31];
  }

  /** The months of the keys, sorted, are January to December. */
  lemma CreatorMonths(keys: seq<Date>, year: int)
    requires IsCreatorKeys(keys, year)
    ensures SortedMonths(MonthsOf(keys)) == AllMonths
  {
    var days := keys[..DaysInYear(year)];
    CreatorKeysSplit(keys, year);
    CreatorGroups(keys, year);
    MonthsInRange(keys);
    YearMonthsInRange(days, year);
    MonthsInRange(days);
    assert MonthsOf(keys) == MonthsOf(days);
    YearOrder(days, year);
  }

  /** The year's days in layout order, with 1 January of the next year
   *  slotted in after 31 January: what the layout of the first `j` months
   *  visits. */
  lemma {:induction false} CreatorFlat(keys: seq<Date>, year: int, j: int)
    requires IsCreatorKeys(keys, year) && 1 <= j <= 12
    ensures forall i :: 0 <= i < 12 ==> AllMonths[i] in Groups(keys)
    ensures 31 <= MonthStart(year, j + 1) <= DaysInYear(year)
    ensures Flat(AllMonths[..j], Groups(keys)) ==
            keys[..31] + [Date(year + 1, 1, 1)] + keys[31..MonthStart(year, j + 1)]
  {
    CreatorGroups(keys, year);
    MonthStartMonotone(year, 2, j + 1);
    MonthStartMonotone(year, j + 1, 13);
    MonthStartOfYearEnd(year);
    assert MonthStart(year, 2) == 31;
    if j == 1 {
      CreatorJanuary(keys, year);
      FlatSnoc(AllMonths, 0, Groups(keys));
      assert AllMonths[..0] == [] && AllMonths[0] == 1;
      assert keys[31..31] == [];
    } else {
      CreatorFlat(keys, year, j - 1);
      CreatorMonthGroup(keys, year, j);
      assert AllMonths[j - 1] == j;
      FlatStep(AllMonths, Groups(keys), j, keys[..31] + [Date(year + 1, 1, 1)],
               keys, 31, MonthStart(year, j), MonthStart(year, j + 1));
    }
  }

  /** Each month from February on groups its days of the year. */
  lemma CreatorMonthGroup(keys: seq<Date>, year: int, j: int)
    requires IsCreatorKeys(keys, year) && 2 <= j <= 12
    ensures 0 <= MonthStart(year, j) <= MonthStart(year, j + 1) <= DaysInYear(year)
    ensures j in Groups(keys) && Groups(keys)[j] == keys[MonthStart(year, j)..MonthStart(year, j + 1)]
  {
    var n := DaysInYear(year);
    var days := keys[..n];
    CreatorGroups(keys, year);
    YearGroup(days, year, j);
    PrefixSlice(keys, n, MonthStart(year, j), MonthStart(year, j + 1));
  }

  /** Laying out one more month whose group is the next slice of `s`
   *  extends the layout order by that slice. */
  lemma FlatStep(order: seq<int>, groups: map<int, seq<Date>>, j: int, head: seq<Date>,
                 s: seq<Date>, lo: int, a: int, b: int)
    requires forall i :: 0 <= i < |order| ==> order[i] in groups
    requires 1 <= j <= |order| && 0 <= lo <= a <= b <= |s|
    requires Flat(order[..j - 1], groups) == head + s[lo..a]
    requires groups[order[j - 1]] == s[a..b]
    ensures Flat(order[..j], groups) == head + s[lo..b]
  {
    FlatSnoc(order, j - 1, groups);
    assert s[lo..b] == s[lo..a] + s[a..b];
  }

  lemma PrefixSlice(s: seq<Date>, n: int, a: int, b: int)
    requires 0 <= a <= b <= n <= |s|
    ensures s[..n][a..b] == s[a..b]
  {
  }

  /** The whole layout order: January's 31 days, 1 January of the next
   *  year, then February to December. */
  lemma CreatorFlatAll(keys: seq<Date>, year: int)
    requires IsCreatorKeys(keys, year)
    ensures forall i :: 0 <= i < 12 ==> AllMonths[i] in Groups(keys)
    ensures Flat(AllMonths, Groups(keys)) ==
            keys[..31] + [Date(year + 1, 1, 1)] + keys[31..DaysInYear(year)]
  {
    CreatorFlat(keys, year, 12);
    assert AllMonths[..12] == AllMonths;
    MonthStartOfYearEnd(year);
  }

  /** Lengths of the layout order of the first `j` months: one more than
   *  the year's days before month `j + 1`. */
  lemma CreatorFlatLengths(keys: seq<Date>, year: int)
    requires IsCreatorKeys(keys, year)
    ensures forall i :: 0 <= i < 12 ==> AllMonths[i] in Groups(keys)
    ensures |Flat(AllMonths[..0], Groups(keys))| == 0
    ensures forall j :: 1 <= j <= 12 ==> |Flat(AllMonths[..j], Groups(keys))| == MonthStart(year, j + 1) + 1
  {
    CreatorGroups(keys, year);
    assert AllMonths[..0] == [];
    forall j | 1 <= j <= 12
      ensures |Flat(AllMonths[..j], Groups(keys))| == MonthStart(year, j + 1) + 1
    {
      CreatorFlat(keys, year, j);
    }
  }

  /** As written, January's title is merged over 32 columns from
   *  `FirstColumn`, and every later month is one column right of its place
   *  in the year: month `j + 1` from `FirstColumn + 1 + MonthStart` to
   *  `FirstColumn + MonthStart` of the next month. */
  lemma CreatorSpans(keys: seq<Date>, year: int)
    requires IsCreatorKeys(keys, year)
    ensures forall i :: 0 <= i < 12 ==> AllMonths[i] in Groups(keys)
    ensures |SpansOf(AllMonths, Groups(keys), FirstColumn)| == 12
    ensures SpansOf(AllMonths, Groups(keys), FirstColumn)[0] == Span(1, FirstColumn, FirstColumn + 31)
    ensures forall j :: 1 <= j < 12 ==>
              SpansOf(AllMonths, Groups(keys), FirstColumn)[j] ==
              Span(j + 1, FirstColumn + 1 + MonthStart(year, j + 1), FirstColumn + MonthStart(year, j + 2))
  {
    var g := Groups(keys);
    CreatorFlatLengths(keys, year);
    SpansOfAt(AllMonths, g, FirstColumn);
    assert MonthStart(year, 2) == 31 && AllMonths[0] == 1;
    assert |Flat(AllMonths[..1], g)| == 32;
    forall j | 1 <= j < 12
      ensures SpansOf(AllMonths, g, FirstColumn)[j] ==
              Span(j + 1, FirstColumn + 1 + MonthStart(year, j + 1), FirstColumn + MonthStart(year, j + 2))
    {
      assert AllMonths[j] == j + 1;
      assert |Flat(AllMonths[..j], g)| == MonthStart(year, j + 1) + 1;
      assert |Flat(AllMonths[..j + 1], g)| == MonthStart(year, j + 2) + 1;
    }
  }

  /** As written, 1 January of the next year is at `FirstColumn + 31`, after
   *  31 January; the January days are at `FirstColumn + ordinal` and every
   *  later day of the year at `FirstColumn + 1 + ordinal`, one column right
   *  of its place in the year. */
  lemma CreatorColumns(keys: seq<Date>, year: int)
    requires IsCreatorKeys(keys, year)
    ensures forall i :: 0 <= i < 12 ==> AllMonths[i] in Groups(keys)
    ensures |Flat(AllMonths, Groups(keys))| == DaysInYear(year) + 1
    ensures Date(year + 1, 1, 1) in Columns(Flat(AllMonths, Groups(keys)), FirstColumn)
    ensures Columns(Flat(AllMonths, Groups(keys)), FirstColumn)[Date(year + 1, 1, 1)] == FirstColumn + 31
    ensures forall d :: ValidDate(d) && d.year == year ==>
              d in Columns(Flat(AllMonths, Groups(keys)), FirstColumn) &&
              Columns(Flat(AllMonths, Groups(keys)), FirstColumn)[d] ==
                FirstColumn + Ordinal(d) + (if d.month == 1 then 0 else 1)
  {
    var n := DaysInYear(year);
    var days := keys[..n];
    var next := Date(year + 1, 1, 1);
    CreatorFlatAll(keys, year);
    var flat := Flat(AllMonths, Groups(keys));
    assert |flat| == n + 1 && flat[31] == next;
    assert forall p :: 0 <= p < 31 ==> flat[p] == days[p];
    assert forall p :: 32 <= p < n + 1 ==> flat[p] == days[p - 1];
    YearDistinct(days, year);
    assert Distinct(flat) by {
      forall i, j | 0 <= i < j < |flat|
        ensures flat[i] != flat[j]
      {
        if i != 31 && j != 31 {
          var a := if i < 31 then i else i - 1;
          var b := if j < 31 then j else j - 1;
          assert flat[i] == days[a] && flat[j] == days[b];
        } else if i == 31 {
          assert flat[j] == days[j - 1] && days[j - 1].year == year;
        } else {
          assert flat[i] == days[i] && days[i].year == year;
        }
      }
    }
    ColumnsAt(flat, FirstColumn);
    forall d | ValidDate(d) && d.year == year
      ensures d in Columns(flat, FirstColumn) &&
              Columns(flat, FirstColumn)[d] == FirstColumn + Ordinal(d) + (if d.month == 1 then 0 else 1)
    {
      YearTotal(days, year, d);
      MonthOfOrdinal(d, 1);
      assert MonthStart(year, 1) == 0 && MonthStart(year, 2) == 31;
      if d.month == 1 {
        assert flat[Ordinal(d)] == d;
      } else {
        assert flat[Ordinal(d) + 1] == d;
      }
    }
  }

  /** January's title over 32 columns from `firstCol`, and each later
   *  month one column right of its place in the year `y`. */
  ghost predicate ShiftedMonthSpans(spans: seq<Span>, y: int, firstCol: int) {
    && |spans| == 12
    && spans[0] == Span(1, firstCol, firstCol + 31)
    && forall j :: 1 <= j < 12 ==>
         spans[j] == Span(j + 1, firstCol + 1 + MonthStart(y, j + 1), firstCol + MonthStart(y, j + 2))
  }

  /** What the sheet layout returns on the keys as written: the months in
   *  calendar order, the spans and columns above, and one more column than
   *  the year has days. */
  lemma CreatorLayout(keys: seq<Date>, year: int, order: seq<int>, groups: map<int, seq<Date>>,
                      spans: seq<Span>, columnOf: map<Date, int>, lastCol: int)
    requires IsCreatorKeys(keys, year)
    requires groups == Groups(keys) && order == SortedMonths(MonthsOf(keys))
    requires forall i :: 0 <= i < |order| ==> order[i] in groups
    requires spans == SpansOf(order, groups, FirstColumn)
    requires columnOf == Columns(Flat(order, groups), FirstColumn)
    requires lastCol == FirstColumn + |Flat(order, groups)| - 1
    ensures ShiftedMonthSpans(spans, year, FirstColumn)
    ensures Date(year + 1, 1, 1) in columnOf && columnOf[Date(year + 1, 1, 1)] == FirstColumn + 31
    ensures forall d :: ValidDate(d) && d.year == year ==>
              d in columnOf && columnOf[d] == FirstColumn + Ordinal(d) + (if d.month == 1 then 0 else 1)
    ensures lastCol == FirstColumn + DaysInYear(year)
  {
    CreatorMonths(keys, year);
    CreatorSpans(keys, year);
    CreatorColumns(keys, year);
  }

  /** The grid of the "ГРАФИК" sheet as written: twelve month titles,
   *  January's 32 columns wide, later months shifted right by one, the
   *  extra day at column 34, and 368 returned as the last column. Every
   *  laid-out key keeps its own dict entry, which gives the column its mark
   *  and fill. */
  method CreateGridAsWritten()
    returns (keys: seq<Date>, calendar: map<Date, DayEntry>, spans: seq<Span>, columnOf: map<Date, int>, lastCol: int)
    ensures IsCreatorKeys(keys, Year)
    ensures ShiftedMonthSpans(spans, Year, FirstColumn) && spans[0] == Span(1, 3, 34)
    ensures Date(Year + 1, 1, 1) in columnOf && columnOf[Date(Year + 1, 1, 1)] == 34
    ensures forall d :: ValidDate(d) && d.year == Year ==>
              d in columnOf && columnOf[d] == FirstColumn + Ordinal(d) + (if d.month == 1 then 0 else 1)
    ensures lastCol == 368
    ensures calendar == EntriesOf(keys)
    ensures forall d :: d in keys ==> d in calendar && calendar[d] == DayEntryOf(d)
  {
    keys, calendar := GetRussianCalendar();
    CalendarEntries(keys);
    var order, groups;
    order, groups, spans, columnOf, lastCol := CreateCalendarSheet(keys);
    CreatorLayout(keys, Year, order, groups, spans, columnOf, lastCol);
  }

  /** Laid out from column C, the dates of a year give the twelve month
   *  titles at the month starts, every day at `3 + ordinal`, and the column
   *  of the year's last day as the last column. */
  lemma YearSheet(keys: seq<Date>, y: int)
    requires IsYearOf(keys, y)
    ensures forall k :: 0 <= k < |keys| ==> ValidDate(keys[k])
    ensures SortedMonths(MonthsOf(keys)) == AllMonths
    ensures forall i :: 0 <= i < 12 ==> AllMonths[i] in Groups(keys)
    ensures YearMonthSpans(SpansOf(AllMonths, Groups(keys), FirstColumn), y, FirstColumn)
    ensures forall d :: d in Columns(Flat(AllMonths, Groups(keys)), FirstColumn) <==> ValidDate(d) && d.year == y
    ensures forall d :: ValidDate(d) && d.year == y ==>
              Columns(Flat(AllMonths, Groups(keys)), FirstColumn)[d] == FirstColumn + Ordinal(d)
    ensures FirstColumn + |Flat(AllMonths, Groups(keys))| - 1 == FirstColumn + DaysInYear(y) - 1
  {
    YearOrder(keys, y);
    YearLayout(keys, y, FirstColumn);
  }

  /** The grid with the calendar stopping at the end of 2026, as
   *  vacation_schedule_generator.py does: twelve month titles at the month
   *  starts, every day at `3 + ordinal`, 367 as the last column. */
  method CreateGridIntended()
    returns (keys: seq<Date>, spans: seq<Span>, columnOf: map<Date, int>, lastCol: int)
    ensures IsYearOf(keys, Year)
    ensures YearMonthSpans(spans, Year, FirstColumn)
    ensures forall d :: d in columnOf <==> ValidDate(d) && d.year == Year
    ensures forall d :: ValidDate(d) && d.year == Year ==> columnOf[d] == FirstColumn + Ordinal(d)
    ensures lastCol == 367
  {
    var calendar;
    keys, calendar := ScheduleGenerator.GetRussianCalendar();
    YearSheet(keys, Year);
    var order, groups;
    order, groups, spans, columnOf, lastCol := CreateCalendarSheet(keys);
  }

  /** The row-3 mark and the row-3 fill by day type; row 2 gets no fill. */
  function CellStyle(k: Kind): (string, string) {
    if k == Holiday then (" ✶", "FF9999")
    else if k == PreHoliday then (" ◐", "FFFF99")
    else if k == WorkSaturday then (" ⚒", "CCFFCC")
    else if k == Weekend then ("", "E6E6E6")
    else ("", "FFFFFF")
  }

  /** The mark and fill are those of the schedule generator's grid, so the
   *  fill tells the five day types apart and only holidays, pre-holidays
   *  and working Saturdays get a mark. */
  lemma CellStyleAgrees(k: Kind, other: Kind)
    ensures CellStyle(k) == (KindSymbol(k), KindFill(k))
    ensures CellStyle(k).1 == CellStyle(other).1 ==> k == other
    ensures CellStyle(k).0 == "" <==> k == Weekend || k == Workday
  {
    KindMarks(k, other);
  }

  /** Employee `k` (from 0) goes to row `2 + k` of "ДАННЫЕ" and, as
   *  written, to row `2 + k` of "ГРАФИК". */
  function DataRow(k: nat): int {
    2 + k
  }

  function GraphRowAsWritten(k: nat): int {
    DataRow(k)
  }

  /** Rows 1 to 3 of "ГРАФИК" hold the month titles, the day numbers and the
   *  weekday texts. */
  predicate IsCalendarRow(row: int) {
    1 <= row <= 3
  }

  /** An employee row gets the stripe when it is even. */
  predicate Striped(row: int) {
    row % 2 == 0
  }

  /** As written, the first two employees share rows 2 and 3 of "ГРАФИК"
   *  with the day numbers and the weekday texts. */
  lemma GraphRowsMeetCalendar(k: nat)
    ensures IsCalendarRow(GraphRowAsWritten(k)) <==> k <= 1
    ensures GraphRowAsWritten(0) == 2 && GraphRowAsWritten(1) == 3
  {
  }

  /** Employee rows of "ГРАФИК" below the three calendar rows, as the
   *  schedule generator places them. */
  function GraphRow(k: nat): int {
    4 + k
  }

  /** Placed from row 4, no employee row is a calendar row, each employee is
   *  two rows below its "ДАННЫЕ" row, rows are one per employee, and the
   *  stripe still falls on every other employee, the first included. */
  lemma GraphRowsClearCalendar(k: nat, l: nat)
    ensures !IsCalendarRow(GraphRow(k))
    ensures GraphRow(k) == DataRow(k) + 2 && GraphRow(k) == ScheduleRow(k)
    ensures GraphRow(k) == GraphRow(l) ==> k == l
    ensures Striped(GraphRow(k)) <==> k % 2 == 0
    ensures Striped(GraphRowAsWritten(k)) <==> k % 2 == 0
  {
  }
}
