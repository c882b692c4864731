/** The production calendar of graf.py (`WorkDay`, `ProductionCalendar`) and
 *  the column layout of its "ГРАФИК" and "ДАТЫ" sheets. */
module Graf {
  import opened Calendar
  import opened Wrappers

  /** `WorkDay.day_type`: 'рабочий', 'выходной', 'праздник', 'рабочая суббота'. */
  datatype DayType = Working | DayOff | Holiday | WorkingSaturday

  datatype WorkDay = WorkDay(date: Date, dayType: DayType, isShort: bool)

  /** Official holidays; the tables are written for the calendar's `year`. */
  function Holidays(y: int): seq<Date> {
    [Date(y, 1, 1), Date(y, 1, 2), Date(y, 1, 3), Date(y, 1, 4),
     Date(y, 1, 5), Date(y, 1, 6), Date(y, 1, 7), Date(y, 1, 8),
     Date(y, 2, 23), Date(y, 3, 8), Date(y, 5, 1), Date(y, 5, 9),
     Date(y, 6, 12), Date(y, 11, 4)]
  }

  /** Days off moved from weekends. */
  function ExtraHolidays(y: int): seq<Date> {
    [Date(y, 1, 9), Date(y, 3, 9), Date(y, 5, 11)]
  }

  function AllHolidays(y: int): seq<Date> {
    Holidays(y) + ExtraHolidays(y)
  }

  /** Working days shortened by one hour. */
  function PreHolidays(y: int): seq<Date> {
    [Date(y, 2, 20), Date(y, 3, 7), Date(y, 4, 30), Date(y, 5, 8),
     Date(y, 6, 11), Date(y, 11, 3), Date(y, 12, 31)]
  }

  /** Days made working by a transfer. The table lists 27 February, which is
   *  a Friday in 2026. */
  function WorkingSaturdays(y: int): seq<Date> {
    [Date(y, 2, 27), Date(y, 5, 2)]
  }

  /** The body of the loop in `_generate_calendar` for one date of year `y`:
   *  holiday, else working Saturday, else weekend, else working day; the
   *  short-day flag only on a plain working day. */
  function ClassifyDay(y: int, d: Date): (w: WorkDay)
    requires ValidDate(d)
    ensures w.date == d
    ensures w.dayType == Holiday <==> d in AllHolidays(y)
    ensures w.dayType == WorkingSaturday <==> d !in AllHolidays(y) && d in WorkingSaturdays(y)
    ensures w.dayType == DayOff <==> d !in AllHolidays(y) && d !in WorkingSaturdays(y) && Weekday(d) >= 5
    ensures w.isShort <==> d in PreHolidays(y) && w.dayType == Working
  {
    var dayType :=
      if d in AllHolidays(y) then Holiday
      else if d in WorkingSaturdays(y) then WorkingSaturday
      else if Weekday(d) >= 5 then DayOff
      else Working;
    WorkDay(d, dayType, d in PreHolidays(y) && dayType == Working)
  }

  /** `ws` is what `_generate_calendar` appends for year `y`: one classified
   *  entry per date of the year, in date order. */
  ghost predicate IsCalendarOf(ws: seq<WorkDay>, y: int) {
    && |ws| == DaysInYear(y)
    && forall k :: 0 <= k < |ws| ==>
         && ValidDate(ws[k].date) && ws[k].date.year == y && Ordinal(ws[k].date) == k
         && ws[k] == ClassifyDay(y, ws[k].date)
  }

  function DatesOf(ws: seq<WorkDay>): (s: seq<Date>)
    ensures |s| == |ws| && forall k :: 0 <= k < |ws| ==> s[k] == ws[k].date
  {
    seq(|ws|, k requires 0 <= k < |ws| => ws[k].date)
  }

  /** The calendar's entries are in strictly increasing date order, and each
   *  date of the year has its entry at the index given by its ordinal. */
  lemma CalendarIndex(ws: seq<WorkDay>, y: int)
    requires IsCalendarOf(ws, y)
    ensures forall i, j :: 0 <= i < j < |ws| ==> Before(ws[i].date, ws[j].date)
    ensures forall d :: ValidDate(d) && d.year == y ==> Ordinal(d) < |ws| && ws[Ordinal(d)].date == d
  {
    var s := DatesOf(ws);
    assert IsYearOf(s, y);
    YearSorted(s, y);
    forall d | ValidDate(d) && d.year == y
      ensures Ordinal(d) < |ws| && ws[Ordinal(d)].date == d
    {
      YearTotal(s, y, d);
    }
  }

  /** `ProductionCalendar`: the days of one year and their types. */
  class ProductionCalendar {
    const year: int
    var days: seq<WorkDay>

    ghost predicate Valid()
      reads this
    {
      IsCalendarOf(days, year)
    }

    constructor (year: int)
      ensures this.year == year && Valid()
    {
      this.year := year;
      days := [];
      new;
      GenerateCalendar();
    }

    /** `_generate_calendar`: walks the year from 1 January with
     *  `date += timedelta(days=1)` while the year is unchanged, appending one
     *  `WorkDay` per date. */
    method GenerateCalendar()
      modifies this
      ensures |days| == |old(days)| + DaysInYear(year)
      ensures days[..|old(days)|] == old(days)
      ensures IsCalendarOf(days[|old(days)|..], year)
    {
      ghost var start := |days|;
      var date := Date(year, 1, 1);
      while date.year == year
        invariant start <= |days| <= start + DaysInYear(year)
        invariant days[..start] == old(days)
        invariant ValidDate(date)
        invariant date.year == year ==> Ordinal(date) == |days| - start
        invariant date.year != year ==> |days| - start == DaysInYear(year)
        invariant forall k :: start <= k < |days| ==>
                    && ValidDate(days[k].date) && days[k].date.year == year
                    && Ordinal(days[k].date) == k - start
                    && days[k] == ClassifyDay(year, days[k].date)
        decreases DaysInYear(year) - (|days| - start)
      {
        days := days + [ClassifyDay(year, date)];
        NextOrdinal(date);
        date := Next(date);
      }
      assert forall k :: 0 <= k < |days| - start ==> days[start..][k] == days[start + k];
    }

    /** `get_day_info`: the first entry whose date equals `date`, or `None`. On
     *  a generated calendar it finds exactly the dates of the year, each with
     *  its classification. */
    method GetDayInfo(date: Date) returns (r: Option<WorkDay>)
      ensures r.Some? ==> r.value.date == date && exists k :: 0 <= k < |days| && days[k] == r.value
      ensures r.Some? ==> exists k :: 0 <= k < |days| && days[k] == r.value &&
                            forall j :: 0 <= j < k ==> days[j].date != date
      ensures r.None? <==> forall k :: 0 <= k < |days| ==> days[k].date != date
      ensures Valid() ==> (r.Some? <==> ValidDate(date) && date.year == year)
      ensures Valid() && r.Some? ==> r.value == ClassifyDay(year, date)
    {
      var i := 0;
      while i < |days|
        invariant 0 <= i <= |days|
        invariant forall j :: 0 <= j < i ==> days[j].date != date
      {
        if days[i].date == date {
          return Some(days[i]);
        }
        i := i + 1;
      }
      if Valid() && ValidDate(date) && date.year == year {
        CalendarIndex(days, year);
      }
      return None;
    }
  }

  /** 7 March 2026 is a pre-holiday Saturday: graf.py makes it a day off,
   *  not a short day. */
  lemma PreHolidaySaturdayIsDayOff()
    ensures Weekday(Date(2026, 3, 7)) == 5
    ensures ClassifyDay(2026, Date(2026, 3, 7)) == WorkDay(Date(2026, 3, 7), DayOff, false)
  {
    assert MonthStart(2026, 3) == 59;
  }

  /** Working-Saturday status comes from the table alone: 27 February 2026 is
   *  a Friday and still a 'рабочая суббота'. */
  lemma WorkingSaturdayOnFriday()
    ensures Weekday(Date(2026, 2, 27)) == 4
    ensures ClassifyDay(2026, Date(2026, 2, 27)).dayType == WorkingSaturday
  {
    assert MonthStart(2026, 2) == 31;
  }

  /** Every day off falls on a Saturday or Sunday, and every short day is a
   *  Monday-to-Friday pre-holiday. */
  lemma DayOffOnWeekendOnly(y: int, d: Date)
    requires ValidDate(d)
    ensures ClassifyDay(y, d).dayType == DayOff ==> Weekday(d) >= 5
    ensures ClassifyDay(y, d).isShort ==> Weekday(d) < 5 && d in PreHolidays(y) && d !in AllHolidays(y)
  {
  }

  /** Background colours `colors[day_type]` of rows 2 and 3. */
  function TypeColor(t: DayType): string {
    match t
    case Working => "FFFFFF"
    case DayOff => "F2F2F2"
    case Holiday => "FF9999"
    case WorkingSaturday => "99FF99"
  }

  /** The fill chosen for a day column; without day information it stays white. */
  function DayFill(info: Option<WorkDay>): (c: string)
    ensures info.Some? ==> c == TypeColor(info.value.dayType)
    ensures info.None? ==> c == TypeColor(Working)
  {
    if info.None? then TypeColor(Working)
    else if info.value.dayType == Holiday then TypeColor(Holiday)
    else if info.value.dayType == DayOff then TypeColor(DayOff)
    else if info.value.dayType == WorkingSaturday then TypeColor(WorkingSaturday)
    else TypeColor(Working)
  }

  /** The four day types get four different colours, so the fill tells the
   *  type. */
  lemma TypeColorInjective(a: DayType, b: DayType)
    ensures TypeColor(a) == TypeColor(b) ==> a == b
  {
  }

  /** The mark appended to the weekday name in row 3. */
  function DaySymbol(info: Option<WorkDay>, weekday: int): string {
    if info.None? then ""
    else if info.value.dayType == Holiday then " ✶"
    else if info.value.isShort then " ●"
    else if info.value.dayType == WorkingSaturday then " ◉"
    else if info.value.dayType == DayOff && weekday < 5 then " ✶"
    else ""
  }

  /** On a classified day the symbol marks exactly the holidays, the short
   *  days and the working Saturdays; the branch for a day off on a weekday is
   *  never taken. */
  lemma {:induction false} SymbolOfClassifiedDay(y: int, d: Date)
    requires ValidDate(d)
    ensures var w := ClassifyDay(y, d);
      && (DaySymbol(Some(w), Weekday(d)) == " ✶" <==> d in AllHolidays(y))
      && (DaySymbol(Some(w), Weekday(d)) == " ●" <==> w.isShort)
      && (DaySymbol(Some(w), Weekday(d)) == " ◉" <==> w.dayType == WorkingSaturday)
      && (DaySymbol(Some(w), Weekday(d)) == "" <==> w.dayType == DayOff || (w.dayType == Working && !w.isShort))
  {
    DayOffOnWeekendOnly(y, d);
  }

  /** Column C holds 1 January on the schedule sheet. */
  const ScheduleFirstColumn: int := 3

  /** Column A holds 1 January on the hidden date sheet. */
  const DatesSheetFirstColumn: int := 1

  /** Day `day` of a month sits at the month's first column plus `day - 1`,
   *  which is the first column plus the ordinal. */
  function ScheduleColumn(d: Date): int
    requires ValidDate(d)
  {
    ScheduleFirstColumn + Ordinal(d)
  }

  /** One day column of rows 2 and 3 of the schedule. */
  datatype DayHeader = DayHeader(column: int, date: Date, day: int, weekdayText: string, fill: string)

  /** A month title in row 1, merged over `first..last`. */
  datatype MonthHeader = MonthHeader(first: int, last: int, colorIndex: int)

  const MonthColors: seq<string> := ["F8F8F8", "FFFFFF"]

  /** `c` is the header of the k-th day of year `y`: the date with ordinal k,
   *  in its schedule column, with its day number, weekday name and symbol,
   *  and the fill of its day type. */
  ghost predicate IsDayHeader(c: DayHeader, y: int, k: int) {
    && ValidDate(c.date) && c.date.year == y && Ordinal(c.date) == k
    && c.column == ScheduleColumn(c.date)
    && c.day == c.date.day
    && var w := ClassifyDay(y, c.date);
       && c.weekdayText == DayNames[Weekday(c.date)] + DaySymbol(Some(w), Weekday(c.date))
       && c.fill == TypeColor(w.dayType)
  }

  /** The inner loop of the header: day `day` of `month` goes to column
   *  `currentCol + day - 1`, with its weekday name, symbol and fill. */
  method WriteMonthDays(cal: ProductionCalendar, month: int, currentCol: int, cells: seq<DayHeader>)
    returns (cells': seq<DayHeader>)
    requires cal.Valid() && 1 <= month <= 12
    requires currentCol == ScheduleFirstColumn + MonthStart(cal.year, month)
    requires |cells| == MonthStart(cal.year, month)
    requires forall k :: 0 <= k < |cells| ==> IsDayHeader(cells[k], cal.year, k)
    ensures |cells'| == MonthStart(cal.year, month + 1)
    ensures forall k :: 0 <= k < |cells'| ==> IsDayHeader(cells'[k], cal.year, k)
  {
    var y := cal.year;
    cells' := cells;
    for day := 1 to DaysInMonth(y, month) + 1
      invariant |cells'| == MonthStart(y, month) + day - 1
      invariant forall k :: 0 <= k < |cells'| ==> IsDayHeader(cells'[k], y, k)
    {
      var col := currentCol + day - 1;
      var date := Date(y, month, day);
      var info := cal.GetDayInfo(date);
      var weekday := Weekday(date);
      var cell := DayHeader(col, date, day, DayNames[weekday] + DaySymbol(info, weekday), DayFill(info));
      assert IsDayHeader(cell, y, |cells'|);
      cells' := cells' + [cell];
    }
  }

  /** The title of month `i + 1` of year `y`: merged from the column of the
   *  month's first day over one column per day, coloured by alternating
   *  `month_colors`. */
  function MonthHeaderOf(y: int, i: int): MonthHeader
    requires 0 <= i < 12
  {
    var first := ScheduleFirstColumn + MonthStart(y, i + 1);
    MonthHeader(first, first + DaysInMonth(y, i + 1) - 1, i % 2)
  }

  /** The bookkeeping of one month of the header loop: the month's first
   *  column and colour index are recorded, and its title is merged over one
   *  column per day from `current_col`. */
  method AddMonthTitle(y: int, monthIdx: int, currentCol: int,
                       monthStartCols: seq<int>, monthColorIndices: seq<int>, months: seq<MonthHeader>)
    returns (monthStartCols': seq<int>, monthColorIndices': seq<int>, months': seq<MonthHeader>)
    requires 0 <= monthIdx < 12
    requires |monthStartCols| == |monthColorIndices| == |months| == monthIdx
    requires currentCol == ScheduleFirstColumn + MonthStart(y, monthIdx + 1)
    ensures monthStartCols' == monthStartCols + [ScheduleFirstColumn + MonthStart(y, monthIdx + 1)]
    ensures monthColorIndices' == monthColorIndices + [monthIdx % 2]
    ensures months' == months + [MonthHeaderOf(y, monthIdx)]
  {
    var daysInMonth := DaysInMonth(y, monthIdx + 1);
    monthStartCols' := monthStartCols + [currentCol];
    monthColorIndices' := monthColorIndices + [monthIdx % 2];
    months' := months + [MonthHeader(currentCol, currentCol + daysInMonth - 1, monthIdx % 2)];
  }

  /** The first columns, colour indices and titles of months 1 to `n`, as
   *  the header loop records them. */
  function MonthStartColumns(y: int, n: int): seq<int>
    requires 0 <= n <= 12
  {
    if n == 0 then [] else MonthStartColumns(y, n - 1) + [ScheduleFirstColumn + MonthStart(y, n)]
  }

  function MonthColorIndices(n: int): seq<int>
    requires 0 <= n <= 12
  {
    if n == 0 then [] else MonthColorIndices(n - 1) + [(n - 1) % 2]
  }

  function MonthTitles(y: int, n: int): seq<MonthHeader>
    requires 0 <= n <= 12
  {
    if n == 0 then [] else MonthTitles(y, n - 1) + [MonthHeaderOf(y, n - 1)]
  }

  /** Month `i + 1` is recorded at the column of its first day. */
  lemma {:induction false} MonthStartColumnsAt(y: int, n: int)
    requires 0 <= n <= 12
    ensures |MonthStartColumns(y, n)| == n
    ensures forall i :: 0 <= i < n ==> MonthStartColumns(y, n)[i] == ScheduleFirstColumn + MonthStart(y, i + 1)
  {
    if n > 0 {
      MonthStartColumnsAt(y, n - 1);
      var prev := MonthStartColumns(y, n - 1);
      assert MonthStartColumns(y, n) == prev + [ScheduleFirstColumn + MonthStart(y, n)];
    }
  }

  /** Month `i + 1` has colour index `i % 2`: the colours alternate. */
  lemma {:induction false} MonthColorIndicesAt(n: int)
    requires 0 <= n <= 12
    ensures |MonthColorIndices(n)| == n
    ensures forall i :: 0 <= i < n ==> MonthColorIndices(n)[i] == i % 2
  {
    if n > 0 {
      MonthColorIndicesAt(n - 1);
      var prev := MonthColorIndices(n - 1);
      assert MonthColorIndices(n) == prev + [(n - 1) % 2];
    }
  }

  /** The title of month `i + 1` is `MonthHeaderOf(y, i)`. */
  lemma {:induction false} MonthTitlesAt(y: int, n: int)
    requires 0 <= n <= 12
    ensures |MonthTitles(y, n)| == n
    ensures forall i :: 0 <= i < n ==> MonthTitles(y, n)[i] == MonthHeaderOf(y, i)
  {
    if n > 0 {
      MonthTitlesAt(y, n - 1);
      var prev := MonthTitles(y, n - 1);
      assert MonthTitles(y, n) == prev + [MonthHeaderOf(y, n - 1)];
    }
  }

  /** The header part of `_create_schedule_sheet`: a running `current_col`
   *  from column C, months in calendar order, each month's days in order. */
  method CreateScheduleHeader(cal: ProductionCalendar)
    returns (monthStartCols: seq<int>, monthColorIndices: seq<int>, months: seq<MonthHeader>,
             cells: seq<DayHeader>, currentCol: int)
    requires cal.Valid()
    ensures monthStartCols == MonthStartColumns(cal.year, 12)
    ensures monthColorIndices == MonthColorIndices(12)
    ensures months == MonthTitles(cal.year, 12)
    ensures |cells| == DaysInYear(cal.year)
    ensures forall k :: 0 <= k < |cells| ==> IsDayHeader(cells[k], cal.year, k)
    ensures currentCol - 1 == ScheduleFirstColumn - 1 + DaysInYear(cal.year)
  {
    var y := cal.year;
    currentCol := ScheduleFirstColumn;
    monthStartCols, monthColorIndices, months, cells := [], [], [], [];
    for monthIdx := 0 to 12
      invariant monthStartCols == MonthStartColumns(y, monthIdx)
      invariant monthColorIndices == MonthColorIndices(monthIdx)
      invariant months == MonthTitles(y, monthIdx)
      invariant currentCol == ScheduleFirstColumn + MonthStart(y, monthIdx + 1)
      invariant |cells| == MonthStart(y, monthIdx + 1)
      invariant forall k :: 0 <= k < |cells| ==> IsDayHeader(cells[k], y, k)
    {
      var month := monthIdx + 1;
      MonthStartColumnsAt(y, monthIdx);
      MonthColorIndicesAt(monthIdx);
      MonthTitlesAt(y, monthIdx);
      monthStartCols, monthColorIndices, months :=
        AddMonthTitle(y, monthIdx, currentCol, monthStartCols, monthColorIndices, months);
      cells := WriteMonthDays(cal, month, currentCol, cells);
      currentCol := currentCol + DaysInMonth(y, month);
    }
    MonthStartOfYearEnd(y);
  }

  /** The month titles follow each other without gap, each one column per
   *  day of its month. */
  lemma MonthTitlesContiguous(y: int)
    ensures forall i :: 0 <= i < 12 ==> MonthHeaderOf(y, i).last - MonthHeaderOf(y, i).first + 1 == DaysInMonth(y, i + 1)
    ensures forall i :: 0 <= i < 11 ==> MonthHeaderOf(y, i + 1).first == MonthHeaderOf(y, i).last + 1
  {
  }

  /** `_create_dates_sheet`: the dates of the year in row 1 of the hidden sheet
   *  from column `firstCol` on, one column per day. graf.py passes column A
   *  (`DatesSheetFirstColumn`); started at the schedule's first column, every
   *  date would sit in its schedule column. */
  method CreateDatesSheet(y: int, firstCol: int) returns (columns: seq<int>, dates: seq<Date>, col: int)
    ensures |columns| == |dates| && IsYearOf(dates, y)
    ensures forall k :: 0 <= k < |dates| ==> columns[k] == firstCol + k
    ensures col - 1 == firstCol - 1 + DaysInYear(y)
    ensures firstCol == ScheduleFirstColumn ==> forall k :: 0 <= k < |dates| ==> columns[k] == ScheduleColumn(dates[k])
  {
    var date := Date(y, 1, 1);
    col := firstCol;
    columns, dates := [], [];
    while date.year == y
      invariant |columns| == |dates| == col - firstCol <= DaysInYear(y)
      invariant ValidDate(date)
      invariant date.year == y ==> Ordinal(date) == |dates|
      invariant date.year != y ==> |dates| == DaysInYear(y)
      invariant forall k :: 0 <= k < |dates| ==>
                  ValidDate(dates[k]) && dates[k].year == y && Ordinal(dates[k]) == k && columns[k] == firstCol + k
      decreases DaysInYear(y) - |dates|
    {
      columns, dates := columns + [col], dates + [date];
      NextOrdinal(date);
      date := Next(date);
      col := col + 1;
    }
  }

  /** `_create_dates_sheet` as graf.py runs it, from column A: every date of
   *  the year lies two columns left of its schedule column, so 1 January is
   *  found in column A and 2 January in column B, which on the schedule are
   *  the "№" and name columns. The macro uses the column found on the date
   *  sheet as the schedule column. */
  method CreateDatesSheetAsWritten(y: int) returns (columns: seq<int>, dates: seq<Date>)
    ensures IsYearOf(dates, y) && |columns| == |dates|
    ensures forall d :: ValidDate(d) && d.year == y ==>
              Ordinal(d) < |dates| && dates[Ordinal(d)] == d && columns[Ordinal(d)] == ScheduleColumn(d) - 2
    ensures columns[0] == 1 && columns[1] == 2
  {
    var col;
    columns, dates, col := CreateDatesSheet(y, DatesSheetFirstColumn);
    forall d | ValidDate(d) && d.year == y
      ensures Ordinal(d) < |dates| && dates[Ordinal(d)] == d
    {
      YearTotal(dates, y, d);
    }
  }

  /** The date sheet started at the schedule's first column: the column at
   *  which the macro finds any date of the year is that date's column on
   *  the schedule. */
  method CreateDatesSheetAligned(y: int) returns (columns: seq<int>, dates: seq<Date>)
    ensures IsYearOf(dates, y) && |columns| == |dates|
    ensures forall d :: ValidDate(d) && d.year == y ==>
              Ordinal(d) < |dates| && dates[Ordinal(d)] == d && columns[Ordinal(d)] == ScheduleColumn(d)
  {
    var col;
    columns, dates, col := CreateDatesSheet(y, ScheduleFirstColumn);
    forall d | ValidDate(d) && d.year == y
      ensures Ordinal(d) < |dates| && dates[Ordinal(d)] == d
    {
      YearTotal(dates, y, d);
    }
  }

  const MaxEmployees: int := 20
  const DataStartRow: int := 5

  /** Employee `i` (1 to 20) goes to schedule row `i + 4`. */
  function EmployeeRow(i: int): (r: int)
    requires 1 <= i <= MaxEmployees
    ensures DataStartRow <= r <= DataStartRow + MaxEmployees - 1
  {
    i + 4
  }

  /** The employee rows fill the data band, rows 5 to 24, one employee per row. */
  lemma EmployeeRowsFillDataBand(r: int)
    requires DataStartRow <= r <= DataStartRow + MaxEmployees - 1
    ensures exists i :: 1 <= i <= MaxEmployees && EmployeeRow(i) == r
  {
    assert EmployeeRow(r - 4) == r;
  }

  /** The data band fill of the column of `d`: `month_colors[month_idx % 2]`
   *  for the month of `d`. */
  function BandColor(d: Date): string
    requires ValidDate(d)
  {
    MonthColors[(d.month - 1) % 2]
  }

  /** `column` holds the fills of rows 5 to 24 of one day column, each the
   *  band colour of `d`. */
  predicate IsBandColumn(column: seq<string>, d: Date)
    requires ValidDate(d)
  {
    |column| == MaxEmployees && forall r :: 0 <= r < |column| ==> column[r] == BandColor(d)
  }

  /** The columns of the dates of year `y` with an ordinal below `n` are
   *  painted, at their ordinals. */
  ghost predicate BandedBefore(band: seq<seq<string>>, y: int, n: int) {
    forall d :: ValidDate(d) && d.year == y && Ordinal(d) < n ==>
      Ordinal(d) < |band| && IsBandColumn(band[Ordinal(d)], d)
  }

  /** Painting the column of the next date extends the painted prefix. */
  lemma BandSnoc(band: seq<seq<string>>, y: int, e: Date, column: seq<string>)
    requires ValidDate(e) && e.year == y && |band| == Ordinal(e)
    requires BandedBefore(band, y, Ordinal(e)) && IsBandColumn(column, e)
    ensures BandedBefore(band + [column], y, Ordinal(e) + 1)
  {
    forall d | ValidDate(d) && d.year == y && Ordinal(d) < Ordinal(e) + 1
      ensures Ordinal(d) < |band + [column]| && IsBandColumn((band + [column])[Ordinal(d)], d)
    {
      if Ordinal(d) == Ordinal(e) {
        OrdinalOrder(d, e);
      }
    }
  }

  /** The innermost loop of the band: rows 5 to 24 of one column get `fill`. */
  method PaintColumn(fill: string) returns (column: seq<string>)
    ensures |column| == MaxEmployees
    ensures forall r :: 0 <= r < |column| ==> column[r] == fill
  {
    column := [];
    for row := DataStartRow to DataStartRow + MaxEmployees
      invariant |column| == row - DataStartRow
      invariant forall r :: 0 <= r < |column| ==> column[r] == fill
    {
      column := column + [fill];
    }
  }

  /** The day loop of the band for month `monthIdx + 1`: each of its days
   *  gets a column painted with the month's colour, `col` moving one column
   *  per day. */
  method PaintMonthBand(y: int, monthIdx: int, col: int, band: seq<seq<string>>)
    returns (col': int, band': seq<seq<string>>)
    requires 0 <= monthIdx < 12
    requires col == ScheduleFirstColumn + MonthStart(y, monthIdx + 1) && |band| == MonthStart(y, monthIdx + 1)
    requires BandedBefore(band, y, |band|)
    ensures col' == ScheduleFirstColumn + MonthStart(y, monthIdx + 2) && |band'| == MonthStart(y, monthIdx + 2)
    ensures BandedBefore(band', y, |band'|)
  {
    var month := monthIdx + 1;
    var monthColor := MonthColors[monthIdx % 2];
    col', band' := col, band;
    for day := 1 to DaysInMonth(y, month) + 1
      invariant |band'| == MonthStart(y, month) + day - 1 && col' == ScheduleFirstColumn + |band'|
      invariant BandedBefore(band', y, |band'|)
    {
      var date := Date(y, month, day);
      var column := PaintColumn(monthColor);
      BandSnoc(band', y, date, column);
      band' := band' + [column];
      col' := col' + 1;
    }
  }

  /** The data-band loop of `_create_schedule_sheet`: from column C, every
   *  day column of the year is painted in rows 5 to 24 with the colour of its
   *  month; `band[k]` holds column `3 + k`. */
  method PaintDataBand(y: int) returns (band: seq<seq<string>>, col: int)
    ensures |band| == DaysInYear(y) && col == ScheduleFirstColumn + DaysInYear(y)
    ensures forall d :: ValidDate(d) && d.year == y ==>
              ScheduleColumn(d) - ScheduleFirstColumn == Ordinal(d) && IsBandColumn(band[Ordinal(d)], d)
  {
    col, band := ScheduleFirstColumn, [];
    for monthIdx := 0 to 12
      invariant col == ScheduleFirstColumn + MonthStart(y, monthIdx + 1) && |band| == MonthStart(y, monthIdx + 1)
      invariant BandedBefore(band, y, |band|)
    {
      col, band := PaintMonthBand(y, monthIdx, col, band);
    }
    MonthStartOfYearEnd(y);
  }

  /** The band colour of a day is the colour of its month's title, and the
   *  day's column lies under that title. */
  lemma {:induction false} BandMatchesTitle(y: int, d: Date)
    requires ValidDate(d) && d.year == y
    ensures BandColor(d) == MonthColors[MonthColorIndices(12)[d.month - 1]]
    ensures MonthHeaderOf(y, d.month - 1).first <= ScheduleColumn(d) <= MonthHeaderOf(y, d.month - 1).last
  {
    MonthColorIndicesAt(12);
  }

  /** Going from a day to the next day of the same year, the band colour
   *  changes exactly when a new month begins. */
  lemma BandChangesAtMonths(d: Date)
    requires ValidDate(d) && Next(d).year == d.year
    ensures BandColor(Next(d)) != BandColor(d) <==> Next(d).day == 1
  {
  }
}
