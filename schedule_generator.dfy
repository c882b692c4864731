/** The production calendar of vacation_schedule_generator.py
 *  (`get_russian_calendar_2026`) and the day grid of its "ГРАФИК" sheet
 *  (`create_dynamic_vacation_schedule`). */
module ScheduleGenerator {
  import opened Calendar
  import opened MonthGrid

  /** `day_type`: "holiday", "pre_holiday", "work_saturday", "weekend",
   *  "workday". */
  datatype Kind = Holiday | PreHoliday | WorkSaturday | Weekend | Workday

  const Year: int := 2026

  /** The holiday table: 1 to 9 January, 23 February, 8 March, 1 and 9 May,
   *  12 June, 4 November. */
  const Holidays: seq<Date> :=
    [Date(2026, 1, 1), Date(2026, 1, 2), Date(2026, 1, 3), Date(2026, 1, 4),
     Date(2026, 1, 5), Date(2026, 1, 6), Date(2026, 1, 7), Date(2026, 1, 8),
     Date(2026, 1, 9), Date(2026, 2, 23), Date(2026, 3, 8), Date(2026, 5, 1),
     Date(2026, 5, 9), Date(2026, 6, 12), Date(2026, 11, 4)]

  /** Pre-holiday days; 7 March is a Saturday. */
  const PreHolidays: seq<Date> :=
    [Date(2026, 2, 20), Date(2026, 3, 7), Date(2026, 5, 8),
     Date(2026, 6, 11), Date(2026, 11, 3), Date(2026, 12, 31)]

  const WorkSaturdays: seq<Date> := [Date(2026, 2, 21), Date(2026, 11, 14)]

  /** The `if/elif` that picks `day_type`: holiday, else pre-holiday, else
   *  working Saturday, else weekend (Saturday or Sunday), else workday. */
  function ClassifyKind(d: Date): (k: Kind)
    requires ValidDate(d)
    ensures k == Holiday <==> d in Holidays
    ensures k == PreHoliday <==> d !in Holidays && d in PreHolidays
    ensures k == WorkSaturday <==> d !in Holidays && d !in PreHolidays && d in WorkSaturdays
    ensures k == Weekend <==> d !in Holidays && d !in PreHolidays && d !in WorkSaturdays && Weekday(d) >= 5
  {
    if d in Holidays then Holiday
    else if d in PreHolidays then PreHoliday
    else if d in WorkSaturdays then WorkSaturday
    else if Weekday(d) >= 5 then Weekend
    else Workday
  }

  /** `day_name`, chosen in the same branches as `day_type`. */
  function DayName(k: Kind): string {
    match k
    case Holiday => "Праздник"
    case PreHoliday => "Предпр"
    case WorkSaturday => "Раб.сб"
    case Weekend => "Выходной"
    case Workday => "Рабочий"
  }

  /** `holiday_name` as written: the January branch tests `day <= 9` before
   *  the Christmas branch tests `day == 7`. */
  function HolidayName(d: Date): string {
    if d !in Holidays then ""
    else if d.month == 1 && d.day <= 9 then "Новогодние каникулы"
    else if d.month == 1 && d.day == 7 then "Рождество"
    else if d.month == 2 && d.day == 23 then "День защитника Отечества"
    else if d.month == 3 && d.day == 8 then "Международный женский день"
    else if d.month == 5 && d.day == 1 then "Праздник Весны и Труда"
    else if d.month == 5 && d.day == 9 then "День Победы"
    else if d.month == 6 && d.day == 12 then "День России"
    else if d.month == 11 && d.day == 4 then "День народного единства"
    else ""
  }

  /** Every holiday has a name and no other day has one; every January
   *  holiday, 7 January included, is named "Новогодние каникулы", so the
   *  name "Рождество" never appears. */
  lemma HolidayNames(d: Date)
    ensures HolidayName(d) != "" <==> d in Holidays
    ensures d in Holidays && d.month == 1 ==> HolidayName(d) == "Новогодние каникулы"
    ensures HolidayName(d) != "Рождество"
  {
  }

  /** `holiday_name` with the Christmas branch ahead of the New Year
   *  holidays, so that 7 January gets its own name. */
  function HolidayNameIntended(d: Date): string {
    if d in Holidays && d.month == 1 && d.day == 7 then "Рождество"
    else HolidayName(d)
  }

  /** With the branches in that order, exactly 7 January is "Рождество",
   *  the other January holidays keep "Новогодние каникулы", and the
   *  holidays are still exactly the named days. */
  lemma HolidayNameIntendedNamesChristmas(d: Date)
    ensures HolidayNameIntended(d) == "Рождество" <==> d == Date(2026, 1, 7)
    ensures d in Holidays && d.month == 1 && d.day != 7 ==> HolidayNameIntended(d) == "Новогодние каникулы"
    ensures HolidayNameIntended(d) != "" <==> d in Holidays
  {
    HolidayNames(d);
  }

  /** One value of the `calendar` dict. */
  datatype DayInfo = DayInfo(date: Date, weekday: int, kind: Kind, dayName: string,
                             holidayName: string, isWorking: bool)

  /** The dict value built for `d`; `is_working` is `day_type in ['workday',
   *  'work_saturday', 'pre_holiday']`. */
  function MakeDayInfo(d: Date): (info: DayInfo)
    requires ValidDate(d)
    ensures info.date == d && info.weekday == Weekday(d) && info.kind == ClassifyKind(d)
    ensures info.isWorking <==> info.kind != Holiday && info.kind != Weekend
  {
    var k := ClassifyKind(d);
    DayInfo(d, Weekday(d), k, DayName(k), HolidayName(d),
            k == Workday || k == WorkSaturday || k == PreHoliday)
  }

  /** A day is working exactly when it is not a holiday and it is a
   *  pre-holiday, a working Saturday or a Monday-to-Friday day. */
  lemma IsWorkingIff(d: Date)
    requires ValidDate(d)
    ensures MakeDayInfo(d).isWorking <==>
              d !in Holidays && (d in PreHolidays || d in WorkSaturdays || Weekday(d) < 5)
    ensures MakeDayInfo(d).holidayName != "" <==> MakeDayInfo(d).kind == Holiday
  {
    HolidayNames(d);
  }

  /** 7 March 2026 is a Saturday and, being in the pre-holiday table, a
   *  working shortened day rather than a weekend. */
  lemma PreHolidaySaturdayIsWorking()
    ensures Weekday(Date(2026, 3, 7)) == 5
    ensures MakeDayInfo(Date(2026, 3, 7)).kind == PreHoliday
    ensures MakeDayInfo(Date(2026, 3, 7)).isWorking
  {
    assert MonthStart(2026, 3) == 59;
  }

  /** The `calendar` dict with insertion order `keys`: its keys are exactly
   *  the listed dates, and each holds the value built for its own date. */
  ghost predicate IsDict(keys: seq<Date>, calendar: map<Date, DayInfo>) {
    && (forall d :: d in calendar <==> d in keys)
    && (forall d :: d in calendar ==> ValidDate(d) && calendar[d] == MakeDayInfo(d))
  }

  /** The k-th of `keys` is the day of ordinal k of year `y`. */
  ghost predicate DaysInOrder(keys: seq<Date>, y: int) {
    forall k :: 0 <= k < |keys| ==> ValidDate(keys[k]) && keys[k].year == y && Ordinal(keys[k]) == k
  }

  /** The day of the next ordinal extends the list. */
  lemma DaysInOrderSnoc(keys: seq<Date>, y: int, current: Date)
    requires DaysInOrder(keys, y) && ValidDate(current) && current.year == y && Ordinal(current) == |keys|
    ensures DaysInOrder(keys + [current], y)
  {
  }

  /** `get_russian_calendar_2026`: offsets 0 to 365 from 1 January, stopping
   *  at the first date past 2026. `keys` is the dict's insertion order. */
  method GetRussianCalendar() returns (keys: seq<Date>, calendar: map<Date, DayInfo>)
    ensures IsYearOf(keys, Year) && |keys| == 365
    ensures IsDict(keys, calendar)
  {
    var start := Date(2026, 1, 1);
    keys, calendar := [], map[];
    var i := 0;
    while i < 365 + 1
      invariant 0 <= i <= 365 && |keys| == i
      invariant DaysInOrder(keys, Year)
      invariant IsDict(keys, calendar)
    {
      var current := OffsetDate(start, i);
      if current.year > Year {
        break;
      }
      DaysInOrderSnoc(keys, Year, current);
      keys, calendar := AddDay(keys, calendar, current);
      i := i + 1;
    }
  }

  /** `start + timedelta(days=i)` from 1 January: the day of ordinal `i`,
   *  or 1 January of the next year once the year is used up. */
  method OffsetDate(start: Date, i: nat) returns (current: Date)
    requires start.month == 1 && start.day == 1 && i <= DaysInYear(start.year)
    ensures current == AddDays(start, i)
    ensures i < DaysInYear(start.year) ==> current.year == start.year && Ordinal(current) == i
    ensures i == DaysInYear(start.year) ==> current == Date(start.year + 1, 1, 1)
  {
    current := AddDays(start, i);
    AddDaysFromNewYear(start.year, i);
  }

  /** One pass of the loop that keeps its date: the date goes last in the
   *  insertion order and the dict gains its entry. */
  method AddDay(keys: seq<Date>, calendar: map<Date, DayInfo>, current: Date)
    returns (keys': seq<Date>, calendar': map<Date, DayInfo>)
    requires ValidDate(current)
    requires IsDict(keys, calendar)
    ensures keys' == keys + [current]
    ensures IsDict(keys', calendar')
  {
    keys' := keys + [current];
    calendar' := calendar[current := MakeDayInfo(current)];
  }

  /** Column C holds the first day. */
  const FirstColumn: int := 3

  /** Every laid-out date is a key of the calendar dict, with its own dict
   *  value: its weekday and its day type, which give its column's row-3 text
   *  and fill. */
  ghost predicate OwnValues(calendar: map<Date, DayInfo>, columnOf: map<Date, int>) {
    forall d :: d in columnOf ==> ValidDate(d) && d in calendar && calendar[d] == MakeDayInfo(d)
  }

  /** The layout of the grid for the dates of year `y`: twelve contiguous
   *  month headers in calendar order, each spanning exactly its days, and
   *  every date at column C plus its ordinal. */
  method LayOutGrid(keys: seq<Date>, calendar: map<Date, DayInfo>, y: int)
    returns (spans: seq<Span>, columnOf: map<Date, int>, lastCol: int)
    requires IsYearOf(keys, y)
    requires IsDict(keys, calendar)
    ensures YearMonthSpans(spans, y, FirstColumn)
    ensures forall j :: 0 <= j < 12 ==> spans[j].last - spans[j].first + 1 == DaysInMonth(y, j + 1)
    ensures forall j :: 0 <= j < 11 ==> spans[j + 1].first == spans[j].last + 1
    ensures forall d :: d in columnOf <==> ValidDate(d) && d.year == y
    ensures forall d :: ValidDate(d) && d.year == y ==> columnOf[d] == FirstColumn + Ordinal(d)
    ensures lastCol == FirstColumn + DaysInYear(y) - 1
    ensures OwnValues(calendar, columnOf)
  {
    GridEntries(keys, calendar, y);
    var currentCol;
    spans, columnOf, currentCol := LayoutYear(keys, y, FirstColumn);
    MonthSpansContiguous(y, FirstColumn, spans);
    lastCol := currentCol - 1;
  }

  /** The grid part of `create_dynamic_vacation_schedule`: the calendar's days
   *  grouped by month, months sorted, columns from C on; `lastCol` is
   *  `current_col - 1`, the right edge of the conditional-format range. Each
   *  month's header spans exactly its days, the months are contiguous and in
   *  calendar order, and every date of 2026 has the column C plus its
   *  ordinal. Behind each column is the date's own dict value, whose type
   *  gives the column its row-3 text (`DayText`) and its fill (`KindFill`). */
  method CreateScheduleGrid()
    returns (keys: seq<Date>, calendar: map<Date, DayInfo>, spans: seq<Span>,
             columnOf: map<Date, int>, lastCol: int)
    ensures IsYearOf(keys, Year)
    ensures YearMonthSpans(spans, Year, FirstColumn)
    ensures forall j :: 0 <= j < 12 ==> spans[j].last - spans[j].first + 1 == DaysInMonth(Year, j + 1)
    ensures forall j :: 0 <= j < 11 ==> spans[j + 1].first == spans[j].last + 1
    ensures forall d :: d in columnOf <==> ValidDate(d) && d.year == Year
    ensures forall d :: ValidDate(d) && d.year == Year ==> columnOf[d] == FirstColumn + Ordinal(d)
    ensures lastCol == FirstColumn + DaysInYear(Year) - 1
    ensures OwnValues(calendar, columnOf)
  {
    keys, calendar := GetRussianCalendar();
    spans, columnOf, lastCol := LayOutGrid(keys, calendar, Year);
  }

  /** Every date of the year is a key of the calendar dict, with its own
   *  dict value. */
  lemma GridEntries(keys: seq<Date>, calendar: map<Date, DayInfo>, y: int)
    requires IsYearOf(keys, y)
    requires IsDict(keys, calendar)
    ensures forall d :: ValidDate(d) && d.year == y ==> d in calendar && calendar[d] == MakeDayInfo(d)
  {
    forall d | ValidDate(d) && d.year == y
      ensures d in calendar && calendar[d] == MakeDayInfo(d)
    {
      YearMember(keys, y, d);
    }
  }

  /** Row 3 mark: " ✶" holiday, " ◐" pre-holiday, " ⚒" working Saturday,
   *  nothing otherwise. */
  function KindSymbol(k: Kind): string {
    if k == Holiday then " ✶"
    else if k == PreHoliday then " ◐"
    else if k == WorkSaturday then " ⚒"
    else ""
  }

  /** `day_type_fills`, the fill of rows 2 and 3. */
  function KindFill(k: Kind): string {
    match k
    case Workday => "FFFFFF"
    case Weekend => "E6E6E6"
    case Holiday => "FF9999"
    case PreHoliday => "FFFF99"
    case WorkSaturday => "CCFFCC"
  }

  /** Row 3 text of a day: weekday name and mark. */
  function DayText(info: DayInfo): string
    requires 0 <= info.weekday < 7
  {
    DayNames[info.weekday] + KindSymbol(info.kind)
  }

  /** The mark is empty exactly on weekends and plain workdays and otherwise
   *  names the day type; the fill tells all five types apart. */
  lemma KindMarks(a: Kind, b: Kind)
    ensures KindSymbol(a) == "" <==> a == Weekend || a == Workday
    ensures KindSymbol(a) != "" && KindSymbol(a) == KindSymbol(b) ==> a == b
    ensures KindFill(a) == KindFill(b) ==> a == b
  {
  }

  /** The row-3 text of a calendar day starts with its weekday name and
   *  carries a mark exactly when the day is a holiday, a pre-holiday or a
   *  working Saturday. */
  lemma DayTextOfCalendarDay(d: Date)
    requires ValidDate(d)
    ensures DayText(MakeDayInfo(d))[..2] == DayNames[Weekday(d)]
    ensures |DayText(MakeDayInfo(d))| == 2 <==>
              d !in Holidays && d !in PreHolidays && d !in WorkSaturdays
  {
    KindMarks(MakeDayInfo(d).kind, Workday);
  }

  /** Employee `k` (from 0) is on row `3 + k` of "СОТРУДНИКИ". */
  function EmployeesSheetRow(k: nat): int {
    3 + k
  }

  /** Employee `k` (from 0) is on row `4 + k` of "ГРАФИК". */
  function ScheduleRow(k: nat): int {
    4 + k
  }

  /** The start and end columns of the three vacations on "СОТРУДНИКИ". */
  const VacationColumns: seq<(int, int)> := [(3, 4), (6, 7), (9, 10)]

  /** The columns the conditional-format formula reads for vacation `j`. */
  function FormulaColumns(j: int): (int, int) {
    (3 + j * 3, 4 + j * 3)
  }

  /** The formula on schedule row `row` reads employee row `row - 1`. */
  function FormulaSheetRow(row: int): int {
    row - 1
  }

  /** The formula of every schedule row reads the same employee's row on
   *  "СОТРУДНИКИ" and the very columns where that employee's vacations were
   *  written. */
  lemma FormulaReadsOwnRow(k: nat, j: int)
    requires 0 <= j < 3
    ensures FormulaSheetRow(ScheduleRow(k)) == EmployeesSheetRow(k)
    ensures FormulaColumns(j) == VacationColumns[j]
    ensures FormulaColumns(j).0 < FormulaColumns(j).1
  {
  }
}
