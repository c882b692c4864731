# Production calendar and day grid of the 2026 vacation-schedule workbooks

Five Python scripts build Excel workbooks for planning staff vacations in
2026. Each of them walks the dates of the year and classifies each date
with a fixed `if/elif` precedence over fixed tables. graf.py,
vacation_schedule_generator.py and vacation_creator.py have tables of
holidays, pre-holiday (shortened) days and transferred working days.
vacation_scheduler.py and grafic.py have only holidays and pre-holidays,
and no working-day table. Each date then gets a worksheet column: a running
column counter moves month after month, and each month gets a title merged
over the columns the script assigns to it. Those titles do not always cover
exactly the month's own days. As written, grafic.py merges only December's
title. vacation_creator.py's January title also covers 1 January 2027 (see
"## Findings"). This project models that classifier and that layout, script
by script, and proves what they compute.

- `Calendar` (calendar.dfy) stands in for `datetime` and `calendar`. It
  provides dates, days per month, the ordinal of a date in its year, the
  next day, `date + timedelta(days=n)` and the weekday (Monday = 0; 1 January
  2026 is a Thursday). `IsYearOf(s, y)` says that `s` lists every date of `y`
  once, in order.
- `Graf` (graf.dfy) models graf.py:
  - `WorkDay` and the `ProductionCalendar` class, with a `days` field that
    `GenerateCalendar` appends to and the linear search `GetDayInfo`;
  - the header of the "ГРАФИК" sheet: a running `current_col` from column C,
    the month titles, the alternating colour indices, the day symbols and
    fills;
  - the hidden "ДАТЫ" sheet, from column A.
- `MonthGrid` (month_grid.dfy) models the group-by-month and
  column-assignment code that vacation_schedule_generator.py and
  vacation_creator.py both carry:
  - `months_data[m].append(...)`;
  - `sorted(keys)`;
  - `current_col += len(month_days)`.

  It also models the `date_column_map` that only
  vacation_schedule_generator.py keeps.
- `ScheduleGenerator` (schedule_generator.dfy) models vacation_schedule_generator.py:
  - the calendar dict, with `day_type`, `is_working` and `holiday_name`;
  - the grid of its "ГРАФИК" sheet;
  - the rows that its conditional-format formula reads.
- `VacationCreator` (vacation_creator.dfy) models vacation_creator.py. Its
  366-step loop and `create_calendar_sheet` are modelled as written, and
  beside them is the grid with the calendar stopped at the end of the year.
- `HeaderCalendar` (header_calendar.dfy) models vacation_scheduler.py:
  - `all_dates`;
  - the row-1 cells (day number and mark, fill);
  - the row-2 month labels;
  - `month_cols`;
  - the merge end search;
  - the legend counts.
- `Grafic` (grafic.dfy) models the merge search of grafic.py. That search
  compares the leftover loop variable `date`, not each column's own date.
  The rest of grafic.py is the code of vacation_scheduler.py, so the model
  reuses `HeaderCalendar`.
- `Wrappers` (wrappers.dfy) is `Option`, which models Python's `None`-or-value
  results.

A Python dict keyed by date is modelled as its insertion-order key sequence
together with a `map`. The loops that build the calendars, lay out the
columns, paint the data band, write the date sheet and search for the end of
each month's merge are `method`s with loops. Each such method is proved
against a function of its inputs, and the
lemmas beside it state what that function means for the dates of 2026.

The model follows the code as written, quirks included. Where the code
departs from what it evidently aims at, the model proves the quirk on a
member that models the code as written. Beside it is a corrected member that
states the intended property (see "## Findings"). For example,
vacation_creator.py builds 366 calendar entries for 2026, the last being
1 January 2027, classified as a workday.

## Model

| member | source | states |
|---|---|---|
| Calendar.DaysInMonth | graf.py:294 | `calendar.monthrange(y, m)[1]` is between 28 and 31 |
| Calendar.MonthStart | graf.py:293-367 | the days of the months before `m` number between 28 and 31 per month |
| Calendar.MonthStartOfYearEnd | graf.py:293-367 | the twelve months together have exactly the days of the year (365 or 366) |
| Calendar.MonthStartMonotone | graf.py:367 | a later month starts at least 28 days per month later |
| Calendar.Ordinal | graf.py:320 | a date's zero-based day of the year lies within the year |
| Calendar.MonthOfOrdinal | graf.py:319-320 | a date is in month `m` iff its ordinal lies in that month's block |
| Calendar.EarlierMonthOrdinal | vacation_schedule_generator.py:426 | a date in an earlier month of the same year has a smaller ordinal |
| Calendar.OrdinalOrder | vacation_scheduler.py:21 | within a year, date comparison agrees with ordinal order, and equal ordinals mean equal dates |
| Calendar.Next | graf.py:140 | `date + timedelta(days=1)` is a valid date after `date` |
| Calendar.NextOrdinal | graf.py:127-140 | the next day has the next ordinal, or is 1 January of the next year after the last day |
| Calendar.NextDayNumber | graf.py:140 | stepping one day adds one to the day count since 1 January 2026 |
| Calendar.Weekday | graf.py:132 | `weekday()` is 0 to 6 |
| Calendar.AddDays | vacation_creator.py:37 | `start + timedelta(days=n)` is a valid date whose day count is `n` more |
| Calendar.AddDaysFromNewYear | vacation_creator.py:36-37 | offset `k` from 1 January is the date of ordinal `k`, and offset `DaysInYear` is 1 January of the next year |
| Calendar.YearSorted | vacation_scheduler.py:19-23 | the dates of a year listed by ordinal strictly increase |
| Calendar.YearTotal | vacation_scheduler.py:19-23 | every date of the year occurs in the year list exactly once, at its ordinal |
| Calendar.YearMember | vacation_scheduler.py:19-23 | a date is in the year list iff it is a valid date of that year |
| Graf.ClassifyDay | graf.py:120-137 | holiday iff in `holidays + extra_holidays`; else working Saturday iff in `working_saturdays`; else day off iff weekday ≥ 5; else working; `is_short` iff a pre-holiday that is a plain working day |
| Graf.CalendarIndex | graf.py:120-140 | the generated days are in strictly increasing date order, and each date of the year has its entry at its ordinal |
| Graf.ProductionCalendar.constructor | graf.py:52-56 | a new calendar holds its year and a generated day list |
| Graf.ProductionCalendar.GenerateCalendar | graf.py:58-140 | appends exactly one classified `WorkDay` per date of the year, in date order, and keeps what was there |
| Graf.ProductionCalendar.GetDayInfo | graf.py:142-147 | returns the first entry with an equal date, or None iff there is none; on a generated calendar it returns exactly the dates of the year, each with its classification |
| Graf.PreHolidaySaturdayIsDayOff | graf.py:104-137 | 7 March 2026 is a Saturday, so it is a day off and not a short day |
| Graf.WorkingSaturdayOnFriday | graf.py:115-130 | 27 February 2026 is a Friday yet is classified as a working Saturday |
| Graf.DayOffOnWeekendOnly | graf.py:125-137 | every day off is a Saturday or Sunday; every short day is a Monday-to-Friday pre-holiday that is not a holiday |
| Graf.DayFill | graf.py:349-357 | the fill is `colors[day_type]`, or white without day information |
| Graf.TypeColorInjective | graf.py:279-284 | the four day types have four different colours |
| Graf.SymbolOfClassifiedDay | graf.py:333-342 | on a classified day "✶" marks exactly the holidays, "●" the short days and "◉" the working Saturdays, and the branch for a weekday day off is never taken |
| Graf.WriteMonthDays | graf.py:319-364 | the days of one month get the columns following the earlier months, each with its date, day number, weekday name, symbol and fill |
| Graf.AddMonthTitle | graf.py:296-310 | one month records its first column and colour index `month_idx % 2` and is merged over one column per day |
| Graf.MonthStartColumnsAt | graf.py:297 | month `i + 1` is recorded at column 3 plus the days before it |
| Graf.MonthColorIndicesAt | graf.py:298 | month `i + 1` has colour index `i % 2` |
| Graf.MonthTitlesAt | graf.py:301-310 | month `i + 1`'s title spans its first to its last day column |
| Graf.CreateScheduleHeader | graf.py:271-367 | all months are laid out in order from column C, every date of the year is at `3 + ordinal` with its cell, and `current_col - 1` is `2 + days in year` |
| Graf.MonthTitlesContiguous | graf.py:301-367 | each title spans `monthrange` days, and each next title starts right after the previous one |
| Graf.CreateDatesSheet | graf.py:428-440 | row 1 lists every date of the year in order, the k-th at `firstCol + k` |
| Graf.CreateDatesSheetAsWritten | graf.py:428-440 | run from column A as graf.py does, every date of the year is found two columns left of its schedule column, so 1 and 2 January are in columns A and B |
| Graf.CreateDatesSheetAligned | graf.py:651-664 | started at column C, the column where each date is found is its schedule column |
| Graf.EmployeeRow | graf.py:391-392 | employee 1 to 20 goes to a row of the data band 5 to 24 |
| Graf.EmployeeRowsFillDataBand | graf.py:371-392 | every row of the data band holds an employee |
| Graf.PaintColumn | graf.py:385-387 | rows 5 to 24 of one column get the month's fill |
| Graf.PaintMonthBand | graf.py:376-388 | each day of the month gets its column, `col` moving one column per day, painted with `month_colors[month_idx % 2]` |
| Graf.PaintDataBand | graf.py:374-388 | from column C, the column of every date of the year is painted in rows 5 to 24 with its month's colour |
| Graf.BandMatchesTitle | graf.py:293-310 | a day's band colour is the colour of its month's title, and its column lies under that title |
| Graf.BandChangesAtMonths | graf.py:376-388 | from one day to the next, the band colour changes exactly when a new month begins |
| MonthGrid.InMonthAppend | vacation_schedule_generator.py:419-423 | grouping a concatenation concatenates the groups |
| MonthGrid.InMonthElements | vacation_schedule_generator.py:419-423 | a month's group holds exactly the calendar's dates in that month |
| MonthGrid.InMonthAbsent | vacation_schedule_generator.py:421-422 | a month that no date falls in has an empty group |
| MonthGrid.GroupsSnoc | vacation_schedule_generator.py:420-423 | one more day is appended to its month's list, which is opened when the month is new |
| MonthGrid.GroupByMonth | vacation_schedule_generator.py:417-423 | the loop builds the groups of the calendar's days |
| MonthGrid.MonthsFrom | vacation_schedule_generator.py:426 | lists the months from `m` on that occur, each once, in increasing order |
| MonthGrid.SortedMonths | vacation_schedule_generator.py:426 | `sorted(keys)` holds exactly the month keys, in increasing order |
| MonthGrid.AllMonthsFrom | vacation_schedule_generator.py:426 | when all months occur, they sort to January to December |
| MonthGrid.ColumnsAt | vacation_schedule_generator.py:464-469 | the column map holds exactly the visited dates, and with no repeats the p-th visited date is at `firstCol + p` |
| MonthGrid.SpansOfAt | vacation_schedule_generator.py:446-453 | the j-th merge is the j-th month, from the column after the earlier months' days to its own last day |
| MonthGrid.PlaceMonth | vacation_schedule_generator.py:464-469 | one month's days go to `current_col + i` in the column map |
| MonthGrid.AssignColumns | vacation_schedule_generator.py:443-502 | the layout loop records the spans, the column map and the final `current_col` of the visiting order |
| MonthGrid.YearInMonthPrefix | vacation_schedule_generator.py:417-423 | grouping the first `n` dates of a year keeps, per month, the part of its block among them |
| MonthGrid.YearGroup | vacation_schedule_generator.py:417-423 | in a year list, each month's group is the block of its own days |
| MonthGrid.YearGroupKeys | vacation_schedule_generator.py:417-423 | a year list has a group for each of the twelve months |
| MonthGrid.YearMonths | vacation_schedule_generator.py:417-426 | the month keys of a year list are exactly 1 to 12 |
| MonthGrid.YearFlat | vacation_schedule_generator.py:443-502 | laying out the first `j` months visits exactly the first `MonthStart(j + 1)` dates, in order |
| MonthGrid.YearDistinct | vacation_schedule_generator.py:114 | a year list repeats no date |
| MonthGrid.YearOrder | vacation_schedule_generator.py:426 | the sorted months of a year list are January to December |
| MonthGrid.YearFlatLengths | vacation_schedule_generator.py:443-502 | month `j + 1` is laid out after exactly the days before it, and the whole year is laid out |
| MonthGrid.YearSpans | vacation_schedule_generator.py:446-453 | month `j + 1` is merged from its first day's column to its last day's |
| MonthGrid.MonthSpansContiguous | vacation_schedule_generator.py:446-502 | each month span is `days in month` wide, and the spans follow each other without gap or overlap |
| MonthGrid.LayoutMonths | vacation_schedule_generator.py:417-502 | the whole pass is grouping, then sorting, then column assignment |
| MonthGrid.YearFlatAll | vacation_schedule_generator.py:443-502 | laying out a year month by month visits the year list itself |
| MonthGrid.YearColumns | vacation_schedule_generator.py:464-469 | the column map holds exactly the year's dates, each at `firstCol + ordinal` |
| MonthGrid.YearLayout | vacation_schedule_generator.py:417-502 | on a year list: twelve month spans at the month starts, each date at `firstCol + ordinal`, one column per day |
| MonthGrid.LayoutYear | vacation_schedule_generator.py:417-502 | the layout method run on a year list gives those spans and columns, and `current_col` one past the last day |
| MonthGrid.YearLayoutResult | vacation_schedule_generator.py:417-502 | the layout results on a year list are the month spans and the ordinal columns |
| ScheduleGenerator.ClassifyKind | vacation_schedule_generator.py:74-92 | holiday > pre_holiday > work_saturday > weekend (weekday ≥ 5) > workday, each iff the earlier tests fail |
| ScheduleGenerator.HolidayNames | vacation_schedule_generator.py:95-112 | a name is set iff the day is a holiday; every January holiday is "Новогодние каникулы"; "Рождество" is never produced |
| ScheduleGenerator.HolidayNameIntendedNamesChristmas | vacation_schedule_generator.py:95-112 | with the Christmas branch first, exactly 7 January is "Рождество" and the holidays are still exactly the named days |
| ScheduleGenerator.MakeDayInfo | vacation_schedule_generator.py:114-124 | the dict value holds the date, its weekday and type, and `is_working` iff it is neither a holiday nor a weekend |
| ScheduleGenerator.IsWorkingIff | vacation_schedule_generator.py:123 | working iff not a holiday and a pre-holiday, a working Saturday or Monday to Friday; a holiday name iff a holiday |
| ScheduleGenerator.PreHolidaySaturdayIsWorking | vacation_schedule_generator.py:78-92 | 7 March 2026 is a Saturday, yet it is 'pre_holiday' and working |
| ScheduleGenerator.GetRussianCalendar | vacation_schedule_generator.py:62-126 | the loop breaks past 2026, so the dict has one key per date of 2026 (365), in order, each with its value |
| ScheduleGenerator.OffsetDate | vacation_schedule_generator.py:66-68 | offset `i` is the day of ordinal `i`, or 1 January 2027 at 365 |
| ScheduleGenerator.AddDay | vacation_schedule_generator.py:114-124 | the date is appended to the insertion order and its dict entry is added |
| ScheduleGenerator.LayOutGrid | vacation_schedule_generator.py:417-497 | for any year's dates: twelve contiguous month titles at the month starts, each date at `3 + ordinal`, with its own dict value behind its column |
| ScheduleGenerator.CreateScheduleGrid | vacation_schedule_generator.py:417-533 | twelve month titles at the month starts, each `days in month` wide and contiguous, every date of 2026 at `3 + ordinal` with its own dict value (type, weekday) behind the column, `last_col` 367 |
| ScheduleGenerator.GridEntries | vacation_schedule_generator.py:464-478 | every date of the year is a key of the calendar dict with its own value |
| ScheduleGenerator.KindMarks | vacation_schedule_generator.py:386-490 | only holidays, pre-holidays and working Saturdays are marked, with different marks, and the five fills differ |
| ScheduleGenerator.DayTextOfCalendarDay | vacation_schedule_generator.py:481-492 | row 3 starts with the weekday name and carries a mark iff the day is in one of the tables |
| ScheduleGenerator.FormulaReadsOwnRow | vacation_schedule_generator.py:541-556 | schedule row `4 + k` reads employee row `3 + k`, in the columns where vacation `j` was written |
| VacationCreator.Offsets | vacation_creator.py:36-37 | the dates at offsets `0 .. n - 1` from the start |
| VacationCreator.GetRussianCalendar | vacation_creator.py:33-64 | 366 keys: the dates of 2026, then 1 January 2027, each with its entry |
| VacationCreator.AddEntry | vacation_creator.py:37-62 | one pass adds the date at offset `i` and its entry |
| VacationCreator.CalendarEntries | vacation_creator.py:56-62 | the dict holds exactly the listed dates, each with its own entry |
| VacationCreator.OffsetKeys | vacation_creator.py:36-37 | offsets 0 to `DaysInYear` are the year's dates followed by 1 January of the next year |
| VacationCreator.NextNewYearIsWorkday | vacation_creator.py:41-54 | 1 January 2027 is a Friday in no table, so it is a workday |
| VacationCreator.CreateCalendarSheet | vacation_creator.py:66-149 | groups, sorted months, spans and columns of the layout, and `current_col - 1` returned |
| VacationCreator.CreatorKeysSplit | vacation_creator.py:36-37 | the keys are the year's dates plus 1 January of the next year |
| VacationCreator.CreatorGroups | vacation_creator.py:76-81 | the groups are the year's groups with 1 January of the next year appended to January's |
| VacationCreator.CreatorJanuary | vacation_creator.py:76-81 | January's list holds 32 entries: 1 to 31 January, then 1 January of the next year |
| VacationCreator.CreatorMonths | vacation_creator.py:84 | the sorted months are January to December |
| VacationCreator.CreatorFlat | vacation_creator.py:95-147 | the first `j` months are laid out as the January days, the next year's 1 January, then the year's later days |
| VacationCreator.CreatorMonthGroup | vacation_creator.py:76-81 | each month from February on groups its own days of the year |
| VacationCreator.CreatorFlatAll | vacation_creator.py:95-147 | the full layout order has the extra day right after 31 January |
| VacationCreator.CreatorFlatLengths | vacation_creator.py:95-147 | after January, every month is laid out one day later than its place in the year |
| VacationCreator.CreatorSpans | vacation_creator.py:97-103 | January is merged over 32 columns, and every later month is shifted right by one |
| VacationCreator.CreatorColumns | vacation_creator.py:113-114 | 1 January of the next year is at column 34; January days are at `3 + ordinal`, later days at `4 + ordinal` |
| VacationCreator.CreatorLayout | vacation_creator.py:66-149 | on the 366 keys the sheet has the shifted spans and columns and returns `3 + DaysInYear` |
| VacationCreator.CreateGridAsWritten | vacation_creator.py:33-149 | as written: January spans columns 3 to 34, later months shift right by one, 368 is returned, and every key keeps its own entry (type, weekday) for its mark and fill |
| VacationCreator.YearSheet | vacation_creator.py:66-149 | on one year's dates, the sheet has the twelve month spans at the month starts and each day at `3 + ordinal` |
| VacationCreator.CreateGridIntended | vacation_creator.py:66-149 | with the calendar stopped at the year's end, the sheet has the month spans at the month starts, each day at `3 + ordinal`, and returns 367 |
| VacationCreator.CellStyleAgrees | vacation_creator.py:125-137 | the mark and fill are those of the generator's grid; the fills differ by type; only three types are marked |
| VacationCreator.GraphRowsMeetCalendar | vacation_creator.py:236-238 | employees 1 and 2 land on rows 2 and 3, the day-number and weekday rows |
| VacationCreator.GraphRowsClearCalendar | vacation_creator.py:198-250 | rows from 4 miss the calendar rows and are one per employee, with the stripe on every other employee |
| HeaderCalendar.Classify | vacation_scheduler.py:135-158 | holiday > preholiday > weekend > workday, each iff the earlier tests fail; there is no working Saturday |
| HeaderCalendar.HeaderCellMeaning | vacation_scheduler.py:143-158 | the cell shows "✶" iff a holiday, "◐" iff a non-holiday pre-holiday, else the weekday name; the four fills differ |
| HeaderCalendar.TableDays | vacation_scheduler.py:135-158 | 7 March 2026 (Saturday) is a pre-holiday; 9 January 2026 (Friday, in no table) is a workday |
| HeaderCalendar.NoWorkingSaturdays | vacation_scheduler.py:135-158 | no Saturday or Sunday is a workday |
| HeaderCalendar.AllDates | vacation_scheduler.py:16-23 | every date from 1 January to 31 December 2026, once each, in order (365) |
| HeaderCalendar.YearNeighbours | vacation_scheduler.py:21-23 | each date is the day after the previous one, and the month changes exactly at the 1st |
| HeaderCalendar.HeaderRowAt | vacation_scheduler.py:131-181 | the i-th date's cell is at column `5 + i` |
| HeaderCalendar.MonthRowAt | vacation_scheduler.py:164-176 | row 2 holds a month iff the month differs from the previous date's, and it is that date's month |
| HeaderCalendar.FirstColumnsKeys | vacation_scheduler.py:173-174 | `month_cols` holds exactly the months seen, at columns already passed |
| HeaderCalendar.FirstColumnsFirst | vacation_scheduler.py:173-174 | each month is recorded at the column of its first date |
| HeaderCalendar.MonthKeysOrdered | vacation_scheduler.py:173-184 | the keys of `month_cols` come in increasing column order |
| HeaderCalendar.AppendCell | vacation_scheduler.py:141-158 | row 1 gains the i-th date's cell |
| HeaderCalendar.LayOutHeader | vacation_scheduler.py:118-181 | the loop builds row 1, row 2, `month_cols` and its key order, and `col_index = 5 + number of dates` |
| HeaderCalendar.TrackMonth | vacation_scheduler.py:164-176 | one date's row-2 entry and `month_cols` update |
| HeaderCalendar.LastOfMonthMeaning | vacation_scheduler.py:192-200 | the found index is in the month with no later one in it, or -1 iff none is |
| HeaderCalendar.MergeEnd | vacation_scheduler.py:192-200 | the end column is the last column from the start whose date is in the month, or the start column |
| HeaderCalendar.MonthMerges | vacation_scheduler.py:184-206 | each month is merged from its column to its end column when the two differ |
| HeaderCalendar.YearMonthBounds | vacation_scheduler.py:184-200 | in the year, month `m` first occurs at `MonthStart(m)` and ends at `MonthStart(m + 1) - 1` |
| HeaderCalendar.YearFirstColumns | vacation_scheduler.py:173-174 | each recorded month sits at `5 + MonthStart(m)` |
| HeaderCalendar.YearMonthColumns | vacation_scheduler.py:164-174 | `month_cols` holds the twelve months, each at its first day's column |
| HeaderCalendar.YearKeysIncreasing | vacation_scheduler.py:184 | the keys of `month_cols` increase |
| HeaderCalendar.YearKeysMonths | vacation_scheduler.py:173-174 | the keys of `month_cols` are the twelve months |
| HeaderCalendar.YearMonthOrder | vacation_scheduler.py:184 | `month_cols.items()` visits January to December |
| HeaderCalendar.MergesOfMonths | vacation_scheduler.py:184-206 | with known month starts and ends, the merges are the month spans |
| HeaderCalendar.YearMonthRow | vacation_scheduler.py:164-176 | row 2 holds a month exactly at each 1st of a month |
| HeaderCalendar.YearMonthEnds | vacation_scheduler.py:184-200 | every month is recorded at its start and its search ends at its last day, more than one column later |
| HeaderCalendar.YearMonthMerges | vacation_scheduler.py:184-206 | the merges for 2026 are the twelve month spans |
| HeaderCalendar.CreateHeader | vacation_scheduler.py:16-206 | every 2026 date at `5 + i` with its cell, month labels exactly at the 1sts, `month_cols` at the month starts, and every month merged over its own columns |
| HeaderCalendar.HolidayTableDuplicate | vacation_scheduler.py:26-36 | the table has 15 entries with 7 January twice; its distinct dates are 14 |
| HeaderCalendar.CountedDatesMeaning | vacation_scheduler.py:342-343 | a comprehension keeps exactly the dates that pass its test |
| HeaderCalendar.CountsPartition | vacation_scheduler.py:342-343 | the workdays, the weekend days and the weekday holidays add up to all dates |
| HeaderCalendar.LegendOfYear | vacation_scheduler.py:341-344 | total 365; workdays plus weekends leave out the weekday holidays; 15 holidays reported where there are 14 |
| Grafic.ThirtyFirstText | grafic.py:188 | among day numbers 1 to 31, "31" occurs only in the text of 31 |
| Grafic.EndOfMonth | grafic.py:179-182 | `end_date_month` is a date of the month |
| Grafic.EndOfMonthIsLastDay | grafic.py:179-182 | it is the month's last day: the next day opens the next month, or the next year |
| Grafic.TestsAt | grafic.py:186-190 | the recorded outcome at index `k` is the test of column `5 + k` |
| Grafic.LastTrueMeaning | grafic.py:185-190 | the found index passes the test with no later one passing, or -1 |
| Grafic.LastTrueNone | grafic.py:185-190 | with no passing index the search finds none |
| Grafic.SearchEnd | grafic.py:185-190 | `end_col` ends at the last column that passes the test, or the start column |
| Grafic.TestColumn | grafic.py:188-190 | the two nested conditions are the test at one column |
| Grafic.MergeMonths | grafic.py:177-195 | each month is merged from its column to its end column when that is further right |
| Grafic.LeftoverPastEnd | grafic.py:189-190 | when the leftover date is after the month's end, the month keeps its start column |
| Grafic.YearFacts | grafic.py:124-174 | the leftover date is 31 December, and `month_cols` lists January to December at the month starts |
| Grafic.LeftoverMergesNone | grafic.py:177-195 | months that end before the leftover date are never merged |
| Grafic.LeftoverMergesBeforeDecember | grafic.py:177-195 | as written, January to November are never merged |
| Grafic.LeftoverDecemberEnd | grafic.py:185-192 | as written, December's search ends at column 369, the only day whose text contains "31" |
| Grafic.LeftoverMergesOfYear | grafic.py:177-195 | as written, the only merge is December, over columns 339 to 369 |
| Grafic.CreateCalendarHeader | grafic.py:16-195 | the header as written: the layout of vacation_scheduler.py and the single December merge |
| Grafic.ColumnDateEnd | grafic.py:185-190 | testing each column's own date, month `m`'s search ends at its last day |
| Grafic.ColumnMergesOfMonths | grafic.py:177-195 | with known ends, the merges of the months in order are the month spans |
| Grafic.ColumnDateEnds | grafic.py:177-190 | testing each column's own date, every month of 2026 ends before the next month's start |
| Grafic.ColumnMergesOfYear | grafic.py:177-195 | testing each column's own date, row 2 gets the twelve month spans |
| Grafic.CreateCalendarHeaderIntended | grafic.py:16-195 | with the column's own date, every month is merged over its own columns |

## Left out

- openpyxl styling (fonts, borders, widths, alignment, `freeze_panes`) and the `merge_cells` and `wb.save` calls are not modelled. The model keeps the computed columns, spans, symbols and colour codes, which are what those calls receive.
- The VBA macro bodies that the scripts emit as string literals are not modelled, because Python never runs them. That includes their vacation marking. The one fact taken from graf.py's macro is the column it uses, in `Graf.CreateDatesSheetAligned`.
- Excel formula strings and conditional formats are not modelled, because Excel evaluates them. Only the rows and columns they reference are modelled, in `ScheduleGenerator.FormulaReadsOwnRow`.
- Console prompts, printing, file-existence checks and timestamped file names are left out as console and file I/O.
- update_vacation_schedule.py (load, save and cell lookups of a workbook) is not part of this model.
- analyze_excel.py (a dump of a workbook's structure) is not part of this model.
- The employee, instruction and legend-text contents of the sheets are left out as fixed data with no logic.
- `datetime`, `calendar` and `pandas` are replaced by the `Calendar` module. Its leap-year rule is the Gregorian one.
- Graf.DayFill: models only the fill of rows 2 and 3. The data band fill is modelled separately, in `Graf.PaintDataBand`.
- The loops that put employee `i` on a fixed row (graf.py:391-392, vacation_schedule_generator.py:511, vacation_creator.py:236) are modelled by that row as a function of `i` (`Graf.EmployeeRow`, `ScheduleGenerator.ScheduleRow`, `VacationCreator.GraphRowAsWritten`), because the rest of each iteration writes only fixed text and styles. The legend's list comprehensions (vacation_scheduler.py:342-343) are the function `HeaderCalendar.CountedDates`.
- Grafic.TestColumn: the test that the row-1 cell holds a value is left out, because every date column's cell holds a non-empty text. The first line of that text is `str(day)`, modelled as `DecimalString(day)`.
- HeaderCalendar.LayOutHeader: a row-2 label is modelled as the month number (`Option<int>`), and `MonthName` gives its text. A row-1 cell is modelled as its day number and mark, and `MarkText` renders the mark.
- VacationCreator.CreateCalendarSheet: groups the dict's keys rather than its values. Each value's `month` is the month of its key, so the groups are the same. The source keeps no date-to-column map here; `columnOf` records the column each day is written to.
- The month title texts and the month title colours of each script are left out as fixed lookup tables that feed only styling.
- ScheduleGenerator.MakeDayInfo: `holiday_name` is kept as written. The corrected order lives only in `HolidayNameIntended`.

## Findings

| source | as written | input that shows it | evidently intended | confidence | as-written member | corrected member |
|---|---|---|---|---|---|---|
| vacation_creator.py:36 | `for i in range(366)` with no year check adds 1 January 2027 to the calendar, and it joins January's group | 2026, a year of 365 days | one entry per date of 2026, as vacation_schedule_generator.py:67-68 stops | high, not executed | VacationCreator.CreateGridAsWritten | VacationCreator.CreateGridIntended |
| grafic.py:188-189 | the merge search compares the leftover loop variable `date` (31 December), not the column's date | January: 31 December is after 31 January, so no column passes and January is not merged | each month merged over its own columns, as vacation_scheduler.py:192-200 does | high, not executed | Grafic.LeftoverMergesOfYear | Grafic.CreateCalendarHeaderIntended |
| graf.py:433-434 | the hidden date sheet starts at column A, while the schedule starts at column C, and the macro takes the date sheet's column as the schedule column | 1 January: found in column A, which is the schedule's "№" column | dates at their schedule columns, from column C | medium, not executed | Graf.CreateDatesSheetAsWritten | Graf.CreateDatesSheetAligned |
| vacation_scheduler.py:28-29 | 7 January is listed twice, and `len(holidays)` is reported as the holiday count | the table: 15 entries, 14 distinct dates | 14 holidays | medium, not executed | HeaderCalendar.HolidayTableDuplicate | HeaderCalendar.LegendOfYear |
| vacation_creator.py:236 | employees on "ГРАФИК" start at row 2, which holds the day numbers; row 3 holds the weekday texts | employees 1 and 2: rows 2 and 3 | employees below the three calendar rows, from row 4, as vacation_schedule_generator.py:511 does | medium, not executed | VacationCreator.GraphRowsMeetCalendar | VacationCreator.GraphRowsClearCalendar |
| vacation_schedule_generator.py:97-100 | the test `day <= 9` comes before the test `day == 7`, so the Christmas branch is never taken | 7 January 2026: named "Новогодние каникулы" | 7 January named "Рождество" | medium, not executed | ScheduleGenerator.HolidayNames | ScheduleGenerator.HolidayNameIntendedNamesChristmas |
