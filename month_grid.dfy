/** The month-grouped column layout that vacation_schedule_generator.py
 *  (`create_dynamic_vacation_schedule`) and vacation_creator.py
 *  (`create_calendar_sheet`) carry as two copies of the same code: the
 *  calendar's days are grouped into per-month lists in the calendar's order,
 *  the months are sorted, and a running `current_col` gives every day a
 *  column, month after month. The calendar is a dict keyed by date; the
 *  layout only looks at its keys, in insertion order. */
module MonthGrid {
  import opened Calendar

  /** The dates of `s` in month `m`, in the order of `s`: what the grouping
   *  loop leaves in `months_data[m]`. */
  function InMonth(s: seq<Date>, m: int): seq<Date> {
    if s == [] then []
    else InMonth(s[..|s| - 1], m) + (if s[|s| - 1].month == m then [s[|s| - 1]] else [])
  }

  /** The months that occur in `s`: the keys of `months_data`. */
  function MonthsOf(s: seq<Date>): set<int> {
    set d | d in s :: d.month
  }

  /** What the grouping loop builds from `s`. */
  function Groups(s: seq<Date>): map<int, seq<Date>> {
    map m | m in MonthsOf(s) :: InMonth(s, m)
  }

  lemma {:induction false} InMonthAppend(a: seq<Date>, b: seq<Date>, m: int)
    ensures InMonth(a + b, m) == InMonth(a, m) + InMonth(b, m)
    decreases |b|
  {
    if b == [] {
      assert a + b == a;
    } else {
      assert (a + b)[..|a + b| - 1] == a + b[..|b| - 1];
      InMonthAppend(a, b[..|b| - 1], m);
    }
  }

  /** A month that does not occur has an empty group; every element of a
   *  group is a date of `s` in that month. */
  lemma {:induction false} InMonthElements(s: seq<Date>, m: int)
    ensures forall d :: d in InMonth(s, m) <==> d in s && d.month == m
  {
    if s != [] {
      InMonthElements(s[..|s| - 1], m);
      assert s == s[..|s| - 1] + [s[|s| - 1]];
    }
  }

  lemma InMonthSingle(x: Date, m: int)
    ensures InMonth([x], m) == if x.month == m then [x] else []
  {
    assert [x][..0] == [];
  }

  /** A month that no date of `s` falls in has an empty group. */
  lemma InMonthAbsent(s: seq<Date>, m: int)
    requires m !in MonthsOf(s)
    ensures InMonth(s, m) == []
  {
    InMonthElements(s, m);
  }

  lemma MonthsOfSnoc(s: seq<Date>, x: Date)
    ensures MonthsOf(s + [x]) == MonthsOf(s) + {x.month}
  {
    forall m | m in MonthsOf(s + [x])
      ensures m in MonthsOf(s) + {x.month}
    {
      var d :| d in s + [x] && d.month == m;
      if d != x {
        assert d in s;
      }
    }
    forall m | m in MonthsOf(s)
      ensures m in MonthsOf(s + [x])
    {
      var d :| d in s && d.month == m;
      assert d in s + [x];
    }
    assert x in s + [x];
  }

  /** Appending a date appends it to its month's group, opening the group
   *  when the month is new. */
  lemma GroupsSnoc(s: seq<Date>, x: Date)
    ensures Groups(s + [x]) ==
            Groups(s)[x.month := (if x.month in Groups(s) then Groups(s)[x.month] else []) + [x]]
  {
    MonthsOfSnoc(s, x);
    if x.month !in MonthsOf(s) {
      InMonthAbsent(s, x.month);
    }
    var g, g' := Groups(s), Groups(s + [x]);
    var h := g[x.month := (if x.month in g then g[x.month] else []) + [x]];
    assert g'.Keys == h.Keys;
    forall m | m in g'
      ensures g'[m] == h[m]
    {
      InMonthAppend(s, [x], m);
      InMonthSingle(x, m);
    }
  }

  /** The grouping loop: `months_data[month].append(day_info)` for each day
   *  of the calendar, creating a month's list on first sight. */
  method GroupByMonth(s: seq<Date>) returns (groups: map<int, seq<Date>>)
    ensures groups == Groups(s)
  {
    groups := map[];
    assert s[..0] == [];
    for i := 0 to |s|
      invariant groups == Groups(s[..i])
    {
      var m := s[i].month;
      assert s[..i + 1] == s[..i] + [s[i]];
      GroupsSnoc(s[..i], s[i]);
      if m !in groups {
        groups := groups[m := []];
      }
      groups := groups[m := groups[m] + [s[i]]];
    }
    assert s[..|s|] == s;
  }

  /** The months from `m` to 12 that are in `keys`, in increasing order. */
  function MonthsFrom(keys: set<int>, m: int): (order: seq<int>)
    requires 1 <= m <= 13
    ensures forall i :: 0 <= i < |order| ==> order[i] in keys && m <= order[i] <= 12
    ensures forall x :: x in keys && m <= x <= 12 ==> x in order
    ensures forall i, j :: 0 <= i < j < |order| ==> order[i] < order[j]
    decreases 13 - m
  {
    if m == 13 then []
    else (if m in keys then [m] else []) + MonthsFrom(keys, m + 1)
  }

  /** `sorted(months.keys())` for month numbers (the keys are always
   *  months, so nothing outside 1..12 is dropped). */
  function SortedMonths(keys: set<int>): (order: seq<int>)
    ensures forall m :: m in order <==> m in keys && 1 <= m <= 12
    ensures forall i, j :: 0 <= i < j < |order| ==> order[i] < order[j]
  {
    MonthsFrom(keys, 1)
  }

  /** January to December. */
  const AllMonths: seq<int> := seq(12, i => i + 1)

  /** When every month from `m` on occurs, they are listed in full. */
  lemma {:induction false} AllMonthsFrom(keys: set<int>, m: int)
    requires 1 <= m <= 13
    requires forall x :: m <= x <= 12 ==> x in keys
    ensures MonthsFrom(keys, m) == AllMonths[m - 1..]
    decreases 13 - m
  {
    if m < 13 {
      AllMonthsFrom(keys, m + 1);
      assert AllMonths[m - 1..] == [m] + AllMonths[m..];
    }
  }

  /** The days of the months of `order`, month after month: the order in
   *  which the layout loop visits them. */
  function Flat(order: seq<int>, groups: map<int, seq<Date>>): seq<Date>
    requires forall i :: 0 <= i < |order| ==> order[i] in groups
  {
    if order == [] then []
    else Flat(order[..|order| - 1], groups) + groups[order[|order| - 1]]
  }

  lemma {:induction false} FlatSnoc(order: seq<int>, j: int, groups: map<int, seq<Date>>)
    requires forall i :: 0 <= i < |order| ==> order[i] in groups
    requires 0 <= j < |order|
    ensures Flat(order[..j + 1], groups) == Flat(order[..j], groups) + groups[order[j]]
  {
    assert order[..j + 1][..j] == order[..j];
  }

  /** `date_column_map` as the layout loop fills it from the visiting order
   *  `s`, starting at `firstCol`: a later occurrence of a date overwrites an
   *  earlier one, as a dict assignment does. */
  function Columns(s: seq<Date>, firstCol: int): map<Date, int> {
    if s == [] then map[]
    else Columns(s[..|s| - 1], firstCol)[s[|s| - 1] := firstCol + |s| - 1]
  }

  ghost predicate Distinct(s: seq<Date>) {
    forall i, j :: 0 <= i < j < |s| ==> s[i] != s[j]
  }

  /** The column map has a column for exactly the visited dates, and when no
   *  date is visited twice, the p-th visited date sits in column
   *  `firstCol + p`. */
  lemma {:induction false} ColumnsAt(s: seq<Date>, firstCol: int)
    ensures forall d :: d in Columns(s, firstCol) <==> d in s
    ensures Distinct(s) ==> forall p :: 0 <= p < |s| ==> Columns(s, firstCol)[s[p]] == firstCol + p
  {
    if s != [] {
      var t := s[..|s| - 1];
      ColumnsAt(t, firstCol);
      assert s == t + [s[|s| - 1]];
      if Distinct(s) {
        assert Distinct(t);
        forall p | 0 <= p < |s| - 1
          ensures Columns(s, firstCol)[s[p]] == firstCol + p
        {
          assert s[p] == t[p];
        }
      }
    }
  }

  /** Row-1 merge of one month: `month` over columns `first..last`. */
  datatype Span = Span(month: int, first: int, last: int)

  /** The merges recorded for the months of `order`: each month from the
   *  column after the months before it, `len(month_days)` columns wide. */
  function SpansOf(order: seq<int>, groups: map<int, seq<Date>>, firstCol: int): seq<Span>
    requires forall i :: 0 <= i < |order| ==> order[i] in groups
  {
    if order == [] then []
    else SpansOf(order[..|order| - 1], groups, firstCol) +
         [Span(order[|order| - 1], firstCol + |Flat(order[..|order| - 1], groups)|,
               firstCol + |Flat(order, groups)| - 1)]
  }

  /** The j-th merge is the j-th month of `order`, starting right after the
   *  days of the months before it and ending with the month's last day. */
  lemma {:induction false} SpansOfAt(order: seq<int>, groups: map<int, seq<Date>>, firstCol: int)
    requires forall i :: 0 <= i < |order| ==> order[i] in groups
    ensures |SpansOf(order, groups, firstCol)| == |order|
    ensures forall j :: 0 <= j < |order| ==>
              SpansOf(order, groups, firstCol)[j] ==
              Span(order[j], firstCol + |Flat(order[..j], groups)|, firstCol + |Flat(order[..j + 1], groups)| - 1)
  {
    if order != [] {
      var n := |order| - 1;
      SpansOfAt(order[..n], groups, firstCol);
      forall j | 0 <= j < |order|
        ensures SpansOf(order, groups, firstCol)[j] ==
                Span(order[j], firstCol + |Flat(order[..j], groups)|, firstCol + |Flat(order[..j + 1], groups)| - 1)
      {
        SpanOfPrefix(order, order[..n], groups, firstCol, j);
      }
    }
  }

  lemma SpanOfPrefix(order: seq<int>, pre: seq<int>, groups: map<int, seq<Date>>, firstCol: int, j: int)
    requires forall i :: 0 <= i < |order| ==> order[i] in groups
    requires 0 <= j < |order| && pre == order[..|order| - 1]
    requires |SpansOf(pre, groups, firstCol)| == |pre|
    requires forall i :: 0 <= i < |pre| ==>
               SpansOf(pre, groups, firstCol)[i] ==
               Span(pre[i], firstCol + |Flat(pre[..i], groups)|, firstCol + |Flat(pre[..i + 1], groups)| - 1)
    ensures SpansOf(order, groups, firstCol)[j] ==
            Span(order[j], firstCol + |Flat(order[..j], groups)|, firstCol + |Flat(order[..j + 1], groups)| - 1)
  {
    if j < |pre| {
      assert pre[..j] == order[..j];
      assert pre[..j + 1] == order[..j + 1];
    } else {
      assert order[..j + 1] == order;
    }
  }

  /** The inner loop of the layout: the days of one month go to
   *  `current_col + i`. */
  method PlaceMonth(columnOf: map<Date, int>, ghost done: seq<Date>, monthDays: seq<Date>,
                    firstCol: int, currentCol: int)
    returns (columnOf': map<Date, int>)
    requires columnOf == Columns(done, firstCol)
    requires currentCol == firstCol + |done|
    ensures columnOf' == Columns(done + monthDays, firstCol)
  {
    columnOf' := columnOf;
    assert done + monthDays[..0] == done;
    for i := 0 to |monthDays|
      invariant columnOf' == Columns(done + monthDays[..i], firstCol)
    {
      assert (done + monthDays[..i + 1])[..|done| + i] == done + monthDays[..i];
      columnOf' := columnOf'[monthDays[i] := currentCol + i];
    }
    assert monthDays[..|monthDays|] == monthDays;
  }

  /** The layout loop: for each month in `order`, its days go to
   *  `current_col + i`, the month title is merged over
   *  `current_col .. current_col + len(month_days) - 1`, and `current_col`
   *  moves past the month. `columnOf` is `date_column_map`. */
  method AssignColumns(order: seq<int>, groups: map<int, seq<Date>>, firstCol: int)
    returns (spans: seq<Span>, columnOf: map<Date, int>, currentCol: int)
    requires forall i :: 0 <= i < |order| ==> order[i] in groups
    ensures spans == SpansOf(order, groups, firstCol)
    ensures currentCol == firstCol + |Flat(order, groups)|
    ensures columnOf == Columns(Flat(order, groups), firstCol)
  {
    spans, columnOf, currentCol := [], map[], firstCol;
    for j := 0 to |order|
      invariant spans == SpansOf(order[..j], groups, firstCol)
      invariant currentCol == firstCol + |Flat(order[..j], groups)|
      invariant columnOf == Columns(Flat(order[..j], groups), firstCol)
    {
      ghost var done := Flat(order[..j], groups);
      var monthDays := groups[order[j]];
      FlatSnoc(order, j, groups);
      assert order[..j + 1][..j] == order[..j];
      spans := spans + [Span(order[j], currentCol, currentCol + |monthDays| - 1)];
      columnOf := PlaceMonth(columnOf, done, monthDays, firstCol, currentCol);
      currentCol := currentCol + |monthDays|;
    }
    assert order[..|order|] == order;
  }

  function Min(a: int, b: int): int {
    if a <= b then a else b
  }

  /** The months of a year sequence end within the year. */
  lemma MonthBlock(y: int, m: int)
    requires 1 <= m <= 12
    ensures 0 <= MonthStart(y, m) <= MonthStart(y, m + 1) <= DaysInYear(y)
  {
    MonthStartMonotone(y, m + 1, 13);
    MonthStartOfYearEnd(y);
  }

  /** One more date extends a month's group exactly when it falls in the
   *  month's block `lo..hi`. */
  lemma InMonthPrefixStep(s: seq<Date>, m: int, n: int, lo: int, hi: int)
    requires 0 < n <= |s| && 0 <= lo <= hi
    requires InMonth(s[..n - 1], m) == s[Min(lo, n - 1)..Min(hi, n - 1)]
    requires s[n - 1].month == m <==> lo <= n - 1 < hi
    ensures InMonth(s[..n], m) == s[Min(lo, n)..Min(hi, n)]
  {
    assert s[..n][..n - 1] == s[..n - 1];
    if lo <= n - 1 < hi {
      assert s[lo..n] == s[lo..n - 1] + [s[n - 1]];
    }
  }

  /** Grouping the first `n` dates of a year sequence keeps, for month `m`,
   *  the part of that month's block among them. */
  lemma {:induction false} YearInMonthPrefix(s: seq<Date>, y: int, m: int, n: int)
    requires IsYearOf(s, y) && 1 <= m <= 12 && 0 <= n <= |s|
    ensures 0 <= MonthStart(y, m) <= MonthStart(y, m + 1) <= |s|
    ensures InMonth(s[..n], m) == s[Min(MonthStart(y, m), n)..Min(MonthStart(y, m + 1), n)]
  {
    MonthBlock(y, m);
    if n > 0 {
      YearInMonthPrefix(s, y, m, n - 1);
      MonthOfOrdinal(s[n - 1], m);
      InMonthPrefixStep(s, m, n, MonthStart(y, m), MonthStart(y, m + 1));
    }
  }

  /** In a year sequence, month `m` is grouped, and its group is the block
   *  of its own days. */
  lemma YearGroup(s: seq<Date>, y: int, m: int)
    requires IsYearOf(s, y) && 1 <= m <= 12
    ensures 0 <= MonthStart(y, m) <= MonthStart(y, m + 1) <= |s|
    ensures m in Groups(s) && Groups(s)[m] == s[MonthStart(y, m)..MonthStart(y, m + 1)]
  {
    YearMember(s, y, Date(y, m, 1));
    assert Date(y, m, 1).month == m;
    YearInMonthPrefix(s, y, m, |s|);
    assert s[..|s|] == s;
  }

  /** Grouping a year sequence gives a group for each month of the year. */
  lemma YearGroupKeys(s: seq<Date>, y: int)
    requires IsYearOf(s, y)
    ensures forall i :: 0 <= i < 12 ==> AllMonths[i] in Groups(s)
  {
    forall i | 0 <= i < 12
      ensures AllMonths[i] in Groups(s)
    {
      YearMember(s, y, Date(y, i + 1, 1));
      assert Date(y, i + 1, 1).month == AllMonths[i];
    }
  }

  /** Grouping a year sequence gives the twelve months and no other. */
  lemma YearMonths(s: seq<Date>, y: int)
    requires IsYearOf(s, y)
    ensures forall m :: m in MonthsOf(s) <==> 1 <= m <= 12
  {
    forall m | 1 <= m <= 12
      ensures m in MonthsOf(s)
    {
      YearMember(s, y, Date(y, m, 1));
    }
    forall m | m in MonthsOf(s)
      ensures 1 <= m <= 12
    {
      var d :| d in s && d.month == m;
      YearMember(s, y, d);
    }
  }

  lemma SliceJoin(s: seq<Date>, b: int, c: int)
    requires 0 <= b <= c <= |s|
    ensures s[..c] == s[..b] + s[b..c]
  {
  }

  /** Laying out the first `j` months of a year sequence visits exactly
   *  its first `MonthStart(y, j + 1)` dates, in order. */
  lemma {:induction false} YearFlat(s: seq<Date>, y: int, j: int)
    requires IsYearOf(s, y) && 0 <= j <= 12
    ensures forall i :: 0 <= i < 12 ==> AllMonths[i] in Groups(s)
    ensures 0 <= MonthStart(y, j + 1) <= |s|
    ensures Flat(AllMonths[..j], Groups(s)) == s[..MonthStart(y, j + 1)]
  {
    YearGroupKeys(s, y);
    MonthStartMonotone(y, j + 1, 13);
    MonthStartOfYearEnd(y);
    if j > 0 {
      YearFlat(s, y, j - 1);
      var g := Groups(s);
      FlatSnoc(AllMonths, j - 1, g);
      assert AllMonths[j - 1] == j;
      YearGroup(s, y, j);
      SliceJoin(s, MonthStart(y, j), MonthStart(y, j + 1));
    }
  }

  /** No date occurs twice in a year sequence. */
  lemma YearDistinct(s: seq<Date>, y: int)
    requires IsYearOf(s, y)
    ensures Distinct(s)
  {
  }

  /** The months of a year sequence, sorted, are January to December. */
  lemma YearOrder(s: seq<Date>, y: int)
    requires IsYearOf(s, y)
    ensures forall m :: m in MonthsOf(s) ==> 1 <= m <= 12
    ensures SortedMonths(MonthsOf(s)) == AllMonths
  {
    YearMonths(s, y);
    AllMonthsFrom(MonthsOf(s), 1);
  }

  lemma MonthsInRange(keys: seq<Date>)
    requires forall k :: 0 <= k < |keys| ==> 1 <= keys[k].month <= 12
    ensures Groups(keys).Keys == MonthsOf(keys)
    ensures forall m :: m in MonthsOf(keys) ==> 1 <= m <= 12
  {
    forall m | m in MonthsOf(keys)
      ensures 1 <= m <= 12
    {
      var d :| d in keys && d.month == m;
      var k :| 0 <= k < |keys| && keys[k] == d;
    }
  }

  /** The layout of a year sequence: month `j + 1` is visited after exactly
   *  `MonthStart(y, j + 1)` earlier days, and the whole year is visited. */
  lemma YearFlatLengths(s: seq<Date>, y: int)
    requires IsYearOf(s, y)
    ensures forall i :: 0 <= i < 12 ==> AllMonths[i] in Groups(s)
    ensures forall j :: 0 <= j <= 12 ==> |Flat(AllMonths[..j], Groups(s))| == MonthStart(y, j + 1)
    ensures |Flat(AllMonths, Groups(s))| == DaysInYear(y)
  {
    YearFlat(s, y, 0);
    forall j | 0 <= j <= 12
      ensures |Flat(AllMonths[..j], Groups(s))| == MonthStart(y, j + 1)
    {
      YearFlat(s, y, j);
    }
    assert AllMonths[..12] == AllMonths;
    MonthStartOfYearEnd(y);
  }

  /** The spans the layout records for a year: month `j + 1` from
   *  `firstCol` plus the days before it to the column before the next
   *  month. */
  lemma YearSpans(s: seq<Date>, y: int, firstCol: int)
    requires IsYearOf(s, y)
    ensures forall i :: 0 <= i < 12 ==> AllMonths[i] in Groups(s)
    ensures |SpansOf(AllMonths, Groups(s), firstCol)| == 12
    ensures forall j :: 0 <= j < 12 ==>
              SpansOf(AllMonths, Groups(s), firstCol)[j] ==
              Span(j + 1, firstCol + MonthStart(y, j + 1), firstCol + MonthStart(y, j + 2) - 1)
  {
    YearFlatLengths(s, y);
    MonthSpans(y, firstCol, Groups(s));
  }

  lemma MonthSpans(y: int, firstCol: int, groups: map<int, seq<Date>>)
    requires forall i :: 0 <= i < 12 ==> AllMonths[i] in groups
    requires forall j :: 0 <= j <= 12 ==> |Flat(AllMonths[..j], groups)| == MonthStart(y, j + 1)
    ensures |SpansOf(AllMonths, groups, firstCol)| == 12
    ensures forall j :: 0 <= j < 12 ==>
              SpansOf(AllMonths, groups, firstCol)[j] ==
              Span(j + 1, firstCol + MonthStart(y, j + 1), firstCol + MonthStart(y, j + 2) - 1)
  {
    SpansOfAt(AllMonths, groups, firstCol);
    forall j | 0 <= j < 12
      ensures SpansOf(AllMonths, groups, firstCol)[j] ==
              Span(j + 1, firstCol + MonthStart(y, j + 1), firstCol + MonthStart(y, j + 2) - 1)
    {
      assert AllMonths[j] == j + 1;
      assert |Flat(AllMonths[..j], groups)| == MonthStart(y, j + 1);
      assert |Flat(AllMonths[..j + 1], groups)| == MonthStart(y, j + 2);
    }
  }

  /** `spans` are the twelve month merges of year `y` laid out from
   *  `firstCol`: month `j + 1` from the column of its first day to the
   *  column of its last. */
  ghost predicate YearMonthSpans(spans: seq<Span>, y: int, firstCol: int) {
    && |spans| == 12
    && forall j :: 0 <= j < 12 ==>
         spans[j] == Span(j + 1, firstCol + MonthStart(y, j + 1), firstCol + MonthStart(y, j + 2) - 1)
  }

  /** Month spans placed at the month starts cover one column per day of the
   *  month and follow each other without gap or overlap. */
  lemma MonthSpansContiguous(y: int, firstCol: int, spans: seq<Span>)
    requires YearMonthSpans(spans, y, firstCol)
    ensures forall j :: 0 <= j < 12 ==> spans[j].last - spans[j].first + 1 == DaysInMonth(y, j + 1)
    ensures forall j :: 0 <= j < 11 ==> spans[j + 1].first == spans[j].last + 1
  {
  }

  /** The whole layout pass over the calendar's keys: group by month, sort
   *  the months, assign columns from `firstCol`. */
  method LayoutMonths(keys: seq<Date>, firstCol: int)
    returns (order: seq<int>, groups: map<int, seq<Date>>, spans: seq<Span>, columnOf: map<Date, int>, currentCol: int)
    requires forall k :: 0 <= k < |keys| ==> 1 <= keys[k].month <= 12
    ensures groups == Groups(keys)
    ensures order == SortedMonths(MonthsOf(keys))
    ensures forall i :: 0 <= i < |order| ==> order[i] in groups
    ensures spans == SpansOf(order, groups, firstCol)
    ensures currentCol == firstCol + |Flat(order, groups)|
    ensures columnOf == Columns(Flat(order, groups), firstCol)
  {
    groups := GroupByMonth(keys);
    MonthsInRange(keys);
    order := SortedMonths(groups.Keys);
    spans, columnOf, currentCol := AssignColumns(order, groups, firstCol);
  }

  /** Laying out a year sequence month after month visits the sequence
   *  itself. */
  lemma YearFlatAll(s: seq<Date>, y: int)
    requires IsYearOf(s, y)
    ensures forall i :: 0 <= i < 12 ==> AllMonths[i] in Groups(s)
    ensures Flat(AllMonths, Groups(s)) == s
  {
    YearFlat(s, y, 12);
    MonthStartOfYearEnd(y);
    assert AllMonths[..12] == AllMonths;
    assert s[..|s|] == s;
  }

  /** Numbering the dates of a year sequence from `firstCol` gives every
   *  date of the year, and no other, the column `firstCol` plus its
   *  ordinal. */
  lemma YearColumns(s: seq<Date>, y: int, firstCol: int)
    requires IsYearOf(s, y)
    ensures forall d :: d in Columns(s, firstCol) <==> ValidDate(d) && d.year == y
    ensures forall d :: ValidDate(d) && d.year == y ==> Columns(s, firstCol)[d] == firstCol + Ordinal(d)
  {
    YearDistinct(s, y);
    ColumnsAt(s, firstCol);
    forall d | ValidDate(d) && d.year == y
      ensures d in s && Columns(s, firstCol)[d] == firstCol + Ordinal(d)
    {
      YearTotal(s, y, d);
    }
    forall d | d in s
      ensures ValidDate(d) && d.year == y
    {
      YearMember(s, y, d);
    }
  }

  /** What laying out the months of a year sequence in calendar order gives:
   *  twelve month spans at the month starts, each date at `firstCol` plus
   *  its ordinal, and one column per day of the year. */
  lemma YearLayout(keys: seq<Date>, y: int, firstCol: int)
    requires IsYearOf(keys, y)
    ensures forall i :: 0 <= i < 12 ==> AllMonths[i] in Groups(keys)
    ensures |SpansOf(AllMonths, Groups(keys), firstCol)| == 12
    ensures forall j :: 0 <= j < 12 ==>
              SpansOf(AllMonths, Groups(keys), firstCol)[j] ==
              Span(j + 1, firstCol + MonthStart(y, j + 1), firstCol + MonthStart(y, j + 2) - 1)
    ensures forall d :: d in Columns(Flat(AllMonths, Groups(keys)), firstCol) <==> ValidDate(d) && d.year == y
    ensures forall d :: ValidDate(d) && d.year == y ==>
              Columns(Flat(AllMonths, Groups(keys)), firstCol)[d] == firstCol + Ordinal(d)
    ensures |Flat(AllMonths, Groups(keys))| == DaysInYear(y)
  {
    YearFlatAll(keys, y);
    YearSpans(keys, y, firstCol);
    YearColumns(keys, y, firstCol);
  }

  /** The layout pass over the dates of one year: twelve month spans at the
   *  month starts, each date at `firstCol` plus its ordinal. */
  method LayoutYear(keys: seq<Date>, y: int, firstCol: int)
    returns (spans: seq<Span>, columnOf: map<Date, int>, currentCol: int)
    requires IsYearOf(keys, y)
    ensures YearMonthSpans(spans, y, firstCol)
    ensures forall d :: d in columnOf <==> ValidDate(d) && d.year == y
    ensures forall d :: ValidDate(d) && d.year == y ==> columnOf[d] == firstCol + Ordinal(d)
    ensures currentCol == firstCol + DaysInYear(y)
  {
    var groups := GroupByMonth(keys);
    YearMonthsInRange(keys, y);
    MonthsInRange(keys);
    var order := SortedMonths(groups.Keys);
    YearOrder(keys, y);
    assert order == AllMonths;
    YearFlatAll(keys, y);
    assert Flat(order, groups) == keys;
    spans, columnOf, currentCol := AssignColumns(order, groups, firstCol);
    YearLayoutResult(keys, y, firstCol, spans, columnOf, currentCol);
  }

  lemma YearMonthsInRange(keys: seq<Date>, y: int)
    requires IsYearOf(keys, y)
    ensures forall k :: 0 <= k < |keys| ==> 1 <= keys[k].month <= 12
  {
  }

  /** What the layout pass returns on the dates of one year. */
  lemma YearLayoutResult(keys: seq<Date>, y: int, firstCol: int,
                         spans: seq<Span>, columnOf: map<Date, int>, currentCol: int)
    requires IsYearOf(keys, y)
    requires forall i :: 0 <= i < 12 ==> AllMonths[i] in Groups(keys)
    requires spans == SpansOf(AllMonths, Groups(keys), firstCol)
    requires currentCol == firstCol + |keys|
    requires columnOf == Columns(keys, firstCol)
    ensures YearMonthSpans(spans, y, firstCol)
    ensures forall d :: d in columnOf <==> ValidDate(d) && d.year == y
    ensures forall d :: ValidDate(d) && d.year == y ==> columnOf[d] == firstCol + Ordinal(d)
    ensures currentCol == firstCol + DaysInYear(y)
  {
    YearColumns(keys, y, firstCol);
    YearSpans(keys, y, firstCol);
  }
}
