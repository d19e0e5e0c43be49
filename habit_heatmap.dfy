/** The calendar heat map: the colour of a day cell, the value it is coloured by, the month
    arithmetic of the grid, the cells of the year and month views, and the tooltip counts.
    Completion data maps each day to its completion record (habit id to value). */
module HabitHeatmap {
  import opened Dates
  import opened Habits
  import opened Numeric
  import opened DayCompletionPopover

  // ----- Cell colours -----

  const Empty: string := "bg-muted hover:bg-muted/80"
  const Light: string := "bg-accent/30 hover:bg-accent/40"
  const Medium: string := "bg-accent/50 hover:bg-accent/60"
  const Dark: string := "bg-accent/80 hover:bg-accent/90"

  /** The four shades from the lightest to the darkest. */
  const Shades: seq<string> := [Empty, Light, Medium, Dark]

  /** The number of thresholds (not 0, at least 0.5, at least 0.8) a value passes. NaN
      fails every comparison, so it falls through to the darkest shade. */
  function Shade(v: Number): (s: nat)
    ensures s < 4
  {
    match v
    case NaN => 3
    case Finite(x) =>
      (if x != 0.0 then 1 else 0) + (if x >= 0.5 then 1 else 0) + (if x >= 0.8 then 1 else 0)
  }

  /** `getCellColor`: the shade for exactly 0, below 0.5, below 0.8, and the rest. */
  function GetCellColor(v: Number): (color: string)
    ensures color == Shades[Shade(v)]
  {
    match v
    case NaN => Dark
    case Finite(x) =>
      if x == 0.0 then Empty
      else if x < 0.5 then Light
      else if x < 0.8 then Medium
      else Dark
  }

  /** A higher non-negative value is never lighter. */
  lemma ShadeMonotone(x: real, y: real)
    requires 0.0 <= x <= y
    ensures Shade(Finite(x)) <= Shade(Finite(y))
  {
  }

  /** The four shades are distinct, so a cell's colour tells its bucket. */
  lemma ShadesDistinct(v: Number, w: Number)
    ensures GetCellColor(v) == GetCellColor(w) <==> Shade(v) == Shade(w)
  {
  }

  // ----- The value of a cell -----

  /** The sum of a record's values. */
  function SumValues(r: Record): real {
    if r == [] then 0.0 else SumValues(r[..|r| - 1]) + r[|r| - 1].value
  }

  lemma {:induction false} SumValuesBounds(r: Record)
    requires forall i :: 0 <= i < |r| ==> 0.0 <= r[i].value <= 1.0
    ensures 0.0 <= SumValues(r) <= |r| as real
  {
    if r != [] {
      SumValuesBounds(r[..|r| - 1]);
    }
  }

  lemma {:induction false} SumValuesAllOnes(r: Record)
    requires forall i :: 0 <= i < |r| ==> r[i].value == 1.0
    ensures SumValues(r) == |r| as real
  {
    if r != [] {
      SumValuesAllOnes(r[..|r| - 1]);
    }
  }

  /** `getCompletionValue`: 0 for a day without a record; for `'all'` the mean of the day's
      values, which is 0 / 0 = NaN for an empty record; for one habit its value, or 0 when
      it has none. */
  function GetCompletionValue(date: Day, habitId: string, data: map<Day, Record>): (v: Number)
    ensures date !in data ==> v == Finite(0.0)
    ensures date in data && habitId == "all" ==> (v.NaN? <==> data[date] == [])
    ensures date in data && habitId != "all" ==> v.Finite?
    ensures date in data && habitId != "all" && !HasKey(data[date], habitId) ==> v == Finite(0.0)
    ensures date in data && habitId != "all" && HasKey(data[date], habitId) ==>
              exists i :: 0 <= i < |data[date]| && data[date][i] == Entry(habitId, v.value)
  {
    if date !in data then Finite(0.0)
    else if habitId == "all" then
      var values := data[date];
      if |values| == 0 then NaN else Finite(SumValues(values) / |values| as real)
    else
      match Lookup(data[date], habitId)
      case None => Finite(0.0)
      case Some(x) => Finite(if x == 0.0 then 0.0 else x)
  }

  /** For `'all'`, a day whose values all lie in [0, 1] gets a mean in [0, 1]. */
  lemma MeanWithin(date: Day, data: map<Day, Record>)
    requires date in data && data[date] != []
    requires forall i :: 0 <= i < |data[date]| ==> 0.0 <= data[date][i].value <= 1.0
    ensures GetCompletionValue(date, "all", data).Finite?
    ensures 0.0 <= GetCompletionValue(date, "all", data).value <= 1.0
  {
    var r := data[date];
    SumValuesBounds(r);
    QuotientWithin(SumValues(r), |r| as real, 0.0, 1.0);
  }

  /** For `'all'`, a day on which every habit is completed gets the darkest shade. */
  lemma AllCompletedIsDark(date: Day, data: map<Day, Record>)
    requires date in data && data[date] != []
    requires forall i :: 0 <= i < |data[date]| ==> data[date][i].value == 1.0
    ensures GetCellColor(GetCompletionValue(date, "all", data)) == Dark
  {
    var r := data[date];
    SumValuesAllOnes(r);
    assert SumValues(r) / |r| as real == 1.0;
    assert GetCompletionValue(date, "all", data) == Finite(1.0);
  }

  /** For `'all'`, a day with an empty record (an empty object is truthy, so it passes the
      first test) divides 0 by 0 and is painted in the darkest shade. */
  lemma EmptyRecordIsDark(date: Day, data: map<Day, Record>)
    requires date in data && data[date] == []
    ensures GetCellColor(GetCompletionValue(date, "all", data)) == Dark
  {
  }

  // ----- Month arithmetic -----

  /** `getDaysInMonth(year, month)`: the day of month of day 0 of the next month, that is of
      the last day of this one. */
  function GetDaysInMonth(year: int, month: int): (n: int)
    ensures n == DaysInMonth(year * 12 + month)
    ensures 28 <= n <= 31
  {
    var am := year * 12 + month;
    var last := FirstOfMonth(am + 1) - 1;
    NextMonthStart(am);
    MonthContainingIs(last, am);
    DayOfMonth(last)
  }

  /** `getFirstDayOfMonth(year, month)`: the weekday of the 1st, Sunday 0. */
  function GetFirstDayOfMonth(year: int, month: int): (w: nat)
    ensures w < 7
    ensures w == Weekday(Civil(year, month, 1).ToDay())
  {
    Weekday(FirstOfMonth(year * 12 + month))
  }

  /** `getAllMonths(year)`: the first of each month of the year, January first. */
  function GetAllMonths(year: int): (firsts: seq<Day>)
    ensures |firsts| == 12
    ensures forall i :: 0 <= i < 12 ==> firsts[i] == Civil(year, i, 1).ToDay()
  {
    seq(12, i => FirstOfMonth(year * 12 + i))
  }

  /** The firsts of the months are in order. */
  lemma AllMonthsInOrder(year: int)
    ensures forall i, j :: 0 <= i < j < 12 ==> GetAllMonths(year)[i] < GetAllMonths(year)[j]
  {
    forall i, j | 0 <= i < j < 12
      ensures GetAllMonths(year)[i] < GetAllMonths(year)[j]
    {
      MonthsOrdered(year, i, j);
    }
  }

  /** An earlier month of the year starts earlier. */
  lemma MonthsOrdered(year: int, i: int, j: int)
    requires 0 <= i < j < 12
    ensures FirstOfMonth(year * 12 + i) < FirstOfMonth(year * 12 + j)
  {
    FirstOfMonthGrows(year * 12 + i, year * 12 + j);
  }

  /** Each of the firsts names the 1st of its month. */
  lemma AllMonthsAreFirsts(year: int)
    ensures forall i :: 0 <= i < 12 ==> CivilOf(GetAllMonths(year)[i]) == Civil(year, i, 1)
  {
    forall i | 0 <= i < 12
      ensures CivilOf(GetAllMonths(year)[i]) == Civil(year, i, 1)
    {
      MonthFirstCivil(year, i);
    }
  }

  /** The 1st of month `i` of `year` is named `year`, `i`, 1. */
  lemma MonthFirstCivil(year: int, i: int)
    requires 0 <= i < 12
    ensures CivilOf(FirstOfMonth(year * 12 + i)) == Civil(year, i, 1)
  {
    CivilOfToDay(Civil(year, i, 1));
  }

  /** `remainingCells`: the blank cells that complete the last week of a month block. */
  function RemainingCells(first: nat, days: nat): (r: nat)
    ensures r < 7
    ensures (first + days + r) % 7 == 0
    ensures r == 0 <==> (first + days) % 7 == 0
  {
    (7 - (first + days) % 7) % 7
  }

  // ----- Grid cells -----

  /** A grid cell: a weekday header, a blank, or a day with its number, day and colour. */
  datatype Cell = Header(text: string) | Blank | DayCell(day: nat, date: Day, color: string)

  /** The cell of day `day` of the month whose 1st is `start`. */
  function DayCellOf(start: Day, day: nat, selected: string, data: map<Day, Record>): (c: Cell)
    ensures c.DayCell? && c.day == day && c.date == start + day - 1
  {
    var date := start + day - 1;
    DayCell(day, date, GetCellColor(GetCompletionValue(date, selected, data)))
  }

  /** Cell `i` of the year view's block for the month whose 1st is `start` and which has
      `days` days: as many blanks as the 1st's weekday, the days, then blanks. */
  function YearCell(start: Day, days: nat, i: nat, selected: string, data: map<Day, Record>): (c: Cell)
    ensures c.Blank? || c.DayCell?
  {
    var first := Weekday(start);
    if first <= i < first + days then DayCellOf(start, i - first + 1, selected, data)
    else Blank
  }

  /** `n` blank cells. */
  function Blanks(n: nat): (r: seq<Cell>)
    ensures |r| == n
  {
    if n == 0 then [] else Blanks(n - 1) + [Blank]
  }

  /** The cells of days 1 to `n` of the month whose 1st is `start`, in order. */
  function DaysRow(start: Day, n: nat, selected: string, data: map<Day, Record>): (r: seq<Cell>)
    ensures |r| == n
  {
    if n == 0 then [] else DaysRow(start, n - 1, selected, data) + [DayCellOf(start, n, selected, data)]
  }

  lemma {:induction false} BlanksAreBlank(n: nat)
    ensures forall k :: 0 <= k < n ==> Blanks(n)[k] == Blank
  {
    if n > 0 {
      BlanksAreBlank(n - 1);
    }
  }

  lemma {:induction false} DaysRowCells(start: Day, n: nat, selected: string, data: map<Day, Record>)
    ensures forall k :: 0 <= k < n ==> DaysRow(start, n, selected, data)[k] == DayCellOf(start, k + 1, selected, data)
  {
    if n > 0 {
      DaysRowCells(start, n - 1, selected, data);
    }
  }

  /** The year view's block for the month whose 1st is `start` and which has `days` days:
      blanks up to the 1st's weekday, the days, and the blanks that complete the last week. */
  function YearBlock(start: Day, days: nat, selected: string, data: map<Day, Record>): seq<Cell> {
    Blanks(Weekday(start)) + DaysRow(start, days, selected, data) + Blanks(RemainingCells(Weekday(start), days))
  }

  /** The block is whole weeks, and cell `i` of it is `YearCell(…, i, …)`: each day after
      as many blanks as its 1st's weekday. */
  lemma YearBlockCells(start: Day, days: nat, selected: string, data: map<Day, Record>)
    ensures |YearBlock(start, days, selected, data)| % 7 == 0
    ensures forall i :: 0 <= i < |YearBlock(start, days, selected, data)| ==>
              YearBlock(start, days, selected, data)[i] == YearCell(start, days, i, selected, data)
  {
    var first := Weekday(start);
    BlanksAreBlank(first);
    DaysRowCells(start, days, selected, data);
    BlanksAreBlank(RemainingCells(first, days));
  }

  lemma SnocAssoc<T>(a: seq<T>, b: seq<T>, x: T)
    ensures a + b + [x] == a + (b + [x])
  {
  }

  /** The block of month `am` in the year view, built as the source pushes its cells. */
  method YearMonthBlock(am: int, selected: string, data: map<Day, Record>) returns (cells: seq<Cell>)
    ensures cells == YearBlock(FirstOfMonth(am), DaysInMonth(am), selected, data)
  {
    // `getFirstDayOfMonth` and `getDaysInMonth`, through the values their contracts give
    var start := FirstOfMonth(am);
    var first, days := Weekday(start), DaysInMonth(am);
    cells := [];
    for i := 0 to first
      invariant cells == Blanks(i)
    {
      cells := cells + [Blank];
    }
    ghost var head := cells;
    for day := 1 to days + 1
      invariant cells == head + DaysRow(start, day - 1, selected, data)
    {
      SnocAssoc(head, DaysRow(start, day - 1, selected, data), DayCellOf(start, day, selected, data));
      cells := cells + [DayCellOf(start, day, selected, data)];
    }
    var remaining := RemainingCells(first, days);
    ghost var row := cells;
    for i := 0 to remaining
      invariant cells == row + Blanks(i)
    {
      SnocAssoc(row, Blanks(i), Blank);
      cells := cells + [Blank];
    }
  }

  /** The year view's column headers, Sunday first. */
  const YearHeaders: seq<string> := ["S", "M", "T", "W", "T", "F", "S"]

  /** In the year view each day sits in the column of its own weekday, under the initial of
      its weekday's name. */
  lemma YearViewColumns(start: Day, days: nat, i: nat, selected: string, data: map<Day, Record>)
    requires YearCell(start, days, i, selected, data).DayCell?
    ensures Weekday(YearCell(start, days, i, selected, data).date) == i % 7
    ensures YearHeaders[i % 7] == WeekdayNames[i % 7][..1]
  {
    var k := i - Weekday(start);
    assert YearCell(start, days, i, selected, data).date == start + k;
    ColumnWithoutShift(start, k, i + 7);
    YearHeadersAreInitials(i % 7);
  }

  /** Each year-view header is the initial of the weekday name of its column. */
  lemma YearHeadersAreInitials(c: nat)
    requires c < 7
    ensures YearHeaders[c] == WeekdayNames[c][..1]
  {
  }

  /** The year view: one block per month of the year. */
  method YearView(year: int, selected: string, data: map<Day, Record>) returns (blocks: seq<seq<Cell>>)
    ensures |blocks| == 12
    ensures forall m :: 0 <= m < 12 ==>
              blocks[m] == YearBlock(FirstOfMonth(year * 12 + m), DaysInMonth(year * 12 + m), selected, data)
  {
    blocks := [];
    for m := 0 to 12
      invariant |blocks| == m
      invariant forall k :: 0 <= k < m ==>
                  blocks[k] == YearBlock(FirstOfMonth(year * 12 + k), DaysInMonth(year * 12 + k), selected, data)
    {
      var block := YearMonthBlock(year * 12 + m, selected, data);
      blocks := blocks + [block];
    }
  }

  /** The month view's column headers, Monday first. */
  const MonthHeaders: seq<string> := ["Mon", "Tue", "Wed", "Thu", "Fri", "Sat", "Sun"]

  /** Cell `i` of the month view of the month whose 1st is `start` and which has `days`
      days, with `pad` blanks before the 1st: seven headers, the blanks, then the days, with
      no blanks after them. */
  function MonthCell(start: Day, days: nat, pad: nat, i: nat, selected: string, data: map<Day, Record>): (c: Cell)
  {
    if i < 7 then Header(MonthHeaders[i])
    else if i < 7 + pad then Blank
    else if i < 7 + pad + days then DayCellOf(start, i - 7 - pad + 1, selected, data)
    else Blank
  }

  /** The seven headers, as far as `n`. */
  function HeaderRow(n: nat): (r: seq<Cell>)
    requires n <= 7
    ensures |r| == n
  {
    if n == 0 then [] else HeaderRow(n - 1) + [Header(MonthHeaders[n - 1])]
  }

  lemma {:induction false} HeaderRowCells(n: nat)
    requires n <= 7
    ensures forall k :: 0 <= k < n ==> HeaderRow(n)[k] == Header(MonthHeaders[k])
  {
    if n > 0 {
      HeaderRowCells(n - 1);
    }
  }

  /** The month view's grid: the headers, `pad` blanks, the days. */
  function MonthGrid(start: Day, days: nat, pad: nat, selected: string, data: map<Day, Record>): seq<Cell> {
    HeaderRow(7) + Blanks(pad) + DaysRow(start, days, selected, data)
  }

  /** Cell `i` of the grid is `MonthCell(…, i, …)`. */
  lemma MonthGridCells(start: Day, days: nat, pad: nat, selected: string, data: map<Day, Record>)
    ensures |MonthGrid(start, days, pad, selected, data)| == 7 + pad + days
    ensures forall i :: 0 <= i < 7 + pad + days ==>
              MonthGrid(start, days, pad, selected, data)[i] == MonthCell(start, days, pad, i, selected, data)
  {
    HeaderRowCells(7);
    BlanksAreBlank(pad);
    DaysRowCells(start, days, selected, data);
  }

  /** The month view as written: the blanks before the 1st are counted by `getDay`, which
      starts the week on Sunday, under headers that start it on Monday. */
  method MonthView(am: int, selected: string, data: map<Day, Record>) returns (cells: seq<Cell>)
    ensures cells == MonthGrid(FirstOfMonth(am), DaysInMonth(am), Weekday(FirstOfMonth(am)), selected, data)
  {
    var first := Weekday(FirstOfMonth(am));
    cells := MonthCells(am, first, selected, data);
  }

  /** The month view with the blanks counted from Monday, as its headers are. */
  method MonthViewMondayFirst(am: int, selected: string, data: map<Day, Record>) returns (cells: seq<Cell>)
    ensures cells == MonthGrid(FirstOfMonth(am), DaysInMonth(am), MondayOffset(Weekday(FirstOfMonth(am))), selected, data)
  {
    var first := Weekday(FirstOfMonth(am));
    cells := MonthCells(am, MondayOffset(first), selected, data);
  }

  /** The days before a weekday in a week that starts on Monday. */
  function MondayOffset(w: nat): (pad: nat)
    requires w < 7
    ensures pad < 7 && (pad + 1) % 7 == w
  {
    (w + 6) % 7
  }

  /** The headers, `pad` blanks, and one cell per day of the month, pushed in order. */
  method MonthCells(am: int, pad: nat, selected: string, data: map<Day, Record>) returns (cells: seq<Cell>)
    ensures cells == MonthGrid(FirstOfMonth(am), DaysInMonth(am), pad, selected, data)
  {
    // `getDaysInMonth`, through the value its contract gives
    var start, days := FirstOfMonth(am), DaysInMonth(am);
    cells := [];
    for i := 0 to 7
      invariant cells == HeaderRow(i)
    {
      cells := cells + [Header(MonthHeaders[i])];
    }
    for i := 0 to pad
      invariant cells == HeaderRow(7) + Blanks(i)
    {
      SnocAssoc(HeaderRow(7), Blanks(i), Blank);
      cells := cells + [Blank];
    }
    ghost var head := cells;
    for day := 1 to days + 1
      invariant cells == head + DaysRow(start, day - 1, selected, data)
    {
      SnocAssoc(head, DaysRow(start, day - 1, selected, data), DayCellOf(start, day, selected, data));
      cells := cells + [DayCellOf(start, day, selected, data)];
    }
  }

  /** In the month view as written every day sits one column to the left of its weekday:
      the header above it names the weekday after its own. */
  lemma MonthViewHeaderIsNextWeekday(start: Day, days: nat, i: nat, selected: string, data: map<Day, Record>)
    requires MonthCell(start, days, Weekday(start), i, selected, data).DayCell?
    ensures MonthHeaders[i % 7]
         == WeekdayShortNames[(Weekday(MonthCell(start, days, Weekday(start), i, selected, data).date) + 1) % 7]
    ensures MonthHeaders[i % 7]
         != WeekdayShortNames[Weekday(MonthCell(start, days, Weekday(start), i, selected, data).date)]
  {
    var k := i - 7 - Weekday(start);
    assert MonthCell(start, days, Weekday(start), i, selected, data).date == start + k;
    ColumnWithoutShift(start, k, i);
    HeaderOfColumn(i % 7);
    WeekdayShortNamesDistinct();
  }

  /** With the blanks counted from Monday every day sits under its own weekday's header. */
  lemma MondayFirstHeaderIsWeekday(start: Day, days: nat, i: nat, selected: string, data: map<Day, Record>)
    requires MonthCell(start, days, MondayOffset(Weekday(start)), i, selected, data).DayCell?
    ensures MonthHeaders[i % 7]
         == WeekdayShortNames[Weekday(MonthCell(start, days, MondayOffset(Weekday(start)), i, selected, data).date)]
  {
    var pad := MondayOffset(Weekday(start));
    var k := i - 7 - pad;
    assert MonthCell(start, days, pad, i, selected, data).date == start + k;
    ColumnAfterPadding(start, pad, k, i);
    HeaderOfColumn(i % 7);
  }

  /** Day `k` (from 0) of a month starting on day `first`, placed after seven headers and
      as many blanks as the 1st's weekday, is in the column of its own weekday. */
  lemma ColumnWithoutShift(first: Day, k: nat, i: nat)
    requires i == 7 + Weekday(first) + k
    ensures i % 7 == Weekday(first + k)
  {
  }

  /** Day `k` (from 0) of a month starting on day `first`, placed after seven headers and
      `pad` blanks with `pad + 1` congruent to the 1st's weekday, is in the column whose
      successor is its weekday. */
  lemma ColumnAfterPadding(first: Day, pad: nat, k: nat, i: nat)
    requires (pad + 1) % 7 == Weekday(first) && i == 7 + pad + k
    ensures (i % 7 + 1) % 7 == Weekday(first + k)
  {
  }

  /** A month-view column's header names the weekday after the `getDay` number of the column. */
  lemma HeaderOfColumn(c: nat)
    requires c < 7
    ensures MonthHeaders[c] == WeekdayShortNames[(c + 1) % 7]
  {
  }

  // ----- The tooltip -----

  /** What the tooltip shows: no data, or "`completed` of `total` habits completed" and, for
      one selected habit, a check or a cross. */
  datatype Tooltip = NoDataAvailable | Counts(completed: nat, total: nat, mark: Option<bool>)

  /** `getTooltipContent` (declared in the heat map, which shows the popover instead). The
      check is the truthiness of the habit's value, not a comparison with 1. */
  function GetTooltipContent(data: Option<Record>, selected: string): (t: Tooltip)
    ensures t.NoDataAvailable? <==> data.None?
    ensures t.Counts? ==> t.completed == CountOnes(data.value) && t.total == |data.value|
    ensures t.Counts? ==> t.completed <= t.total
    ensures t.Counts? ==> (t.mark.None? <==> selected == "all")
  {
    match data
    case None => NoDataAvailable
    case Some(r) =>
      var mark := if selected == "all" then None
                  else Some(match Lookup(r, selected) case None => false case Some(x) => x != 0.0);
      Counts(CountOnes(r), |r|, mark)
  }

  /** On values that are 0 or 1 the tooltip's check and the popover's agree. */
  lemma TooltipAgreesOnZeroOne(r: Record, id: string)
    requires id != "all"
    requires forall i :: 0 <= i < |r| ==> r[i].value == 0.0 || r[i].value == 1.0
    ensures GetTooltipContent(Some(r), id).mark == Some(MarkedDone(r, id))
  {
  }

  /** A partial value such as 0.5 gets a check in the tooltip and a cross in the popover. */
  lemma TooltipDiffersOnPartialValue()
    ensures GetTooltipContent(Some([Entry("h1", 0.5)]), "h1").mark == Some(true)
    ensures !MarkedDone([Entry("h1", 0.5)], "h1")
  {
  }
}
