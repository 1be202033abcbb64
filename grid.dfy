/**
  The month grid that `renderCalendar` builds: rows of seven day cells,
  Sunday first, with the tail of the previous month before day 1 and the
  head of the next month after the last day, and a week summary per row.
*/
module Grid {
  import opened Wrappers
  import opened Dates
  import opened DateKey
  import opened Ledger
  import opened Aggregation

  datatype CellKind = PreviousMonth | CurrentMonth | NextMonth

  /** One day cell. Only current-month cells carry their date (the
      `dateObj` the cell selects), a today mark and the day's record
      (`{ pl: 0, trades: 0 }` when there is none). */
  datatype DayCell = DayCell(kind: CellKind, day: int, date: Option<Date>, isToday: bool, dayData: Record)
  {
    /** The `data-date` key of the cell's Edit and Delete buttons. */
    function Key(): Option<string> {
      if date.Some? then Some(FormatDate(date.value)) else None
    }

    /** The profit/loss line, the trade count and the Edit and Delete
        buttons appear only for a day whose record is not all zero. */
    predicate HasActions() {
      dayData.pl != 0 || dayData.trades != 0
    }
  }

  /** The summary cell of a row: its number, its first and last day, and
      the totals of its seven days. */
  datatype WeekSummary = WeekSummary(weekNumber: int, start: Date, end: Date, totals: Totals)

  datatype CalendarRow = CalendarRow(cells: seq<DayCell>, summary: WeekSummary)

  /** `Math.ceil(n / 7)`. */
  function Ceil7(n: nat): (r: nat)
    ensures 7 * r >= n && 7 * (r - 1) < n
  {
    (n + 6) / 7
  }

  /** The displayed month as the grid needs it: the year as displayed, the
      month, its first day, that day's weekday, its length and the length
      of the month before it. */
  datatype MonthLayout = MonthLayout(year: int, month: int, first: Date, firstDayOfWeek: int,
                                     daysInMonth: int, prevMonthLastDay: int)

  function LayoutOf(y: int, m: int): (l: MonthLayout)
    requires 0 <= m < 12
    ensures ValidDate(l.first) && l.first.month == m
  {
    var first := Date(FullYear(y), m, 1);
    MonthLayout(y, m, first, Weekday(first), DaysInMonth(first.year, m), LastOfPreviousMonth(first.year, m).day)
  }

  /** What the row and cell loops use of a layout for month `m` of year `y`. */
  predicate LayoutFor(l: MonthLayout, y: int, m: int) {
    0 <= m < 12 && l.year == y && l.month == m && l.first == Date(FullYear(y), m, 1) &&
    l.daysInMonth == DaysInMonth(FullYear(y), m) && 0 <= l.firstDayOfWeek < 7
  }

  lemma LayoutOfIsFor(y: int, m: int)
    requires 0 <= m < 12
    ensures LayoutFor(LayoutOf(y, m), y, m)
  {
  }

  /** The number of rows of the grid. */
  function RowCount(l: MonthLayout): nat {
    Ceil7(if l.firstDayOfWeek + l.daysInMonth < 0 then 0 else l.firstDayOfWeek + l.daysInMonth)
  }

  /** Whether day `d` of the displayed month is `today`: the displayed
      year is compared as given with today's full year. */
  predicate IsToday(l: MonthLayout, d: int, today: Date) {
    d == today.day && l.month == today.month && l.year == today.year
  }

  /** Where position `p` of the grid falls, counting row by row: in the
      tail of the previous month, in the displayed month or in the head of
      the next month, and the day number shown there. */
  datatype Place = Place(kind: CellKind, day: int)

  function PlaceAt(l: MonthLayout, p: int): Place {
    if p < l.firstDayOfWeek then Place(PreviousMonth, l.prevMonthLastDay - (l.firstDayOfWeek - p - 1))
    else if p < l.firstDayOfWeek + l.daysInMonth then Place(CurrentMonth, p - l.firstDayOfWeek + 1)
    else Place(NextMonth, p - l.firstDayOfWeek - l.daysInMonth + 1)
  }

  /** The cell at position `p` of the grid. */
  function LayoutCell(data: Data, l: MonthLayout, today: Date, p: int): (c: DayCell)
    ensures c.kind == PlaceAt(l, p).kind && c.day == PlaceAt(l, p).day
  {
    var place := PlaceAt(l, p);
    if place.kind == CurrentMonth then
      var date := Date(l.first.year, l.first.month, place.day);
      DayCell(CurrentMonth, place.day, Some(date), IsToday(l, place.day, today), RecordAt(data, FormatDate(date)))
    else
      DayCell(place.kind, place.day, None, false, Record(0, 0))
  }

  /** The first day of row `i`: `new Date(year, month, i * 7 + 1 - firstDayOfWeek)`. */
  function WeekStart(l: MonthLayout, i: int): (r: Date)
    requires ValidDate(l.first)
    ensures ValidDate(r)
  {
    AddDays(l.first, 7 * i - l.firstDayOfWeek)
  }

  /** The summary of row `i`. */
  function SummaryAt(data: Data, l: MonthLayout, i: int): WeekSummary
    requires ValidDate(l.first)
  {
    var start := WeekStart(l, i);
    WeekSummary(i + 1, start, AddDays(start, 6), WindowTotals(data, start, 7))
  }

  /** Row `i` of the grid holds the seven cells from position `7 * i` and
      the summary of those seven days. */
  ghost predicate RowLaidOut(row: CalendarRow, data: Data, l: MonthLayout, today: Date, i: int)
    requires ValidDate(l.first)
  {
    |row.cells| == 7 && row.summary == SummaryAt(data, l, i) &&
    forall j :: 0 <= j < 7 ==> row.cells[j] == LayoutCell(data, l, today, 7 * i + j)
  }

  /** The value of the `date` counter when the loops reach position `p`. */
  ghost function DateCounter(fdow: int, dim: int, p: int): int {
    if p <= fdow then 1 else if p - fdow < dim then p - fdow + 1 else dim + 1
  }

  /** The value of the `nextMonthDate` counter when the loops reach position `p`. */
  ghost function NextCounter(fdow: int, dim: int, p: int): int {
    if p <= fdow + dim then 1 else p - fdow - dim + 1
  }

  /** `renderCalendar` without the DOM: the rows of the grid for
      `displayedMonth` of `displayedYear`. */
  method RenderCalendar(data: Data, displayedYear: int, displayedMonth: int, today: Date)
    returns (rows: seq<CalendarRow>)
    requires 0 <= displayedMonth < 12
    ensures |rows| == RowCount(LayoutOf(displayedYear, displayedMonth))
    ensures forall i :: 0 <= i < |rows| ==>
      RowLaidOut(rows[i], data, LayoutOf(displayedYear, displayedMonth), today, i)
  {
    ghost var layout := LayoutOf(displayedYear, displayedMonth);
    var firstDayOfWeek, daysInMonth, prevMonthLastDay := MonthGeometry(displayedYear, displayedMonth);
    var totalDays := firstDayOfWeek + daysInMonth;
    var totalRows := Ceil7(totalDays);
    rows := RenderRows(data, layout, displayedYear, displayedMonth, today,
      firstDayOfWeek, daysInMonth, prevMonthLastDay, totalRows);
  }

  /** The row loop of `renderCalendar`, with its counters `date`,
      `nextMonthDate` and `weekNumber`. */
  method RenderRows(data: Data, ghost layout: MonthLayout, displayedYear: int, displayedMonth: int, today: Date,
                    firstDayOfWeek: int, daysInMonth: int, prevMonthLastDay: int, totalRows: nat)
    returns (rows: seq<CalendarRow>)
    requires LayoutFor(layout, displayedYear, displayedMonth)
    requires firstDayOfWeek == layout.firstDayOfWeek && daysInMonth == layout.daysInMonth
    requires prevMonthLastDay == layout.prevMonthLastDay
    ensures |rows| == totalRows
    ensures forall i :: 0 <= i < |rows| ==> RowLaidOut(rows[i], data, layout, today, i)
  {
    var date := 1;
    var nextMonthDate := 1;
    var weekNumber := 1;
    rows := [];
    var i := 0;
    while i < totalRows
      invariant 0 <= i <= totalRows && |rows| == i && weekNumber == i + 1
      invariant date == DateCounter(firstDayOfWeek, daysInMonth, 7 * i)
      invariant nextMonthDate == NextCounter(firstDayOfWeek, daysInMonth, 7 * i)
      invariant forall k :: 0 <= k < i ==> RowLaidOut(rows[k], data, layout, today, k)
    {
      var row;
      row, date, nextMonthDate := RenderRow(data, layout, displayedYear, displayedMonth, today, i, weekNumber,
        firstDayOfWeek, daysInMonth, prevMonthLastDay, date, nextMonthDate);
      RowsAppend(rows, row, data, layout, today, i);
      rows := rows + [row];
      weekNumber := weekNumber + 1;
      i := i + 1;
    }
  }

  /** Appending the row laid out at position `i` keeps every row laid out. */
  lemma RowsAppend(rows: seq<CalendarRow>, row: CalendarRow, data: Data, l: MonthLayout, today: Date, i: int)
    requires ValidDate(l.first) && |rows| == i
    requires forall k :: 0 <= k < i ==> RowLaidOut(rows[k], data, l, today, k)
    requires RowLaidOut(row, data, l, today, i)
    ensures forall k :: 0 <= k <= i ==> RowLaidOut((rows + [row])[k], data, l, today, k)
  {
    forall k | 0 <= k <= i ensures RowLaidOut((rows + [row])[k], data, l, today, k) {
      if k < i { assert (rows + [row])[k] == rows[k]; }
    }
  }

  /** The first lines of `renderCalendar`: the weekday of the first of the
      month, the month's length and the length of the month before. */
  method MonthGeometry(displayedYear: int, displayedMonth: int)
    returns (firstDayOfWeek: int, daysInMonth: int, prevMonthLastDay: int)
    requires 0 <= displayedMonth < 12
    ensures var l := LayoutOf(displayedYear, displayedMonth);
      LayoutFor(l, displayedYear, displayedMonth) && firstDayOfWeek == l.firstDayOfWeek &&
      daysInMonth == l.daysInMonth && prevMonthLastDay == l.prevMonthLastDay
  {
    var firstDay := NewDate(displayedYear, displayedMonth, 1);
    var lastDay := NewDate(displayedYear, displayedMonth + 1, 0);
    daysInMonth := lastDay.day;
    firstDayOfWeek := Weekday(firstDay);
    prevMonthLastDay := NewDate(displayedYear, displayedMonth, 0).day;
    LayoutOfConstructor(displayedYear, displayedMonth);
    LayoutOfIsFor(displayedYear, displayedMonth);
  }

  /** One pass of the row loop of `renderCalendar`: the week summary of
      row `i` and its seven day cells. */
  method RenderRow(data: Data, ghost layout: MonthLayout, displayedYear: int, displayedMonth: int, today: Date,
                   i: nat, weekNumber: int, firstDayOfWeek: int, daysInMonth: int, prevMonthLastDay: int,
                   date0: int, nextMonthDate0: int)
    returns (row: CalendarRow, date: int, nextMonthDate: int)
    requires 0 <= displayedMonth < 12 && LayoutFor(layout, displayedYear, displayedMonth) && weekNumber == i + 1
    requires firstDayOfWeek == layout.firstDayOfWeek && daysInMonth == layout.daysInMonth
    requires prevMonthLastDay == layout.prevMonthLastDay
    requires date0 == DateCounter(firstDayOfWeek, daysInMonth, 7 * i)
    requires nextMonthDate0 == NextCounter(firstDayOfWeek, daysInMonth, 7 * i)
    ensures RowLaidOut(row, data, layout, today, i)
    ensures date == DateCounter(firstDayOfWeek, daysInMonth, 7 * i + 7)
    ensures nextMonthDate == NextCounter(firstDayOfWeek, daysInMonth, 7 * i + 7)
  {
    var summary := RenderSummary(data, layout, displayedYear, displayedMonth, i, weekNumber, firstDayOfWeek);
    var cells;
    cells, date, nextMonthDate := RenderWeekCells(data, layout, displayedYear, displayedMonth, today, i,
      firstDayOfWeek, daysInMonth, prevMonthLastDay, date0, nextMonthDate0);
    row := CalendarRow(cells, summary);
  }

  /** The week summary of row `i`: its first and last day and the totals
      of the seven days from its first. */
  method RenderSummary(data: Data, ghost layout: MonthLayout, displayedYear: int, displayedMonth: int,
                       i: nat, weekNumber: int, firstDayOfWeek: int)
    returns (summary: WeekSummary)
    requires 0 <= displayedMonth < 12 && LayoutFor(layout, displayedYear, displayedMonth) && weekNumber == i + 1
    requires firstDayOfWeek == layout.firstDayOfWeek
    ensures summary == SummaryAt(data, layout, i)
  {
    var weekStart, weekEnd := WeekBounds(layout, displayedYear, displayedMonth, i, firstDayOfWeek);
    var weekPL, weekTrades := WeekTotals(data, weekStart);
    summary := WeekSummary(weekNumber, weekStart, weekEnd, Totals(weekPL, weekTrades));
    SummaryAtParts(data, layout, i, summary);
  }

  /** The first and last day of row `i`. */
  method WeekBounds(ghost layout: MonthLayout, displayedYear: int, displayedMonth: int, i: nat, firstDayOfWeek: int)
    returns (weekStart: Date, weekEnd: Date)
    requires LayoutFor(layout, displayedYear, displayedMonth) && firstDayOfWeek == layout.firstDayOfWeek
    ensures weekStart == WeekStart(layout, i) && weekEnd == AddDays(weekStart, 6)
  {
    weekStart := NewDate(displayedYear, displayedMonth, i * 7 + 1 - firstDayOfWeek);
    WeekStartOfConstructor(layout, displayedYear, displayedMonth, i);
    weekEnd := SetDate(weekStart, weekStart.day + 6);
    MakeDateShift(weekStart, 6);
  }

  /** The day-cell loop of `renderCalendar` for row `i`: its counters
      `date` and `nextMonthDate` come in and go out. */
  method RenderWeekCells(data: Data, ghost layout: MonthLayout, displayedYear: int, displayedMonth: int,
                         today: Date, i: nat, firstDayOfWeek: int, daysInMonth: int, prevMonthLastDay: int,
                         date0: int, nextMonthDate0: int)
    returns (cells: seq<DayCell>, date: int, nextMonthDate: int)
    requires 0 <= displayedMonth < 12 && LayoutFor(layout, displayedYear, displayedMonth)
    requires firstDayOfWeek == layout.firstDayOfWeek && daysInMonth == layout.daysInMonth
    requires prevMonthLastDay == layout.prevMonthLastDay
    requires date0 == DateCounter(firstDayOfWeek, daysInMonth, 7 * i)
    requires nextMonthDate0 == NextCounter(firstDayOfWeek, daysInMonth, 7 * i)
    ensures |cells| == 7
    ensures forall j :: 0 <= j < 7 ==> cells[j] == LayoutCell(data, layout, today, 7 * i + j)
    ensures date == DateCounter(firstDayOfWeek, daysInMonth, 7 * i + 7)
    ensures nextMonthDate == NextCounter(firstDayOfWeek, daysInMonth, 7 * i + 7)
  {
    date, nextMonthDate := date0, nextMonthDate0;
    cells := [];
    var j := 0;
    while j < 7
      invariant 0 <= j <= 7 && |cells| == j
      invariant date == DateCounter(firstDayOfWeek, daysInMonth, 7 * i + j)
      invariant nextMonthDate == NextCounter(firstDayOfWeek, daysInMonth, 7 * i + j)
      invariant forall k :: 0 <= k < j ==> cells[k] == LayoutCell(data, layout, today, 7 * i + k)
    {
      var cell;
      cell, date, nextMonthDate := RenderCell(data, layout, displayedYear, displayedMonth, today, i, j,
                                              firstDayOfWeek, daysInMonth, prevMonthLastDay, date, nextMonthDate);
      CellsAppend(cells, cell, data, layout, today, i, j);
      cells := cells + [cell];
      j := j + 1;
    }
  }

  /** The cell at column `j` of row `i`: a day of the previous month, of
      the month (with its record), or of the next month. */
  method RenderCell(data: Data, ghost layout: MonthLayout, displayedYear: int, displayedMonth: int,
                    today: Date, i: nat, j: int, firstDayOfWeek: int, daysInMonth: int, prevMonthLastDay: int,
                    date0: int, nextMonthDate0: int)
    returns (cell: DayCell, date: int, nextMonthDate: int)
    requires 0 <= displayedMonth < 12 && LayoutFor(layout, displayedYear, displayedMonth) && 0 <= j < 7
    requires firstDayOfWeek == layout.firstDayOfWeek && daysInMonth == layout.daysInMonth
    requires prevMonthLastDay == layout.prevMonthLastDay
    requires date0 == DateCounter(firstDayOfWeek, daysInMonth, 7 * i + j)
    requires nextMonthDate0 == NextCounter(firstDayOfWeek, daysInMonth, 7 * i + j)
    ensures cell == LayoutCell(data, layout, today, 7 * i + j)
    ensures date == DateCounter(firstDayOfWeek, daysInMonth, 7 * i + j + 1)
    ensures nextMonthDate == NextCounter(firstDayOfWeek, daysInMonth, 7 * i + j + 1)
  {
    date, nextMonthDate := date0, nextMonthDate0;
    if i == 0 && j < firstDayOfWeek {
      var prevMonthDay := prevMonthLastDay - (firstDayOfWeek - j - 1);
      cell := DayCell(PreviousMonth, prevMonthDay, None, false, Record(0, 0));
    } else if date <= daysInMonth {
      var isToday := date == today.day && displayedMonth == today.month && displayedYear == today.year;
      var dateObj := NewDate(displayedYear, displayedMonth, date);
      CurrentDate(layout, displayedYear, displayedMonth, date);
      var dateKey := FormatDate(dateObj);
      var dayData := RecordAt(data, dateKey);
      cell := DayCell(CurrentMonth, date, Some(dateObj), isToday, dayData);
      date := date + 1;
    } else {
      cell := DayCell(NextMonth, nextMonthDate, None, false, Record(0, 0));
      nextMonthDate := nextMonthDate + 1;
    }
  }

  /** Appending the cell at column `j` of row `i` keeps the row's cells laid out. */
  lemma CellsAppend(cells: seq<DayCell>, cell: DayCell, data: Data, l: MonthLayout, today: Date, i: int, j: int)
    requires |cells| == j
    requires forall k :: 0 <= k < j ==> cells[k] == LayoutCell(data, l, today, 7 * i + k)
    requires cell == LayoutCell(data, l, today, 7 * i + j)
    ensures forall k :: 0 <= k <= j ==> (cells + [cell])[k] == LayoutCell(data, l, today, 7 * i + k)
  {
    forall k | 0 <= k <= j ensures (cells + [cell])[k] == LayoutCell(data, l, today, 7 * i + k) {
      if k < j { assert (cells + [cell])[k] == cells[k]; }
    }
  }

  /** The script's constructor calls give the month's layout. */
  lemma LayoutOfConstructor(y: int, m: int)
    requires 0 <= m < 12
    ensures var l := LayoutOf(y, m);
      Weekday(NewDate(y, m, 1)) == l.firstDayOfWeek && 0 <= l.firstDayOfWeek < 7 &&
      NewDate(y, m + 1, 0).day == l.daysInMonth && NewDate(y, m, 0).day == l.prevMonthLastDay
  {
    MakeDateValid(Date(FullYear(y), m, 1));
    NewDateMonthLength(y, m);
    MakeDateDayZero(FullYear(y), m);
  }

  lemma CurrentDate(l: MonthLayout, y: int, m: int, d: int)
    requires LayoutFor(l, y, m) && 1 <= d <= l.daysInMonth
    ensures NewDate(y, m, d) == Date(l.first.year, l.first.month, d)
  {
    MakeDateValid(Date(FullYear(y), m, d));
  }

  lemma SummaryAtParts(data: Data, l: MonthLayout, i: int, s: WeekSummary)
    requires ValidDate(l.first) && s.weekNumber == i + 1 && s.start == WeekStart(l, i)
    requires s.end == AddDays(s.start, 6) && s.totals == WindowTotals(data, s.start, 7)
    ensures s == SummaryAt(data, l, i)
  {
  }

  /** The first day of row `i` as the script's constructor call computes it. */
  lemma WeekStartOfConstructor(l: MonthLayout, y: int, m: int, i: int)
    requires LayoutFor(l, y, m)
    ensures NewDate(y, m, i * 7 + 1 - l.firstDayOfWeek) == WeekStart(l, i)
  {
    NewDateFromFirst(y, m, i * 7 + 1 - l.firstDayOfWeek);
  }
}
