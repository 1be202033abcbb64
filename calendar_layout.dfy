/**
  What the month grid shows, stated against the calendar: the cells are
  consecutive days with Sunday in the first column, every day of the
  month appears exactly once, and each week summary covers exactly the
  seven days of its row, including the days of the adjacent months.
*/
module CalendarLayout {
  import opened Wrappers
  import opened Dates
  import opened DateKey
  import opened Ledger
  import opened Grid

  /** A layout whose fields agree with its first day; the weekday of the
      first day is only required to be a weekday. */
  predicate Consistent(l: MonthLayout) {
    ValidDate(l.first) && l.first.day == 1 && l.first.month == l.month && l.first.year == FullYear(l.year) &&
    0 <= l.firstDayOfWeek < 7 && l.daysInMonth == DaysInMonth(l.first.year, l.month) &&
    l.prevMonthLastDay == LastOfPreviousMonth(l.first.year, l.month).day
  }

  /** The layout of a displayed month is consistent, and its first column
      is Sunday. */
  lemma LayoutOfConsistent(y: int, m: int)
    requires 0 <= m < 12
    ensures Consistent(LayoutOf(y, m))
  {
  }

  /** The calendar day a cell shows: for an adjacent-month cell, its day
      number in the previous or the next month. */
  function CellDate(l: MonthLayout, c: Place): Date
    requires ValidDate(l.first)
  {
    match c.kind
    case PreviousMonth =>
      var last := LastOfPreviousMonth(l.first.year, l.first.month);
      Date(last.year, last.month, c.day)
    case CurrentMonth => Date(l.first.year, l.first.month, c.day)
    case NextMonth =>
      var next := FirstOfNextMonth(l.first.year, l.first.month);
      Date(next.year, next.month, c.day)
  }

  /** The grid has four to six rows, enough for every day of the month
      and none left wholly after it. */
  lemma RowCountBounds(l: MonthLayout)
    requires Consistent(l)
    ensures 4 <= RowCount(l) <= 6
    ensures l.firstDayOfWeek + l.daysInMonth <= 7 * RowCount(l) < l.firstDayOfWeek + l.daysInMonth + 7
  {
  }

  /** Position `p` of the grid, or of the six weeks of the date picker,
      shows the day `p - firstDayOfWeek` days after the first of the month. */
  lemma {:induction false} CellShowsDate(l: MonthLayout, p: int)
    requires Consistent(l) && 0 <= p < 42
    ensures CellDate(l, PlaceAt(l, p)) == AddDays(l.first, p - l.firstDayOfWeek)
  {
    if p < l.firstDayOfWeek {
      PreviousMonthDate(l, p);
    } else if p < l.firstDayOfWeek + l.daysInMonth {
      AddDaysInMonth(l.first, p - l.firstDayOfWeek);
    } else {
      NextMonthDate(l, p);
    }
  }

  lemma PreviousMonthDate(l: MonthLayout, p: int)
    requires Consistent(l) && 0 <= p < l.firstDayOfWeek
    ensures CellDate(l, PlaceAt(l, p)) == AddDays(l.first, p - l.firstDayOfWeek)
  {
    var last := LastOfPreviousMonth(l.first.year, l.month);
    AddDaysAfterNext(last, p - l.firstDayOfWeek);
    SubDaysInMonth(last, l.firstDayOfWeek - p - 1);
  }

  lemma NextMonthDate(l: MonthLayout, p: int)
    requires Consistent(l) && l.firstDayOfWeek + l.daysInMonth <= p < 42
    ensures CellDate(l, PlaceAt(l, p)) == AddDays(l.first, p - l.firstDayOfWeek)
  {
    var k := p - l.firstDayOfWeek;
    var next := FirstOfNextMonth(l.first.year, l.month);
    AddDaysAdditive(l.first, l.daysInMonth - 1, k - l.daysInMonth + 1);
    AddDaysInMonth(l.first, l.daysInMonth - 1);
    AddDaysAfterPrev(next, k - l.daysInMonth + 1);
    AddDaysInMonth(next, k - l.daysInMonth);
  }

  /** In the displayed month's grid the day at position `p` falls on
      weekday `p % 7`: Sunday is the first column. */
  lemma CellWeekday(y: int, m: int, p: int)
    requires 0 <= m < 12 && 0 <= p
    ensures var l := LayoutOf(y, m); Weekday(AddDays(l.first, p - l.firstDayOfWeek)) == p % 7
  {
    var l := LayoutOf(y, m);
    WeekdayAdd(l.first, p - l.firstDayOfWeek);
  }

  /** The seven days a week summary adds up, from its `start` to its
      `end`, are the seven days its row shows, from its first cell to its
      last, adjacent-month days included. */
  lemma SummaryCoversRow(l: MonthLayout, i: int, j: int)
    requires Consistent(l) && 0 <= i < RowCount(l) && 0 <= j < 7
    ensures AddDays(WeekStart(l, i), j) == CellDate(l, PlaceAt(l, 7 * i + j))
  {
    var p := 7 * i + j;
    RowCountBounds(l);
    AddDaysAdditive(l.first, 7 * i - l.firstDayOfWeek, j);
    assert 7 * i - l.firstDayOfWeek + j == p - l.firstDayOfWeek;
    CellShowsDate(l, p);
  }

  /** The six weeks from the first column run through three sections:
      the last `firstDayOfWeek` days of the previous month, ending with its
      last day, then days 1 .. daysInMonth, then the next month's days from
      1, each section ascending by one; the next-month section of the 42
      picker cells is never empty. */
  lemma GridSections(l: MonthLayout, p: int)
    requires Consistent(l) && 0 <= p < 42
    ensures l.firstDayOfWeek + l.daysInMonth <= 37
    ensures PlaceAt(l, p).kind ==
      if p < l.firstDayOfWeek then PreviousMonth
      else if p < l.firstDayOfWeek + l.daysInMonth then CurrentMonth
      else NextMonth
    ensures p < l.firstDayOfWeek ==> l.prevMonthLastDay - l.firstDayOfWeek + 1 <= PlaceAt(l, p).day <= l.prevMonthLastDay
    ensures p == l.firstDayOfWeek - 1 ==> PlaceAt(l, p).day == l.prevMonthLastDay
    ensures p == l.firstDayOfWeek || p == l.firstDayOfWeek + l.daysInMonth ==> PlaceAt(l, p).day == 1
    ensures p + 1 < 42 && PlaceAt(l, p + 1).kind == PlaceAt(l, p).kind ==> PlaceAt(l, p + 1).day == PlaceAt(l, p).day + 1
  {
  }

  /** Day `d` of the month is shown once, at position `firstDayOfWeek + d - 1`. */
  lemma CurrentDayOnce(l: MonthLayout, d: int, p: int)
    requires Consistent(l) && 1 <= d <= l.daysInMonth && 0 <= p < 7 * RowCount(l)
    ensures l.firstDayOfWeek + d - 1 < 7 * RowCount(l)
    ensures PlaceAt(l, p) == Place(CurrentMonth, d) <==> p == l.firstDayOfWeek + d - 1
  {
  }

  /** Outside the years 0..99, a cell is marked as today exactly when it
      is a day of the displayed month and that day is `today`. */
  lemma TodayMark(data: Data, l: MonthLayout, today: Date, p: int)
    requires Consistent(l) && !(0 <= l.year <= 99)
    ensures var c := LayoutCell(data, l, today, p);
      c.isToday <==> c.kind == CurrentMonth && CellDate(l, PlaceAt(l, p)) == today
  {
  }

  /** Only a day of the displayed month with a stored, non-zero record
      gets the Edit and Delete buttons, and their key is its date's key. */
  lemma ActionsOnlyForStoredDays(data: Data, l: MonthLayout, today: Date, p: int)
    requires Consistent(l)
    ensures var c := LayoutCell(data, l, today, p);
      c.HasActions() <==>
        var key := FormatDate(CellDate(l, PlaceAt(l, p)));
        c.kind == CurrentMonth && c.Key() == Some(key) && key in data && data[key] != Record(0, 0)
  {
  }
}
