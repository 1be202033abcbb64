/**
  The date picker (`renderDatePicker`): a "Month Year" caption and always
  six weeks of day cells, the displayed month's days marked as selected
  when they are the input's date; a click on a day writes that day's key
  into the date input.
*/
module Picker {
  import opened Wrappers
  import opened Text
  import opened Dates
  import opened DateKey
  import opened Ledger
  import opened Navigation
  import opened Grid
  import opened CalendarLayout

  /** One day of the picker: greyed-out days of the adjacent months, and
      the day number shown. */
  datatype PickerCell = PickerCell(otherMonth: bool, day: int, selected: bool)

  /** The picker always has six rows of seven days. */
  const TotalCells := 42

  /** Day `d` of the picker's month is the selected date; the picker's
      year is compared as given with the selected date's full year. */
  predicate IsSelected(l: MonthLayout, d: int, selectedDate: Option<Date>) {
    selectedDate.Some? && d == selectedDate.value.day &&
    l.month == selectedDate.value.month && l.year == selectedDate.value.year
  }

  /** The picker cell at position `p`: the same day numbers as the grid. */
  function PickerCellAt(l: MonthLayout, selectedDate: Option<Date>, p: int): PickerCell {
    var place := PlaceAt(l, p);
    PickerCell(place.kind != CurrentMonth, place.day, place.kind == CurrentMonth && IsSelected(l, place.day, selectedDate))
  }

  /** `renderDatePicker(month, year, selectedDate)`: the caption and the
      cells, previous month, displayed month and next month in turn. */
  method RenderDatePicker(month: int, year: int, selectedDate: Option<Date>)
    returns (caption: string, cells: seq<PickerCell>)
    requires 0 <= month < 12
    ensures caption == PickerCaption(MonthView(month, year))
    ensures |cells| == TotalCells
    ensures forall p :: 0 <= p < TotalCells ==> cells[p] == PickerCellAt(LayoutOf(year, month), selectedDate, p)
  {
    caption := MonthNames[month] + " " + IntString(year);
    ghost var l := LayoutOf(year, month);
    var firstDayOfWeek, daysInMonth, prevMonthLastDay := MonthGeometry(year, month);
    LayoutOfConsistent(year, month);

    cells := [];
    var i := 0;
    while i < firstDayOfWeek
      invariant 0 <= i <= firstDayOfWeek && |cells| == i
      invariant forall k :: 0 <= k < |cells| ==> cells[k] == PickerCellAt(l, selectedDate, k)
    {
      var cell := PickerCell(true, prevMonthLastDay - (firstDayOfWeek - i - 1), false);
      PickerAppend(cells, cell, l, selectedDate);
      cells := cells + [cell];
      i := i + 1;
    }

    i := 1;
    while i <= daysInMonth
      invariant 1 <= i <= daysInMonth + 1 && |cells| == firstDayOfWeek + i - 1
      invariant forall k :: 0 <= k < |cells| ==> cells[k] == PickerCellAt(l, selectedDate, k)
    {
      var selected := selectedDate.Some? && i == selectedDate.value.day &&
        month == selectedDate.value.month && year == selectedDate.value.year;
      var cell := PickerCell(false, i, selected);
      PickerAppend(cells, cell, l, selectedDate);
      cells := cells + [cell];
      i := i + 1;
    }

    var remainingCells := TotalCells - (firstDayOfWeek + daysInMonth);
    i := 1;
    while i <= remainingCells
      invariant 1 <= i && (remainingCells >= 0 ==> i <= remainingCells + 1)
      invariant |cells| == firstDayOfWeek + daysInMonth + i - 1
      invariant forall k :: 0 <= k < |cells| ==> cells[k] == PickerCellAt(l, selectedDate, k)
    {
      var cell := PickerCell(true, i, false);
      PickerAppend(cells, cell, l, selectedDate);
      cells := cells + [cell];
      i := i + 1;
    }
  }

  /** Appending the cell due at the next position keeps all cells due. */
  lemma PickerAppend(cells: seq<PickerCell>, cell: PickerCell, l: MonthLayout, selectedDate: Option<Date>)
    requires forall k :: 0 <= k < |cells| ==> cells[k] == PickerCellAt(l, selectedDate, k)
    requires cell == PickerCellAt(l, selectedDate, |cells|)
    ensures forall k :: 0 <= k <= |cells| ==> (cells + [cell])[k] == PickerCellAt(l, selectedDate, k)
  {
    forall k | 0 <= k <= |cells| ensures (cells + [cell])[k] == PickerCellAt(l, selectedDate, k) {
      if k < |cells| { assert (cells + [cell])[k] == cells[k]; }
    }
  }

  /** The picker and the calendar grid show the same day numbers, greyed
      out in the same places, for all the grid's positions; the picker's
      six weeks always cover the whole month. */
  lemma PickerAgreesWithGrid(data: Data, l: MonthLayout, today: Date, selectedDate: Option<Date>, p: int)
    requires Consistent(l) && 0 <= p < 7 * RowCount(l)
    ensures 7 * RowCount(l) <= TotalCells
    ensures var c := LayoutCell(data, l, today, p); var q := PickerCellAt(l, selectedDate, p);
      q.day == c.day && (q.otherMonth <==> c.kind != CurrentMonth)
  {
    RowCountBounds(l);
  }

  /** When the picker shows the month of a valid selected date, exactly
      that date's cell is selected; otherwise none is (outside the years
      0..99, whose months the constructor takes from 1900..1999). */
  lemma SelectedOnce(l: MonthLayout, selectedDate: Option<Date>, p: int)
    requires Consistent(l) && !(0 <= l.year <= 99) && 0 <= p < TotalCells
    requires selectedDate.Some? ==> ValidDate(selectedDate.value)
    ensures PickerCellAt(l, selectedDate, p).selected <==>
      selectedDate.Some? && selectedDate.value.month == l.month && selectedDate.value.year == l.year &&
      p == l.firstDayOfWeek + selectedDate.value.day - 1
  {
  }

  /** Picker cell `p` shows the day number of the date `p - firstDayOfWeek`
      days after the first of the month, and is greyed out exactly when
      that date lies outside the month; in the picker's six weeks the days
      run on without a gap. */
  lemma PickerShowsDays(l: MonthLayout, selectedDate: Option<Date>, p: int)
    requires Consistent(l) && 0 <= p < TotalCells
    ensures var q, dt := PickerCellAt(l, selectedDate, p), AddDays(l.first, p - l.firstDayOfWeek);
      q.day == dt.day && (q.otherMonth <==> (dt.year, dt.month) != (l.first.year, l.first.month))
  {
    CellShowsDate(l, p);
    var last, next := LastOfPreviousMonth(l.first.year, l.first.month), FirstOfNextMonth(l.first.year, l.first.month);
    assert (last.year, last.month) != (l.first.year, l.first.month);
    assert (next.year, next.month) != (l.first.year, l.first.month);
  }

  /** A click on day `i` writes the key of `new Date(year, month, i)`. */
  function PickedKey(month: int, year: int, i: int): string {
    FormatDate(NewDate(year, month, i))
  }

  /** The key written by a click reads back, through `parseDate`, as the
      clicked day of the picker's month, outside the years 0..99. */
  lemma PickedKeyRoundTrip(month: int, year: int, i: int)
    requires 0 <= month < 12 && !(0 <= year <= 99) && 1 <= i <= DaysInMonth(year, month)
    ensures ParseDate(PickedKey(month, year, i)) == Some(Date(year, month, i))
  {
    MakeDateValid(Date(year, month, i));
    ParseFormatRoundTrip(Date(year, month, i));
  }
}
