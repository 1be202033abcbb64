/**
  The entry form and its edit session over the ledger: `selectDate`,
  `editTradeData`, `saveTradeData`, `deleteTradeData`, `cancelEdit`,
  `resetForm`, the delete button of a day cell, the date picker's opening
  and its day click, the CSV import and the two JSON loads.
*/
module Session {
  import opened Wrappers
  import opened Text
  import opened Dates
  import opened DateKey
  import opened Ledger
  import opened Picker
  import Csv

  /** `parseFloat(profitLossInput.value) || 0`, in cents. */
  function EnteredPL(s: string): int {
    ParseCents(s).GetOr(0)
  }

  /** `parseInt(tradesInput.value) || 0`. */
  function EnteredTrades(s: string): int {
    ParseInt(s).GetOr(0)
  }

  /** What `showDatePicker` does: leave the picker hidden, or show it with
      the day it opens on and marks as selected. `Shown(None)` is the
      picker `renderDatePicker` draws for an Invalid Date: the caption
      reads "undefined NaN" and no day cells appear, but it is shown. */
  datatype PickerShown = Hidden | Shown(selected: Option<Date>)

  /** Hidden while editing; otherwise the date in the input, or today when
      the input is empty. An input `parseDate` cannot read still shows the
      picker, on an Invalid Date. */
  function PickerDate(isEditMode: bool, dateInput: string, today: Date): PickerShown {
    if isEditMode then Hidden
    else if dateInput == "" then Shown(Some(today))
    else Shown(ParseDate(dateInput))
  }

  class TradingCalendar {
    var data: Data
    var isEditMode: bool
    var originalDateKey: Option<string>
    var dateInput: string
    var profitLossInput: string
    var tradesInput: string

    /** The session is editing exactly when it knows the original key. */
    ghost predicate Valid()
      reads this
    {
      isEditMode <==> originalDateKey.Some?
    }

    /** An empty form outside edit mode. */
    ghost predicate Cleared()
      reads this
    {
      !isEditMode && originalDateKey == None && dateInput == "" && profitLossInput == "" && tradesInput == ""
    }

    constructor ()
      ensures Valid() && Cleared() && data == map[]
    {
      data := map[];
      isEditMode := false;
      originalDateKey := None;
      dateInput := "";
      profitLossInput := "";
      tradesInput := "";
    }

    /** `resetForm`: leave edit mode and clear the three inputs. */
    method ResetForm()
      modifies this
      ensures Valid() && Cleared() && data == old(data)
    {
      isEditMode := false;
      originalDateKey := None;
      dateInput := "";
      profitLossInput := "";
      tradesInput := "";
    }

    /** `cancelEdit`: only the session changes. */
    method CancelEdit()
      modifies this
      ensures Valid() && Cleared() && data == old(data)
    {
      ResetForm();
    }

    /** `selectDate`: a click on a day fills the date input, except while
      editing. */
    method SelectDate(date: Date)
      requires Valid()
      modifies this
      ensures Valid() && data == old(data) && isEditMode == old(isEditMode)
      ensures originalDateKey == old(originalDateKey)
      ensures profitLossInput == old(profitLossInput) && tradesInput == old(tradesInput)
      ensures dateInput == if old(isEditMode) then old(dateInput) else FormatDate(date)
    {
      if isEditMode {
        return;
      }
      dateInput := FormatDate(date);
    }

    /** `editTradeData(dateKey)`: enter edit mode on `dateKey` and fill the
      form from its record. For a key without a record the script fails
      after entering edit mode; `ok` is false then and the two amount inputs
      keep their text. */
    method EditTradeData(dateKey: string) returns (ok: bool)
      modifies this
      ensures Valid() && data == old(data)
      ensures isEditMode && originalDateKey == Some(dateKey) && dateInput == dateKey
      ensures ok <==> dateKey in data
      ensures ok ==> profitLossInput == ShowCents(data[dateKey].pl) && tradesInput == IntString(data[dateKey].trades)
      ensures !ok ==> profitLossInput == old(profitLossInput) && tradesInput == old(tradesInput)
    {
      isEditMode := true;
      originalDateKey := Some(dateKey);
      dateInput := dateKey;
      if dateKey !in data {
        return false;
      }
      profitLossInput := ShowCents(data[dateKey].pl);
      tradesInput := IntString(data[dateKey].trades);
      ok := true;
    }

    /** `saveTradeData`: with a date, store the entered amounts under it
      (dropping the original key of an edit whose date changed) and clear
      the form; without one, change nothing. */
    method SaveTradeData() returns (saved: bool)
      requires Valid()
      modifies this
      ensures saved <==> old(dateInput) != ""
      ensures !saved ==> (data == old(data) && isEditMode == old(isEditMode) &&
                          originalDateKey == old(originalDateKey) && dateInput == old(dateInput) &&
                          profitLossInput == old(profitLossInput) && tradesInput == old(tradesInput))
      ensures saved ==> (Cleared() &&
                         data == SaveEntry(old(data), old(originalDateKey), old(dateInput),
                                           Record(EnteredPL(old(profitLossInput)), EnteredTrades(old(tradesInput)))))
      ensures Valid()
    {
      var date := dateInput;
      var profitLoss := EnteredPL(profitLossInput);
      var trades := EnteredTrades(tradesInput);
      if date == "" {
        return false;
      }
      data := SaveEntry(data, if isEditMode then originalDateKey else None, date, Record(profitLoss, trades));
      ResetForm();
      saved := true;
    }

    /** `deleteTradeData`: in edit mode with a (non-empty) original key,
      drop that key and clear the form; otherwise do nothing. */
    method DeleteTradeData() returns (deleted: bool)
      requires Valid()
      modifies this
      ensures deleted <==> old(isEditMode) && old(originalDateKey).Some? && old(originalDateKey).value != ""
      ensures !deleted ==> (data == old(data) && isEditMode == old(isEditMode) &&
                            originalDateKey == old(originalDateKey) && dateInput == old(dateInput) &&
                            profitLossInput == old(profitLossInput) && tradesInput == old(tradesInput))
      ensures deleted ==> Cleared() && data == DeleteEntry(old(data), old(originalDateKey).value)
      ensures Valid()
    {
      if !isEditMode || originalDateKey.None? || originalDateKey.value == "" {
        return false;
      }
      data := DeleteEntry(data, originalDateKey.value);
      ResetForm();
      deleted := true;
    }

    /** The confirmed delete button of a day cell: drop that day's key and
      nothing else; the session is untouched. */
    method DeleteDay(dateKey: string)
      modifies this
      ensures data == DeleteEntry(old(data), dateKey)
      ensures isEditMode == old(isEditMode) && originalDateKey == old(originalDateKey)
      ensures dateInput == old(dateInput) && profitLossInput == old(profitLossInput) && tradesInput == old(tradesInput)
    {
      data := DeleteEntry(data, dateKey);
    }

    /** `showDatePicker`: whether the picker opens, and on which day. */
    method ShowDatePicker(today: Date) returns (pickerDate: PickerShown)
      ensures isEditMode ==> pickerDate.Hidden?
      ensures !isEditMode && dateInput == "" ==> pickerDate == Shown(Some(today))
      ensures !isEditMode && dateInput != "" ==> pickerDate == Shown(ParseDate(dateInput))
    {
      pickerDate := PickerDate(isEditMode, dateInput, today);
    }

    /** A click on day `i` of the picker showing `month` of `year`. */
    method PickDay(month: int, year: int, i: int)
      modifies this
      ensures dateInput == PickedKey(month, year, i)
      ensures data == old(data) && isEditMode == old(isEditMode) && originalDateKey == old(originalDateKey)
      ensures profitLossInput == old(profitLossInput) && tradesInput == old(tradesInput)
    {
      dateInput := FormatDate(NewDate(year, month, i));
    }

    /** `processCSVImport`: empty the ledger, then keep every row after the
      first that is not blank and has a date and two numbers. */
    method ImportCsv(csvData: string)
      modifies this
      ensures data == Csv.ImportCsv(csvData)
      ensures isEditMode == old(isEditMode) && originalDateKey == old(originalDateKey)
      ensures dateInput == old(dateInput) && profitLossInput == old(profitLossInput) && tradesInput == old(tradesInput)
    {
      data := ImportRows(Split(csvData, '\n'));
    }

    /** `loadFromFile`: a non-empty file replaces the ledger only when it
      parses; `parse` stands for `JSON.parse`, `None` for a parse error. */
    method LoadFromFile(fileData: string, parse: string -> Option<Data>)
      modifies this
      ensures data == if fileData != "" && parse(fileData).Some? then parse(fileData).value else old(data)
      ensures isEditMode == old(isEditMode) && originalDateKey == old(originalDateKey)
      ensures dateInput == old(dateInput) && profitLossInput == old(profitLossInput) && tradesInput == old(tradesInput)
    {
      if fileData != "" {
        var parsed := parse(fileData);
        if parsed.Some? {
          data := parsed.value;
        }
      }
    }

    /** `loadFromStorage`: a stored, non-empty text replaces the ledger; one
      that does not parse empties it. `stored` is `None` when nothing is
      stored. */
    method LoadFromStorage(stored: Option<string>, parse: string -> Option<Data>)
      modifies this
      ensures data == if stored.None? || stored.value == "" then old(data)
                      else parse(stored.value).GetOr(map[])
      ensures isEditMode == old(isEditMode) && originalDateKey == old(originalDateKey)
      ensures dateInput == old(dateInput) && profitLossInput == old(profitLossInput) && tradesInput == old(tradesInput)
    {
      if stored.Some? && stored.value != "" {
        var parsed := parse(stored.value);
        if parsed.Some? {
          data := parsed.value;
        } else {
          data := map[];
        }
      }
    }
  }

  /** The import loop: every line after the first, in turn, from an
      empty ledger. */
  method ImportRows(lines: seq<string>) returns (imported: Data)
    requires |lines| >= 1
    ensures imported == Csv.ImportLines(lines[1..])
  {
    imported := map[];
    var i := 1;
    while i < |lines|
      invariant 1 <= i <= |lines|
      invariant imported == Csv.ImportLines(lines[1..i])
    {
      ImportPrefixStep(lines, i);
      imported := Csv.ImportLine(imported, lines[i]);
      i := i + 1;
    }
    ImportPrefixAll(lines);
  }

  lemma ImportPrefixStep(lines: seq<string>, i: int)
    requires 1 <= i < |lines|
    ensures Csv.ImportLines(lines[1..i + 1]) == Csv.ImportLine(Csv.ImportLines(lines[1..i]), lines[i])
  {
    assert lines[1..i + 1] == lines[1..i] + [lines[i]];
    Csv.ImportSnoc(lines[1..i], lines[i]);
  }

  lemma ImportPrefixAll(lines: seq<string>)
    requires |lines| >= 1
    ensures Csv.ImportLines(lines[1..|lines|]) == Csv.ImportLines(lines[1..])
  {
    assert lines[1..|lines|] == lines[1..];
  }

  /** Editing a day and saving without touching the form leaves the
      ledger as it was: the amounts written into the inputs read back. */
  lemma EditSaveRoundTrip(data: Data, key: string)
    requires key in data && key != ""
    ensures SaveEntry(data, Some(key), key,
              Record(EnteredPL(ShowCents(data[key].pl)), EnteredTrades(IntString(data[key].trades)))) == data
  {
    ParseCentsRoundTrip(data[key].pl);
    ParseIntRoundTrip(data[key].trades);
  }

  /** Saving an edit under a new date moves the record: the original key
      is gone and the ledger keeps its size when the new date was free. */
  lemma EditMovesRecord(data: Data, original: string, date: string, rec: Record)
    requires original in data && date !in data && original != date
    ensures var r := SaveEntry(data, Some(original), date, rec);
      original !in r && r[date] == rec && |r| == |data|
  {
    MoveKeepsCount(data, original, date, rec);
  }

  /** After a day was selected outside edit mode, the picker opens on
      that day (outside the years 0..99). */
  lemma PickerOpensOnSelectedDay(date: Date, today: Date)
    requires ValidDate(date) && !(0 <= date.year <= 99)
    ensures PickerDate(false, FormatDate(date), today) == Shown(Some(date))
  {
    FormatDateShape(date);
    ParseFormatRoundTrip(date);
  }

  /** A hand-typed input `parseDate` cannot read does not keep the picker
      shut: it opens on an Invalid Date. */
  lemma PickerOpensOnUnreadableInput(today: Date)
    ensures PickerDate(false, "tomorrow", today) == Shown(None)
  {
    assert Split("tomorrow", '/') == ["tomorrow"] by {
      SplitNoSep("tomorrow", '/');
    }
  }
}
