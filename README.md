# Trading calendar: a verified model of the calendar and ledger engine

The trading calendar is an Electron desktop app. It keeps a profit/loss
ledger keyed by date and shows it as a month calendar with weekly and
monthly totals. All of its logic is in `src/script.js`, mixed in with DOM
code. This project models that logic in Dafny, without the DOM, and proves
what the script promises about it.

The modules follow the script's parts:

- `Wrappers`: `Option`.
- `Text`: digits, `Split`/`Join`, trimming, and the number conversions the
  script uses. `parseFloat` becomes `ParseCents` (profit/loss as integer
  cents). `parseInt` becomes `ParseInt`. `Number()` becomes `ToNumber`.
  JavaScript's number-to-string becomes `ShowCents` and `IntString`.
- `Dates`: the proleptic Gregorian calendar, day stepping, the JavaScript
  `Date` constructor's overflow (`NewDate`, `MakeDate`, `FullYear`), and an
  explicit days-from-civil count with the weekday it gives.
- `DateKey`: `formatDate` and `parseDate`, which turn a date into the
  `MM/DD/YYYY` ledger key and back.
- `Ledger`: a record `{pl, trades}`, the ledger map, and the two map updates
  that saving and deleting perform.
- `Aggregation`: the 7-day week totals and the monthly P/L loop.
- `Navigation`: month/year wrap for the calendar and for the date picker's
  caption.
- `Grid`: `renderCalendar` as nested row and cell loops, with the running
  counters `date`, `nextMonthDate` and `weekNumber`, and the week summaries.
- `CalendarLayout`: properties of the grid layout.
- `Picker`: `renderDatePicker`, which always has 42 cells, and the key a
  click on a picker day writes.
- `Csv`: the CSV text that `exportData` builds and `processCSVImport` reads.
- `Session`: a class `TradingCalendar` holding:
  - the ledger (`data`);
  - the edit flags `isEditMode` and `originalDateKey`;
  - the three form inputs.

  Its methods are `selectDate`, `editTradeData`, `saveTradeData`,
  `deleteTradeData`, `cancelEdit`, `resetForm`, the per-cell delete, CSV
  import and the two JSON loads.

"Today" is a parameter wherever the script reads the clock.
`JSON.parse` is an abstract parameter `parse: string -> Option<Data>`, and
`None` stands for a parse that throws.

`parseDate` does not validate its input: `new Date(yy, mm - 1, dd)` carries
an out-of-range month or day into the next month or year. The model does
the same (`DateKey.ParseDateOverflows`).

## Model

| member | source | states |
|---|---|---|
| DateKey.FormatDate | src/script.js:384-389 | definition of `formatDate`; its contract is stated by DateKey.FormatDateShape, DateKey.FormatDateInjective and DateKey.ParseFormatRoundTrip |
| DateKey.FormatDateShape | src/script.js:384-389 | the key is the month (1-based) padded to two digits, '/', the day padded to two digits, '/', and the unpadded year; for years 1000..9999 it is 10 characters long |
| DateKey.FormatDateInjective | src/script.js:384-389 | two valid dates with the same key are the same date |
| DateKey.ParseDate | src/script.js:391-394 | a key parses exactly when it has three numeric '/'-separated fields, and the result is always a valid date |
| DateKey.ParseFormatRoundTrip | src/script.js:384-394 | parseDate(formatDate(d)) == d for every valid date outside the years 0..99 |
| DateKey.ParseTwoDigitYear | src/script.js:391-394 | a key with year 50 reads back as 1950, because the Date constructor maps years 0..99 into the 1900s |
| DateKey.ParseDateOverflows | src/script.js:391-394 | "02/30/2024" is not rejected and reads as 1 March 2024 |
| Dates.NewDate | src/script.js:393 | definition of `new Date(y, m, d)`: always a valid date; its overflow is stated by Dates.NewDateFromFirst, Dates.NewDateMonthLength and DateKey.ParseDateOverflows |
| Dates.SetDate | src/script.js:203 | definition of `setDate(n)`: always a valid date; the week-end date it gives is stated by Grid.WeekBounds |
| Dates.DaysInMonth | src/script.js:173-174 | a month has 28..31 days; February has 29 exactly in leap years; April, June, September and November have 30 |
| Dates.NewDateMonthLength | src/script.js:173-174 | new Date(y, m + 1, 0).getDate() is the length of month m |
| Dates.MakeDateDayZero | src/script.js:179-180 | day 0 of a month is the last day of the month before it, across a year boundary too |
| Dates.NewDateFromFirst | src/script.js:172-180 | new Date(y, m, d) is d - 1 days after the first of month m in the full year of y |
| Dates.NextPrevInverse | src/script.js:200-212 | stepping a date forward one day and back (or back and forward) gives the same date |
| Dates.AddDaysAdditive | src/script.js:200-212 | moving a date by a days and then by b days moves it by a + b days |
| Dates.DaysFromCivilAdd | src/script.js:176-177 | the day count moves by exactly k when the date moves by k days |
| Dates.WeekdayAdd | src/script.js:176-177 | moving a date by k days moves its weekday by k modulo 7 |
| Dates.EpochIsThursday | src/script.js:176-177 | 1 January 1970 is day 0 and a Thursday (weekday 4, Sunday being 0) |
| Grid.Ceil7 | src/script.js:182-183 | the row count is the least r with 7r >= firstDayOfWeek + daysInMonth |
| Grid.RenderCalendar | src/script.js:161-318 | renderCalendar yields ceil((firstDayOfWeek + daysInMonth)/7) rows; row i holds the seven cells at positions 7i..7i+6 and the summary of week i + 1 |
| Grid.MonthGeometry | src/script.js:172-180 | the first weekday, the month length and the previous month's last day are those of the displayed month |
| Grid.RenderRows | src/script.js:186-318 | the row loop with its counters lays out every row |
| Grid.RenderRow | src/script.js:191-318 | one row: summary and seven cells, counters advanced by seven positions |
| Grid.WeekBounds | src/script.js:199-204 | the week runs from day i*7+1-firstDayOfWeek of the displayed month for seven days |
| Grid.RenderSummary | src/script.js:194-219 | a week summary carries the week number, the week's first and last day and its totals |
| Grid.RenderWeekCells | src/script.js:221-317 | the 7-step cell loop yields the cells at positions 7i..7i+6 and advances both counters |
| Grid.RenderCell | src/script.js:224-317 | each of the three branches (previous, current, next month) produces the cell at its grid position and advances its counter |
| Grid.WeekStartOfConstructor | src/script.js:199-201 | the Date the script builds for the week start is the first of the month moved by i*7 - firstDayOfWeek days |
| Grid.LayoutOfConstructor | src/script.js:172-180 | the layout's first weekday, month length and previous month's last day are what the script's Date calls give |
| CalendarLayout.RowCountBounds | src/script.js:182-184 | the grid has 4 to 6 rows and exactly covers the leading blanks and the month |
| CalendarLayout.GridSections | src/script.js:224-317 | cells before firstDayOfWeek show the previous month's last days ending at prevMonthLastDay; the next daysInMonth cells show the month from 1; later cells show the next month from 1; each section counts up by one; firstDayOfWeek + daysInMonth <= 37 |
| CalendarLayout.CurrentDayOnce | src/script.js:233-311 | day d of the month appears exactly once, at position firstDayOfWeek + d - 1 |
| CalendarLayout.CellShowsDate | src/script.js:191-317 | the cell at position p shows the date p - firstDayOfWeek days after the first of the month |
| CalendarLayout.CellWeekday | src/script.js:176-177 | the cell in column p % 7 shows a date with that weekday |
| CalendarLayout.SummaryCoversRow | src/script.js:199-219 | the j-th day of week i's summary window is the date shown in cell j of row i |
| CalendarLayout.TodayMark | src/script.js:241-247 | outside the years 0..99 a cell is marked today exactly when it is a day of the displayed month equal to today |
| CalendarLayout.ActionsOnlyForStoredDays | src/script.js:250-266 | only a day of the displayed month whose key holds a non-zero record gets the edit and delete buttons, and they carry that day's key |
| Aggregation.WeekTotals | src/script.js:206-219 | the 7-step week loop sums pl and trades of the stored records of the seven days from the week start, days outside the month included |
| Aggregation.WindowSplit | src/script.js:206-219 | the totals of a window of a + b days are those of its first a days plus those of the next b days |
| Aggregation.WindowUpdate | src/script.js:206-219 | storing a record for a day inside the window changes the totals by exactly the new record minus the old |
| Aggregation.WindowEmpty | src/script.js:206-219 | an empty ledger gives zero totals |
| Aggregation.MonthlyPL | src/script.js:340-353 | the loop over days 1..daysInMonth returns the month total |
| Aggregation.LoopPLIsWindow | src/script.js:345-353 | the loop's running P/L after n days is the P/L of the first n days of the month |
| Aggregation.MonthTotal | src/script.js:340-353 | definition of the monthly P/L; its contract is stated by Aggregation.MonthlyPL and the MonthTotal lemmas below |
| Aggregation.MonthTotalEmpty | src/script.js:340-353 | an empty ledger has monthly P/L 0 |
| Aggregation.MonthTotalNoRecords | src/script.js:340-353 | a month none of whose days has a record has monthly P/L 0, whatever other months hold |
| Aggregation.MonthTotalIgnoresOtherMonths | src/script.js:340-353 | storing or deleting a record of another month leaves the monthly P/L unchanged |
| Aggregation.MonthTotalUpdate | src/script.js:340-353 | storing a record for a day of the month changes the monthly P/L by the new pl minus the old |
| Aggregation.MonthTotalTwoDays | src/script.js:340-353 | two records on two days of the month give the sum of their pl values and ignore trades |
| Aggregation.MonthTotalExample | src/script.js:340-353 | records of +150.50 and -75.25 on two March 2024 days give a March P/L of +75.25 |
| Navigation.PreviousMonth | src/script.js:360-367 | the month stays in 0..11 and the (year, month) pair moves back by one month, borrowing from the year |
| Navigation.NextMonth | src/script.js:369-376 | the month stays in 0..11 and moves on by one month, carrying into the year |
| Navigation.NextPreviousInverse | src/script.js:360-376 | next after previous and previous after next give back the same month |
| Navigation.MonthNumberInjective | src/script.js:360-376 | a month is determined by its year*12+month count |
| Navigation.UpdatePickerMonth | src/script.js:511-536 | definition of `updatePickerMonth`; its contract is stated by Navigation.PickerCaptionRoundTrip |
| Navigation.PickerStepAgrees | src/script.js:521-528 | the picker's wrap rule for -1 and +1 is the calendar's previous and next month |
| Navigation.IndexOf | src/script.js:518 | indexOf returns a position holding the name, or -1 when the name is absent |
| Navigation.PickerCaptionRoundTrip | src/script.js:511-528 | reading month and year back from the picker caption and stepping gives the stepped month |
| Picker.RenderDatePicker | src/script.js:439-508 | the three loops yield the "Month Year" caption and exactly 42 cells, each the picker cell of its position |
| Picker.PickerAgreesWithGrid | src/script.js:449-508 | on the calendar's positions the picker shows the same day numbers and marks the same cells as another month |
| Picker.PickerShowsDays | src/script.js:455-507 | picker cell p shows the day number of the date p - firstDayOfWeek days after the first of the month, and is greyed out exactly when that date lies outside the month |
| Picker.SelectedOnce | src/script.js:466-476 | outside the years 0..99 a picker cell is selected exactly when it is the selected date's cell in the selected date's month |
| Picker.PickedKey | src/script.js:480-484 | definition of the key a picker click writes; its contract is stated by Picker.PickedKeyRoundTrip |
| Picker.PickedKeyRoundTrip | src/script.js:480-484 | the key a picker click writes reads back as the clicked day, outside the years 0..99 |
| Ledger.SaveEntry | src/script.js:550-556 | the date holds the new record; a different original key is removed; every other key is unchanged; no key is added but the date |
| Ledger.MoveKeepsCount | src/script.js:550-556 | moving a record to a new date keeps the number of records |
| Ledger.OverwriteKeepsCount | src/script.js:550-556 | overwriting a stored date keeps the set of keys |
| Ledger.DeleteEntry | src/script.js:301 | deleting removes just that key and keeps every other record |
| Ledger.DeleteAbsent | src/script.js:613-630 | deleting an absent key changes nothing |
| Text.ParseCents | src/script.js:927 | definition of `parseFloat` in cents: `None` exactly when no digits follow the white space and sign; its contract is stated by Text.ParseCentsRoundTrip, Text.ParseSigned and Text.LetterNotNumber |
| Text.ParseInt | src/script.js:928 | definition of `parseInt`: `None` exactly when no digit follows the white space and sign; its contract is stated by Text.ParseIntRoundTrip |
| Text.ToNumber | src/script.js:393 | definition of `Number()` on a key field: a blank field is 0; its contract is stated by Text.ToNumberOfInt |
| Text.ParseCentsRoundTrip | src/script.js:541 | parseFloat reads back every amount the form shows |
| Text.UnsignedCentsRoundTrip | src/script.js:541 | an unsigned amount reads back as itself |
| Text.ParseSigned | src/script.js:541 | an amount with a leading minus reads as the negated amount |
| Text.ParseIntRoundTrip | src/script.js:542 | parseInt reads back every trade count the form shows |
| Text.ToNumberOfInt | src/script.js:393 | Number() reads back every integer's decimal string |
| Text.LetterNotNumber | src/script.js:927 | in the model's parser, which reads no `Infinity`, a field starting with a capital letter is not a number |
| Text.SplitJoin | src/script.js:916 | joining the pieces of a split with the separator gives back the string |
| Text.SplitConcat | src/script.js:916 | splitting a + sep + b gives a followed by the pieces of b |
| Csv.ExportCsv | src/script.js:849-854 | the export starts with the header line and then has one date,pl,trades line per key, each key exactly once; importing it gives back the ledger whenever every key is non-empty, has no comma or newline and is not `__proto__` |
| Csv.AppendRow | src/script.js:851-853 | one loop step appends exactly the next key's line |
| Csv.RowsSnoc | src/script.js:851-853 | the rows of keys + [k] are the rows of keys followed by k's line |
| Csv.ExportImportRoundTrip | src/script.js:849-936 | importing an export gives back the exported ledger, when every key is non-empty, has no comma or newline and is not `__proto__` |
| Csv.FormatDateSafe | src/script.js:384-389 | every formatted date key survives export and import |
| Csv.ImportLine | src/script.js:923-934 | definition of one pass of the import loop; its contract is stated by Csv.BlankLineSkipped, Csv.ImportFields, Csv.LineImports and Csv.KeptByLine |
| Csv.ImportCsv | src/script.js:914-936 | definition of `processCSVImport`; its contract is stated by Csv.ExportImportRoundTrip and Csv.LastRowWins |
| Csv.ImportedKeys | src/script.js:926-932 | every imported key is the first field of some line |
| Csv.ImportedRowKept | src/script.js:923-934 | conversely, a three-field row with a non-empty date and two readable numbers stores that record under its date when no later line names the date |
| Csv.BlankLineSkipped | src/script.js:920-923 | a whitespace-only line changes nothing |
| Csv.SecondFieldFails | src/script.js:925-932 | a row whose P/L field does not parse changes nothing |
| Csv.NonNumericRowSkipped | src/script.js:925-932 | a date,pl,... row whose pl is not a number changes nothing |
| Csv.HeaderSkipped | src/script.js:916-921 | the header line is skipped even when it is read as a row |
| Csv.ImportFields | src/script.js:925-932 | a three-field row is stored exactly when the date is non-empty and both numbers parse, with those numbers |
| Csv.LineImports | src/script.js:925-932 | the line export writes for a record imports as that record |
| Csv.ImportSnoc | src/script.js:921-935 | importing lines + [line] is importing lines and then that line |
| Csv.LaterRowWins | src/script.js:925-934 | of two consecutive rows for the same date the second is kept (the general case is Csv.LastRowWins) |
| Csv.KeptUntilNamed | src/script.js:921-935 | a stored date keeps its record through any later lines whose first field is another date |
| Csv.LastRowWins | src/script.js:921-935 | wherever it stands, the last row for a date decides that date's record |
| Csv.TrailingBlank | src/script.js:920-923 | the empty piece after the export's last newline imports nothing |
| Csv.SplitExport | src/script.js:916 | splitting the export at newlines and dropping the header gives its lines and one empty piece |
| Csv.ImportOfLines | src/script.js:921-935 | importing the export lines of some keys gives the ledger restricted to those keys |
| Session.TradingCalendar.constructor | src/script.js:39-43 | the app starts with an empty ledger, not editing and with no original key |
| Session.TradingCalendar.ResetForm | src/script.js:636-658 | the inputs are emptied and the session leaves edit mode; the ledger is untouched |
| Session.TradingCalendar.CancelEdit | src/script.js:632-634 | cancelling only resets the session and the form; the ledger is untouched |
| Session.TradingCalendar.SelectDate | src/script.js:396-413 | while editing nothing changes; otherwise only the date input changes, to the clicked date's key |
| Session.TradingCalendar.EditTradeData | src/script.js:581-611 | edit mode is entered with the key as original key and date input; the form shows the stored record, or keeps its values when the key is absent |
| Session.TradingCalendar.SaveTradeData | src/script.js:539-564 | with an empty date nothing changes; otherwise the ledger becomes SaveEntry of the entered record (non-numbers read as 0) and the session is reset |
| Session.TradingCalendar.DeleteTradeData | src/script.js:613-630 | only in edit mode with a non-empty original key is that key deleted and the session reset; otherwise nothing changes |
| Session.TradingCalendar.DeleteDay | src/script.js:292-306 | the per-cell delete removes only its own key and leaves the session alone |
| Session.PickerDate | src/script.js:415-437 | definition of what `showDatePicker` shows; its contract is stated by Session.TradingCalendar.ShowDatePicker, Session.PickerOpensOnSelectedDay and Session.PickerOpensOnUnreadableInput |
| Session.TradingCalendar.ShowDatePicker | src/script.js:415-437 | while editing the picker stays hidden; otherwise it is shown, on today when the input is empty and on parseDate of the input when it is not (an Invalid Date when that fails) |
| Session.TradingCalendar.PickDay | src/script.js:480-484 | a click on picker day i writes that day's key into the date input and nothing else |
| Session.TradingCalendar.ImportCsv | src/script.js:914-936 | the ledger is replaced by the import of the text, the session is unchanged |
| Session.ImportRows | src/script.js:919-935 | the line loop from line 1 imports exactly the rows after the header, starting from an empty ledger |
| Session.TradingCalendar.LoadFromFile | src/script.js:800-812 | the ledger is replaced only when the file is non-empty and parses; otherwise it is kept |
| Session.TradingCalendar.LoadFromStorage | src/script.js:757-767 | a stored value replaces the ledger, with an empty ledger when it does not parse; no stored value keeps the ledger |
| Session.EditSaveRoundTrip | src/script.js:539-611 | saving right after editing a stored day writes back the same ledger |
| Session.EditMovesRecord | src/script.js:550-556 | editing a day and saving under a new date moves the record and keeps the number of records |
| Session.PickerOpensOnSelectedDay | src/script.js:396-437 | outside the years 0..99, after a day is selected the picker opens on that day |
| Session.PickerOpensOnUnreadableInput | src/script.js:425-436 | an input parseDate cannot read still shows the picker, on an Invalid Date |

## Left out

- DOM construction, CSS classes, `innerHTML` text, `toFixed` currency formatting, focus and `disabled` toggling, and `highlightElement`: these are user interface only.
- Notifications, dialog animations and `setTimeout` timers: user interface and timing.
- The confirm dialog's global callback registry: the confirmed deletes are direct calls (`DeleteTradeData`, `DeleteDay`).
- `localStorage`, `FileReader`, file inputs, Blob downloads and the Electron file bridge: these are I/O. Only the rule "replace the ledger only when parsing succeeds" is kept.
- `saveToStorage`, `saveToFile` and `JSON.stringify`: these only write out data.
- `JSON.parse` is an abstract parameter of the two load methods, because it is library behaviour.
- `Text.LetterNotNumber`: holds of the model's parser only. `parseFloat` reads a field starting with `Infinity` as a number, so the script stores a row whose P/L field is `Infinity`; the model skips it.
- `ParseCents`: integer cents, not IEEE doubles. Amounts with more than two fraction digits are truncated to cents. Exponents, `Infinity` and hexadecimal forms of `parseFloat`/`parseInt`/`Number()` are not modelled.
- `Aggregation.WeekTotals`, `Aggregation.MonthlyPL`: integer sums, not floating-point sums with rounding.
- The main process (`main.js`) and the preload bridge (`preload.js`): window, menu and IPC plumbing.
- `Text.ToNumber`, `DateKey.ParseDate`: `Number()` is modelled for integer fields only. A field with a fraction, such as the key "1.5/02/2024", gives `None`. JavaScript reads it as 0.5, which `new Date` truncates, so it gives 2 January 2024.
- `Text.Trim`, `Text.ParseInt`, `Text.ParseCents`: white space is ASCII white space, no-break space and the byte-order mark. JavaScript's `trim`, `parseInt` and `parseFloat` also skip the other Unicode space separators and line terminators.
- `DateKey.ParseDate`, `Dates.NewDate`: the `Date` range limit of 8.64e15 ms from the epoch is not modelled. A year field of 300000 gives Invalid Date in JavaScript and a valid date in the model.
- `Ledger.Data`, `Csv.ImportLine`: the ledger is a map from strings to records. The script's plain object does not store a row dated `__proto__`, because that assignment goes to the object's prototype. A later `for…in` export then lists the inherited `pl` and `trades` keys. The CSV round trip (`Csv.SafeKey`) therefore excludes that key, and no date key `formatDate` writes is affected (`Csv.FormatDateSafe`).
- The clock and the time zone: today's date is a parameter, and dates are plain calendar triples.
- `showCurrentMonth` (lines 378-382) only copies today's month and year into the view, so it has no separate model.
- The week's `weekStartFormatted`/`weekEndFormatted` strings are computed and never used. The summary keeps the two dates instead.
- `Csv.ExportCsv`: JavaScript's `for…in` key order is not modelled. The export is proved for an order that lists every key once, and that order is a ghost result.
- The date picker's screen positioning and its outside-click closing.
- `Navigation.UpdatePickerMonth`: a caption whose year does not parse gives `None`. The script re-renders the picker with a NaN year instead, showing a caption such as "January NaN" and no day cells. The picker reaches such a caption only after it was opened on an Invalid Date (`Session.PickerOpensOnUnreadableInput`), whose caption is "undefined NaN"; the model does not render that caption.
- `DateKey.ParseFormatRoundTrip`, `CalendarLayout.TodayMark`, `Picker.SelectedOnce`, `Picker.PickedKeyRoundTrip`, `Session.PickerOpensOnSelectedDay`: these are stated only outside the years 0..99. For those years the `Date` constructor moves two-digit years into the 1900s, so the round trips fail there (`DateKey.ParseTwoDigitYear`).
- Adjacent-month cells of the grid show no ledger data. The week summary still counts their records, as the script does.
- `Session.TradingCalendar.EditTradeData`: for a key with no record the script throws after entering edit mode. The model keeps that partial state and returns `ok == false`.
