/**
  The CSV codec: `exportData` writes a header and one `date,pl,trades`
  line per stored day; `processCSVImport` starts from an empty ledger,
  skips the header and blank lines, keeps only rows with a date and two
  numbers, and lets a later row of the same date overwrite an earlier one.
*/
module Csv {
  import opened Wrappers
  import opened Text
  import opened Dates
  import opened DateKey
  import opened Ledger

  /** The header line `Date,Profit/Loss,Trades`. */
  const HeaderLine := "Date" + "," + "Profit/Loss" + "," + "Trades"

  /** The text `exportData` starts from. */
  const Header := HeaderLine + "\n"

  /** Regrouping a concatenation; stated apart so that the export proofs
      do not search for it among the unfolded rows. */
  lemma Assoc(a: string, b: string, c: string)
    ensures (a + b) + c == a + (b + c)
  {
  }

  /** The line of one stored day, without its line break; the numbers are
      written the way JavaScript prints them. */
  function Line(date: string, rec: Record): string {
    date + "," + ShowCents(rec.pl) + "," + IntString(rec.trades)
  }

  /** The lines of the days `keys`, in turn, each ended by a line break. */
  function Rows(data: Data, keys: seq<string>): string
    requires forall i :: 0 <= i < |keys| ==> keys[i] in data
  {
    if |keys| == 0 then ""
    else Rows(data, keys[..|keys| - 1]) + (Line(keys[|keys| - 1], data[keys[|keys| - 1]]) + "\n")
  }

  /** The lines of the days `keys`, without line breaks. */
  function Lines(data: Data, keys: seq<string>): (r: seq<string>)
    requires forall i :: 0 <= i < |keys| ==> keys[i] in data
    ensures |r| == |keys|
  {
    if |keys| == 0 then []
    else Lines(data, keys[..|keys| - 1]) + [Line(keys[|keys| - 1], data[keys[|keys| - 1]])]
  }

  /** `keys` lists every stored day once: the order in which `for ... in`
      visits the ledger. */
  predicate Enumerates(keys: seq<string>, data: Data) {
    (forall i, j :: 0 <= i < j < |keys| ==> keys[i] != keys[j]) &&
    (forall i :: 0 <= i < |keys| ==> keys[i] in data) &&
    (forall k :: k in data ==> k in keys)
  }

  /** `exportData` without the file write: the CSV text, built by visiting
      every stored day once, in an order the model leaves open. */
  method ExportCsv(data: Data) returns (csv: string, ghost order: seq<string>)
    ensures Enumerates(order, data)
    ensures csv == Header + Rows(data, order)
    ensures |csv| >= |Header| && csv[..|Header|] == Header
    ensures (forall k :: k in data ==> SafeKey(k)) ==> ImportCsv(csv) == data
  {
    csv := Header;
    order := [];
    var remaining := data.Keys;
    while remaining != {}
      invariant Visited(order, remaining, data)
      invariant csv == Header + Rows(data, order)
      decreases remaining
    {
      var date :| date in remaining;
      csv := AppendRow(csv, data, order, date);
      VisitStep(order, remaining, data, date);
      order := order + [date];
      remaining := remaining - {date};
    }
    if forall k :: k in data ==> SafeKey(k) {
      ExportImportRoundTrip(data, order);
    }
  }

  /** The export loop has visited the days `order`, each once, and has the
      days `remaining` still to visit. */
  ghost predicate Visited(order: seq<string>, remaining: set<string>, data: Data) {
    remaining <= data.Keys &&
    (forall i, j :: 0 <= i < j < |order| ==> order[i] != order[j]) &&
    (forall i :: 0 <= i < |order| ==> order[i] in data && order[i] !in remaining) &&
    (forall k :: k in data ==> k in remaining || k in order)
  }

  lemma VisitStep(order: seq<string>, remaining: set<string>, data: Data, date: string)
    requires Visited(order, remaining, data) && date in remaining
    ensures Visited(order + [date], remaining - {date}, data)
  {
  }

  /** The body of the export loop: `csv += `${date},${data.pl},${data.trades}\n``. */
  method AppendRow(csv: string, data: Data, ghost order: seq<string>, date: string) returns (r: string)
    requires forall i :: 0 <= i < |order| ==> order[i] in data
    requires date in data && csv == Header + Rows(data, order)
    ensures r == Header + Rows(data, order + [date])
  {
    var rec := data[date];
    RowsSnoc(data, order, date);
    r := csv + (Line(date, rec) + "\n");
    Assoc(Header, Rows(data, order), Line(date, rec) + "\n");
  }

  lemma RowsSnoc(data: Data, keys: seq<string>, k: string)
    requires forall i :: 0 <= i < |keys| ==> keys[i] in data
    requires k in data
    ensures Rows(data, keys + [k]) == Rows(data, keys) + (Line(k, data[k]) + "\n")
  {
    assert (keys + [k])[..|keys|] == keys;
  }

  /** One pass of the import loop on line `line`. */
  function ImportLine(data: Data, line: string): Data {
    if Trim(line) == "" then data
    else
      var parts := Split(line, ',');
      var date := parts[0];
      var pl := if |parts| >= 2 then ParseCents(parts[1]) else None;
      var trades := if |parts| >= 3 then ParseInt(parts[2]) else None;
      if date != "" && pl.Some? && trades.Some? then data[date := Record(pl.value, trades.value)]
      else data
  }

  /** A line can only set the date in its first field. */
  lemma ImportLineFrame(data: Data, line: string)
    ensures ImportLine(data, line).Keys <= data.Keys + {Split(line, ',')[0]}
    ensures forall k :: k in data && k != Split(line, ',')[0] ==> k in ImportLine(data, line) && ImportLine(data, line)[k] == data[k]
  {
  }

  /** The ledger the import loop builds from `lines`, from an empty one. */
  function ImportLines(lines: seq<string>): Data {
    if |lines| == 0 then map[]
    else ImportLine(ImportLines(lines[..|lines| - 1]), lines[|lines| - 1])
  }

  /** `processCSVImport` without the storage write: every line after the
      first. */
  function ImportCsv(csv: string): Data {
    ImportLines(Split(csv, '\n')[1..])
  }

  /** A key the CSV format can carry: not empty, free of the two
      separators, and not `__proto__`, which an assignment on a plain
      JavaScript object does not store as a key. */
  predicate SafeKey(k: string) {
    k != "" && ',' !in k && '\n' !in k && k != "__proto__"
  }

  /** Every imported key is the first field of one of the lines. */
  lemma {:induction false} ImportedKeys(lines: seq<string>, k: string)
    requires k in ImportLines(lines)
    ensures exists i :: 0 <= i < |lines| && Split(lines[i], ',')[0] == k
  {
    if |lines| > 0 {
      var init := lines[..|lines| - 1];
      ImportLineFrame(ImportLines(init), lines[|lines| - 1]);
      if k in ImportLines(init) && k != Split(lines[|lines| - 1], ',')[0] {
        ImportedKeys(init, k);
        var i :| 0 <= i < |init| && Split(init[i], ',')[0] == k;
        assert lines[i] == init[i];
      } else {
        assert Split(lines[|lines| - 1], ',')[0] == k;
      }
    }
  }

  /** A blank line is skipped. */
  lemma BlankLineSkipped(data: Data, line: string)
    requires IsBlank(line)
    ensures ImportLine(data, line) == data
  {
  }

  /** A line whose second field is not a number is skipped. */
  lemma SecondFieldFails(data: Data, line: string)
    requires |Split(line, ',')| >= 2 && ParseCents(Split(line, ',')[1]).None?
    ensures ImportLine(data, line) == data
  {
  }

  lemma SplitSecondField(date: string, pl: string, rest: string)
    requires ',' !in date && ',' !in pl
    ensures var parts := Split(date + "," + pl + "," + rest, ',');
      |parts| >= 2 && parts[1] == pl
  {
    var line := date + "," + pl + "," + rest;
    assert line == date + [','] + (pl + [','] + rest);
    SplitConcat(date, ',', pl + [','] + rest);
    SplitConcat(pl, ',', rest);
  }

  /** A row whose profit/loss is not a number is skipped: the header, for one. */
  lemma NonNumericRowSkipped(data: Data, date: string, pl: string, rest: string)
    requires ',' !in date && ',' !in pl && ParseCents(pl).None?
    ensures ImportLine(data, date + "," + pl + "," + rest) == data
  {
    SplitSecondField(date, pl, rest);
    SecondFieldFails(data, date + "," + pl + "," + rest);
  }

  lemma HeaderFields()
    ensures ',' !in "Date" && ',' !in "Profit/Loss" && ParseCents("Profit/Loss").None?
  {
    assert ',' !in "Date";
    assert ',' !in "Profit/Loss";
    LetterNotNumber("Profit/Loss");
  }

  /** The header line is not a row of data. */
  lemma HeaderSkipped(data: Data)
    ensures ImportLine(data, HeaderLine) == data
  {
    HeaderFields();
    NonNumericRowSkipped(data, "Date", "Profit/Loss", "Trades");
  }

  /** A line of three fields imports as its date with its two numbers
      when the date is not empty and both numbers parse. */
  lemma ImportFields(data: Data, line: string, date: string, pl: string, trades: string)
    requires Split(line, ',') == [date, pl, trades] && !IsBlank(line)
    ensures ImportLine(data, line) ==
      if date != "" && ParseCents(pl).Some? && ParseInt(trades).Some? then
        data[date := Record(ParseCents(pl).value, ParseInt(trades).value)]
      else data
  {
  }

  /** The line of a stored day splits into its three fields. */
  lemma LineFields(date: string, rec: Record)
    requires SafeKey(date)
    ensures Split(Line(date, rec), ',') == [date, ShowCents(rec.pl), IntString(rec.trades)]
    ensures !IsBlank(Line(date, rec))
  {
    var pl, trades := ShowCents(rec.pl), IntString(rec.trades);
    ShowCentsChars(rec.pl, ',');
    IntStringChars(rec.trades, ',');
    SplitThree(date, pl, trades, ',');
    assert Line(date, rec)[|date|] == ',';
  }

  /** The line of a stored day imports as exactly that day. */
  lemma LineImports(data: Data, date: string, rec: Record)
    requires SafeKey(date)
    ensures ImportLine(data, Line(date, rec)) == data[date := rec]
  {
    LineFields(date, rec);
    ImportFields(data, Line(date, rec), date, ShowCents(rec.pl), IntString(rec.trades));
    ParseCentsRoundTrip(rec.pl);
    ParseIntRoundTrip(rec.trades);
  }

  lemma ImportSnoc(lines: seq<string>, line: string)
    ensures ImportLines(lines + [line]) == ImportLine(ImportLines(lines), line)
  {
    assert (lines + [line])[..|lines|] == lines;
  }

  lemma ImportPair(lines: seq<string>, l1: string, l2: string)
    ensures ImportLines(lines + [l1, l2]) == ImportLine(ImportLine(ImportLines(lines), l1), l2)
  {
    assert lines + [l1, l2] == (lines + [l1]) + [l2];
    ImportSnoc(lines + [l1], l2);
    ImportSnoc(lines, l1);
  }

  lemma Overwrite(m: Data, k: string, a: Record, b: Record)
    ensures m[k := a][k := b] == m[k := b]
  {
  }

  /** Of two rows for the same date, the later one wins. */
  lemma LaterRowWins(lines: seq<string>, date: string, first: Record, second: Record)
    requires SafeKey(date)
    ensures ImportLines(lines + [Line(date, first), Line(date, second)]) == ImportLines(lines)[date := second]
  {
    var before := ImportLines(lines);
    ImportPair(lines, Line(date, first), Line(date, second));
    LineImports(before, date, first);
    LineImports(before[date := first], date, second);
    Overwrite(before, date, first, second);
  }

  /** A date keeps its record while no later line names it in its first
      field. */
  lemma {:induction false} KeptUntilNamed(pre: seq<string>, rest: seq<string>, date: string)
    requires date in ImportLines(pre)
    requires forall i :: 0 <= i < |rest| ==> Split(rest[i], ',')[0] != date
    ensures date in ImportLines(pre + rest) && ImportLines(pre + rest)[date] == ImportLines(pre)[date]
    decreases |rest|
  {
    if |rest| == 0 {
      assert pre + rest == pre;
    } else {
      var init, last := rest[..|rest| - 1], rest[|rest| - 1];
      assert forall i :: 0 <= i < |init| ==> init[i] == rest[i];
      KeptUntilNamed(pre, init, date);
      ImportLast(pre, rest);
      KeptByLine(ImportLines(pre + init), last, date);
    }
  }

  /** Importing `pre + rest` is importing all but the last line of `rest`
      after `pre`, then that line. */
  lemma ImportLast(pre: seq<string>, rest: seq<string>)
    requires |rest| > 0
    ensures ImportLines(pre + rest) == ImportLine(ImportLines(pre + rest[..|rest| - 1]), rest[|rest| - 1])
  {
    var all := pre + rest;
    assert all[..|all| - 1] == pre + rest[..|rest| - 1];
    assert all[|all| - 1] == rest[|rest| - 1];
  }

  /** A line that names another date keeps `date`'s record. */
  lemma KeptByLine(data: Data, line: string, date: string)
    requires date in data && Split(line, ',')[0] != date
    ensures date in ImportLine(data, line) && ImportLine(data, line)[date] == data[date]
  {
    ImportLineFrame(data, line);
  }

  /** Wherever it stands, the last row for a date decides its record: rows
      before it are overwritten, rows after it that name other dates leave
      it alone. */
  lemma LastRowWins(pre: seq<string>, date: string, rec: Record, rest: seq<string>)
    requires SafeKey(date)
    requires forall i :: 0 <= i < |rest| ==> Split(rest[i], ',')[0] != date
    ensures var imported := ImportLines(pre + [Line(date, rec)] + rest);
      date in imported && imported[date] == rec
  {
    ImportSnoc(pre, Line(date, rec));
    LineImports(ImportLines(pre), date, rec);
    KeptUntilNamed(pre + [Line(date, rec)], rest, date);
  }

  /** The converse of ImportedKeys: a three-field row with a non-empty date
      and two readable numbers decides its date when no later line names
      that date. */
  lemma ImportedRowKept(pre: seq<string>, line: string, date: string, pl: string, trades: string, rest: seq<string>)
    requires Split(line, ',') == [date, pl, trades] && !IsBlank(line)
    requires date != "" && ParseCents(pl).Some? && ParseInt(trades).Some?
    requires forall i :: 0 <= i < |rest| ==> Split(rest[i], ',')[0] != date
    ensures var imported := ImportLines(pre + [line] + rest);
      date in imported && imported[date] == Record(ParseCents(pl).value, ParseInt(trades).value)
  {
    ImportSnoc(pre, line);
    ImportFields(ImportLines(pre), line, date, pl, trades);
    KeptUntilNamed(pre + [line], rest, date);
  }

  lemma LineUnbroken(date: string, rec: Record)
    requires SafeKey(date)
    ensures '\n' !in Line(date, rec)
  {
    ShowCentsChars(rec.pl, '\n');
    IntStringChars(rec.trades, '\n');
  }

  /** Lines, each ended by a line break. */
  function Joined(ls: seq<string>): string {
    if |ls| == 0 then "" else Joined(ls[..|ls| - 1]) + (ls[|ls| - 1] + "\n")
  }

  /** Splitting lines ended by line breaks gives back the lines. */
  lemma JoinedStep(ls: seq<string>, suffix: string)
    requires |ls| > 0
    ensures Joined(ls) + suffix == Joined(ls[..|ls| - 1]) + (ls[|ls| - 1] + ['\n'] + suffix)
  {
    var line := ls[|ls| - 1];
    Assoc(Joined(ls[..|ls| - 1]), line + "\n", suffix);
    assert line + "\n" + suffix == line + ['\n'] + suffix;
  }

  lemma SnocCons(ls: seq<string>, t: seq<string>)
    requires |ls| > 0
    ensures ls[..|ls| - 1] + ([ls[|ls| - 1]] + t) == ls + t
  {
    assert ls == ls[..|ls| - 1] + [ls[|ls| - 1]];
  }

  lemma {:induction false} SplitJoined(ls: seq<string>, suffix: string)
    requires forall i :: 0 <= i < |ls| ==> '\n' !in ls[i]
    ensures Split(Joined(ls) + suffix, '\n') == ls + Split(suffix, '\n')
  {
    if |ls| > 0 {
      var init, line := ls[..|ls| - 1], ls[|ls| - 1];
      var rest := line + ['\n'] + suffix;
      JoinedStep(ls, suffix);
      assert forall i :: 0 <= i < |init| ==> init[i] == ls[i];
      SplitJoined(init, rest);
      SplitConcat(line, '\n', suffix);
      SnocCons(ls, Split(suffix, '\n'));
    } else {
      assert Joined(ls) + suffix == suffix;
    }
  }

  /** The exported rows are the lines of the stored days, joined. */
  lemma {:induction false} RowsJoined(data: Data, keys: seq<string>)
    requires forall i :: 0 <= i < |keys| ==> keys[i] in data && SafeKey(keys[i])
    ensures Rows(data, keys) == Joined(Lines(data, keys))
    ensures forall i :: 0 <= i < |keys| ==> '\n' !in Lines(data, keys)[i]
  {
    if |keys| > 0 {
      var init := keys[..|keys| - 1];
      RowsJoined(data, init);
      var ls := Lines(data, keys);
      assert ls[..|ls| - 1] == Lines(data, init);
      LineUnbroken(keys[|keys| - 1], data[keys[|keys| - 1]]);
      forall i | 0 <= i < |keys| ensures '\n' !in ls[i] {
        if i < |keys| - 1 { assert ls[i] == Lines(data, init)[i]; }
      }
    }
  }

  /** The part of `data` on the days `keys`. */
  function Restrict(data: Data, keys: seq<string>): Data {
    map k | k in data && k in keys :: data[k]
  }

  lemma RestrictSnoc(data: Data, keys: seq<string>, k: string)
    requires k in data
    ensures Restrict(data, keys + [k]) == Restrict(data, keys)[k := data[k]]
  {
  }

  /** Importing the lines of `keys` gives the ledger restricted to `keys`. */
  lemma {:induction false} ImportOfLines(data: Data, keys: seq<string>)
    requires forall i :: 0 <= i < |keys| ==> keys[i] in data && SafeKey(keys[i])
    ensures ImportLines(Lines(data, keys)) == Restrict(data, keys)
  {
    if |keys| > 0 {
      var init, k := keys[..|keys| - 1], keys[|keys| - 1];
      assert keys == init + [k];
      var line := Line(k, data[k]);
      assert Lines(data, keys) == Lines(data, init) + [line];
      ImportOfLines(data, init);
      ImportSnoc(Lines(data, init), line);
      LineImports(Restrict(data, init), k, data[k]);
      RestrictSnoc(data, init, k);
    }
  }

  /** A first line and lines ended by line breaks split into those
      lines and the empty string after the last break. */
  lemma SplitAfterFirst(first: string, ls: seq<string>)
    requires '\n' !in first && forall i :: 0 <= i < |ls| ==> '\n' !in ls[i]
    ensures Split(first + "\n" + Joined(ls), '\n')[1..] == ls + [""]
  {
    SplitJoined(ls, "");
    assert Joined(ls) + "" == Joined(ls);
    assert first + "\n" + Joined(ls) == first + ['\n'] + Joined(ls);
    SplitConcat(first, '\n', Joined(ls));
    assert ([first] + Split(Joined(ls), '\n'))[1..] == Split(Joined(ls), '\n');
  }

  lemma HeaderUnbroken()
    ensures '\n' !in HeaderLine
  {
    assert '\n' !in "Date" && '\n' !in "," && '\n' !in "Profit/Loss" && '\n' !in "Trades";
  }

  /** The exported text splits into the header line, the lines, and the
      empty string after the last line break. */
  lemma SplitExport(ls: seq<string>)
    requires forall i :: 0 <= i < |ls| ==> '\n' !in ls[i]
    ensures Split(Header + Joined(ls), '\n')[1..] == ls + [""]
  {
    HeaderUnbroken();
    SplitAfterFirst(HeaderLine, ls);
  }

  /** The empty string after the last line break imports nothing. */
  lemma TrailingBlank(ls: seq<string>)
    ensures ImportLines(ls + [""]) == ImportLines(ls)
  {
    ImportSnoc(ls, "");
  }

  lemma RestrictToAll(data: Data, order: seq<string>)
    requires Enumerates(order, data)
    ensures Restrict(data, order) == data
  {
  }

  /** Exporting a ledger whose keys the format can carry and importing the
      text gives back the same ledger, whatever the order of the rows. */
  lemma ExportImportRoundTrip(data: Data, order: seq<string>)
    requires Enumerates(order, data) && forall k :: k in data ==> SafeKey(k)
    ensures ImportCsv(Header + Rows(data, order)) == data
  {
    RowsJoined(data, order);
    var ls := Lines(data, order);
    SplitExport(ls);
    TrailingBlank(ls);
    ImportOfLines(data, order);
    RestrictToAll(data, order);
  }

  /** The keys `formatDate` writes can be carried by the format. */
  lemma FormatDateSafe(d: Date)
    requires ValidDate(d)
    ensures SafeKey(FormatDate(d))
  {
    PaddedChars(d.month + 1, ',');
    PaddedChars(d.day, ',');
    IntStringChars(d.year, ',');
    PaddedChars(d.month + 1, '\n');
    PaddedChars(d.day, '\n');
    IntStringChars(d.year, '\n');
    FormatDateShape(d);
    assert "__proto__"[2] != '/';
  }
}
