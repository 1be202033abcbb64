/**
  Moving the displayed month of the calendar (`showPreviousMonth`,
  `showNextMonth`) and of the date picker (`updatePickerMonth`, which reads
  the month back from the picker's "Month Year" caption).
*/
module Navigation {
  import opened Wrappers
  import opened Text

  /** A displayed month: `month` in 0..11 and the full year. */
  datatype MonthView = MonthView(month: int, year: int)

  predicate ValidView(v: MonthView) { 0 <= v.month < 12 }

  /** The position of a month on the time line of months. */
  function MonthNumber(v: MonthView): int { v.year * 12 + v.month }

  /** `showPreviousMonth`: step the month back, wrapping into the year before. */
  function PreviousMonth(v: MonthView): (r: MonthView)
    requires ValidView(v)
    ensures ValidView(r) && MonthNumber(r) == MonthNumber(v) - 1
  {
    var month := v.month - 1;
    if month < 0 then MonthView(11, v.year - 1) else MonthView(month, v.year)
  }

  /** `showNextMonth`: step the month forward, wrapping into the next year. */
  function NextMonth(v: MonthView): (r: MonthView)
    requires ValidView(v)
    ensures ValidView(r) && MonthNumber(r) == MonthNumber(v) + 1
  {
    var month := v.month + 1;
    if month > 11 then MonthView(0, v.year + 1) else MonthView(month, v.year)
  }

  /** A displayed month is determined by its place on the time line. */
  lemma MonthNumberInjective(v: MonthView, w: MonthView)
    requires ValidView(v) && ValidView(w) && MonthNumber(v) == MonthNumber(w)
    ensures v == w
  {
  }

  /** Next and previous undo each other. */
  lemma NextPreviousInverse(v: MonthView)
    requires ValidView(v)
    ensures NextMonth(PreviousMonth(v)) == v && PreviousMonth(NextMonth(v)) == v
  {
    MonthNumberInjective(NextMonth(PreviousMonth(v)), v);
    MonthNumberInjective(PreviousMonth(NextMonth(v)), v);
  }

  /** The month-step of `updatePickerMonth(change)`. */
  function PickerStep(v: MonthView, change: int): MonthView {
    var month := v.month + change;
    if month < 0 then MonthView(11, v.year - 1)
    else if month > 11 then MonthView(0, v.year + 1)
    else MonthView(month, v.year)
  }

  /** The picker's buttons (`change` of -1 and +1) wrap exactly as the
      calendar's do. */
  lemma PickerStepAgrees(v: MonthView)
    requires ValidView(v)
    ensures PickerStep(v, -1) == PreviousMonth(v)
    ensures PickerStep(v, 1) == NextMonth(v)
  {
  }

  const MonthNames: seq<string> := ["January", "February", "March", "April", "May", "June",
    "July", "August", "September", "October", "November", "December"]

  /** `monthNames.indexOf(name)`: -1 when absent. */
  function IndexOf(names: seq<string>, name: string): (i: int)
    ensures -1 <= i < |names|
    ensures i >= 0 ==> names[i] == name
    ensures i == -1 ==> name !in names
  {
    if |names| == 0 then -1
    else if names[0] == name then 0
    else
      var j := IndexOf(names[1..], name);
      if j < 0 then -1 else j + 1
  }

  /** The caption `${monthNames[month]} ${year}` of the date picker. */
  function PickerCaption(v: MonthView): string
    requires ValidView(v)
  {
    MonthNames[v.month] + " " + IntString(v.year)
  }

  /** `updatePickerMonth(change)`: read month and year back from the
      caption (`indexOf` of the first word, `parseInt` of the second) and
      step. `None` stands for the `NaN` year of an unreadable caption. */
  function UpdatePickerMonth(caption: string, change: int): Option<MonthView> {
    var parts := Split(caption, ' ');
    var month := IndexOf(MonthNames, parts[0]);
    var year := if |parts| >= 2 then ParseInt(parts[1]) else None;
    match year
    case None => None
    case Some(y) => Some(PickerStep(MonthView(month, y), change))
  }

  lemma {:induction false} IndexOfFirst(names: seq<string>, i: int)
    requires 0 <= i < |names| && names[i] !in names[..i]
    ensures IndexOf(names, names[i]) == i
  {
    if i > 0 {
      assert names[1..][..i - 1] == names[..i][1..];
      assert names[1..][i - 1] == names[i];
      IndexOfFirst(names[1..], i - 1);
    }
  }

  lemma MonthNamesDistinct(m: int)
    requires 0 <= m < 12
    ensures IndexOf(MonthNames, MonthNames[m]) == m
    ensures ' ' !in MonthNames[m]
  {
    MonthNameIndex(m);
    MonthNameUnspaced(m);
  }

  lemma MonthNameIndex(m: int)
    requires 0 <= m < 12
    ensures IndexOf(MonthNames, MonthNames[m]) == m
  {
    var name := MonthNames[m];
    forall i | 0 <= i < m ensures MonthNames[i] != name {
      var other := MonthNames[i];
      assert |other| != |name| || other[0] != name[0] || other[2] != name[2];
    }
    assert name !in MonthNames[..m];
    IndexOfFirst(MonthNames, m);
  }

  lemma MonthNameUnspaced(m: int)
    requires 0 <= m < 12
    ensures ' ' !in MonthNames[m]
  {
    assert forall name :: name in MonthNames ==> ' ' !in name;
  }

  /** Reading the caption back gives the month it shows, so each picker
      button moves exactly one month. */
  lemma {:induction false} PickerCaptionRoundTrip(v: MonthView, change: int)
    requires ValidView(v)
    ensures UpdatePickerMonth(PickerCaption(v), change) == Some(PickerStep(v, change))
  {
    var name, ys := MonthNames[v.month], IntString(v.year);
    MonthNamesDistinct(v.month);
    IntStringChars(v.year, ' ');
    assert PickerCaption(v) == name + [' '] + ys;
    SplitConcat(name, ' ', ys);
    SplitNoSep(ys, ' ');
    ParseIntRoundTrip(v.year);
  }
}
