/**
  Date keys: the `MM/DD/YYYY` strings under which records are stored
  (`formatDate`), and `parseDate`, which splits a key on `/` and hands the
  three numbers to the `Date` constructor without checking them.
*/
module DateKey {
  import opened Wrappers
  import opened Text
  import opened Dates

  /** `formatDate(date)`: month (1-based) and day padded to two digits,
      the year as `String(year)` gives it. */
  function FormatDate(d: Date): string {
    PadStart2(IntString(d.month + 1)) + "/" + PadStart2(IntString(d.day)) + "/" + IntString(d.year)
  }

  /** The three numbers of a key, in the order month, day, year;
      `None` when a field is missing or is not a number. */
  function KeyFields(s: string): (r: Option<(int, int, int)>)
    ensures r.Some? ==> |Split(s, '/')| >= 3
  {
    var parts := Split(s, '/');
    if |parts| < 3 then None
    else
      match (ToNumber(parts[0]), ToNumber(parts[1]), ToNumber(parts[2]))
      case (Some(mm), Some(dd), Some(yy)) => Some((mm, dd, yy))
      case _ => None
  }

  /** `parseDate(s)`: `new Date(parts[2], parts[0] - 1, parts[1])`.
      `None` stands for an invalid `Date`. */
  function ParseDate(s: string): (r: Option<Date>)
    ensures r.Some? <==> KeyFields(s).Some?
    ensures r.Some? ==> ValidDate(r.value)
  {
    match KeyFields(s)
    case None => None
    case Some((mm, dd, yy)) => Some(NewDate(yy, mm - 1, dd))
  }

  lemma PaddedFieldValue(n: int)
    requires 1 <= n <= 99
    ensures var s := PadStart2(IntString(n));
      |s| == 2 && AllDigits(s) && DigitsValue(s) == n && ToNumber(s) == Some(n)
  {
    var t := IntString(n);
    NatStringValue(n);
    if |t| < 2 {
      LeadingZeroValue(t);
    } else {
      assert |t| == 2 by {
        assert t == NatString(n / 10) + [DigitChar(n % 10)];
      }
    }
    ToNumberOfDigits(PadStart2(t));
  }

  /** A key's fields read back the month, day and year it was made from. */
  lemma {:induction false} KeyFieldsOfFormat(d: Date)
    requires ValidDate(d)
    ensures KeyFields(FormatDate(d)) == Some((d.month + 1, d.day, d.year))
  {
    var mm, dd, yy := PadStart2(IntString(d.month + 1)), PadStart2(IntString(d.day)), IntString(d.year);
    PaddedFieldValue(d.month + 1);
    PaddedFieldValue(d.day);
    ToNumberOfInt(d.year);
    SplitFormat(d);
    KeyFieldsOfParts(FormatDate(d), mm, dd, yy);
  }

  lemma SplitFormat(d: Date)
    requires ValidDate(d)
    ensures Split(FormatDate(d), '/') == [PadStart2(IntString(d.month + 1)), PadStart2(IntString(d.day)), IntString(d.year)]
  {
    var mm, dd, yy := PadStart2(IntString(d.month + 1)), PadStart2(IntString(d.day)), IntString(d.year);
    PaddedChars(d.month + 1, '/');
    PaddedChars(d.day, '/');
    IntStringChars(d.year, '/');
    assert FormatDate(d) == mm + ['/'] + dd + ['/'] + yy;
    SplitThree(mm, dd, yy, '/');
  }

  lemma KeyFieldsOfParts(s: string, mm: string, dd: string, yy: string)
    requires Split(s, '/') == [mm, dd, yy]
    requires ToNumber(mm).Some? && ToNumber(dd).Some? && ToNumber(yy).Some?
    ensures KeyFields(s) == Some((ToNumber(mm).value, ToNumber(dd).value, ToNumber(yy).value))
  {
  }

  /** `formatDate` writes `MM/DD/` and the year: two digits of month,
      two of day, slashes at positions 2 and 5; four-digit years give
      ten characters. */
  lemma FormatDateShape(d: Date)
    requires ValidDate(d)
    ensures var key := FormatDate(d);
      && |key| >= 7 && key[2] == '/' && key[5] == '/'
      && AllDigits(key[..2]) && DigitsValue(key[..2]) == d.month + 1
      && AllDigits(key[3..5]) && DigitsValue(key[3..5]) == d.day
      && key[6..] == IntString(d.year)
      && (1000 <= d.year <= 9999 ==> |key| == 10)
  {
    var mm, dd, yy := PadStart2(IntString(d.month + 1)), PadStart2(IntString(d.day)), IntString(d.year);
    assert |mm| == 2 && AllDigits(mm) && DigitsValue(mm) == d.month + 1 by {
      PaddedFieldValue(d.month + 1);
    }
    assert |dd| == 2 && AllDigits(dd) && DigitsValue(dd) == d.day by {
      PaddedFieldValue(d.day);
    }
    KeySlices(mm, dd, yy);
    if 1000 <= d.year <= 9999 {
      FourDigits(d.year);
    }
  }

  lemma KeySlices(mm: string, dd: string, yy: string)
    requires |mm| == 2 && |dd| == 2
    ensures var key := mm + "/" + dd + "/" + yy;
      |key| == 6 + |yy| && key[..2] == mm && key[2] == '/' && key[3..5] == dd && key[5] == '/' && key[6..] == yy
  {
  }

  lemma FourDigits(y: int)
    requires 1000 <= y <= 9999
    ensures |IntString(y)| == 4
  {
    assert NatString(y) == NatString(y / 10) + [DigitChar(y % 10)];
    assert NatString(y / 10) == NatString(y / 100) + [DigitChar(y / 10 % 10)];
    assert NatString(y / 100) == NatString(y / 1000) + [DigitChar(y / 100 % 10)];
  }

  /** Different days have different keys. */
  lemma FormatDateInjective(d1: Date, d2: Date)
    requires ValidDate(d1) && ValidDate(d2)
    requires FormatDate(d1) == FormatDate(d2)
    ensures d1 == d2
  {
    KeyFieldsOfFormat(d1);
    KeyFieldsOfFormat(d2);
  }

  /** `parseDate(formatDate(d))` is `d` again, for every year outside 0..99
      (the `Date` constructor reads those as 1900..1999). */
  lemma ParseFormatRoundTrip(d: Date)
    requires ValidDate(d) && !(0 <= d.year <= 99)
    ensures ParseDate(FormatDate(d)) == Some(d)
  {
    KeyFieldsOfFormat(d);
    MakeDateValid(d);
  }

  /** The two-digit-year reading: the key of 1 January of year 50 parses
      as 1 January 1950. */
  lemma ParseTwoDigitYear()
    ensures ParseDate(FormatDate(Date(50, 0, 1))) == Some(Date(1950, 0, 1))
  {
    KeyFieldsOfFormat(Date(50, 0, 1));
    MakeDateValid(Date(1950, 0, 1));
  }

  /** `parseDate` does not reject a day the month lacks: `02/30/2024`
      is read as the first of March. */
  lemma ParseDateOverflows()
    ensures ParseDate("02/30/2024") == Some(Date(2024, 2, 1))
  {
    ParseOfFields();
    Feb30();
  }

  lemma ParseOfFields()
    ensures ParseDate("02/30/2024") == Some(NewDate(2024, 1, 30))
  {
    OverflowFields();
  }

  lemma Feb30()
    ensures NewDate(2024, 1, 30) == Date(2024, 2, 1)
  {
    MakeDateShift(Date(2024, 1, 29), 1);
  }

  lemma OverflowFields()
    ensures KeyFields("02/30/2024") == Some((2, 30, 2024))
  {
    var s := "02/30/2024";
    assert s == "02" + ['/'] + "30" + ['/'] + "2024";
    SplitThree("02", "30", "2024", '/');
    DigitsFacts();
    ToNumberOfDigits("02");
    ToNumberOfDigits("30");
    ToNumberOfDigits("2024");
    KeyFieldsOfParts(s, "02", "30", "2024");
  }

  lemma DigitsFacts()
    ensures AllDigits("02") && DigitsValue("02") == 2
    ensures AllDigits("30") && DigitsValue("30") == 30
    ensures AllDigits("2024") && DigitsValue("2024") == 2024
  {
    assert "02"[..1] == "0";
    assert "30"[..1] == "3";
    assert "2024"[..3] == "202" && "202"[..2] == "20" && "20"[..1] == "2";
  }
}
