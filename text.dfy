/**
  The fragments of the JavaScript string and number built-ins that the
  calendar script relies on: `String(n)`, `padStart(2, '0')`, `split`,
  `trim`, `Number(s)`, `parseInt(s)` and `parseFloat(s)`.  Numbers are
  decimal integers, or integer counts of cents for profit/loss values.
*/
module Text {
  import opened Wrappers

  predicate IsDigit(c: char) { '0' <= c <= '9' }

  predicate AllDigits(s: string) { forall i :: 0 <= i < |s| ==> IsDigit(s[i]) }

  /** The white space removed by `String.prototype.trim` and skipped by
      `parseInt`/`parseFloat` (the ASCII and Latin-1 part of it). */
  predicate IsSpace(c: char) {
    c == ' ' || c == '\t' || c == '\n' || c == '\r' || c == 11 as char ||
    c == 12 as char || c == 0xA0 as char || c == 0xFEFF as char
  }

  function DigitChar(n: nat): (c: char)
    requires n < 10
    ensures IsDigit(c)
  {
    ('0' as int + n) as char
  }

  function DigitValue(c: char): (n: nat)
    requires IsDigit(c)
    ensures n < 10 && DigitChar(n) == c
  {
    c as int - '0' as int
  }

  /** `String(n)` for a natural number: decimal digits, no leading zeros. */
  function NatString(n: nat): (s: string)
    ensures |s| >= 1 && IsDigit(s[0])
  {
    if n < 10 then [DigitChar(n)] else NatString(n / 10) + [DigitChar(n % 10)]
  }

  lemma {:induction false} NatStringDigits(n: nat)
    ensures AllDigits(NatString(n))
  {
    if n >= 10 {
      NatStringDigits(n / 10);
      var s := NatString(n);
      assert s == NatString(n / 10) + [DigitChar(n % 10)];
      forall i | 0 <= i < |s| ensures IsDigit(s[i]) {
        if i < |s| - 1 { assert s[i] == NatString(n / 10)[i]; }
      }
    }
  }

  /** `String(n)` for an integer. */
  function IntString(n: int): (s: string)
    ensures |s| >= 1 && (n < 0 ==> s[0] == '-' && |s| >= 2) && (n >= 0 ==> IsDigit(s[0]))
  {
    if n < 0 then "-" + NatString(-n) else NatString(n)
  }

  /** `String(n)` is digits, after a minus sign for a negative `n`. */
  lemma IntStringDigits(n: int)
    ensures n >= 0 ==> AllDigits(IntString(n))
    ensures n < 0 ==> AllDigits(IntString(n)[1..])
  {
    if n < 0 {
      NatStringDigits(-n);
      assert IntString(n)[1..] == NatString(-n);
    } else {
      NatStringDigits(n);
    }
  }

  /** The number that a string of decimal digits denotes. */
  function DigitsValue(s: string): nat
    requires AllDigits(s)
  {
    if |s| == 0 then 0 else DigitsValue(s[..|s| - 1]) * 10 + DigitValue(s[|s| - 1])
  }

  lemma {:induction false} NatStringValue(n: nat)
    ensures AllDigits(NatString(n)) && DigitsValue(NatString(n)) == n
  {
    NatStringDigits(n);
    if n >= 10 {
      var s := NatString(n);
      assert s[..|s| - 1] == NatString(n / 10);
      NatStringValue(n / 10);
    }
  }

  lemma {:induction false} LeadingZeroValue(s: string)
    requires AllDigits(s)
    ensures AllDigits("0" + s) && DigitsValue("0" + s) == DigitsValue(s)
  {
    var t := "0" + s;
    assert AllDigits(t) by {
      forall i | 0 <= i < |t| ensures IsDigit(t[i]) {
        if i > 0 { assert t[i] == s[i - 1]; }
      }
    }
    if |s| > 0 {
      assert t[..|t| - 1] == "0" + s[..|s| - 1];
      LeadingZeroValue(s[..|s| - 1]);
    }
  }

  /** `String.prototype.padStart(2, '0')`. */
  function PadStart2(s: string): (r: string)
    ensures |s| >= 2 ==> r == s
    ensures |s| < 2 ==> |r| == 2
  {
    if |s| >= 2 then s else if |s| == 1 then "0" + s else "00"
  }

  /** `str.split(sep)` for a one-character separator. */
  function Split(s: string, sep: char): (parts: seq<string>)
    ensures |parts| >= 1
    ensures forall i :: 0 <= i < |parts| ==> sep !in parts[i]
  {
    if |s| == 0 then [""]
    else
      var rest := Split(s[1..], sep);
      if s[0] == sep then [""] + rest else [[s[0]] + rest[0]] + rest[1..]
  }

  /** `parts.join(sep)`: the inverse of Split. */
  function Join(parts: seq<string>, sep: char): string
    requires |parts| >= 1
  {
    if |parts| == 1 then parts[0] else parts[0] + [sep] + Join(parts[1..], sep)
  }

  lemma {:induction false} SplitJoin(s: string, sep: char)
    ensures Join(Split(s, sep), sep) == s
  {
    if |s| > 0 {
      var rest := Split(s[1..], sep);
      SplitJoin(s[1..], sep);
      if s[0] != sep {
        var p := Split(s, sep);
        assert p[1..] == rest[1..];
        if |rest| > 1 {
          assert Join(rest, sep) == rest[0] + [sep] + Join(rest[1..], sep);
        }
      }
    }
  }

  lemma {:induction false} SplitNoSep(s: string, sep: char)
    requires sep !in s
    ensures Split(s, sep) == [s]
  {
    if |s| > 0 {
      assert sep !in s[1..];
      SplitNoSep(s[1..], sep);
      assert [s[0]] + s[1..] == s;
    }
  }

  lemma {:induction false} SplitConcat(a: string, sep: char, b: string)
    requires sep !in a
    ensures Split(a + [sep] + b, sep) == [a] + Split(b, sep)
  {
    var s := a + [sep] + b;
    if |a| > 0 {
      assert s[1..] == a[1..] + [sep] + b;
      assert sep !in a[1..];
      SplitConcat(a[1..], sep, b);
      assert [a[0]] + a[1..] == a;
    } else {
      assert s[1..] == b;
    }
  }

  lemma SplitThree(a: string, b: string, c: string, sep: char)
    requires sep !in a && sep !in b && sep !in c
    ensures Split(a + [sep] + b + [sep] + c, sep) == [a, b, c]
  {
    assert a + [sep] + b + [sep] + c == a + [sep] + (b + [sep] + c);
    SplitConcat(a, sep, b + [sep] + c);
    SplitConcat(b, sep, c);
    SplitNoSep(c, sep);
  }

  lemma PaddedChars(n: nat, c: char)
    requires !IsDigit(c)
    ensures c !in PadStart2(IntString(n))
  {
    var t := IntString(n);
    IntStringDigits(n);
    var p := PadStart2(t);
    assert AllDigits(p) by {
      if |t| < 2 {
        forall i | 0 <= i < |p| ensures IsDigit(p[i]) {
          if i >= 2 - |t| { assert p[i] == t[i - (2 - |t|)]; }
        }
      }
    }
  }

  lemma IntStringChars(n: int, c: char)
    requires !IsDigit(c) && c != '-'
    ensures c !in IntString(n)
  {
    var s := IntString(n);
    IntStringDigits(n);
    if n < 0 {
      assert s == [s[0]] + s[1..];
    }
  }

  lemma ShowCentsChars(m: int, c: char)
    requires !IsDigit(c) && c != '-' && c != '.'
    ensures c !in ShowCents(m)
  {
    var u := if m < 0 then -m else m;
    NatStringDigits(u / 100);
    assert c !in FractionString(u % 100);
  }

  /** `s.trim() === ''`. */
  predicate IsBlank(s: string) { forall i :: 0 <= i < |s| ==> IsSpace(s[i]) }

  function SkipSpace(s: string): (r: string)
    ensures |r| <= |s| && r == s[|s| - |r|..]
    ensures |r| > 0 ==> !IsSpace(r[0])
    ensures IsBlank(s[..|s| - |r|])
  {
    if |s| > 0 && IsSpace(s[0]) then SkipSpace(s[1..]) else s
  }

  /** A string with the leading white space removed and trailing white space dropped. */
  function Trim(s: string): (r: string)
    ensures IsBlank(s) <==> r == ""
  {
    var t := SkipSpace(s);
    TrimEnd(t)
  }

  function TrimEnd(s: string): (r: string)
    ensures |r| <= |s| && r == s[..|r|] && IsBlank(s[|r|..])
    ensures |r| > 0 ==> !IsSpace(r[|r| - 1])
  {
    if |s| > 0 && IsSpace(s[|s| - 1]) then TrimEnd(s[..|s| - 1]) else s
  }

  /** The number of leading decimal digits of `s`. */
  function DigitRun(s: string): (k: nat)
    ensures k <= |s| && AllDigits(s[..k])
    ensures k < |s| ==> !IsDigit(s[k])
  {
    if |s| > 0 && IsDigit(s[0]) then
      var k := 1 + DigitRun(s[1..]);
      assert s[..k] == [s[0]] + s[1..][..k - 1];
      k
    else 0
  }

  lemma {:induction false} DigitRunOf(ds: string, t: string)
    requires AllDigits(ds)
    requires t == [] || !IsDigit(t[0])
    ensures DigitRun(ds + t) == |ds| && (ds + t)[..|ds|] == ds
  {
    if |ds| > 0 {
      assert (ds + t)[1..] == ds[1..] + t;
      DigitRunOf(ds[1..], t);
    }
  }

  /** The leading sign accepted by `parseInt`, `parseFloat` and `Number`. */
  function Sign(t: string): (r: (bool, string))
    ensures |r.1| <= |t|
  {
    if |t| > 0 && t[0] == '-' then (true, t[1..])
    else if |t| > 0 && t[0] == '+' then (false, t[1..])
    else (false, t)
  }

  /** `parseInt(s)` in base 10: white space, a sign, the longest digit run;
      `None` stands for `NaN` (no digit at all). Trailing text is ignored. */
  function ParseInt(s: string): (r: Option<int>)
    ensures r.None? <==> DigitRun(Sign(SkipSpace(s)).1) == 0
  {
    var (neg, u) := Sign(SkipSpace(s));
    var k := DigitRun(u);
    if k == 0 then None
    else
      var v: int := DigitsValue(u[..k]);
      Some(if neg then -v else v)
  }

  /** The first two fraction digits of a decimal, as cents. */
  function FractionCents(f: string): (c: nat)
    requires AllDigits(f)
    ensures c < 100
  {
    if |f| == 0 then 0
    else if |f| == 1 then DigitValue(f[0]) * 10
    else DigitValue(f[0]) * 10 + DigitValue(f[1])
  }

  /** The unsigned part of `parseFloat`: digits, then optionally `.` and
      digits, with at least one digit in all; the value in cents. */
  function ParseUnsignedCents(u: string): (r: Option<int>)
    ensures r.Some? ==> r.value >= 0
  {
    var k := DigitRun(u);
    var whole := DigitsValue(u[..k]);
    var rest := u[k..];
    if |rest| > 0 && rest[0] == '.' then
      var f := rest[1..];
      var j := DigitRun(f);
      if k == 0 && j == 0 then None else Some(whole * 100 + FractionCents(f[..j]))
    else if k == 0 then None
    else Some(whole * 100)
  }

  /** `parseFloat(s)` for a profit/loss amount, in cents; `None` stands for `NaN`.
      Fraction digits beyond the second are dropped. */
  function ParseCents(s: string): (r: Option<int>)
    ensures r.None? <==> ParseUnsignedCents(Sign(SkipSpace(s)).1).None?
  {
    var (neg, u) := Sign(SkipSpace(s));
    match ParseUnsignedCents(u)
    case None => None
    case Some(v) => Some(if neg then -v else v)
  }

  /** `String(x)` for an amount of `c` cents: the shortest decimal form,
      as JavaScript prints a number (`150.5`, `-75.25`, `100`). */
  function ShowCents(c: int): (s: string)
    ensures |s| >= 1
  {
    if c < 0 then "-" + ShowUnsignedCents(-c) else ShowUnsignedCents(c)
  }

  function ShowUnsignedCents(c: nat): (s: string)
    ensures |s| >= 1 && IsDigit(s[0])
  {
    var whole := c / 100;
    var frac := c % 100;
    NatString(whole) + FractionString(frac)
  }

  function FractionString(frac: nat): string
    requires frac < 100
  {
    if frac == 0 then ""
    else if frac % 10 == 0 then "." + [DigitChar(frac / 10)]
    else "." + [DigitChar(frac / 10), DigitChar(frac % 10)]
  }

  /** `Number(s)` on the date fields: surrounding white space is ignored,
      the empty string is 0, otherwise an optionally signed digit string.
      `None` stands for `NaN`. */
  function ToNumber(s: string): (r: Option<int>)
    ensures Trim(s) == "" ==> r == Some(0)
  {
    var t := Trim(s);
    if t == "" then Some(0)
    else
      var (neg, u) := Sign(t);
      if |u| == 0 || !AllDigits(u) then None
      else
        var v: int := DigitsValue(u);
        Some(if neg then -v else v)
  }

  // ---------------------------------------------------------------------
  // Round trips between the printers and the parsers.

  lemma UnsignedNotNumber(u: string)
    requires |u| > 0 && !IsDigit(u[0]) && u[0] != '.'
    ensures ParseUnsignedCents(u).None?
  {
    assert DigitRun(u) == 0;
    assert u[0..] == u;
  }

  /** Text that starts with a capital letter is not a number. */
  lemma LetterNotNumber(s: string)
    requires |s| > 0 && 'A' <= s[0] <= 'Z'
    ensures ParseCents(s).None?
  {
    assert !IsSpace(s[0]);
    SkipSpaceNone(s);
    assert Sign(s).1 == s;
    UnsignedNotNumber(s);
  }

  lemma SkipSpaceNone(s: string)
    requires |s| > 0 && !IsSpace(s[0])
    ensures SkipSpace(s) == s
  {
  }

  lemma {:induction false} ParseIntRoundTrip(n: int)
    ensures ParseInt(IntString(n)) == Some(n)
  {
    var s := IntString(n);
    SkipSpaceNone(s);
    var digits := if n < 0 then NatString(-n) else NatString(n);
    NatStringDigits(if n < 0 then -n else n);
    var u := Sign(s).1;
    assert u == digits by {
      if n < 0 { assert s[1..] == digits; }
    }
    DigitRunOf(digits, []);
    assert digits + [] == digits;
    NatStringValue(if n < 0 then -n else n);
  }

  lemma {:induction false} ParseCentsRoundTrip(c: int)
    ensures ParseCents(ShowCents(c)) == Some(c)
  {
    var m := if c < 0 then -c else c;
    UnsignedCentsRoundTrip(m);
    ParseSigned(ShowUnsignedCents(m), m);
  }

  /** A sign in front of an unsigned amount is read as its sign. */
  lemma ParseSigned(u: string, v: int)
    requires |u| > 0 && IsDigit(u[0]) && ParseUnsignedCents(u) == Some(v)
    ensures ParseCents(u) == Some(v) && ParseCents("-" + u) == Some(-v)
  {
    SkipSpaceNone(u);
    assert Sign(u) == (false, u);
    var s := "-" + u;
    SkipSpaceNone(s);
    assert s[1..] == u;
    assert Sign(s) == (true, u);
  }

  lemma {:induction false} UnsignedCentsRoundTrip(m: nat)
    ensures ParseUnsignedCents(ShowUnsignedCents(m)) == Some(m)
  {
    var whole, frac := m / 100, m % 100;
    var ds := NatString(whole);
    var fs := FractionString(frac);
    var u := ds + fs;
    NatStringDigits(whole);
    DigitRunOf(ds, fs);
    NatStringValue(whole);
    var rest := u[|ds|..];
    assert rest == fs;
    if frac != 0 {
      var f := rest[1..];
      DigitRunOf(f, []);
      assert f + [] == f;
      assert f[..DigitRun(f)] == f;
    }
  }

  lemma TrimUnspaced(s: string)
    requires |s| > 0 && !IsSpace(s[0]) && !IsSpace(s[|s| - 1])
    ensures Trim(s) == s
  {
    assert SkipSpace(s) == s;
  }

  lemma ToNumberOfDigits(s: string)
    requires |s| > 0 && AllDigits(s)
    ensures ToNumber(s) == Some(DigitsValue(s))
  {
    assert IsDigit(s[0]) && IsDigit(s[|s| - 1]);
    TrimUnspaced(s);
    assert Sign(s) == (false, s);
  }

  lemma {:induction false} ToNumberOfInt(n: int)
    ensures ToNumber(IntString(n)) == Some(n)
  {
    var s := IntString(n);
    var m := if n < 0 then -n else n;
    var ds := NatString(m);
    NatStringValue(m);
    IntStringDigits(n);
    TrimUnspaced(s);
    if n < 0 {
      assert s[1..] == ds;
      assert Sign(s) == (true, ds);
    } else {
      assert Sign(s) == (false, ds);
    }
  }
}
