/**
  The proleptic Gregorian calendar as the script's `Date` objects use it:
  a local calendar day is a (year, month, day) triple with the month
  counted from 0 (as `getMonth()` returns it), day arithmetic that carries
  into months and years, the `Date(year, month, day)` constructor with its
  silent overflow, and the day of the week.
*/
module Dates {

  /** A local calendar day; `month` is 0 for January .. 11 for December. */
  datatype Date = Date(year: int, month: int, day: int)

  predicate IsLeapYear(y: int) {
    y % 4 == 0 && (y % 100 != 0 || y % 400 == 0)
  }

  function DaysInMonth(y: int, m: int): (n: int)
    requires 0 <= m < 12
    ensures 28 <= n <= 31
    ensures m == 1 ==> (n == 29 <==> IsLeapYear(y))
    ensures m != 1 ==> (n == 30 <==> m in {3, 5, 8, 10})
  {
    if m == 1 then (if IsLeapYear(y) then 29 else 28)
    else if m == 3 || m == 5 || m == 8 || m == 10 then 30
    else 31
  }

  predicate ValidDate(d: Date) {
    0 <= d.month < 12 && 1 <= d.day <= DaysInMonth(d.year, d.month)
  }

  /** The calendar day after `d`. */
  function NextDay(d: Date): (r: Date)
    requires ValidDate(d)
    ensures ValidDate(r)
  {
    if d.day < DaysInMonth(d.year, d.month) then Date(d.year, d.month, d.day + 1)
    else if d.month < 11 then Date(d.year, d.month + 1, 1)
    else Date(d.year + 1, 0, 1)
  }

  /** The calendar day before `d`. */
  function PrevDay(d: Date): (r: Date)
    requires ValidDate(d)
    ensures ValidDate(r)
  {
    if d.day > 1 then Date(d.year, d.month, d.day - 1)
    else if d.month > 0 then Date(d.year, d.month - 1, DaysInMonth(d.year, d.month - 1))
    else Date(d.year - 1, 11, 31)
  }

  lemma NextPrevInverse(d: Date)
    requires ValidDate(d)
    ensures PrevDay(NextDay(d)) == d && NextDay(PrevDay(d)) == d
  {
  }

  /** The day `n` days after `d` (before it, for negative `n`). */
  function AddDays(d: Date, n: int): (r: Date)
    requires ValidDate(d)
    ensures ValidDate(r)
    decreases if n < 0 then -n else n
  {
    if n == 0 then d
    else if n > 0 then AddDays(NextDay(d), n - 1)
    else AddDays(PrevDay(d), n + 1)
  }

  lemma AddDaysAfterNext(d: Date, k: int)
    requires ValidDate(d)
    ensures AddDays(NextDay(d), k) == AddDays(d, k + 1)
  {
    NextPrevInverse(d);
  }

  lemma AddDaysAfterPrev(d: Date, k: int)
    requires ValidDate(d)
    ensures AddDays(PrevDay(d), k) == AddDays(d, k - 1)
  {
    NextPrevInverse(d);
  }

  /** Moving `a` days and then `b` days is moving `a + b` days. */
  lemma {:induction false} AddDaysAdditive(d: Date, a: int, b: int)
    requires ValidDate(d)
    ensures AddDays(AddDays(d, a), b) == AddDays(d, a + b)
    decreases if a < 0 then -a else a
  {
    if a > 0 {
      AddDaysAdditive(NextDay(d), a - 1, b);
      AddDaysAfterNext(d, a - 1 + b);
    } else if a < 0 {
      AddDaysAdditive(PrevDay(d), a + 1, b);
      AddDaysAfterPrev(d, a + 1 + b);
    }
  }

  /** Moving forward inside one month only changes the day number. */
  lemma {:induction false} AddDaysInMonth(d: Date, k: int)
    requires ValidDate(d) && 0 <= k && d.day + k <= DaysInMonth(d.year, d.month)
    ensures AddDays(d, k) == Date(d.year, d.month, d.day + k)
    decreases k
  {
    if k > 0 {
      AddDaysInMonth(NextDay(d), k - 1);
    }
  }

  /** Moving backward inside one month only changes the day number. */
  lemma {:induction false} SubDaysInMonth(d: Date, k: int)
    requires ValidDate(d) && 0 <= k && d.day - k >= 1
    ensures AddDays(d, -k) == Date(d.year, d.month, d.day - k)
    decreases k
  {
    if k > 0 {
      SubDaysInMonth(PrevDay(d), k - 1);
    }
  }

  /** The last day of the month before the one that holds `Date(y, m, 1)`. */
  function LastOfPreviousMonth(y: int, m: int): (r: Date)
    requires 0 <= m < 12
    ensures ValidDate(r) && r.day == DaysInMonth(r.year, r.month)
    ensures NextDay(r) == Date(y, m, 1)
    ensures (r.year, r.month) == (if m == 0 then (y - 1, 11) else (y, m - 1))
  {
    PrevDay(Date(y, m, 1))
  }

  /** The first day of the month after month `m` of year `y`. */
  function FirstOfNextMonth(y: int, m: int): (r: Date)
    requires 0 <= m < 12
    ensures ValidDate(r) && r.day == 1
    ensures PrevDay(r) == Date(y, m, DaysInMonth(y, m))
    ensures (r.year, r.month) == (if m == 11 then (y + 1, 0) else (y, m + 1))
  {
    NextDay(Date(y, m, DaysInMonth(y, m)))
  }

  // ---------------------------------------------------------------------
  // The Date constructor.

  /** `new Date(y, m, d)` after the two-digit-year rule: the month is
      brought into 0..11 with a carry into the year, and the day may run
      off either end of that month into its neighbours. */
  function MakeDate(y: int, m: int, d: int): (r: Date)
    ensures ValidDate(r)
  {
    AddDays(Date(y + m / 12, m % 12, 1), d - 1)
  }

  /** The year that `new Date(y, ...)` uses: years 0..99 mean 1900..1999. */
  function FullYear(y: int): (r: int)
    ensures !(0 <= r <= 99)
    ensures !(0 <= y <= 99) ==> r == y
  {
    if 0 <= y <= 99 then 1900 + y else y
  }

  /** `new Date(y, m, d)`. */
  function NewDate(y: int, m: int, d: int): (r: Date)
    ensures ValidDate(r)
  {
    MakeDate(FullYear(y), m, d)
  }

  /** `date.setDate(n)`: keep year and month, overflow the day. */
  function SetDate(date: Date, n: int): (r: Date)
    ensures ValidDate(r)
  {
    MakeDate(date.year, date.month, n)
  }

  /** For a real date, the constructor's day overflow is day arithmetic. */
  lemma {:induction false} MakeDateShift(dt: Date, k: int)
    requires ValidDate(dt)
    ensures MakeDate(dt.year, dt.month, dt.day + k) == AddDays(dt, k)
  {
    var first := Date(dt.year, dt.month, 1);
    assert dt.month / 12 == 0 && dt.month % 12 == dt.month;
    AddDaysInMonth(first, dt.day - 1);
    AddDaysAdditive(first, dt.day - 1, k);
  }

  /** `new Date(y, m, d)` is `d - 1` days after the first of that month. */
  lemma NewDateFromFirst(y: int, m: int, d: int)
    requires 0 <= m < 12
    ensures NewDate(y, m, d) == AddDays(Date(FullYear(y), m, 1), d - 1)
  {
    MakeDateShift(Date(FullYear(y), m, 1), d - 1);
  }

  /** `new Date(y, m + 1, 0).getDate()` is the length of month `m`. */
  lemma NewDateMonthLength(y: int, m: int)
    requires 0 <= m < 12
    ensures NewDate(y, m + 1, 0).day == DaysInMonth(FullYear(y), m)
  {
    MakeDateDayZeroOfNext(FullYear(y), m);
  }

  /** `new Date(y, m, d)` of a real date is that date. */
  lemma MakeDateValid(dt: Date)
    requires ValidDate(dt)
    ensures MakeDate(dt.year, dt.month, dt.day) == dt
  {
    MakeDateShift(dt, 0);
  }

  /** `new Date(y, m + 1, 0)` is the last day of month `m`. */
  lemma {:induction false} MakeDateDayZeroOfNext(y: int, m: int)
    requires 0 <= m < 12
    ensures MakeDate(y, m + 1, 0) == Date(y, m, DaysInMonth(y, m))
  {
    var first := Date(y + (m + 1) / 12, (m + 1) % 12, 1);
    assert first == FirstOfNextMonth(y, m);
    assert AddDays(first, -1) == AddDays(PrevDay(first), 0);
  }

  /** `new Date(y, m, 0)` is the last day of the previous month. */
  lemma {:induction false} MakeDateDayZero(y: int, m: int)
    requires 0 <= m < 12
    ensures MakeDate(y, m, 0) == LastOfPreviousMonth(y, m)
  {
    assert m / 12 == 0 && m % 12 == m;
    assert AddDays(Date(y, m, 1), -1) == AddDays(PrevDay(Date(y, m, 1)), 0);
  }

  // ---------------------------------------------------------------------
  // Day of the week.

  /** The number of days from 1970-01-01 to `d` (negative before it), by
      the days-from-civil construction on 400-year eras that start in March. */
  function DaysFromCivil(d: Date): int
    requires ValidDate(d)
  {
    var y := if d.month < 2 then d.year - 1 else d.year;
    YearStart(y) + MonthOffset(d.month) + d.day - 1 - 719468
  }

  /** The days from 1 March of year 0 to 1 March of year `y`: whole eras of
      146097 days, then the years of the era. */
  function YearStart(y: int): int {
    y / 400 * 146097 + DaysBeforeYearOfEra(y % 400)
  }

  /** The days from 1 March to the first of month `m` of the March-based
      year. */
  function MonthOffset(m: int): int
    requires 0 <= m < 12
  {
    (153 * (if m >= 2 then m - 2 else m + 10) + 2) / 5
  }

  lemma MonthOffsets()
    ensures MonthOffset(2) == 0 && MonthOffset(3) == 31 && MonthOffset(4) == 61
    ensures MonthOffset(5) == 92 && MonthOffset(6) == 122 && MonthOffset(7) == 153
    ensures MonthOffset(8) == 184 && MonthOffset(9) == 214 && MonthOffset(10) == 245
    ensures MonthOffset(11) == 275 && MonthOffset(0) == 306 && MonthOffset(1) == 337
  {
  }

  /** `getDay()`: 0 for Sunday .. 6 for Saturday; 1970-01-01 was a Thursday. */
  function Weekday(d: Date): (w: int)
    requires ValidDate(d)
    ensures 0 <= w < 7
  {
    (DaysFromCivil(d) + 4) % 7
  }

  /** The day count of the March-based year `y` from the start of its era. */
  function DaysBeforeYearOfEra(yoe: int): int {
    yoe * 365 + yoe / 4 - yoe / 100
  }

  lemma DivMod400(y: int, q: int, r: int)
    requires y == q * 400 + r && 0 <= r < 400
    ensures y / 400 == q && y % 400 == r
  {
  }

  lemma Mod4Shift(a: int, r: int)
    ensures (4 * a + r) % 4 == r % 4
  {
  }

  lemma Mod100Shift(a: int, r: int)
    ensures (100 * a + r) % 100 == r % 100
  {
  }

  lemma LeapInEra(q: int, r: int)
    requires 0 < r < 400
    ensures IsLeapYear(q * 400 + r) <==> (r % 4 == 0 && r % 100 != 0)
  {
    var y := q * 400 + r;
    Mod4Shift(100 * q, r);
    Mod100Shift(4 * q, r);
    DivMod400(y, q, r);
  }

  lemma DivMod4(x: int, q: int, r: int)
    requires x == q * 4 + r && 0 <= r < 4
    ensures x / 4 == q && x % 4 == r
  {
  }

  lemma DivMod100(x: int, q: int, r: int)
    requires x == q * 100 + r && 0 <= r < 100
    ensures x / 100 == q && x % 100 == r
  {
  }

  /** Inside an era, a year adds 366 days when it is a leap year. */
  lemma DaysBeforeYearStep(yoe: int)
    requires 0 <= yoe < 399
    ensures DaysBeforeYearOfEra(yoe + 1)
         == DaysBeforeYearOfEra(yoe) + (if (yoe + 1) % 4 == 0 && (yoe + 1) % 100 != 0 then 366 else 365)
  {
    var q4, r4 := yoe / 4, yoe % 4;
    var q100, r100 := yoe / 100, yoe % 100;
    if r4 == 3 { DivMod4(yoe + 1, q4 + 1, 0); } else { DivMod4(yoe + 1, q4, r4 + 1); }
    if r100 == 99 { DivMod100(yoe + 1, q100 + 1, 0); } else { DivMod100(yoe + 1, q100, r100 + 1); }
  }

  /** The last year of an era is a leap year, being a multiple of 400. */
  lemma EraEndLeap(era: int)
    ensures IsLeapYear(era * 400)
  {
    DivMod4(era * 400, era * 100, 0);
    DivMod100(era * 400, era * 4, 0);
    DivMod400(era * 400, era, 0);
  }

  lemma YearOfEraStep(y: int)
    ensures YearStart(y + 1) == YearStart(y) + (if IsLeapYear(y + 1) then 366 else 365)
  {
    var era, yoe := y / 400, y % 400;
    DivMod400(y, era, yoe);
    if yoe == 399 {
      DivMod400(y + 1, era + 1, 0);
      EraEndLeap(era + 1);
      assert y + 1 == (era + 1) * 400;
      assert DaysBeforeYearOfEra(399) == 146097 - 366;
      assert DaysBeforeYearOfEra(0) == 0;
    } else {
      DivMod400(y + 1, era, yoe + 1);
      LeapInEra(era, yoe + 1);
      DaysBeforeYearStep(yoe);
    }
  }

  lemma NextAcrossMonth(d: Date)
    requires ValidDate(d) && d.day == DaysInMonth(d.year, d.month) && d.month != 1 && d.month < 11
    ensures DaysFromCivil(Date(d.year, d.month + 1, 1)) == DaysFromCivil(d) + 1
  {
    MonthOffsets();
  }

  lemma NextAcrossYear(d: Date)
    requires ValidDate(d) && d.month == 11 && d.day == 31
    ensures DaysFromCivil(Date(d.year + 1, 0, 1)) == DaysFromCivil(d) + 1
  {
    MonthOffsets();
  }

  lemma NextIntoMarch(d: Date)
    requires ValidDate(d) && d.month == 1 && d.day == DaysInMonth(d.year, 1)
    ensures DaysFromCivil(Date(d.year, 2, 1)) == DaysFromCivil(d) + 1
  {
    YearOfEraStep(d.year - 1);
    MonthOffsets();
  }

  /** The day count advances by one from each day to the next. */
  lemma DaysFromCivilNext(d: Date)
    requires ValidDate(d)
    ensures DaysFromCivil(NextDay(d)) == DaysFromCivil(d) + 1
  {
    if d.day < DaysInMonth(d.year, d.month) {
    } else if d.month == 1 {
      NextIntoMarch(d);
    } else if d.month < 11 {
      NextAcrossMonth(d);
    } else {
      NextAcrossYear(d);
    }
  }

  lemma {:induction false} DaysFromCivilAdd(d: Date, k: int)
    requires ValidDate(d)
    ensures DaysFromCivil(AddDays(d, k)) == DaysFromCivil(d) + k
    decreases if k < 0 then -k else k
  {
    if k > 0 {
      DaysFromCivilNext(d);
      DaysFromCivilAdd(NextDay(d), k - 1);
    } else if k < 0 {
      NextPrevInverse(d);
      DaysFromCivilNext(PrevDay(d));
      DaysFromCivilAdd(PrevDay(d), k + 1);
    }
  }

  /** Moving `k` days moves the weekday `k` places round the week. */
  lemma WeekdayAdd(d: Date, k: int)
    requires ValidDate(d)
    ensures Weekday(AddDays(d, k)) == (Weekday(d) + k) % 7
  {
    DaysFromCivilAdd(d, k);
    var a := DaysFromCivil(d) + 4;
    ModSevenShift(a, k);
  }

  lemma ModSevenShift(a: int, k: int)
    ensures (a + k) % 7 == (a % 7 + k) % 7
  {
    var q := a / 7;
    assert a == 7 * q + a % 7;
    assert a + k == 7 * q + (a % 7 + k);
  }

  lemma EpochIsThursday()
    ensures DaysFromCivil(Date(1970, 0, 1)) == 0 && Weekday(Date(1970, 0, 1)) == 4
  {
  }
}
