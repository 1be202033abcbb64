/**
  Totals over runs of consecutive days: the seven-day week summaries of
  the calendar and the monthly profit/loss.
*/
module Aggregation {
  import opened Dates
  import opened DateKey
  import opened Ledger

  /** Summed profit/loss (cents) and trade count. */
  datatype Totals = Totals(pl: int, trades: int)

  function Plus(a: Totals, b: Totals): Totals {
    Totals(a.pl + b.pl, a.trades + b.trades)
  }

  function OfRecord(r: Record): Totals {
    Totals(r.pl, r.trades)
  }

  /** The sum of `f` over the `n` consecutive days from `start`. */
  function WindowSum(f: Date -> Totals, start: Date, n: nat): Totals
    requires ValidDate(start)
  {
    if n == 0 then Totals(0, 0) else Plus(WindowSum(f, start, n - 1), f(AddDays(start, n - 1)))
  }

  /** What the ledger holds for one calendar day, nothing for a day without a record. */
  function DayTotals(data: Data): Date -> Totals {
    d => OfRecord(RecordAt(data, FormatDate(d)))
  }

  /** The totals of the records of the `n` consecutive days from `start`. */
  function WindowTotals(data: Data, start: Date, n: nat): Totals
    requires ValidDate(start)
  {
    WindowSum(DayTotals(data), start, n)
  }

  /** The inner loop of a week summary: the seven days from `weekStart`,
      each reached by `setDate(getDate() + d)` on a copy of the start. */
  method WeekTotals(data: Data, weekStart: Date) returns (weekPL: int, weekTrades: int)
    requires ValidDate(weekStart)
    ensures Totals(weekPL, weekTrades) == WindowTotals(data, weekStart, 7)
  {
    weekPL, weekTrades := 0, 0;
    var d := 0;
    while d < 7
      invariant 0 <= d <= 7
      invariant Totals(weekPL, weekTrades) == WindowTotals(data, weekStart, d)
    {
      var currentDate := SetDate(weekStart, weekStart.day + d);
      MakeDateShift(weekStart, d);
      var dateKey := FormatDate(currentDate);
      if dateKey in data {
        weekPL := weekPL + data[dateKey].pl;
        weekTrades := weekTrades + data[dateKey].trades;
      }
      d := d + 1;
    }
  }

  /** `updateMonthlyPL`: the profit/loss of every day of the displayed month,
      each day's key built from `new Date(year, month, i)`; trade counts are
      not summed. */
  method MonthlyPL(data: Data, displayedYear: int, displayedMonth: int) returns (monthlyPL: int)
    requires 0 <= displayedMonth < 12
    ensures monthlyPL == MonthTotal(data, displayedYear, displayedMonth)
  {
    monthlyPL := 0;
    var daysInMonth := NewDate(displayedYear, displayedMonth + 1, 0).day;
    NewDateMonthLength(displayedYear, displayedMonth);
    var i := 1;
    while i <= daysInMonth
      invariant 1 <= i <= daysInMonth + 1
      invariant monthlyPL == LoopPL(data, displayedYear, displayedMonth, i - 1)
    {
      monthlyPL := AddDayPL(data, displayedYear, displayedMonth, i, monthlyPL);
      i := i + 1;
    }
    LoopPLIsWindow(data, displayedYear, displayedMonth, daysInMonth);
  }

  /** One pass of the `updateMonthlyPL` loop: add day `i`'s profit/loss,
      if that day is stored. */
  method AddDayPL(data: Data, y: int, m: int, i: nat, acc: int) returns (r: int)
    requires i >= 1 && acc == LoopPL(data, y, m, i - 1)
    ensures r == LoopPL(data, y, m, i)
  {
    var dateObj := NewDate(y, m, i);
    var dateKey := FormatDate(dateObj);
    r := acc;
    if dateKey in data {
      r := acc + data[dateKey].pl;
    }
  }

  /** The profit/loss of days `1..n` as the loop of `updateMonthlyPL` reaches them. */
  ghost function LoopPL(data: Data, y: int, m: int, n: nat): int {
    if n == 0 then 0 else LoopPL(data, y, m, n - 1) + RecordAt(data, FormatDate(NewDate(y, m, n))).pl
  }

  lemma {:induction false} LoopPLIsWindow(data: Data, y: int, m: int, n: nat)
    requires 0 <= m < 12
    ensures LoopPL(data, y, m, n) == WindowTotals(data, Date(FullYear(y), m, 1), n).pl
  {
    if n > 0 {
      LoopPLIsWindow(data, y, m, n - 1);
      LoopPLStep(data, y, m, n);
    }
  }

  lemma LoopPLStep(data: Data, y: int, m: int, n: nat)
    requires 0 <= m < 12 && n > 0
    requires LoopPL(data, y, m, n - 1) == WindowTotals(data, Date(FullYear(y), m, 1), n - 1).pl
    ensures LoopPL(data, y, m, n) == WindowTotals(data, Date(FullYear(y), m, 1), n).pl
  {
    MonthDayStep(data, y, m, n);
  }

  /** Day `i` of the month, as `new Date(year, month, i)` builds it, is the
      last day of the month's first `i` days. */
  lemma MonthDayStep(data: Data, y: int, m: int, i: nat)
    requires 0 <= m < 12 && i >= 1
    ensures var first := Date(FullYear(y), m, 1);
      WindowTotals(data, first, i).pl ==
      WindowTotals(data, first, i - 1).pl + RecordAt(data, FormatDate(NewDate(y, m, i))).pl
  {
    NewDateFromFirst(y, m, i);
    WindowStep(data, Date(FullYear(y), m, 1), i - 1);
  }

  // ---------------------------------------------------------------------
  // Laws of window totals.

  /** A window one day longer adds the record of its last day. */
  lemma WindowStep(data: Data, start: Date, n: nat)
    requires ValidDate(start)
    ensures WindowTotals(data, start, n + 1) ==
      Plus(WindowTotals(data, start, n), OfRecord(RecordAt(data, FormatDate(AddDays(start, n)))))
  {
  }

  /** A day function that is zero on every day of a window sums to zero. */
  lemma {:induction false} SumZero(f: Date -> Totals, start: Date, n: nat)
    requires ValidDate(start)
    requires forall i :: 0 <= i < n ==> f(AddDays(start, i)) == Totals(0, 0)
    ensures WindowSum(f, start, n) == Totals(0, 0)
  {
    if n > 0 {
      SumZero(f, start, n - 1);
    }
  }

  /** An empty ledger totals zero over any window. */
  lemma WindowEmpty(start: Date, n: nat)
    requires ValidDate(start)
    ensures WindowTotals(map[], start, n) == Totals(0, 0)
  {
    forall i | 0 <= i < n
      ensures DayTotals(map[])(AddDays(start, i)) == Totals(0, 0)
    {
    }
    SumZero(DayTotals(map[]), start, n);
  }

  /** Two day functions that agree on the days of a window sum alike there. */
  lemma {:induction false} SumFrame(f: Date -> Totals, g: Date -> Totals, start: Date, n: nat)
    requires ValidDate(start)
    requires forall i :: 0 <= i < n ==> f(AddDays(start, i)) == g(AddDays(start, i))
    ensures WindowSum(f, start, n) == WindowSum(g, start, n)
  {
    if n > 0 {
      SumFrame(f, g, start, n - 1);
    }
  }

  /** Two ledgers that agree on the days of a window have the same totals there. */
  lemma WindowFrame(d1: Data, d2: Data, start: Date, n: nat)
    requires ValidDate(start)
    requires forall i :: 0 <= i < n ==>
      RecordAt(d1, FormatDate(AddDays(start, i))) == RecordAt(d2, FormatDate(AddDays(start, i)))
    ensures WindowTotals(d1, start, n) == WindowTotals(d2, start, n)
  {
    SumFrame(DayTotals(d1), DayTotals(d2), start, n);
  }

  /** A window's profit/loss depends only on the profit/loss of its days. */
  lemma {:induction false} SumPLFrame(f: Date -> Totals, g: Date -> Totals, start: Date, n: nat)
    requires ValidDate(start)
    requires forall i :: 0 <= i < n ==> f(AddDays(start, i)).pl == g(AddDays(start, i)).pl
    ensures WindowSum(f, start, n).pl == WindowSum(g, start, n).pl
  {
    if n > 0 {
      SumPLFrame(f, g, start, n - 1);
    }
  }

  lemma WindowPLFrame(d1: Data, d2: Data, start: Date, n: nat)
    requires ValidDate(start)
    requires forall i :: 0 <= i < n ==>
      RecordAt(d1, FormatDate(AddDays(start, i))).pl == RecordAt(d2, FormatDate(AddDays(start, i))).pl
    ensures WindowTotals(d1, start, n).pl == WindowTotals(d2, start, n).pl
  {
    SumPLFrame(DayTotals(d1), DayTotals(d2), start, n);
  }

  /** A window splits into consecutive windows. */
  lemma {:induction false} SumSplit(f: Date -> Totals, start: Date, a: nat, b: nat)
    requires ValidDate(start)
    ensures WindowSum(f, start, a + b) == Plus(WindowSum(f, start, a), WindowSum(f, AddDays(start, a), b))
  {
    if b > 0 {
      SumSplit(f, start, a, b - 1);
      AddDaysAdditive(start, a, b - 1);
    }
  }

  lemma WindowSplit(data: Data, start: Date, a: nat, b: nat)
    requires ValidDate(start)
    ensures WindowTotals(data, start, a + b) ==
      Plus(WindowTotals(data, start, a), WindowTotals(data, AddDays(start, a), b))
  {
    SumSplit(DayTotals(data), start, a, b);
  }

  /** Days `a` and `b` after the same start are the same day only when `a == b`. */
  lemma AddDaysInjective(start: Date, a: int, b: int)
    requires ValidDate(start) && AddDays(start, a) == AddDays(start, b)
    ensures a == b
  {
    DaysFromCivilAdd(start, a);
    DaysFromCivilAdd(start, b);
  }

  /** Changing `f` on day `i` of a window alone changes the sum by the difference. */
  lemma {:induction false} SumUpdate(f: Date -> Totals, g: Date -> Totals, start: Date, n: nat, i: nat)
    requires ValidDate(start) && i < n
    requires forall j :: 0 <= j < n && j != i ==> f(AddDays(start, j)) == g(AddDays(start, j))
    ensures var day := AddDays(start, i);
      WindowSum(g, start, n) == Plus(WindowSum(f, start, n), Minus(g(day), f(day)))
  {
    if i < n - 1 {
      SumUpdate(f, g, start, n - 1, i);
    } else {
      SumFrame(f, g, start, n - 1);
    }
  }

  function Minus(a: Totals, b: Totals): Totals {
    Totals(a.pl - b.pl, a.trades - b.trades)
  }

  /** Storing record `r` under day `i` of a window changes the window's
      totals by exactly the difference between `r` and the old record. */
  lemma WindowUpdate(data: Data, start: Date, n: nat, i: nat, r: Record)
    requires ValidDate(start) && i < n
    ensures var key := FormatDate(AddDays(start, i));
      WindowTotals(data[key := r], start, n) ==
      Plus(WindowTotals(data, start, n), Minus(OfRecord(r), OfRecord(RecordAt(data, key))))
  {
    var key := FormatDate(AddDays(start, i));
    forall j | 0 <= j < n && j != i
      ensures DayTotals(data)(AddDays(start, j)) == DayTotals(data[key := r])(AddDays(start, j))
    {
      OtherDay(data, start, i, j, r);
    }
    SumUpdate(DayTotals(data), DayTotals(data[key := r]), start, n, i);
  }

  /** Storing under day `i` leaves the record of any other day `j` alone. */
  lemma OtherDay(data: Data, start: Date, i: int, j: int, r: Record)
    requires ValidDate(start) && i != j
    ensures RecordAt(data[FormatDate(AddDays(start, i)) := r], FormatDate(AddDays(start, j))) ==
      RecordAt(data, FormatDate(AddDays(start, j)))
  {
    if FormatDate(AddDays(start, i)) == FormatDate(AddDays(start, j)) {
      FormatDateInjective(AddDays(start, i), AddDays(start, j));
      AddDaysInjective(start, i, j);
    }
  }

  // ---------------------------------------------------------------------
  // The monthly total.

  /** The profit/loss that `updateMonthlyPL` shows for a month. */
  function MonthTotal(data: Data, y: int, m: int): int
    requires 0 <= m < 12
  {
    WindowTotals(data, Date(FullYear(y), m, 1), DaysInMonth(FullYear(y), m)).pl
  }

  /** A month without records totals zero. */
  lemma MonthTotalEmpty(y: int, m: int)
    requires 0 <= m < 12
    ensures MonthTotal(map[], y, m) == 0
  {
    WindowEmpty(Date(FullYear(y), m, 1), DaysInMonth(FullYear(y), m));
  }

  /** A month none of whose days holds a record totals zero, whatever the
      ledger stores for other months. */
  lemma MonthTotalNoRecords(data: Data, y: int, m: int)
    requires 0 <= m < 12
    requires forall d :: 1 <= d <= DaysInMonth(FullYear(y), m) ==> FormatDate(Date(FullYear(y), m, d)) !in data
    ensures MonthTotal(data, y, m) == 0
  {
    var first, n := Date(FullYear(y), m, 1), DaysInMonth(FullYear(y), m);
    forall i | 0 <= i < n
      ensures RecordAt(data, FormatDate(AddDays(first, i))) == RecordAt(map[], FormatDate(AddDays(first, i)))
    {
      AddDaysInMonth(first, i);
      assert FormatDate(Date(FullYear(y), m, 1 + i)) !in data;
    }
    WindowFrame(data, map[], first, n);
    MonthTotalEmpty(y, m);
  }

  /** Storing or deleting the record of a day outside the displayed month
      leaves the monthly total alone, even for an adjacent-month day that
      the calendar grid shows. */
  lemma MonthTotalIgnoresOtherMonths(data: Data, y: int, m: int, dt: Date, r: Record)
    requires 0 <= m < 12 && ValidDate(dt) && (dt.year, dt.month) != (FullYear(y), m)
    ensures MonthTotal(data[FormatDate(dt) := r], y, m) == MonthTotal(data, y, m)
    ensures MonthTotal(DeleteEntry(data, FormatDate(dt)), y, m) == MonthTotal(data, y, m)
  {
    var first := Date(FullYear(y), m, 1);
    var n := DaysInMonth(FullYear(y), m);
    forall i | 0 <= i < n
      ensures FormatDate(AddDays(first, i)) != FormatDate(dt)
    {
      AddDaysInMonth(first, i);
      if FormatDate(AddDays(first, i)) == FormatDate(dt) {
        FormatDateInjective(AddDays(first, i), dt);
      }
    }
    WindowFrame(data[FormatDate(dt) := r], data, first, n);
    WindowFrame(DeleteEntry(data, FormatDate(dt)), data, first, n);
  }

  /** Storing record `r` for day `d` of the month moves the monthly total
      by the change in that day's profit/loss. */
  lemma MonthTotalUpdate(data: Data, y: int, m: int, d: int, r: Record)
    requires 0 <= m < 12 && 1 <= d <= DaysInMonth(FullYear(y), m)
    ensures var key := FormatDate(Date(FullYear(y), m, d));
      MonthTotal(data[key := r], y, m) == MonthTotal(data, y, m) + r.pl - RecordAt(data, key).pl
  {
    var first := Date(FullYear(y), m, 1);
    AddDaysInMonth(first, d - 1);
    WindowUpdate(data, first, DaysInMonth(FullYear(y), m), d - 1, r);
  }

  /** A month whose ledger holds two of its days totals their profit/loss. */
  lemma MonthTotalTwoDays(y: int, m: int, d1: int, d2: int, r1: Record, r2: Record)
    requires 0 <= m < 12 && d1 != d2
    requires 1 <= d1 <= DaysInMonth(FullYear(y), m) && 1 <= d2 <= DaysInMonth(FullYear(y), m)
    ensures MonthTotal(map[FormatDate(Date(FullYear(y), m, d1)) := r1,
                           FormatDate(Date(FullYear(y), m, d2)) := r2], y, m) == r1.pl + r2.pl
  {
    var k1, k2 := FormatDate(Date(FullYear(y), m, d1)), FormatDate(Date(FullYear(y), m, d2));
    MonthTotalEmpty(y, m);
    MonthTotalUpdate(map[], y, m, d1, r1);
    MonthTotalUpdate(map[k1 := r1], y, m, d2, r2);
    if k1 == k2 {
      FormatDateInjective(Date(FullYear(y), m, d1), Date(FullYear(y), m, d2));
    }
  }

  /** Two records in March 2024, +150.50 on the 5th and -75.25 on the 6th,
      make a monthly total of +75.25. */
  lemma MonthTotalExample()
    ensures MonthTotal(map[FormatDate(Date(2024, 2, 5)) := Record(15050, 3),
                           FormatDate(Date(2024, 2, 6)) := Record(-7525, 1)], 2024, 2) == 7525
  {
    MonthTotalTwoDays(2024, 2, 5, 6, Record(15050, 3), Record(-7525, 1));
  }
}
