/** The months an account is billed by: src/suliko/domain/billing.py. An instant is a number of
    seconds since the first of January of the year 1; the time zone is a fixed offset. The
    calendar is the proleptic Gregorian one. */
module Billing {
  import opened Options

  datatype Period = Period(year: int, month: int)

  datatype Date = Date(year: int, month: int, day: int)

  // ---- The calendar ----

  predicate IsLeap(year: int) {
    year % 4 == 0 && (year % 100 != 0 || year % 400 == 0)
  }

  function DaysIn(p: Period): int {
    if p.month == 2 then (if IsLeap(p.year) then 29 else 28)
    else if p.month == 4 || p.month == 6 || p.month == 9 || p.month == 11 then 30
    else 31
  }

  predicate ValidPeriod(p: Period) {
    p.year >= 1 && 1 <= p.month <= 12
  }

  predicate ValidDate(d: Date) {
    ValidPeriod(MonthOf(d)) && 1 <= d.day <= DaysIn(MonthOf(d))
  }

  function MonthOf(d: Date): Period { Period(d.year, d.month) }

  /** Days before the first of January of a year, by the leap years before it. */
  function DaysBeforeYear(year: int): int {
    (year - 1) * 365 + (year - 1) / 4 - (year - 1) / 100 + (year - 1) / 400
  }

  function DaysBeforeMonth(p: Period): int
    decreases p.month
  {
    if p.month <= 1 then 0 else DaysBeforeMonth(Period(p.year, p.month - 1)) + DaysIn(Period(p.year, p.month - 1))
  }

  /** Days before the first of a month. */
  function FirstDay(p: Period): int {
    DaysBeforeYear(p.year) + DaysBeforeMonth(p)
  }

  function DayNumber(d: Date): int {
    FirstDay(MonthOf(d)) + d.day - 1
  }

  function NextPeriod(p: Period): Period {
    Period(p.year + (if p.month == 12 then 1 else 0), p.month % 12 + 1)
  }

  function NextDate(d: Date): Date {
    if d.day < DaysIn(MonthOf(d)) then d.(day := d.day + 1)
    else Date(NextPeriod(MonthOf(d)).year, NextPeriod(MonthOf(d)).month, 1)
  }

  /** The date of a day, counted on from the first. */
  function DateOf(day: nat): (d: Date)
    ensures ValidDate(d)
  {
    if day == 0 then Date(1, 1, 1) else NextDate(DateOf(day - 1))
  }

  lemma YearLength(year: int)
    requires year >= 1
    ensures DaysBeforeYear(year + 1) == DaysBeforeYear(year) + if IsLeap(year) then 366 else 365
  {
    Fourth(year);
    Hundredth(year);
    FourHundredth(year);
  }

  lemma Fourth(year: int)
    ensures year / 4 == (year - 1) / 4 + if year % 4 == 0 then 1 else 0
  {
  }

  lemma Hundredth(year: int)
    ensures year / 100 == (year - 1) / 100 + if year % 100 == 0 then 1 else 0
    ensures year % 100 == 0 ==> year % 4 == 0
  {
  }

  lemma FourHundredth(year: int)
    ensures year / 400 == (year - 1) / 400 + if year % 400 == 0 then 1 else 0
    ensures year % 400 == 0 ==> year % 100 == 0
  {
  }

  lemma YearOfMonths(year: int)
    ensures DaysBeforeMonth(Period(year, 12)) + 31 == if IsLeap(year) then 366 else 365
  {
    assert DaysBeforeMonth(Period(year, 3)) == 59 + if IsLeap(year) then 1 else 0 by {
      assert DaysBeforeMonth(Period(year, 2)) == 31;
    }
    assert DaysBeforeMonth(Period(year, 6)) == DaysBeforeMonth(Period(year, 3)) + 92 by {
      assert DaysBeforeMonth(Period(year, 5)) == DaysBeforeMonth(Period(year, 3)) + 61;
    }
    assert DaysBeforeMonth(Period(year, 9)) == DaysBeforeMonth(Period(year, 6)) + 92 by {
      assert DaysBeforeMonth(Period(year, 8)) == DaysBeforeMonth(Period(year, 6)) + 61;
    }
    assert DaysBeforeMonth(Period(year, 11)) == DaysBeforeMonth(Period(year, 9)) + 61;
  }

  /** Months follow one another without a gap, across years and leap years. */
  lemma MonthsAbut(p: Period)
    requires ValidPeriod(p)
    ensures ValidPeriod(NextPeriod(p)) && FirstDay(NextPeriod(p)) == FirstDay(p) + DaysIn(p)
  {
    if p.month == 12 {
      YearLength(p.year);
      YearOfMonths(p.year);
      assert NextPeriod(p) == Period(p.year + 1, 1);
    } else {
      assert NextPeriod(p) == Period(p.year, p.month + 1);
    }
  }

  lemma NextDayNumber(d: Date)
    requires ValidDate(d)
    ensures ValidDate(NextDate(d)) && DayNumber(NextDate(d)) == DayNumber(d) + 1
  {
    MonthsAbut(MonthOf(d));
  }

  lemma {:induction false} DateHasItsNumber(day: nat)
    ensures DayNumber(DateOf(day)) == day
  {
    if day > 0 {
      DateHasItsNumber(day - 1);
      NextDayNumber(DateOf(day - 1));
    }
  }

  predicate Before(p: Period, q: Period) {
    p.year < q.year || (p.year == q.year && p.month < q.month)
  }

  lemma NextIs(p: Period)
    requires ValidPeriod(p)
    ensures NextPeriod(p) == if p.month == 12 then Period(p.year + 1, 1) else Period(p.year, p.month + 1)
    ensures ValidPeriod(NextPeriod(p)) && Before(Period(1, 1), NextPeriod(p))
  {
  }

  lemma MonthBefore(p: Period) returns (q: Period)
    requires ValidPeriod(p) && Before(Period(1, 1), p)
    ensures ValidPeriod(q) && NextPeriod(q) == p
  {
    q := if p.month > 1 then Period(p.year, p.month - 1) else Period(p.year - 1, 12);
  }

  /** Months are ordered as their first days. */
  lemma {:induction false} EarlierMonthEnds(p: Period, q: Period)
    requires ValidPeriod(p) && ValidPeriod(q) && Before(p, q)
    ensures FirstDay(p) + DaysIn(p) <= FirstDay(q)
    decreases q.year - p.year, 12 - p.month
  {
    hide FirstDay, DaysIn, NextPeriod;
    MonthsAbut(p);
    NextIs(p);
    if NextPeriod(p) != q {
      EarlierMonthEnds(NextPeriod(p), q);
      NotEmpty(NextPeriod(p));
    }
  }

  lemma NotEmpty(p: Period)
    ensures DaysIn(p) > 0
  {
  }

  /** A date and its number determine each other. */
  lemma NumberHasItsDate(d: Date)
    requires ValidDate(d)
    ensures DayNumber(d) >= 0 && DateOf(DayNumber(d)) == d
  {
    FirstIsFirst(MonthOf(d));
    var n: nat := DayNumber(d);
    DateHasItsNumber(n);
    SameNumberSameDate(DateOf(n), d);
  }

  lemma FirstIsFirst(p: Period)
    requires ValidPeriod(p)
    ensures FirstDay(p) >= 0
  {
    assert FirstDay(Period(1, 1)) == 0;
    if Before(Period(1, 1), p) { EarlierMonthEnds(Period(1, 1), p); }
  }

  lemma SameNumberSameDate(d: Date, e: Date)
    requires ValidDate(d) && ValidDate(e) && DayNumber(d) == DayNumber(e)
    ensures d == e
  {
    if Before(MonthOf(d), MonthOf(e)) {
      EarlierMonthEnds(MonthOf(d), MonthOf(e));
    } else if Before(MonthOf(e), MonthOf(d)) {
      EarlierMonthEnds(MonthOf(e), MonthOf(d));
    }
  }

  // ---- Windows ----

  const DAY := 86400

  /** The first instant of a month in a zone. */
  function StartOf(p: Period, offset: int): int {
    FirstDay(p) * DAY - offset
  }

  /** `month_window` */
  function MonthWindow(p: Period, offset: int): (int, int) {
    (StartOf(p, offset), StartOf(NextPeriod(p), offset))
  }

  predicate InWindow(now: int, p: Period, offset: int) {
    MonthWindow(p, offset).0 <= now < MonthWindow(p, offset).1
  }

  /** `current_period`: the month of the local date. */
  function CurrentPeriod(now: int, offset: int): Period
    requires now + offset >= 0
  {
    MonthOf(DateOf((now + offset) / DAY))
  }

  /** Every instant is in exactly one month's window, that of the month it is; and each window
      begins where the one before ends. */
  lemma MonthsTileTime(now: int, offset: int, p: Period)
    requires now + offset >= 0 && ValidPeriod(p)
    ensures ValidPeriod(CurrentPeriod(now, offset))
    ensures InWindow(now, p, offset) <==> p == CurrentPeriod(now, offset)
    ensures MonthWindow(p, offset).1 == MonthWindow(NextPeriod(p), offset).0
  {
    var day := (now + offset) / DAY;
    var d := DateOf(day);
    DateHasItsNumber(day);
    MonthsAbut(p);
    MonthsAbut(MonthOf(d));
    InWindowByDay(now, p, offset);
    if Before(p, MonthOf(d)) {
      EarlierMonthEnds(p, MonthOf(d));
    } else if Before(MonthOf(d), p) {
      EarlierMonthEnds(MonthOf(d), p);
    }
  }

  lemma InWindowByDay(now: int, p: Period, offset: int)
    requires ValidPeriod(p)
    ensures InWindow(now, p, offset) <==> FirstDay(p) <= (now + offset) / DAY < FirstDay(p) + DaysIn(p)
  {
    MonthsAbut(p);
    var t := now + offset;
    assert t == (t / DAY) * DAY + t % DAY;
  }

  // ---- The month before ----

  /** A day less; there is none before the first. */
  function DayBefore(day: int): nat {
    if day > 0 then day - 1 else 0
  }

  /** `period_days` */
  function PeriodDays(p: Period): (Date, Date) {
    (Date(p.year, p.month, 1), DateOf(DayBefore(FirstDay(NextPeriod(p)))))
  }

  /** `previous_period`: the month of the day before its first. */
  function PreviousPeriod(p: Period): Period {
    MonthOf(DateOf(DayBefore(DayNumber(PeriodDays(p).0))))
  }

  /** The last day of a month is the day before the next. */
  lemma LastDayOf(p: Period)
    requires ValidPeriod(p)
    ensures DateOf(DayBefore(FirstDay(NextPeriod(p)))) == Date(p.year, p.month, DaysIn(p)) == PeriodDays(p).1
    ensures MonthOf(DateOf(DayBefore(FirstDay(NextPeriod(p))))) == p
  {
    var last := Date(p.year, p.month, DaysIn(p));
    MonthsAbut(p);
    NumberHasItsDate(last);
    assert DayNumber(last) == FirstDay(NextPeriod(p)) - 1;
    hide DateOf, FirstDay, DaysIn;
  }

  lemma BackFromNext(p: Period)
    requires ValidPeriod(p)
    ensures ValidPeriod(NextPeriod(p)) && Before(Period(1, 1), NextPeriod(p)) && PreviousPeriod(NextPeriod(p)) == p
  {
    hide *;
    NextIs(p);
    LastDayOf(p);
    PreviousIs(NextPeriod(p));
  }

  lemma PreviousIs(p: Period)
    ensures PreviousPeriod(p) == MonthOf(DateOf(DayBefore(FirstDay(p))))
  {
    hide DateOf, FirstDay;
  }

  /** The month before and the month after undo each other. */
  lemma PreviousUndoesNext(p: Period)
    requires ValidPeriod(p)
    ensures ValidPeriod(NextPeriod(p)) && Before(Period(1, 1), NextPeriod(p)) && PreviousPeriod(NextPeriod(p)) == p
    ensures Before(Period(1, 1), p) ==> ValidPeriod(PreviousPeriod(p)) && NextPeriod(PreviousPeriod(p)) == p
  {
    hide *;
    BackFromNext(p);
    if Before(Period(1, 1), p) {
      var q := MonthBefore(p);
      BackFromNext(q);
    }
  }

  // ---- Printing and parsing ----

  function Digit(n: int): char
    requires 0 <= n < 10
  {
    '0' + n as char
  }

  predicate IsAscii(c: char) { '0' <= c <= '9' }

  predicate Printable(p: Period) {
    0 <= p.year <= 9999 && 1 <= p.month <= 12
  }

  function YearDigit(year: int, i: nat): int {
    if i == 0 then year / 1000 % 10 else if i == 1 then year / 100 % 10 else if i == 2 then year / 10 % 10 else year % 10
  }

  /** `period_of` */
  function Print(p: Period): string
    requires Printable(p)
  {
    [Digit(YearDigit(p.year, 0)), Digit(YearDigit(p.year, 1)), Digit(YearDigit(p.year, 2)), Digit(YearDigit(p.year, 3)),
     '-', Digit(p.month / 10), Digit(p.month % 10)]
  }

  /** What a decimal digit of any script is worth: `\d` takes them all, and `int` reads them. */
  type Worth = char -> Option<int>

  ghost predicate IsDecimal(worth: Worth) {
    && (forall c | worth(c).Some? :: 0 <= worth(c).value < 10)
    && (forall c | IsAscii(c) :: worth(c) == Some(c as int - '0' as int))
  }

  /** The pattern: the year's digits are any script's, the month's are ASCII. */
  predicate Spells(s: string, worth: Worth) {
    && |s| == 7 && s[4] == '-'
    && worth(s[0]).Some? && worth(s[1]).Some? && worth(s[2]).Some? && worth(s[3]).Some?
    && ((s[5] == '0' && '1' <= s[6] <= '9') || (s[5] == '1' && '0' <= s[6] <= '2'))
  }

  /** The pattern's `$` lets one newline follow. */
  function WithoutNewline(s: string): string {
    if |s| == 8 && s[7] == '\n' then s[..7] else s
  }

  /** `parse_period` */
  function Parse(s: string, worth: Worth): Option<Period> {
    var text := WithoutNewline(s);
    if Spells(text, worth) then
      Some(Period(worth(text[0]).value * 1000 + worth(text[1]).value * 100 + worth(text[2]).value * 10 + worth(text[3]).value,
                  (text[5] as int - '0' as int) * 10 + text[6] as int - '0' as int))
    else None
  }

  /** The text is how the month prints, its year in the digits of any scripts. */
  ghost predicate PrintsAs(text: string, p: Period, worth: Worth)
    requires Printable(p)
  {
    && |text| == 7 && text[4..] == Print(p)[4..]
    && forall i | 0 <= i < 4 :: worth(text[i]) == Some(YearDigit(p.year, i))
  }

  lemma YearOfDigits(a: int, b: int, c: int, d: int, year: int)
    requires 0 <= a < 10 && 0 <= b < 10 && 0 <= c < 10 && 0 <= d < 10
    ensures year == a * 1000 + b * 100 + c * 10 + d
            <==> 0 <= year <= 9999 && a == YearDigit(year, 0) && b == YearDigit(year, 1) && c == YearDigit(year, 2) && d == YearDigit(year, 3)
  {
    if year == a * 1000 + b * 100 + c * 10 + d {
      assert year / 10 == a * 100 + b * 10 + c && year / 100 == a * 10 + b && year / 1000 == a;
    } else if 0 <= year <= 9999 {
      assert year / 10 == year / 100 * 10 + year / 10 % 10;
      assert year / 100 == year / 1000 * 10 + year / 100 % 10;
    }
  }

  lemma MonthOfDigits(x: char, y: char, month: int)
    requires (x == '0' && '1' <= y <= '9') || (x == '1' && '0' <= y <= '2')
    ensures (x as int - '0' as int) * 10 + y as int - '0' as int == month
            <==> 1 <= month <= 12 && x == Digit(month / 10) && y == Digit(month % 10)
  {
  }

  /** A text parses as a month exactly when, up to one newline, it is how the month prints with
      the year in digits of any scripts. */
  lemma ParsesExactly(s: string, p: Period, worth: Worth)
    requires IsDecimal(worth)
    ensures Parse(s, worth) == Some(p) <==> Printable(p) && PrintsAs(WithoutNewline(s), p, worth)
  {
    var text := WithoutNewline(s);
    if Printable(p) && PrintsAs(text, p, worth) { PrintsAsSpells(text, p, worth); }
    if Spells(text, worth) {
      YearOfDigits(worth(text[0]).value, worth(text[1]).value, worth(text[2]).value, worth(text[3]).value, p.year);
      MonthOfDigits(text[5], text[6], p.month);
      hide YearDigit, Digit, IsDecimal, WithoutNewline;
      if Printable(p) { TailIs(text, p); }
    }
  }

  lemma PrintsAsSpells(text: string, p: Period, worth: Worth)
    requires Printable(p) && PrintsAs(text, p, worth)
    ensures Spells(text, worth)
  {
    MonthSpells(p.month);
    assert text[4] == Print(p)[4..][0] && text[5] == Print(p)[4..][1] && text[6] == Print(p)[4..][2];
    assert forall i | 0 <= i < 4 :: worth(text[i]).Some?;
  }

  lemma MonthSpells(month: int)
    requires 1 <= month <= 12
    ensures var x, y := Digit(month / 10), Digit(month % 10);
            (x == '0' && '1' <= y <= '9') || (x == '1' && '0' <= y <= '2')
  {
  }

  lemma TailIs(text: string, p: Period)
    requires |text| == 7 && Printable(p)
    ensures text[4..] == Print(p)[4..] <==> text[4] == '-' && text[5] == Digit(p.month / 10) && text[6] == Digit(p.month % 10)
  {
    if text[4..] == Print(p)[4..] {
      assert text[4..][0] == Print(p)[4..][0] && text[4..][1] == Print(p)[4..][1] && text[4..][2] == Print(p)[4..][2];
    }
  }

  /** A printed month parses as itself. */
  lemma ParseUndoesPrint(p: Period, worth: Worth)
    requires Printable(p) && IsDecimal(worth)
    ensures Parse(Print(p), worth) == Some(p)
  {
    ParsesExactly(Print(p), p, worth);
  }

  /** What parses prints back, up to its newline, exactly when its year is in ASCII digits. */
  lemma PrintUndoesParse(s: string, p: Period, worth: Worth)
    requires IsDecimal(worth) && Parse(s, worth) == Some(p)
    ensures Printable(p)
    ensures WithoutNewline(s) == Print(p) <==> forall i | 0 <= i < 4 :: IsAscii(s[i])
  {
    ParsesExactly(s, p, worth);
    var text := WithoutNewline(s);
    if forall i | 0 <= i < 4 :: IsAscii(text[i]) {
      forall i | 0 <= i < 4 ensures text[i] == Print(p)[i] {
        assert worth(text[i]) == Some(text[i] as int - '0' as int);
      }
      assert text == text[..4] + text[4..];
      assert text == Print(p);
    }
  }

  /** A year in fullwidth digits is read as one, and prints otherwise. */
  lemma FullwidthYear(worth: Worth)
    requires IsDecimal(worth) && worth('\U{FF10}') == Some(0) && worth('\U{FF12}') == Some(2) && worth('\U{FF16}') == Some(6)
    ensures var s := ['\U{FF12}', '\U{FF10}', '\U{FF12}', '\U{FF16}', '-', '1', '0'];
            Parse(s, worth) == Some(Period(2026, 10)) && s != Print(Period(2026, 10))
  {
  }

  /** The year 0000 parses, and is no year. */
  lemma YearZeroParses(worth: Worth)
    requires IsDecimal(worth)
    ensures Parse("0000-10", worth) == Some(Period(0, 10)) && !ValidPeriod(Period(0, 10))
  {
    assert IsAscii('0');
  }

  // ---- What is counted ----

  datatype Order = Order(created: int, counts: bool)

  function CountOrders(orders: seq<Order>, p: Period, offset: int): nat {
    if orders == [] then 0
    else
      var last := orders[|orders| - 1];
      CountOrders(orders[..|orders| - 1], p, offset) + if last.counts && InWindow(last.created, p, offset) then 1 else 0
  }

  /** `n` months from one on. */
  function Later(p: Period, n: nat): Period {
    if n == 0 then p else NextPeriod(Later(p, n - 1))
  }

  function CountMonths(orders: seq<Order>, p: Period, n: nat, offset: int): nat {
    if n == 0 then 0 else CountMonths(orders, p, n - 1, offset) + CountOrders(orders, Later(p, n - 1), offset)
  }

  function CountBetween(orders: seq<Order>, start: int, end: int): nat {
    if orders == [] then 0
    else
      var last := orders[|orders| - 1];
      CountBetween(orders[..|orders| - 1], start, end) + if last.counts && start <= last.created < end then 1 else 0
  }

  lemma {:induction false} LaterIsLater(p: Period, n: nat)
    requires ValidPeriod(p)
    ensures ValidPeriod(Later(p, n)) && FirstDay(p) <= FirstDay(Later(p, n))
  {
    if n > 0 {
      LaterIsLater(p, n - 1);
      MonthsAbut(Later(p, n - 1));
    }
  }

  lemma {:induction false} CountSplits(orders: seq<Order>, start: int, middle: int, p: Period, offset: int)
    requires start <= middle == StartOf(p, offset) && ValidPeriod(p)
    ensures CountBetween(orders, start, StartOf(NextPeriod(p), offset))
            == CountBetween(orders, start, middle) + CountOrders(orders, p, offset)
  {
    if orders != [] {
      MonthsAbut(p);
      CountSplits(orders[..|orders| - 1], start, middle, p, offset);
    }
  }

  /** Over any run of months each countable order is counted once: the months' counts add up to
      what was created from the first to the last. */
  lemma {:induction false} MonthsCountEachOnce(orders: seq<Order>, p: Period, n: nat, offset: int)
    requires ValidPeriod(p)
    ensures CountMonths(orders, p, n, offset) == CountBetween(orders, StartOf(p, offset), StartOf(Later(p, n), offset))
  {
    if n == 0 {
      NoneBetween(orders, StartOf(p, offset));
    } else {
      MonthsCountEachOnce(orders, p, n - 1, offset);
      LaterIsLater(p, n - 1);
      CountSplits(orders, StartOf(p, offset), StartOf(Later(p, n - 1), offset), Later(p, n - 1), offset);
    }
  }

  lemma {:induction false} NoneBetween(orders: seq<Order>, start: int)
    ensures CountBetween(orders, start, start) == 0
  {
    if orders != [] { NoneBetween(orders[..|orders| - 1], start); }
  }
}
