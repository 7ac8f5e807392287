/**
 The calendar behind the archive's months, against its closed forms: years of 365 or 366 days, 146097 days in
 four hundred years, and the first day of every month from its year and number alone.
 */
module ArchiveCalendar {
  import opened Common
  import opened Archive

  /** The first day of a year, by the Gregorian rule. */
  function YearFirst(year: nat): int
    requires year >= 1
  {
    var before := year - 1;
    365 * before + before / 4 - before / 100 + before / 400 + 1
  }

  /** The days of a year before its month, by the classical formula. */
  function DaysBefore(year: nat, month: int): int
    requires 1 <= month <= 12
  {
    (367 * month - 362) / 12 + if month <= 2 then 0 else if Leap(year) then -1 else -2
  }

  lemma FourthsGrow(n: nat)
    ensures (n + 1) / 4 - n / 4 == if (n + 1) % 4 == 0 then 1 else 0
  {
  }

  lemma HundredthsGrow(n: nat)
    ensures (n + 1) / 100 - n / 100 == if (n + 1) % 100 == 0 then 1 else 0
  {
  }

  lemma FourHundredthsGrow(n: nat)
    ensures (n + 1) / 400 - n / 400 == if (n + 1) % 400 == 0 then 1 else 0
  {
  }

  lemma DivisibleToo(n: nat)
    ensures n % 400 == 0 ==> n % 100 == 0
    ensures n % 100 == 0 ==> n % 4 == 0
  {
    if n % 400 == 0 {
      assert n == 100 * (4 * (n / 400));
    }
    if n % 100 == 0 {
      assert n == 4 * (25 * (n / 100));
    }
  }

  lemma YearLength(year: nat)
    requires year >= 1
    ensures YearFirst(year + 1) - YearFirst(year) == if Leap(year) then 366 else 365
  {
    var a, b, c := year / 4 - (year - 1) / 4, year / 100 - (year - 1) / 100, year / 400 - (year - 1) / 400;
    FourthsGrow(year - 1);
    HundredthsGrow(year - 1);
    FourHundredthsGrow(year - 1);
    DivisibleToo(year);
    assert a - b + c == if Leap(year) then 1 else 0;
  }

  /** The twelve months of a year, one after the other. */
  lemma MonthsOfAYear(year: nat, month: int)
    requires year >= 1 && 1 <= month <= 12
    ensures DaysInMonth(12 * (year - 1) + month - 1)
         == if month < 12 then DaysBefore(year, month + 1) - DaysBefore(year, month)
            else (if Leap(year) then 366 else 365) - DaysBefore(year, 12)
  {
    var m := 12 * (year - 1) + month - 1;
    assert m / 12 + 1 == year && m % 12 + 1 == month;
  }

  /** The first day of a month, in closed form. */
  lemma {:induction false} MonthFirstExactly(year: nat, month: int)
    requires year >= 1 && 1 <= month <= 12
    ensures MonthFirst(12 * (year - 1) + month - 1) == YearFirst(year) + DaysBefore(year, month)
    decreases year, month
  {
    hide DaysInMonth, YearFirst, DaysBefore, Leap;
    var m := 12 * (year - 1) + month - 1;
    if month > 1 {
      MonthFirstExactly(year, month - 1);
      MonthsOfAYear(year, month - 1);
    } else if year > 1 {
      MonthFirstExactly(year - 1, 12);
      MonthsOfAYear(year - 1, 12);
      YearLength(year - 1);
      JanuaryIsFirst(year);
    } else {
      JanuaryIsFirst(1);
      YearOne();
    }
  }

  lemma JanuaryIsFirst(year: nat)
    ensures DaysBefore(year, 1) == 0
  {
  }

  lemma YearOne()
    ensures YearFirst(1) == 1
  {
  }

  /** Four hundred years are 4800 months and 146097 days, a whole number of weeks: the calendar repeats. */
  lemma CalendarRepeats(year: nat, month: int)
    requires year >= 1 && 1 <= month <= 12
    ensures var m := 12 * (year - 1) + month - 1;
            && MonthFirst(m + 4800) == MonthFirst(m) + 146097
            && MonthFirst(m + 4800) % 7 == MonthFirst(m) % 7
  {
    hide MonthFirst, YearFirst, DaysBefore;
    MonthFirstExactly(year, month);
    MonthFirstExactly(year + 400, month);
    MonthsRepeat(year, month);
    YearsRepeat(year);
    WholeWeeks(MonthFirst(12 * (year - 1) + month - 1));
  }

  lemma WholeWeeks(d: int)
    ensures (d + 146097) % 7 == d % 7
  {
    assert d + 146097 == d + 7 * 20871;
  }

  lemma RemaindersRepeat(n: nat)
    ensures (n + 400) % 4 == n % 4
    ensures (n + 400) % 100 == n % 100
    ensures (n + 400) % 400 == n % 400
  {
    ByFour(n);
    ByHundred(n);
    ByFourHundred(n);
  }

  lemma ByFour(n: nat)
    ensures (n + 400) % 4 == n % 4
  {
    assert n + 400 == 4 * (n / 4 + 100) + n % 4;
  }

  lemma ByHundred(n: nat)
    ensures (n + 400) % 100 == n % 100
  {
    assert n + 400 == 100 * (n / 100 + 4) + n % 100;
  }

  lemma ByFourHundred(n: nat)
    ensures (n + 400) % 400 == n % 400
  {
    assert n + 400 == 400 * (n / 400 + 1) + n % 400;
  }

  lemma MonthsRepeat(year: nat, month: int)
    requires 1 <= month <= 12
    ensures DaysBefore(year + 400, month) == DaysBefore(year, month)
  {
    RemaindersRepeat(year);
  }

  lemma YearsRepeat(year: nat)
    requires year >= 1
    ensures YearFirst(year + 400) == YearFirst(year) + 146097
  {
    var n := year - 1;
    assert (n + 400) / 4 == n / 4 + 100;
    assert (n + 400) / 100 == n / 100 + 4;
    assert (n + 400) / 400 == n / 400 + 1;
  }

  /** A day lies in the month whose number its date has; weeks start on the Monday at or before it. */
  lemma StartsAreTheFirsts(d: Day, year: nat, month: int)
    requires year >= 1 && 1 <= month <= 12
    requires var first := YearFirst(year) + DaysBefore(year, month);
             first <= d < first + DaysInMonth(12 * (year - 1) + month - 1)
    ensures MonthStart(d) == YearFirst(year) + DaysBefore(year, month)
    ensures WeekStart(d) % 7 == 1 && WeekStart(d) <= d < WeekStart(d) + 7
  {
    hide DaysInMonth, YearFirst, DaysBefore;
    var m := 12 * (year - 1) + month - 1;
    MonthFirstExactly(year, month);
    MonthIsUnique(d, m);
  }

  // ----- what a period amounts to

  /** A period of one day repeats it; only a day with an equity session counts as one and brings a return. */
  lemma PeriodOfOneRecord(start: Day, r: DayRecord)
    ensures var p := Summary(start, [r]);
            && p.notes == r.notes
            && (r.paper ==> p.sessions == 1 && p.trades == r.trades && p.rejections == r.rejections && p.periodReturn == Some(r.dailyReturn))
            && (!r.paper ==> p.sessions == 0 && p.trades == 0 && p.rejections == 0 && p.periodReturn.None?)
  {
    OneRecord(Session, Growth, r);
    OneRecord(Trades, Growth, r);
    OneRecord(Rejections, Growth, r);
    OneRecord(Notes, Growth, r);
    assert [r][0].paper <==> r.paper;
  }

  function ReturnOf(p: Period): real {
    if p.periodReturn.Some? then p.periodReturn.value else 0.0
  }

  /** Two stretches of days make up one: counts add, and returns compound where there are any. */
  lemma PeriodOfTwoParts(start: Day, a: seq<DayRecord>, b: seq<DayRecord>)
    ensures var first, second, whole := Summary(start, a), Summary(start, b), Summary(start, a + b);
            && whole.sessions == first.sessions + second.sessions && whole.trades == first.trades + second.trades
            && whole.rejections == first.rejections + second.rejections && whole.notes == first.notes + second.notes
            && (whole.periodReturn.Some? <==> first.periodReturn.Some? || second.periodReturn.Some?)
            && 1.0 + ReturnOf(whole) == Times(1.0 + ReturnOf(first), 1.0 + ReturnOf(second))
  {
    hide SumOf, ProductOf, Session, Trades, Rejections, Notes, Growth, ReturnOf, Times;
    SumSplits(Session, a, b);
    SumSplits(Trades, a, b);
    SumSplits(Rejections, a, b);
    SumSplits(Notes, a, b);
    ReturnsCompound(start, a, b);
    PaperSomewhere(a, b);
  }

  lemma ReturnsCompound(start: Day, a: seq<DayRecord>, b: seq<DayRecord>)
    ensures 1.0 + ReturnOf(Summary(start, a + b)) == Times(1.0 + ReturnOf(Summary(start, a)), 1.0 + ReturnOf(Summary(start, b)))
  {
    hide Summary, ReturnOf, Times;
    ProductSplits(Growth, a, b);
    Quiet(start, a);
    Quiet(start, b);
    Quiet(start, a + b);
  }

  /** Without an equity session nothing grows. */
  lemma Quiet(start: Day, s: seq<DayRecord>)
    ensures 1.0 + ReturnOf(Summary(start, s)) == ProductOf(Growth, s)
  {
    if forall i | 0 <= i < |s| :: !s[i].paper {
      QuietGrowth(s);
    }
  }

  lemma PaperSomewhere(a: seq<DayRecord>, b: seq<DayRecord>)
    ensures (exists i | 0 <= i < |a + b| :: (a + b)[i].paper) <==> (exists i | 0 <= i < |a| :: a[i].paper) || (exists i | 0 <= i < |b| :: b[i].paper)
  {
    if i :| 0 <= i < |a| && a[i].paper {
      assert (a + b)[i].paper;
    }
    if i :| 0 <= i < |b| && b[i].paper {
      assert (a + b)[|a| + i].paper;
    }
  }
}
