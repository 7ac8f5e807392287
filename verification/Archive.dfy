/**
 The research archive's projection of daily evidence into weeks and months (research_archive.py).
 A date is its proleptic Gregorian ordinal: day 1 is Monday, 1 January of year 1.
 */
module Archive {
  import opened Common

  // ----- weeks and months

  datatype Kind = Daily | Weekly | Monthly | All

  datatype Grouping = ByWeek | ByMonth

  type Day = d: int | d >= 1 witness 1

  function WeekStart(d: Day): Day {
    d - (d - 1) % 7
  }

  predicate Leap(year: nat) {
    (year % 4 == 0 && year % 100 != 0) || year % 400 == 0
  }

  /** The length of month m, counted from January of year 1. */
  function DaysInMonth(m: nat): (days: nat)
    ensures 28 <= days <= 31
  {
    var year, month := m / 12 + 1, m % 12 + 1;
    if month == 2 then (if Leap(year) then 29 else 28)
    else if month == 4 || month == 6 || month == 9 || month == 11 then 30
    else 31
  }

  /** The first day of month m. */
  function MonthFirst(m: nat): Day {
    if m == 0 then 1 else MonthFirst(m - 1) + DaysInMonth(m - 1)
  }

  /** The month a day falls in. */
  function MonthOf(d: Day, from: nat): (m: nat)
    requires MonthFirst(from) <= d
    ensures MonthFirst(m) <= d < MonthFirst(m + 1)
    decreases d - MonthFirst(from)
  {
    if d < MonthFirst(from + 1) then from else MonthOf(d, from + 1)
  }

  /** `on_date.replace(day=1)` */
  function MonthStart(d: Day): Day {
    MonthFirst(MonthOf(d, 0))
  }

  /** `_month_end`: the day before the first of the following month. */
  function MonthEnd(monthStart: Day): Day {
    MonthFirst(MonthOf(monthStart, 0) + 1) - 1
  }

  function StartOf(g: Grouping, d: Day): Day {
    match g
    case ByWeek => WeekStart(d)
    case ByMonth => MonthStart(d)
  }

  /** The most days a week or a month can hold. */
  function Capacity(g: Grouping): nat {
    match g
    case ByWeek => 7
    case ByMonth => 31
  }

  lemma {:induction false} MonthsAscend(m: nat, n: nat)
    requires m <= n
    ensures MonthFirst(m) <= MonthFirst(n)
    ensures m < n ==> MonthFirst(m + 1) <= MonthFirst(n)
    decreases n - m
  {
    if m < n {
      MonthsAscend(m, n - 1);
      if m + 1 < n {
        MonthsAscend(m + 1, n);
      }
    }
  }

  lemma MonthIsUnique(d: Day, m: nat)
    requires MonthFirst(m) <= d < MonthFirst(m + 1)
    ensures MonthOf(d, 0) == m
  {
    var n := MonthOf(d, 0);
    if m < n {
      MonthsAscend(m, n);
    } else if n < m {
      MonthsAscend(n, m);
    }
  }

  /** A month consists of the days from its start up to `_month_end` of that start. */
  lemma MonthEndIsItsLastDay(d: Day, start: Day)
    requires MonthStart(start) == start
    ensures MonthStart(d) == start <==> start <= d <= MonthEnd(start)
    ensures 28 <= MonthEnd(start) - start + 1 <= 31
  {
    var m := MonthOf(start, 0);
    if start <= d <= MonthEnd(start) {
      MonthIsUnique(d, m);
    }
    if MonthStart(d) == start {
      MonthIsUnique(start, MonthOf(d, 0));
    }
  }

  /** Weeks and months are intervals in date order, of bounded length. */
  lemma GroupsAreIntervals(g: Grouping, d: Day, e: Day)
    ensures StartOf(g, d) <= d < StartOf(g, d) + Capacity(g)
    ensures d <= e ==> StartOf(g, d) <= StartOf(g, e)
  {
    if g.ByMonth? {
      var m, n := MonthOf(d, 0), MonthOf(e, 0);
      if d <= e && n < m {
        MonthsAscend(n, m);
      } else if m <= n {
        MonthsAscend(m, n);
      }
    }
  }

  // ----- the newest dates

  /** The n newest dates. */
  function Newest(dates: set<Day>, n: nat): set<Day> {
    var sorted := Sorted(dates);
    if |sorted| <= n then dates else set x | x in dates && x in sorted[|sorted| - n..]
  }

  lemma NewestAreNewest(dates: set<Day>, n: nat)
    ensures Newest(dates, n) <= dates
    ensures Newest(dates, n) != dates ==> |Newest(dates, n)| == n
    ensures forall x, y | x in Newest(dates, n) && y in dates && y !in Newest(dates, n) :: y < x
  {
    hide Sorted;
    var sorted := Sorted(dates);
    SortedAscends(dates);
    if |sorted| > n {
      var tail := sorted[|sorted| - n..];
      DistinctSize(tail);
      TailMembers(dates, sorted, |sorted| - n);
      TailIsAbove(sorted, |sorted| - n);
      assert Newest(dates, n) == set x | x in tail;
    }
  }

  lemma TailMembers(dates: set<Day>, sorted: seq<int>, at: nat)
    requires at <= |sorted| && forall x :: x in sorted <==> x in dates
    ensures forall x | x in sorted[at..] :: x in dates
  {
    forall x | x in sorted[at..] ensures x in dates {
      assert x in sorted;
    }
  }

  lemma TailIsAbove(sorted: seq<int>, at: nat)
    requires at <= |sorted| && forall i, j | 0 <= i < j < |sorted| :: sorted[i] < sorted[j]
    ensures forall x, y | x in sorted[at..] && y in sorted && y !in sorted[at..] :: y < x
  {
    forall k | at <= k < |sorted| ensures sorted[k] in sorted[at..] {
      assert sorted[at..][k - at] == sorted[k];
    }
    forall x, y | x in sorted[at..] && y in sorted && y !in sorted[at..] ensures y < x {
      var i :| 0 <= i < |sorted| - at && sorted[at..][i] == x;
      var j :| 0 <= j < |sorted| && sorted[j] == y;
      assert sorted[at + i] == x;
    }
  }

  lemma {:induction false} DistinctSize(s: seq<int>)
    requires forall i, j | 0 <= i < j < |s| :: s[i] < s[j]
    ensures |set x | x in s| == |s|
  {
    if s != [] {
      var n := |s| - 1;
      DistinctSize(s[..n]);
      assert s == s[..n] + [s[n]];
      assert (set x | x in s) == (set x | x in s[..n]) + {s[n]};
    }
  }

  // ----- truncation never cuts a displayed period

  lemma {:induction false} IntervalSize(s: set<Day>, low: int, k: nat)
    requires forall x | x in s :: low <= x < low + k
    ensures |s| <= k
  {
    if k == 0 {
      assert s == {};
    } else {
      IntervalSize(s - {low + k - 1}, low, k - 1);
    }
  }

  /** Days in at most |starts| weeks (months) are at most 7 (31) times as many. */
  lemma {:induction false} DaysInPeriods(g: Grouping, s: set<Day>, starts: set<Day>)
    requires forall x | x in s :: StartOf(g, x) in starts
    ensures |s| <= Capacity(g) * |starts|
    decreases |starts|
  {
    hide StartOf;
    if starts == {} {
      assert s == {};
    } else {
      var start := Pick(starts);
      var inside := set x | x in s && StartOf(g, x) == start;
      DaysInPeriods(g, s - inside, starts - {start});
      forall x | x in inside ensures start <= x < start + Capacity(g) {
        GroupsAreIntervals(g, x, x);
      }
      IntervalSize(inside, start, Capacity(g));
      assert s == (s - inside) + inside;
      assert |starts - {start}| == |starts| - 1;
      OneLess(Capacity(g), |starts|);
    }
  }

  lemma OneLess(k: nat, n: nat)
    requires n > 0
    ensures k * n == k * (n - 1) + k
  {
  }

  function Starts(g: Grouping, dates: set<Day>): set<Day> {
    set d | d in dates :: StartOf(g, d)
  }

  function Later(starts: set<Day>, start: Day): set<Day> {
    set s | s in starts && s > start
  }

  /**
   Only the newest 7 (31) times `limit` dates are looked at.  A week (month) among the newest `limit` of
   what is left has lost none of its evidence dates.
   */
  lemma ShownPeriodsAreWhole(g: Grouping, evidence: set<Day>, limit: nat, kept: nat, d: Day)
    requires kept >= Capacity(g) * limit && d in evidence
    requires |Later(Starts(g, Newest(evidence, kept)), StartOf(g, d))| < limit
    ensures d in Newest(evidence, kept)
  {
    hide StartOf, Newest, Capacity;
    var newest := Newest(evidence, kept);
    NewestAreNewest(evidence, kept);
    if d !in newest {
      var start := StartOf(g, d);
      var later := Later(Starts(g, newest), start);
      forall x | x in newest + {d} ensures StartOf(g, x) in later + {start} {
        if x != d {
          GroupsAreIntervals(g, d, x);
        }
      }
      DaysInPeriods(g, newest + {d}, later + {start});
      assert start !in later;
      Within(Capacity(g), |later + {start}|, limit);
    }
  }

  lemma Within(k: nat, m: nat, n: nat)
    requires m <= n
    ensures k * m <= k * n
  {
  }

  /** So the newest `limit` periods are the ones that would be shown without any truncation. */
  lemma TruncationHidesNoPeriod(g: Grouping, evidence: set<Day>, limit: nat, kept: nat, d: Day)
    requires kept >= Capacity(g) * limit && d in evidence
    requires |Later(Starts(g, evidence), StartOf(g, d))| < limit
    ensures d in Newest(evidence, kept)
  {
    hide StartOf, Newest, Capacity;
    NewestAreNewest(evidence, kept);
    var fewer := Later(Starts(g, Newest(evidence, kept)), StartOf(g, d));
    var all := Later(Starts(g, evidence), StartOf(g, d));
    assert fewer <= all;
    assert all == fewer + (all - fewer);
    ShownPeriodsAreWhole(g, evidence, limit, kept, d);
  }

  // ----- the query

  datatype Query = Query(kind: Kind, onDate: Option<Day>, weekStart: Option<Day>, monthStart: Option<Day>, limit: nat)

  function MaximumDates(q: Query): nat {
    match q.kind
    case Daily => q.limit
    case Weekly => q.limit * 7
    case _ => q.limit * 31
  }

  /** `_selected_dates` */
  function SelectedDates(evidence: set<Day>, q: Query): set<Day> {
    if q.onDate.Some? then (if q.onDate.value in evidence then {q.onDate.value} else {})
    else if q.weekStart.Some? then set d | d in evidence && q.weekStart.value <= d <= q.weekStart.value + 6
    else if q.monthStart.Some? then set d | d in evidence && q.monthStart.value <= d <= MonthEnd(q.monthStart.value)
    else Newest(evidence, MaximumDates(q))
  }

  /** A week or month filter selects exactly the evidence dates of that week or month. */
  lemma FilterSelectsThePeriod(evidence: set<Day>, q: Query, d: Day)
    requires q.onDate.None? && (q.weekStart.Some? || q.monthStart.Some?)
    requires q.weekStart.Some? ==> WeekStart(q.weekStart.value) == q.weekStart.value
    requires q.monthStart.Some? ==> MonthStart(q.monthStart.value) == q.monthStart.value
    ensures var inside := if q.weekStart.Some? then WeekStart(d) == q.weekStart.value else MonthStart(d) == q.monthStart.value;
            d in SelectedDates(evidence, q) <==> d in evidence && inside
  {
    if q.weekStart.Some? {
      GroupsAreIntervals(ByWeek, d, d);
      SameWeek(d, q.weekStart.value);
    } else {
      MonthEndIsItsLastDay(d, q.monthStart.value);
    }
  }

  lemma SameWeek(d: Day, start: Day)
    requires WeekStart(start) == start
    ensures start <= d <= start + 6 ==> WeekStart(d) == start
  {
  }

  /** Without a date filter no week and no month that is shown is cut, whichever kind was asked for. */
  lemma UnfilteredShowsWholePeriods(evidence: set<Day>, q: Query, g: Grouping, d: Day)
    requires q.onDate.None? && q.weekStart.None? && q.monthStart.None?
    requires q.kind.All? || (q.kind.Weekly? && g.ByWeek?) || (q.kind.Monthly? && g.ByMonth?)
    requires d in evidence && |Later(Starts(g, SelectedDates(evidence, q)), StartOf(g, d))| < q.limit
    ensures d in SelectedDates(evidence, q)
  {
    hide StartOf, Newest;
    ShownPeriodsAreWhole(g, evidence, q.limit, MaximumDates(q), d);
  }

  // ----- grouping

  /** What a daily record contributes to its week and month; `paper` when it has an equity session. */
  datatype DayRecord = DayRecord(date: Day, paper: bool, dailyReturn: real, trades: nat, rejections: nat, notes: nat)

  datatype Period = Period(
    start: Day, items: seq<DayRecord>, sessions: int, trades: int, rejections: int, notes: int, periodReturn: Option<real>)

  function SumOf(f: DayRecord -> int, s: seq<DayRecord>): int {
    if s == [] then 0 else SumOf(f, s[..|s| - 1]) + f(s[|s| - 1])
  }

  function Times(a: real, b: real): real {
    a * b
  }

  lemma TimesLaws(a: real, b: real, c: real)
    ensures Times(a, b) == Times(b, a) && Times(Times(a, b), c) == Times(a, Times(b, c)) && Times(a, 1.0) == a
  {
  }

  function ProductOf(f: DayRecord -> real, s: seq<DayRecord>): real {
    if s == [] then 1.0 else Times(ProductOf(f, s[..|s| - 1]), f(s[|s| - 1]))
  }

  function Session(r: DayRecord): int { if r.paper then 1 else 0 }

  function Trades(r: DayRecord): int { if r.paper then r.trades else 0 }

  function Rejections(r: DayRecord): int { if r.paper then r.rejections else 0 }

  function Notes(r: DayRecord): int { r.notes }

  function Growth(r: DayRecord): real { if r.paper then 1.0 + r.dailyReturn else 1.0 }

  /** The period repeats what its items add up to. */
  predicate Summarises(p: Period) {
    && p.sessions == SumOf(Session, p.items) && p.trades == SumOf(Trades, p.items)
    && p.rejections == SumOf(Rejections, p.items) && p.notes == SumOf(Notes, p.items)
    && (p.periodReturn.Some? <==> exists i | 0 <= i < |p.items| :: p.items[i].paper)
    && (p.periodReturn.Some? ==> p.periodReturn.value == ProductOf(Growth, p.items) - 1.0)
  }

  function Joined(periods: seq<Period>): seq<DayRecord> {
    if periods == [] then [] else Joined(periods[..|periods| - 1]) + periods[|periods| - 1].items
  }

  /** The periods, newest first, share out the daily records by week or month. */
  ghost predicate Grouped(g: Grouping, daily: seq<DayRecord>, periods: seq<Period>) {
    && (forall i, j | 0 <= i < j < |periods| :: periods[i].start > periods[j].start)
    && (forall i | 0 <= i < |periods| :: Summarises(periods[i]) && Belongs(g, periods[i]))
    && multiset(Joined(periods)) == multiset(daily)
  }

  ghost predicate Belongs(g: Grouping, p: Period) {
    p.items != [] && forall k | 0 <= k < |p.items| :: StartOf(g, p.items[k].date) == p.start
  }

  lemma {:induction false} SumSplits(f: DayRecord -> int, a: seq<DayRecord>, b: seq<DayRecord>)
    ensures SumOf(f, a + b) == SumOf(f, a) + SumOf(f, b)
  {
    if b == [] {
      assert a + b == a;
    } else {
      assert (a + b)[..|a + b| - 1] == a + b[..|b| - 1];
      SumSplits(f, a, b[..|b| - 1]);
    }
  }

  lemma {:induction false} ProductSplits(f: DayRecord -> real, a: seq<DayRecord>, b: seq<DayRecord>)
    ensures ProductOf(f, a + b) == Times(ProductOf(f, a), ProductOf(f, b))
  {
    hide Times;
    if b == [] {
      assert a + b == a;
      TimesLaws(ProductOf(f, a), 1.0, 1.0);
    } else {
      var n := |b| - 1;
      assert (a + b)[..|a + b| - 1] == a + b[..n];
      ProductSplits(f, a, b[..n]);
      TimesLaws(ProductOf(f, a), ProductOf(f, b[..n]), f(b[n]));
    }
  }

  lemma {:induction false} SumIgnoresOrder(f: DayRecord -> int, s: seq<DayRecord>, t: seq<DayRecord>)
    requires multiset(s) == multiset(t)
    ensures SumOf(f, s) == SumOf(f, t)
    decreases |s|
  {
    hide SumOf;
    assert |multiset(s)| == |multiset(t)|;
    if s != [] {
      assert s[0] in multiset(t);
      var k :| 0 <= k < |t| && t[k] == s[0];
      WithoutOne(t, k);
      WithoutOne(s, 0);
      SumIgnoresOrder(f, s[..0] + s[1..], t[..k] + t[k + 1..]);
      SumWithout(f, s, 0);
      SumWithout(f, t, k);
    }
  }

  lemma SumWithout(f: DayRecord -> int, s: seq<DayRecord>, k: nat)
    requires k < |s|
    ensures SumOf(f, s) == SumOf(f, s[..k] + s[k + 1..]) + f(s[k])
  {
    hide SumOf;
    assert s == s[..k] + ([s[k]] + s[k + 1..]);
    SumSplits(f, s[..k], [s[k]] + s[k + 1..]);
    SumSplits(f, [s[k]], s[k + 1..]);
    SumSplits(f, s[..k], s[k + 1..]);
    OneRecord(f, Growth, s[k]);
  }

  lemma OneRecord(f: DayRecord -> int, h: DayRecord -> real, r: DayRecord)
    ensures SumOf(f, [r]) == f(r) && ProductOf(h, [r]) == h(r)
  {
    assert [r][..0] == [];
    TimesLaws(h(r), 1.0, 1.0);
  }

  lemma {:induction false} ProductIgnoresOrder(f: DayRecord -> real, s: seq<DayRecord>, t: seq<DayRecord>)
    requires multiset(s) == multiset(t)
    ensures ProductOf(f, s) == ProductOf(f, t)
    decreases |s|
  {
    hide Times, ProductOf;
    assert |multiset(s)| == |multiset(t)|;
    if s != [] {
      assert s[0] in multiset(t);
      var k :| 0 <= k < |t| && t[k] == s[0];
      WithoutOne(t, k);
      WithoutOne(s, 0);
      ProductIgnoresOrder(f, s[..0] + s[1..], t[..k] + t[k + 1..]);
      ProductWithout(f, s, 0);
      ProductWithout(f, t, k);
    }
  }

  lemma ProductWithout(f: DayRecord -> real, s: seq<DayRecord>, k: nat)
    requires k < |s|
    ensures ProductOf(f, s) == Times(ProductOf(f, s[..k] + s[k + 1..]), f(s[k]))
  {
    hide Times, ProductOf;
    assert s == s[..k] + ([s[k]] + s[k + 1..]);
    ProductSplits(f, s[..k], [s[k]] + s[k + 1..]);
    ProductSplits(f, [s[k]], s[k + 1..]);
    ProductSplits(f, s[..k], s[k + 1..]);
    OneRecord(Session, f, s[k]);
    var x, y, z := ProductOf(f, s[..k]), f(s[k]), ProductOf(f, s[k + 1..]);
    TimesLaws(x, y, z);
    TimesLaws(y, z, 1.0);
    TimesLaws(x, z, y);
  }

  // ----- totals of the periods

  function PeriodSum(f: Period -> int, periods: seq<Period>): int {
    if periods == [] then 0 else PeriodSum(f, periods[..|periods| - 1]) + f(periods[|periods| - 1])
  }

  /** The period returns, compounded; a period without a session does not count. */
  function Compounded(periods: seq<Period>): real {
    if periods == [] then 1.0 else
      var last := periods[|periods| - 1];
      Times(Compounded(periods[..|periods| - 1]), if last.periodReturn.Some? then 1.0 + last.periodReturn.value else 1.0)
  }

  lemma {:induction false} SumOverPeriods(f: DayRecord -> int, h: Period -> int, periods: seq<Period>)
    requires forall i | 0 <= i < |periods| :: h(periods[i]) == SumOf(f, periods[i].items)
    ensures PeriodSum(h, periods) == SumOf(f, Joined(periods))
  {
    if periods != [] {
      var n := |periods| - 1;
      SumOverPeriods(f, h, periods[..n]);
      SumSplits(f, Joined(periods[..n]), periods[n].items);
    }
  }

  lemma {:induction false} ProductOverPeriods(periods: seq<Period>)
    requires forall i | 0 <= i < |periods| :: Summarises(periods[i])
    ensures Compounded(periods) == ProductOf(Growth, Joined(periods))
  {
    hide Times, SumOf;
    if periods != [] {
      var n := |periods| - 1;
      ProductOverPeriods(periods[..n]);
      ProductSplits(Growth, Joined(periods[..n]), periods[n].items);
      assert Summarises(periods[n]);
      if periods[n].periodReturn.None? {
        QuietGrowth(periods[n].items);
      }
    }
  }

  lemma {:induction false} QuietGrowth(s: seq<DayRecord>)
    requires forall i | 0 <= i < |s| :: !s[i].paper
    ensures ProductOf(Growth, s) == 1.0
  {
    if s != [] {
      QuietGrowth(s[..|s| - 1]);
      TimesLaws(1.0, 1.0, 1.0);
    }
  }

  /** Session, trade, rejection and note counts of the periods add up to those of the days, and returns compound. */
  lemma GroupingConserves(g: Grouping, daily: seq<DayRecord>, periods: seq<Period>)
    requires Grouped(g, daily, periods)
    ensures PeriodSum((p: Period) => p.sessions, periods) == SumOf(Session, daily)
    ensures PeriodSum((p: Period) => p.trades, periods) == SumOf(Trades, daily)
    ensures PeriodSum((p: Period) => p.rejections, periods) == SumOf(Rejections, daily)
    ensures PeriodSum((p: Period) => p.notes, periods) == SumOf(Notes, daily)
    ensures Compounded(periods) == ProductOf(Growth, daily)
  {
    var all := Joined(periods);
    SumOverPeriods(Session, (p: Period) => p.sessions, periods);
    SumOverPeriods(Trades, (p: Period) => p.trades, periods);
    SumOverPeriods(Rejections, (p: Period) => p.rejections, periods);
    SumOverPeriods(Notes, (p: Period) => p.notes, periods);
    SumIgnoresOrder(Session, all, daily);
    SumIgnoresOrder(Trades, all, daily);
    SumIgnoresOrder(Rejections, all, daily);
    SumIgnoresOrder(Notes, all, daily);
    ProductOverPeriods(periods);
    ProductIgnoresOrder(Growth, all, daily);
  }

  function StartSet(periods: seq<Period>): set<Day> {
    set p | p in periods :: p.start
  }

  // ----- the program

  /** The records of one period, in their order. */
  function Of(g: Grouping, daily: seq<DayRecord>, start: Day): (r: seq<DayRecord>)
    ensures forall k | 0 <= k < |r| :: StartOf(g, r[k].date) == start
  {
    if daily == [] then [] else
      var last := daily[|daily| - 1];
      var before := Of(g, daily[..|daily| - 1], start);
      if StartOf(g, last.date) == start then before + [last] else before
  }

  lemma {:induction false} OfCounts(g: Grouping, daily: seq<DayRecord>, start: Day, r: DayRecord)
    ensures multiset(Of(g, daily, start))[r] == if StartOf(g, r.date) == start then multiset(daily)[r] else 0
  {
    hide StartOf;
    if daily != [] {
      OfCounts(g, daily[..|daily| - 1], start, r);
      assert daily == daily[..|daily| - 1] + [daily[|daily| - 1]];
    }
  }

  /** Each period holds the records of its start, and its start is one of theirs. */
  ghost predicate Shares(g: Grouping, daily: seq<DayRecord>, periods: seq<Period>) {
    && (forall i, j | 0 <= i < j < |periods| :: periods[i].start > periods[j].start)
    && forall i | 0 <= i < |periods| :: multiset(periods[i].items) == multiset(Of(g, daily, periods[i].start))
  }

  predicate HasStart(periods: seq<Period>, start: Day) {
    exists i | 0 <= i < |periods| :: periods[i].start == start
  }

  lemma LastStart(periods: seq<Period>, start: Day)
    requires periods != [] && forall i, j | 0 <= i < j < |periods| :: periods[i].start > periods[j].start
    ensures var n := |periods| - 1;
            && (HasStart(periods, start) <==> HasStart(periods[..n], start) || periods[n].start == start)
            && (HasStart(periods[..n], start) ==> periods[n].start != start)
  {
    var n := |periods| - 1;
    if i :| 0 <= i < n && periods[..n][i].start == start {
      assert periods[i].start == start;
    }
    if i :| 0 <= i < n && periods[i].start == start {
      assert periods[..n][i].start == start;
    }
  }

  lemma {:induction false} SharesCount(g: Grouping, daily: seq<DayRecord>, periods: seq<Period>, r: DayRecord)
    requires Shares(g, daily, periods)
    ensures multiset(Joined(periods))[r] == if HasStart(periods, StartOf(g, r.date)) then multiset(daily)[r] else 0
  {
    hide StartOf, Of, HasStart;
    if periods != [] {
      var n := |periods| - 1;
      SharesCount(g, daily, periods[..n], r);
      OfCounts(g, daily, periods[n].start, r);
      LastStart(periods, StartOf(g, r.date));
    } else {
      NoStart(StartOf(g, r.date));
    }
  }

  lemma NoStart(start: Day)
    ensures !HasStart([], start)
  {
  }

  lemma AllShared(g: Grouping, daily: seq<DayRecord>, periods: seq<Period>)
    requires Shares(g, daily, periods)
    requires forall k | 0 <= k < |daily| :: HasStart(periods, StartOf(g, daily[k].date))
    ensures multiset(Joined(periods)) == multiset(daily)
  {
    hide StartOf, Shares, HasStart;
    forall r ensures multiset(Joined(periods))[r] == multiset(daily)[r] {
      SharesCount(g, daily, periods, r);
      if r in multiset(daily) {
        assert r in daily;
        var k :| 0 <= k < |daily| && daily[k] == r;
      }
    }
  }

  method Summarise(start: Day, items: seq<DayRecord>) returns (p: Period)
    ensures p.start == start && p.items == items && Summarises(p)
  {
    hide Times;
    var sessions, trades, rejections, notes := 0, 0, 0, 0;
    var growth := 1.0;
    for i := 0 to |items|
      invariant sessions == SumOf(Session, items[..i]) && trades == SumOf(Trades, items[..i])
      invariant rejections == SumOf(Rejections, items[..i]) && notes == SumOf(Notes, items[..i])
      invariant growth == ProductOf(Growth, items[..i])
      invariant sessions >= 0 && (sessions > 0 <==> exists k | 0 <= k < i :: items[k].paper)
    {
      assert items[..i + 1][..i] == items[..i];
      var r := items[i];
      notes := notes + r.notes;
      TimesLaws(growth, 1.0, 1.0);
      if r.paper {
        sessions, trades, rejections := sessions + 1, trades + r.trades, rejections + r.rejections;
        growth := Times(growth, 1.0 + r.dailyReturn);
      }
    }
    assert items[..|items|] == items;
    p := Period(start, items, sessions, trades, rejections, notes, if sessions > 0 then Some(growth - 1.0) else None);
  }

  function DateKey(r: DayRecord): real {
    r.date as real
  }

  ghost predicate ByDate(items: seq<DayRecord>) {
    AscendingBy(DateKey, items)
  }

  /** `groups`, after the first n records. */
  ghost predicate GroupsAre(g: Grouping, daily: seq<DayRecord>, groups: map<Day, seq<DayRecord>>) {
    && (forall start | start in groups :: groups[start] == Of(g, daily, start) && groups[start] != [])
    && forall k | 0 <= k < |daily| :: StartOf(g, daily[k].date) in groups
  }

  lemma OneMoreGrouped(g: Grouping, daily: seq<DayRecord>, groups: map<Day, seq<DayRecord>>, r: DayRecord)
    requires GroupsAre(g, daily, groups)
    ensures var start := StartOf(g, r.date);
            GroupsAre(g, daily + [r], groups[start := (if start in groups then groups[start] else []) + [r]])
  {
    hide StartOf;
    var longer := daily + [r];
    assert longer[..|daily|] == daily;
    var start := StartOf(g, r.date);
    if start !in groups {
      NoneOf(g, daily, start);
    }
  }

  lemma {:induction false} NoneOf(g: Grouping, daily: seq<DayRecord>, start: Day)
    requires forall k | 0 <= k < |daily| :: StartOf(g, daily[k].date) != start
    ensures Of(g, daily, start) == []
  {
    if daily != [] {
      NoneOf(g, daily[..|daily| - 1], start);
    }
  }

  method GroupByStart(g: Grouping, daily: seq<DayRecord>) returns (groups: map<Day, seq<DayRecord>>)
    ensures GroupsAre(g, daily, groups)
  {
    hide StartOf, Of;
    groups := map[];
    for n := 0 to |daily|
      invariant GroupsAre(g, daily[..n], groups)
    {
      var start := StartOf(g, daily[n].date);
      OneMoreGrouped(g, daily[..n], groups, daily[n]);
      assert daily[..n + 1] == daily[..n] + [daily[n]];
      groups := groups[start := (if start in groups then groups[start] else []) + [daily[n]]];
    }
    assert daily[..|daily|] == daily;
  }

  /** A period record that is in order, for the records of its start. */
  ghost predicate Finished(g: Grouping, daily: seq<DayRecord>, p: Period) {
    Summarises(p) && ByDate(p.items) && Belongs(g, p) && multiset(p.items) == multiset(Of(g, daily, p.start))
  }

  /** `_weekly_records` and `_monthly_records`: group, sort each group by date, summarise, newest first. */
  method PeriodRecords(g: Grouping, daily: seq<DayRecord>) returns (periods: seq<Period>)
    ensures Grouped(g, daily, periods)
    ensures forall i | 0 <= i < |periods| :: Finished(g, daily, periods[i])
  {
    hide StartOf, Of, Summarises, ByDate, Sorted, Belongs, Finished, GroupsAre, Grouped;
    var groups := GroupByStart(g, daily);
    var starts := Sorted(groups.Keys);
    SortedAscends(groups.Keys);
    periods := [];
    var k := |starts|;
    while k > 0
      invariant 0 <= k <= |starts| && |periods| == |starts| - k
      invariant forall i | 0 <= i < |periods| :: periods[i].start == starts[|starts| - 1 - i] && Finished(g, daily, periods[i])
    {
      k := k - 1;
      assert starts[k] in groups;
      GroupOf(g, daily, groups, starts[k]);
      var items := SortedBy(DateKey, groups[starts[k]]);
      var p := Summarise(starts[k], items);
      SameMembersBelong(g, daily, p);
      IsFinished(g, daily, p);
      periods := periods + [p];
    }
    AllGrouped(g, daily, groups, starts, periods);
  }

  lemma GroupOf(g: Grouping, daily: seq<DayRecord>, groups: map<Day, seq<DayRecord>>, start: Day)
    requires GroupsAre(g, daily, groups) && start in groups
    ensures groups[start] == Of(g, daily, start) && groups[start] != []
  {
  }

  lemma IsFinished(g: Grouping, daily: seq<DayRecord>, p: Period)
    requires Summarises(p) && ByDate(p.items) && Belongs(g, p) && multiset(p.items) == multiset(Of(g, daily, p.start))
    ensures Finished(g, daily, p)
  {
  }

  lemma AllGrouped(g: Grouping, daily: seq<DayRecord>, groups: map<Day, seq<DayRecord>>, starts: seq<int>, periods: seq<Period>)
    requires GroupsAre(g, daily, groups) && |periods| == |starts| && forall x :: x in starts <==> x in groups.Keys
    requires forall i, j | 0 <= i < j < |starts| :: starts[i] < starts[j]
    requires forall i | 0 <= i < |periods| :: periods[i].start == starts[|starts| - 1 - i] && Finished(g, daily, periods[i])
    ensures Grouped(g, daily, periods)
  {
    hide StartOf, Of, Summarises, ByDate, Belongs;
    forall n | 0 <= n < |daily| ensures HasStart(periods, StartOf(g, daily[n].date)) {
      StartIsListed(starts, periods, StartOf(g, daily[n].date));
    }
    AllShared(g, daily, periods);
  }

  lemma SameMembersBelong(g: Grouping, daily: seq<DayRecord>, p: Period)
    requires multiset(p.items) == multiset(Of(g, daily, p.start)) && Of(g, daily, p.start) != []
    ensures Belongs(g, p)
  {
    hide StartOf, Of;
    var own := Of(g, daily, p.start);
    assert own[0] in multiset(p.items);
    forall k | 0 <= k < |p.items| ensures StartOf(g, p.items[k].date) == p.start {
      assert p.items[k] in multiset(own);
      var i :| 0 <= i < |own| && own[i] == p.items[k];
    }
  }

  lemma StartIsListed(starts: seq<int>, periods: seq<Period>, start: Day)
    requires |periods| == |starts| && start in starts
    requires forall i | 0 <= i < |periods| :: periods[i].start == starts[|starts| - 1 - i]
    ensures HasStart(periods, start)
  {
    var k :| 0 <= k < |starts| && starts[k] == start;
    assert periods[|starts| - 1 - k].start == start;
  }

  // ----- the projection

  function Dates(daily: seq<DayRecord>): set<Day> {
    set r | r in daily :: r.date
  }

  /** The dates of the periods' starts are those of the records. */
  lemma StartsOfPeriods(g: Grouping, daily: seq<DayRecord>, periods: seq<Period>)
    requires Grouped(g, daily, periods)
    ensures Starts(g, Dates(daily)) == StartSet(periods)
  {
    hide StartOf, Summarises;
    forall s ensures s in Starts(g, Dates(daily)) <==> s in StartSet(periods) {
      if s in Starts(g, Dates(daily)) {
        var r :| r in daily && StartOf(g, r.date) == s;
        var i := PeriodOf(g, daily, periods, r);
        assert periods[i] in periods;
      }
      if p :| p in periods && p.start == s {
        var i :| 0 <= i < |periods| && periods[i] == p;
        assert Belongs(g, periods[i]);
        ItemsAreJoined(periods, i, 0);
        assert p.items[0] in multiset(daily);
        assert p.items[0].date in Dates(daily);
      }
    }
  }

  lemma {:induction false} ItemsAreJoined(periods: seq<Period>, i: nat, k: nat)
    requires i < |periods| && k < |periods[i].items|
    ensures periods[i].items[k] in multiset(Joined(periods))
  {
    var n := |periods| - 1;
    if i < n {
      ItemsAreJoined(periods[..n], i, k);
    } else {
      assert periods[n].items[k] in multiset(periods[n].items);
    }
  }

  lemma {:induction false} JoinedComesFrom(periods: seq<Period>, r: DayRecord)
    requires r in multiset(Joined(periods))
    ensures exists i :: 0 <= i < |periods| && r in periods[i].items
  {
    var n := |periods| - 1;
    if r in multiset(Joined(periods[..n])) {
      JoinedComesFrom(periods[..n], r);
      var i :| 0 <= i < n && r in periods[..n][i].items;
      assert r in periods[i].items;
    } else {
      assert r in multiset(periods[n].items);
    }
  }

  /** The period a record went to: the one with its start. */
  lemma PeriodOf(g: Grouping, daily: seq<DayRecord>, periods: seq<Period>, r: DayRecord) returns (i: nat)
    requires Grouped(g, daily, periods) && r in daily
    ensures i < |periods| && r in periods[i].items && periods[i].start == StartOf(g, r.date)
  {
    hide StartOf, Summarises;
    assert r in multiset(daily);
    JoinedComesFrom(periods, r);
    i :| 0 <= i < |periods| && r in periods[i].items;
    assert Belongs(g, periods[i]);
    var k :| 0 <= k < |periods[i].items| && periods[i].items[k] == r;
  }

  // ----- which periods are shown

  /** The records of the dates, oldest first. */
  function RecordsOf(evidence: map<Day, DayRecord>, dates: set<Day>): (r: seq<DayRecord>)
    requires dates <= evidence.Keys
    ensures forall x :: x in r <==> exists d :: d in dates && x == evidence[d]
  {
    if dates == {} then [] else
      var newest := Latest(dates);
      RecordsOf(evidence, dates - {newest}) + [evidence[newest]]
  }

  function Latest(dates: set<Day>): (d: Day)
    requires dates != {}
    ensures d in dates && forall x | x in dates :: x <= d
  {
    LatestExists(dates);
    var d :| d in dates && forall x | x in dates :: x <= d;
    d
  }

  lemma LatestExists(dates: set<Day>)
    requires dates != {}
    ensures exists d :: d in dates && forall x | x in dates :: x <= d
  {
    var sorted := Sorted(dates);
    SortedAscends(dates);
    var d := sorted[|sorted| - 1];
    assert d in sorted;
    forall x | x in dates ensures x <= d {
      assert x in sorted;
    }
  }

  /** What a week or month amounts to. */
  function Summary(start: Day, items: seq<DayRecord>): Period {
    Period(start, items, SumOf(Session, items), SumOf(Trades, items), SumOf(Rejections, items), SumOf(Notes, items),
           if exists i | 0 <= i < |items| :: items[i].paper then Some(ProductOf(Growth, items) - 1.0) else None)
  }

  /** The period of these dates with that start. */
  function PeriodOn(g: Grouping, evidence: map<Day, DayRecord>, dates: set<Day>, start: Day): Period
    requires dates <= evidence.Keys
  {
    Summary(start, RecordsOf(evidence, set d | d in dates && StartOf(g, d) == start))
  }

  /** All weeks or months of these dates, newest first. */
  function PeriodsOf(g: Grouping, evidence: map<Day, DayRecord>, dates: set<Day>, starts: set<Day>): (r: seq<Period>)
    requires dates <= evidence.Keys
    ensures |r| == |starts|
    decreases |starts|
  {
    if starts == {} then [] else
      var newest := Latest(starts);
      [PeriodOn(g, evidence, dates, newest)] + PeriodsOf(g, evidence, dates, starts - {newest})
  }

  lemma NewestFirst(g: Grouping, evidence: map<Day, DayRecord>, dates: set<Day>, starts: set<Day>, newest: Day)
    requires dates <= evidence.Keys && newest in starts && forall s | s in starts :: s <= newest
    ensures PeriodsOf(g, evidence, dates, starts)
         == [PeriodOn(g, evidence, dates, newest)] + PeriodsOf(g, evidence, dates, starts - {newest})
  {
    hide PeriodOn;
    assert Latest(starts) == newest;
  }

  function AllPeriods(g: Grouping, evidence: map<Day, DayRecord>, dates: set<Day>): seq<Period>
    requires dates <= evidence.Keys
  {
    PeriodsOf(g, evidence, dates, Starts(g, dates))
  }

  function Newer<T>(s: seq<T>, limit: nat): seq<T> {
    if |s| <= limit then s else s[..limit]
  }

  ghost predicate Dated(evidence: map<Day, DayRecord>) {
    forall d | d in evidence :: evidence[d].date == d
  }

  ghost predicate StrictlyByDate(s: seq<DayRecord>) {
    forall i, j | 0 <= i < j < |s| :: s[i].date < s[j].date
  }

  lemma {:induction false} RecordsAscend(evidence: map<Day, DayRecord>, dates: set<Day>)
    requires dates <= evidence.Keys && Dated(evidence)
    ensures StrictlyByDate(RecordsOf(evidence, dates)) && |RecordsOf(evidence, dates)| == |dates|
  {
    if dates != {} {
      var newest := Latest(dates);
      var before := RecordsOf(evidence, dates - {newest});
      RecordsAscend(evidence, dates - {newest});
      forall i | 0 <= i < |before| ensures before[i].date < newest {
        assert before[i] in before;
      }
    }
  }

  lemma SameNewestRecord(a: seq<DayRecord>, b: seq<DayRecord>)
    requires StrictlyByDate(a) && ByDate(b) && multiset(a) == multiset(b) && |a| == |b| > 0
    ensures a[|a| - 1] == b[|b| - 1]
  {
    var n := |a| - 1;
    assert a[n] in multiset(b) && b[n] in multiset(a);
    var i :| 0 <= i < |a| && a[i] == b[n];
    var j :| 0 <= j < |b| && b[j] == a[n];
    assert DateKey(b[j]) <= DateKey(b[n]);
  }

  lemma ShorterInOrder(a: seq<DayRecord>, b: seq<DayRecord>)
    requires |a| > 0 && |b| > 0
    ensures StrictlyByDate(a) ==> StrictlyByDate(a[..|a| - 1])
    ensures ByDate(b) ==> ByDate(b[..|b| - 1])
    ensures multiset(a[..|a| - 1]) == multiset(a) - multiset{a[|a| - 1]}
    ensures multiset(b[..|b| - 1]) == multiset(b) - multiset{b[|b| - 1]}
  {
    assert a == a[..|a| - 1] + [a[|a| - 1]];
    assert b == b[..|b| - 1] + [b[|b| - 1]];
  }

  /** A list of records without two of the same date has one order by date. */
  lemma {:induction false} OneOrder(a: seq<DayRecord>, b: seq<DayRecord>)
    requires StrictlyByDate(a) && ByDate(b) && multiset(a) == multiset(b)
    ensures a == b
    decreases |a|
  {
    hide StrictlyByDate, ByDate;
    assert |multiset(a)| == |multiset(b)|;
    if a != [] {
      SameNewestRecord(a, b);
      ShorterInOrder(a, b);
      OneOrder(a[..|a| - 1], b[..|b| - 1]);
      assert a == a[..|a| - 1] + [a[|a| - 1]];
    }
  }

  /** Every record of the list occurs once. */
  ghost predicate OnceEach(daily: seq<DayRecord>) {
    forall i, j | 0 <= i < j < |daily| :: daily[i].date != daily[j].date
  }

  lemma {:induction false} CountsOnce(daily: seq<DayRecord>, r: DayRecord)
    requires OnceEach(daily)
    ensures multiset(daily)[r] == if r in daily then 1 else 0
  {
    if daily != [] {
      var n := |daily| - 1;
      CountsOnce(daily[..n], r);
      assert daily == daily[..n] + [daily[n]];
    }
  }

  /** A finished period of the records of these dates is the one the specification names. */
  lemma FinishedIsPeriodOn(g: Grouping, evidence: map<Day, DayRecord>, dates: set<Day>, daily: seq<DayRecord>, p: Period)
    requires Dated(evidence) && dates <= evidence.Keys && OnceEach(daily)
    requires forall r :: r in daily <==> exists d :: d in dates && r == evidence[d]
    requires Finished(g, daily, p)
    ensures p == PeriodOn(g, evidence, dates, p.start)
  {
    hide StartOf, RecordsOf, Of, ByDate, StrictlyByDate, OnceEach, Belongs;
    var inside := set d | d in dates && StartOf(g, d) == p.start;
    var own := RecordsOf(evidence, inside);
    RecordsAscend(evidence, inside);
    forall r ensures multiset(own)[r] == multiset(p.items)[r] {
      OfCounts(g, daily, p.start, r);
      CountsOnce(daily, r);
      StrictIsOnceEach(own);
      CountsOnce(own, r);
      if r in own {
        var d :| d in inside && r == evidence[d];
      }
      if r in daily && StartOf(g, r.date) == p.start {
        var d :| d in dates && r == evidence[d];
        assert d in inside;
      }
    }
    OneOrder(own, p.items);
    SummariesAgree(p);
  }

  lemma SummariesAgree(p: Period)
    requires Summarises(p)
    ensures p == Summary(p.start, p.items)
  {
    hide SumOf, ProductOf;
  }

  lemma StrictIsOnceEach(s: seq<DayRecord>)
    requires StrictlyByDate(s)
    ensures OnceEach(s)
  {
  }

  /** Periods from the newest to the oldest start, each as specified, are all the periods. */
  lemma {:induction false} DescendingIsPeriodsOf(g: Grouping, evidence: map<Day, DayRecord>, dates: set<Day>, periods: seq<Period>)
    requires dates <= evidence.Keys
    requires forall i, j | 0 <= i < j < |periods| :: periods[i].start > periods[j].start
    requires forall i | 0 <= i < |periods| :: periods[i] == PeriodOn(g, evidence, dates, periods[i].start)
    ensures periods == PeriodsOf(g, evidence, dates, StartSet(periods))
  {
    hide StartOf, PeriodOn, PeriodsOf;
    if periods != [] {
      DescendingIsPeriodsOf(g, evidence, dates, periods[1..]);
      assert periods == [periods[0]] + periods[1..];
      assert periods[0] in periods;
      forall s | s in StartSet(periods) ensures s <= periods[0].start {
        var p :| p in periods && p.start == s;
        var i :| 0 <= i < |periods| && periods[i] == p;
      }
      NewestFirst(g, evidence, dates, StartSet(periods), periods[0].start);
      StartSetOfRest(periods);
    } else {
      assert StartSet(periods) == {};
    }
  }

  lemma StartSetOfRest(periods: seq<Period>)
    requires periods != [] && forall i, j | 0 <= i < j < |periods| :: periods[i].start > periods[j].start
    ensures StartSet(periods[1..]) == StartSet(periods) - {periods[0].start}
  {
    forall s | s in StartSet(periods[1..]) ensures s in StartSet(periods) && s != periods[0].start {
      var p :| p in periods[1..] && p.start == s;
      var i :| 0 <= i < |periods| - 1 && periods[1..][i] == p;
      assert periods[i + 1] in periods;
    }
    forall s | s in StartSet(periods) && s != periods[0].start ensures s in StartSet(periods[1..]) {
      var p :| p in periods && p.start == s;
      var i :| 0 <= i < |periods| && periods[i] == p;
      assert periods[1..][i - 1] == p;
    }
  }

  /** The newest `limit` starts, all of whose periods are whole, are the same with and without the older dates. */
  lemma {:induction false} SameNewestPeriods(g: Grouping, evidence: map<Day, DayRecord>, some: set<Day>, all: set<Day>,
                                             few: set<Day>, many: set<Day>, limit: nat)
    requires some <= all <= evidence.Keys && few <= many
    requires forall s | s in many && |Later(many, s)| < limit :: s in few && PeriodOn(g, evidence, some, s) == PeriodOn(g, evidence, all, s)
    ensures Newer(PeriodsOf(g, evidence, some, few), limit) == Newer(PeriodsOf(g, evidence, all, many), limit)
    decreases limit
  {
    hide PeriodOn, PeriodsOf, Newer, Later, Latest;
    if limit > 0 && many != {} {
      var newest := Latest(many);
      NoneLater(many, newest);
      NewestFirst(g, evidence, some, few, newest);
      NewestFirst(g, evidence, all, many, newest);
      forall s | s in many - {newest} && |Later(many - {newest}, s)| < limit - 1
        ensures s in few - {newest} && PeriodOn(g, evidence, some, s) == PeriodOn(g, evidence, all, s)
      {
        OneLater(many, newest, s);
      }
      SameNewestPeriods(g, evidence, some, all, few - {newest}, many - {newest}, limit - 1);
      var p := PeriodOn(g, evidence, some, newest);
      NewerOf(p, PeriodsOf(g, evidence, some, few - {newest}), limit);
      NewerOf(p, PeriodsOf(g, evidence, all, many - {newest}), limit);
    } else {
      assert limit > 0 ==> few == many == {};
      NewerOfNone(PeriodsOf(g, evidence, some, few), PeriodsOf(g, evidence, all, many), limit);
    }
  }

  lemma NoneLater(starts: set<Day>, newest: Day)
    requires newest in starts && forall s | s in starts :: s <= newest
    ensures |Later(starts, newest)| == 0
  {
    assert Later(starts, newest) == {};
  }

  lemma OneLater(starts: set<Day>, newest: Day, s: Day)
    requires newest in starts && s in starts - {newest} && forall x | x in starts :: x <= newest
    ensures |Later(starts, s)| == |Later(starts - {newest}, s)| + 1
  {
    assert Later(starts, s) == Later(starts - {newest}, s) + {newest};
  }

  lemma NewerOfNone<T>(s: seq<T>, t: seq<T>, limit: nat)
    requires limit > 0 ==> |s| == |t| == 0
    ensures Newer(s, limit) == Newer(t, limit) == []
  {
  }

  lemma NewerOf<T>(x: T, s: seq<T>, limit: nat)
    requires limit > 0
    ensures Newer([x] + s, limit) == [x] + Newer(s, limit - 1)
  {
  }

  /** `_validate_query`: at most one filter, a Monday, the first of a month, and a limit. */
  predicate ValidQuery(q: Query) {
    && q.limit >= 1
    && (q.onDate.Some? ==> q.weekStart.None? && q.monthStart.None?)
    && (q.weekStart.Some? ==> q.monthStart.None? && WeekStart(q.weekStart.value) == q.weekStart.value)
    && (q.monthStart.Some? ==> MonthStart(q.monthStart.value) == q.monthStart.value)
  }

  /** The kind of query shows this grouping. */
  predicate Shows(g: Grouping, q: Query) {
    q.kind.All? || (q.kind.Weekly? && g.ByWeek?) || (q.kind.Monthly? && g.ByMonth?)
  }

  /** No date filter, and a kind of query that shows this grouping. */
  predicate Unfiltered(g: Grouping, q: Query) {
    q.onDate.None? && q.weekStart.None? && q.monthStart.None? && Shows(g, q)
  }

  /** Truncation changes nothing that is shown: the newest periods, and all that is in them. */
  lemma TruncationChangesNothing(g: Grouping, evidence: map<Day, DayRecord>, q: Query)
    requires Unfiltered(g, q) && SelectedDates(evidence.Keys, q) <= evidence.Keys
    ensures Newer(AllPeriods(g, evidence, SelectedDates(evidence.Keys, q)), q.limit)
         == Newer(AllPeriods(g, evidence, evidence.Keys), q.limit)
  {
    hide StartOf, Newest, PeriodsOf, RecordsOf, Newer;
    var selected, all := SelectedDates(evidence.Keys, q), evidence.Keys;
    var few, many := Starts(g, selected), Starts(g, all);
    forall s | s in many && |Later(many, s)| < q.limit
      ensures s in few && PeriodOn(g, evidence, selected, s) == PeriodOn(g, evidence, all, s)
    {
      forall d | d in all && StartOf(g, d) == s ensures d in selected {
        TruncationHidesNoPeriod(g, all, q.limit, MaximumDates(q), d);
      }
      assert (set d | d in selected && StartOf(g, d) == s) == (set d | d in all && StartOf(g, d) == s);
    }
    SameNewestPeriods(g, evidence, selected, all, few, many, q.limit);
  }

  /** The query asks for one week or month, by its start. */
  predicate AsksFor(g: Grouping, q: Query, start: Day) {
    && q.onDate.None? && StartOf(g, start) == start
    && match g
       case ByWeek => q.weekStart == Some(start)
       case ByMonth => q.weekStart.None? && q.monthStart == Some(start)
  }

  /** A filter for a week (month) shows exactly that one, whole, if there is any evidence of it. */
  lemma FilterShowsThePeriod(g: Grouping, evidence: map<Day, DayRecord>, q: Query, start: Day)
    requires AsksFor(g, q, start) && SelectedDates(evidence.Keys, q) <= evidence.Keys
    ensures AllPeriods(g, evidence, SelectedDates(evidence.Keys, q))
         == if start in Starts(g, evidence.Keys) then [PeriodOn(g, evidence, evidence.Keys, start)] else []
  {
    hide RecordsOf, MonthEnd, MonthStart, WeekStart;
    var selected := SelectedDates(evidence.Keys, q);
    forall d: Day ensures d in selected <==> d in evidence && StartOf(g, d) == start {
      FilterSelects(g, evidence.Keys, q, start, d);
    }
    assert (set d | d in selected && StartOf(g, d) == start) == (set d | d in evidence.Keys && StartOf(g, d) == start);
    if start in Starts(g, evidence.Keys) {
      assert Starts(g, selected) == {start};
      assert {start} - {start} == {};
    } else {
      assert Starts(g, selected) == {};
    }
  }

  lemma FilterSelects(g: Grouping, evidence: set<Day>, q: Query, start: Day, d: Day)
    requires AsksFor(g, q, start)
    ensures d in SelectedDates(evidence, q) <==> d in evidence && StartOf(g, d) == start
  {
    hide MonthEnd, MonthStart, WeekStart;
    FilterIsInterval(g, evidence, q, start, d);
  }

  lemma FilterIsInterval(g: Grouping, evidence: set<Day>, q: Query, start: Day, d: Day)
    requires AsksFor(g, q, start)
    ensures d in SelectedDates(evidence, q) <==> d in evidence && StartOf(g, d) == start
  {
    if g.ByWeek? {
      GroupsAreIntervals(ByWeek, d, d);
      SameWeek(d, start);
    } else {
      MonthEndIsItsLastDay(d, start);
    }
  }

  // ----- which queries show whole periods

  lemma {:induction false} PeriodsAreOn(g: Grouping, evidence: map<Day, DayRecord>, dates: set<Day>, starts: set<Day>, i: nat)
    requires dates <= evidence.Keys && i < |starts|
    ensures PeriodsOf(g, evidence, dates, starts)[i].start in starts
    ensures PeriodsOf(g, evidence, dates, starts)[i] == PeriodOn(g, evidence, dates, PeriodsOf(g, evidence, dates, starts)[i].start)
    decreases |starts|
  {
    hide StartOf, RecordsOf;
    if i > 0 {
      PeriodsAreOn(g, evidence, dates, starts - {Latest(starts)}, i - 1);
    }
  }

  /** Every period the query shows holds all the evidence of its week or month. */
  ghost predicate ShowsWhole(g: Grouping, evidence: map<Day, DayRecord>, q: Query)
    requires SelectedDates(evidence.Keys, q) <= evidence.Keys
  {
    var shown := Newer(AllPeriods(g, evidence, SelectedDates(evidence.Keys, q)), q.limit);
    forall i | 0 <= i < |shown| :: shown[i] == PeriodOn(g, evidence, evidence.Keys, shown[i].start)
  }

  /** With a day of a period all the other evidence of it is selected. */
  ghost predicate SelectsWholePeriods(g: Grouping, evidence: set<Day>, q: Query) {
    forall x, y | x in SelectedDates(evidence, q) && y in evidence && StartOf(g, x) == StartOf(g, y) :: y in SelectedDates(evidence, q)
  }

  lemma SelectedWholeIsShownWhole(g: Grouping, evidence: map<Day, DayRecord>, q: Query)
    requires SelectedDates(evidence.Keys, q) <= evidence.Keys && SelectsWholePeriods(g, evidence.Keys, q)
    ensures ShowsWhole(g, evidence, q)
  {
    hide StartOf, SelectedDates, PeriodsOf, RecordsOf;
    var selected := SelectedDates(evidence.Keys, q);
    var all := AllPeriods(g, evidence, selected);
    forall i | 0 <= i < |all| ensures all[i] == PeriodOn(g, evidence, evidence.Keys, all[i].start) {
      PeriodsAreOn(g, evidence, selected, Starts(g, selected), i);
      var start := all[i].start;
      var x :| x in selected && StartOf(g, x) == start;
      assert (set d | d in selected && StartOf(g, d) == start) == (set d | d in evidence.Keys && StartOf(g, d) == start);
    }
  }

  lemma UnfilteredShowsWhole(g: Grouping, evidence: map<Day, DayRecord>, q: Query)
    requires Unfiltered(g, q) && SelectedDates(evidence.Keys, q) <= evidence.Keys
    ensures ShowsWhole(g, evidence, q)
  {
    hide StartOf, SelectedDates, PeriodsOf, PeriodOn, Starts;
    TruncationChangesNothing(g, evidence, q);
    var all := AllPeriods(g, evidence, evidence.Keys);
    forall i | 0 <= i < |all| ensures all[i] == PeriodOn(g, evidence, evidence.Keys, all[i].start) {
      PeriodsAreOn(g, evidence, evidence.Keys, Starts(g, evidence.Keys), i);
    }
  }

  /** The month begins on a Monday and ends on a Sunday. */
  predicate WholeWeeks(monthStart: Day) {
    WeekStart(monthStart) == monthStart && WeekStart(MonthEnd(monthStart) + 1) == MonthEnd(monthStart) + 1
  }

  /** What can be read off a query: it has no filter, one for its own grouping, or one for a month of whole weeks. */
  predicate KeepsWhole(g: Grouping, q: Query) {
    if q.onDate.Some? then false
    else if q.weekStart.Some? then g.ByWeek?
    else if q.monthStart.Some? then g.ByMonth? || WholeWeeks(q.monthStart.value)
    else true
  }

  lemma KeptIsWhole(g: Grouping, evidence: map<Day, DayRecord>, q: Query)
    requires ValidQuery(q) && Shows(g, q) && KeepsWhole(g, q) && SelectedDates(evidence.Keys, q) <= evidence.Keys
    ensures ShowsWhole(g, evidence, q)
  {
    hide StartOf, SelectedDates, WholeWeeks, MonthEnd, ShowsWhole, MonthStart, WeekStart;
    if q.weekStart.None? && q.monthStart.None? {
      UnfilteredShowsWhole(g, evidence, q);
    } else {
      forall x, y | x in SelectedDates(evidence.Keys, q) && y in evidence.Keys && StartOf(g, x) == StartOf(g, y)
        ensures y in SelectedDates(evidence.Keys, q)
      {
        SelectedTogether(g, evidence.Keys, q, x, y);
      }
      SelectedWholeIsShownWhole(g, evidence, q);
    }
  }

  lemma SelectedTogether(g: Grouping, evidence: set<Day>, q: Query, x: Day, y: Day)
    requires ValidQuery(q) && KeepsWhole(g, q) && (q.weekStart.Some? || q.monthStart.Some?)
    requires x in SelectedDates(evidence, q) && y in evidence && StartOf(g, x) == StartOf(g, y)
    ensures y in SelectedDates(evidence, q)
  {
    hide MonthEnd;
    if q.weekStart.Some? || g.ByMonth? {
      FilterSelectsThePeriod(evidence, q, x);
      FilterSelectsThePeriod(evidence, q, y);
    } else {
      WeeksStayInside(q.monthStart.value, MonthEnd(q.monthStart.value), x, y);
    }
  }

  lemma WeeksStayInside(first: Day, last: Day, x: Day, y: Day)
    requires WeekStart(first) == first && WeekStart(last + 1) == last + 1 && first <= x <= last && WeekStart(x) == WeekStart(y)
    ensures first <= y <= last
  {
  }

  /** Two days of one week or month of which such a query selects only the first. */
  lemma SomePeriodIsCut(g: Grouping, q: Query) returns (x: Day, y: Day)
    requires ValidQuery(q) && !KeepsWhole(g, q)
    ensures StartOf(g, x) == StartOf(g, y) && x != y && SelectedDates({x, y}, q) == {x}
  {
    hide WeekStart, MonthStart, MonthEnd;
    if q.onDate.Some? {
      x := q.onDate.value;
      y := AnotherDay(g, x);
    } else if q.weekStart.Some? {
      x, y := CutMonth(q.weekStart.value);
    } else {
      x, y := CutWeek(q.monthStart.value);
    }
  }

  lemma AnotherDay(g: Grouping, x: Day) returns (y: Day)
    ensures StartOf(g, x) == StartOf(g, y) && x != y
  {
    GroupsAreIntervals(g, x, x);
    y := if StartOf(g, x) == x then x + 1 else x - 1;
    if g.ByMonth? {
      MonthIsUnique(y, MonthOf(x, 0));
    }
  }

  lemma CutMonth(week: Day) returns (x: Day, y: Day)
    ensures MonthStart(x) == MonthStart(y) && x == week && !(week <= y <= week + 6)
  {
    x := week;
    var m := MonthOf(week, 0);
    y := if MonthFirst(m) < week then MonthFirst(m) else week + 7;
    MonthIsUnique(y, m);
  }

  lemma CutWeek(month: Day) returns (x: Day, y: Day)
    requires MonthStart(month) == month && !WholeWeeks(month)
    ensures WeekStart(x) == WeekStart(y) && month <= x <= MonthEnd(month) && !(month <= y <= MonthEnd(month))
  {
    hide MonthStart, MonthEnd, WeekStart;
    MonthEndIsItsLastDay(month, month);
    if WeekStart(month) != month {
      FirstDayIsMonday();
      SameWeekAsBefore(month - 1);
      x, y := month, month - 1;
    } else {
      SameWeekAsBefore(MonthEnd(month));
      x, y := MonthEnd(month), MonthEnd(month) + 1;
    }
  }

  lemma FirstDayIsMonday()
    ensures WeekStart(1) == 1
  {
  }

  lemma SameWeekAsBefore(d: Day)
    ensures WeekStart(d + 1) == d + 1 || WeekStart(d + 1) == WeekStart(d)
  {
  }

  function RecordOn(d: Day): DayRecord {
    DayRecord(d, true, 0.0, 0, 0, 0)
  }

  lemma SizeOfPeriod(g: Grouping, evidence: map<Day, DayRecord>, dates: set<Day>, start: Day)
    requires Dated(evidence) && dates <= evidence.Keys && forall d | d in dates :: StartOf(g, d) == start
    ensures PeriodOn(g, evidence, dates, start).start == start && |PeriodOn(g, evidence, dates, start).items| == |dates|
  {
    hide StartOf, RecordsOf, SumOf, ProductOf;
    var inside := set d | d in dates && StartOf(g, d) == start;
    assert inside == dates;
    RecordsAscend(evidence, inside);
  }

  lemma PeriodsOfOneDay(g: Grouping, evidence: map<Day, DayRecord>, x: Day)
    requires x in evidence
    ensures AllPeriods(g, evidence, {x}) == [PeriodOn(g, evidence, {x}, StartOf(g, x))]
  {
    hide StartOf, PeriodOn;
    assert Starts(g, {x}) == {StartOf(g, x)};
    NewestFirst(g, evidence, {x}, {StartOf(g, x)}, StartOf(g, x));
    assert {StartOf(g, x)} - {StartOf(g, x)} == {};
  }

  lemma CutIsNotWhole(g: Grouping, q: Query, x: Day, y: Day)
    requires ValidQuery(q) && StartOf(g, x) == StartOf(g, y) && x != y && SelectedDates({x, y}, q) == {x}
    ensures var evidence := map[x := RecordOn(x), y := RecordOn(y)];
            Dated(evidence) && SelectedDates(evidence.Keys, q) <= evidence.Keys && !ShowsWhole(g, evidence, q)
  {
    hide StartOf, SelectedDates, AllPeriods, PeriodOn;
    var evidence := map[x := RecordOn(x), y := RecordOn(y)];
    assert evidence.Keys == {x, y};
    PeriodsOfOneDay(g, evidence, x);
    SizeOfPeriod(g, evidence, {x}, StartOf(g, x));
    SizeOfPeriod(g, evidence, {x, y}, StartOf(g, x));
    assert |{x}| == 1 && |{x, y}| == 2;
    var shown := Newer(AllPeriods(g, evidence, SelectedDates(evidence.Keys, q)), q.limit);
    assert shown == [PeriodOn(g, evidence, {x}, StartOf(g, x))];
    assert shown[0].start == StartOf(g, x);
    assert |PeriodOn(g, evidence, evidence.Keys, StartOf(g, x)).items| == 2;
    assert shown[0] != PeriodOn(g, evidence, evidence.Keys, shown[0].start);
  }

  /** For which queries every period shown is whole, over all evidence. */
  lemma WholeExactly(g: Grouping, q: Query)
    requires ValidQuery(q) && Shows(g, q)
    ensures (forall evidence: map<Day, DayRecord> | Dated(evidence) ::
               SelectedDates(evidence.Keys, q) <= evidence.Keys && ShowsWhole(g, evidence, q))
        <==> KeepsWhole(g, q)
  {
    hide KeepsWhole, ShowsWhole, SelectedDates, Shows, ValidQuery, StartOf, Dated;
    if KeepsWhole(g, q) {
      forall evidence: map<Day, DayRecord> | Dated(evidence)
        ensures SelectedDates(evidence.Keys, q) <= evidence.Keys && ShowsWhole(g, evidence, q)
      {
        SelectedAreEvidence(evidence.Keys, q);
        KeptIsWhole(g, evidence, q);
      }
    } else {
      var x, y := SomePeriodIsCut(g, q);
      CutIsNotWhole(g, q, x, y);
    }
  }

  // ----- the program

  /** The periods with the start that was asked for. */
  function OnlyFrom(periods: seq<Period>, start: Option<Day>): seq<Period> {
    if start.None? || periods == [] then periods else
      var before := OnlyFrom(periods[..|periods| - 1], start);
      if periods[|periods| - 1].start == start.value then before + [periods[|periods| - 1]] else before
  }

  function AskedStart(g: Grouping, q: Query): Option<Day> {
    match g
    case ByWeek => q.weekStart
    case ByMonth => q.monthStart
  }

  /** The selection has left nothing for the filter on the starts to remove. */
  lemma AskedAreOnly(g: Grouping, evidence: map<Day, DayRecord>, q: Query)
    requires ValidQuery(q) && SelectedDates(evidence.Keys, q) <= evidence.Keys
    ensures var all := AllPeriods(g, evidence, SelectedDates(evidence.Keys, q)); OnlyFrom(all, AskedStart(g, q)) == all
  {
    hide StartOf, WeekStart, MonthStart, SelectedDates, RecordsOf, Starts, AllPeriods;
    var start := AskedStart(g, q);
    if start.Some? {
      AskedIsAskedFor(g, q);
      FilterShowsThePeriod(g, evidence, q, start.value);
      var all := AllPeriods(g, evidence, SelectedDates(evidence.Keys, q));
      assert all == [] || (|all| == 1 && all[..0] == [] && all[0].start == start.value);
    }
  }

  lemma AskedIsAskedFor(g: Grouping, q: Query)
    requires ValidQuery(q) && AskedStart(g, q).Some?
    ensures AsksFor(g, q, AskedStart(g, q).value)
  {
    hide WeekStart, MonthStart;
  }

  /**
   The weekly or monthly part of `build`: select, group, keep the start that was asked for, and show the newest
   `limit` periods.  Without a filter these are the newest periods of all the evidence; a filter for the
   grouping itself shows its one period.  Nothing is returned when the query is refused.
   */
  method ShownPeriods(g: Grouping, evidence: map<Day, DayRecord>, q: Query) returns (shown: Option<seq<Period>>)
    requires Dated(evidence)
    ensures SelectedDates(evidence.Keys, q) <= evidence.Keys
    ensures shown.Some? <==> ValidQuery(q)
    ensures shown.Some? ==>
      shown.value == if Shows(g, q) then Newer(AllPeriods(g, evidence, SelectedDates(evidence.Keys, q)), q.limit) else []
    ensures shown.Some? && Unfiltered(g, q) ==> shown.value == Newer(AllPeriods(g, evidence, evidence.Keys), q.limit)
    ensures shown.Some? && Shows(g, q) ==> forall start: Day | AsksFor(g, q, start) ::
              shown.value == if start in Starts(g, evidence.Keys) then [PeriodOn(g, evidence, evidence.Keys, start)] else []
  {
    hide StartOf, Grouped, ByDate, SelectedDates, Finished, PeriodOn, PeriodsOf, Starts, Dated, Unfiltered, AsksFor, OnceEach,
      Dates, ValidQuery, Shows, OnlyFrom, AllPeriods;
    var selected := SelectedDates(evidence.Keys, q);
    SelectedAreEvidence(evidence.Keys, q);
    if !ValidQuery(q) {
      return None;
    }
    var daily := DailyRecords(evidence, selected);
    var periods := PeriodRecords(g, daily);
    GroupedAreAll(g, evidence, selected, daily, periods);
    AskedAreOnly(g, evidence, q);
    periods := OnlyFrom(periods, AskedStart(g, q));
    if !Shows(g, q) {
      periods := [];
    }
    ShownAre(g, evidence, q);
    shown := Some(Newer(periods, q.limit));
  }

  lemma ShownAre(g: Grouping, evidence: map<Day, DayRecord>, q: Query)
    requires ValidQuery(q) && SelectedDates(evidence.Keys, q) <= evidence.Keys
    ensures var shown := Newer(AllPeriods(g, evidence, SelectedDates(evidence.Keys, q)), q.limit);
            && (Unfiltered(g, q) ==> Shows(g, q) && shown == Newer(AllPeriods(g, evidence, evidence.Keys), q.limit))
            && forall start: Day | AsksFor(g, q, start) ::
                 shown == if start in Starts(g, evidence.Keys) then [PeriodOn(g, evidence, evidence.Keys, start)] else []
    ensures Newer<Period>([], q.limit) == []
  {
    hide StartOf, SelectedDates, PeriodOn, Starts, AsksFor, AllPeriods, Shows;
    if Unfiltered(g, q) {
      TruncationChangesNothing(g, evidence, q);
    }
    var shown := Newer(AllPeriods(g, evidence, SelectedDates(evidence.Keys, q)), q.limit);
    forall start: Day | AsksFor(g, q, start)
      ensures shown == if start in Starts(g, evidence.Keys) then [PeriodOn(g, evidence, evidence.Keys, start)] else []
    {
      FilterShowsThePeriod(g, evidence, q, start);
    }
  }

  /** The daily records of the dates, newest first. */
  method DailyRecords(evidence: map<Day, DayRecord>, dates: set<Day>) returns (daily: seq<DayRecord>)
    requires Dated(evidence) && dates <= evidence.Keys
    ensures Dates(daily) == dates && OnceEach(daily)
    ensures forall r :: r in daily <==> exists d :: d in dates && r == evidence[d]
  {
    hide Sorted, Dated, OnceEach, Dates;
    var sorted := Sorted(dates);
    SortedAscends(dates);
    daily := [];
    var k := |sorted|;
    while k > 0
      invariant 0 <= k <= |sorted| && |daily| == |sorted| - k
      invariant forall i | 0 <= i < |daily| :: sorted[|sorted| - 1 - i] in evidence.Keys && daily[i] == evidence[sorted[|sorted| - 1 - i] as Day]
    {
      k := k - 1;
      assert sorted[k] in dates;
      daily := daily + [evidence[sorted[k]]];
    }
    DailyAre(evidence, dates, sorted, daily);
  }

  lemma GroupedAreAll(g: Grouping, evidence: map<Day, DayRecord>, selected: set<Day>, daily: seq<DayRecord>, periods: seq<Period>)
    requires Dated(evidence) && selected <= evidence.Keys && OnceEach(daily) && Dates(daily) == selected
    requires forall r :: r in daily <==> exists d :: d in selected && r == evidence[d]
    requires Grouped(g, daily, periods) && forall i | 0 <= i < |periods| :: Finished(g, daily, periods[i])
    ensures periods == AllPeriods(g, evidence, selected)
  {
    hide StartOf, Finished, PeriodOn, Summarises, Belongs, PeriodsOf, OnceEach, Dated;
    forall i | 0 <= i < |periods| ensures periods[i] == PeriodOn(g, evidence, selected, periods[i].start) {
      FinishedIsPeriodOn(g, evidence, selected, daily, periods[i]);
    }
    DescendingIsPeriodsOf(g, evidence, selected, periods);
    StartsOfPeriods(g, daily, periods);
  }

  lemma SelectedAreEvidence(evidence: set<Day>, q: Query)
    ensures SelectedDates(evidence, q) <= evidence
  {
    hide Newest;
    NewestAreNewest(evidence, MaximumDates(q));
  }

  lemma DailyAre(evidence: map<Day, DayRecord>, selected: set<Day>, sorted: seq<int>, daily: seq<DayRecord>)
    requires Dated(evidence)
    requires selected <= evidence.Keys && |daily| == |sorted| && forall x :: x in sorted <==> x in selected
    requires forall i, j | 0 <= i < j < |sorted| :: sorted[i] < sorted[j]
    requires forall i | 0 <= i < |daily| :: sorted[|sorted| - 1 - i] in evidence.Keys && daily[i] == evidence[sorted[|sorted| - 1 - i] as Day]
    ensures Dates(daily) == selected && OnceEach(daily)
    ensures forall r :: r in daily <==> exists d :: d in selected && r == evidence[d]
  {
    forall d | d in selected ensures evidence[d] in daily && d in Dates(daily) {
      assert d in sorted;
      var k :| 0 <= k < |sorted| && sorted[k] == d;
      assert daily[|sorted| - 1 - k] == evidence[d];
    }
    forall d | d in Dates(daily) ensures d in selected {
      var r :| r in daily && r.date == d;
      var i :| 0 <= i < |daily| && daily[i] == r;
      assert sorted[|sorted| - 1 - i] in sorted;
    }
  }
}
