/**
 The market a scan normally sees (data/market.py): the cached bars of every instrument up to the completed
 session, the benchmark's dates as the calendar, and the last day all active instruments share.  Only the
 dates of the bars matter here.
 */
module MarketData {
  import opened Common
  import opened MarketCalendar
  import opened MonitoringConfig
  import opened MonitoringRecords
  import opened RuleEngine
  import opened MonitoringRuns

  /** The dates in each instrument's cache file; reading one checks that they ascend. */
  type Caches = map<Symbol, seq<Date>>

  datatype Config = Config(instruments: seq<Symbol>, benchmark: Symbol, active: Date -> set<Symbol>)

  datatype Market = Market(calendar: seq<Date>, latestCommonSession: Date, completedThrough: Date)

  /** The dates up to the completed session. */
  function Completed(dates: seq<Date>, through: Date): (r: seq<Date>)
    ensures forall d :: d in r <==> d in dates && d <= through
  {
    if dates == [] then [] else
      var before := Completed(dates[..|dates| - 1], through);
      if dates[|dates| - 1] <= through then before + [dates[|dates| - 1]] else before
  }

  ghost predicate CachesOk(caches: Caches) {
    forall s | s in caches :: StrictlyAscending(caches[s])
  }

  /** Every instrument has a cache with a completed bar, and the benchmark is one of them. */
  predicate Complete(caches: Caches, config: Config, through: Date) {
    && config.benchmark in config.instruments
    && forall s | s in config.instruments :: s in caches && Completed(caches[s], through) != []
  }

  function LastDay(caches: Caches, config: Config, through: Date): Date
    requires Complete(caches, config, through)
  {
    var calendar := Completed(caches[config.benchmark], through);
    calendar[|calendar| - 1]
  }

  /** The completed sessions of the benchmark on which every active instrument traded. */
  function CommonDays(caches: Caches, config: Config, through: Date): set<Date>
    requires Complete(caches, config, through)
  {
    set d | d in Completed(caches[config.benchmark], through)
      && forall s | s in config.instruments && s in config.active(LastDay(caches, config, through)) :: d in Completed(caches[s], through)
  }

  /** The market that is loaded, when it can be. */
  ghost predicate Loads(caches: Caches, config: Config, through: Date, market: Market) {
    && Complete(caches, config, through)
    && market.calendar == Completed(caches[config.benchmark], through) && market.completedThrough == through
    && market.latestCommonSession in CommonDays(caches, config, through)
    && forall d | d in CommonDays(caches, config, through) :: d <= market.latestCommonSession
  }

  method MaxOf(days: set<Date>) returns (latest: Date)
    requires days != {}
    ensures latest in days && forall d | d in days :: d <= latest
  {
    latest := MinOf(days);
    var rest := days - {latest};
    while rest != {}
      invariant rest <= days && latest in days && forall d | d in days && d !in rest :: d <= latest
      decreases rest
    {
      var d := MinOf(rest);
      rest := rest - {d};
      if d > latest {
        latest := d;
      }
    }
  }

  /** `MarketData._initialize`; nothing is loaded when it would raise. */
  method Load(caches: Caches, config: Config, through: Date) returns (market: Option<Market>)
    ensures market.Some? ==> Loads(caches, config, through, market.value)
    ensures market.None? <==> !Complete(caches, config, through) || CommonDays(caches, config, through) == {}
  {
    hide Completed;
    var symbols: Caches := map[];
    for i := 0 to |config.instruments|
      invariant forall s :: s in symbols <==> s in config.instruments[..i]
      invariant forall s | s in symbols :: s in caches && symbols[s] == Completed(caches[s], through) && symbols[s] != []
    {
      var s := config.instruments[i];
      if s !in caches || Completed(caches[s], through) == [] {
        return None;
      }
      symbols := symbols[s := Completed(caches[s], through)];
    }
    assert config.instruments[..|config.instruments|] == config.instruments;
    if config.benchmark !in symbols {
      return None;
    }
    var calendar := symbols[config.benchmark];
    var common := set d | d in calendar;
    var active := config.active(calendar[|calendar| - 1]);
    var rest := symbols.Keys - {config.benchmark};
    while rest != {}
      invariant rest <= symbols.Keys
      invariant forall d :: d in common <==> (d in calendar && forall s | s in symbols && s !in rest && s in active :: d in symbols[s])
      decreases rest
    {
      var s := MinOf(rest);
      rest := rest - {s};
      if s in active {
        common := set d | d in common && d in symbols[s];
      }
    }
    assert active == config.active(LastDay(caches, config, through));
    forall d ensures d in common <==> d in CommonDays(caches, config, through) {
      assert d in calendar ==> ((forall s | s in symbols && s in active :: d in symbols[s])
        <==> forall s | s in config.instruments && s in active :: d in Completed(caches[s], through));
    }
    if common == {} {
      return None;
    }
    var latest := MaxOf(common);
    market := Some(Market(calendar, latest, through));
  }

  // ----- what a scan may rely on

  /** The evidence `snapshot` takes from this market. */
  function SnapshotOf(market: Market, digest: Digest, manifest: Option<Digest>, evaluate: Rule -> Evaluation): Snapshot {
    var day := market.latestCommonSession;
    Snapshot(Evidence(SnapshotId(day, digest[..12]), manifest, digest, day, market.completedThrough, day), market.calendar, evaluate)
  }

  lemma {:induction false} CompletedIsPrefix(dates: seq<Date>, through: Date)
    requires StrictlyAscending(dates)
    ensures Completed(dates, through) <= dates
  {
    if dates != [] {
      var n := |dates| - 1;
      CompletedIsPrefix(dates[..n], through);
      if dates[n] <= through {
        AllCompleted(dates[..n], through);
        assert dates == dates[..n] + [dates[n]];
      }
    }
  }

  lemma {:induction false} AllCompleted(dates: seq<Date>, through: Date)
    requires forall i | 0 <= i < |dates| :: dates[i] <= through
    ensures Completed(dates, through) == dates
  {
    if dates != [] {
      AllCompleted(dates[..|dates| - 1], through);
    }
  }

  /**
   Every snapshot of a market that was loaded from cache files meets what a scan needs: its calendar is the
   beginning of the benchmark's, its data date is a session, and its cutoff is not before its data date.
   */
  lemma LoadedMarketsAreSeen(full: seq<Date>, caches: Caches, config: Config, through: Date, market: Market,
                             digest: Digest, manifest: Option<Digest>, evaluate: Rule -> Evaluation)
    requires CachesOk(caches) && Loads(caches, config, through, market) && caches[config.benchmark] <= full
    ensures SeenOn(full, SnapshotOf(market, digest, manifest, evaluate))
    ensures WellTaken(SnapshotOf(market, digest, manifest, evaluate).evidence)
  {
    hide Completed;
    CompletedIsPrefix(caches[config.benchmark], through);
  }
}
