/**
 Stores with one watchlist and one rule, as the engine writes them scan by scan: the inputs on which
 properties of the program fail, and the converse halves of the conditions under which they hold.
 */
module OneRule {
  import opened Common
  import opened MarketCalendar
  import opened MonitoringConfig
  import opened MonitoringRecords
  import opened ActionChains
  import opened MonitoringStore
  import opened ScanTransaction
  import opened RuleEngine
  import opened AlertSpacing
  import opened MonitoringRuns
  import opened ProfileModel

  // ----- one watchlist, one rule

  const RULE: RuleId := 1

  function TheRule(cooldown: int): Rule {
    Rule(RULE, RuleSpec(1, 7, CloseAbove, Some(1.0), None, None, Gte, cooldown, Info, true), 0, 0)
  }

  function TheList(): Watchlist {
    Watchlist(1, Name("w", 0), true, [7], 0, 0)
  }

  function TheConfig(cooldown: int): Config {
    Config(0, 1, 0, "owner", "create", None, [TheList()], [TheRule(cooldown)])
  }

  function Start(cooldown: int): Disk {
    EmptyDisk.(configs := [TheConfig(cooldown)])
  }

  lemma FirstRevision(cooldown: int)
    requires 0 <= cooldown <= 250
    ensures NextConfig([], [TheList()], [TheRule(cooldown)], 0, 0, "owner", "create") == Ok(TheConfig(cooldown))
  {
    ListIsCanonical();
    RuleIsCanonical(cooldown);
    CanonicalNormalizesToItself([TheList()]);
    CanonicalRulesNormalizeToThemselves([TheRule(cooldown)], [TheList()]);
    assert [TheList()][..0] == [];
  }

  lemma ListIsCanonical()
    ensures CanonicalWatchlists([TheList()])
  {
    assert SymbolSet([7]) == {7};
    SortedOne(7);
  }

  lemma SortedOne(x: int)
    ensures Sorted({x}) == [x]
  {
    SortedAscends({x});
    assert Sorted({x})[0] in Sorted({x});
  }

  lemma RuleIsCanonical(cooldown: int)
    requires 0 <= cooldown <= 250
    ensures CanonicalRules([TheRule(cooldown)], [TheList()])
  {
    assert Belongs(TheRule(cooldown), [TheList()]) by {
      assert [TheList()][0] == TheList() && 7 in TheList().symbols;
    }
  }

  lemma StartIsIntact(cooldown: int)
    requires 0 <= cooldown <= 250
    ensures Integrity(Start(cooldown))
  {
    hide Integrity, NextConfig;
    EmptyDiskIsIntact();
    FirstRevision(cooldown);
    assert ConfigStep(EmptyDisk, Start(cooldown)) by {
      assert Start(cooldown) == EmptyDisk.(configs := EmptyDisk.configs + [TheConfig(cooldown)]);
    }
    ConfigStepKeeps(EmptyDisk, Start(cooldown));
  }

  // ----- one scan

  function Zeros(): Digest {
    seq(64, _ => '0')
  }

  /** A snapshot of that day, on which the rule's condition holds or does not. */
  function Snap(calendar: seq<Date>, day: Date, cutoff: Date, triggered: bool): Snapshot {
    Snapshot(Evidence(SnapshotId(day, Zeros()[..12]), None, Zeros(), day, cutoff, day), calendar,
             (r: Rule) => Observed(triggered, None, "cache", None))
  }

  function Head(n: nat, cooldown: int): Header {
    Header(RandomScan(n), TheConfig(cooldown), 0)
  }

  /** What the engine hands to the writer for the n-th scan. */
  ghost function OneScan(d: Disk, n: nat, cooldown: int, snap: Snapshot): Tx {
    TxFor(d, Head(n, cooldown), snap,
          SweepOf(d, [TheList()], Head(n, cooldown), snap, EnabledRules([TheRule(cooldown)])), "owner")
  }

  /** n scans so far, numbered in order, by the engine and on this configuration. */
  ghost predicate Ready(d: Disk, n: nat, cooldown: int) {
    && Integrity(d) && d.configs == [TheConfig(cooldown)] && |d.scans| == n && |d.alerts| <= n
    && forall id | id in d.scans :: id == RandomScan(d.scans[id].sequence - 1)
  }

  ghost predicate Raises(d: Disk, cooldown: int, snap: Snapshot) {
    && snap.evaluate(TheRule(cooldown)) == Observed(true, None, "cache", None)
    && !StillTrue(d.scans, FingerprintOf(TheRule(cooldown)), |d.scans| + 1)
    && !CoolingDown(d.scans, d.alerts, FingerprintOf(TheRule(cooldown)), snap.evidence.dataDate, snap.calendar)
  }

  function AlertOf(n: nat, cooldown: int, calendar: seq<Date>, day: Date, cutoff: Date): Alert {
    AlertFor(Head(n, cooldown), Snap(calendar, day, cutoff, true), TheRule(cooldown))
  }

  lemma OneSweep(d: Disk, n: nat, cooldown: int, calendar: seq<Date>, day: Date, cutoff: Date, triggered: bool)
    ensures var snap := Snap(calendar, day, cutoff, triggered);
            var sweep := SweepOf(d, [TheList()], Head(n, cooldown), snap, EnabledRules([TheRule(cooldown)]));
            && sweep.states == map[RULE := StateFor(snap, TheRule(cooldown))] && sweep.aborted.None? && sweep.exclusions == []
            && sweep.alerts == (if Raises(d, cooldown, snap) then [AlertOf(n, cooldown, calendar, day, cutoff)] else [])
  {
    hide VerdictOn, AlertFor, StateFor, Raises, SweepOf, EnabledRules;
    OneEnabled(cooldown);
    VerdictOfTheRule(d, cooldown, calendar, day, cutoff, triggered);
    SweepOfOne(d, [TheList()], Head(n, cooldown), Snap(calendar, day, cutoff, triggered), TheRule(cooldown));
  }

  lemma OneEnabled(cooldown: int)
    ensures EnabledRules([TheRule(cooldown)]) == [TheRule(cooldown)]
  {
    assert [TheRule(cooldown)][..0] == [];
  }

  lemma SweepOfOne(d: Disk, ws: seq<Watchlist>, head: Header, snap: Snapshot, r: Rule)
    requires var v := VerdictOn(d, ws, snap, r); v.Quiet? || v.Suppressed? || v.Fires? ==> snap.evaluate(r).Observed?
    ensures SweepOf(d, ws, head, snap, [r]) == Observe(EmptySweep, head, snap, r, VerdictOn(d, ws, snap, r))
  {
    hide VerdictOn, Observe;
    assert [r][..0] == [];
    assert SweepOf(d, ws, head, snap, []) == EmptySweep;
  }

  lemma VerdictOfTheRule(d: Disk, cooldown: int, calendar: seq<Date>, day: Date, cutoff: Date, triggered: bool)
    ensures var snap := Snap(calendar, day, cutoff, triggered);
            var v := VerdictOn(d, [TheList()], snap, TheRule(cooldown));
            && snap.evaluate(TheRule(cooldown)).Observed?
            && (v.Quiet? || v.Suppressed? || v.Fires?) && (v.Fires? <==> Raises(d, cooldown, snap)) && (v.Fires? ==> triggered)
  {
    hide StillTrue, CoolingDown;
    assert Watched([TheList()], TheRule(cooldown)) by {
      assert [TheList()][0].id == TheRule(cooldown).spec.watchlistId;
    }
  }

  lemma NextIdIsNew(d: Disk, n: nat, cooldown: int)
    requires Ready(d, n, cooldown)
    ensures RandomScan(n) !in d.scans
  {
    hide ScansWhole, AlertsOwned, AlertActionsOk, NotificationsBound, NoteActionsOk, ChainOk;
  }

  lemma NextStore(d: Disk, n: nat, cooldown: int, calendar: seq<Date>, day: Date, cutoff: Date, triggered: bool)
    requires 0 <= cooldown <= 250 && Ready(d, n, cooldown) && n < 100
    ensures var snap := Snap(calendar, day, cutoff, triggered);
            var tx := OneScan(d, n, cooldown, snap);
            && EngineTx(d, Head(n, cooldown), snap, "owner", tx) && HasRoom(d, tx)
            && tx.alerts == (if Raises(d, cooldown, snap) then [AlertOf(n, cooldown, calendar, day, cutoff)] else [])
            && tx.scan.id == RandomScan(n) && tx.scan.sequence == n + 1 && !tx.scan.status.Failed?
            && tx.scan.ruleStates == map[RULE := StateFor(snap, TheRule(cooldown))]
  {
    hide SweepOf, EnabledRules, Integrity, Raises, AlertFor;
    OneSweep(d, n, cooldown, calendar, day, cutoff, triggered);
    NextIdIsNew(d, n, cooldown);
    IsEngineTx(d, Head(n, cooldown), Snap(calendar, day, cutoff, triggered),
               SweepOf(d, [TheList()], Head(n, cooldown), Snap(calendar, day, cutoff, triggered), EnabledRules([TheRule(cooldown)])), "owner");
  }

  /** The store after the n-th scan. */
  ghost function After(d: Disk, n: nat, cooldown: int, snap: Snapshot): Disk {
    Commit(d, OneScan(d, n, cooldown, snap))
  }

  lemma AfterIsReady(d: Disk, n: nat, cooldown: int, calendar: seq<Date>, day: Date, cutoff: Date, triggered: bool)
    requires 0 <= cooldown <= 250 && Ready(d, n, cooldown) && n < 100 && cutoff >= day
    ensures var snap := Snap(calendar, day, cutoff, triggered);
            var e := After(d, n, cooldown, snap);
            && Ready(e, n + 1, cooldown)
            && e.scans == d.scans[RandomScan(n) := OneScan(d, n, cooldown, snap).scan] && RandomScan(n) !in d.scans
            && e.alerts == (if Raises(d, cooldown, snap)
                            then d.alerts[AlertId(RandomScan(n), RULE) := AlertOf(n, cooldown, calendar, day, cutoff)] else d.alerts)
  {
    hide Integrity, EngineTx, Raises, OneScan, TxBound, SweepOf, AlertFor, AsMap, AlertOf, StateFor;
    var snap := Snap(calendar, day, cutoff, triggered);
    var tx := OneScan(d, n, cooldown, snap);
    NextStore(d, n, cooldown, calendar, day, cutoff, triggered);
    EngineTxIsBound(d, Head(n, cooldown), snap, "owner", tx);
    CommitKeepsIntegrity(d, tx);
    CommitKeepsOldAlerts(d, tx);
    BoundIsNew(d, tx);
    CommitAlerts(d, tx);
    AlertIdOf(n, cooldown, calendar, day, cutoff);
  }

  lemma CommitAlerts(d: Disk, tx: Tx)
    requires |tx.alerts| <= 1
    ensures Commit(d, tx).alerts == if tx.alerts == [] then d.alerts else d.alerts[tx.alerts[0].id := tx.alerts[0]]
  {
    if tx.alerts == [] {
      assert d.alerts + AsMap(tx.alerts) == d.alerts;
    } else {
      assert tx.alerts[..0] == [];
      assert AsMap(tx.alerts) == map[tx.alerts[0].id := tx.alerts[0]];
    }
  }

  lemma BoundIsNew(d: Disk, tx: Tx)
    requires TxBound(d, tx)
    ensures tx.scan.id !in d.scans
  {
    hide Distinct, ScanRecordOk, EvidenceBound, StatesBound, AlertBound;
  }

  lemma AlertIdOf(n: nat, cooldown: int, calendar: seq<Date>, day: Date, cutoff: Date)
    ensures var a := AlertOf(n, cooldown, calendar, day, cutoff);
            && a.id == AlertId(RandomScan(n), RULE) && a.scanId == RandomScan(n) && a.rule == RULE
            && a.ruleFingerprint == FingerprintOf(TheRule(cooldown)) && a.evidence.dataDate == day
  {
  }

  lemma SequenceOf(d: Disk, n: nat, cooldown: int, i: nat)
    requires Ready(d, n, cooldown) && RandomScan(i) in d.scans
    ensures d.scans[RandomScan(i)].sequence == i + 1
  {
    hide Integrity;
  }

  /** A scan that finds the condition not to hold re-arms the rule. */
  lemma QuietRearms(d: Disk, n: nat, cooldown: int, calendar: seq<Date>, day: Date, cutoff: Date)
    requires 0 <= cooldown <= 250 && Ready(d, n, cooldown) && n < 100 && cutoff >= day
    ensures var e := After(d, n, cooldown, Snap(calendar, day, cutoff, false));
            !StillTrue(e.scans, FingerprintOf(TheRule(cooldown)), |e.scans| + 1)
  {
    hide Integrity, Raises, OneScan, EngineTx, After, AlertOf, HasRoom;
    var snap := Snap(calendar, day, cutoff, false);
    var e := After(d, n, cooldown, snap);
    NextStore(d, n, cooldown, calendar, day, cutoff, false);
    AfterIsReady(d, n, cooldown, calendar, day, cutoff, false);
    assert Records(e.scans[RandomScan(n)], RULE) && e.scans[RandomScan(n)].sequence == n + 1;
  }

  lemma NothingRaisedYet(cooldown: int, calendar: seq<Date>, day: Date, cutoff: Date)
    requires 0 <= cooldown <= 250
    ensures Ready(Start(cooldown), 0, cooldown) && Raises(Start(cooldown), cooldown, Snap(calendar, day, cutoff, true))
  {
    hide Integrity;
    StartIsIntact(cooldown);
  }

  lemma QuietRaisesNothing(d: Disk, cooldown: int, calendar: seq<Date>, day: Date, cutoff: Date)
    ensures !Raises(d, cooldown, Snap(calendar, day, cutoff, false))
  {
    hide StillTrue, CoolingDown;
  }

  /** The store has re-armed the rule, and its newest alert lies far enough back. */
  lemma FarEnoughRaises(d: Disk, n: nat, cooldown: int, calendar: seq<Date>, last: AlertId, day: Date, cutoff: Date)
    requires Ready(d, n, cooldown) && !StillTrue(d.scans, FingerprintOf(TheRule(cooldown)), |d.scans| + 1)
    requires forall id | IsLastAlert(d.scans, d.alerts, FingerprintOf(TheRule(cooldown)), id) :: id == last
    requires last in d.alerts && SessionsSince(calendar, d.alerts[last].evidence.dataDate, day) > cooldown
    ensures Raises(d, cooldown, Snap(calendar, day, cutoff, true))
  {
    hide Integrity, IsLastAlert, SessionsSince, StillTrue;
  }

  // ----- two alerts

  ghost predicate TwoAlerts(d: Disk, cooldown: int, calendar: seq<Date>, early: Date, newest: Date) {
    && Ready(d, 4, cooldown)
    && d.alerts == map[AlertId(RandomScan(0), RULE) := AlertOf(0, cooldown, calendar, early, early),
                       AlertId(RandomScan(2), RULE) := AlertOf(2, cooldown, calendar, newest, newest)]
    && RandomScan(0) in d.scans && RandomScan(2) in d.scans
    && !StillTrue(d.scans, FingerprintOf(TheRule(cooldown)), |d.scans| + 1)
  }

  /** Two scans: the condition holds, then it does not. */
  lemma TwoScans(d: Disk, n: nat, cooldown: int, calendar: seq<Date>, day: Date) returns (e: Disk)
    requires 0 <= cooldown <= 250 && Ready(d, n, cooldown) && n < 90 && Raises(d, cooldown, Snap(calendar, day, day, true))
    ensures Ready(e, n + 2, cooldown) && !StillTrue(e.scans, FingerprintOf(TheRule(cooldown)), |e.scans| + 1)
    ensures e.alerts == d.alerts[AlertId(RandomScan(n), RULE) := AlertOf(n, cooldown, calendar, day, day)]
    ensures RandomScan(n) in e.scans && d.scans.Keys <= e.scans.Keys
  {
    hide Ready, Raises, After, StillTrue, AlertOf, OneScan;
    AfterIsReady(d, n, cooldown, calendar, day, day, true);
    var loud := After(d, n, cooldown, Snap(calendar, day, day, true));
    QuietRaisesNothing(loud, cooldown, calendar, day, day);
    AfterIsReady(loud, n + 1, cooldown, calendar, day, day, false);
    QuietRearms(loud, n + 1, cooldown, calendar, day, day);
    e := After(loud, n + 1, cooldown, Snap(calendar, day, day, false));
  }

  /** Four scans: the condition holds, does not hold, holds again, does not hold again. */
  lemma FourScans(cooldown: int, calendar: seq<Date>, early: Date, newest: Date) returns (d: Disk)
    requires 0 <= cooldown <= 250 && SessionsSince(calendar, early, newest) > cooldown
    ensures TwoAlerts(d, cooldown, calendar, early, newest)
  {
    hide Ready, Raises, StillTrue, SessionsSince, AlertOf, Start, IsLastAlert;
    NothingRaisedYet(cooldown, calendar, early, early);
    StartHasNoAlerts(cooldown);
    var half := TwoScans(Start(cooldown), 0, cooldown, calendar, early);
    OneAlertIsLast(half, cooldown, calendar, early);
    FarEnoughRaises(half, 2, cooldown, calendar, AlertId(RandomScan(0), RULE), newest, newest);
    d := TwoScans(half, 2, cooldown, calendar, newest);
  }

  lemma StartHasNoAlerts(cooldown: int)
    ensures Start(cooldown).alerts == map[]
  {
  }

  lemma OneAlertIsLast(d: Disk, cooldown: int, calendar: seq<Date>, early: Date)
    requires d.alerts == map[AlertId(RandomScan(0), RULE) := AlertOf(0, cooldown, calendar, early, early)]
    ensures forall id | IsLastAlert(d.scans, d.alerts, FingerprintOf(TheRule(cooldown)), id) :: id == AlertId(RandomScan(0), RULE)
    ensures d.alerts[AlertId(RandomScan(0), RULE)].evidence.dataDate == early
  {
  }

  lemma TwoAlertsAreApart(d: Disk, cooldown: int, calendar: seq<Date>, early: Date, newest: Date)
    requires TwoAlerts(d, cooldown, calendar, early, newest) && SessionsSince(calendar, early, newest) > cooldown
    ensures Integrity(d) && Apart(d.scans, d.alerts, calendar)
    ensures forall id :: IsLastAlert(d.scans, d.alerts, FingerprintOf(TheRule(cooldown)), id) <==> id == AlertId(RandomScan(2), RULE)
  {
    hide Integrity, SessionsSince, AlertOf, StillTrue, IsLastAlert;
    SequenceOf(d, 4, cooldown, 0);
    SequenceOf(d, 4, cooldown, 2);
    AlertIdOf(0, cooldown, calendar, early, early);
    AlertIdOf(2, cooldown, calendar, newest, newest);
    LaterOfTwoIsLast(d, FingerprintOf(TheRule(cooldown)), AlertId(RandomScan(0), RULE), AlertId(RandomScan(2), RULE));
  }

  lemma LaterOfTwoIsLast(d: Disk, rule: RuleFingerprint, a: AlertId, b: AlertId)
    requires d.alerts.Keys == {a, b} && IsOf(d.alerts, a, rule) && IsOf(d.alerts, b, rule) && Precedes(d.scans, d.alerts, a, b)
    ensures forall id :: IsLastAlert(d.scans, d.alerts, rule, id) <==> id == b
  {
    forall id ensures IsLastAlert(d.scans, d.alerts, rule, id) <==> id == b {
      if id in d.alerts && id != b {
        assert id == a;
        assert d.scans[d.alerts[b].scanId].sequence > d.scans[d.alerts[id].scanId].sequence;
      }
    }
  }

  // ----- where comparing with the newest alert is not enough

  /** An intact store whose alerts are apart, and the newest alert of the rule in it. */
  ghost predicate NewestOn(d: Disk, calendar: seq<Date>, rule: RuleFingerprint, last: AlertId, newest: Date) {
    && Integrity(d) && Apart(d.scans, d.alerts, calendar)
    && IsLastAlert(d.scans, d.alerts, rule, last) && d.alerts[last].evidence.dataDate == newest
  }

  /**
   The cooldown test, exactly.  For a newest alert on the one day and a scan on the other, the distance from
   the newest alert tells, for every store with any rule of that cooldown, how far all earlier alerts are, if
   and only if the newest day reaches back.
   */
  lemma NewestTestIsExact(calendar: seq<Date>, newest: Date, today: Date, cooldown: nat)
    requires StrictlyAscending(calendar) && cooldown <= 250 && SessionsSince(calendar, newest, today) > cooldown
    ensures (forall d, rule: RuleFingerprint, last | NewestOn(d, calendar, rule, last, newest) && rule.spec.cooldown == cooldown ::
               FarFromAll(d.alerts, rule, today, calendar))
        <==> ReachesBack(calendar, newest, today, cooldown)
  {
    hide Integrity, Apart, SessionsSince, ReachesBack, IsLastAlert;
    if ReachesBack(calendar, newest, today, cooldown) {
      forall d, rule: RuleFingerprint, last | NewestOn(d, calendar, rule, last, newest) && rule.spec.cooldown == cooldown
        ensures FarFromAll(d.alerts, rule, today, calendar)
      {
        NewestAlertIsEnough(d, calendar, rule, last, today);
      }
    } else {
      var d := TooCloseStore(calendar, newest, today, cooldown);
      assert NewestOn(d, calendar, FingerprintOf(TheRule(cooldown)), AlertId(RandomScan(2), RULE), newest);
    }
  }

  lemma TooCloseStore(calendar: seq<Date>, newest: Date, today: Date, cooldown: nat) returns (d: Disk)
    requires StrictlyAscending(calendar) && cooldown <= 250 && !ReachesBack(calendar, newest, today, cooldown)
    ensures Ready(d, 4, cooldown) && !StillTrue(d.scans, FingerprintOf(TheRule(cooldown)), |d.scans| + 1)
    ensures NewestOn(d, calendar, FingerprintOf(TheRule(cooldown)), AlertId(RandomScan(2), RULE), newest)
    ensures forall id :: IsLastAlert(d.scans, d.alerts, FingerprintOf(TheRule(cooldown)), id) ==> id == AlertId(RandomScan(2), RULE)
    ensures IsOf(d.alerts, AlertId(RandomScan(0), RULE), FingerprintOf(TheRule(cooldown))) && RandomScan(0) in d.scans
    ensures d.alerts[AlertId(RandomScan(0), RULE)].scanId == RandomScan(0)
    ensures SessionsSince(calendar, d.alerts[AlertId(RandomScan(0), RULE)].evidence.dataDate, today) <= cooldown
  {
    hide Integrity, SessionsSince, AlertOf, StillTrue, ReachesBack, Apart, IsLastAlert;
    var early := SomeDayIsTooClose(calendar, newest, today, cooldown);
    d := FourScans(cooldown, calendar, early, newest);
    TwoAlertsAreApart(d, cooldown, calendar, early, newest);
    AlertIdOf(0, cooldown, calendar, early, early);
    AlertIdOf(2, cooldown, calendar, newest, newest);
  }

  /**
   What follows when the newest day does not reach back: the engine raises an alert that passes its cooldown
   test, the store stays intact, and two alerts of the rule are within its cooldown.
   */
  lemma OffCalendarAlertBreaksSpacing(calendar: seq<Date>, newest: Date, today: Date, cooldown: nat)
      returns (d: Disk, snap: Snapshot, tx: Tx)
    requires StrictlyAscending(calendar) && cooldown <= 250
    requires SessionsSince(calendar, newest, today) > cooldown && !ReachesBack(calendar, newest, today, cooldown)
    ensures Integrity(d) && Apart(d.scans, d.alerts, calendar) && snap.calendar == calendar && snap.evidence.dataDate == today
    ensures EngineTx(d, Head(4, cooldown), snap, "owner", tx) && |tx.alerts| == 1 && Justified(d, snap, tx.alerts[0])
    ensures Integrity(Commit(d, tx)) && !Apart(Commit(d, tx).scans, Commit(d, tx).alerts, calendar)
  {
    hide Integrity, SessionsSince, StillTrue, ReachesBack, Apart, EngineTx, Justified, IsLastAlert, OneScan, Ready, Commit, NewestOn;
    var last := AlertId(RandomScan(2), RULE);
    d := TooCloseStore(calendar, newest, today, cooldown);
    snap := Snap(calendar, today, today, true);
    NewestIsThere(d, calendar, FingerprintOf(TheRule(cooldown)), last, newest);
    FarEnoughRaises(d, 4, cooldown, calendar, last, today, today);
    tx := OneScan(d, 4, cooldown, snap);
    ReadyIsIntact(d, 4, cooldown);
    FifthScan(d, cooldown, calendar, today);
    EngineAlertsAreJustified(d, Head(4, cooldown), snap, "owner", tx);
  }

  /** The scan on `today` raises an alert, which is too close to the first one. */
  lemma FifthScan(d: Disk, cooldown: nat, calendar: seq<Date>, today: Date)
    requires cooldown <= 250 && Ready(d, 4, cooldown) && Raises(d, cooldown, Snap(calendar, today, today, true))
    requires IsOf(d.alerts, AlertId(RandomScan(0), RULE), FingerprintOf(TheRule(cooldown))) && RandomScan(0) in d.scans
    requires d.alerts[AlertId(RandomScan(0), RULE)].scanId == RandomScan(0)
    requires SessionsSince(calendar, d.alerts[AlertId(RandomScan(0), RULE)].evidence.dataDate, today) <= cooldown
    ensures var tx := OneScan(d, 4, cooldown, Snap(calendar, today, today, true));
            && EngineTx(d, Head(4, cooldown), Snap(calendar, today, today, true), "owner", tx) && |tx.alerts| == 1
            && Integrity(Commit(d, tx)) && !Apart(Commit(d, tx).scans, Commit(d, tx).alerts, calendar)
  {
    hide Integrity, SessionsSince, Apart, Raises, EngineTx, HasRoom, AlertOf, OneScan, Ready;
    NextStore(d, 4, cooldown, calendar, today, today, true);
    AfterIsReady(d, 4, cooldown, calendar, today, today, true);
    var e := After(d, 4, cooldown, Snap(calendar, today, today, true));
    AlertIdOf(4, cooldown, calendar, today, today);
    ReadyIsIntact(e, 5, cooldown);
    SequenceOf(e, 5, cooldown, 0);
    SequenceOf(e, 5, cooldown, 4);
    TooCloseIsNotApart(e, calendar, AlertId(RandomScan(0), RULE), AlertId(RandomScan(4), RULE));
  }

  lemma NewestIsThere(d: Disk, calendar: seq<Date>, rule: RuleFingerprint, last: AlertId, newest: Date)
    requires NewestOn(d, calendar, rule, last, newest)
    ensures last in d.alerts && d.alerts[last].evidence.dataDate == newest && Apart(d.scans, d.alerts, calendar)
  {
    hide Integrity, Apart;
  }

  lemma ReadyIsIntact(d: Disk, n: nat, cooldown: int)
    requires Ready(d, n, cooldown)
    ensures Integrity(d)
  {
  }

  lemma TooCloseIsNotApart(d: Disk, calendar: seq<Date>, a: AlertId, b: AlertId)
    requires Precedes(d.scans, d.alerts, a, b)
    requires SessionsSince(calendar, d.alerts[a].evidence.dataDate, d.alerts[b].evidence.dataDate) <= d.alerts[a].ruleFingerprint.spec.cooldown
    ensures !Apart(d.scans, d.alerts, calendar)
  {
    assert !GapOk(calendar, d.alerts[a], d.alerts[b]);
  }

  // ----- where the cutoff is too early

  /** A market whose completed cutoff lies before its data date: the scan is written, and nothing verifies any more. */
  lemma EarlyCutoffBreaksIntegrity(calendar: seq<Date>, day: Date, cutoff: Date) returns (d: Disk, snap: Snapshot, tx: Tx)
    requires cutoff < day
    ensures snap.evidence.dataDate == day && snap.evidence.cutoff == cutoff
    ensures Integrity(d) && EngineTx(d, Head(0, 0), snap, "owner", tx) && HasRoom(d, tx) && !Integrity(Commit(d, tx))
  {
    hide Integrity, EngineTx, HasRoom, Raises, OneScan, Commit, Ready;
    d := Start(0);
    snap := Snap(calendar, day, cutoff, false);
    tx := OneScan(d, 0, 0, snap);
    NothingRaisedYet(0, calendar, day, cutoff);
    ReadyIsIntact(d, 0, 0);
    NextStore(d, 0, 0, calendar, day, cutoff, false);
    CommitIsIntactIffCutoffIsNotEarlier(d, Head(0, 0), snap, "owner", tx);
  }

  /** The same for a scan that fails before any rule was evaluated. */
  lemma EarlyCutoffOfFailureBreaksIntegrity(calendar: seq<Date>, day: Date, cutoff: Date) returns (d: Disk, snap: Snapshot, tx: Tx)
    requires cutoff < day
    ensures snap.evidence.dataDate == day && snap.evidence.cutoff == cutoff
    ensures Integrity(d) && FailedTx(d, Head(0, 0), Some(snap), EmptySweep, "failed", "owner", tx) && !Integrity(Commit(d, tx))
  {
    hide Integrity, Ready, Raises, Commit;
    d := Start(0);
    snap := Snap(calendar, day, cutoff, false);
    tx := Tx(FailedScanFor(Head(0, 0), Some(snap.evidence), EmptySweep, 1, "owner", "failed"), []);
    NothingRaisedYet(0, calendar, day, cutoff);
    ReadyIsIntact(d, 0, 0);
    FailedCommitIsIntactIffCutoffIsNotEarlier(d, Head(0, 0), Some(snap), EmptySweep, "failed", "owner", tx);
  }

  // ----- where the snoozes of a full directory can never expire

  const DAY_ZERO: seq<Date> := [0]

  const FIRST: AlertId := AlertId(RandomScan(0), RULE)

  /** The store after one scan, with one alert. */
  ghost function OneAlert(): Disk {
    After(Start(0), 0, 0, Snap(DAY_ZERO, 0, 0, true))
  }

  lemma OneAlertIsThere()
    ensures Ready(OneAlert(), 1, 0) && OneAlert().alerts == map[FIRST := AlertOf(0, 0, DAY_ZERO, 0, 0)]
    ensures OneAlert().actions == map[] && OneAlert().marker.None?
  {
    hide Ready, Raises, OneScan, AlertOf;
    NothingRaisedYet(0, DAY_ZERO, 0, 0);
    AfterIsReady(Start(0), 0, 0, DAY_ZERO, 0, 0, true);
    StartHasNoAlerts(0);
  }

  /** A run that configures the rule and scans once, file by file. */
  lemma RunToOneAlert() returns (h: seq<Disk>)
    ensures |h| > 0 && Run(DAY_ZERO, h) && h[|h| - 1] == OneAlert()
  {
    hide Step, Run, Raises, OneScan, AlertOf, Commit, Integrity, NextConfig, EngineTx, ScanStep, WriteStep, RecoverStep, HasRoom, Ready;
    var snap := Snap(DAY_ZERO, 0, 0, true);
    var d0, tx := Start(0), OneScan(Start(0), 0, 0, snap);
    h := StartRun();
    NothingRaisedYet(0, DAY_ZERO, 0, 0);
    NextStore(d0, 0, 0, DAY_ZERO, 0, 0, true);
    AlertIdOf(0, 0, DAY_ZERO, 0, 0);
    var d1, d2, d3 := OneScanFileByFile(tx, snap);
    RunGrows(DAY_ZERO, h, d1);
    RunGrows(DAY_ZERO, h + [d1], d2);
    RunGrows(DAY_ZERO, h + [d1] + [d2], d3);
    RunGrows(DAY_ZERO, h + [d1] + [d2] + [d3], Commit(d0, tx));
    h := h + [d1] + [d2] + [d3] + [Commit(d0, tx)];
  }

  lemma StartRun() returns (h: seq<Disk>)
    ensures |h| > 0 && Run(DAY_ZERO, h) && h[|h| - 1] == Start(0)
  {
    hide NextConfig, ScanStep, FailedScanStep, AlertActionStep, NoteActionStep, NotificationStep;
    FirstRevision(0);
    h := [EmptyDisk];
    assert Start(0) == EmptyDisk.(configs := EmptyDisk.configs + [TheConfig(0)]);
    assert ConfigStep(EmptyDisk, Start(0));
    RunGrows(DAY_ZERO, h, Start(0));
    h := h + [Start(0)];
  }

  lemma OneScanFileByFile(tx: Tx, snap: Snapshot) returns (d1: Disk, d2: Disk, d3: Disk)
    requires snap == Snap(DAY_ZERO, 0, 0, true) && EngineTx(Start(0), Head(0, 0), snap, "owner", tx)
    requires |tx.alerts| == 1 && HasRoom(Start(0), tx)
    ensures Step(DAY_ZERO, Start(0), d1) && Step(DAY_ZERO, d1, d2) && Step(DAY_ZERO, d2, d3) && Step(DAY_ZERO, d3, Commit(Start(0), tx))
  {
    hide Step, EngineTx, ScanStep, AlertOf;
    var d0 := Start(0);
    d1 := Begin(d0, tx);
    d2 := d1.(alerts := d1.alerts[tx.alerts[0].id := tx.alerts[0]]);
    d3 := d2.(scans := d2.scans[tx.scan.id := tx.scan]);
    BeginIsAStep(tx, snap);
    ScanStepIsStep(DAY_ZERO, d0, d1);
    assert !Present(d1, tx.alerts, 0);
    assert WriteStep(d1, d2);
    TxStepIsStep(DAY_ZERO, d1, d2);
    assert Present(d2, tx.alerts, 0);
    assert WriteStep(d2, d3);
    TxStepIsStep(DAY_ZERO, d2, d3);
    CommitAlerts(d0, tx);
    assert AllPresent(d3, tx.alerts);
    assert RecoverStep(d3, d3.(marker := None));
    TxStepIsStep(DAY_ZERO, d3, Commit(d0, tx));
  }

  lemma BeginIsAStep(tx: Tx, snap: Snapshot)
    requires snap == Snap(DAY_ZERO, 0, 0, true) && EngineTx(Start(0), Head(0, 0), snap, "owner", tx) && tx.alerts != []
    ensures ScanStep(DAY_ZERO, Start(0), Begin(Start(0), tx))
  {
    hide EngineTx;
    assert Scanned(DAY_ZERO, Start(0), snap, tx);
  }

  /** Acknowledge, dismiss, reopen; then snooze and unsnooze in turn. */
  function VerbAt(i: nat): Verb {
    if i == 0 then Acknowledge else if i == 1 then Dismiss else if i == 2 then Reopen
    else if i % 2 == 1 then Snooze else Unsnooze
  }

  function StatusAt(n: nat): Status {
    if n == 0 then Open else TargetOf(VerbAt(n - 1))
  }

  function ActionAt(n: nat): Action {
    Action(n, OnAlert(FIRST), 0, n + 1, "owner", VerbAt(n), StatusAt(n), TargetOf(VerbAt(n)), "",
           if VerbAt(n).Snooze? then Some(0) else None, AlertFingerprint(AlertOf(0, 0, DAY_ZERO, 0, 0)))
  }

  /** The store with one alert and n actions on it. */
  ghost predicate Acted(d: Disk, n: nat) {
    && d == OneAlert().(actions := d.actions) && d.marker.None?
    && d.alerts == map[FIRST := AlertOf(0, 0, DAY_ZERO, 0, 0)]
    && |d.actions| == n && (forall k | k in d.actions :: k < n)
    && AlertActionsOk(d.alerts, d.actions)
    && |AlertChain(d, FIRST)| == n && StatusAfter(Open, AlertChain(d, FIRST)) == StatusAt(n)
    && (n > 0 ==> AlertChain(d, FIRST)[n - 1] == ActionAt(n - 1))
  }

  lemma NobodyActedYet()
    ensures Acted(OneAlert(), 0)
  {
    hide Ready, AlertOf, OneAlert, Related, Numbered, Linked;
    OneAlertIsThere();
    NoActionsNoChain(map[], OnAlert(FIRST), Open, AlertFingerprint(AlertOf(0, 0, DAY_ZERO, 0, 0)));
  }

  lemma ActionAtIsLawful(n: nat)
    ensures Lawful(ActionAt(n))
    ensures var a := ActionAt(n);
            && a.id == n && a.sequence == n + 1 && a.subject == OnAlert(FIRST) && a.from == StatusAt(n) && a.to == StatusAt(n + 1)
            && a.binding == AlertFingerprint(AlertOf(0, 0, DAY_ZERO, 0, 0))
  {
    hide AlertOf;
  }

  lemma ActionAtIsNext(d: Disk, n: nat)
    requires Acted(d, n) && n < MAX_ACTIONS
    ensures NextAlertAction(d, ActionAt(n))
  {
    hide AlertOf, OneAlert, ChainValid, AlertActionsOk, ActionAt, Lawful, StatusAt, StatusAfter;
    ActionAtIsLawful(n);
    ChainIsThere(d);
    IsNextAction(d, ActionAt(n), FIRST, AlertChain(d, FIRST));
  }

  lemma OneMoreAction(d: Disk, n: nat)
    requires Acted(d, n) && n < MAX_ACTIONS
    ensures NextAlertAction(d, ActionAt(n)) && Acted(d.(actions := Append(d.actions, ActionAt(n))), n + 1)
  {
    hide AlertOf, OneAlert, ChainValid, AlertActionsOk, AlertChain, ActionAt, Lawful, StatusAt, NextAlertAction;
    ActionAtIsLawful(n);
    ActionAtIsNext(d, n);
    HistoriesAfter(d, ActionAt(n));
    OneMoreEach(d.actions, ActionAt(n), {}, FIRST);
  }

  lemma ChainIsThere(d: Disk)
    requires AlertActionsOk(d.alerts, d.actions) && FIRST in d.alerts
    ensures ChainValid(d.actions, OnAlert(FIRST), Open, AlertFingerprint(d.alerts[FIRST]))
  {
    hide ChainValid;
  }

  lemma {:induction false} RunToActions(n: nat) returns (h: seq<Disk>)
    requires n <= MAX_ACTIONS
    ensures |h| > 0 && Run(DAY_ZERO, h) && Acted(h[|h| - 1], n)
    decreases n
  {
    hide Run, Acted, Step, AlertActionStep, NextAlertAction, Append, ActionAt;
    if n == 0 {
      h := RunToOneAlert();
      NobodyActedYet();
    } else {
      h := RunToActions(n - 1);
      var d := h[|h| - 1];
      var e := d.(actions := Append(d.actions, ActionAt(n - 1)));
      OneMoreAction(d, n - 1);
      ActedIsIdle(d, n - 1);
      ActionIsAStep(d, ActionAt(n - 1));
      ActionStepIsStep(DAY_ZERO, d, e);
      RunGrows(DAY_ZERO, h, e);
      h := h + [e];
    }
  }

  lemma ActedIsIdle(d: Disk, n: nat)
    requires Acted(d, n)
    ensures d.marker.None?
  {
    hide AlertActionsOk, OneAlert, AlertOf;
  }

  lemma ActionIsAStep(d: Disk, a: Action)
    requires NextAlertAction(d, a)
    ensures AlertActionStep(d, d.(actions := Append(d.actions, a)))
  {
    hide NextAlertAction, Append;
  }

  /** Some run fills the action directory while a snooze is due, and then no later expiry of it has room. */
  lemma SomeRunGetsStuck() returns (h: seq<Disk>)
    ensures |h| > 0 && Run(DAY_ZERO, h) && h[|h| - 1].marker.None? && |h[|h| - 1].actions| == MAX_ACTIONS
    ensures AlertActionsOk(h[|h| - 1].alerts, h[|h| - 1].actions) && DueSet(h[|h| - 1], 0) != {}
    ensures HasEnabledRules(h[|h| - 1])
  {
    hide Run, AlertActionsOk, AlertChain, OneAlert, AlertOf;
    h := RunToActions(MAX_ACTIONS);
    var d := h[|h| - 1];
    assert VerbAt(MAX_ACTIONS - 1) == Snooze;
    assert Due(AlertChain(d, FIRST), 0);
    assert FIRST in DueSet(d, 0);
    OneAlertHasRules();
  }

  lemma OneAlertHasRules()
    ensures HasEnabledRules(OneAlert())
  {
    hide Ready, Raises, OneScan, AlertOf;
    OneAlertIsThere();
    assert [TheRule(0)][..0] == [];
    assert EnabledRules([TheRule(0)]) == [TheRule(0)];
  }
}
