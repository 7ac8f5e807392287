/**
 What each operation of the owner's store promises, as relations between the store before and the
 store after, and the lemmas its methods are proved with.
 */
module ProfileModel {
  import opened Common
  import opened MarketCalendar
  import opened MonitoringConfig
  import opened MonitoringRecords
  import opened ActionChains
  import opened MonitoringStore
  import opened ScanTransaction
  import opened RuleEngine
  import opened AlertSpacing
  import opened MonitoringRuns
  import opened SweepLaws
  import opened WatchlistLaws

  /** What becomes of a file operation; a failing one may have taken effect before it reported the failure. */
  datatype Fault = Works | Fails | FailsAfterwards | LosesPower | LosesPowerAfterwards

  datatype Io = Done | Error | PowerLost

  /** How a scan ended. */
  datatype Outcome =
    | NoRules
    | Reused(scan: Scan)
    | Finished(scan: Scan)
    | Refused(error: Error)
    | Interrupted(io: Io)

  // ----- steps of a run

  lemma RunGrows(calendar: seq<Date>, h: seq<Disk>, e: Disk)
    requires Run(calendar, h) && Step(calendar, h[|h| - 1], e)
    ensures Run(calendar, h + [e])
  {
    hide Step;
    var longer := h + [e];
    forall i | 0 <= i < |longer| - 1 ensures RunStep(calendar, longer, i) {
      if i < |h| - 1 {
        assert RunStep(calendar, h, i);
      }
    }
  }

  lemma TxStepIsStep(calendar: seq<Date>, d: Disk, e: Disk)
    requires d.marker.Some? && (WriteStep(d, e) || RecoverStep(d, e) || LossStep(d, e))
    ensures Step(calendar, d, e)
  {
    hide WriteStep, RecoverStep, LossStep;
  }

  lemma ScanStepIsStep(calendar: seq<Date>, d: Disk, e: Disk)
    requires d.marker.None? && ScanStep(calendar, d, e)
    ensures Step(calendar, d, e)
  {
    hide ScanStep;
  }

  lemma ActionStepIsStep(calendar: seq<Date>, d: Disk, e: Disk)
    requires d.marker.None? && (AlertActionStep(d, e) || NoteActionStep(d, e) || NotificationStep(d, e) || ConfigStep(d, e))
    ensures Step(calendar, d, e)
  {
    hide AlertActionStep, NoteActionStep, NotificationStep, ConfigStep;
  }

  lemma SoundIsWithinCaps(calendar: seq<Date>, d: Disk)
    requires Sound(calendar, d)
    ensures |d.scans| <= MAX_SCANS && |d.alerts| <= MAX_ALERTS && |d.actions| <= MAX_ACTIONS
  {
    hide ChainOk, ScansNumbered, ScansWhole, AlertsOwned, AlertActionsOk, NotificationsBound, NoteActionsOk, Spaced, Rearmed;
  }

  // ----- recovery

  /** What a successful recovery makes of a store. */
  function Recovered(d: Disk): Disk {
    match d.marker
    case None => d
    case Some(m) =>
      if m.scanId in d.scans && AllPresent(d, m.alerts) then d.(marker := None)
      else d.(marker := None, scans := d.scans - {m.scanId}, alerts := d.alerts - AsMap(m.alerts).Keys)
  }

  lemma NothingToRecover(d: Disk)
    requires d.marker.None?
    ensures Recovered(d) == d
  {
  }

  lemma RecoveredIsOldOrNew(base: Disk, tx: Tx, d: Disk)
    requires Fresh(base, tx) && InFlight(base, tx, d)
    ensures Recovered(d) == if tx.scan.id in d.scans && AllPresent(d, tx.alerts) then Commit(base, tx) else base
  {
    hide AllPresent, HasRoom, AsMap, Fresh, InFlight, Commit;
    InFlightHasMarker(base, tx, d);
    if tx.scan.id in d.scans && AllPresent(d, tx.alerts) {
      MarkerRemovedFromWhole(base, tx, d);
    } else {
      StrippedIsOld(base, tx, d);
    }
  }

  lemma StrippedIsOld(base: Disk, tx: Tx, d: Disk)
    requires Fresh(base, tx) && InFlight(base, tx, d)
    ensures d.(marker := None, scans := d.scans - {tx.scan.id}, alerts := d.alerts - AsMap(tx.alerts).Keys) == base
  {
    hide HasRoom, AsMap, Between, Distinct;
    ScansApart(base, tx, d);
    assert d.scans - {tx.scan.id} == base.scans;
    Stripped(base.alerts, d.alerts, AsMap(tx.alerts));
  }

  lemma Stripped(low: Alerts, mid: Alerts, added: Alerts)
    requires Between(low, mid, added) && low.Keys !! added.Keys
    ensures mid - added.Keys == low
  {
  }

  lemma InFlightFrame(base: Disk, tx: Tx, d: Disk)
    requires InFlight(base, tx, d)
    ensures d.configs == base.configs && d.actions == base.actions && base.marker.None?
  {
  }

  lemma CommitFrame(base: Disk, tx: Tx)
    ensures Commit(base, tx).configs == base.configs && Commit(base, tx).actions == base.actions
    ensures Commit(base, tx).marker == base.marker
  {
  }

  lemma StillAbsent(d: Disk, alerts: seq<Alert>, i: nat)
    requires i < |alerts| && forall k | i < k < |alerts| :: !Present(d, alerts, k)
    ensures forall k | i <= k < |alerts| :: !Present(WithoutAlert(d, alerts[i].id), alerts, k)
  {
    forall k | i <= k < |alerts| ensures !Present(WithoutAlert(d, alerts[i].id), alerts, k) {
      assert k > i ==> !Present(d, alerts, k);
    }
  }

  // ----- what earlier scans decide

  /** The state is the one the newest scan above k recorded for the rule. */
  ghost predicate FoundAbove(scans: Scans, rule: RuleId, state: RuleState, k: int) {
    exists id :: IsLatest(scans, rule, |scans| + 1, id) && scans[id].sequence > k && state == scans[id].ruleStates[rule]
  }

  ghost predicate LatestAbove(scans: Scans, states: map<RuleId, RuleState>, k: int) {
    && (forall rule | rule in states :: FoundAbove(scans, rule, states[rule], k))
    && forall id, rule | id in scans && scans[id].sequence > k && Records(scans[id], rule) :: rule in states
  }

  lemma SomeScanHasNumber(scans: Scans, k: nat)
    requires ScansNumbered(scans) && 1 <= k <= |scans|
    ensures exists id :: id in scans && scans[id].sequence == k
  {
    NumbersAreContiguous(scans);
    assert k in Sequences(scans);
  }

  lemma NothingAboveTheNewest(scans: Scans)
    requires ScansNumbered(scans)
    ensures LatestAbove(scans, map[], |scans|)
  {
  }

  lemma OneScanDown(scans: Scans, states: map<RuleId, RuleState>, k: int, id: ScanId)
    requires ScansNumbered(scans) && LatestAbove(scans, states, k) && id in scans && scans[id].sequence == k
    ensures LatestAbove(scans, if scans[id].status.Failed? then states else scans[id].ruleStates + states, k - 1)
  {
    var after := if scans[id].status.Failed? then states else scans[id].ruleStates + states;
    forall rule | rule in after ensures FoundAbove(scans, rule, after[rule], k - 1) {
      if rule in states {
        assert FoundAbove(scans, rule, states[rule], k);
      } else {
        assert IsLatest(scans, rule, |scans| + 1, id);
      }
    }
  }

  lemma StatesAreLatest(scans: Scans, states: map<RuleId, RuleState>)
    requires ScansNumbered(scans) && LatestAbove(scans, states, 0)
    ensures forall fp: RuleFingerprint :: StillTrue(scans, fp, |scans| + 1)
              <==> fp.id in states && states[fp.id].fingerprint == fp && states[fp.id].triggered
  {
    forall fp: RuleFingerprint
      ensures StillTrue(scans, fp, |scans| + 1)
        <==> fp.id in states && states[fp.id].fingerprint == fp && states[fp.id].triggered
    {
      StateDecides(scans, states, fp);
    }
  }

  lemma StateDecides(scans: Scans, states: map<RuleId, RuleState>, fp: RuleFingerprint)
    requires ScansNumbered(scans) && LatestAbove(scans, states, 0)
    ensures StillTrue(scans, fp, |scans| + 1)
        <==> fp.id in states && states[fp.id].fingerprint == fp && states[fp.id].triggered
  {
    if StillTrue(scans, fp, |scans| + 1) {
      var id :| IsLatest(scans, fp.id, |scans| + 1, id)
        && scans[id].ruleStates[fp.id].fingerprint == fp && scans[id].ruleStates[fp.id].triggered;
      assert FoundAbove(scans, fp.id, states[fp.id], 0);
      var other :| IsLatest(scans, fp.id, |scans| + 1, other) && states[fp.id] == scans[other].ruleStates[fp.id];
      assert scans[id].sequence == scans[other].sequence;
    } else if fp.id in states {
      assert FoundAbove(scans, fp.id, states[fp.id], 0);
    }
  }

  lemma LastAlertDecides(d: Disk, rule: RuleFingerprint, last: AlertId, today: Date, calendar: seq<Date>)
    requires Integrity(d) && IsLastAlert(d.scans, d.alerts, rule, last)
    ensures CoolingDown(d.scans, d.alerts, rule, today, calendar)
        <==> SessionsSince(calendar, d.alerts[last].evidence.dataDate, today) <= rule.spec.cooldown
  {
    hide Integrity, SessionsSince;
    if CoolingDown(d.scans, d.alerts, rule, today, calendar) {
      var id :| IsLastAlert(d.scans, d.alerts, rule, id)
        && SessionsSince(calendar, d.alerts[id].evidence.dataDate, today) <= rule.spec.cooldown;
      OnePerScan(d, id, last);
    }
  }

  lemma {:induction false} AbortedSweepStays(d: Disk, ws: seq<Watchlist>, head: Header, snap: Snapshot, rules: seq<Rule>, i: nat)
    requires i <= |rules|
    requires i < |rules| ==> SweepOf(d, ws, head, snap, rules[..i]).aborted.Some?
    ensures SweepOf(d, ws, head, snap, rules) == SweepOf(d, ws, head, snap, rules[..i])
  {
    hide Observe, VerdictOn;
    if i == |rules| {
      assert rules[..i] == rules;
    } else {
      var n := |rules| - 1;
      assert rules[..n][..i] == rules[..i];
      AbortedSweepStays(d, ws, head, snap, rules[..n], i);
    }
  }

  // ----- writing a scan

  const ALERT_WRITE_FAILED := "alert_write_failed"

  function TxFor(d: Disk, head: Header, snap: Snapshot, sweep: Sweep, actor: string): Tx {
    Tx(ScanFor(head, snap, sweep, |d.scans| + 1, actor), sweep.alerts)
  }

  function WriteFailed(sweep: Sweep): Sweep {
    sweep.(exclusions := sweep.exclusions + [Exclusion(None, ALERT_WRITE_FAILED)])
  }

  function FailureFor(d: Disk, head: Header, snap: Snapshot, sweep: Sweep, actor: string): Scan {
    FailedScanFor(head, Some(snap.evidence), WriteFailed(sweep), |d.scans| + 1, actor, ALERT_WRITE_FAILED)
  }

  /** What writing a scan can leave behind, by how it ended. */
  ghost predicate Committed(base: Disk, head: Header, snap: Snapshot, sweep: Sweep, actor: string, d: Disk, outcome: Outcome) {
    var tx := TxFor(base, head, snap, sweep, actor);
    var failed := FailureFor(base, head, snap, sweep, actor);
    match outcome
    case Finished(scan) =>
      || (scan == tx.scan && HasRoom(base, tx) && d == Commit(base, tx))
      || (scan == failed && tx.alerts != [] && |base.scans| < MAX_SCANS && d == Commit(base, Tx(failed, [])))
    case Refused(error) => error == Capacity && |base.scans| >= MAX_SCANS && d == base
    case Interrupted(io) =>
      !io.Done? && (InFlight(base, tx, d) || d == base || d == Commit(base, tx) || d == Commit(base, Tx(failed, [])))
    case _ => false
  }

  lemma OpenedIsFresh(calendar: seq<Date>, d: Disk, snap: Snapshot, tx: Tx)
    requires Opened(calendar, d, snap, tx)
    ensures Fresh(d, tx) && d.marker.None? && |d.alerts| <= MAX_ALERTS
  {
    hide Fresh, TxBound, Integrity, Justified, SeenOn;
    BoundIsFresh(d, tx);
    IntactHasNoMarker(d);
  }

  lemma NothingYet(base: Disk, tx: Tx)
    requires Fresh(base, tx)
    ensures tx.scan.id !in Begin(base, tx).scans && NonePresent(Begin(base, tx), tx.alerts)
  {
    forall i | 0 <= i < |tx.alerts| ensures !Present(Begin(base, tx), tx.alerts, i) {
      AsMapLooksUp(tx.alerts, i);
    }
  }

  lemma MissingAlertHasRoom(base: Disk, tx: Tx, d: Disk, n: nat)
    requires Fresh(base, tx) && InFlight(base, tx, d)
    requires n < |tx.alerts| && !Present(d, tx.alerts, n)
    ensures HasRoom(base, tx) ==> |d.alerts| < MAX_ALERTS
  {
    AsMapSize(tx.alerts);
    AsMapLooksUp(tx.alerts, n);
    var all := base.alerts.Keys + AsMap(tx.alerts).Keys;
    assert |all| == |base.alerts| + |tx.alerts|;
    assert d.alerts.Keys <= all - {tx.alerts[n].id};
    SmallerSet(d.alerts.Keys, all - {tx.alerts[n].id});
  }

  lemma OneMorePresent(base: Disk, tx: Tx, d: Disk, n: nat)
    requires Fresh(base, tx) && n < |tx.alerts|
    requires forall k | 0 <= k < |tx.alerts| :: Present(d, tx.alerts, k) <==> k < n
    ensures var next := d.(alerts := d.alerts[tx.alerts[n].id := tx.alerts[n]]);
            forall k | 0 <= k < |tx.alerts| :: Present(next, tx.alerts, k) <==> k < n + 1
  {
    var next := d.(alerts := d.alerts[tx.alerts[n].id := tx.alerts[n]]);
    forall k | 0 <= k < |tx.alerts| ensures Present(next, tx.alerts, k) <==> k < n + 1 {
      assert Present(d, tx.alerts, k) <==> k < n;
      assert k != n ==> Ids(tx.alerts)[k] != Ids(tx.alerts)[n];
    }
  }

  lemma SameAlertsPresent(d: Disk, e: Disk, alerts: seq<Alert>)
    requires AllPresent(d, alerts) && e.alerts == d.alerts
    ensures AllPresent(e, alerts)
  {
    forall i | 0 <= i < |alerts| ensures Present(e, alerts, i) {
      assert Present(d, alerts, i);
    }
  }

  lemma FullHasNoRoom(base: Disk, tx: Tx, d: Disk)
    requires d.scans == base.scans && |d.scans| >= MAX_SCANS
    ensures !HasRoom(base, tx)
  {
  }

  lemma CommitOfOneScan(d: Disk, scan: Scan)
    ensures Commit(d, Tx(scan, [])) == d.(scans := d.scans[scan.id := scan])
  {
    assert d.alerts + AsMap([]) == d.alerts;
  }

  /** The failed record that replaces a scan whose alerts could not be written is a lawful one. */
  lemma FailureCanBeRecorded(calendar: seq<Date>, d: Disk, head: Header, snap: Snapshot, sweep: Sweep, actor: string)
    requires Sound(calendar, d) && SeenOn(calendar, snap)
    requires sweep == SweepOf(d, head.config.watchlists, head, snap, EnabledRules(head.config.rules))
    requires EngineTx(d, head, snap, actor, TxFor(d, head, snap, sweep, actor))
    ensures FailedTx(d, head, Some(snap), WriteFailed(sweep), ALERT_WRITE_FAILED, actor, Tx(FailureFor(d, head, snap, sweep, actor), []))
    ensures CutoffIsNotEarlier(Some(snap))
  {
    hide SweepOf, EnabledRules, StateBy, FailedScanFor, ScanFor, Integrity, ChainOk;
    IntactChain(d);
    CurrentConfigFacts(d, head.config);
    EnabledAreRules(head.config.rules);
    SweepHasFacts(d, head.config.watchlists, head, snap, EnabledRules(head.config.rules));
    SweepFactsParts(d, head.config.watchlists, head, snap, EnabledRules(head.config.rules), sweep);
  }

  // ----- the scan as a whole

  /** The scan already answers for this snapshot and configuration. */
  predicate Answers(s: Scan, snapshot: SnapshotId, config: ConfigFingerprint) {
    s.status.Succeeded? && s.evidence.Some? && s.evidence.value.snapshotId == snapshot && s.config == config
  }

  /** The current configuration has something to evaluate. */
  predicate HasEnabledRules(d: Disk) {
    d.configs != [] && EnabledRules(d.configs[|d.configs| - 1].rules) != []
  }

  /** The store with one more scan: the engine's, with its alerts, or a failed one that stands alone. */
  ghost predicate ScanRecorded(calendar: seq<Date>, before: Disk, snapshot: Option<Snapshot>, scan: Scan, after: Disk) {
    if scan.status.Failed? then FailedScan(before, Tx(scan, [])) && after == Commit(before, Tx(scan, []))
    else exists alerts :: snapshot.Some? && Scanned(calendar, before, snapshot.value, Tx(scan, alerts))
                          && HasRoom(before, Tx(scan, alerts)) && after == Commit(before, Tx(scan, alerts))
  }

  /** A scan that did not fail has heard every enabled rule. */
  ghost predicate NothingUnheard(calendar: seq<Date>, before: Disk, snapshot: Option<Snapshot>, scan: Scan, after: Disk) {
    scan.status.Failed? || (snapshot.Some? && EveryRuleIsHeard(calendar, before, snapshot.value, scan, after))
  }

  /** No evaluation of an enabled rule raises. */
  ghost predicate NothingRaises(d: Disk, snap: Snapshot) {
    d.configs != [] &&
    var c := d.configs[|d.configs| - 1];
    forall r | r in c.rules && r.spec.enabled && OnAList(c.watchlists, r) :: !snap.evaluate(r).Raises?
  }

  /** There is room for one more scan with an alert of every enabled rule. */
  predicate RoomForAll(d: Disk) {
    d.configs != [] && |d.scans| < MAX_SCANS && |d.alerts| + |EnabledRules(d.configs[|d.configs| - 1].rules)| <= MAX_ALERTS
  }

  /** The scan evaluated every rule of this configuration on this snapshot, without excluding any. */
  predicate CoversAll(s: Scan, snapshot: SnapshotId, config: ConfigFingerprint) {
    s.status != Failed && s.exclusions == [] && s.config == config
    && s.evidence.Some? && s.evidence.value.snapshotId == snapshot
  }

  /** No scan on record has covered the snapshot under the current configuration. */
  predicate NotCovered(d: Disk, snap: Snapshot) {
    d.configs != [] &&
    forall id | id in d.scans ::
      !CoversAll(d.scans[id], snap.evidence.snapshotId, ConfigFingerprint(d.configs[|d.configs| - 1]))
  }

  lemma AnsweringIsCovering(d: Disk, id: ScanId, snapshot: SnapshotId, config: ConfigFingerprint)
    requires Integrity(d) && id in d.scans
    ensures Answers(d.scans[id], snapshot, config) <==> CoversAll(d.scans[id], snapshot, config)
  {
    hide AlertActionsOk, NoteActionsOk, ChainOk, NotificationsBound, AlertsOwned, StatesBound, AlertBound;
    assert ScanWhole(d.configs, d.alerts, d.scans[id]);
  }

  lemma NothingRaisesExactly(calendar: seq<Date>, d: Disk, head: Header, snap: Snapshot, rules: seq<Rule>)
    requires Sound(calendar, d) && StrictlyAscending(calendar) && SeenOn(calendar, snap) && IsCurrent(d, head.config)
    requires rules == EnabledRules(head.config.rules) && DistinctRules(head.config.rules)
    ensures NothingRaises(d, snap) <==> forall i | 0 <= i < |rules| :: !VerdictOn(d, head.config.watchlists, snap, rules[i]).Aborted?
  {
    hide Sound, EnabledRules, VerdictOn, OnAList, SeenOn;
    var ws := head.config.watchlists;
    EnabledAreRules(head.config.rules);
    forall r ensures VerdictOn(d, ws, snap, r).Aborted? <==> OnAList(ws, r) && snap.evaluate(r).Raises? {
      VerdictExactly(calendar, d, ws, snap, r);
    }
    forall i | 0 <= i < |rules| ensures rules[i] in head.config.rules && rules[i].spec.enabled {
      assert rules[i] in rules;
    }
  }

  lemma SweepMayFinish(calendar: seq<Date>, d: Disk, head: Header, snap: Snapshot, rules: seq<Rule>, sweep: Sweep)
    requires Sound(calendar, d) && StrictlyAscending(calendar) && SeenOn(calendar, snap) && IsCurrent(d, head.config)
    requires rules == EnabledRules(head.config.rules) && sweep == SweepOf(d, head.config.watchlists, head, snap, rules)
    ensures NothingRaises(d, snap) <==> sweep.aborted.None?
    ensures DistinctRules(rules)
    ensures |sweep.alerts| <= |rules|
  {
    hide SweepOf, EnabledRules, Integrity, Spaced, Rearmed, VerdictOn, Gathers, Reached, StatesAccount, SeenOn, NothingRaises;
    var ws := head.config.watchlists;
    IntactChain(d);
    CurrentConfigFacts(d, head.config);
    EnabledAreRules(head.config.rules);
    SweepHasFacts(d, ws, head, snap, rules);
    SweepFactsParts(d, ws, head, snap, rules, sweep);
    SweepAccounts(d, ws, head, snap, rules);
    NothingRaisesExactly(calendar, d, head, snap, rules);
  }

  lemma IsEngineTx(d: Disk, head: Header, snap: Snapshot, sweep: Sweep, actor: string)
    requires IsCurrent(d, head.config) && head.scanId !in d.scans && WellTaken(snap.evidence) && sweep.aborted.None?
    requires sweep == SweepOf(d, head.config.watchlists, head, snap, EnabledRules(head.config.rules))
    ensures EngineTx(d, head, snap, actor, TxFor(d, head, snap, sweep, actor))
  {
    hide SweepOf, EnabledRules, ScanFor, WellTaken;
  }

  lemma CommittedIsRecorded(calendar: seq<Date>, base: Disk, head: Header, snap: Snapshot, sweep: Sweep, actor: string, d: Disk, outcome: Outcome)
    requires Sound(calendar, base) && StrictlyAscending(calendar) && SeenOn(calendar, snap)
    requires sweep == SweepOf(base, head.config.watchlists, head, snap, EnabledRules(head.config.rules))
    requires EngineTx(base, head, snap, actor, TxFor(base, head, snap, sweep, actor))
    requires Committed(base, head, snap, sweep, actor, d, outcome)
    ensures match outcome
            case Finished(scan) => ScanRecorded(calendar, base, Some(snap), scan, d) && NothingUnheard(calendar, base, Some(snap), scan, d)
            case Refused(error) => error == Capacity && |base.scans| >= MAX_SCANS && d == base
            case Interrupted(io) => !io.Done?
            case _ => false
  {
    hide SweepOf, EnabledRules, EngineTx, Commit, Sound, SeenOn, FailedTx, InFlight, CutoffIsNotEarlier, EveryRuleIsHeard;
    FailureCanBeRecorded(calendar, base, head, snap, sweep, actor);
    if outcome.Finished? {
      if outcome.scan == FailureFor(base, head, snap, sweep, actor) {
        assert FailedScan(base, Tx(outcome.scan, []));
      } else {
        assert Scanned(calendar, base, snap, Tx(outcome.scan, sweep.alerts));
        FinishedScanHearsEveryRule(calendar, base, snap, Tx(outcome.scan, sweep.alerts));
      }
    }
  }

  lemma FailureIsLawful(calendar: seq<Date>, d: Disk, head: Header, snap: Option<Snapshot>, sweep: Sweep, error: string, actor: string)
    requires Sound(calendar, d) && IsCurrent(d, head.config) && head.scanId !in d.scans
    requires snap.Some? ==> SeenOn(calendar, snap.value) && WellTaken(snap.value.evidence)
                            && sweep == SweepOf(d, head.config.watchlists, head, snap.value, EnabledRules(head.config.rules))
    requires snap.None? ==> sweep == EmptySweep
    ensures var evidence := if snap.Some? then Some(snap.value.evidence) else None;
            var scan := FailedScanFor(head, evidence, sweep, |d.scans| + 1, actor, error);
            scan.status.Failed? && FailedTx(d, head, snap, sweep, error, actor, Tx(scan, [])) && CutoffIsNotEarlier(snap)
  {
    hide SweepOf, EnabledRules, StateBy, Integrity, ChainOk, WellTaken;
    if snap.Some? {
      IntactChain(d);
      CurrentConfigFacts(d, head.config);
      EnabledAreRules(head.config.rules);
      SweepHasFacts(d, head.config.watchlists, head, snap.value, EnabledRules(head.config.rules));
      SweepFactsParts(d, head.config.watchlists, head, snap.value, EnabledRules(head.config.rules), sweep);
    }
  }

  // ----- actions on alerts

  datatype ActionResult = Written(action: Action) | Rejected(error: Error) | Halted(io: Io)

  predicate AlertVerb(v: Verb) {
    v.Acknowledge? || v.Dismiss? || v.Reopen? || v.Snooze? || v.Unsnooze?
  }

  /** The action history of an alert. */
  ghost function AlertChain(d: Disk, id: AlertId): seq<Action>
    requires id in d.alerts && AlertActionsOk(d.alerts, d.actions)
  {
    ChainOf(d.actions, OnAlert(id), Open, AlertFingerprint(d.alerts[id]))
  }

  /** Why an alert action is refused, in the order in which the reasons are looked for. */
  ghost function Refusal(d: Disk, id: AlertId, verb: Verb, until: Option<Date>, expected: Option<StateFingerprint>, today: Date)
      : Option<Error>
  {
    if !AlertVerb(verb) || (verb.Snooze? && until.Some? && until.value < today) then Some(Invalid)
    else if id !in d.alerts then Some(NotFound)
    else if |d.actions| >= MAX_ACTIONS then Some(Capacity)
    else if !ChainValid(d.actions, OnAlert(id), Open, AlertFingerprint(d.alerts[id])) then Some(Invalid)
    else
      var chain := ChainOf(d.actions, OnAlert(id), Open, AlertFingerprint(d.alerts[id]));
      if expected.Some? && expected.value != StateFingerprint(AlertFingerprint(d.alerts[id]), chain) then Some(Conflict)
      else if StatusAfter(Open, chain) !in AllowedFrom(verb) then Some(Conflict)
      else if verb.Snooze? != until.Some? && !verb.Unsnooze? then Some(Invalid)
      else None
  }

  /** What an alert action needs, all of it at once: it is accepted exactly then. */
  lemma AllowedExactly(d: Disk, id: AlertId, verb: Verb, until: Option<Date>, expected: Option<StateFingerprint>, today: Date)
    requires AlertActionsOk(d.alerts, d.actions)
    ensures Refusal(d, id, verb, until, expected, today).None? <==>
              && id in d.alerts && |d.actions| < MAX_ACTIONS
              && verb in {Acknowledge, Dismiss, Reopen, Snooze, Unsnooze}
              && StatusAfter(Open, AlertChain(d, id)) in AllowedFrom(verb)
              && (expected.Some? ==> expected.value == StateFingerprint(AlertFingerprint(d.alerts[id]), AlertChain(d, id)))
              && (verb.Snooze? ==> until.Some? && until.value >= today)
              && (until.Some? ==> verb.Snooze? || verb.Unsnooze?)
  {
    hide ChainValid, StatusAfter;
    assert id in d.alerts ==> ChainValid(d.actions, OnAlert(id), Open, AlertFingerprint(d.alerts[id]));
  }

  lemma SoundChain(calendar: seq<Date>, d: Disk, id: AlertId)
    requires Sound(calendar, d) && id in d.alerts
    ensures AlertActionsOk(d.alerts, d.actions) && ChainValid(d.actions, OnAlert(id), Open, AlertFingerprint(d.alerts[id]))
  {
    hide ChainOk, ScansNumbered, ScansWhole, AlertsOwned, ChainValid, NotificationsBound, NoteActionsOk, Spaced, Rearmed, WithinCaps;
  }

  lemma IsNextAction(d: Disk, a: Action, id: AlertId, chain: seq<Action>)
    requires id in d.alerts && |d.actions| < MAX_ACTIONS && a.id !in d.actions
    requires ChainValid(d.actions, OnAlert(id), Open, AlertFingerprint(d.alerts[id]))
    requires chain == ChainOf(d.actions, OnAlert(id), Open, AlertFingerprint(d.alerts[id]))
    requires a.subject == OnAlert(id) && a.binding == AlertFingerprint(d.alerts[id]) && a.sequence == |chain| + 1
    requires a.from == StatusAfter(Open, chain) && Lawful(a)
    ensures NextAlertAction(d, a)
  {
    hide ChainValid, Lawful;
  }

  /**
   Compare and swap over whole runs: once anybody has acted on an alert, a write that presents a state
   read before that is refused, whatever happened in between and even if the status has come back.
   */
  lemma StaleWriteIsRefused(calendar: seq<Date>, h: seq<Disk>, i: nat, j: nat, id: AlertId, verb: Verb, until: Option<Date>, today: Date)
    requires StrictlyAscending(calendar) && Run(calendar, h) && i <= j < |h|
    requires h[i].marker.None? && h[j].marker.None? && id in h[i].alerts
    requires Related(h[i].actions, OnAlert(id)) != Related(h[j].actions, OnAlert(id))
    ensures AlertActionsOk(h[i].alerts, h[i].actions)
    ensures Refusal(h[j], id, verb, until, Some(StateFingerprint(AlertFingerprint(h[i].alerts[id]), AlertChain(h[i], id))), today).Some?
  {
    hide Run, Sound, Related, AlertActionsOk, ChainValid;
    EveryRunKeepsInv(calendar, h, i);
    EveryRunKeepsInv(calendar, h, j);
    RecordsAreNeverLost(calendar, h, i, j);
    SoundChain(calendar, h[i], id);
    assert (id, h[i].alerts[id]) in h[j].alerts.Items;
    SoundChain(calendar, h[j], id);
    StaleStateNeverMatches(h[i].actions, h[j].actions, OnAlert(id), Open, AlertFingerprint(h[i].alerts[id]));
  }

  // ----- actions on notifications

  predicate NoteVerb(v: Verb) {
    v.MarkRead? || v.MarkUnread? || v.Discard?
  }

  /** The action history of a notification. */
  ghost function NoteChain(d: Disk, id: NotificationId): seq<Action>
    requires id in d.notifications && NoteActionsOk(d.notifications, d.noteActions)
  {
    ChainOf(d.noteActions, OnNotification(id), Unread, NotificationFingerprint(d.notifications[id]))
  }

  /** Why a notification action is refused, in the order in which the reasons are looked for. */
  ghost function NoteRefusal(d: Disk, id: NotificationId, verb: Verb, expected: Option<StateFingerprint>): Option<Error> {
    if !NoteVerb(verb) then Some(Invalid)
    else if id !in d.notifications then Some(NotFound)
    else if |d.noteActions| >= MAX_NOTIFICATION_ACTIONS then Some(Capacity)
    else if !ChainValid(d.noteActions, OnNotification(id), Unread, NotificationFingerprint(d.notifications[id])) then Some(Invalid)
    else
      var chain := ChainOf(d.noteActions, OnNotification(id), Unread, NotificationFingerprint(d.notifications[id]));
      if expected.Some? && expected.value != StateFingerprint(NotificationFingerprint(d.notifications[id]), chain) then Some(Conflict)
      else if StatusAfter(Unread, chain) !in AllowedFrom(verb) then Some(Conflict)
      else None
  }

  lemma NoteAllowedExactly(d: Disk, id: NotificationId, verb: Verb, expected: Option<StateFingerprint>)
    requires NoteActionsOk(d.notifications, d.noteActions)
    ensures NoteRefusal(d, id, verb, expected).None? <==>
              && id in d.notifications && |d.noteActions| < MAX_NOTIFICATION_ACTIONS
              && verb in {MarkRead, MarkUnread, Discard}
              && StatusAfter(Unread, NoteChain(d, id)) in AllowedFrom(verb)
              && (expected.Some? ==> expected.value == StateFingerprint(NotificationFingerprint(d.notifications[id]), NoteChain(d, id)))
  {
    hide ChainValid, StatusAfter;
    assert id in d.notifications ==> ChainValid(d.noteActions, OnNotification(id), Unread, NotificationFingerprint(d.notifications[id]));
  }

  lemma SoundNoteChain(calendar: seq<Date>, d: Disk, id: NotificationId)
    requires Sound(calendar, d) && id in d.notifications
    ensures NoteActionsOk(d.notifications, d.noteActions)
    ensures ChainValid(d.noteActions, OnNotification(id), Unread, NotificationFingerprint(d.notifications[id]))
  {
    hide ChainOk, ScansNumbered, ScansWhole, AlertsOwned, ChainValid, NotificationsBound, AlertActionsOk, Spaced, Rearmed, WithinCaps;
  }

  lemma IsNextNoteAction(d: Disk, a: Action, id: NotificationId, chain: seq<Action>)
    requires id in d.notifications && |d.noteActions| < MAX_NOTIFICATION_ACTIONS && a.id !in d.noteActions
    requires ChainValid(d.noteActions, OnNotification(id), Unread, NotificationFingerprint(d.notifications[id]))
    requires chain == ChainOf(d.noteActions, OnNotification(id), Unread, NotificationFingerprint(d.notifications[id]))
    requires a.subject == OnNotification(id) && a.binding == NotificationFingerprint(d.notifications[id]) && a.sequence == |chain| + 1
    requires a.from == StatusAfter(Unread, chain) && Lawful(a)
    ensures NextNoteAction(d, a)
  {
    hide ChainValid, Lawful;
  }

  /** Compare and swap over whole runs, for the inbox: a write that presents an outdated state is refused. */
  lemma StaleNoteWriteIsRefused(calendar: seq<Date>, h: seq<Disk>, i: nat, j: nat, id: NotificationId, verb: Verb)
    requires StrictlyAscending(calendar) && Run(calendar, h) && i <= j < |h|
    requires h[i].marker.None? && h[j].marker.None? && id in h[i].notifications
    requires Related(h[i].noteActions, OnNotification(id)) != Related(h[j].noteActions, OnNotification(id))
    ensures NoteActionsOk(h[i].notifications, h[i].noteActions)
    ensures NoteRefusal(h[j], id, verb, Some(StateFingerprint(NotificationFingerprint(h[i].notifications[id]), NoteChain(h[i], id)))).Some?
  {
    hide Run, Sound, Related, NoteActionsOk, ChainValid;
    EveryRunKeepsInv(calendar, h, i);
    EveryRunKeepsInv(calendar, h, j);
    RecordsAreNeverLost(calendar, h, i, j);
    SoundNoteChain(calendar, h[i], id);
    assert (id, h[i].notifications[id]) in h[j].notifications.Items;
    SoundNoteChain(calendar, h[j], id);
    StaleStateNeverMatches(h[i].noteActions, h[j].noteActions, OnNotification(id), Unread, NotificationFingerprint(h[i].notifications[id]));
  }

  // ----- expiry of snoozes

  /** The alert is snoozed and its review date has arrived. */
  predicate Due(chain: seq<Action>, asOf: Date) {
    && chain != [] && chain[|chain| - 1].to == Snoozed
    && chain[|chain| - 1].snoozeUntil.Some? && chain[|chain| - 1].snoozeUntil.value <= asOf
  }

  ghost function DueSet(d: Disk, asOf: Date): set<AlertId>
    requires AlertActionsOk(d.alerts, d.actions)
  {
    set id | id in d.alerts && Due(AlertChain(d, id), asOf)
  }

  /** The second store is the first with one unsnooze for each handled alert, and nothing else changed. */
  ghost predicate ExpiredFor(first: Disk, d: Disk, asOf: Date, handled: set<AlertId>) {
    && d == first.(actions := d.actions)
    && AlertActionsOk(first.alerts, first.actions) && AlertActionsOk(d.alerts, d.actions)
    && handled <= DueSet(first, asOf) && |d.actions| == |first.actions| + |handled|
    && forall id | id in first.alerts :: if id in handled then Unsnoozed(AlertChain(first, id), AlertChain(d, id))
                                         else AlertChain(d, id) == AlertChain(first, id)
  }

  predicate Unsnoozed(before: seq<Action>, after: seq<Action>) {
    |after| == |before| + 1 && after[..|before|] == before && after[|before|].verb == Unsnooze && after[|before|].to == Open
  }

  /** The snoozes that were due have been ended, all of them when `complete`. */
  ghost predicate Expired(first: Disk, d: Disk, asOf: Date, complete: bool) {
    exists handled :: ExpiredFor(first, d, asOf, handled) && (complete ==> handled == DueSet(first, asOf))
  }

  lemma NothingExpiredYet(calendar: seq<Date>, d: Disk, asOf: Date)
    requires Sound(calendar, d)
    ensures AlertActionsOk(d.alerts, d.actions) && ExpiredFor(d, d, asOf, {})
  {
    hide ChainOk, ScansNumbered, ScansWhole, AlertsOwned, AlertActionsOk, NotificationsBound, NoteActionsOk, Spaced, Rearmed, WithinCaps;
  }

  /** The directory has room for one unsnooze for each alert that is due. */
  ghost predicate ExpiryFits(d: Disk, asOf: Date)
    requires AlertActionsOk(d.alerts, d.actions)
  {
    |d.actions| + |DueSet(d, asOf)| <= MAX_ACTIONS
  }

  /** An expiry that found the directory full had more to write than there was room for. */
  lemma FullMeansNoFit(first: Disk, d: Disk, asOf: Date, handled: set<AlertId>, id: AlertId)
    requires ExpiredFor(first, d, asOf, handled) && AlertActionsOk(first.alerts, first.actions)
    requires id in DueSet(first, asOf) && id !in handled && |d.actions| >= MAX_ACTIONS
    ensures !ExpiryFits(first, asOf)
  {
    hide AlertActionsOk, DueSet, AlertChain, Unsnoozed;
    SmallerSet(handled + {id}, DueSet(first, asOf));
  }

  lemma CompletedMeansFit(calendar: seq<Date>, first: Disk, d: Disk, asOf: Date)
    requires AlertActionsOk(first.alerts, first.actions) && ExpiredFor(first, d, asOf, DueSet(first, asOf)) && Sound(calendar, d)
    ensures ExpiryFits(first, asOf)
  {
    hide AlertActionsOk, DueSet, AlertChain, Unsnoozed, Sound;
    SoundIsWithinCaps(calendar, d);
  }

  lemma SameSize<K, V>(m: map<K, V>, n: map<K, V>)
    requires m.Items <= n.Items && |m| == |n|
    ensures m == n
  {
    forall k | k in m ensures k in n && n[k] == m[k] {
      assert (k, m[k]) in n.Items;
    }
    SubsetOfSameSize(m.Keys, n.Keys);
  }

  /**
   A full directory stays full and a due alert stays due: once both have come together, no later expiry
   of the run has room, on any later day.
   */
  lemma FullDirectoryStaysStuck(calendar: seq<Date>, h: seq<Disk>, i: nat, j: nat, asOf: Date, later: Date)
    requires StrictlyAscending(calendar) && Run(calendar, h) && i <= j < |h| && asOf <= later
    requires h[i].marker.None? && h[j].marker.None? && |h[i].actions| == MAX_ACTIONS
    requires AlertActionsOk(h[i].alerts, h[i].actions) && DueSet(h[i], asOf) != {}
    ensures AlertActionsOk(h[j].alerts, h[j].actions) && !ExpiryFits(h[j], later)
  {
    hide Run, Sound, AlertActionsOk, AlertChain;
    EveryRunKeepsInv(calendar, h, j);
    SoundIsWithinCaps(calendar, h[j]);
    RecordsAreNeverLost(calendar, h, i, j);
    ItemsSize(h[i].actions, h[j].actions);
    SameSize(h[i].actions, h[j].actions);
    var id := Pick(DueSet(h[i], asOf));
    assert (id, h[i].alerts[id]) in h[j].alerts.Items;
    SoundChain(calendar, h[j], id);
    SameHistory(h[i], h[j], id);
    assert id in DueSet(h[j], later);
    assert |DueSet(h[j], later)| >= 1;
  }

  lemma ItemsSize<K, V>(m: map<K, V>, n: map<K, V>)
    requires m.Items <= n.Items
    ensures |m| <= |n|
  {
    forall k | k in m.Keys ensures k in n.Keys {
      assert (k, m[k]) in n.Items;
    }
    SmallerSet(m.Keys, n.Keys);
  }

  lemma SameHistory(d: Disk, e: Disk, id: AlertId)
    requires AlertActionsOk(d.alerts, d.actions) && AlertActionsOk(e.alerts, e.actions)
    requires id in d.alerts && id in e.alerts && e.alerts[id] == d.alerts[id] && e.actions == d.actions
    ensures AlertChain(e, id) == AlertChain(d, id)
  {
    hide ChainValid;
  }

  lemma ExpiryKeepsMarker(first: Disk, d: Disk, asOf: Date, handled: set<AlertId>)
    requires ExpiredFor(first, d, asOf, handled)
    ensures d.marker == first.marker
  {
  }

  lemma ExpiryKeepsConfigs(d: Disk, e: Disk, asOf: Date)
    requires Expired(d, e, asOf, true)
    ensures e.configs == d.configs && e.marker == d.marker
  {
    hide AlertActionsOk, DueSet, AlertChain;
  }

  lemma ExpiryKeepsScans(d: Disk, e: Disk, asOf: Date, complete: bool)
    requires Expired(d, e, asOf, complete)
    ensures e.scans == d.scans
  {
    hide AlertActionsOk, DueSet, AlertChain;
  }

  /**
   The expiry never conflicts with itself: nobody else has touched an alert that is still waiting, so
   the only reason left to refuse its unsnooze is a full directory.
   */
  lemma OnlyCapacityRefuses(first: Disk, d: Disk, asOf: Date, handled: set<AlertId>, id: AlertId)
    requires ExpiredFor(first, d, asOf, handled) && AlertActionsOk(first.alerts, first.actions)
    requires id in DueSet(first, asOf) && id !in handled && id in first.alerts
    ensures var expected := Some(StateFingerprint(AlertFingerprint(first.alerts[id]), AlertChain(first, id)));
            Refusal(d, id, Unsnooze, None, expected, asOf) == if |d.actions| >= MAX_ACTIONS then Some(Capacity) else None
  {
    hide ChainValid, Linked, Related, Numbered;
    assert AlertChain(d, id) == AlertChain(first, id);
    assert ChainValid(d.actions, OnAlert(id), Open, AlertFingerprint(d.alerts[id]));
  }

  lemma OneMoreEach(actions: Actions, a: Action, handled: set<AlertId>, id: AlertId)
    requires a.id !in actions && id !in handled
    ensures |Append(actions, a)| == |actions| + 1 && |handled + {id}| == |handled| + 1
  {
  }

  /** What an alert's next action does to the history of any alert. */
  lemma HistoryAfter(d: Disk, a: Action, other: AlertId)
    requires AlertActionsOk(d.alerts, d.actions) && NextAlertAction(d, a) && other in d.alerts
    ensures var binding := AlertFingerprint(d.alerts[other]);
            && ChainValid(d.actions, OnAlert(other), Open, binding)
            && ChainValid(Append(d.actions, a), OnAlert(other), Open, binding)
            && ChainOf(Append(d.actions, a), OnAlert(other), Open, binding)
               == if a.subject == OnAlert(other) then ChainOf(d.actions, OnAlert(other), Open, binding) + [a]
                  else ChainOf(d.actions, OnAlert(other), Open, binding)
  {
    hide ChainValid, Linked, Related, Numbered, Append, Lawful;
    if a.subject == OnAlert(other) {
      AppendExtends(d.actions, a, Open, a.binding);
    } else {
      AppendLeavesOthers(d.actions, a, OnAlert(other), Open, AlertFingerprint(d.alerts[other]));
    }
  }

  lemma HistoriesAfter(d: Disk, a: Action)
    requires AlertActionsOk(d.alerts, d.actions) && NextAlertAction(d, a)
    ensures var next := d.(actions := Append(d.actions, a));
            && AlertActionsOk(next.alerts, next.actions)
            && forall other | other in d.alerts ::
                 AlertChain(next, other) == if a.subject == OnAlert(other) then AlertChain(d, other) + [a] else AlertChain(d, other)
  {
    hide ChainValid, Lawful;
    forall other | other in d.alerts
      ensures ChainValid(Append(d.actions, a), OnAlert(other), Open, AlertFingerprint(d.alerts[other]))
      ensures ChainOf(Append(d.actions, a), OnAlert(other), Open, AlertFingerprint(d.alerts[other]))
           == if a.subject == OnAlert(other) then AlertChain(d, other) + [a] else AlertChain(d, other)
    {
      HistoryAfter(d, a, other);
    }
  }

  lemma UnsnoozeReopens(d: Disk, a: Action)
    requires NextAlertAction(d, a) && a.verb == Unsnooze
    ensures a.to == Open && a.id !in d.actions
  {
    hide ChainValid;
  }

  lemma OneMoreExpired(first: Disk, d: Disk, a: Action, asOf: Date, handled: set<AlertId>, id: AlertId)
    requires ExpiredFor(first, d, asOf, handled) && AlertActionsOk(first.alerts, first.actions)
    requires id in DueSet(first, asOf) && id !in handled && id in first.alerts
    requires NextAlertAction(d, a) && a.subject == OnAlert(id) && a.verb == Unsnooze
    ensures ExpiredFor(first, d.(actions := Append(d.actions, a)), asOf, handled + {id})
  {
    hide AlertActionsOk, AlertChain, NextAlertAction, Append, DueSet, Unsnoozed;
    UnsnoozeReopens(d, a);
    OneMoreEach(d.actions, a, handled, id);
    HistoriesAfter(d, a);
    OneMoreUnsnoozed(AlertChain(first, id), a);
  }

  lemma OneMoreUnsnoozed(chain: seq<Action>, a: Action)
    requires a.verb == Unsnooze && a.to == Open
    ensures Unsnoozed(chain, chain + [a])
  {
  }

  /** After a completed expiry none is due any more. */
  lemma NoneLeftDue(first: Disk, d: Disk, asOf: Date)
    requires Expired(first, d, asOf, true) && AlertActionsOk(d.alerts, d.actions)
    ensures DueSet(d, asOf) == {}
  {
    hide ChainValid, AlertActionsOk;
    var handled :| ExpiredFor(first, d, asOf, handled) && handled == DueSet(first, asOf);
    forall id | id in d.alerts ensures !Due(AlertChain(d, id), asOf) {
      assert id in first.alerts;
    }
  }

  /** The day an alert is snoozed until, while it is. */
  function SnoozedUntil(chain: seq<Action>): Option<Date> {
    if chain != [] && chain[|chain| - 1].verb == Snooze then chain[|chain| - 1].snoozeUntil else None
  }

  lemma SnoozedByItsLast(d: Disk, id: AlertId)
    requires AlertActionsOk(d.alerts, d.actions) && id in d.alerts
    ensures var chain := AlertChain(d, id);
            && (SnoozedUntil(chain).Some? <==> StatusAfter(Open, chain) == Snoozed)
            && forall asOf :: Due(chain, asOf) <==> SnoozedUntil(chain).Some? && SnoozedUntil(chain).value <= asOf
  {
    hide ChainValid, Numbered;
    var chain := AlertChain(d, id);
    if chain != [] {
      assert Lawful(chain[|chain| - 1]);
    }
  }

  /**
   A completed expiry on a day ends exactly the snoozes until that day or an earlier one, each by one more
   action that opens the alert; whatever is still snoozed is so until a later day.
   */
  lemma ExpiryIsByDate(first: Disk, d: Disk, asOf: Date)
    requires Expired(first, d, asOf, true) && AlertActionsOk(first.alerts, first.actions) && AlertActionsOk(d.alerts, d.actions)
    ensures d.alerts == first.alerts
    ensures forall id | id in first.alerts ::
              var until := SnoozedUntil(AlertChain(first, id));
              if until.Some? && until.value <= asOf
              then Unsnoozed(AlertChain(first, id), AlertChain(d, id))
              else AlertChain(d, id) == AlertChain(first, id)
    ensures forall id | id in d.alerts && StatusAfter(Open, AlertChain(d, id)) == Snoozed ::
              SnoozedUntil(AlertChain(d, id)).Some? && SnoozedUntil(AlertChain(d, id)).value > asOf
  {
    hide AlertActionsOk, AlertChain, Due, Unsnoozed, StatusAfter, SnoozedUntil;
    NoneLeftDue(first, d, asOf);
    var handled :| ExpiredFor(first, d, asOf, handled) && handled == DueSet(first, asOf);
    forall id | id in first.alerts
      ensures id in handled <==> SnoozedUntil(AlertChain(first, id)).Some? && SnoozedUntil(AlertChain(first, id)).value <= asOf
    {
      SnoozedByItsLast(first, id);
    }
    forall id | id in d.alerts && StatusAfter(Open, AlertChain(d, id)) == Snoozed
      ensures SnoozedUntil(AlertChain(d, id)).Some? && SnoozedUntil(AlertChain(d, id)).value > asOf
    {
      SnoozedByItsLast(d, id);
      assert id !in DueSet(d, asOf);
    }
  }

  // ----- notifications

  /** Creating a missing notification leaves one less missing. */
  lemma OneMissingLess(d: Disk, id: NotificationId)
    requires Integrity(d) && id in Missing(d)
    ensures Missing(d)[id].id == id && NextNotification(d, Missing(d)[id])
    ensures Missing(d.(notifications := d.notifications[id := Missing(d)[id]])) == Missing(d) - {id}
    ensures |Missing(d) - {id}| < |Missing(d)|
  {
    hide ScansWhole, AlertActionsOk, NoteActionsOk, ChainOk, NotificationsBound, AlertsOwned, Expected;
    OwnedIds(d.scans, d.alerts);
    ExpectedUnderItsId(d.scans, d.alerts, id);
    OneKeyLess(d.notifications, Expected(d.scans, d.alerts), id);
  }

  lemma ExpectedUnderItsId(scans: Scans, alerts: Alerts, id: NotificationId)
    requires forall a | a in alerts :: alerts[a].id == a
    requires forall s | s in scans :: scans[s].id == s
    requires id in Expected(scans, alerts)
    ensures Expected(scans, alerts)[id].id == id
  {
    hide Sources;
  }

  lemma OneKeyLess<K, V>(some: map<K, V>, all: map<K, V>, k: K)
    requires k in all - some.Keys
    ensures all - some[k := all[k]].Keys == (all - some.Keys) - {k}
    ensures |(all - some.Keys) - {k}| < |all - some.Keys|
  {
    assert ((all - some.Keys) - {k}).Keys == (all - some.Keys).Keys - {k};
  }

  /** The store once everything notifiable has its notification. */
  function Materialized(d: Disk): Disk {
    d.(notifications := Expected(d.scans, d.alerts))
  }

  lemma NothingMissing(d: Disk)
    requires Integrity(d) && Missing(d) == map[]
    ensures d.notifications == Expected(d.scans, d.alerts)
  {
    hide Missing, Expected, Integrity;
    NotificationCapIsNeverHit(d);
  }

  // ----- configuration edits

  datatype EditResult = Edited(config: Config) | NotEdited(error: Error) | EditHalted(io: Io)

  /** The revision is the one the edit of that watchlist leads to. */
  ghost predicate IsEditOf(configs: seq<Config>, id: WatchlistId, edit: Edit, at: nat, configId: nat, now: Stamp, actor: string,
                           action: string, config: Config)
    requires at < |CurrentWatchlists(configs)|
  {
    && CurrentWatchlists(configs)[at].id == id
    && var lists := MutatedLists(edit, at, CurrentWatchlists(configs), CurrentRules(configs), now);
       lists.Ok? && NextConfig(configs, lists.value.0, lists.value.1, configId, now, actor, action) == Ok(config)
  }

  /** The list with that id was changed as asked, and nothing else was. */
  ghost predicate ChangedAsAsked(configs: seq<Config>, id: WatchlistId, edit: Edit, now: Stamp, after: Config) {
    exists at :: 0 <= at < |CurrentWatchlists(configs)| && CurrentWatchlists(configs)[at].id == id
                 && DoesAsAsked(edit, CurrentWatchlists(configs)[at], configs[|configs| - 1], after, now)
  }

  lemma EditIsAsAsked(configs: seq<Config>, id: WatchlistId, edit: Edit, at: nat, configId: nat, now: Stamp, actor: string,
                      action: string, config: Config)
    requires ChainOk(configs) && at < |CurrentWatchlists(configs)| && IsEditOf(configs, id, edit, at, configId, now, actor, action, config)
    ensures ChangedAsAsked(configs, id, edit, now, config)
  {
    hide ChainOk, MutatedLists, NextConfig, DoesAsAsked;
    EditDoesAsAsked(configs, edit, at, configId, now, actor, action, config);
  }

  lemma EditErrors(edit: Edit, at: nat, ws: seq<Watchlist>, rules: seq<Rule>, now: Stamp)
    requires at < |ws| && MutatedLists(edit, at, ws, rules, now).Err?
    ensures var e := MutatedLists(edit, at, ws, rules, now).error;
            e == Capacity || (e == Invalid && edit.Rename? && !NameOk(edit.name))
  {
  }

  lemma WriterErrors(configs: seq<Config>, ws: seq<Watchlist>, rules: seq<Rule>, id: nat, now: Stamp, actor: string, action: string)
    requires NormalizeWatchlists(ws).Ok? && NormalizeRules(rules, NormalizeWatchlists(ws).value).Ok?
    requires NextConfig(configs, ws, rules, id, now, actor, action).Err?
    ensures NextConfig(configs, ws, rules, id, now, actor, action).error == Capacity
  {
    hide NormalizeWatchlists, NormalizeRules;
  }
}
