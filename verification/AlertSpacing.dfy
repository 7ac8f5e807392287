/**
 What the edge trigger and the cooldown add up to over the whole life of a store: any two alerts of
 one rule are more than its cooldown apart, and between them the rule was seen not to hold.
 The market calendar may grow between scans; each scan sees a prefix of it.
 */
module AlertSpacing {
  import opened Common
  import opened MarketCalendar
  import opened MonitoringConfig
  import opened MonitoringRecords
  import opened MonitoringStore
  import opened RuleEngine

  /** Two alerts of one rule and fingerprint, the first from an earlier scan. */
  predicate Precedes(scans: Scans, alerts: Alerts, a: AlertId, b: AlertId) {
    && a in alerts && b in alerts && alerts[a].scanId in scans && alerts[b].scanId in scans
    && alerts[a].rule == alerts[b].rule && alerts[a].ruleFingerprint == alerts[b].ruleFingerprint
    && scans[alerts[a].scanId].sequence < scans[alerts[b].scanId].sequence
  }

  predicate GapOk(calendar: seq<Date>, a: Alert, b: Alert) {
    SessionsSince(calendar, a.evidence.dataDate, b.evidence.dataDate) > a.ruleFingerprint.spec.cooldown
  }

  /** Any two alerts of one rule are more than its cooldown apart, by the distance the program measures. */
  ghost predicate Apart(scans: Scans, alerts: Alerts, calendar: seq<Date>) {
    forall a, b | Precedes(scans, alerts, a, b) :: GapOk(calendar, alerts[a], alerts[b])
  }

  ghost predicate Spaced(scans: Scans, alerts: Alerts, calendar: seq<Date>) {
    && (forall id | id in alerts :: alerts[id].evidence.dataDate in calendar && alerts[id].ruleFingerprint.spec.cooldown >= 0)
    && Apart(scans, alerts, calendar)
  }

  /** No alert was raised while the rule's condition was on record as still true. */
  ghost predicate Rearmed(scans: Scans, alerts: Alerts) {
    forall id | id in alerts && alerts[id].scanId in scans ::
      alerts[id].ruleFingerprint.id == alerts[id].rule
      && !StillTrue(scans, alerts[id].ruleFingerprint, scans[alerts[id].scanId].sequence)
  }

  // ----- the newest alert of a rule

  lemma {:induction false} LastAlertExists(scans: Scans, alerts: Alerts, a: AlertId)
    requires ScansNumbered(scans) && a in alerts && alerts[a].scanId in scans
    requires alerts[a].rule == alerts[a].ruleFingerprint.id
    ensures exists id :: IsLastAlert(scans, alerts, alerts[a].ruleFingerprint, id)
                         && scans[alerts[a].scanId].sequence <= scans[alerts[id].scanId].sequence
    decreases |scans| - scans[alerts[a].scanId].sequence
  {
    if !IsLastAlert(scans, alerts, alerts[a].ruleFingerprint, a) {
      var k :| k in alerts && alerts[k].scanId in scans && alerts[k].rule == alerts[a].rule
        && alerts[k].ruleFingerprint == alerts[a].ruleFingerprint
        && scans[alerts[k].scanId].sequence > scans[alerts[a].scanId].sequence;
      LastAlertExists(scans, alerts, k);
    }
  }

  /** Two alerts of one rule in one scan are the same alert. */
  lemma OnePerScan(d: Disk, a: AlertId, b: AlertId)
    requires Integrity(d) && a in d.alerts && b in d.alerts && d.alerts[a].rule == d.alerts[b].rule
    requires d.scans[d.alerts[a].scanId].sequence == d.scans[d.alerts[b].scanId].sequence
    ensures a == b
  {
    hide ScanWhole, AlertActionsOk, NoteActionsOk, ChainOk, NotificationsBound;
    AlertIdsNameTheirScan(d, a);
    AlertIdsNameTheirScan(d, b);
  }

  /** When a rule is not cooling down, every earlier alert of it is far enough away. */
  lemma NotCoolingMeansFar(d: Disk, calendar: seq<Date>, shorter: seq<Date>, a: AlertId, today: Date)
    requires Integrity(d) && Spaced(d.scans, d.alerts, calendar)
    requires StrictlyAscending(calendar) && shorter <= calendar && today in shorter
    requires a in d.alerts && d.alerts[a].rule == d.alerts[a].ruleFingerprint.id
    requires !CoolingDown(d.scans, d.alerts, d.alerts[a].ruleFingerprint, today, shorter)
    ensures SessionsSince(calendar, d.alerts[a].evidence.dataDate, today) > d.alerts[a].ruleFingerprint.spec.cooldown
  {
    hide ScanWhole, ScansWhole, AlertActionsOk, NoteActionsOk, ChainOk, NotificationsBound, SessionsSince;
    var fp := d.alerts[a].ruleFingerprint;
    AlertIdsNameTheirScan(d, a);
    LastAlertExists(d.scans, d.alerts, a);
    var last :| IsLastAlert(d.scans, d.alerts, fp, last)
      && d.scans[d.alerts[a].scanId].sequence <= d.scans[d.alerts[last].scanId].sequence;
    var between := d.alerts[last].evidence.dataDate;
    PrefixKeepsDistance(shorter, calendar, between, today);
    if Precedes(d.scans, d.alerts, a, last) {
      assert GapOk(calendar, d.alerts[a], d.alerts[last]);
      GapsAddUp(calendar, d.alerts[a].evidence.dataDate, between, today, fp.spec.cooldown);
    } else {
      OnePerScan(d, a, last);
    }
  }

  /** The alert is of this rule, and its days are counted from. */
  predicate IsOf(alerts: Alerts, id: AlertId, rule: RuleFingerprint) {
    id in alerts && alerts[id].rule == rule.id && alerts[id].ruleFingerprint == rule
  }

  /** Today is far enough from every alert of the rule. */
  ghost predicate FarFromAll(alerts: Alerts, rule: RuleFingerprint, today: Date, calendar: seq<Date>) {
    forall a | IsOf(alerts, a, rule) :: SessionsSince(calendar, alerts[a].evidence.dataDate, today) > rule.spec.cooldown
  }

  /**
   The same without the assumption that alert days are sessions: comparing with the newest alert is enough
   whenever its day reaches back.
   */
  lemma NewestAlertIsEnough(d: Disk, calendar: seq<Date>, rule: RuleFingerprint, last: AlertId, today: Date)
    requires Integrity(d) && Apart(d.scans, d.alerts, calendar) && StrictlyAscending(calendar)
    requires IsLastAlert(d.scans, d.alerts, rule, last) && rule.spec.cooldown >= 0
    requires SessionsSince(calendar, d.alerts[last].evidence.dataDate, today) > rule.spec.cooldown
    requires ReachesBack(calendar, d.alerts[last].evidence.dataDate, today, rule.spec.cooldown)
    ensures FarFromAll(d.alerts, rule, today, calendar)
  {
    hide ScanWhole, ScansWhole, AlertActionsOk, NoteActionsOk, ChainOk, NotificationsBound, SessionsSince, ReachesBack;
    forall a | IsOf(d.alerts, a, rule) ensures SessionsSince(calendar, d.alerts[a].evidence.dataDate, today) > rule.spec.cooldown {
      AlertIdsNameTheirScan(d, a);
      if Precedes(d.scans, d.alerts, a, last) {
        assert GapOk(calendar, d.alerts[a], d.alerts[last]);
        NewestIsEnough(calendar, d.alerts[a].evidence.dataDate, d.alerts[last].evidence.dataDate, today, rule.spec.cooldown);
      } else {
        OnePerScan(d, a, last);
      }
    }
  }

  // ----- a scan keeps both

  /** What the engine promises about each alert it raises. */
  ghost predicate Justified(d: Disk, snap: Snapshot, a: Alert) {
    && a.ruleFingerprint.id == a.rule && a.evidence == snap.evidence
    && !StillTrue(d.scans, a.ruleFingerprint, |d.scans| + 1)
    && !CoolingDown(d.scans, d.alerts, a.ruleFingerprint, snap.evidence.dataDate, snap.calendar)
    && a.ruleFingerprint.spec.cooldown >= 0
  }

  lemma FiredIsJustified(d: Disk, head: Header, snap: Snapshot, rules: seq<Rule>, a: Alert)
    requires FiredBy(d, head.config.watchlists, head, snap, rules, a)
    requires forall i | 0 <= i < |rules| :: rules[i].spec.cooldown >= 0
    ensures Justified(d, snap, a)
  {
    hide StillTrue, CoolingDown, Watched;
    var i :| 0 <= i < |rules| && IsAlertOf(d, head.config.watchlists, head, snap, rules[i], a);
  }

  lemma EngineAlertsAreJustified(d: Disk, head: Header, snap: Snapshot, actor: string, tx: Tx)
    requires Integrity(d) && EngineTx(d, head, snap, actor, tx)
    ensures forall i | 0 <= i < |tx.alerts| :: Justified(d, snap, tx.alerts[i])
  {
    hide SweepOf, EnabledRules, Integrity, ChainOk, StateBy, FiredBy, StateRepeats, Justified, Distinct;
    var rules := EnabledRules(head.config.rules);
    IntactChain(d);
    CurrentConfigFacts(d, head.config);
    EnabledAreRules(head.config.rules);
    SweepHasFacts(d, head.config.watchlists, head, snap, rules);
    forall i | 0 <= i < |rules| ensures rules[i].spec.cooldown >= 0 {
      assert rules[i] in head.config.rules;
    }
    forall i | 0 <= i < |tx.alerts| ensures Justified(d, snap, tx.alerts[i]) {
      FiredIsJustified(d, head, snap, rules, tx.alerts[i]);
    }
  }

  /** The alerts of the store after a commit: the old ones, and those of the scan. */
  lemma CommittedAlert(d: Disk, tx: Tx, id: AlertId)
    requires Integrity(d) && TxOk(d, tx) && id in Commit(d, tx).alerts
    ensures id in d.alerts ==> Commit(d, tx).alerts[id] == d.alerts[id] && d.alerts[id].scanId in d.scans
                               && Commit(d, tx).scans[d.alerts[id].scanId] == d.scans[d.alerts[id].scanId]
    ensures id !in d.alerts ==> exists i :: 0 <= i < |tx.alerts| && Commit(d, tx).alerts[id] == tx.alerts[i]
                                            && tx.alerts[i].scanId == tx.scan.id
  {
    hide ScanWhole, ScansWhole, AlertActionsOk, NoteActionsOk, ChainOk, NotificationsBound, AlertBound, EvidenceBound,
      StatesBound, ScanRecordOk;
    CommitKeepsOldAlerts(d, tx);
    TxAlertsNameTheScan(d, tx);
    if id !in d.alerts {
      AsMapMembers(tx.alerts);
      var i :| 0 <= i < |tx.alerts| && tx.alerts[i].id == id;
      AsMapLooksUp(tx.alerts, i);
    } else {
      AlertIdsNameTheirScan(d, id);
    }
  }

  lemma SameLatest(scans: Scans, s: Scan, rule: RuleId, below: int, id: ScanId)
    requires s.id !in scans && s.sequence >= below
    ensures IsLatest(scans[s.id := s], rule, below, id) <==> IsLatest(scans, rule, below, id)
  {
    var after := scans[s.id := s];
    if IsLatest(after, rule, below, id) {
      forall k | k in scans && Records(scans[k], rule) && scans[k].sequence < below
        ensures scans[k].sequence <= scans[id].sequence
      {
        assert Records(after[k], rule);
      }
    }
    if IsLatest(scans, rule, below, id) {
      forall k | k in after && Records(after[k], rule) && after[k].sequence < below
        ensures after[k].sequence <= after[id].sequence
      {
        assert Records(scans[k], rule);
      }
    }
  }

  /** Later scans do not change what was true below a sequence number. */
  lemma LaterScansDoNotMatter(scans: Scans, s: Scan, rule: RuleFingerprint, below: int)
    requires s.id !in scans && s.sequence >= below
    ensures StillTrue(scans[s.id := s], rule, below) == StillTrue(scans, rule, below)
  {
    var after := scans[s.id := s];
    forall id ensures IsLatest(after, rule.id, below, id) <==> IsLatest(scans, rule.id, below, id) {
      SameLatest(scans, s, rule.id, below, id);
    }
    if StillTrue(scans, rule, below) {
      var id :| IsLatest(scans, rule.id, below, id)
        && scans[id].ruleStates[rule.id].fingerprint == rule && scans[id].ruleStates[rule.id].triggered;
      assert IsLatest(after, rule.id, below, id);
    }
    if StillTrue(after, rule, below) {
      var id :| IsLatest(after, rule.id, below, id)
        && after[id].ruleStates[rule.id].fingerprint == rule && after[id].ruleStates[rule.id].triggered;
      assert IsLatest(scans, rule.id, below, id);
    }
  }

  /** A commit keeps the spacing when each of its alerts is justified. */
  lemma CommitKeepsSpacing(d: Disk, calendar: seq<Date>, snap: Snapshot, tx: Tx)
    requires Integrity(d) && TxOk(d, tx) && Spaced(d.scans, d.alerts, calendar)
    requires StrictlyAscending(calendar) && snap.calendar <= calendar && snap.evidence.dataDate in snap.calendar
    requires forall i | 0 <= i < |tx.alerts| :: Justified(d, snap, tx.alerts[i])
    ensures Spaced(Commit(d, tx).scans, Commit(d, tx).alerts, calendar)
  {
    hide Integrity, TxOk, SessionsSince, StillTrue, CoolingDown, Commit;
    var after := Commit(d, tx);
    forall id | id in after.alerts
      ensures after.alerts[id].evidence.dataDate in calendar && after.alerts[id].ruleFingerprint.spec.cooldown >= 0
    {
      CommittedAlert(d, tx, id);
    }
    forall a, b | Precedes(after.scans, after.alerts, a, b) ensures GapOk(calendar, after.alerts[a], after.alerts[b]) {
      CommitGap(d, calendar, snap, tx, a, b);
    }
  }

  lemma CommitGap(d: Disk, calendar: seq<Date>, snap: Snapshot, tx: Tx, a: AlertId, b: AlertId)
    requires Integrity(d) && TxOk(d, tx) && Spaced(d.scans, d.alerts, calendar)
    requires StrictlyAscending(calendar) && snap.calendar <= calendar && snap.evidence.dataDate in snap.calendar
    requires forall i | 0 <= i < |tx.alerts| :: Justified(d, snap, tx.alerts[i])
    requires Precedes(Commit(d, tx).scans, Commit(d, tx).alerts, a, b)
    ensures GapOk(calendar, Commit(d, tx).alerts[a], Commit(d, tx).alerts[b])
  {
    hide SessionsSince, StillTrue, CoolingDown, ScansWhole, AlertActionsOk, NoteActionsOk, ChainOk, NotificationsBound,
      EvidenceBound, StatesBound, ScanRecordOk, AlertBound, AlertsOwned, AsMap, Distinct;
    CommittedAlert(d, tx, a);
    CommittedAlert(d, tx, b);
    if a in d.alerts {
      if b in d.alerts {
        assert Precedes(d.scans, d.alerts, a, b);
      } else {
        NotCoolingMeansFar(d, calendar, snap.calendar, a, snap.evidence.dataDate);
      }
    } else {
      TailIsLast(d, tx, b);
    }
  }

  /** The new scan has the highest number, so none of its alerts precedes another alert. */
  lemma TailIsLast(d: Disk, tx: Tx, b: AlertId)
    requires Integrity(d) && TxOk(d, tx) && b in Commit(d, tx).alerts
    ensures Commit(d, tx).alerts[b].scanId in Commit(d, tx).scans
    ensures Commit(d, tx).scans[Commit(d, tx).alerts[b].scanId].sequence <= tx.scan.sequence
  {
    hide ScansWhole, AlertActionsOk, NoteActionsOk, ChainOk, NotificationsBound,
      EvidenceBound, StatesBound, ScanRecordOk, AlertBound, AlertsOwned, AsMap, Distinct;
    CommittedAlert(d, tx, b);
  }

  lemma CommitKeepsRearmed(d: Disk, snap: Snapshot, tx: Tx)
    requires Integrity(d) && TxOk(d, tx) && Rearmed(d.scans, d.alerts)
    requires forall i | 0 <= i < |tx.alerts| :: Justified(d, snap, tx.alerts[i])
    ensures Rearmed(Commit(d, tx).scans, Commit(d, tx).alerts)
  {
    hide StillTrue, CoolingDown, ScansWhole, AlertActionsOk, NoteActionsOk, ChainOk, NotificationsBound,
      EvidenceBound, StatesBound, ScanRecordOk, AlertBound, AlertsOwned, AsMap, Distinct;
    var after := Commit(d, tx);
    forall id | id in after.alerts && after.alerts[id].scanId in after.scans
      ensures after.alerts[id].ruleFingerprint.id == after.alerts[id].rule
      ensures !StillTrue(after.scans, after.alerts[id].ruleFingerprint, after.scans[after.alerts[id].scanId].sequence)
    {
      CommittedAlert(d, tx, id);
      TailIsLast(d, tx, id);
      LaterScansDoNotMatter(d.scans, tx.scan, after.alerts[id].ruleFingerprint, after.scans[after.alerts[id].scanId].sequence);
    }
  }

  // ----- what the two invariants mean

  /** Any two alerts of a rule are more than its cooldown apart, and the later one has the later data date. */
  lemma AlertsAreFarApart(d: Disk, calendar: seq<Date>, a: AlertId, b: AlertId)
    requires Integrity(d) && Spaced(d.scans, d.alerts, calendar) && StrictlyAscending(calendar)
    requires a in d.alerts && b in d.alerts && a != b
    requires d.alerts[a].rule == d.alerts[b].rule && d.alerts[a].ruleFingerprint == d.alerts[b].ruleFingerprint
    ensures var (early, late) := if Precedes(d.scans, d.alerts, a, b) then (d.alerts[a], d.alerts[b]) else (d.alerts[b], d.alerts[a]);
            && early.evidence.dataDate in calendar && late.evidence.dataDate in calendar
            && early.evidence.dataDate < late.evidence.dataDate
            && IndexOf(calendar, late.evidence.dataDate) - IndexOf(calendar, early.evidence.dataDate) > early.ruleFingerprint.spec.cooldown
  {
    hide ScansWhole, AlertActionsOk, NoteActionsOk, ChainOk, NotificationsBound, AlertsOwned;
    AlertIdsNameTheirScan(d, a);
    AlertIdsNameTheirScan(d, b);
    if d.scans[d.alerts[a].scanId].sequence == d.scans[d.alerts[b].scanId].sequence {
      OnePerScan(d, a, b);
    }
    var early, late := if Precedes(d.scans, d.alerts, a, b) then a else b, if Precedes(d.scans, d.alerts, a, b) then b else a;
    assert Precedes(d.scans, d.alerts, early, late);
    assert GapOk(calendar, d.alerts[early], d.alerts[late]);
    IndexIsMonotone(calendar, d.alerts[early].evidence.dataDate, d.alerts[late].evidence.dataDate);
  }

  lemma {:induction false} LatestExists(scans: Scans, rule: RuleId, below: int, id: ScanId)
    requires ScansNumbered(scans) && id in scans && Records(scans[id], rule) && scans[id].sequence < below
    ensures exists k :: IsLatest(scans, rule, below, k) && scans[id].sequence <= scans[k].sequence
    decreases |scans| - scans[id].sequence
  {
    if !IsLatest(scans, rule, below, id) {
      var k :| k in scans && Records(scans[k], rule) && scans[k].sequence < below && scans[k].sequence > scans[id].sequence;
      LatestExists(scans, rule, below, k);
    }
  }

  /** The scan of an alert recorded its rule as triggered. */
  lemma OwnScanRecords(d: Disk, a: AlertId)
    requires Integrity(d) && a in d.alerts
    ensures d.alerts[a].scanId in d.scans
    ensures var s := d.scans[d.alerts[a].scanId];
            Records(s, d.alerts[a].rule)
            && s.ruleStates[d.alerts[a].rule].triggered
            && s.ruleStates[d.alerts[a].rule].fingerprint == d.alerts[a].ruleFingerprint
  {
    hide ScansWhole, ScanWhole, AlertsOwned, AlertActionsOk, NoteActionsOk, ChainOk, NotificationsBound, ScansNumbered;
    ScanOf(d.configs, d.scans, d.alerts, a);
    var s := d.scans[d.alerts[a].scanId];
    OwnStateRepeats(d.configs, d.alerts, s, a);
  }

  lemma ScanOf(configs: seq<Config>, scans: Scans, alerts: Alerts, a: AlertId)
    requires ScansWhole(configs, alerts, scans) && AlertsOwned(scans, alerts) && a in alerts
    ensures alerts[a].scanId in scans && a in scans[alerts[a].scanId].triggered
    ensures ScanWhole(configs, alerts, scans[alerts[a].scanId])
  {
    hide ScanWhole;
  }

  lemma OwnStateRepeats(configs: seq<Config>, alerts: Alerts, s: Scan, a: AlertId)
    requires ScanWhole(configs, alerts, s) && a in s.triggered
    ensures a in alerts && !s.status.Failed? && alerts[a].rule in s.ruleStates
    ensures StateRepeats(s.ruleStates[alerts[a].rule], alerts[a])
  {
    hide EvidenceBound, StatesBound, MatchesRule, Distinct, StateRepeats;
    var i :| 0 <= i < |s.triggered| && s.triggered[i] == a;
    assert AlertBound(configs[s.configRevision - 1].rules, s, alerts[s.triggered[i]]);
  }

  /**
   Between two alerts of a rule there is a scan that was not failed, that recorded the rule, and that
   found the condition not to hold (or held it for a different rule text): failed scans and
   exclusions never re-arm a rule.
   */
  lemma RuleWasRearmedBetween(d: Disk, a: AlertId, b: AlertId)
    requires Integrity(d) && Rearmed(d.scans, d.alerts) && Precedes(d.scans, d.alerts, a, b)
    ensures exists m :: IsLatest(d.scans, d.alerts[b].rule, d.scans[d.alerts[b].scanId].sequence, m)
                        && d.scans[d.alerts[a].scanId].sequence < d.scans[m].sequence
                        && !(d.scans[m].ruleStates[d.alerts[b].rule].triggered
                             && d.scans[m].ruleStates[d.alerts[b].rule].fingerprint == d.alerts[b].ruleFingerprint)
  {
    hide ScansWhole, AlertActionsOk, NoteActionsOk, ChainOk, NotificationsBound, AlertsOwned, Records;
    OwnScanRecords(d, a);
    var own := d.alerts[a].scanId;
    var below := d.scans[d.alerts[b].scanId].sequence;
    LatestExists(d.scans, d.alerts[b].rule, below, own);
    var m :| IsLatest(d.scans, d.alerts[b].rule, below, m) && d.scans[own].sequence <= d.scans[m].sequence;
    assert !StillTrue(d.scans, d.alerts[b].ruleFingerprint, below);
    assert m != own;
  }
}
