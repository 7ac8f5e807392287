/**
 One scan of the enabled rules (monitoring.py, `scan_profile`): edge-triggered alerts with a
 cooldown, decided from the latest recorded rule states and the latest alert of each rule.
 How a rule's condition is measured on the market is left to an arbitrary function.
 */
module RuleEngine {
  import opened Common
  import opened MarketCalendar
  import opened MonitoringConfig
  import opened MonitoringRecords
  import opened MonitoringStore

  /** What `_evaluate_rule` reports; it may also raise. */
  datatype Evaluation =
    | Excluded(code: string)
    | Observed(triggered: bool, value: Option<real>, source: string, digest: Option<Digest>)
    | Raises(message: string)

  /** A validated snapshot, with the market calendar and the evaluation of each rule on it. */
  datatype Snapshot = Snapshot(evidence: Evidence, calendar: seq<Date>, evaluate: Rule -> Evaluation)

  // ----- what is remembered of earlier scans

  /** The scan is not failed and recorded a state of the rule. */
  predicate Records(s: Scan, rule: RuleId) {
    !s.status.Failed? && rule in s.ruleStates
  }

  /** The newest non-failed scan that recorded the rule, below a sequence number. */
  ghost predicate IsLatest(scans: Scans, rule: RuleId, below: int, id: ScanId) {
    && id in scans && Records(scans[id], rule) && scans[id].sequence < below
    && forall k | k in scans && Records(scans[k], rule) && scans[k].sequence < below ::
         scans[k].sequence <= scans[id].sequence
  }

  /** The condition was already true, for this very rule, when it was last recorded. */
  ghost predicate StillTrue(scans: Scans, rule: RuleFingerprint, below: int) {
    exists id :: IsLatest(scans, rule.id, below, id)
      && scans[id].ruleStates[rule.id].fingerprint == rule && scans[id].ruleStates[rule.id].triggered
  }

  /** The alert is the newest of its rule and fingerprint. */
  ghost predicate IsLastAlert(scans: Scans, alerts: Alerts, rule: RuleFingerprint, id: AlertId) {
    && id in alerts && alerts[id].scanId in scans
    && alerts[id].rule == rule.id && alerts[id].ruleFingerprint == rule
    && forall k | k in alerts && alerts[k].scanId in scans && alerts[k].rule == rule.id && alerts[k].ruleFingerprint == rule ::
         scans[alerts[k].scanId].sequence <= scans[alerts[id].scanId].sequence
  }

  ghost predicate CoolingDown(scans: Scans, alerts: Alerts, rule: RuleFingerprint, today: Date, calendar: seq<Date>) {
    exists id :: IsLastAlert(scans, alerts, rule, id)
      && SessionsSince(calendar, alerts[id].evidence.dataDate, today) <= rule.spec.cooldown
  }

  // ----- one rule

  datatype Verdict = Skipped(code: string) | Aborted(message: string) | Quiet | Suppressed(why: SuppressReason) | Fires

  predicate Watched(ws: seq<Watchlist>, r: Rule) {
    exists i | 0 <= i < |ws| :: ws[i].id == r.spec.watchlistId && ws[i].enabled && r.spec.symbol in ws[i].symbols
  }

  ghost function VerdictOn(d: Disk, ws: seq<Watchlist>, snap: Snapshot, r: Rule): Verdict {
    if !Watched(ws, r) then Skipped("watchlist_disabled") else
      match snap.evaluate(r)
      case Excluded(code) => Skipped(code)
      case Raises(message) => Aborted(message)
      case Observed(triggered, value, source, digest) =>
        if !triggered then Quiet
        else if StillTrue(d.scans, FingerprintOf(r), |d.scans| + 1) then Suppressed(ConditionStillTrue)
        else if CoolingDown(d.scans, d.alerts, FingerprintOf(r), snap.evidence.dataDate, snap.calendar) then Suppressed(Cooldown)
        else Fires
  }

  function StateFor(snap: Snapshot, r: Rule): RuleState
    requires snap.evaluate(r).Observed?
  {
    RuleState(FingerprintOf(r), snap.evaluate(r).triggered, snap.evaluate(r).value, snap.evidence.dataDate)
  }

  /** Everything an alert record is built from besides the rule and its evaluation. */
  datatype Header = Header(scanId: ScanId, config: Config, now: Stamp)

  function AlertFor(head: Header, snap: Snapshot, r: Rule): Alert
    requires snap.evaluate(r).Observed?
  {
    var result := snap.evaluate(r);
    var e := snap.evidence;
    Alert(AlertId(head.scanId, r.id), head.scanId, e, head.config.revision, ConfigFingerprint(head.config),
          r.id, FingerprintOf(r), r.spec.watchlistId, r.spec.symbol, r.spec.ruleType, r.spec.operator,
          r.spec.threshold, r.spec.severity, result.value, result.source, result.digest,
          EvidenceFingerprint(e.snapshotId, e.manifest, result.digest, FingerprintOf(r), result.value,
                              r.spec.threshold, e.dataDate),
          head.now)
  }

  // ----- the loop over the enabled rules

  /** What the loop has collected so far. */
  datatype Sweep = Sweep(
    states: map<RuleId, RuleState>, alerts: seq<Alert>, suppressed: seq<Suppression>,
    exclusions: seq<Exclusion>, aborted: Option<string>)

  const EmptySweep := Sweep(map[], [], [], [], None)

  function Observe(sweep: Sweep, head: Header, snap: Snapshot, r: Rule, v: Verdict): Sweep
    requires v.Quiet? || v.Suppressed? || v.Fires? ==> snap.evaluate(r).Observed?
  {
    match v
    case Skipped(code) => sweep.(exclusions := sweep.exclusions + [Exclusion(Some(r.id), code)])
    case Aborted(message) => sweep.(aborted := Some(message))
    case Quiet => sweep.(states := sweep.states[r.id := StateFor(snap, r)])
    case Suppressed(why) =>
      sweep.(states := sweep.states[r.id := StateFor(snap, r)],
             suppressed := sweep.suppressed + [Suppression(r.id, r.spec.symbol, why)])
    case Fires =>
      sweep.(states := sweep.states[r.id := StateFor(snap, r)], alerts := sweep.alerts + [AlertFor(head, snap, r)])
  }

  /** The loop stops at the first rule whose evaluation raises. */
  ghost function SweepOf(d: Disk, ws: seq<Watchlist>, head: Header, snap: Snapshot, rules: seq<Rule>): Sweep {
    if rules == [] then EmptySweep else
      var n := |rules| - 1;
      var before := SweepOf(d, ws, head, snap, rules[..n]);
      if before.aborted.Some? then before
      else Observe(before, head, snap, rules[n], VerdictOn(d, ws, snap, rules[n]))
  }

  function EnabledRules(rules: seq<Rule>): (r: seq<Rule>) {
    if rules == [] then [] else
      var before := EnabledRules(rules[..|rules| - 1]);
      if rules[|rules| - 1].spec.enabled then before + [rules[|rules| - 1]] else before
  }

  lemma {:induction false} EnabledAreRules(rules: seq<Rule>)
    requires DistinctRules(rules)
    ensures forall r :: r in EnabledRules(rules) <==> r in rules && r.spec.enabled
    ensures DistinctRules(EnabledRules(rules)) && |EnabledRules(rules)| <= |rules|
  {
    if rules != [] {
      var n := |rules| - 1;
      EnabledAreRules(rules[..n]);
      assert rules == rules[..n] + [rules[n]];
      var before := EnabledRules(rules[..n]);
      forall i | 0 <= i < |before| ensures before[i].id != rules[n].id {
        assert before[i] in rules[..n];
        var k :| 0 <= k < n && rules[k] == before[i];
      }
    }
  }

  // ----- what the sweep collects

  ghost predicate IsAlertOf(d: Disk, ws: seq<Watchlist>, head: Header, snap: Snapshot, r: Rule, a: Alert) {
    snap.evaluate(r).Observed? && VerdictOn(d, ws, snap, r).Fires? && a == AlertFor(head, snap, r)
  }

  /** An alert of the sweep belongs to a rule that fired. */
  ghost predicate FiredBy(d: Disk, ws: seq<Watchlist>, head: Header, snap: Snapshot, rules: seq<Rule>, a: Alert) {
    exists i :: 0 <= i < |rules| && IsAlertOf(d, ws, head, snap, rules[i], a)
  }

  /** A recorded state belongs to a rule that was observed. */
  ghost predicate StateBy(snap: Snapshot, rules: seq<Rule>, id: RuleId, state: RuleState) {
    exists i :: 0 <= i < |rules| && rules[i].id == id && snap.evaluate(rules[i]).Observed? && state == StateFor(snap, rules[i])
  }

  ghost predicate SweepFacts(d: Disk, ws: seq<Watchlist>, head: Header, snap: Snapshot, rules: seq<Rule>, sweep: Sweep) {
    && (forall k | 0 <= k < |sweep.alerts| ::
          FiredBy(d, ws, head, snap, rules, sweep.alerts[k])
          && sweep.alerts[k].rule in sweep.states && StateRepeats(sweep.states[sweep.alerts[k].rule], sweep.alerts[k]))
    && (forall id | id in sweep.states :: StateBy(snap, rules, id, sweep.states[id]))
    && Distinct(Ids(sweep.alerts))
    && |sweep.alerts| <= |rules|
  }

  lemma FactsCarryOver(d: Disk, ws: seq<Watchlist>, head: Header, snap: Snapshot, rules: seq<Rule>, r: Rule, sweep: Sweep)
    requires SweepFacts(d, ws, head, snap, rules, sweep)
    ensures SweepFacts(d, ws, head, snap, rules + [r], sweep)
  {
    hide StateRepeats, StateFor, IsAlertOf;
    var longer := rules + [r];
    forall k | 0 <= k < |sweep.alerts| ensures FiredBy(d, ws, head, snap, longer, sweep.alerts[k]) {
      var i :| 0 <= i < |rules| && IsAlertOf(d, ws, head, snap, rules[i], sweep.alerts[k]);
      assert longer[i] == rules[i];
    }
    forall id | id in sweep.states ensures StateBy(snap, longer, id, sweep.states[id]) {
      var i :| 0 <= i < |rules| && rules[i].id == id && snap.evaluate(rules[i]).Observed? && sweep.states[id] == StateFor(snap, rules[i]);
      assert longer[i] == rules[i];
    }
  }

  /** Alerts of earlier rules are neither about the next rule nor filed under its id. */
  lemma EarlierAlertsDiffer(d: Disk, ws: seq<Watchlist>, head: Header, snap: Snapshot, rules: seq<Rule>, r: Rule, sweep: Sweep)
    requires SweepFacts(d, ws, head, snap, rules, sweep)
    requires forall i | 0 <= i < |rules| :: rules[i].id != r.id
    ensures forall k | 0 <= k < |sweep.alerts| :: sweep.alerts[k].rule != r.id && sweep.alerts[k].id != AlertId(head.scanId, r.id)
  {
    hide VerdictOn, StateRepeats;
    forall k | 0 <= k < |sweep.alerts| ensures sweep.alerts[k].rule != r.id && sweep.alerts[k].id != AlertId(head.scanId, r.id) {
      var i :| 0 <= i < |rules| && IsAlertOf(d, ws, head, snap, rules[i], sweep.alerts[k]);
    }
  }

  /** What a verdict says about the evaluation it was reached on. */
  lemma VerdictMeans(d: Disk, ws: seq<Watchlist>, head: Header, snap: Snapshot, r: Rule)
    ensures var v := VerdictOn(d, ws, snap, r);
            && (v.Quiet? || v.Suppressed? || v.Fires? ==> snap.evaluate(r).Observed?)
            && (v.Fires? ==> IsAlertOf(d, ws, head, snap, r, AlertFor(head, snap, r))
                             && StateRepeats(StateFor(snap, r), AlertFor(head, snap, r)))
  {
    hide StillTrue, CoolingDown, Watched;
  }

  lemma ObserveKeepsFacts(d: Disk, ws: seq<Watchlist>, head: Header, snap: Snapshot, rules: seq<Rule>, r: Rule, sweep: Sweep)
    requires SweepFacts(d, ws, head, snap, rules, sweep)
    requires forall i | 0 <= i < |rules| :: rules[i].id != r.id
    ensures SweepFacts(d, ws, head, snap, rules + [r], Observe(sweep, head, snap, r, VerdictOn(d, ws, snap, r)))
  {
    hide VerdictOn, IsAlertOf, StateRepeats, StateFor;
    var v := VerdictOn(d, ws, snap, r);
    VerdictMeans(d, ws, head, snap, r);
    FactsCarryOver(d, ws, head, snap, rules, r, sweep);
    EarlierAlertsDiffer(d, ws, head, snap, rules, r, sweep);
    var longer := rules + [r];
    assert longer[|rules|] == r;
    if v.Fires? {
      assert FiredBy(d, ws, head, snap, longer, AlertFor(head, snap, r));
    }
    if snap.evaluate(r).Observed? {
      assert StateBy(snap, longer, r.id, StateFor(snap, r));
    }
  }

  lemma {:induction false} SweepHasFacts(d: Disk, ws: seq<Watchlist>, head: Header, snap: Snapshot, rules: seq<Rule>)
    requires DistinctRules(rules)
    ensures SweepFacts(d, ws, head, snap, rules, SweepOf(d, ws, head, snap, rules))
  {
    hide SweepFacts, Observe, VerdictOn;
    if rules == [] {
      EmptyFacts(d, ws, head, snap);
    } else {
      var n := |rules| - 1;
      SweepHasFacts(d, ws, head, snap, rules[..n]);
      assert rules == rules[..n] + [rules[n]];
      var before := SweepOf(d, ws, head, snap, rules[..n]);
      FactsCarryOver(d, ws, head, snap, rules[..n], rules[n], before);
      ObserveKeepsFacts(d, ws, head, snap, rules[..n], rules[n], before);
    }
  }

  lemma EmptyFacts(d: Disk, ws: seq<Watchlist>, head: Header, snap: Snapshot)
    ensures SweepFacts(d, ws, head, snap, [], EmptySweep)
  {
  }

  // ----- the scan records

  /** The record of a completed scan. */
  function ScanFor(head: Header, snap: Snapshot, sweep: Sweep, sequence: nat, actor: string): Scan {
    Scan(head.scanId, head.now, actor, sequence, if sweep.exclusions == [] then Succeeded else Partial,
         head.config.revision, ConfigFingerprint(head.config), Some(snap.evidence), sweep.states,
         Ids(sweep.alerts), sweep.suppressed, sweep.exclusions, None)
  }

  /** `_failed_scan_record`: never any alerts; the evidence only when there was a snapshot. */
  function FailedScanFor(head: Header, evidence: Option<Evidence>, sweep: Sweep, sequence: nat, actor: string, error: string): Scan {
    Scan(head.scanId, head.now, actor, sequence, Failed, head.config.revision, ConfigFingerprint(head.config),
         evidence, if evidence.Some? then sweep.states else map[], [], sweep.suppressed, sweep.exclusions, Some(error))
  }

  /** How `snapshot` builds its evidence. */
  predicate WellTaken(e: Evidence) {
    e.snapshotId == SnapshotId(e.dataDate, e.digest[..12]) && e.latestCommonSession == e.dataDate
  }

  predicate IsCurrent(d: Disk, c: Config) {
    d.configs != [] && d.configs[|d.configs| - 1] == c
  }

  lemma StatesAreBound(d: Disk, head: Header, snap: Snapshot, rules: seq<Rule>, sweep: Sweep, s: Scan)
    requires forall id | id in sweep.states :: StateBy(snap, rules, id, sweep.states[id])
    requires rules == EnabledRules(head.config.rules) && DistinctRules(head.config.rules)
    requires s.ruleStates == sweep.states || s.ruleStates.Keys == {}
    ensures StatesBound(head.config.rules, s)
    ensures forall id | id in s.ruleStates :: s.ruleStates[id].dataDate == snap.evidence.dataDate
  {
    EnabledAreRules(head.config.rules);
    forall id | id in s.ruleStates
      ensures HasRule(head.config.rules, id, s.ruleStates[id].fingerprint) && s.ruleStates[id].dataDate == snap.evidence.dataDate
    {
      var i :| 0 <= i < |rules| && rules[i].id == id && snap.evaluate(rules[i]).Observed? && sweep.states[id] == StateFor(snap, rules[i]);
      assert rules[i] in rules;
      var k :| 0 <= k < |head.config.rules| && head.config.rules[k] == rules[i];
    }
  }

  lemma AlertsAreBound(d: Disk, ws: seq<Watchlist>, head: Header, snap: Snapshot, sweep: Sweep, s: Scan, k: nat)
    requires DistinctRules(head.config.rules)
    requires SweepFacts(d, ws, head, snap, EnabledRules(head.config.rules), sweep) && k < |sweep.alerts|
    requires s.id == head.scanId && s.evidence == Some(snap.evidence) && s.ruleStates == sweep.states
    requires s.configRevision == head.config.revision && s.config == ConfigFingerprint(head.config)
    ensures AlertBound(head.config.rules, s, sweep.alerts[k])
  {
    hide VerdictOn;
    var rules := EnabledRules(head.config.rules);
    EnabledAreRules(head.config.rules);
    var i :| 0 <= i < |rules| && IsAlertOf(d, ws, head, snap, rules[i], sweep.alerts[k]);
    assert rules[i] in rules;
    var j :| 0 <= j < |head.config.rules| && head.config.rules[j] == rules[i];
    assert MatchesRule(sweep.alerts[k], head.config.rules[j]);
  }

  /** What one run of the engine hands to the writer. */
  ghost predicate EngineTx(d: Disk, head: Header, snap: Snapshot, actor: string, tx: Tx) {
    var sweep := SweepOf(d, head.config.watchlists, head, snap, EnabledRules(head.config.rules));
    && IsCurrent(d, head.config)
    && head.scanId !in d.scans
    && WellTaken(snap.evidence)
    && sweep.aborted.None?
    && tx == Tx(ScanFor(head, snap, sweep, |d.scans| + 1, actor), sweep.alerts)
  }

  lemma ScanRecordIsOk(head: Header, snap: Snapshot, sweep: Sweep, sequence: nat, actor: string)
    requires 1 <= sequence && WellTaken(snap.evidence) && snap.evidence.cutoff >= snap.evidence.dataDate
    requires forall id | id in sweep.states :: sweep.states[id].dataDate == snap.evidence.dataDate
    ensures var s := ScanFor(head, snap, sweep, sequence, actor);
            (sequence <= MAX_SCANS ==> ScanRecordOk(s)) && EvidenceBound(s)
  {
  }

  lemma IntactChain(d: Disk)
    requires Integrity(d)
    ensures ChainOk(d.configs) && d.marker.None?
  {
  }

  /** The engine's scan is always well bound, provided the completed cutoff is not before the data date. */
  lemma EngineTxIsBound(d: Disk, head: Header, snap: Snapshot, actor: string, tx: Tx)
    requires Integrity(d) && EngineTx(d, head, snap, actor, tx)
    requires snap.evidence.cutoff >= snap.evidence.dataDate
    ensures TxBound(d, tx) && |tx.alerts| <= MAX_RULES
  {
    hide SweepOf, AlertBound, StatesBound, SweepFacts, EnabledRules, Integrity, Distinct, ChainOk, ScanRecordOk,
      EvidenceBound, WellTaken, StateBy;
    var rules := EnabledRules(head.config.rules);
    var sweep := SweepOf(d, head.config.watchlists, head, snap, rules);
    IntactChain(d);
    CurrentConfigFacts(d, head.config);
    EnabledAreRules(head.config.rules);
    SweepHasFacts(d, head.config.watchlists, head, snap, rules);
    SweepFactsParts(d, head.config.watchlists, head, snap, rules, sweep);
    StatesAreBound(d, head, snap, rules, sweep, tx.scan);
    ScanRecordIsOk(head, snap, sweep, |d.scans| + 1, actor);
    forall k | 0 <= k < |tx.alerts| ensures AlertBound(head.config.rules, tx.scan, tx.alerts[k]) {
      AlertsAreBound(d, head.config.watchlists, head, snap, sweep, tx.scan, k);
    }
  }

  lemma SweepFactsParts(d: Disk, ws: seq<Watchlist>, head: Header, snap: Snapshot, rules: seq<Rule>, sweep: Sweep)
    requires SweepFacts(d, ws, head, snap, rules, sweep)
    ensures forall id | id in sweep.states :: StateBy(snap, rules, id, sweep.states[id])
    ensures Distinct(Ids(sweep.alerts)) && |sweep.alerts| <= |rules|
  {
  }

  lemma CurrentConfigFacts(d: Disk, c: Config)
    requires ChainOk(d.configs) && IsCurrent(d, c)
    ensures c.revision == |d.configs| && d.configs[c.revision - 1] == c
    ensures DistinctRules(c.rules) && |c.rules| <= MAX_RULES
    ensures forall i | 0 <= i < |c.rules| :: c.rules[i].spec.cooldown >= 0
  {
    hide NormalizeRule, NormalizeWatchlists, NormalizeRules, CanonicalWatchlists, Belongs;
    ReadIsCanonical(d.configs, |d.configs| - 1);
    forall i | 0 <= i < |c.rules| ensures c.rules[i].spec.cooldown >= 0 {
      CooldownIsNonNegative(c.rules[i]);
    }
  }

  lemma CooldownIsNonNegative(r: Rule)
    requires NormalizeRule(r) == Ok(r)
    ensures r.spec.cooldown >= 0
  {
  }

  /**
   The guard that is missing: `scan_profile` does not compare the cutoff with the data date before it
   writes, and the store is intact afterwards exactly when the snapshot happened to satisfy it.
   */
  lemma CommitIsIntactIffCutoffIsNotEarlier(d: Disk, head: Header, snap: Snapshot, actor: string, tx: Tx)
    requires Integrity(d) && EngineTx(d, head, snap, actor, tx) && HasRoom(d, tx)
    ensures Integrity(Commit(d, tx)) <==> snap.evidence.cutoff >= snap.evidence.dataDate
  {
    hide SweepOf, AlertBound, StatesBound, EnabledRules, ScansNumbered, AlertActionsOk, NotificationsBound, AlertsOwned,
      NoteActionsOk, ChainOk;
    if snap.evidence.cutoff >= snap.evidence.dataDate {
      EngineTxIsBound(d, head, snap, actor, tx);
      CommitKeepsIntegrity(d, tx);
    } else {
      assert !EvidenceBound(tx.scan);
      assert Commit(d, tx).scans[tx.scan.id] == tx.scan;
    }
  }

  /** A failed attempt: no snapshot, an evaluation that raised, or alert files that could not be written. */
  ghost predicate FailedTx(d: Disk, head: Header, snap: Option<Snapshot>, sweep: Sweep, error: string, actor: string, tx: Tx) {
    && IsCurrent(d, head.config)
    && head.scanId !in d.scans
    && (snap.Some? ==> WellTaken(snap.value.evidence))
    && (forall id | id in sweep.states ::
          snap.Some? && StateBy(snap.value, EnabledRules(head.config.rules), id, sweep.states[id]))
    && tx == Tx(FailedScanFor(head, if snap.Some? then Some(snap.value.evidence) else None, sweep, |d.scans| + 1, actor, error), [])
  }

  /** The snapshot, if there was one, is not ahead of its own cutoff. */
  predicate CutoffIsNotEarlier(snap: Option<Snapshot>) {
    snap.Some? ==> snap.value.evidence.cutoff >= snap.value.evidence.dataDate
  }

  lemma FailedTxIsOk(d: Disk, head: Header, snap: Option<Snapshot>, sweep: Sweep, error: string, actor: string, tx: Tx)
    requires Integrity(d) && FailedTx(d, head, snap, sweep, error, actor, tx) && |d.scans| < MAX_SCANS
    requires CutoffIsNotEarlier(snap)
    ensures TxOk(d, tx)
  {
    hide EnabledRules, Integrity, StatesBound, StateBy, ChainOk, AlertBound;
    IntactChain(d);
    CurrentConfigFacts(d, head.config);
    IntactAlertCap(d);
    if snap.Some? {
      StatesAreBound(d, head, snap.value, EnabledRules(head.config.rules), sweep, tx.scan);
    } else {
      NoStatesAreBound(head.config.rules, tx.scan);
    }
  }

  /** The same missing guard for failed scans: they record the cutoff and the data date without comparing them. */
  lemma FailedCommitIsIntactIffCutoffIsNotEarlier(
      d: Disk, head: Header, snap: Option<Snapshot>, sweep: Sweep, error: string, actor: string, tx: Tx)
    requires Integrity(d) && FailedTx(d, head, snap, sweep, error, actor, tx) && |d.scans| < MAX_SCANS
    ensures Integrity(Commit(d, tx)) <==> CutoffIsNotEarlier(snap)
  {
    hide AlertBound, StatesBound, EnabledRules, ScansNumbered, AlertActionsOk, NotificationsBound, AlertsOwned,
      NoteActionsOk, ChainOk, StateBy;
    if CutoffIsNotEarlier(snap) {
      FailedTxIsOk(d, head, snap, sweep, error, actor, tx);
      CommitKeepsIntegrity(d, tx);
    } else {
      assert !EvidenceBound(tx.scan);
      assert Commit(d, tx).scans[tx.scan.id] == tx.scan;
    }
  }

  lemma IntactAlertCap(d: Disk)
    requires Integrity(d)
    ensures |d.alerts| <= MAX_ALERTS
  {
  }

  lemma NoStatesAreBound(rules: seq<Rule>, s: Scan)
    requires s.ruleStates.Keys == {}
    ensures StatesBound(rules, s)
  {
  }
}
