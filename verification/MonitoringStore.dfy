/** The owner's record directory and the cross-record checks of `_verify_integrity_unlocked`. */
module MonitoringStore {
  import opened Common
  import opened MonitoringConfig
  import opened MonitoringRecords
  import opened ActionChains

  type Scans = map<ScanId, Scan>
  type Alerts = map<AlertId, Alert>
  type Notifications = map<NotificationId, Notification>

  /** The files of one owner, by directory and file name. */
  datatype Disk = Disk(
    configs: seq<Config>, scans: Scans, alerts: Alerts, actions: Actions,
    notifications: Notifications, noteActions: Actions, marker: Option<Marker>)

  const EmptyDisk := Disk([], map[], map[], map[], map[], map[], None)

  // ----- scans

  /** Sorted by sequence, the scans are numbered 1..n: no two share a number, none is out of range. */
  ghost predicate ScansNumbered(scans: Scans) {
    && (forall id | id in scans :: scans[id].id == id && 1 <= scans[id].sequence <= |scans|)
    && forall a, b | a in scans && b in scans && scans[a].sequence == scans[b].sequence :: a == b
  }

  /** `_validate_scan_record` */
  predicate ScanRecordOk(s: Scan) {
    && 1 <= s.sequence <= MAX_SCANS
    && match s.status
       case Failed => s.triggered == [] && s.error.Some? && (s.evidence.None? ==> s.ruleStates.Keys == {})
       case Succeeded => s.evidence.Some? && s.error.None? && s.exclusions == []
       case Partial => s.evidence.Some? && s.error.None? && s.exclusions != []
  }

  /** `_validate_scan_evidence_binding` */
  predicate EvidenceBound(s: Scan) {
    s.evidence.Some? ==>
      var e := s.evidence.value;
      && e.snapshotId == SnapshotId(e.dataDate, e.digest[..12])
      && e.latestCommonSession == e.dataDate
      && e.cutoff >= e.dataDate
      && forall r | r in s.ruleStates :: s.ruleStates[r].dataDate == e.dataDate
  }

  predicate ConfigBound(configs: seq<Config>, s: Scan) {
    1 <= s.configRevision <= |configs| && s.config == ConfigFingerprint(configs[s.configRevision - 1])
  }

  predicate HasRule(rules: seq<Rule>, id: RuleId, fingerprint: RuleFingerprint) {
    exists i | 0 <= i < |rules| :: rules[i].id == id && FingerprintOf(rules[i]) == fingerprint
  }

  predicate StatesBound(rules: seq<Rule>, s: Scan) {
    forall r | r in s.ruleStates :: HasRule(rules, r, s.ruleStates[r].fingerprint)
  }

  function EvidenceOf(a: Alert): EvidenceFingerprint {
    EvidenceFingerprint(a.evidence.snapshotId, a.evidence.manifest, a.sourceDigest, a.ruleFingerprint,
                        a.observed, a.threshold, a.evidence.dataDate)
  }

  /** The alert repeats its historical rule field by field. */
  predicate MatchesRule(a: Alert, r: Rule) {
    && a.ruleFingerprint == FingerprintOf(r)
    && a.watchlistId == r.spec.watchlistId && a.symbol == r.spec.symbol && a.ruleType == r.spec.ruleType
    && a.operator == r.spec.operator && a.threshold == r.spec.threshold && a.severity == r.spec.severity
  }

  /** `_validate_alert_evidence_binding`, with the id and scan bindings checked next to it. */
  predicate AlertBound(rules: seq<Rule>, s: Scan, a: Alert) {
    && a.scanId == s.id && a.id == AlertId(s.id, a.rule)
    && s.evidence == Some(a.evidence) && a.configRevision == s.configRevision && a.config == s.config
    && (exists i | 0 <= i < |rules| :: rules[i].id == a.rule && MatchesRule(a, rules[i]))
    && a.rule in s.ruleStates
    && StateRepeats(s.ruleStates[a.rule], a)
    && a.evidenceFingerprint == EvidenceOf(a)
  }

  predicate StateRepeats(state: RuleState, a: Alert) {
    && state.triggered && state.fingerprint == a.ruleFingerprint
    && state.observed == a.observed && state.dataDate == a.evidence.dataDate
  }

  predicate Distinct<T(==)>(s: seq<T>) {
    forall i, j | 0 <= i < j < |s| :: s[i] != s[j]
  }

  predicate ScanWhole(configs: seq<Config>, alerts: Alerts, s: Scan) {
    && ScanRecordOk(s) && EvidenceBound(s) && ConfigBound(configs, s)
    && var rules := configs[s.configRevision - 1].rules;
       && StatesBound(rules, s)
       && Distinct(s.triggered)
       && forall i | 0 <= i < |s.triggered| ::
            s.triggered[i] in alerts && alerts[s.triggered[i]].id == s.triggered[i]
            && AlertBound(rules, s, alerts[s.triggered[i]])
  }

  predicate ScansWhole(configs: seq<Config>, alerts: Alerts, scans: Scans) {
    forall id | id in scans :: ScanWhole(configs, alerts, scans[id])
  }

  /** Every alert is referenced by the scan it names. */
  predicate AlertsOwned(scans: Scans, alerts: Alerts) {
    forall id | id in alerts ::
      alerts[id].id == id && alerts[id].scanId in scans && id in scans[alerts[id].scanId].triggered
  }

  // ----- actions and notifications

  ghost predicate AlertActionsOk(alerts: Alerts, actions: Actions) {
    && (forall k | k in actions ::
          actions[k].id == k && actions[k].subject.OnAlert? && actions[k].subject.alert in alerts)
    && forall id | id in alerts :: ChainValid(actions, OnAlert(id), Open, AlertFingerprint(alerts[id]))
  }

  /** A notification equals the projection of the record it points at. */
  predicate NotificationBound(scans: Scans, alerts: Alerts, n: Notification) {
    n.id == NotificationId(n.source)
    && match n.source
       case FromAlert(a) => a in alerts && n == NotificationFromAlert(alerts[a])
       case FromFailedScan(s) => s in scans && scans[s].status.Failed? && n == NotificationFromScan(scans[s])
  }

  predicate NotificationsBound(scans: Scans, alerts: Alerts, notifications: Notifications) {
    forall id | id in notifications ::
      notifications[id].id == id && NotificationBound(scans, alerts, notifications[id])
  }

  ghost predicate NoteActionsOk(notifications: Notifications, actions: Actions) {
    && (forall k | k in actions ::
          actions[k].id == k && actions[k].subject.OnNotification? && actions[k].subject.notification in notifications)
    && forall id | id in notifications ::
         ChainValid(actions, OnNotification(id), Unread, NotificationFingerprint(notifications[id]))
  }

  predicate WithinCaps(d: Disk) {
    && |d.scans| <= MAX_SCANS && |d.alerts| <= MAX_ALERTS && |d.actions| <= MAX_ACTIONS
    && |d.notifications| <= MAX_NOTIFICATIONS && |d.noteActions| <= MAX_NOTIFICATION_ACTIONS
  }

  /** `_verify_integrity_unlocked` accepts the store, and no transaction is open. */
  ghost predicate Integrity(d: Disk) {
    && d.marker.None?
    && ChainOk(d.configs)
    && ScansNumbered(d.scans)
    && ScansWhole(d.configs, d.alerts, d.scans)
    && AlertsOwned(d.scans, d.alerts)
    && AlertActionsOk(d.alerts, d.actions)
    && NotificationsBound(d.scans, d.alerts, d.notifications)
    && NoteActionsOk(d.notifications, d.noteActions)
    && WithinCaps(d)
  }

  lemma EmptyDiskIsIntact()
    ensures Integrity(EmptyDisk)
  {
  }

  // ----- numbering

  function Sequences(scans: Scans): set<int> {
    set id | id in scans :: scans[id].sequence
  }

  function UpTo(n: nat): (s: set<int>)
    ensures |s| == n && forall i :: i in s <==> 1 <= i <= n
  {
    if n == 0 then {} else UpTo(n - 1) + {n}
  }

  lemma {:induction false} SequencesCount(scans: Scans)
    requires forall a, b | a in scans && b in scans && scans[a].sequence == scans[b].sequence :: a == b
    ensures |Sequences(scans)| == |scans|
    decreases |scans|
  {
    if scans.Keys != {} {
      var id := Pick(scans.Keys);
      var rest := scans - {id};
      SequencesCount(rest);
      forall x ensures x in Sequences(scans) <==> x in Sequences(rest) || x == scans[id].sequence {
        if x in Sequences(scans) {
          var k :| k in scans && scans[k].sequence == x;
          if k != id {
            assert k in rest && rest[k].sequence == x;
          }
        }
        if x in Sequences(rest) {
          var k :| k in rest && rest[k].sequence == x;
          assert k in scans && scans[k].sequence == x;
        }
      }
      assert Sequences(scans) == Sequences(rest) + {scans[id].sequence};
      assert |rest| == |scans| - 1;
    } else {
      assert Sequences(scans) == {};
    }
  }

  /** The numbers used are exactly 1..n, so the newest scan carries n. */
  lemma NumbersAreContiguous(scans: Scans)
    requires ScansNumbered(scans)
    ensures Sequences(scans) == UpTo(|scans|)
    ensures |scans| > 0 ==> exists id :: id in scans && scans[id].sequence == |scans|
  {
    SequencesCount(scans);
    SubsetOfSameSize(Sequences(scans), UpTo(|scans|));
    if |scans| > 0 {
      assert |scans| in Sequences(scans);
    }
  }

  // ----- ownership

  /** An alert's id names its scan, so no alert can be referenced by two scans. */
  lemma AlertIdsNameTheirScan(d: Disk, id: AlertId)
    requires ScansNumbered(d.scans) && ScansWhole(d.configs, d.alerts, d.scans) && AlertsOwned(d.scans, d.alerts)
    requires id in d.alerts
    ensures d.alerts[id].scanId == id.scan && d.alerts[id].rule == id.rule && id.scan in d.scans
  {
    var s := d.scans[d.alerts[id].scanId];
    assert ScanWhole(d.configs, d.alerts, s);
  }

  /** Every alert is referenced by exactly one scan: the one it names. */
  lemma OneOwner(d: Disk, id: AlertId, s: ScanId)
    requires Integrity(d) && id in d.alerts && s in d.scans
    ensures id in d.scans[s].triggered <==> s == d.alerts[id].scanId
  {
    AlertIdsNameTheirScan(d, id);
    assert ScanWhole(d.configs, d.alerts, d.scans[s]);
  }

  // ----- the effect of a finished scan

  /** A scan and the alerts it raised. */
  datatype Tx = Tx(scan: Scan, alerts: seq<Alert>)

  function Ids(alerts: seq<Alert>): (r: seq<AlertId>)
    ensures |r| == |alerts| && forall i | 0 <= i < |r| :: r[i] == alerts[i].id
  {
    seq(|alerts|, i requires 0 <= i < |alerts| => alerts[i].id)
  }

  function AsMap(alerts: seq<Alert>): Alerts {
    if alerts == [] then map[]
    else AsMap(alerts[..|alerts| - 1])[alerts[|alerts| - 1].id := alerts[|alerts| - 1]]
  }

  lemma {:induction false} AsMapMembers(alerts: seq<Alert>)
    ensures forall id :: id in AsMap(alerts) <==> exists i :: 0 <= i < |alerts| && alerts[i].id == id
  {
    if alerts != [] {
      var n := |alerts| - 1;
      AsMapMembers(alerts[..n]);
      forall id ensures id in AsMap(alerts) <==> exists i :: 0 <= i < |alerts| && alerts[i].id == id {
        if id in AsMap(alerts[..n]) {
          var i :| 0 <= i < n && alerts[..n][i].id == id;
          assert alerts[i].id == id;
        }
        if i :| 0 <= i < |alerts| && alerts[i].id == id && i < n {
          assert alerts[..n][i].id == id;
        }
      }
    }
  }

  lemma {:induction false} AsMapLooksUp(alerts: seq<Alert>, i: nat)
    requires i < |alerts| && Distinct(Ids(alerts))
    ensures alerts[i].id in AsMap(alerts) && AsMap(alerts)[alerts[i].id] == alerts[i]
  {
    var n := |alerts| - 1;
    if i < n {
      assert Ids(alerts[..n]) == Ids(alerts)[..n];
      AsMapLooksUp(alerts[..n], i);
      assert Ids(alerts)[i] != Ids(alerts)[n];
    }
  }

  lemma {:induction false} AsMapSize(alerts: seq<Alert>)
    requires Distinct(Ids(alerts))
    ensures |AsMap(alerts)| == |alerts|
  {
    if alerts != [] {
      var n := |alerts| - 1;
      assert Ids(alerts[..n]) == Ids(alerts)[..n];
      AsMapSize(alerts[..n]);
      AsMapMembers(alerts[..n]);
      forall i | 0 <= i < n ensures alerts[..n][i].id != alerts[n].id {
        assert Ids(alerts)[i] != Ids(alerts)[n];
      }
    }
  }

  function Commit(d: Disk, tx: Tx): Disk {
    d.(scans := d.scans[tx.scan.id := tx.scan], alerts := d.alerts + AsMap(tx.alerts))
  }

  /**
   The scan is new and next in sequence, references exactly the new alerts, and everything is bound.
   Its number passes the record check only while the scan limit is not reached.
   */
  ghost predicate TxBound(d: Disk, tx: Tx) {
    && tx.scan.id !in d.scans
    && tx.scan.sequence == |d.scans| + 1
    && tx.scan.triggered == Ids(tx.alerts)
    && Distinct(tx.scan.triggered)
    && (|d.scans| < MAX_SCANS ==> ScanRecordOk(tx.scan)) && EvidenceBound(tx.scan) && ConfigBound(d.configs, tx.scan)
    && var rules := d.configs[tx.scan.configRevision - 1].rules;
       && StatesBound(rules, tx.scan)
       && forall i | 0 <= i < |tx.alerts| :: AlertBound(rules, tx.scan, tx.alerts[i])
  }

  /** The store has room for the scan and its alerts. */
  predicate HasRoom(d: Disk, tx: Tx) {
    |d.scans| < MAX_SCANS && |d.alerts| + |tx.alerts| <= MAX_ALERTS
  }

  ghost predicate TxOk(d: Disk, tx: Tx) {
    TxBound(d, tx) && HasRoom(d, tx)
  }

  lemma NewAlertsAreFresh(d: Disk, tx: Tx, i: nat)
    requires Integrity(d) && TxBound(d, tx) && i < |tx.alerts|
    ensures tx.alerts[i].id !in d.alerts
  {
    hide ScansWhole, AlertsOwned, AlertActionsOk, NotificationsBound, NoteActionsOk, ChainOk, ScansNumbered, EvidenceBound,
      StatesBound, ScanRecordOk, MatchesRule, StateRepeats;
    assert tx.alerts[i].id == AlertId(tx.scan.id, tx.alerts[i].rule);
    if tx.alerts[i].id in d.alerts {
      AlertIdsNameTheirScan(d, tx.alerts[i].id);
    }
  }

  lemma CommitKeepsOldAlerts(d: Disk, tx: Tx)
    requires Integrity(d) && TxBound(d, tx)
    ensures forall id | id in d.alerts :: id in Commit(d, tx).alerts && Commit(d, tx).alerts[id] == d.alerts[id]
    ensures d.alerts.Keys !! AsMap(tx.alerts).Keys
    ensures |Commit(d, tx).alerts| == |d.alerts| + |tx.alerts|
  {
    hide AlertBound, EvidenceBound, StatesBound, ScanRecordOk, ScansWhole, AlertActionsOk, NoteActionsOk, ChainOk,
      NotificationsBound, AlertsOwned, ScansNumbered;
    AsMapMembers(tx.alerts);
    forall id | id in AsMap(tx.alerts) ensures id !in d.alerts {
      var i :| 0 <= i < |tx.alerts| && tx.alerts[i].id == id;
      NewAlertsAreFresh(d, tx, i);
    }
    AsMapSize(tx.alerts);
    DisjointUnionSize(d.alerts, AsMap(tx.alerts));
  }

  lemma DisjointUnionSize<K, V>(a: map<K, V>, b: map<K, V>)
    requires a.Keys !! b.Keys
    ensures |a + b| == |a| + |b|
  {
    assert (a + b).Keys == a.Keys + b.Keys;
  }

  /** More alert files never spoil a scan that has all of its own. */
  lemma MoreAlertsKeepScanWhole(configs: seq<Config>, alerts: Alerts, more: Alerts, s: Scan)
    requires ScanWhole(configs, alerts, s)
    requires forall id | id in alerts :: id in more && more[id] == alerts[id]
    ensures ScanWhole(configs, more, s)
  {
    hide AlertBound, EvidenceBound, ScanRecordOk, StatesBound;
  }

  lemma NewScanIsWhole(configs: seq<Config>, alerts: Alerts, tx: Tx)
    requires tx.scan.triggered == Ids(tx.alerts) && Distinct(tx.scan.triggered)
    requires ScanRecordOk(tx.scan) && EvidenceBound(tx.scan) && ConfigBound(configs, tx.scan)
    requires var rules := configs[tx.scan.configRevision - 1].rules;
             StatesBound(rules, tx.scan) && forall i | 0 <= i < |tx.alerts| :: AlertBound(rules, tx.scan, tx.alerts[i])
    ensures ScanWhole(configs, alerts + AsMap(tx.alerts), tx.scan)
  {
    hide AlertBound, EvidenceBound, ScanRecordOk, StatesBound;
    var after := alerts + AsMap(tx.alerts);
    forall i | 0 <= i < |tx.alerts|
      ensures tx.scan.triggered[i] in after && after[tx.scan.triggered[i]] == tx.alerts[i]
    {
      AsMapLooksUp(tx.alerts, i);
    }
  }

  lemma NewAlertsAreOwned(scans: Scans, alerts: Alerts, tx: Tx)
    requires AlertsOwned(scans, alerts) && alerts.Keys !! AsMap(tx.alerts).Keys
    requires tx.scan.id !in scans && tx.scan.triggered == Ids(tx.alerts) && Distinct(Ids(tx.alerts))
    requires forall i | 0 <= i < |tx.alerts| :: tx.alerts[i].scanId == tx.scan.id
    ensures AlertsOwned(scans[tx.scan.id := tx.scan], alerts + AsMap(tx.alerts))
  {
    AsMapMembers(tx.alerts);
    var s, after := scans[tx.scan.id := tx.scan], alerts + AsMap(tx.alerts);
    forall id | id in after
      ensures after[id].id == id && after[id].scanId in s && id in s[after[id].scanId].triggered
    {
      if id in AsMap(tx.alerts) {
        var i :| 0 <= i < |tx.alerts| && tx.alerts[i].id == id;
        AsMapLooksUp(tx.alerts, i);
        assert tx.scan.triggered[i] == id;
      } else {
        assert alerts[id].scanId in scans;
      }
    }
  }

  lemma ScansStayNumbered(scans: Scans, s: Scan)
    requires ScansNumbered(scans) && s.id !in scans && s.sequence == |scans| + 1
    ensures ScansNumbered(scans[s.id := s])
  {
  }

  lemma MoreAlertsKeepChains(alerts: Alerts, added: Alerts, actions: Actions)
    requires AlertActionsOk(alerts, actions) && alerts.Keys !! added.Keys
    ensures AlertActionsOk(alerts + added, actions)
  {
    hide ChainValid;
    var after := alerts + added;
    forall id | id in after ensures ChainValid(actions, OnAlert(id), Open, AlertFingerprint(after[id])) {
      if id in added {
        NoActionsNoChain(actions, OnAlert(id), Open, AlertFingerprint(after[id]));
      }
    }
  }

  lemma MoreRecordsKeepNotifications(scans: Scans, alerts: Alerts, notifications: Notifications, s: Scan, added: Alerts)
    requires NotificationsBound(scans, alerts, notifications) && s.id !in scans && alerts.Keys !! added.Keys
    ensures NotificationsBound(scans[s.id := s], alerts + added, notifications)
  {
    forall id | id in notifications
      ensures NotificationBound(scans[s.id := s], alerts + added, notifications[id])
    {
      assert NotificationBound(scans, alerts, notifications[id]);
    }
  }

  lemma AlertOfScan(rules: seq<Rule>, s: Scan, a: Alert)
    requires AlertBound(rules, s, a)
    ensures a.scanId == s.id && a.id == AlertId(s.id, a.rule)
  {
  }

  lemma MoreScansStayWhole(configs: seq<Config>, scans: Scans, alerts: Alerts, s: Scan, added: Alerts)
    requires ScansWhole(configs, alerts, scans) && ScanWhole(configs, alerts + added, s)
    requires s.id !in scans && alerts.Keys !! added.Keys
    ensures ScansWhole(configs, alerts + added, scans[s.id := s])
  {
    hide ScanWhole;
    var after := scans[s.id := s];
    forall id | id in after ensures ScanWhole(configs, alerts + added, after[id]) {
      if id != s.id {
        MoreAlertsKeepScanWhole(configs, alerts, alerts + added, scans[id]);
      }
    }
  }

  lemma TxAlertsNameTheScan(d: Disk, tx: Tx)
    requires TxBound(d, tx)
    ensures forall i | 0 <= i < |tx.alerts| :: tx.alerts[i].scanId == tx.scan.id && tx.alerts[i].id == AlertId(tx.scan.id, tx.alerts[i].rule)
  {
    hide EvidenceBound, ScanRecordOk, MatchesRule, StateRepeats, StatesBound, Distinct;
    forall i | 0 <= i < |tx.alerts|
      ensures tx.alerts[i].scanId == tx.scan.id && tx.alerts[i].id == AlertId(tx.scan.id, tx.alerts[i].rule)
    {
      AlertOfScan(d.configs[tx.scan.configRevision - 1].rules, tx.scan, tx.alerts[i]);
    }
  }

  lemma TxParts(d: Disk, tx: Tx)
    requires TxOk(d, tx)
    ensures tx.scan.id !in d.scans && tx.scan.sequence == |d.scans| + 1
    ensures tx.scan.triggered == Ids(tx.alerts) && Distinct(Ids(tx.alerts))
    ensures ScanWhole(d.configs, d.alerts + AsMap(tx.alerts), tx.scan)
  {
    hide AlertBound, EvidenceBound, StatesBound, ScanWhole, Distinct, AsMap, ScanRecordOk;
    NewScanIsWhole(d.configs, d.alerts, tx);
  }

  lemma CommitScansOk(d: Disk, tx: Tx)
    requires Integrity(d) && TxOk(d, tx)
    ensures var after := Commit(d, tx);
            && ScansNumbered(after.scans) && ScansWhole(d.configs, after.alerts, after.scans)
            && AlertsOwned(after.scans, after.alerts)
  {
    hide TxBound, ScanWhole, ScansWhole, AlertActionsOk, NoteActionsOk, ChainOk, ScansNumbered, NotificationsBound,
      AlertsOwned, Distinct, AsMap, WithinCaps;
    TxParts(d, tx);
    CommitKeepsOldAlerts(d, tx);
    TxAlertsNameTheScan(d, tx);
    NewAlertsAreOwned(d.scans, d.alerts, tx);
    ScansStayNumbered(d.scans, tx.scan);
    MoreScansStayWhole(d.configs, d.scans, d.alerts, tx.scan, AsMap(tx.alerts));
  }

  /** Committing a well-formed scan with all its alerts keeps every cross-record check true. */
  lemma CommitKeepsIntegrity(d: Disk, tx: Tx)
    requires Integrity(d) && TxOk(d, tx)
    ensures Integrity(Commit(d, tx))
  {
    hide AlertBound, EvidenceBound, StatesBound, ScanWhole, ScansWhole, AlertActionsOk, NoteActionsOk, ChainOk,
      ScansNumbered, NotificationsBound, AlertsOwned, Distinct, AsMap, ScanRecordOk, WithinCaps, ConfigBound;
    CommitKeepsOldAlerts(d, tx);
    CommitScansOk(d, tx);
    MoreAlertsKeepChains(d.alerts, AsMap(tx.alerts), d.actions);
    MoreRecordsKeepNotifications(d.scans, d.alerts, d.notifications, tx.scan, AsMap(tx.alerts));
    CommitWithinCaps(d, tx);
  }

  lemma CommitWithinCaps(d: Disk, tx: Tx)
    requires Integrity(d) && TxOk(d, tx)
    ensures WithinCaps(Commit(d, tx))
  {
    hide AlertBound, EvidenceBound, StatesBound, ScansWhole, AlertActionsOk, NoteActionsOk, ChainOk,
      ScansNumbered, NotificationsBound, AlertsOwned, Distinct, AsMap;
    CommitKeepsOldAlerts(d, tx);
  }

  // ----- the other effects

  lemma ConfigKeepsIntegrity(d: Disk, c: Config)
    requires Integrity(d) && ChainOk(d.configs + [c])
    ensures Integrity(d.(configs := d.configs + [c]))
  {
    hide ChainOk, ScanWhole, ScansNumbered, AlertsOwned, AlertActionsOk, NotificationsBound, NoteActionsOk;
    forall id | id in d.scans ensures ScanWhole(d.configs + [c], d.alerts, d.scans[id]) {
      LaterConfigKeepsScan(d.configs, c, d.alerts, d.scans[id]);
    }
  }

  lemma LaterConfigKeepsScan(configs: seq<Config>, c: Config, alerts: Alerts, s: Scan)
    requires ScanWhole(configs, alerts, s)
    ensures ScanWhole(configs + [c], alerts, s)
  {
    hide AlertBound, EvidenceBound, StatesBound, ScanRecordOk;
    assert (configs + [c])[s.configRevision - 1] == configs[s.configRevision - 1];
  }

  /** The next lawful action of an alert. */
  ghost predicate NextAlertAction(d: Disk, a: Action) {
    && a.id !in d.actions && |d.actions| < MAX_ACTIONS
    && a.subject.OnAlert? && a.subject.alert in d.alerts
    && a.binding == AlertFingerprint(d.alerts[a.subject.alert])
    && ChainValid(d.actions, a.subject, Open, a.binding)
    && a.sequence == |ChainOf(d.actions, a.subject, Open, a.binding)| + 1
    && a.from == StatusAfter(Open, ChainOf(d.actions, a.subject, Open, a.binding))
    && Lawful(a)
  }

  lemma AlertActionKeepsIntegrity(d: Disk, a: Action)
    requires Integrity(d) && NextAlertAction(d, a)
    ensures Integrity(d.(actions := Append(d.actions, a)))
  {
    hide ScansWhole, ScansNumbered, AlertsOwned, NotificationsBound, NoteActionsOk, ChainOk, ChainValid, Lawful;
    var after := Append(d.actions, a);
    forall id | id in d.alerts ensures ChainValid(after, OnAlert(id), Open, AlertFingerprint(d.alerts[id])) {
      if OnAlert(id) == a.subject {
        AppendExtends(d.actions, a, Open, a.binding);
      } else {
        AppendLeavesOthers(d.actions, a, OnAlert(id), Open, AlertFingerprint(d.alerts[id]));
      }
    }
  }

  ghost predicate NextNoteAction(d: Disk, a: Action) {
    && a.id !in d.noteActions && |d.noteActions| < MAX_NOTIFICATION_ACTIONS
    && a.subject.OnNotification? && a.subject.notification in d.notifications
    && a.binding == NotificationFingerprint(d.notifications[a.subject.notification])
    && ChainValid(d.noteActions, a.subject, Unread, a.binding)
    && a.sequence == |ChainOf(d.noteActions, a.subject, Unread, a.binding)| + 1
    && a.from == StatusAfter(Unread, ChainOf(d.noteActions, a.subject, Unread, a.binding))
    && Lawful(a)
  }

  lemma NoteActionKeepsIntegrity(d: Disk, a: Action)
    requires Integrity(d) && NextNoteAction(d, a)
    ensures Integrity(d.(noteActions := Append(d.noteActions, a)))
  {
    hide ScansWhole, ScansNumbered, AlertsOwned, NotificationsBound, AlertActionsOk, ChainOk, ChainValid, Lawful;
    var after := Append(d.noteActions, a);
    forall id | id in d.notifications
      ensures ChainValid(after, OnNotification(id), Unread, NotificationFingerprint(d.notifications[id]))
    {
      if OnNotification(id) == a.subject {
        AppendExtends(d.noteActions, a, Unread, a.binding);
      } else {
        AppendLeavesOthers(d.noteActions, a, OnNotification(id), Unread, NotificationFingerprint(d.notifications[id]));
      }
    }
  }

  // ----- notifications

  /** The record a notification id points at exists and is notifiable. */
  predicate HasSource(scans: Scans, alerts: Alerts, id: NotificationId) {
    match id.source
    case FromAlert(a) => a in alerts
    case FromFailedScan(s) => s in scans && scans[s].status.Failed?
  }

  function Projection(scans: Scans, alerts: Alerts, id: NotificationId): Notification
    requires HasSource(scans, alerts, id)
  {
    match id.source
    case FromAlert(a) => NotificationFromAlert(alerts[a])
    case FromFailedScan(s) => NotificationFromScan(scans[s])
  }

  function Sources(scans: Scans, alerts: Alerts): set<NotificationId> {
    AlertSources(alerts.Keys) + ScanSources(scans.Keys)
  }

  function AlertSources(ids: set<AlertId>): set<NotificationId> {
    set a | a in ids :: NotificationId(FromAlert(a))
  }

  function ScanSources(ids: set<ScanId>): set<NotificationId> {
    set s | s in ids :: NotificationId(FromFailedScan(s))
  }

  lemma SourcesComplete(scans: Scans, alerts: Alerts, id: NotificationId)
    requires HasSource(scans, alerts, id)
    ensures id in Sources(scans, alerts)
  {
  }

  /** The notifications the store should hold: one per alert and one per failed scan. */
  function Expected(scans: Scans, alerts: Alerts): Notifications {
    map id | id in Sources(scans, alerts) && HasSource(scans, alerts, id) :: Projection(scans, alerts, id)
  }

  lemma {:induction false} AlertSourcesBounded(ids: set<AlertId>)
    ensures |AlertSources(ids)| <= |ids|
  {
    if ids != {} {
      var a := Pick(ids);
      AlertSourcesBounded(ids - {a});
      assert AlertSources(ids) == AlertSources(ids - {a}) + {NotificationId(FromAlert(a))};
    }
  }

  lemma {:induction false} ScanSourcesBounded(ids: set<ScanId>)
    ensures |ScanSources(ids)| <= |ids|
  {
    if ids != {} {
      var s := Pick(ids);
      ScanSourcesBounded(ids - {s});
      assert ScanSources(ids) == ScanSources(ids - {s}) + {NotificationId(FromFailedScan(s))};
    }
  }

  lemma SourcesAreBounded(scans: Scans, alerts: Alerts)
    ensures |Sources(scans, alerts)| <= |alerts| + |scans|
  {
    hide AlertSources, ScanSources;
    AlertSourcesBounded(alerts.Keys);
    ScanSourcesBounded(scans.Keys);
  }

  lemma ExpectedIsBounded(scans: Scans, alerts: Alerts)
    ensures |Expected(scans, alerts)| <= |alerts| + |scans|
  {
    hide Sources, HasSource, Projection;
    SourcesAreBounded(scans, alerts);
    SmallerSet(Expected(scans, alerts).Keys, Sources(scans, alerts));
  }

  /** What is bound is expected, and what is expected is bound. */
  lemma BoundIsExpected(scans: Scans, alerts: Alerts, n: Notification)
    requires forall id | id in alerts :: alerts[id].id == id
    requires forall s | s in scans :: scans[s].id == s
    ensures NotificationBound(scans, alerts, n) <==>
      n.id in Expected(scans, alerts) && Expected(scans, alerts)[n.id] == n
  {
    hide Sources;
    if HasSource(scans, alerts, n.id) {
      SourcesComplete(scans, alerts, n.id);
    }
  }

  /** The files `_materialize_notifications_unlocked` creates. */
  function Missing(d: Disk): Notifications {
    Expected(d.scans, d.alerts) - d.notifications.Keys
  }

  lemma OwnedIds(scans: Scans, alerts: Alerts)
    requires AlertsOwned(scans, alerts)
    ensures forall id | id in alerts :: alerts[id].id == id
  {
  }

  lemma ExistingAreExpected(scans: Scans, alerts: Alerts, notifications: Notifications)
    requires NotificationsBound(scans, alerts, notifications)
    requires forall id | id in alerts :: alerts[id].id == id
    requires forall s | s in scans :: scans[s].id == s
    ensures forall id | id in notifications ::
              id in Expected(scans, alerts) && Expected(scans, alerts)[id] == notifications[id]
  {
    hide Expected, NotificationBound;
    forall id | id in notifications
      ensures id in Expected(scans, alerts) && Expected(scans, alerts)[id] == notifications[id]
    {
      BoundIsExpected(scans, alerts, notifications[id]);
    }
  }

  lemma CompletedBy<K, V>(some: map<K, V>, all: map<K, V>)
    requires forall k | k in some :: k in all && all[k] == some[k]
    ensures some + (all - some.Keys) == all
    ensures |some| + |all - some.Keys| == |all|
  {
    assert all.Keys == some.Keys + (all - some.Keys).Keys;
  }

  /** On an intact store the notification limit can never be reached. */
  lemma NotificationCapIsNeverHit(d: Disk)
    requires Integrity(d)
    ensures |d.notifications| + |Missing(d)| <= MAX_NOTIFICATIONS
    ensures d.notifications + Missing(d) == Expected(d.scans, d.alerts)
  {
    hide ScansWhole, AlertActionsOk, NoteActionsOk, ChainOk, NotificationsBound, Expected, AlertsOwned;
    OwnedIds(d.scans, d.alerts);
    ExistingAreExpected(d.scans, d.alerts, d.notifications);
    CompletedBy(d.notifications, Expected(d.scans, d.alerts));
    ExpectedIsBounded(d.scans, d.alerts);
  }

  /** Creating one missing notification. */
  ghost predicate NextNotification(d: Disk, n: Notification) {
    n.id in Missing(d) && n == Missing(d)[n.id]
  }

  lemma NotificationKeepsIntegrity(d: Disk, n: Notification)
    requires Integrity(d) && NextNotification(d, n)
    ensures Integrity(d.(notifications := d.notifications[n.id := n]))
  {
    hide ScansWhole, AlertActionsOk, ChainOk, NotificationBound, ScanWhole, NoteActionsOk, Expected, ScansNumbered, AlertsOwned;
    NotificationCapIsNeverHit(d);
    assert n.id in Missing(d).Keys;
    NewNotificationIsBound(d, n);
    NewNotificationKeepsChains(d.notifications, n, d.noteActions);
  }

  lemma NewNotificationIsBound(d: Disk, n: Notification)
    requires Integrity(d) && NextNotification(d, n)
    ensures NotificationBound(d.scans, d.alerts, n)
  {
    hide ScansWhole, AlertActionsOk, ChainOk, NoteActionsOk, Sources;
    assert HasSource(d.scans, d.alerts, n.id);
  }

  lemma NewNotificationKeepsChains(notifications: Notifications, n: Notification, actions: Actions)
    requires NoteActionsOk(notifications, actions) && n.id !in notifications
    ensures NoteActionsOk(notifications[n.id := n], actions)
  {
    hide ChainValid;
    var after := notifications[n.id := n];
    forall id | id in after ensures ChainValid(actions, OnNotification(id), Unread, NotificationFingerprint(after[id])) {
      if id == n.id {
        NoActionsNoChain(actions, OnNotification(id), Unread, NotificationFingerprint(n));
      }
    }
  }

  // ----- what the inbox shows

  /** The notification shows its alert. */
  predicate ShowsAlert(n: Notification, a: Alert) {
    && n.source == FromAlert(a.id) && n.sourceFingerprint == OfAlert(a) && n.createdAt == a.triggeredAt
    && n.severity == a.severity && n.symbol == Some(a.symbol) && n.dataDate == Some(a.evidence.dataDate)
    && n.evidence == Some(a.evidenceFingerprint)
  }

  /** The notification shows its failed scan: always critical, about no one symbol. */
  predicate ShowsFailure(n: Notification, s: Scan) {
    && n.source == FromFailedScan(s.id) && n.sourceFingerprint == OfScan(s) && n.createdAt == s.createdAt
    && n.severity == Critical && n.symbol.None? && n.message == s.error
    && (n.dataDate.Some? <==> s.evidence.Some?) && (s.evidence.Some? ==> n.dataDate == Some(s.evidence.value.dataDate))
  }

  lemma AlertIsShown(scans: Scans, alerts: Alerts, a: AlertId)
    requires a in alerts && alerts[a].id == a
    ensures var id := NotificationId(FromAlert(a));
            id in Expected(scans, alerts) && ShowsAlert(Expected(scans, alerts)[id], alerts[a])
  {
    hide Sources;
    SourcesComplete(scans, alerts, NotificationId(FromAlert(a)));
  }

  lemma FailureIsShown(scans: Scans, alerts: Alerts, s: ScanId)
    requires s in scans && scans[s].id == s && scans[s].status == Failed
    ensures var id := NotificationId(FromFailedScan(s));
            id in Expected(scans, alerts) && ShowsFailure(Expected(scans, alerts)[id], scans[s])
  {
    hide Sources;
    SourcesComplete(scans, alerts, NotificationId(FromFailedScan(s)));
  }

  lemma NothingElseIsShown(scans: Scans, alerts: Alerts, id: NotificationId)
    requires id in Expected(scans, alerts)
    ensures match id.source
            case FromAlert(a) => a in alerts
            case FromFailedScan(s) => s in scans && scans[s].status == Failed
  {
    hide Sources, Projection;
  }

  /** A complete inbox has one entry for each alert and one for each failed scan, shows them, and has no other. */
  lemma InboxShowsEverything(d: Disk)
    requires Integrity(d) && d.notifications == Expected(d.scans, d.alerts)
    ensures forall a | a in d.alerts ::
              NotificationId(FromAlert(a)) in d.notifications && ShowsAlert(d.notifications[NotificationId(FromAlert(a))], d.alerts[a])
    ensures forall s | s in d.scans && d.scans[s].status == Failed ::
              NotificationId(FromFailedScan(s)) in d.notifications
              && ShowsFailure(d.notifications[NotificationId(FromFailedScan(s))], d.scans[s])
    ensures forall id | id in d.notifications ::
              match id.source
              case FromAlert(a) => a in d.alerts
              case FromFailedScan(s) => s in d.scans && d.scans[s].status == Failed
  {
    hide ScansWhole, AlertActionsOk, NotificationsBound, NoteActionsOk, ChainOk, Expected, ShowsAlert, ShowsFailure;
    forall a | a in d.alerts
      ensures NotificationId(FromAlert(a)) in d.notifications && ShowsAlert(d.notifications[NotificationId(FromAlert(a))], d.alerts[a])
    {
      AlertIsShown(d.scans, d.alerts, a);
    }
    forall s | s in d.scans && d.scans[s].status == Failed
      ensures NotificationId(FromFailedScan(s)) in d.notifications
      ensures ShowsFailure(d.notifications[NotificationId(FromFailedScan(s))], d.scans[s])
    {
      FailureIsShown(d.scans, d.alerts, s);
    }
    forall id | id in d.notifications
      ensures match id.source
              case FromAlert(a) => a in d.alerts
              case FromFailedScan(s) => s in d.scans && d.scans[s].status == Failed
    {
      NothingElseIsShown(d.scans, d.alerts, id);
    }
  }
}
