/**
 The multi-file scan transaction (monitoring.py): marker, alert files, scan file, marker removal;
 and the recovery that completes or rolls back whatever a crash left behind.  Every file create or
 unlink is one step, and a crash may fall between any two steps.
 */
module ScanTransaction {
  import opened Common
  import opened MonitoringConfig
  import opened MonitoringRecords
  import opened ActionChains
  import opened MonitoringStore

  function MarkerOf(tx: Tx): Marker {
    Marker(tx.scan.id, tx.scan, tx.alerts)
  }

  /** The store with the marker written and nothing else yet. */
  function Begin(base: Disk, tx: Tx): Disk {
    base.(marker := Some(MarkerOf(tx)))
  }

  predicate Present(d: Disk, alerts: seq<Alert>, i: nat)
    requires i < |alerts|
  {
    alerts[i].id in d.alerts
  }

  predicate AllPresent(d: Disk, alerts: seq<Alert>) {
    forall i | 0 <= i < |alerts| :: Present(d, alerts, i)
  }

  predicate NonePresent(d: Disk, alerts: seq<Alert>) {
    forall i | 0 <= i < |alerts| :: !Present(d, alerts, i)
  }

  function WithoutAlert(d: Disk, id: AlertId): Disk {
    d.(alerts := d.alerts - {id})
  }

  // ----- the single file steps while a transaction is open

  /** A file the scan still has to create: an alert, or, once all alerts are there, the scan; each within its limit. */
  ghost predicate WriteStep(d: Disk, e: Disk) {
    d.marker.Some? &&
    var m := d.marker.value;
    (|| (exists i | 0 <= i < |m.alerts| ::
           m.scanId !in d.scans && !Present(d, m.alerts, i) && |d.alerts| < MAX_ALERTS && e == d.(alerts := d.alerts[m.alerts[i].id := m.alerts[i]]))
     || (m.scanId !in d.scans && AllPresent(d, m.alerts) && |d.scans| < MAX_SCANS && e == d.(scans := d.scans[m.scanId := m.scan])))
  }

  /** What finishing or recovering does next: remove the marker, the scan, or one alert. */
  ghost predicate RecoverStep(d: Disk, e: Disk) {
    d.marker.Some? &&
    var m := d.marker.value;
    if m.scanId in d.scans then
      if AllPresent(d, m.alerts) then e == d.(marker := None)
      else e == d.(scans := d.scans - {m.scanId})
    else
      if NonePresent(d, m.alerts) then e == d.(marker := None)
      else exists i | 0 <= i < |m.alerts| :: Present(d, m.alerts, i) && e == WithoutAlert(d, m.alerts[i].id)
  }

  /** The stronger crash: some alert files of the open transaction never reached the disk. */
  ghost predicate LossStep(d: Disk, e: Disk) {
    d.marker.Some? &&
    var m := d.marker.value;
    exists lost: set<AlertId> :: lost <= AsMap(m.alerts).Keys && e == d.(alerts := d.alerts - lost)
  }

  /** One step of the open transaction, or nothing (a crash, a restart). */
  ghost predicate TxStep(d: Disk, e: Disk) {
    e == d || WriteStep(d, e) || RecoverStep(d, e) || LossStep(d, e)
  }

  // ----- what every step keeps

  /** d lies between base and base plus the scan: some alerts, perhaps the scan (if there was room), and the marker. */
  ghost predicate InFlight(base: Disk, tx: Tx, d: Disk) {
    && base.marker.None?
    && d.marker == Some(MarkerOf(tx))
    && d.configs == base.configs && d.actions == base.actions
    && d.notifications == base.notifications && d.noteActions == base.noteActions
    && (d.scans == base.scans || (HasRoom(base, tx) && d.scans == base.scans[tx.scan.id := tx.scan]))
    && |d.alerts| <= MAX_ALERTS
    && Between(base.alerts, d.alerts, AsMap(tx.alerts))
  }

  ghost predicate Between(low: Alerts, mid: Alerts, added: Alerts) {
    && (forall id | id in low :: id in mid && mid[id] == low[id])
    && (forall id | id in mid :: id in low || (id in added && mid[id] == added[id]))
  }

  /** The transaction is new to the store: fresh ids, each once. */
  ghost predicate Fresh(base: Disk, tx: Tx) {
    && tx.scan.id !in base.scans
    && Distinct(Ids(tx.alerts))
    && base.alerts.Keys !! AsMap(tx.alerts).Keys
  }

  lemma BoundIsFresh(base: Disk, tx: Tx)
    requires Integrity(base) && TxBound(base, tx)
    ensures Fresh(base, tx)
  {
    hide ScansWhole, AlertActionsOk, NoteActionsOk, ChainOk, NotificationsBound, AlertsOwned, ScansNumbered, AlertBound,
      EvidenceBound, StatesBound, ScanRecordOk;
    CommitKeepsOldAlerts(base, tx);
  }

  lemma BeginIsInFlight(base: Disk, tx: Tx)
    requires base.marker.None? && |base.alerts| <= MAX_ALERTS
    ensures InFlight(base, tx, Begin(base, tx))
  {
  }

  lemma WriteStepKeeps(base: Disk, tx: Tx, d: Disk, e: Disk)
    requires InFlight(base, tx, d) && Fresh(base, tx) && WriteStep(d, e)
    ensures InFlight(base, tx, e)
  {
    hide Fresh, Between, AsMap, AllPresent, HasRoom;
    ScansApart(base, tx, d);
    if i :| 0 <= i < |tx.alerts| && !Present(d, tx.alerts, i) && |d.alerts| < MAX_ALERTS
            && e == d.(alerts := d.alerts[tx.alerts[i].id := tx.alerts[i]]) {
      AdditionStaysBetween(base, tx, d, i);
    } else {
      AllPresentHasRoom(base, tx, d);
    }
  }

  lemma AdditionStaysBetween(base: Disk, tx: Tx, d: Disk, i: nat)
    requires InFlight(base, tx, d) && Fresh(base, tx) && i < |tx.alerts|
    ensures Between(base.alerts, d.alerts[tx.alerts[i].id := tx.alerts[i]], AsMap(tx.alerts))
  {
    AsMapLooksUp(tx.alerts, i);
  }

  /** The scan file is only created once every alert found a place. */
  lemma AllPresentHasRoom(base: Disk, tx: Tx, d: Disk)
    requires InFlight(base, tx, d) && Fresh(base, tx) && AllPresent(d, tx.alerts) && |base.scans| < MAX_SCANS
    ensures HasRoom(base, tx)
  {
    AllPresentIsWhole(base, tx, d);
    AsMapSize(tx.alerts);
    DisjointUnionSize(base.alerts, AsMap(tx.alerts));
  }

  lemma LossStepKeeps(base: Disk, tx: Tx, d: Disk, e: Disk)
    requires InFlight(base, tx, d) && Fresh(base, tx) && LossStep(d, e)
    ensures InFlight(base, tx, e)
  {
    hide HasRoom, Between, AsMap, Distinct;
    var lost: set<AlertId> :| lost <= AsMap(tx.alerts).Keys && e == d.(alerts := d.alerts - lost);
    LossStaysBetween(base.alerts, d.alerts, AsMap(tx.alerts), lost);
    SmallerSet(e.alerts.Keys, d.alerts.Keys);
  }

  lemma LossStaysBetween(low: Alerts, mid: Alerts, added: Alerts, lost: set<AlertId>)
    requires Between(low, mid, added) && lost <= added.Keys && low.Keys !! added.Keys
    ensures Between(low, mid - lost, added)
  {
  }

  lemma RecoverStepKeeps(base: Disk, tx: Tx, d: Disk, e: Disk)
    requires InFlight(base, tx, d) && Fresh(base, tx) && RecoverStep(d, e)
    ensures if e.marker.Some? then InFlight(base, tx, e) else e == base || (HasRoom(base, tx) && e == Commit(base, tx))
  {
    hide Fresh, Between, AsMap, HasRoom, AllPresent, NonePresent, Present, InFlight, Commit;
    InFlightHasMarker(base, tx, d);
    if tx.scan.id in d.scans {
      if AllPresent(d, tx.alerts) {
        MarkerRemovedFromWhole(base, tx, d);
      } else {
        ScanRemoved(base, tx, d);
      }
    } else if NonePresent(d, tx.alerts) {
      MarkerRemovedFromOld(base, tx, d);
    } else {
      var i :| 0 <= i < |tx.alerts| && Present(d, tx.alerts, i) && e == WithoutAlert(d, tx.alerts[i].id);
      AlertRemoved(base, tx, d, i);
    }
  }

  lemma MarkerRemovedFromWhole(base: Disk, tx: Tx, d: Disk)
    requires InFlight(base, tx, d) && Fresh(base, tx) && tx.scan.id in d.scans && AllPresent(d, tx.alerts)
    ensures HasRoom(base, tx) && d.(marker := None) == Commit(base, tx)
  {
    hide Fresh, Between, AsMap, HasRoom, AllPresent;
    ScansApart(base, tx, d);
    AllPresentIsWhole(base, tx, d);
  }

  lemma MarkerRemovedFromOld(base: Disk, tx: Tx, d: Disk)
    requires InFlight(base, tx, d) && Fresh(base, tx) && tx.scan.id !in d.scans && NonePresent(d, tx.alerts)
    ensures d.(marker := None) == base
  {
    hide Fresh, Between, AsMap, HasRoom, NonePresent;
    ScansApart(base, tx, d);
    NonePresentIsOld(base, tx, d);
  }

  lemma ScanRemoved(base: Disk, tx: Tx, d: Disk)
    requires InFlight(base, tx, d) && Fresh(base, tx) && tx.scan.id in d.scans
    ensures InFlight(base, tx, d.(scans := d.scans - {tx.scan.id}))
  {
    hide Fresh, Between, AsMap, HasRoom;
    ScansApart(base, tx, d);
  }

  lemma AlertRemoved(base: Disk, tx: Tx, d: Disk, i: nat)
    requires InFlight(base, tx, d) && Fresh(base, tx) && i < |tx.alerts|
    ensures InFlight(base, tx, WithoutAlert(d, tx.alerts[i].id))
  {
    hide Fresh, Between, AsMap, HasRoom;
    RemovalStaysBetween(base, tx, d, i);
  }

  lemma ScansApart(base: Disk, tx: Tx, d: Disk)
    requires InFlight(base, tx, d) && Fresh(base, tx)
    ensures tx.scan.id in d.scans ==> d.scans == base.scans[tx.scan.id := tx.scan] && d.scans - {tx.scan.id} == base.scans
    ensures tx.scan.id !in d.scans ==> d.scans == base.scans
  {
    hide Between, Distinct, AsMap;
  }

  lemma NonePresentIsOld(base: Disk, tx: Tx, d: Disk)
    requires InFlight(base, tx, d) && NonePresent(d, tx.alerts)
    ensures d.alerts == base.alerts
  {
    AsMapMembers(tx.alerts);
    forall id | id in AsMap(tx.alerts) ensures id !in d.alerts {
      var i :| 0 <= i < |tx.alerts| && tx.alerts[i].id == id;
      assert !Present(d, tx.alerts, i);
    }
  }

  lemma RemovalStaysBetween(base: Disk, tx: Tx, d: Disk, i: nat)
    requires InFlight(base, tx, d) && Fresh(base, tx) && i < |tx.alerts|
    ensures Between(base.alerts, d.alerts - {tx.alerts[i].id}, AsMap(tx.alerts))
    ensures |d.alerts - {tx.alerts[i].id}| <= |d.alerts|
  {
    AsMapLooksUp(tx.alerts, i);
    SmallerSet((d.alerts - {tx.alerts[i].id}).Keys, d.alerts.Keys);
  }

  lemma AllPresentIsWhole(base: Disk, tx: Tx, d: Disk)
    requires InFlight(base, tx, d) && Fresh(base, tx) && AllPresent(d, tx.alerts)
    ensures d.alerts == base.alerts + AsMap(tx.alerts)
  {
    AsMapMembers(tx.alerts);
    forall id | id in AsMap(tx.alerts) ensures id in d.alerts {
      var i :| 0 <= i < |tx.alerts| && tx.alerts[i].id == id;
      assert Present(d, tx.alerts, i);
    }
  }

  // ----- crash atomicity

  ghost predicate StepAt(h: seq<Disk>, i: nat)
    requires i + 1 < |h|
  {
    h[i].marker.Some? && TxStep(h[i], h[i + 1])
  }

  /** A history of one transaction: begun on base, then any mix of steps, crashes, restarts and losses. */
  ghost predicate TxHistory(base: Disk, tx: Tx, h: seq<Disk>) {
    && |h| > 0 && h[0] == Begin(base, tx)
    && forall i | 0 <= i < |h| - 1 :: StepAt(h, i)
  }

  lemma {:induction false} HistoryStaysInFlight(base: Disk, tx: Tx, h: seq<Disk>, n: nat)
    requires base.marker.None? && |base.alerts| <= MAX_ALERTS && Fresh(base, tx) && TxHistory(base, tx, h) && n < |h|
    ensures if h[n].marker.Some? then InFlight(base, tx, h[n]) else h[n] == base || (HasRoom(base, tx) && h[n] == Commit(base, tx))
  {
    hide InFlight, Fresh, WriteStep, RecoverStep, LossStep, Commit, HasRoom;
    if n == 0 {
      BeginIsInFlight(base, tx);
    } else {
      HistoryStaysInFlight(base, tx, h, n - 1);
      assert StepAt(h, n - 1);
      var d, e := h[n - 1], h[n];
      if WriteStep(d, e) {
        WriteStepKeeps(base, tx, d, e);
        InFlightHasMarker(base, tx, e);
      } else if LossStep(d, e) {
        LossStepKeeps(base, tx, d, e);
        InFlightHasMarker(base, tx, e);
      } else if RecoverStep(d, e) {
        RecoverStepKeeps(base, tx, d, e);
      }
    }
  }

  lemma InFlightHasMarker(base: Disk, tx: Tx, d: Disk)
    requires InFlight(base, tx, d)
    ensures d.marker == Some(MarkerOf(tx))
  {
  }

  lemma IntactHasNoMarker(d: Disk)
    requires Integrity(d)
    ensures d.marker.None? && |d.alerts| <= MAX_ALERTS
  {
  }

  /**
   Crash atomicity.  However often the scan and its recovery are interrupted, and whichever alert
   files are lost while the marker survives: once the marker is gone the store is exactly the old
   one, or the old one plus the scan and all of its alerts.
   */
  lemma ScanIsCrashAtomic(base: Disk, tx: Tx, h: seq<Disk>)
    requires Integrity(base) && TxBound(base, tx)
    requires TxHistory(base, tx, h) && h[|h| - 1].marker.None?
    ensures h[|h| - 1] == base || (HasRoom(base, tx) && h[|h| - 1] == Commit(base, tx))
    ensures Integrity(h[|h| - 1])
  {
    hide TxBound, Commit, StepAt, Fresh, Integrity, InFlight, Begin, HasRoom;
    IntactHasNoMarker(base);
    BoundIsFresh(base, tx);
    HistoryStaysInFlight(base, tx, h, |h| - 1);
    if HasRoom(base, tx) {
      CommitKeepsIntegrity(base, tx);
    }
  }

  /** No action and no notification ever points at a record of the open transaction. */
  lemma NothingPointsIntoTheTransaction(base: Disk, tx: Tx, d: Disk, i: nat)
    requires Integrity(base) && Fresh(base, tx) && InFlight(base, tx, d) && i < |tx.alerts|
    ensures forall k | k in d.actions :: d.actions[k].subject != OnAlert(tx.alerts[i].id)
    ensures forall n | n in d.notifications :: d.notifications[n].source != FromAlert(tx.alerts[i].id)
    ensures forall n | n in d.notifications :: d.notifications[n].source != FromFailedScan(tx.scan.id)
  {
    hide ScansWhole, NoteActionsOk, ChainOk, AlertsOwned, ScansNumbered, ChainValid;
    AsMapLooksUp(tx.alerts, i);
    forall n | n in d.notifications
      ensures d.notifications[n].source != FromAlert(tx.alerts[i].id)
           && d.notifications[n].source != FromFailedScan(tx.scan.id)
    {
      assert NotificationBound(base.scans, base.alerts, base.notifications[n]);
    }
  }

  // ----- recovery never gets stuck and never refuses

  /** Everything recovery verifies before it touches a file. */
  ghost predicate Recoverable(d: Disk) {
    d.marker.Some? &&
    var m := d.marker.value;
    && |m.alerts| <= MAX_RULES && Distinct(Ids(m.alerts)) && m.scanId == m.scan.id
    && (forall i | 0 <= i < |m.alerts| && m.alerts[i].id in d.alerts ::
          d.alerts[m.alerts[i].id] == m.alerts[i] && m.alerts[i].scanId == m.scanId)
    && (m.scanId in d.scans ==>
          && d.scans[m.scanId] == m.scan
          && m.scan.triggered == Ids(m.alerts)
          && (!AllPresent(d, m.alerts) ==> forall s | s in d.scans :: d.scans[s].sequence <= m.scan.sequence))
    && NoActionsOn(d, m.alerts)
  }

  predicate NoActionsOn(d: Disk, alerts: seq<Alert>) {
    forall k, i | k in d.actions && 0 <= i < |alerts| :: d.actions[k].subject != OnAlert(alerts[i].id)
  }

  lemma InFlightIsRecoverable(base: Disk, tx: Tx, d: Disk)
    requires Integrity(base) && TxBound(base, tx) && |tx.alerts| <= MAX_RULES && InFlight(base, tx, d)
    ensures Recoverable(d)
  {
    hide ScansWhole, NoteActionsOk, ChainOk, AlertsOwned, NotificationsBound, ChainValid, EvidenceBound, StatesBound,
      ScanRecordOk, AlertActionsOk, AlertBound, Distinct;
    BoundIsFresh(base, tx);
    TxAlertsNameTheScan(base, tx);
    forall i | 0 <= i < |tx.alerts| && tx.alerts[i].id in d.alerts ensures d.alerts[tx.alerts[i].id] == tx.alerts[i] {
      AsMapLooksUp(tx.alerts, i);
    }
    forall k, i | k in d.actions && 0 <= i < |tx.alerts| ensures d.actions[k].subject != OnAlert(tx.alerts[i].id) {
      NothingPointsIntoTheTransaction(base, tx, d, i);
    }
  }

  /** Files left for recovery to remove. */
  function Remaining(d: Disk): nat {
    |d.alerts| + |d.scans| + (if d.marker.Some? then 1 else 0)
  }

  /** As long as the marker is there recovery has a next step, and each step leaves fewer files. */
  lemma RecoveryMakesProgress(d: Disk)
    requires d.marker.Some?
    ensures exists e :: RecoverStep(d, e)
    ensures forall e | RecoverStep(d, e) :: Remaining(e) < Remaining(d)
  {
    hide RecoverStep, Remaining;
    RecoveryHasNext(d);
    forall e | RecoverStep(d, e) ensures Remaining(e) < Remaining(d) {
      RecoveryShrinks(d, e);
    }
  }

  lemma RecoveryHasNext(d: Disk)
    requires d.marker.Some?
    ensures exists e :: RecoverStep(d, e)
  {
    hide AllPresent, Present;
    var m := d.marker.value;
    if m.scanId in d.scans {
      var e := if AllPresent(d, m.alerts) then d.(marker := None) else d.(scans := d.scans - {m.scanId});
      assert RecoverStep(d, e);
    } else if NonePresent(d, m.alerts) {
      assert RecoverStep(d, d.(marker := None));
    } else {
      var i :| 0 <= i < |m.alerts| && Present(d, m.alerts, i);
      assert RecoverStep(d, WithoutAlert(d, m.alerts[i].id));
    }
  }

  lemma OneFileLess<K, V>(files: map<K, V>, k: K)
    requires k in files
    ensures |files - {k}| == |files| - 1
  {
    assert (files - {k}).Keys == files.Keys - {k};
  }

  lemma RemovalsShrink(d: Disk)
    ensures d.marker.Some? ==> Remaining(d.(marker := None)) < Remaining(d)
    ensures forall id | id in d.scans :: Remaining(d.(scans := d.scans - {id})) < Remaining(d)
    ensures forall id | id in d.alerts :: Remaining(WithoutAlert(d, id)) < Remaining(d)
  {
    forall id | id in d.scans ensures Remaining(d.(scans := d.scans - {id})) < Remaining(d) {
      OneFileLess(d.scans, id);
    }
    forall id | id in d.alerts ensures Remaining(WithoutAlert(d, id)) < Remaining(d) {
      OneFileLess(d.alerts, id);
    }
  }

  lemma RecoveryShrinks(d: Disk, e: Disk)
    requires d.marker.Some? && RecoverStep(d, e)
    ensures Remaining(e) < Remaining(d)
  {
    hide AllPresent, NonePresent, Remaining, WithoutAlert;
    RemovalsShrink(d);
  }
}
