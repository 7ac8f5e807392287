/**
 Whole runs of one owner's store: configuration edits, scans, failed scans, alert and notification
 actions, materialised notifications, crashes, lost files and recoveries, in any order.
 */
module MonitoringRuns {
  import opened Common
  import opened MarketCalendar
  import opened MonitoringConfig
  import opened MonitoringRecords
  import opened ActionChains
  import opened MonitoringStore
  import opened ScanTransaction
  import opened RuleEngine
  import opened AlertSpacing

  // ----- the steps

  /** The snapshot is one of the world's: up to some day of its calendar, and not ahead of its own cutoff. */
  predicate SeenOn(calendar: seq<Date>, snap: Snapshot) {
    && snap.calendar <= calendar
    && snap.evidence.dataDate in snap.calendar
    && snap.evidence.cutoff >= snap.evidence.dataDate
  }

  /** A finished evaluation of all enabled rules. */
  ghost predicate Scanned(calendar: seq<Date>, d: Disk, snap: Snapshot, tx: Tx) {
    SeenOn(calendar, snap) && exists head, actor :: EngineTx(d, head, snap, actor, tx)
  }

  ghost predicate FailedScan(d: Disk, tx: Tx) {
    |d.scans| < MAX_SCANS
    && exists head, snap, sweep, error, actor :: FailedTx(d, head, snap, sweep, error, actor, tx) && CutoffIsNotEarlier(snap)
  }

  ghost predicate ConfigStep(d: Disk, e: Disk) {
    exists ws, rules, id, now, actor, action ::
      NextConfig(d.configs, ws, rules, id, now, actor, action).Ok?
      && e == d.(configs := d.configs + [NextConfig(d.configs, ws, rules, id, now, actor, action).value])
  }

  /** A scan with alerts opens a transaction; a scan without any is a single file. */
  ghost predicate ScanStep(calendar: seq<Date>, d: Disk, e: Disk) {
    exists snap, tx :: Scanned(calendar, d, snap, tx)
      && (if tx.alerts == [] then |d.scans| < MAX_SCANS && e == Commit(d, tx) else e == Begin(d, tx))
  }

  ghost predicate FailedScanStep(d: Disk, e: Disk) {
    exists tx :: FailedScan(d, tx) && e == Commit(d, tx)
  }

  ghost predicate AlertActionStep(d: Disk, e: Disk) {
    exists a :: NextAlertAction(d, a) && e == d.(actions := Append(d.actions, a))
  }

  ghost predicate NoteActionStep(d: Disk, e: Disk) {
    exists a :: NextNoteAction(d, a) && e == d.(noteActions := Append(d.noteActions, a))
  }

  ghost predicate NotificationStep(d: Disk, e: Disk) {
    exists n :: NextNotification(d, n) && e == d.(notifications := d.notifications[n.id := n])
  }

  /** One file operation.  While a transaction is open every entry point recovers it first. */
  ghost predicate Step(calendar: seq<Date>, d: Disk, e: Disk) {
    if d.marker.Some? then TxStep(d, e)
    else
      || e == d || ConfigStep(d, e) || ScanStep(calendar, d, e) || FailedScanStep(d, e)
      || AlertActionStep(d, e) || NoteActionStep(d, e) || NotificationStep(d, e)
  }

  ghost predicate RunStep(calendar: seq<Date>, h: seq<Disk>, i: nat)
    requires i + 1 < |h|
  {
    Step(calendar, h[i], h[i + 1])
  }

  ghost predicate Run(calendar: seq<Date>, h: seq<Disk>) {
    && |h| > 0 && h[0] == EmptyDisk
    && forall i | 0 <= i < |h| - 1 :: RunStep(calendar, h, i)
  }

  // ----- what every step keeps

  ghost predicate Sound(calendar: seq<Date>, d: Disk) {
    Integrity(d) && Spaced(d.scans, d.alerts, calendar) && Rearmed(d.scans, d.alerts)
  }

  /** A transaction that the engine opened on a sound store. */
  ghost predicate Opened(calendar: seq<Date>, base: Disk, snap: Snapshot, tx: Tx) {
    && Sound(calendar, base) && TxBound(base, tx) && |tx.alerts| <= MAX_RULES
    && SeenOn(calendar, snap)
    && forall i | 0 <= i < |tx.alerts| :: Justified(base, snap, tx.alerts[i])
  }

  ghost predicate Inv(calendar: seq<Date>, d: Disk) {
    if d.marker.None? then Sound(calendar, d)
    else exists base, snap, tx :: Opened(calendar, base, snap, tx) && InFlight(base, tx, d)
  }

  lemma EngineOpens(calendar: seq<Date>, d: Disk, snap: Snapshot, tx: Tx)
    requires Sound(calendar, d) && Scanned(calendar, d, snap, tx)
    ensures Opened(calendar, d, snap, tx)
  {
    hide Integrity, Spaced, Rearmed, TxBound, Justified, EngineTx;
    var head, actor :| EngineTx(d, head, snap, actor, tx);
    EngineTxIsBound(d, head, snap, actor, tx);
    EngineAlertsAreJustified(d, head, snap, actor, tx);
  }

  /** A commit of what the engine opened is sound again. */
  lemma CommitIsSound(calendar: seq<Date>, base: Disk, snap: Snapshot, tx: Tx)
    requires StrictlyAscending(calendar) && Opened(calendar, base, snap, tx) && HasRoom(base, tx)
    ensures Sound(calendar, Commit(base, tx))
  {
    hide Integrity, Spaced, Rearmed, TxBound, Justified, Commit, HasRoom;
    CommitKeepsIntegrity(base, tx);
    CommitKeepsSpacing(base, calendar, snap, tx);
    CommitKeepsRearmed(base, snap, tx);
  }

  lemma ScanStepKeeps(calendar: seq<Date>, d: Disk, e: Disk)
    requires StrictlyAscending(calendar) && Sound(calendar, d) && ScanStep(calendar, d, e)
    ensures Inv(calendar, e)
  {
    hide Integrity, Spaced, Rearmed, Scanned, Opened, InFlight;
    var snap, tx :| Scanned(calendar, d, snap, tx)
      && (if tx.alerts == [] then |d.scans| < MAX_SCANS && e == Commit(d, tx) else e == Begin(d, tx));
    EngineOpens(calendar, d, snap, tx);
    IntactHasNoMarker(d);
    if tx.alerts == [] {
      CommitIsSound(calendar, d, snap, tx);
    } else {
      BeginIsInFlight(d, tx);
    }
  }

  lemma FailedScanStepKeeps(calendar: seq<Date>, d: Disk, e: Disk)
    requires StrictlyAscending(calendar) && Sound(calendar, d) && FailedScanStep(d, e)
    ensures Sound(calendar, e) && e.marker.None?
  {
    hide Integrity, Spaced, Rearmed, FailedTx, TxOk, Commit;
    var tx :| FailedScan(d, tx) && e == Commit(d, tx);
    var head, snap, sweep, error, actor :| FailedTx(d, head, snap, sweep, error, actor, tx) && CutoffIsNotEarlier(snap);
    FailedTxIsOk(d, head, snap, sweep, error, actor, tx);
    CommitKeepsIntegrity(d, tx);
    IntactHasNoMarker(e);
    FailedTxHasNoAlerts(d, tx);
    QuietCommitKeepsAlertLaws(calendar, d, tx);
  }

  lemma FailedTxHasNoAlerts(d: Disk, tx: Tx)
    requires FailedScan(d, tx)
    ensures tx.alerts == []
  {
  }

  /** A commit without alerts changes neither the spacing nor what was re-armed. */
  lemma QuietCommitKeepsAlertLaws(calendar: seq<Date>, d: Disk, tx: Tx)
    requires Sound(calendar, d) && TxOk(d, tx) && tx.alerts == []
    ensures Spaced(Commit(d, tx).scans, Commit(d, tx).alerts, calendar) && Rearmed(Commit(d, tx).scans, Commit(d, tx).alerts)
  {
    hide Integrity, Spaced, Rearmed, HasRoom, Distinct, ScanRecordOk, EvidenceBound, StatesBound, AlertBound;
    AlertsNameScans(d);
    assert d.alerts + AsMap(tx.alerts) == d.alerts;
    QuietScanKeepsAlertLaws(d.scans, d.alerts, calendar, tx.scan);
  }

  lemma AlertsNameScans(d: Disk)
    requires Integrity(d)
    ensures ScansNumbered(d.scans) && forall id | id in d.alerts :: d.alerts[id].scanId in d.scans
  {
    hide ScansNumbered, ScansWhole, AlertActionsOk, NoteActionsOk, ChainOk, NotificationsBound;
  }

  lemma QuietScanKeepsAlertLaws(scans: Scans, alerts: Alerts, calendar: seq<Date>, s: Scan)
    requires Spaced(scans, alerts, calendar) && Rearmed(scans, alerts) && ScansNumbered(scans)
    requires forall id | id in alerts :: alerts[id].scanId in scans
    requires s.id !in scans && s.sequence == |scans| + 1
    ensures Spaced(scans[s.id := s], alerts, calendar) && Rearmed(scans[s.id := s], alerts)
  {
    hide GapOk, StillTrue;
    var after := scans[s.id := s];
    forall a, b | Precedes(after, alerts, a, b) ensures GapOk(calendar, alerts[a], alerts[b]) {
      assert Precedes(scans, alerts, a, b);
    }
    forall id | id in alerts ensures !StillTrue(after, alerts[id].ruleFingerprint, after[alerts[id].scanId].sequence) {
      LaterScansDoNotMatter(scans, s, alerts[id].ruleFingerprint, scans[alerts[id].scanId].sequence);
    }
  }

  lemma ConfigStepKeeps(d: Disk, e: Disk)
    requires Integrity(d) && ConfigStep(d, e)
    ensures Integrity(e) && e.scans == d.scans && e.alerts == d.alerts
  {
    hide Integrity, NextConfig, ChainOk;
    var ws, rules, id, now, actor, action :|
      NextConfig(d.configs, ws, rules, id, now, actor, action).Ok?
      && e == d.(configs := d.configs + [NextConfig(d.configs, ws, rules, id, now, actor, action).value]);
    IntactChain(d);
    WrittenIsAcceptedOnRead(d.configs, ws, rules, id, now, actor, action);
    ConfigKeepsIntegrity(d, NextConfig(d.configs, ws, rules, id, now, actor, action).value);
  }

  lemma ActionStepKeeps(d: Disk, e: Disk)
    requires Integrity(d) && (AlertActionStep(d, e) || NoteActionStep(d, e) || NotificationStep(d, e))
    ensures Integrity(e) && e.scans == d.scans && e.alerts == d.alerts
  {
    hide Integrity, NextAlertAction, NextNoteAction, NextNotification, Append;
    if AlertActionStep(d, e) {
      var a :| NextAlertAction(d, a) && e == d.(actions := Append(d.actions, a));
      AlertActionKeepsIntegrity(d, a);
    } else if NoteActionStep(d, e) {
      var a :| NextNoteAction(d, a) && e == d.(noteActions := Append(d.noteActions, a));
      NoteActionKeepsIntegrity(d, a);
    } else {
      var n :| NextNotification(d, n) && e == d.(notifications := d.notifications[n.id := n]);
      NotificationKeepsIntegrity(d, n);
    }
  }

  /** A step of an open transaction leaves it open, or ends in the old store or the whole new one. */
  lemma TxStepOver(calendar: seq<Date>, base: Disk, snap: Snapshot, tx: Tx, d: Disk, e: Disk)
    requires StrictlyAscending(calendar) && Opened(calendar, base, snap, tx) && InFlight(base, tx, d) && TxStep(d, e)
    ensures if e.marker.Some? then InFlight(base, tx, e) else Sound(calendar, e) && (e == base || e == Commit(base, tx))
  {
    hide Sound, TxBound, InFlight, Justified, WriteStep, RecoverStep, LossStep, Fresh, Commit, HasRoom, Integrity;
    SoundIsIntact(calendar, base);
    IntactHasNoMarker(base);
    BoundIsFresh(base, tx);
    InFlightHasMarker(base, tx, d);
    if WriteStep(d, e) {
      WriteStepKeeps(base, tx, d, e);
      InFlightHasMarker(base, tx, e);
    } else if LossStep(d, e) {
      LossStepKeeps(base, tx, d, e);
      InFlightHasMarker(base, tx, e);
    } else if RecoverStep(d, e) {
      RecoverStepKeeps(base, tx, d, e);
      if e.marker.None? && e != base {
        CommitIsSound(calendar, base, snap, tx);
      }
    }
  }

  lemma TxStepKeeps(calendar: seq<Date>, d: Disk, e: Disk)
    requires StrictlyAscending(calendar) && d.marker.Some? && Inv(calendar, d) && TxStep(d, e)
    ensures Inv(calendar, e)
  {
    hide Sound, Opened, InFlight, TxStep, Commit;
    var base, snap, tx :| Opened(calendar, base, snap, tx) && InFlight(base, tx, d);
    TxStepOver(calendar, base, snap, tx, d, e);
  }

  lemma SoundIsIntact(calendar: seq<Date>, d: Disk)
    requires Sound(calendar, d)
    ensures Integrity(d)
  {
  }

  lemma StepKeepsInv(calendar: seq<Date>, d: Disk, e: Disk)
    requires StrictlyAscending(calendar) && Inv(calendar, d) && Step(calendar, d, e)
    ensures Inv(calendar, e)
  {
    hide Integrity, Spaced, Rearmed, Opened, InFlight, TxStep, ConfigStep, ScanStep, FailedScanStep, AlertActionStep,
      NoteActionStep, NotificationStep;
    if d.marker.Some? {
      TxStepKeeps(calendar, d, e);
    } else if ScanStep(calendar, d, e) {
      ScanStepKeeps(calendar, d, e);
    } else if FailedScanStep(d, e) {
      FailedScanStepKeeps(calendar, d, e);
    } else if ConfigStep(d, e) {
      ConfigStepKeeps(d, e);
      IntactHasNoMarker(e);
    } else if AlertActionStep(d, e) || NoteActionStep(d, e) || NotificationStep(d, e) {
      ActionStepKeeps(d, e);
      IntactHasNoMarker(e);
    }
  }

  lemma EmptyIsSound(calendar: seq<Date>)
    ensures Inv(calendar, EmptyDisk)
  {
    EmptyDiskIsIntact();
  }

  /** Every store any run can reach is sound, or in flight over a sound one. */
  lemma {:induction false} EveryRunKeepsInv(calendar: seq<Date>, h: seq<Disk>, n: nat)
    requires StrictlyAscending(calendar) && Run(calendar, h) && n < |h|
    ensures Inv(calendar, h[n])
  {
    hide Inv, Step;
    if n == 0 {
      EmptyIsSound(calendar);
    } else {
      EveryRunKeepsInv(calendar, h, n - 1);
      assert RunStep(calendar, h, n - 1);
      StepKeepsInv(calendar, h[n - 1], h[n]);
    }
  }

  // ----- nothing is ever lost or rewritten

  /** Every record of the first store is still there, unchanged. */
  ghost predicate Extends(first: Disk, d: Disk) {
    && first.configs <= d.configs
    && first.scans.Items <= d.scans.Items && first.alerts.Items <= d.alerts.Items
    && first.actions.Items <= d.actions.Items
    && first.notifications.Items <= d.notifications.Items && first.noteActions.Items <= d.noteActions.Items
  }

  lemma ExtendsChains(a: Disk, b: Disk, c: Disk)
    requires Extends(a, b) && Extends(b, c)
    ensures Extends(a, c)
  {
  }

  lemma ItemsGrow<K, V>(m: map<K, V>, k: K, v: V)
    requires k !in m
    ensures m.Items <= m[k := v].Items
  {
    forall item | item in m.Items ensures item in m[k := v].Items {
      assert item.0 in m[k := v] && m[k := v][item.0] == item.1;
    }
  }

  lemma ItemsWithin<K, V>(m: map<K, V>, n: map<K, V>)
    requires forall k | k in m :: k in n && n[k] == m[k]
    ensures m.Items <= n.Items
  {
    forall item | item in m.Items ensures item in n.Items {
      assert item.0 in n && n[item.0] == item.1;
    }
  }

  lemma CommitExtends(d: Disk, tx: Tx)
    requires Integrity(d) && TxBound(d, tx)
    ensures Extends(d, Commit(d, tx))
  {
    hide Integrity, Distinct, ScanRecordOk, EvidenceBound, StatesBound, AlertBound, ConfigBound, AsMap;
    CommitKeepsOldAlerts(d, tx);
    ItemsGrow(d.scans, tx.scan.id, tx.scan);
    ItemsWithin(d.alerts, Commit(d, tx).alerts);
  }

  lemma InFlightExtends(base: Disk, tx: Tx, d: Disk)
    requires InFlight(base, tx, d) && tx.scan.id !in base.scans
    ensures Extends(base, d)
  {
    hide HasRoom;
    ItemsWithin(base.alerts, d.alerts);
    ItemsGrow(base.scans, tx.scan.id, tx.scan);
  }

  lemma ActionStepExtends(d: Disk, e: Disk)
    requires Integrity(d) && (AlertActionStep(d, e) || NoteActionStep(d, e) || NotificationStep(d, e) || ConfigStep(d, e))
    ensures Extends(d, e)
  {
    hide Integrity, NextConfig, ChainValid, Lawful, Expected;
    if AlertActionStep(d, e) {
      var a :| NextAlertAction(d, a) && e == d.(actions := Append(d.actions, a));
      ItemsGrow(d.actions, a.id, a);
    } else if NoteActionStep(d, e) {
      var a :| NextNoteAction(d, a) && e == d.(noteActions := Append(d.noteActions, a));
      ItemsGrow(d.noteActions, a.id, a);
    } else if NotificationStep(d, e) {
      var n :| NextNotification(d, n) && e == d.(notifications := d.notifications[n.id := n]);
      ItemsGrow(d.notifications, n.id, n);
    }
  }

  /** The store, or what it goes back to, still holds everything of the first. */
  ghost predicate HoldsFrom(calendar: seq<Date>, first: Disk, d: Disk) {
    if d.marker.None? then Extends(first, d)
    else exists base, snap, tx :: Opened(calendar, base, snap, tx) && InFlight(base, tx, d) && Extends(first, base)
  }

  lemma IdleStepHolds(calendar: seq<Date>, d: Disk, e: Disk)
    requires StrictlyAscending(calendar) && Sound(calendar, d) && d.marker.None? && Step(calendar, d, e)
    ensures HoldsFrom(calendar, d, e)
  {
    hide Integrity, Spaced, Rearmed, Scanned, Opened, InFlight, Commit, Begin, ConfigStep, AlertActionStep, NoteActionStep,
      NotificationStep, TxBound, Extends, FailedTx;
    SoundIsIntact(calendar, d);
    ExtendsItself(d);
    if e == d {
    } else if ScanStep(calendar, d, e) {
      var snap, tx :| Scanned(calendar, d, snap, tx)
        && (if tx.alerts == [] then |d.scans| < MAX_SCANS && e == Commit(d, tx) else e == Begin(d, tx));
      EngineOpens(calendar, d, snap, tx);
      OpenedIsBound(calendar, d, snap, tx);
      CommitExtends(d, tx);
      IntactHasNoMarker(d);
      if tx.alerts == [] {
        CommitHasNoMarker(d, tx);
      } else {
        BeginIsInFlight(d, tx);
        InFlightHasMarker(d, tx, e);
      }
    } else if FailedScanStep(d, e) {
      FailedScanExtends(calendar, d, e);
    } else {
      ActionStepExtends(d, e);
      if ConfigStep(d, e) {
        ConfigStepKeeps(d, e);
      } else {
        ActionStepKeeps(d, e);
      }
      IntactHasNoMarker(e);
    }
  }

  lemma ExtendsItself(d: Disk)
    ensures Extends(d, d)
  {
  }

  lemma OpenedIsBound(calendar: seq<Date>, d: Disk, snap: Snapshot, tx: Tx)
    requires Opened(calendar, d, snap, tx)
    ensures TxBound(d, tx) && tx.scan.id !in d.scans
  {
    hide Sound, Justified, Distinct, ScanRecordOk, EvidenceBound, StatesBound, AlertBound;
  }

  lemma CommitHasNoMarker(d: Disk, tx: Tx)
    requires d.marker.None?
    ensures Commit(d, tx).marker.None?
  {
  }

  lemma FailedScanExtends(calendar: seq<Date>, d: Disk, e: Disk)
    requires Sound(calendar, d) && FailedScanStep(d, e)
    ensures Extends(d, e) && e.marker.None?
  {
    hide Integrity, Spaced, Rearmed, FailedTx, TxBound, HasRoom, Commit, Extends;
    var tx :| FailedScan(d, tx) && e == Commit(d, tx);
    var head, snap, sweep, error, actor :| FailedTx(d, head, snap, sweep, error, actor, tx) && CutoffIsNotEarlier(snap);
    FailedTxIsOk(d, head, snap, sweep, error, actor, tx);
    IntactHasNoMarker(d);
    CommitExtends(d, tx);
    CommitHasNoMarker(d, tx);
  }

  lemma {:induction false} RunHolds(calendar: seq<Date>, h: seq<Disk>, i: nat, j: nat)
    requires StrictlyAscending(calendar) && Run(calendar, h) && i <= j < |h| && h[i].marker.None?
    ensures HoldsFrom(calendar, h[i], h[j])
    decreases j
  {
    hide Opened, InFlight, TxStep, Extends, Commit, Sound;
    if i == j {
      ExtendsItself(h[i]);
    } else {
      RunHolds(calendar, h, i, j - 1);
      EveryRunKeepsInv(calendar, h, j - 1);
      var d, e := h[j - 1], h[j];
      assert RunStep(calendar, h, j - 1);
      if d.marker.None? {
        IdleStepHolds(calendar, d, e);
        HoldsOn(calendar, h[i], d, e);
      } else {
        var base, snap, tx :| Opened(calendar, base, snap, tx) && InFlight(base, tx, d) && Extends(h[i], base);
        TxStepOver(calendar, base, snap, tx, d, e);
        if e.marker.None? && e != base {
          OpenedIsBound(calendar, base, snap, tx);
          OpenedIsSound(calendar, base, snap, tx);
          SoundIsIntact(calendar, base);
          CommitExtends(base, tx);
          ExtendsChains(h[i], base, e);
        }
      }
    }
  }

  lemma OpenedIsSound(calendar: seq<Date>, base: Disk, snap: Snapshot, tx: Tx)
    requires Opened(calendar, base, snap, tx)
    ensures Sound(calendar, base)
  {
    hide Sound, TxBound, Justified;
  }

  lemma HoldsOn(calendar: seq<Date>, first: Disk, d: Disk, e: Disk)
    requires Extends(first, d) && HoldsFrom(calendar, d, e)
    ensures HoldsFrom(calendar, first, e)
  {
    hide Opened, InFlight, Extends;
    if e.marker.None? {
      ExtendsChains(first, d, e);
    } else {
      var base, snap, tx :| Opened(calendar, base, snap, tx) && InFlight(base, tx, e) && Extends(d, base);
      ExtendsChains(first, d, base);
    }
  }

  /**
   Evidence is append-only.  Whatever is on record while no transaction is open stays on record,
   unchanged, in every later state of the run, in the middle of transactions, crashes and recoveries too.
   */
  lemma RecordsAreNeverLost(calendar: seq<Date>, h: seq<Disk>, i: nat, j: nat)
    requires StrictlyAscending(calendar) && Run(calendar, h) && i <= j < |h| && h[i].marker.None?
    ensures Extends(h[i], h[j])
  {
    hide Run, Opened, InFlight, Extends;
    RunHolds(calendar, h, i, j);
    if h[j].marker.Some? {
      var base, snap, tx :| Opened(calendar, base, snap, tx) && InFlight(base, tx, h[j]) && Extends(h[i], base);
      OpenedIsBound(calendar, base, snap, tx);
      InFlightExtends(base, tx, h[j]);
      ExtendsChains(h[i], base, h[j]);
    }
  }

  // ----- the theorems about runs

  /** Between transactions the whole verification passes: scans 1..n, owned alerts, valid chains, exact projections. */
  lemma EveryRunIsIntact(calendar: seq<Date>, h: seq<Disk>, n: nat)
    requires StrictlyAscending(calendar) && Run(calendar, h) && n < |h| && h[n].marker.None?
    ensures Integrity(h[n])
    ensures Sequences(h[n].scans) == UpTo(|h[n].scans|)
    ensures |h[n].notifications| + |Missing(h[n])| <= MAX_NOTIFICATIONS
  {
    hide Run, Missing;
    EveryRunKeepsInv(calendar, h, n);
    NumbersAreContiguous(h[n].scans);
    NotificationCapIsNeverHit(h[n]);
  }

  /** Whatever a crash leaves behind, recovery accepts it, and nothing else points into the transaction. */
  lemma EveryCrashIsRecoverable(calendar: seq<Date>, h: seq<Disk>, n: nat)
    requires StrictlyAscending(calendar) && Run(calendar, h) && n < |h| && h[n].marker.Some?
    ensures Recoverable(h[n])
    ensures forall i, k | 0 <= i < |h[n].marker.value.alerts| && k in h[n].notifications ::
              h[n].notifications[k].source != FromAlert(h[n].marker.value.alerts[i].id)
  {
    hide Run, Sound, Justified, Fresh, TxBound, Integrity, Recoverable, InFlight;
    EveryRunKeepsInv(calendar, h, n);
    var base, snap, tx :| Opened(calendar, base, snap, tx) && InFlight(base, tx, h[n]);
    SoundIsIntact(calendar, base);
    BoundIsFresh(base, tx);
    InFlightIsRecoverable(base, tx, h[n]);
    InFlightHasMarker(base, tx, h[n]);
    forall i | 0 <= i < |tx.alerts|
      ensures forall k | k in h[n].notifications :: h[n].notifications[k].source != FromAlert(tx.alerts[i].id)
    {
      NothingPointsIntoTheTransaction(base, tx, h[n], i);
    }
  }

  /** Alert spacing over whole runs, in sessions of the calendar; the later scan's alert has the later date. */
  lemma AlertsOfEveryRunAreFarApart(calendar: seq<Date>, h: seq<Disk>, n: nat, a: AlertId, b: AlertId)
    requires StrictlyAscending(calendar) && Run(calendar, h) && n < |h| && h[n].marker.None?
    requires a in h[n].alerts && b in h[n].alerts && a != b
    requires h[n].alerts[a].rule == h[n].alerts[b].rule && h[n].alerts[a].ruleFingerprint == h[n].alerts[b].ruleFingerprint
    ensures h[n].alerts[a].scanId in h[n].scans && h[n].alerts[b].scanId in h[n].scans
    ensures var x, y := h[n].alerts[a].evidence.dataDate, h[n].alerts[b].evidence.dataDate;
            && x in calendar && y in calendar && x != y
            && var (early, late) := if x < y then (x, y) else (y, x);
               IndexOf(calendar, late) - IndexOf(calendar, early) > h[n].alerts[a].ruleFingerprint.spec.cooldown
    ensures h[n].alerts[a].evidence.dataDate < h[n].alerts[b].evidence.dataDate
        <==> h[n].scans[h[n].alerts[a].scanId].sequence < h[n].scans[h[n].alerts[b].scanId].sequence
  {
    hide Run, Integrity, Spaced, Rearmed, IndexOf;
    EveryRunKeepsInv(calendar, h, n);
    AlertsNameScans(h[n]);
    AlertsAreFarApart(h[n], calendar, a, b);
  }

  /** Between two alerts of a rule some scan that did not fail saw the rule not triggered, or changed. */
  lemma EveryRunRearmsBetweenAlerts(calendar: seq<Date>, h: seq<Disk>, n: nat, a: AlertId, b: AlertId)
    requires StrictlyAscending(calendar) && Run(calendar, h) && n < |h| && h[n].marker.None?
    requires Precedes(h[n].scans, h[n].alerts, a, b)
    ensures exists m :: IsLatest(h[n].scans, h[n].alerts[b].rule, h[n].scans[h[n].alerts[b].scanId].sequence, m)
                        && h[n].scans[h[n].alerts[a].scanId].sequence < h[n].scans[m].sequence
                        && !(h[n].scans[m].ruleStates[h[n].alerts[b].rule].triggered
                             && h[n].scans[m].ruleStates[h[n].alerts[b].rule].fingerprint == h[n].alerts[b].ruleFingerprint)
  {
    hide Run, Integrity, Spaced, Rearmed, IsLatest;
    EveryRunKeepsInv(calendar, h, n);
    RuleWasRearmedBetween(h[n], a, b);
  }

  /**
   The rollback relies on a create that reports failure having left nothing behind.  Were such a file
   visible, it would be missing from the list of alerts to roll back, stay when the marker goes, and
   no later call on the store would be accepted.
   */
  lemma OrphanAlertBreaksIntegrity(base: Disk, tx: Tx, i: nat)
    requires Integrity(base) && TxBound(base, tx) && i < |tx.alerts|
    ensures !Integrity(base.(alerts := base.alerts[tx.alerts[i].id := tx.alerts[i]]))
  {
    hide ScansWhole, AlertActionsOk, NoteActionsOk, ChainOk, NotificationsBound, ScansNumbered;
    TxAlertsNameTheScan(base, tx);
    var orphan := base.(alerts := base.alerts[tx.alerts[i].id := tx.alerts[i]]);
    assert tx.alerts[i].id in orphan.alerts && orphan.alerts[tx.alerts[i].id].scanId !in orphan.scans;
  }
}
