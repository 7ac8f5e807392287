/**
 The owner's store as the program works on it: one file operation after the other, any of which may
 fail or be the last before the power goes.  Every method extends one run of `MonitoringRuns`.
 */
module MonitoringProfile {
  import opened Common
  import opened MarketCalendar
  import opened MonitoringConfig
  import opened MonitoringRecords
  import opened ActionChains
  import opened MonitoringStore
  import opened ScanTransaction
  import opened RuleEngine
  import opened AlertSpacing
  import opened MonitoringRuns
  import opened SweepLaws
  import opened WatchlistLaws
  import opened ProfileModel

  /** The files of one subject, sorted by sequence. */
  method ReadChain(actions: Actions, subject: Subject, initial: Status, binding: SubjectFingerprint) returns (chain: seq<Action>)
    requires ChainValid(actions, subject, initial, binding)
    ensures chain == ChainOf(actions, subject, initial, binding)
  {
    hide ChainValid, Linked, Related;
    var related := Related(actions, subject);
    ghost var whole := ChainOf(actions, subject, initial, binding);
    chain := [];
    while |chain| < |related|
      invariant |chain| <= |related| && chain == whole[..|chain|]
    {
      assert whole[|chain|] in related;
      var a :| a in related && a.sequence == |chain| + 1;
      NumberedCovers(related, whole);
      chain := chain + [a];
    }
  }

  /** A fresh uuid. */
  method UnusedId(used: set<nat>) returns (id: nat)
    ensures id !in used
  {
    id := 0;
    var rest := used;
    while rest != {}
      invariant rest <= used && forall x | x in used && x !in rest :: x < id
      decreases rest
    {
      var x :| x in rest;
      rest := rest - {x};
      if x >= id {
        id := x + 1;
      }
    }
  }

  class Profile {
    var disk: Disk
    var operations: nat
    const faults: nat -> Fault
    ghost const calendar: seq<Date>
    ghost var history: seq<Disk>

    /** The history is a run that ends in the present store. */
    ghost predicate Valid()
      reads this
    {
      StrictlyAscending(calendar) && Run(calendar, history) && history[|history| - 1] == disk
    }

    constructor (faults: nat -> Fault, ghost calendar: seq<Date>)
      requires StrictlyAscending(calendar)
      ensures Valid() && disk == EmptyDisk && this.calendar == calendar
    {
      this.faults := faults;
      this.calendar := calendar;
      operations := 0;
      disk := EmptyDisk;
      history := [EmptyDisk];
    }

    /** No file operation ever fails. */
    ghost predicate AlwaysWorks() {
      forall k: nat :: faults(k).Works?
    }

    lemma ValidKeepsInv()
      requires Valid()
      ensures Inv(calendar, disk)
    {
      hide Inv, RunStep;
      EveryRunKeepsInv(calendar, history, |history| - 1);
    }

    /** One file operation.  A create that reports failure is `clean`: it left nothing behind. */
    method Apply(next: Disk, clean: bool) returns (io: Io)
      requires Valid() && Step(calendar, disk, next)
      modifies this
      ensures Valid() && old(history) <= history
      ensures io.Done? ==> disk == next
      ensures io.Error? && clean ==> disk == old(disk)
      ensures disk == old(disk) || disk == next
      ensures AlwaysWorks() ==> io.Done?
    {
      hide Step, Run;
      var fault := faults(operations);
      operations := operations + 1;
      if fault.Works? || fault.LosesPowerAfterwards? || (fault.FailsAfterwards? && !clean) {
        RunGrows(calendar, history, next);
        disk := next;
        history := history + [next];
      }
      io := match fault
        case Works => Done
        case Fails => Io.Error
        case FailsAfterwards => Io.Error
        case _ => PowerLost;
    }

    /** A power loss may take some alert files of the open transaction with it. */
    method LoseFiles(lost: set<AlertId>)
      requires Valid() && disk.marker.Some? && lost <= AsMap(disk.marker.value.alerts).Keys
      modifies this
      ensures Valid() && old(history) <= history
      ensures disk == old(disk).(alerts := old(disk).alerts - lost)
    {
      hide Run, Step;
      var next := disk.(alerts := disk.alerts - lost);
      assert LossStep(disk, next);
      TxStepIsStep(calendar, disk, next);
      RunGrows(calendar, history, next);
      disk := next;
      history := history + [next];
    }

    // ----- recovery

    /** Removes the alert files of a transaction whose scan is not there, from the n-th down to the first. */
    method RemoveAlerts(ghost base: Disk, ghost tx: Tx, alerts: seq<Alert>, n: nat) returns (io: Io)
      requires Valid() && Fresh(base, tx) && InFlight(base, tx, disk) && alerts == tx.alerts && n <= |alerts|
      requires tx.scan.id !in disk.scans && forall i | n <= i < |alerts| :: !Present(disk, alerts, i)
      modifies this
      ensures Valid() && old(history) <= history
      ensures InFlight(base, tx, disk) && tx.scan.id !in disk.scans
      ensures io.Done? ==> NonePresent(disk, alerts)
      ensures AlwaysWorks() ==> io.Done?
    {
      hide Run, Step, Fresh, InFlight;
      io := Done;
      var i := n;
      while i > 0
        invariant 0 <= i <= n
        invariant Valid() && old(history) <= history && InFlight(base, tx, disk) && tx.scan.id !in disk.scans
        invariant forall k | i <= k < |alerts| :: !Present(disk, alerts, k)
        invariant io.Done?
      {
        i := i - 1;
        StillAbsent(disk, alerts, i);
        if alerts[i].id in disk.alerts {
          var next := WithoutAlert(disk, alerts[i].id);
          InFlightHasMarker(base, tx, disk);
          assert Present(disk, alerts, i);
          assert RecoverStep(disk, next);
          RecoverStepKeeps(base, tx, disk, next);
          TxStepIsStep(calendar, disk, next);
          io := Apply(next, false);
          if !io.Done? { return; }
        }
      }
    }

    /** Unlinks the marker once everything, or nothing, of the transaction is there. */
    method RemoveMarker(ghost base: Disk, ghost tx: Tx) returns (io: Io)
      requires Valid() && Fresh(base, tx) && InFlight(base, tx, disk)
      requires if tx.scan.id in disk.scans then AllPresent(disk, tx.alerts) else NonePresent(disk, tx.alerts)
      modifies this
      ensures Valid() && old(history) <= history
      ensures var after := if tx.scan.id in old(disk).scans then Commit(base, tx) else base;
              && (disk == old(disk) || disk == after)
              && (io.Done? ==> disk == after)
      ensures AlwaysWorks() ==> io.Done?
    {
      hide Run, Step, Fresh, InFlight, Commit, AllPresent, NonePresent, HasRoom;
      InFlightHasMarker(base, tx, disk);
      var next := disk.(marker := None);
      if tx.scan.id in disk.scans {
        MarkerRemovedFromWhole(base, tx, disk);
      } else {
        MarkerRemovedFromOld(base, tx, disk);
      }
      assert RecoverStep(disk, next);
      TxStepIsStep(calendar, disk, next);
      io := Apply(next, false);
    }

    /**
     `_recover_scan_transaction_unlocked`: the scan with all its alerts is completed; anything less is
     removed, the scan first, then its alerts, then the marker.
     */
    method RecoverTo(ghost base: Disk, ghost tx: Tx) returns (io: Io)
      requires Valid() && Fresh(base, tx) && InFlight(base, tx, disk)
      modifies this
      ensures Valid() && old(history) <= history
      ensures io.Done? ==>
        disk == (if tx.scan.id in old(disk).scans && AllPresent(old(disk), tx.alerts) then Commit(base, tx) else base)
      ensures !io.Done? ==> InFlight(base, tx, disk) || disk == base || disk == Commit(base, tx)
      ensures AlwaysWorks() ==> io.Done?
    {
      hide Run, Step, Fresh, InFlight, Commit, AllPresent, NonePresent;
      InFlightHasMarker(base, tx, disk);
      var m := disk.marker.value;
      if m.scanId in disk.scans {
        if AllPresent(disk, m.alerts) {
          io := RemoveMarker(base, tx);
          return;
        }
        var next := disk.(scans := disk.scans - {m.scanId});
        assert RecoverStep(disk, next);
        ScanRemoved(base, tx, disk);
        TxStepIsStep(calendar, disk, next);
        io := Apply(next, false);
        if !io.Done? { return; }
      }
      io := RemoveAlerts(base, tx, m.alerts, |m.alerts|);
      if io.Done? {
        io := RemoveMarker(base, tx);
      }
    }

    /** Every entry point starts here.  Recovery never refuses: what a run leaves behind is recoverable. */
    method Recover() returns (io: Io)
      requires Valid()
      modifies this
      ensures Valid() && old(history) <= history
      ensures old(disk).marker.None? ==> io.Done? && disk == old(disk)
      ensures io.Done? ==> Sound(calendar, disk) && disk.marker.None? && disk == Recovered(old(disk))
      ensures disk.configs == old(disk).configs && disk.actions == old(disk).actions
      ensures AlwaysWorks() ==> io.Done?
    {
      hide Run, Step, Fresh, InFlight, Commit, Sound, TxBound, Justified, SeenOn, Recovered, AllPresent;
      ValidKeepsInv();
      if disk.marker.None? {
        NothingToRecover(disk);
        return Done;
      }
      ghost var base, snap, tx :| Opened(calendar, base, snap, tx) && InFlight(base, tx, disk);
      SoundIsIntact(calendar, base);
      BoundIsFresh(base, tx);
      InFlightFrame(base, tx, disk);
      RecoveredIsOldOrNew(base, tx, disk);
      io := RecoverTo(base, tx);
      ValidKeepsInv();
      if InFlight(base, tx, disk) {
        InFlightFrame(base, tx, disk);
      }
      CommitFrame(base, tx);
    }

    // ----- evaluating the rules

    /** `_latest_rule_states_unlocked`: from the newest scan down, the first state seen of each rule is kept. */
    method LatestStates() returns (states: map<RuleId, RuleState>)
      requires ScansNumbered(disk.scans)
      ensures forall fp: RuleFingerprint :: StillTrue(disk.scans, fp, |disk.scans| + 1)
                <==> fp.id in states && states[fp.id].fingerprint == fp && states[fp.id].triggered
    {
      hide LatestAbove, Records, StillTrue, ScansNumbered;
      states := map[];
      NothingAboveTheNewest(disk.scans);
      var k := |disk.scans|;
      while k > 0
        invariant 0 <= k <= |disk.scans|
        invariant LatestAbove(disk.scans, states, k)
      {
        SomeScanHasNumber(disk.scans, k);
        var id :| id in disk.scans && disk.scans[id].sequence == k;
        OneScanDown(disk.scans, states, k, id);
        if !disk.scans[id].status.Failed? {
          states := disk.scans[id].ruleStates + states;
        }
        k := k - 1;
      }
      StatesAreLatest(disk.scans, states);
    }

    /** `_latest_alert_for_rule_unlocked` */
    method LastAlert(rule: RuleFingerprint) returns (found: Option<AlertId>)
      requires forall id | id in disk.alerts :: disk.alerts[id].scanId in disk.scans
      ensures found.Some? ==> IsLastAlert(disk.scans, disk.alerts, rule, found.value)
      ensures found.None? ==> forall id :: !IsLastAlert(disk.scans, disk.alerts, rule, id)
    {
      found := None;
      var rest := disk.alerts.Keys;
      while rest != {}
        invariant rest <= disk.alerts.Keys
        invariant found.Some? ==> found.value in disk.alerts && disk.alerts[found.value].rule == rule.id
                                  && disk.alerts[found.value].ruleFingerprint == rule
        invariant forall k | k in disk.alerts.Keys - rest && disk.alerts[k].rule == rule.id && disk.alerts[k].ruleFingerprint == rule ::
                    found.Some? && disk.scans[disk.alerts[k].scanId].sequence <= disk.scans[disk.alerts[found.value].scanId].sequence
        decreases rest
      {
        var id :| id in rest;
        rest := rest - {id};
        var a := disk.alerts[id];
        if a.rule == rule.id && a.ruleFingerprint == rule
           && (found.None? || disk.scans[disk.alerts[found.value].scanId].sequence <= disk.scans[a.scanId].sequence) {
          found := Some(id);
        }
      }
    }

    method Judge(ws: seq<Watchlist>, snap: Snapshot, states: map<RuleId, RuleState>, r: Rule) returns (v: Verdict)
      requires Integrity(disk)
      requires forall fp: RuleFingerprint :: StillTrue(disk.scans, fp, |disk.scans| + 1)
                 <==> fp.id in states && states[fp.id].fingerprint == fp && states[fp.id].triggered
      ensures v == VerdictOn(disk, ws, snap, r)
    {
      hide StillTrue, Integrity, IsLastAlert;
      var fp := FingerprintOf(r);
      if !Watched(ws, r) {
        return Skipped("watchlist_disabled");
      }
      match snap.evaluate(r) {
        case Excluded(code) => v := Skipped(code);
        case Raises(message) => v := Aborted(message);
        case Observed(triggered, _, _, _) =>
          if !triggered {
            return Quiet;
          }
          if r.id in states && states[r.id].fingerprint == fp && states[r.id].triggered {
            return Suppressed(ConditionStillTrue);
          }
          AlertsNameScans(disk);
          var last := LastAlert(fp);
          if last.Some? {
            LastAlertDecides(disk, fp, last.value, snap.evidence.dataDate, snap.calendar);
          }
          if last.Some? && SessionsSince(snap.calendar, disk.alerts[last.value].evidence.dataDate, snap.evidence.dataDate)
                           <= r.spec.cooldown {
            return Suppressed(Cooldown);
          }
          v := Fires;
      }
    }

    /** The loop over the enabled rules; it ends early when an evaluation raises. */
    method Evaluate(head: Header, snap: Snapshot, rules: seq<Rule>) returns (sweep: Sweep)
      requires Integrity(disk)
      ensures sweep == SweepOf(disk, head.config.watchlists, head, snap, rules)
      ensures DistinctRules(rules) ==> Accounts(disk, head.config.watchlists, head, snap, rules, sweep)
    {
      hide Integrity, VerdictOn, StillTrue, Observe, Accounts;
      AlertsNameScans(disk);
      var states := LatestStates();
      sweep := EmptySweep;
      var i := 0;
      assert rules[..0] == [];
      while i < |rules| && sweep.aborted.None?
        invariant 0 <= i <= |rules|
        invariant sweep == SweepOf(disk, head.config.watchlists, head, snap, rules[..i])
      {
        var v := Judge(head.config.watchlists, snap, states, rules[i]);
        VerdictMeans(disk, head.config.watchlists, head, snap, rules[i]);
        assert rules[..i + 1][..i] == rules[..i];
        sweep := Observe(sweep, head, snap, rules[i], v);
        i := i + 1;
      }
      AbortedSweepStays(disk, head.config.watchlists, head, snap, rules, i);
      if DistinctRules(rules) {
        SweepAccounts(disk, head.config.watchlists, head, snap, rules);
      }
    }

    // ----- writing a scan

    /** Creates the alert files in order; stops at the first that fails or that the limit refuses. */
    method WriteAlerts(ghost base: Disk, ghost tx: Tx, alerts: seq<Alert>) returns (io: Io, n: nat)
      requires Valid() && Fresh(base, tx) && InFlight(base, tx, disk) && alerts == tx.alerts
      requires tx.scan.id !in disk.scans && NonePresent(disk, alerts)
      modifies this
      ensures Valid() && old(history) <= history && InFlight(base, tx, disk) && tx.scan.id !in disk.scans && n <= |alerts|
      ensures io.Error? ==> forall k | n <= k < |alerts| :: !Present(disk, alerts, k)
      ensures io.Done? ==> AllPresent(disk, alerts)
      ensures AlwaysWorks() && HasRoom(base, tx) ==> io.Done?
      ensures AlwaysWorks() ==> !io.PowerLost?
    {
      hide Run, Step, Fresh, InFlight, HasRoom;
      io, n := Done, 0;
      while n < |alerts|
        invariant n <= |alerts|
        invariant Valid() && old(history) <= history && InFlight(base, tx, disk) && tx.scan.id !in disk.scans
        invariant forall k | 0 <= k < |alerts| :: Present(disk, alerts, k) <==> k < n
        invariant io.Done?
      {
        if |disk.alerts| >= MAX_ALERTS {
          MissingAlertHasRoom(base, tx, disk, n);
          io := Io.Error;
          return;
        }
        var next := disk.(alerts := disk.alerts[alerts[n].id := alerts[n]]);
        InFlightHasMarker(base, tx, disk);
        assert !Present(disk, alerts, n);
        assert WriteStep(disk, next);
        WriteStepKeeps(base, tx, disk, next);
        OneMorePresent(base, tx, disk, n);
        TxStepIsStep(calendar, disk, next);
        io := Apply(next, true);
        if !io.Done? { return; }
        n := n + 1;
      }
    }

    /** Writes one scan record that stands alone. */
    method WriteFailedScan(ghost head: Header, ghost snap: Option<Snapshot>, ghost sweep: Sweep, ghost actor: string,
                           ghost error: string, scan: Scan)
      returns (outcome: Outcome)
      requires Valid() && disk.marker.None? && FailedTx(disk, head, snap, sweep, error, actor, Tx(scan, [])) && CutoffIsNotEarlier(snap)
      modifies this
      ensures Valid() && old(history) <= history
      ensures match outcome
              case Finished(s) => s == scan && |old(disk).scans| < MAX_SCANS && disk == Commit(old(disk), Tx(scan, []))
              case Refused(e) => e == Capacity && |disk.scans| == MAX_SCANS && disk == old(disk)
              case Interrupted(io) => !io.Done? && (disk == old(disk) || disk == Commit(old(disk), Tx(scan, [])))
              case _ => false
      ensures AlwaysWorks() && |old(disk).scans| < MAX_SCANS ==> outcome == Finished(scan)
      ensures AlwaysWorks() ==> !outcome.Interrupted?
    {
      hide Run, ConfigStep, ScanStep, FailedTx, Commit, Sound, CutoffIsNotEarlier;
      ValidKeepsInv();
      SoundIsWithinCaps(calendar, disk);
      if |disk.scans| >= MAX_SCANS {
        return Refused(Capacity);
      }
      var next := disk.(scans := disk.scans[scan.id := scan]);
      CommitOfOneScan(disk, scan);
      assert FailedScan(disk, Tx(scan, []));
      assert FailedScanStep(disk, next);
      var io := Apply(next, true);
      outcome := if io.Done? then Finished(scan) else Interrupted(io);
    }

    /** Takes back whatever was written of the transaction, and its marker. */
    method RollBack(ghost base: Disk, ghost tx: Tx, alerts: seq<Alert>, n: nat) returns (io: Io)
      requires Valid() && Fresh(base, tx) && InFlight(base, tx, disk) && alerts == tx.alerts && n <= |alerts|
      requires tx.scan.id !in disk.scans && forall k | n <= k < |alerts| :: !Present(disk, alerts, k)
      modifies this
      ensures Valid() && old(history) <= history
      ensures io.Done? ==> disk == base
      ensures disk == base || InFlight(base, tx, disk)
      ensures AlwaysWorks() ==> io.Done?
    {
      hide Run, Step, Fresh, InFlight, Commit;
      io := RemoveAlerts(base, tx, alerts, n);
      if io.Done? {
        io := RemoveMarker(base, tx);
      }
    }

    /** The scan file, after all its alerts, and the end of the transaction. */
    method WriteScan(ghost base: Disk, tx: Tx) returns (outcome: Outcome)
      requires Valid() && Fresh(base, tx) && InFlight(base, tx, disk)
      requires tx.scan.id !in disk.scans && AllPresent(disk, tx.alerts)
      modifies this
      ensures Valid() && old(history) <= history
      ensures match outcome
              case Finished(scan) => scan == tx.scan && HasRoom(base, tx) && disk == Commit(base, tx)
              case Refused(error) => error == Capacity && |base.scans| >= MAX_SCANS && disk == base
              case Interrupted(io) => !io.Done? && (InFlight(base, tx, disk) || disk == base || disk == Commit(base, tx))
              case _ => false
      ensures AlwaysWorks() && HasRoom(base, tx) ==> outcome.Finished?
      ensures AlwaysWorks() ==> !outcome.Interrupted?
    {
      hide Run, Step, Fresh, InFlight, Commit, HasRoom, AllPresent, NonePresent;
      ScansApart(base, tx, disk);
      var full := |disk.scans| >= MAX_SCANS;
      if full {
        FullHasNoRoom(base, tx, disk);
      }
      var io := Io.Error;
      if !full {
        var next := disk.(scans := disk.scans[tx.scan.id := tx.scan]);
        InFlightHasMarker(base, tx, disk);
        AllPresentHasRoom(base, tx, disk);
        SameAlertsPresent(disk, next, tx.alerts);
        assert WriteStep(disk, next);
        WriteStepKeeps(base, tx, disk, next);
        TxStepIsStep(calendar, disk, next);
        io := Apply(next, true);
      }
      if io.Done? {
        io := RemoveMarker(base, tx);
        return if io.Done? then Finished(tx.scan) else Interrupted(io);
      }
      if io.Error? {
        io := RollBack(base, tx, tx.alerts, |tx.alerts|);
        return if !io.Done? then Interrupted(io) else if full then Refused(Capacity) else Interrupted(Io.Error);
      }
      outcome := Interrupted(io);
    }

    /**
     The tail of `scan_profile`: marker, alerts, scan, marker.  An alert that cannot be written turns the
     scan into a failed one; a scan that cannot be written leaves nothing behind.
     */
    method CommitScan(head: Header, snap: Snapshot, sweep: Sweep, actor: string) returns (outcome: Outcome)
      requires Valid() && disk.marker.None? && SeenOn(calendar, snap)
      requires sweep == SweepOf(disk, head.config.watchlists, head, snap, EnabledRules(head.config.rules))
      requires EngineTx(disk, head, snap, actor, TxFor(disk, head, snap, sweep, actor))
      modifies this
      ensures Valid() && old(history) <= history
      ensures Committed(old(disk), head, snap, sweep, actor, disk, outcome)
      ensures AlwaysWorks() && HasRoom(old(disk), TxFor(old(disk), head, snap, sweep, actor))
        ==> outcome == Finished(ScanFor(head, snap, sweep, |old(disk).scans| + 1, actor))
      ensures AlwaysWorks() ==> !outcome.Interrupted?
    {
      hide Run, Step, Sound, EngineTx, ScanFor, FailedScanFor, HasRoom, Commit, InFlight, Fresh, Opened, SeenOn, Begin, FailedTx, SweepOf, CutoffIsNotEarlier;
      ghost var base := disk;
      var tx := TxFor(disk, head, snap, sweep, actor);
      ValidKeepsInv();
      EngineOpens(calendar, disk, snap, tx);
      OpenedIsFresh(calendar, disk, snap, tx);
      FailureCanBeRecorded(calendar, disk, head, snap, sweep, actor);
      if |disk.scans| >= MAX_SCANS {
        FullHasNoRoom(disk, tx, disk);
      }
      if tx.alerts == [] {
        outcome := WriteLoneScan(snap, tx);
        return;
      }
      assert ScanStep(calendar, disk, Begin(disk, tx));
      ScanStepIsStep(calendar, disk, Begin(disk, tx));
      BeginIsInFlight(disk, tx);
      var io := Apply(Begin(disk, tx), false);
      if !io.Done? {
        return Interrupted(io);
      }
      NothingYet(base, tx);
      var n;
      io, n := WriteAlerts(base, tx, tx.alerts);
      if io.Done? {
        outcome := WriteScan(base, tx);
      } else if io.Error? {
        io := RollBack(base, tx, tx.alerts, n);
        if !io.Done? {
          return Interrupted(io);
        }
        var failed := FailedScanFor(head, Some(snap.evidence), WriteFailed(sweep), |disk.scans| + 1, actor, ALERT_WRITE_FAILED);
        outcome := WriteFailedScan(head, Some(snap), WriteFailed(sweep), actor, ALERT_WRITE_FAILED, failed);
      } else {
        outcome := Interrupted(io);
      }
    }

    /** A scan without alerts needs no transaction. */
    method WriteLoneScan(ghost snap: Snapshot, tx: Tx) returns (outcome: Outcome)
      requires Valid() && disk.marker.None? && Scanned(calendar, disk, snap, tx) && tx.alerts == []
      modifies this
      ensures Valid() && old(history) <= history
      ensures match outcome
              case Finished(scan) => scan == tx.scan && HasRoom(old(disk), tx) && disk == Commit(old(disk), tx)
              case Refused(error) => error == Capacity && |disk.scans| >= MAX_SCANS && disk == old(disk)
              case Interrupted(io) => !io.Done? && (disk == old(disk) || disk == Commit(old(disk), tx))
              case _ => false
      ensures AlwaysWorks() && HasRoom(old(disk), tx) ==> outcome.Finished?
      ensures AlwaysWorks() ==> !outcome.Interrupted?
    {
      hide Run, Step, Scanned, Sound, Commit;
      ValidKeepsInv();
      SoundIsWithinCaps(calendar, disk);
      if |disk.scans| >= MAX_SCANS {
        return Refused(Capacity);
      }
      assert ScanStep(calendar, disk, Commit(disk, tx));
      ScanStepIsStep(calendar, disk, Commit(disk, tx));
      var io := Apply(Commit(disk, tx), true);
      outcome := if io.Done? then Finished(tx.scan) else Interrupted(io);
    }

    // ----- actions on alerts

    /** `alert_action`: compare and swap on the alert's whole history. */
    method AlertAction(id: AlertId, verb: Verb, until: Option<Date>, expected: Option<StateFingerprint>,
                       today: Date, actor: string, note: string, now: Stamp)
      returns (result: ActionResult)
      requires Valid()
      modifies this
      ensures Valid() && old(history) <= history
      ensures match result
              case Rejected(error) => Refusal(Recovered(old(disk)), id, verb, until, expected, today) == Some(error)
                                      && (disk == old(disk) || disk == Recovered(old(disk)))
              case Written(a) =>
                var d := Recovered(old(disk));
                && Refusal(d, id, verb, until, expected, today).None?
                && NextAlertAction(d, a) && a.subject == OnAlert(id) && a.verb == verb
                && a.snoozeUntil == (if verb.Snooze? then until else None)
                && disk == d.(actions := Append(d.actions, a))
              case Halted(io) => !io.Done?
      ensures AlwaysWorks() ==> !result.Halted?
    {
      hide Run, Step, Sound, Recovered, NextAlertAction, ChainValid, AlertActionsOk, Append, StatusAfter, Numbered, Linked;
      if !AlertVerb(verb) || (verb.Snooze? && until.Some? && until.value < today) {
        return Rejected(Invalid);
      }
      var io := Recover();
      if !io.Done? {
        return Halted(io);
      }
      if id !in disk.alerts {
        return Rejected(NotFound);
      }
      if |disk.actions| >= MAX_ACTIONS {
        return Rejected(Capacity);
      }
      SoundChain(calendar, disk, id);
      var alert := disk.alerts[id];
      var chain := ReadChain(disk.actions, OnAlert(id), Open, AlertFingerprint(alert));
      if expected.Some? && expected.value != StateFingerprint(AlertFingerprint(alert), chain) {
        return Rejected(Conflict);
      }
      var status := StatusAfter(Open, chain);
      if status !in AllowedFrom(verb) {
        return Rejected(Conflict);
      }
      if verb.Snooze? != until.Some? && !verb.Unsnooze? {
        return Rejected(Invalid);
      }
      var actionId := UnusedId(disk.actions.Keys);
      var a := Action(actionId, OnAlert(id), now, |chain| + 1, actor, verb, status, TargetOf(verb), note,
                      if verb.Snooze? then until else None, AlertFingerprint(alert));
      IsNextAction(disk, a, id, chain);
      var next := disk.(actions := Append(disk.actions, a));
      assert AlertActionStep(disk, next);
      ActionStepIsStep(calendar, disk, next);
      io := Apply(next, true);
      result := if io.Done? then Written(a) else Halted(io);
    }

    /**
     `expire_snoozes`: one unsnooze for each alert whose review date has arrived, each compared with the
     state that was read before the first of them was written.
     */
    method ExpireSnoozes(asOf: Date, actor: string, note: string, now: Stamp) returns (stop: Option<Outcome>)
      requires Valid()
      modifies this
      ensures Valid() && old(history) <= history
      ensures stop.None? ==> Expired(Recovered(old(disk)), disk, asOf, true)
      ensures stop.Some? ==>
        || (stop.value == Refused(Capacity) && |disk.actions| >= MAX_ACTIONS && Expired(Recovered(old(disk)), disk, asOf, false))
        || (stop.value.Interrupted? && !stop.value.io.Done?)
      ensures disk.marker.None? || stop.Some?
      ensures AlwaysWorks() ==> stop.None? || stop.value.Refused?
      ensures AlwaysWorks() ==> var d := Recovered(old(disk));
                AlertActionsOk(d.alerts, d.actions) && (stop.None? <==> ExpiryFits(d, asOf))
    {
      hide Run, Step, Sound, Recovered, AlertActionsOk, ExpiredFor, DueSet, AlertChain, ExpiryFits;
      var io := Recover();
      if !io.Done? {
        return Some(Interrupted(io));
      }
      ghost var first := disk;
      NothingExpiredYet(calendar, first, asOf);
      var due := DueAlerts(asOf);
      ghost var handled: set<AlertId> := {};
      stop := None;
      while due != map[]
        invariant Valid() && old(history) <= history && disk.marker.None? && stop.None?
        invariant handled !! due.Keys && handled + due.Keys == DueSet(first, asOf)
        invariant forall id | id in due :: id in first.alerts
                    && due[id] == StateFingerprint(AlertFingerprint(first.alerts[id]), AlertChain(first, id))
        invariant ExpiredFor(first, disk, asOf, handled)
        decreases |due|
      {
        var id :| id in due;
        assert id in DueSet(first, asOf);
        stop := ExpireOne(first, handled, id, due[id], asOf, actor, note, now);
        if stop.Some? {
          if stop.value.Refused? {
            FullMeansNoFit(first, disk, asOf, handled, id);
          }
          return;
        }
        handled := handled + {id};
        due := due - {id};
      }
      ValidKeepsInv();
      CompletedMeansFit(calendar, first, disk, asOf);
    }

    method ExpireOne(ghost first: Disk, ghost handled: set<AlertId>, id: AlertId, state: StateFingerprint,
                     asOf: Date, actor: string, note: string, now: Stamp)
      returns (stop: Option<Outcome>)
      requires Valid() && disk.marker.None? && ExpiredFor(first, disk, asOf, handled)
      requires AlertActionsOk(first.alerts, first.actions) && id in DueSet(first, asOf) && id !in handled && id in first.alerts
      requires state == StateFingerprint(AlertFingerprint(first.alerts[id]), AlertChain(first, id))
      modifies this
      ensures Valid() && old(history) <= history
      ensures stop.None? ==> disk.marker.None? && ExpiredFor(first, disk, asOf, handled + {id})
      ensures stop.Some? ==>
        || (stop.value == Refused(Capacity) && |disk.actions| >= MAX_ACTIONS && ExpiredFor(first, disk, asOf, handled))
        || (stop.value.Interrupted? && !stop.value.io.Done?)
      ensures AlwaysWorks() ==> stop.None? || stop.value.Refused?
    {
      hide Run, Step, Sound, Recovered, NextAlertAction, AlertActionsOk, ExpiredFor, DueSet, AlertChain, Append, Refusal;
      ghost var before := disk;
      NothingToRecover(disk);
      OnlyCapacityRefuses(first, disk, asOf, handled, id);
      var result := AlertAction(id, Unsnooze, None, Some(state), asOf, actor, note, now);
      match result {
        case Rejected(error) => stop := Some(Refused(error));
        case Halted(io) => stop := Some(Interrupted(io));
        case Written(a) =>
          OneMoreExpired(first, before, a, asOf, handled, id);
          ExpiryKeepsMarker(first, before, asOf, handled);
          stop := None;
      }
    }

    /** The projection the expiry starts from: the snoozed alerts that are due, with their state fingerprints. */
    method DueAlerts(asOf: Date) returns (due: map<AlertId, StateFingerprint>)
      requires AlertActionsOk(disk.alerts, disk.actions)
      ensures due.Keys == DueSet(disk, asOf)
      ensures forall id | id in due :: id in disk.alerts && due[id] == StateFingerprint(AlertFingerprint(disk.alerts[id]), AlertChain(disk, id))
    {
      hide ChainValid;
      due := map[];
      var rest := disk.alerts.Keys;
      while rest != {}
        invariant rest <= disk.alerts.Keys
        invariant forall id :: id in due <==> id in disk.alerts && id !in rest && Due(AlertChain(disk, id), asOf)
        invariant forall id | id in due :: due[id] == StateFingerprint(AlertFingerprint(disk.alerts[id]), AlertChain(disk, id))
        decreases rest
      {
        var id :| id in rest;
        rest := rest - {id};
        var binding := AlertFingerprint(disk.alerts[id]);
        var chain := ReadChain(disk.actions, OnAlert(id), Open, binding);
        if Due(chain, asOf) {
          due := due[id := StateFingerprint(binding, chain)];
        }
      }
    }

    // ----- scan_profile

    /** `_successful_scan_unlocked`: the newest succeeded scan of this snapshot and configuration. */
    method FindSucceeded(snapshot: SnapshotId, config: ConfigFingerprint) returns (found: Option<Scan>)
      ensures found.None? ==> forall id | id in disk.scans :: !Answers(disk.scans[id], snapshot, config)
      ensures found.Some? ==>
        (exists id :: id in disk.scans && disk.scans[id] == found.value) && Answers(found.value, snapshot, config)
        && forall id | id in disk.scans && Answers(disk.scans[id], snapshot, config) :: disk.scans[id].sequence <= found.value.sequence
    {
      found := None;
      var rest := disk.scans.Keys;
      while rest != {}
        invariant rest <= disk.scans.Keys
        invariant found.Some? ==> (exists id :: id in disk.scans && disk.scans[id] == found.value) && Answers(found.value, snapshot, config)
        invariant forall id | id in disk.scans && id !in rest && Answers(disk.scans[id], snapshot, config) ::
                    found.Some? && disk.scans[id].sequence <= found.value.sequence
        decreases rest
      {
        var id :| id in rest;
        rest := rest - {id};
        var s := disk.scans[id];
        if Answers(s, snapshot, config) && (found.None? || found.value.sequence <= s.sequence) {
          found := Some(s);
        }
      }
    }

    /** A derived id the first time, a random one for every later attempt. */
    method ChooseScanId(snapshot: SnapshotId, config: ConfigFingerprint) returns (id: ScanId)
      ensures id !in disk.scans
      ensures DerivedScan(snapshot, config) !in disk.scans ==> id == DerivedScan(snapshot, config)
    {
      id := DerivedScan(snapshot, config);
      if id in disk.scans {
        var hex := UnusedId(set s | s in disk.scans.Keys && s.RandomScan? :: s.hex);
        id := RandomScan(hex);
      }
    }

    /** `scan_profile` */
    method ScanProfile(snapshot: Option<Snapshot>, actor: string, now: Stamp, unavailable: string)
      returns (outcome: Outcome, ghost before: Disk)
      requires Valid()
      requires snapshot.Some? ==> SeenOn(calendar, snapshot.value) && WellTaken(snapshot.value.evidence)
      modifies this
      ensures Valid() && old(history) <= history
      ensures match outcome
              case NoRules => disk == before == Recovered(old(disk))
                              && (before.configs == [] || EnabledRules(before.configs[|before.configs| - 1].rules) == [])
              case Reused(scan) => disk == before && snapshot.Some? && before.configs != []
                                   && Answers(scan, snapshot.value.evidence.snapshotId, ConfigFingerprint(before.configs[|before.configs| - 1]))
              case Finished(scan) => ScanRecorded(calendar, before, snapshot, scan, disk) && NothingUnheard(calendar, before, snapshot, scan, disk)
              case Refused(error) => error == Capacity && disk == before
              case Interrupted(io) => !io.Done?
      ensures AlwaysWorks() && snapshot.Some? && HasEnabledRules(Recovered(old(disk))) ==>
        var d := Recovered(old(disk));
        AlertActionsOk(d.alerts, d.actions)
        && (!ExpiryFits(d, snapshot.value.evidence.cutoff) ==> outcome == Refused(Capacity) && disk.scans == d.scans)
        && (ExpiryFits(d, snapshot.value.evidence.cutoff) && outcome.Refused? ==> |d.scans| >= MAX_SCANS)
      ensures AlwaysWorks() && outcome.Refused? && !(snapshot.Some? && HasEnabledRules(Recovered(old(disk)))) ==>
        |Recovered(old(disk)).scans| >= MAX_SCANS
      ensures !outcome.Interrupted? ==>
        || before == Recovered(old(disk))
        || (snapshot.Some? && Expired(Recovered(old(disk)), before, snapshot.value.evidence.cutoff, true))
        || (outcome.Refused? && snapshot.Some? && Expired(Recovered(old(disk)), before, snapshot.value.evidence.cutoff, false))
      ensures AlwaysWorks() ==> !outcome.Interrupted?
      ensures AlwaysWorks() && snapshot.Some? && outcome.Finished? && NothingRaises(before, snapshot.value) && RoomForAll(before) ==>
        !outcome.scan.status.Failed?
      ensures snapshot.Some? && outcome.Finished? ==> NotCovered(before, snapshot.value)
      ensures outcome.Reused? ==>
        && (exists id :: id in before.scans && before.scans[id] == outcome.scan)
        && CoversAll(outcome.scan, snapshot.value.evidence.snapshotId, ConfigFingerprint(before.configs[|before.configs| - 1]))
    {
      hide Run, Step, Sound, Recovered, Expired, Integrity, SeenOn, WellTaken, EnabledRules, FailedTx, FailedScanFor, SweepOf,
        AlertActionsOk, ExpiryFits, EveryRuleIsHeard, ScanRecorded, NothingRaises, CoversAll, Answers;
      before := disk;
      var io := Recover();
      before := disk;
      if !io.Done? {
        return Interrupted(io), before;
      }
      if disk.configs == [] {
        return NoRules, before;
      }
      var config := disk.configs[|disk.configs| - 1];
      var rules := EnabledRules(config.rules);
      if rules == [] {
        return NoRules, before;
      }
      if snapshot.None? {
        var hex := UnusedId(set s | s in disk.scans.Keys && s.RandomScan? :: s.hex);
        var head := Header(RandomScan(hex), config, now);
        outcome := RecordFailure(head, None, EmptySweep, unavailable, actor);
        return;
      }
      var snap := snapshot.value;
      NothingToRecover(disk);
      var stop := ExpireSnoozes(snap.evidence.cutoff, actor, "", now);
      before := disk;
      if stop.Some? {
        if stop.value.Refused? {
          ExpiryKeepsScans(Recovered(old(disk)), disk, snap.evidence.cutoff, false);
        }
        return stop.value, before;
      }
      ExpiryKeepsScans(Recovered(old(disk)), disk, snap.evidence.cutoff, true);
      ExpiryKeepsConfigs(Recovered(old(disk)), disk, snap.evidence.cutoff);
      var done := FindSucceeded(snap.evidence.snapshotId, ConfigFingerprint(config));
      ValidKeepsInv();
      SoundIsIntact(calendar, disk);
      forall k | k in disk.scans
        ensures Answers(disk.scans[k], snap.evidence.snapshotId, ConfigFingerprint(config))
            <==> CoversAll(disk.scans[k], snap.evidence.snapshotId, ConfigFingerprint(config))
      {
        AnsweringIsCovering(disk, k, snap.evidence.snapshotId, ConfigFingerprint(config));
      }
      if done.Some? {
        return Reused(done.value), before;
      }
      var id := ChooseScanId(snap.evidence.snapshotId, ConfigFingerprint(config));
      var head := Header(id, config, now);
      outcome := ScanSnapshot(head, snap, rules, actor);
    }

    /** The sweep over the enabled rules, and what is written of it. */
    method ScanSnapshot(head: Header, snap: Snapshot, rules: seq<Rule>, actor: string) returns (outcome: Outcome)
      requires Valid() && disk.marker.None? && IsCurrent(disk, head.config) && head.scanId !in disk.scans
      requires SeenOn(calendar, snap) && WellTaken(snap.evidence) && rules == EnabledRules(head.config.rules)
      modifies this
      ensures Valid() && old(history) <= history
      ensures match outcome
              case Finished(scan) => ScanRecorded(calendar, old(disk), Some(snap), scan, disk)
                                     && NothingUnheard(calendar, old(disk), Some(snap), scan, disk)
              case Refused(e) => e == Capacity && |old(disk).scans| >= MAX_SCANS && disk == old(disk)
              case Interrupted(io) => !io.Done?
              case _ => false
      ensures AlwaysWorks() ==> !outcome.Interrupted?
      ensures AlwaysWorks() && NothingRaises(old(disk), snap) && RoomForAll(old(disk)) ==>
        outcome.Finished? && !outcome.scan.status.Failed?
      ensures !NothingRaises(old(disk), snap) && outcome.Finished? ==>
        TellsOfTheRaise(old(disk), head.config.watchlists, snap, rules, outcome.scan)
    {
      hide Run, Step, Sound, Integrity, TellsOfTheRaise, SeenOn, WellTaken, EnabledRules, FailedTx, FailedScanFor, SweepOf, Committed, EngineTx, EveryRuleIsHeard,
        ScanRecorded, Accounts, NothingRaises;
      ValidKeepsInv();
      SoundIsIntact(calendar, disk);
      var sweep := Evaluate(head, snap, rules);
      SweepMayFinish(calendar, disk, head, snap, rules, sweep);
      if sweep.aborted.Some? {
        FailedScanTells(disk, head.config.watchlists, head, snap, rules, sweep, |disk.scans| + 1, actor);
        outcome := RecordFailure(head, Some(snap), sweep, sweep.aborted.value, actor);
        return;
      }
      IsEngineTx(disk, head, snap, sweep, actor);
      outcome := CommitScan(head, snap, sweep, actor);
      CommittedIsRecorded(calendar, old(disk), head, snap, sweep, actor, disk, outcome);
    }

    /** A scan that failed before it had anything to write. */
    method RecordFailure(head: Header, snap: Option<Snapshot>, sweep: Sweep, error: string, actor: string) returns (outcome: Outcome)
      requires Valid() && disk.marker.None? && IsCurrent(disk, head.config) && head.scanId !in disk.scans
      requires snap.Some? ==> SeenOn(calendar, snap.value) && WellTaken(snap.value.evidence)
                              && sweep == SweepOf(disk, head.config.watchlists, head, snap.value, EnabledRules(head.config.rules))
      requires snap.None? ==> sweep == EmptySweep
      modifies this
      ensures Valid() && old(history) <= history
      ensures match outcome
              case Finished(scan) => ScanRecorded(calendar, old(disk), snap, scan, disk) && scan.status.Failed?
                                     && scan == FailedScanFor(head, if snap.Some? then Some(snap.value.evidence) else None, sweep,
                                                              |old(disk).scans| + 1, actor, error)
              case Refused(e) => e == Capacity && |disk.scans| >= MAX_SCANS && disk == old(disk)
              case Interrupted(io) => !io.Done?
              case _ => false
      ensures AlwaysWorks() ==> !outcome.Interrupted?
    {
      hide Run, Step, Sound, SeenOn, WellTaken, SweepOf, FailedTx, FailedScanFor, Commit, CutoffIsNotEarlier;
      ValidKeepsInv();
      var scan := FailedScanFor(head, if snap.Some? then Some(snap.value.evidence) else None, sweep, |disk.scans| + 1, actor, error);
      FailureIsLawful(calendar, disk, head, snap, sweep, error, actor);
      outcome := WriteFailedScan(head, snap, sweep, actor, error, scan);
      if outcome.Finished? {
        assert FailedScan(old(disk), Tx(scan, []));
      }
    }

    // ----- notifications

    /** `_materialize_notifications_unlocked`: creates what is missing, in any order. */
    method Materialize() returns (io: Io)
      requires Valid()
      modifies this
      ensures Valid() && old(history) <= history
      ensures io.Done? ==> disk == Materialized(Recovered(old(disk))) && disk.marker.None?
      ensures AlwaysWorks() ==> io.Done?
    {
      hide Run, Step, Sound, Recovered, Expected, Missing, NextNotification, Integrity;
      io := Recover();
      if !io.Done? { return; }
      ghost var first := disk;
      SoundIsIntact(calendar, disk);
      NotificationCapIsNeverHit(disk);
      var missing := Missing(disk);
      assert |disk.notifications| + |missing| <= MAX_NOTIFICATIONS;
      while missing != map[]
        invariant Valid() && old(history) <= history && disk.marker.None? && io.Done?
        invariant Integrity(disk) && missing == Missing(disk)
        invariant disk == first.(notifications := disk.notifications)
        decreases |missing|
      {
        var id :| id in missing;
        OneMissingLess(disk, id);
        var next := disk.(notifications := disk.notifications[id := missing[id]]);
        NotificationKeepsIntegrity(disk, missing[id]);
        assert NotificationStep(disk, next);
        ActionStepIsStep(calendar, disk, next);
        io := Apply(next, true);
        if !io.Done? { return; }
        missing := missing - {id};
      }
      NothingMissing(disk);
    }

    /** `notification_action`: compare and swap on the notification's whole history, in a completed inbox. */
    method NotificationAction(id: NotificationId, verb: Verb, expected: Option<StateFingerprint>, actor: string, now: Stamp)
      returns (result: ActionResult)
      requires Valid()
      modifies this
      ensures Valid() && old(history) <= history
      ensures var d := Materialized(Recovered(old(disk)));
              match result
              case Rejected(error) => NoteRefusal(d, id, verb, expected) == Some(error) && (disk == old(disk) || disk == d)
              case Written(a) =>
                && NoteRefusal(d, id, verb, expected).None?
                && NextNoteAction(d, a) && a.subject == OnNotification(id) && a.verb == verb
                && disk == d.(noteActions := Append(d.noteActions, a))
              case Halted(io) => !io.Done?
      ensures AlwaysWorks() ==> !result.Halted?
    {
      hide Run, Step, Sound, Recovered, Materialized, NextNoteAction, ChainValid, NoteActionsOk, Append, StatusAfter, Numbered, Linked;
      if !NoteVerb(verb) {
        return Rejected(Invalid);
      }
      var io := Materialize();
      if !io.Done? {
        return Halted(io);
      }
      if id !in disk.notifications {
        return Rejected(NotFound);
      }
      if |disk.noteActions| >= MAX_NOTIFICATION_ACTIONS {
        return Rejected(Capacity);
      }
      ValidKeepsInv();
      SoundNoteChain(calendar, disk, id);
      var binding := NotificationFingerprint(disk.notifications[id]);
      var chain := ReadChain(disk.noteActions, OnNotification(id), Unread, binding);
      if expected.Some? && expected.value != StateFingerprint(binding, chain) {
        return Rejected(Conflict);
      }
      var status := StatusAfter(Unread, chain);
      if status !in AllowedFrom(verb) {
        return Rejected(Conflict);
      }
      var actionId := UnusedId(disk.noteActions.Keys);
      var a := Action(actionId, OnNotification(id), now, |chain| + 1, actor, verb, status, TargetOf(verb), "", None, binding);
      IsNextNoteAction(disk, a, id, chain);
      var next := disk.(noteActions := Append(disk.noteActions, a));
      assert NoteActionStep(disk, next);
      ActionStepIsStep(calendar, disk, next);
      io := Apply(next, true);
      result := if io.Done? then Written(a) else Halted(io);
    }

    // ----- configuration

    /** `mutate_watchlist`, up to and including the new revision. */
    method MutateWatchlist(id: WatchlistId, edit: Edit, expectedRevision: Option<nat>, configId: nat, actor: string, action: string, now: Stamp)
      returns (result: EditResult)
      requires Valid()
      modifies this
      ensures Valid() && old(history) <= history
      ensures var d := Recovered(old(disk));
              match result
              case Edited(config) =>
                && (expectedRevision.None? || expectedRevision.value == |d.configs|)
                && (exists at :: 0 <= at < |CurrentWatchlists(d.configs)| && IsEditOf(d.configs, id, edit, at, configId, now, actor, action, config))
                && disk == d.(configs := d.configs + [config])
              case NotEdited(error) =>
                && disk == d
                && (error == Conflict <==> expectedRevision.Some? && expectedRevision.value != |d.configs|)
                && (error == NotFound ==> forall i | 0 <= i < |CurrentWatchlists(d.configs)| :: CurrentWatchlists(d.configs)[i].id != id)
                && (error == Invalid ==> edit.Rename? && !NameOk(edit.name))
              case EditHalted(io) => !io.Done?
      ensures result.Edited? ==> ChangedAsAsked(Recovered(old(disk)).configs, id, edit, now, result.config)
    {
      hide Run, Step, Sound, Recovered, NextConfig, MutatedLists, NormalizeWatchlists, NormalizeRules, ChainOk, Integrity, ChangedAsAsked, CurrentRules;
      var io := Recover();
      if !io.Done? {
        return EditHalted(io);
      }
      SoundIsIntact(calendar, disk);
      IntactChain(disk);
      if expectedRevision.Some? && expectedRevision.value != |disk.configs| {
        return NotEdited(Conflict);
      }
      var ws, rules := CurrentWatchlists(disk.configs), CurrentRules(disk.configs);
      var at := 0;
      while at < |ws| && ws[at].id != id
        invariant at <= |ws| && forall i | 0 <= i < at :: ws[i].id != id
      {
        at := at + 1;
      }
      if at == |ws| {
        return NotEdited(NotFound);
      }
      var lists := MutatedLists(edit, at, ws, rules, now);
      if lists.Err? {
        EditErrors(edit, at, ws, rules, now);
        return NotEdited(lists.error);
      }
      var next := NextConfig(disk.configs, lists.value.0, lists.value.1, configId, now, actor, action);
      EditsCascade(disk.configs, edit, at, now);
      if next.Err? {
        WriterErrors(disk.configs, lists.value.0, lists.value.1, configId, now, actor, action);
        return NotEdited(next.error);
      }
      assert IsEditOf(disk.configs, id, edit, at, configId, now, actor, action, next.value);
      EditIsAsAsked(disk.configs, id, edit, at, configId, now, actor, action, next.value);
      var after := disk.(configs := disk.configs + [next.value]);
      assert ConfigStep(disk, after);
      ActionStepIsStep(calendar, disk, after);
      io := Apply(after, true);
      result := if io.Done? then Edited(next.value) else EditHalted(io);
    }
  }
}
