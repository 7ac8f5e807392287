/**
 What one scan owes every enabled rule (monitoring.py, `scan_profile`): nothing a rule contributes is
 dropped, doubled or reordered, and a rule whose condition holds is silent only for a reason on record.
 */
module SweepLaws {
  import opened Common
  import opened MarketCalendar
  import opened MonitoringConfig
  import opened MonitoringRecords
  import opened MonitoringStore
  import opened RuleEngine
  import opened AlertSpacing
  import opened MonitoringRuns

  // ----- gathering what single rules contribute

  /** The list holds exactly what the entries contribute, each contribution once and in order. */
  ghost predicate Gathers<T(!new)>(entries: seq<Option<T>>, list: seq<T>) {
    exists at: seq<int> :: GathersAt(entries, list, at)
  }

  ghost predicate GathersAt<T(!new)>(entries: seq<Option<T>>, list: seq<T>, at: seq<int>) {
    && |at| == |list|
    && (forall k | 0 <= k < |at| :: 0 <= at[k] < |entries| && entries[at[k]] == Some(list[k]))
    && (forall j, k | 0 <= j < k < |at| :: at[j] < at[k])
    && forall i | 0 <= i < |entries| && entries[i].Some? :: i in at
  }

  lemma GathersOneMore<T(!new)>(entries: seq<Option<T>>, list: seq<T>, next: Option<T>)
    requires Gathers(entries, list)
    ensures Gathers(entries + [next], if next.Some? then list + [next.value] else list)
  {
    var at :| GathersAt(entries, list, at);
    if next.Some? {
      GathersLonger(entries, list, at, next.value);
    } else {
      assert forall i | 0 <= i < |entries| :: (entries + [next])[i] == entries[i];
      assert GathersAt(entries + [next], list, at);
    }
  }

  lemma GathersLonger<T(!new)>(entries: seq<Option<T>>, list: seq<T>, at: seq<int>, x: T)
    requires GathersAt(entries, list, at)
    ensures GathersAt(entries + [Some(x)], list + [x], at + [|entries|])
  {
    var longer, places := entries + [Some(x)], at + [|entries|];
    assert places[|at|] == |entries|;
    forall i | 0 <= i < |longer| && longer[i].Some? ensures i in places {
      if i < |entries| {
        assert entries[i].Some? && i in at;
      }
    }
  }

  lemma GatheredExactly<T(!new)>(entries: seq<Option<T>>, list: seq<T>, x: T)
    requires Gathers(entries, list)
    ensures x in list <==> exists i :: 0 <= i < |entries| && entries[i] == Some(x)
  {
    hide GathersAt;
    var at :| GathersAt(entries, list, at);
    if x in list {
      var k :| 0 <= k < |list| && list[k] == x;
      GatheredFrom(entries, list, at, k);
    }
    if i :| 0 <= i < |entries| && entries[i] == Some(x) {
      GatheredInto(entries, list, at, i);
    }
  }

  lemma GatheredFrom<T(!new)>(entries: seq<Option<T>>, list: seq<T>, at: seq<int>, k: nat)
    requires GathersAt(entries, list, at) && k < |list|
    ensures 0 <= at[k] < |entries| && entries[at[k]] == Some(list[k])
  {
  }

  lemma GatheredInto<T(!new)>(entries: seq<Option<T>>, list: seq<T>, at: seq<int>, i: nat)
    requires GathersAt(entries, list, at) && i < |entries| && entries[i].Some?
    ensures entries[i].value in list
  {
    var k :| 0 <= k < |at| && at[k] == i;
    assert list[k] in list;
  }

  // ----- what a rule contributes

  /** The loop comes to the rule: no evaluation up to and including its own raises. */
  ghost predicate Reached(d: Disk, ws: seq<Watchlist>, snap: Snapshot, rules: seq<Rule>, i: nat)
    requires i < |rules|
  {
    forall j | 0 <= j <= i :: !VerdictOn(d, ws, snap, rules[j]).Aborted?
  }

  /** The condition of the rule was looked at. */
  ghost predicate Looked(d: Disk, ws: seq<Watchlist>, snap: Snapshot, r: Rule) {
    snap.evaluate(r).Observed? && Judged(VerdictOn(d, ws, snap, r))
  }

  predicate Judged(v: Verdict) {
    v.Quiet? || v.Suppressed? || v.Fires?
  }

  ghost predicate Observable(d: Disk, ws: seq<Watchlist>, snap: Snapshot, r: Rule) {
    Judged(VerdictOn(d, ws, snap, r)) ==> snap.evaluate(r).Observed?
  }

  ghost function AlertOf(d: Disk, ws: seq<Watchlist>, head: Header, snap: Snapshot): Rule -> Option<Alert> {
    r => if VerdictOn(d, ws, snap, r).Fires? && Looked(d, ws, snap, r) then Some(AlertFor(head, snap, r)) else None
  }

  ghost function SuppressionOf(d: Disk, ws: seq<Watchlist>, snap: Snapshot): Rule -> Option<Suppression> {
    r => var v := VerdictOn(d, ws, snap, r);
         if v.Suppressed? then Some(Suppression(r.id, r.spec.symbol, v.why)) else None
  }

  ghost function ExclusionOf(d: Disk, ws: seq<Watchlist>, snap: Snapshot): Rule -> Option<Exclusion> {
    r => var v := VerdictOn(d, ws, snap, r);
         if v.Skipped? then Some(Exclusion(Some(r.id), v.code)) else None
  }

  /** The contributions of the rules the loop comes to, rule by rule. */
  ghost function EachReached<T>(d: Disk, ws: seq<Watchlist>, snap: Snapshot, rules: seq<Rule>, of: Rule -> Option<T>): (r: seq<Option<T>>)
    ensures |r| == |rules|
    ensures forall i | 0 <= i < |rules| :: r[i] == if Reached(d, ws, snap, rules, i) then of(rules[i]) else None
  {
    seq(|rules|, i requires 0 <= i < |rules| => if Reached(d, ws, snap, rules, i) then of(rules[i]) else None)
  }

  /** The message of the first evaluation that raises, if one does. */
  ghost predicate FirstRaise(d: Disk, ws: seq<Watchlist>, snap: Snapshot, rules: seq<Rule>, aborted: Option<string>) {
    match aborted
    case None => forall i | 0 <= i < |rules| :: !VerdictOn(d, ws, snap, rules[i]).Aborted?
    case Some(message) =>
      exists i :: 0 <= i < |rules| && VerdictOn(d, ws, snap, rules[i]) == Aborted(message)
                  && forall j | 0 <= j < i :: !VerdictOn(d, ws, snap, rules[j]).Aborted?
  }

  /** A state for exactly the rules that were looked at, with what was seen. */
  ghost predicate StatesAccount(d: Disk, ws: seq<Watchlist>, snap: Snapshot, rules: seq<Rule>, states: map<RuleId, RuleState>) {
    && (forall i | 0 <= i < |rules| ::
          && (rules[i].id in states <==> Reached(d, ws, snap, rules, i) && Looked(d, ws, snap, rules[i]))
          && (rules[i].id in states && Looked(d, ws, snap, rules[i]) ==> states[rules[i].id] == StateFor(snap, rules[i])))
    && forall id | id in states :: exists i :: 0 <= i < |rules| && rules[i].id == id
  }

  /** Everything a sweep of these rules collects, said rule by rule. */
  ghost predicate Accounts(d: Disk, ws: seq<Watchlist>, head: Header, snap: Snapshot, rules: seq<Rule>, sweep: Sweep) {
    && FirstRaise(d, ws, snap, rules, sweep.aborted)
    && StatesAccount(d, ws, snap, rules, sweep.states)
    && Gathers(EachReached(d, ws, snap, rules, AlertOf(d, ws, head, snap)), sweep.alerts)
    && Gathers(EachReached(d, ws, snap, rules, SuppressionOf(d, ws, snap)), sweep.suppressed)
    && Gathers(EachReached(d, ws, snap, rules, ExclusionOf(d, ws, snap)), sweep.exclusions)
  }

  lemma ReachedCarriesOver(d: Disk, ws: seq<Watchlist>, snap: Snapshot, rules: seq<Rule>, r: Rule)
    ensures forall i | 0 <= i < |rules| :: Reached(d, ws, snap, rules + [r], i) <==> Reached(d, ws, snap, rules, i)
    ensures Reached(d, ws, snap, rules + [r], |rules|)
        <==> !VerdictOn(d, ws, snap, r).Aborted? && forall i | 0 <= i < |rules| :: !VerdictOn(d, ws, snap, rules[i]).Aborted?
  {
    hide VerdictOn;
    var longer := rules + [r];
    assert forall i | 0 <= i < |rules| :: longer[i] == rules[i];
    assert longer[|rules|] == r;
    if Reached(d, ws, snap, longer, |rules|) {
      forall i | 0 <= i < |rules| ensures !VerdictOn(d, ws, snap, rules[i]).Aborted? {
        assert !VerdictOn(d, ws, snap, longer[i]).Aborted?;
      }
    }
  }

  /** One more rule adds one more entry, empty when the loop does not come to it. */
  lemma OneMoreEntry<T>(d: Disk, ws: seq<Watchlist>, snap: Snapshot, rules: seq<Rule>, r: Rule, of: Rule -> Option<T>)
    ensures EachReached(d, ws, snap, rules + [r], of)
         == EachReached(d, ws, snap, rules, of)
            + [if Reached(d, ws, snap, rules + [r], |rules|) then of(r) else None]
  {
    hide VerdictOn;
    ReachedCarriesOver(d, ws, snap, rules, r);
  }

  lemma EntriesOneMore(d: Disk, ws: seq<Watchlist>, head: Header, snap: Snapshot, rules: seq<Rule>, r: Rule, sweep: Sweep)
    requires Gathers(EachReached(d, ws, snap, rules, AlertOf(d, ws, head, snap)), sweep.alerts)
    requires Gathers(EachReached(d, ws, snap, rules, SuppressionOf(d, ws, snap)), sweep.suppressed)
    requires Gathers(EachReached(d, ws, snap, rules, ExclusionOf(d, ws, snap)), sweep.exclusions)
    requires Observable(d, ws, snap, r)
    ensures var after := if Reached(d, ws, snap, rules + [r], |rules|)
                         then Observe(sweep, head, snap, r, VerdictOn(d, ws, snap, r)) else sweep;
            && Gathers(EachReached(d, ws, snap, rules + [r], AlertOf(d, ws, head, snap)), after.alerts)
            && Gathers(EachReached(d, ws, snap, rules + [r], SuppressionOf(d, ws, snap)), after.suppressed)
            && Gathers(EachReached(d, ws, snap, rules + [r], ExclusionOf(d, ws, snap)), after.exclusions)
  {
    hide VerdictOn, Reached, Gathers, AlertFor, StateFor;
    var due := Reached(d, ws, snap, rules + [r], |rules|);
    var alert, suppression, exclusion := AlertOf(d, ws, head, snap), SuppressionOf(d, ws, snap), ExclusionOf(d, ws, snap);
    OneMoreEntry(d, ws, snap, rules, r, alert);
    OneMoreEntry(d, ws, snap, rules, r, suppression);
    OneMoreEntry(d, ws, snap, rules, r, exclusion);
    GathersOneMore(EachReached(d, ws, snap, rules, alert), sweep.alerts, if due then alert(r) else None);
    GathersOneMore(EachReached(d, ws, snap, rules, suppression), sweep.suppressed, if due then suppression(r) else None);
    GathersOneMore(EachReached(d, ws, snap, rules, exclusion), sweep.exclusions, if due then exclusion(r) else None);
  }

  lemma StatesOneMore(d: Disk, ws: seq<Watchlist>, head: Header, snap: Snapshot, rules: seq<Rule>, r: Rule, sweep: Sweep)
    requires StatesAccount(d, ws, snap, rules, sweep.states) && Observable(d, ws, snap, r)
    requires forall i | 0 <= i < |rules| :: rules[i].id != r.id
    ensures var after := if Reached(d, ws, snap, rules + [r], |rules|)
                         then Observe(sweep, head, snap, r, VerdictOn(d, ws, snap, r)) else sweep;
            StatesAccount(d, ws, snap, rules + [r], after.states)
  {
    hide VerdictOn, Reached, AlertFor, StateFor;
    ReachedCarriesOver(d, ws, snap, rules, r);
    var longer := rules + [r];
    var after := if Reached(d, ws, snap, longer, |rules|) then Observe(sweep, head, snap, r, VerdictOn(d, ws, snap, r)) else sweep;
    assert longer[|rules|] == r && forall i | 0 <= i < |rules| :: longer[i] == rules[i];
    forall id | id in after.states ensures exists i :: 0 <= i < |longer| && longer[i].id == id {
      if id in sweep.states {
        var i :| 0 <= i < |rules| && rules[i].id == id;
        assert longer[i].id == id;
      }
    }
    assert r.id !in sweep.states;
  }

  /**
   Whatever the verdicts are, the sweep records them all: up to the first evaluation that raises every rule
   leaves its state, its alert, its suppression or its exclusion, and no rule after it leaves anything.
   */
  lemma {:induction false} SweepAccounts(d: Disk, ws: seq<Watchlist>, head: Header, snap: Snapshot, rules: seq<Rule>)
    requires DistinctRules(rules)
    ensures Accounts(d, ws, head, snap, rules, SweepOf(d, ws, head, snap, rules))
  {
    hide VerdictOn, Observe, Gathers, Reached, Looked, StatesAccount, FirstRaise;
    if rules == [] {
      NothingAccounts(d, ws, head, snap);
    } else {
      var n := |rules| - 1;
      var r := rules[n];
      SweepAccounts(d, ws, head, snap, rules[..n]);
      assert rules == rules[..n] + [r];
      var before := SweepOf(d, ws, head, snap, rules[..n]);
      VerdictMeans(d, ws, head, snap, r);
      ReachedCarriesOver(d, ws, snap, rules[..n], r);
      EntriesOneMore(d, ws, head, snap, rules[..n], r, before);
      StatesOneMore(d, ws, head, snap, rules[..n], r, before);
      AbortsOneMore(d, ws, head, snap, rules[..n], r, before);
    }
  }

  lemma NothingAccounts(d: Disk, ws: seq<Watchlist>, head: Header, snap: Snapshot)
    ensures Accounts(d, ws, head, snap, [], EmptySweep)
  {
    hide VerdictOn;
    assert GathersAt(EachReached(d, ws, snap, [], AlertOf(d, ws, head, snap)), [], []);
    assert GathersAt(EachReached(d, ws, snap, [], SuppressionOf(d, ws, snap)), [], []);
    assert GathersAt(EachReached(d, ws, snap, [], ExclusionOf(d, ws, snap)), [], []);
  }

  /** The sweep aborts with the first rule whose evaluation raises, and does not go on. */
  lemma AbortsOneMore(d: Disk, ws: seq<Watchlist>, head: Header, snap: Snapshot, rules: seq<Rule>, r: Rule, before: Sweep)
    requires FirstRaise(d, ws, snap, rules, before.aborted)
    requires Observable(d, ws, snap, r)
    ensures before.aborted.None? && !VerdictOn(d, ws, snap, r).Aborted? <==> Reached(d, ws, snap, rules + [r], |rules|)
    ensures var v := VerdictOn(d, ws, snap, r);
            var after := if before.aborted.Some? then before else Observe(before, head, snap, r, v);
            && FirstRaise(d, ws, snap, rules + [r], after.aborted)
            && (before.aborted.None? && v.Aborted? ==> after == before.(aborted := Some(v.message)))
  {
    hide VerdictOn, StateFor, AlertFor, Reached;
    ReachedCarriesOver(d, ws, snap, rules, r);
    var longer := rules + [r];
    assert longer[|rules|] == r && forall i | 0 <= i < |rules| :: longer[i] == rules[i];
    if before.aborted.Some? {
      var i :| 0 <= i < |rules| && VerdictOn(d, ws, snap, rules[i]) == Aborted(before.aborted.value)
        && forall j | 0 <= j < i :: !VerdictOn(d, ws, snap, rules[j]).Aborted?;
      assert VerdictOn(d, ws, snap, longer[i]) == Aborted(before.aborted.value);
    } else if VerdictOn(d, ws, snap, r).Aborted? {
      assert VerdictOn(d, ws, snap, longer[|rules|]) == Aborted(VerdictOn(d, ws, snap, r).message);
    }
  }

  // ----- what a verdict rests on

  /** An enabled watchlist still holds the rule's symbol. */
  ghost predicate OnAList(ws: seq<Watchlist>, r: Rule) {
    exists w :: w in ws && w.id == r.spec.watchlistId && w.enabled && r.spec.symbol in w.symbols
  }

  /** The condition is looked at and holds. */
  ghost predicate Holds(ws: seq<Watchlist>, snap: Snapshot, r: Rule) {
    OnAList(ws, r) && snap.evaluate(r).Observed? && snap.evaluate(r).triggered
  }

  /** A scan that did not fail saw this very rule hold, and no later one looked at it. */
  ghost predicate LastSeenTrue(scans: Scans, r: Rule) {
    exists id :: SawLast(scans, r, id)
  }

  ghost predicate SawLast(scans: Scans, r: Rule, id: ScanId) {
    && id in scans && scans[id].status != Failed && r.id in scans[id].ruleStates
    && scans[id].ruleStates[r.id].triggered && scans[id].ruleStates[r.id].fingerprint == FingerprintOf(r)
    && forall k | k in scans && scans[k].status != Failed && scans[k].sequence > scans[id].sequence :: r.id !in scans[k].ruleStates
  }

  /** Some alert of this very rule, not only the newest, lies within its cooldown. */
  ghost predicate AlertNearby(d: Disk, r: Rule, today: Date, calendar: seq<Date>) {
    exists a :: a in d.alerts && d.alerts[a].ruleFingerprint == FingerprintOf(r)
                && SessionsSince(calendar, d.alerts[a].evidence.dataDate, today) <= r.spec.cooldown
  }

  lemma LatestSawLast(d: Disk, r: Rule, id: ScanId)
    requires ScansNumbered(d.scans) && id in d.scans
    ensures IsLatest(d.scans, r.id, |d.scans| + 1, id)
              && d.scans[id].ruleStates[r.id].fingerprint == FingerprintOf(r) && d.scans[id].ruleStates[r.id].triggered
        <==> SawLast(d.scans, r, id)
  {
    if IsLatest(d.scans, r.id, |d.scans| + 1, id) {
      forall k | k in d.scans && d.scans[k].status != Failed && d.scans[k].sequence > d.scans[id].sequence
        ensures r.id !in d.scans[k].ruleStates
      {
        assert !Records(d.scans[k], r.id);
      }
    }
  }

  lemma StillTrueIsLastSeenTrue(d: Disk, r: Rule)
    requires ScansNumbered(d.scans)
    ensures StillTrue(d.scans, FingerprintOf(r), |d.scans| + 1) <==> LastSeenTrue(d.scans, r)
  {
    hide IsLatest, SawLast, ScansNumbered;
    LatestIsThere(d, r);
    forall id | id in d.scans
      ensures IsLatest(d.scans, r.id, |d.scans| + 1, id) ==> r.id in d.scans[id].ruleStates
      ensures IsLatest(d.scans, r.id, |d.scans| + 1, id)
                && d.scans[id].ruleStates[r.id].fingerprint == FingerprintOf(r) && d.scans[id].ruleStates[r.id].triggered
          <==> SawLast(d.scans, r, id)
    {
      LatestSawLast(d, r, id);
    }
  }

  lemma LatestIsThere(d: Disk, r: Rule)
    ensures forall id | IsLatest(d.scans, r.id, |d.scans| + 1, id) :: id in d.scans && r.id in d.scans[id].ruleStates
    ensures forall id | SawLast(d.scans, r, id) :: id in d.scans
  {
  }

  /** On a sound store comparing with the newest alert of the rule is comparing with all of them. */
  lemma CoolingDownIsAlertNearby(calendar: seq<Date>, d: Disk, snap: Snapshot, r: Rule)
    requires Sound(calendar, d) && StrictlyAscending(calendar) && SeenOn(calendar, snap)
    ensures CoolingDown(d.scans, d.alerts, FingerprintOf(r), snap.evidence.dataDate, snap.calendar)
        <==> AlertNearby(d, r, snap.evidence.dataDate, calendar)
  {
    hide Integrity, SessionsSince, StillTrue, Apart;
    var today := snap.evidence.dataDate;
    if CoolingDown(d.scans, d.alerts, FingerprintOf(r), today, snap.calendar) {
      var id :| IsLastAlert(d.scans, d.alerts, FingerprintOf(r), id)
        && SessionsSince(snap.calendar, d.alerts[id].evidence.dataDate, today) <= r.spec.cooldown;
      PrefixKeepsDistance(snap.calendar, calendar, d.alerts[id].evidence.dataDate, today);
    } else if AlertNearby(d, r, today, calendar) {
      var a :| a in d.alerts && d.alerts[a].ruleFingerprint == FingerprintOf(r)
        && SessionsSince(calendar, d.alerts[a].evidence.dataDate, today) <= r.spec.cooldown;
      AlertsNameTheirRule(calendar, d, a);
      NotCoolingMeansFar(d, calendar, snap.calendar, a, today);
      assert false;
    }
  }

  lemma AlertsNameTheirRule(calendar: seq<Date>, d: Disk, a: AlertId)
    requires Sound(calendar, d) && a in d.alerts
    ensures d.alerts[a].rule == d.alerts[a].ruleFingerprint.id
  {
    hide ScanWhole, ScansWhole, AlertActionsOk, NoteActionsOk, ChainOk, NotificationsBound, Apart, StillTrue;
  }

  /** Each verdict of the engine on a sound store, from the records alone. */
  lemma VerdictExactly(calendar: seq<Date>, d: Disk, ws: seq<Watchlist>, snap: Snapshot, r: Rule)
    requires Sound(calendar, d) && StrictlyAscending(calendar) && SeenOn(calendar, snap)
    ensures var v := VerdictOn(d, ws, snap, r);
            && (v.Aborted? <==> OnAList(ws, r) && snap.evaluate(r).Raises?)
            && (Judged(v) <==> OnAList(ws, r) && snap.evaluate(r).Observed?)
            && (v.Fires? <==> Holds(ws, snap, r) && !LastSeenTrue(d.scans, r) && !AlertNearby(d, r, snap.evidence.dataDate, calendar))
            && (v == Suppressed(ConditionStillTrue) <==> Holds(ws, snap, r) && LastSeenTrue(d.scans, r))
            && (v == Suppressed(Cooldown)
                <==> Holds(ws, snap, r) && !LastSeenTrue(d.scans, r) && AlertNearby(d, r, snap.evidence.dataDate, calendar))
            && (!OnAList(ws, r) ==> v == Skipped("watchlist_disabled"))
            && (OnAList(ws, r) && snap.evaluate(r).Excluded? ==> v == Skipped(snap.evaluate(r).code))
  {
    hide Spaced, Rearmed, StillTrue, CoolingDown, LastSeenTrue, AlertNearby, ScansWhole, AlertsOwned, AlertActionsOk, NotificationsBound,
      NoteActionsOk, ChainOk, ScansNumbered, WithinCaps;
    StillTrueIsLastSeenTrue(d, r);
    CoolingDownIsAlertNearby(calendar, d, snap, r);
    if Watched(ws, r) {
      var i :| 0 <= i < |ws| && ws[i].id == r.spec.watchlistId && ws[i].enabled && r.spec.symbol in ws[i].symbols;
      assert ws[i] in ws;
    }
    if OnAList(ws, r) {
      var w :| w in ws && w.id == r.spec.watchlistId && w.enabled && r.spec.symbol in w.symbols;
      var i :| 0 <= i < |ws| && ws[i] == w;
    }
  }

  // ----- what a finished scan leaves on disk

  /** The scan record and the alert files say of this rule what was found, and why it is silent if it is. */
  ghost predicate IsHeard(calendar: seq<Date>, before: Disk, ws: seq<Watchlist>, snap: Snapshot, scan: Scan, after: Disk, r: Rule) {
    var today := snap.evidence.dataDate;
    var stale := LastSeenTrue(before.scans, r);
    var near := AlertNearby(before, r, today, calendar);
    && !(OnAList(ws, r) && snap.evaluate(r).Raises?)
    && (r.id in scan.ruleStates <==> OnAList(ws, r) && snap.evaluate(r).Observed?)
    && (r.id in scan.ruleStates && snap.evaluate(r).Observed? ==>
          scan.ruleStates[r.id] == RuleState(FingerprintOf(r), snap.evaluate(r).triggered, snap.evaluate(r).value, today))
    && (Holds(ws, snap, r) && !stale && !near <==> AlertId(scan.id, r.id) in after.alerts)
    && (AlertId(scan.id, r.id) in after.alerts ==>
          var a := after.alerts[AlertId(scan.id, r.id)];
          a.ruleFingerprint == FingerprintOf(r) && a.evidence == snap.evidence && AlertId(scan.id, r.id) in scan.triggered)
    && (Holds(ws, snap, r) && stale <==> Suppression(r.id, r.spec.symbol, ConditionStillTrue) in scan.suppressed)
    && (Holds(ws, snap, r) && !stale && near <==> Suppression(r.id, r.spec.symbol, Cooldown) in scan.suppressed)
    && (!OnAList(ws, r) ==> Exclusion(Some(r.id), "watchlist_disabled") in scan.exclusions)
    && (OnAList(ws, r) && snap.evaluate(r).Excluded? ==> Exclusion(Some(r.id), snap.evaluate(r).code) in scan.exclusions)
    && (r.id in scan.ruleStates ==> forall code :: Exclusion(Some(r.id), code) !in scan.exclusions)
  }

  ghost predicate EveryRuleIsHeard(calendar: seq<Date>, before: Disk, snap: Snapshot, scan: Scan, after: Disk) {
    before.configs != [] &&
    var c := before.configs[|before.configs| - 1];
    && (forall r | r in c.rules && r.spec.enabled :: IsHeard(calendar, before, c.watchlists, snap, scan, after, r))
    && (scan.status.Succeeded? <==> scan.exclusions == [])
  }

  /** Nothing raised, so the loop came to every rule. */
  lemma AllReached(d: Disk, ws: seq<Watchlist>, head: Header, snap: Snapshot, rules: seq<Rule>, sweep: Sweep)
    requires Accounts(d, ws, head, snap, rules, sweep) && sweep.aborted.None?
    ensures forall i | 0 <= i < |rules| :: Reached(d, ws, snap, rules, i) && !VerdictOn(d, ws, snap, rules[i]).Aborted?
  {
    hide VerdictOn, StatesAccount, Gathers;
  }

  lemma EntryIsListed<T(!new)>(d: Disk, ws: seq<Watchlist>, snap: Snapshot, rules: seq<Rule>, of: Rule -> Option<T>, list: seq<T>, x: T)
    requires Gathers(EachReached(d, ws, snap, rules, of), list)
    requires forall i | 0 <= i < |rules| :: Reached(d, ws, snap, rules, i)
    ensures x in list <==> exists i :: 0 <= i < |rules| && of(rules[i]) == Some(x)
  {
    hide VerdictOn, Reached, Gathers;
    var entries := EachReached(d, ws, snap, rules, of);
    GatheredExactly(entries, list, x);
    if i :| 0 <= i < |entries| && entries[i] == Some(x) {
      assert of(rules[i]) == Some(x);
    }
    if i :| 0 <= i < |rules| && of(rules[i]) == Some(x) {
      assert entries[i] == Some(x);
    }
  }

  /** The lists of a finished sweep, for the rule at one position. */
  lemma RuleIsListed(d: Disk, ws: seq<Watchlist>, head: Header, snap: Snapshot, rules: seq<Rule>, sweep: Sweep, i: nat)
    requires Accounts(d, ws, head, snap, rules, sweep) && sweep.aborted.None? && DistinctRules(rules) && i < |rules|
    ensures var v := VerdictOn(d, ws, snap, rules[i]);
            && (forall a | a in sweep.alerts && a.id == AlertId(head.scanId, rules[i].id) ::
                  v.Fires? && snap.evaluate(rules[i]).Observed? && a == AlertFor(head, snap, rules[i]))
            && (v.Fires? ==> snap.evaluate(rules[i]).Observed? && AlertFor(head, snap, rules[i]) in sweep.alerts)
            && (forall why :: Suppression(rules[i].id, rules[i].spec.symbol, why) in sweep.suppressed <==> v == Suppressed(why))
            && (forall code :: Exclusion(Some(rules[i].id), code) in sweep.exclusions <==> v == Skipped(code))
  {
    hide VerdictOn, Gathers, StatesAccount, StateFor, Reached, Accounts;
    var r := rules[i];
    var v := VerdictOn(d, ws, snap, r);
    AccountParts(d, ws, head, snap, rules, sweep);
    AllReached(d, ws, head, snap, rules, sweep);
    VerdictMeans(d, ws, head, snap, r);
    forall a | a in sweep.alerts && a.id == AlertId(head.scanId, r.id)
      ensures v.Fires? && snap.evaluate(r).Observed? && a == AlertFor(head, snap, r)
    {
      EntryIsListed(d, ws, snap, rules, AlertOf(d, ws, head, snap), sweep.alerts, a);
      var j :| 0 <= j < |rules| && AlertOf(d, ws, head, snap)(rules[j]) == Some(a);
      assert j == i;
    }
    if v.Fires? {
      EntryIsListed(d, ws, snap, rules, AlertOf(d, ws, head, snap), sweep.alerts, AlertFor(head, snap, r));
      assert AlertOf(d, ws, head, snap)(r) == Some(AlertFor(head, snap, r));
    }
    forall why ensures Suppression(r.id, r.spec.symbol, why) in sweep.suppressed <==> v == Suppressed(why) {
      var x := Suppression(r.id, r.spec.symbol, why);
      EntryIsListed(d, ws, snap, rules, SuppressionOf(d, ws, snap), sweep.suppressed, x);
      if v == Suppressed(why) {
        assert SuppressionOf(d, ws, snap)(r) == Some(x);
      }
    }
    forall code ensures Exclusion(Some(r.id), code) in sweep.exclusions <==> v == Skipped(code) {
      var x := Exclusion(Some(r.id), code);
      EntryIsListed(d, ws, snap, rules, ExclusionOf(d, ws, snap), sweep.exclusions, x);
      if v == Skipped(code) {
        assert ExclusionOf(d, ws, snap)(r) == Some(x);
      }
    }
  }

  /**
   A scan that failed because an evaluation raised keeps what was seen before that: the states, suppressions and
   exclusions of the rules the loop came to, and the message; it raises no alert.
   */
  ghost predicate TellsOfTheRaise(d: Disk, ws: seq<Watchlist>, snap: Snapshot, rules: seq<Rule>, scan: Scan) {
    && scan.status == Failed && scan.triggered == [] && scan.evidence == Some(snap.evidence) && scan.error.Some?
    && FirstRaise(d, ws, snap, rules, scan.error)
    && StatesAccount(d, ws, snap, rules, scan.ruleStates)
    && Gathers(EachReached(d, ws, snap, rules, SuppressionOf(d, ws, snap)), scan.suppressed)
    && Gathers(EachReached(d, ws, snap, rules, ExclusionOf(d, ws, snap)), scan.exclusions)
  }

  lemma FailedScanTells(d: Disk, ws: seq<Watchlist>, head: Header, snap: Snapshot, rules: seq<Rule>, sweep: Sweep, sequence: nat, actor: string)
    requires Accounts(d, ws, head, snap, rules, sweep) && sweep.aborted.Some?
    ensures TellsOfTheRaise(d, ws, snap, rules, FailedScanFor(head, Some(snap.evidence), sweep, sequence, actor, sweep.aborted.value))
  {
    hide Gathers, StatesAccount, FirstRaise;
  }

  lemma AccountParts(d: Disk, ws: seq<Watchlist>, head: Header, snap: Snapshot, rules: seq<Rule>, sweep: Sweep)
    requires Accounts(d, ws, head, snap, rules, sweep)
    ensures StatesAccount(d, ws, snap, rules, sweep.states)
    ensures Gathers(EachReached(d, ws, snap, rules, AlertOf(d, ws, head, snap)), sweep.alerts)
    ensures Gathers(EachReached(d, ws, snap, rules, SuppressionOf(d, ws, snap)), sweep.suppressed)
    ensures Gathers(EachReached(d, ws, snap, rules, ExclusionOf(d, ws, snap)), sweep.exclusions)
  {
  }

  /** On the store a finished scan leaves, an alert of this scan is one of the sweep. */
  lemma AlertIsOnFile(d: Disk, tx: Tx, rule: RuleId)
    requires Integrity(d) && TxBound(d, tx)
    ensures AlertId(tx.scan.id, rule) in Commit(d, tx).alerts <==> exists a :: a in tx.alerts && a.id == AlertId(tx.scan.id, rule)
    ensures forall a | a in tx.alerts && a.id == AlertId(tx.scan.id, rule) ::
              Commit(d, tx).alerts[a.id] == a && a.id in tx.scan.triggered
  {
    hide ScanWhole, AlertActionsOk, NoteActionsOk, ChainOk, NotificationsBound, AlertBound, EvidenceBound, StatesBound, ScanRecordOk, AsMap;
    var id := AlertId(tx.scan.id, rule);
    AsMapMembers(tx.alerts);
    if id in d.alerts {
      AlertIdsNameTheirScan(d, id);
    }
    forall a | a in tx.alerts && a.id == id ensures Commit(d, tx).alerts[id] == a && id in tx.scan.triggered {
      var k :| 0 <= k < |tx.alerts| && tx.alerts[k] == a;
      AsMapLooksUp(tx.alerts, k);
      assert Ids(tx.alerts)[k] == id;
    }
    if id in Commit(d, tx).alerts {
      var k :| 0 <= k < |tx.alerts| && tx.alerts[k].id == id;
      assert tx.alerts[k] in tx.alerts;
    }
  }

  lemma RuleIsHeard(calendar: seq<Date>, d: Disk, head: Header, snap: Snapshot, actor: string, tx: Tx, i: nat)
    requires Sound(calendar, d) && StrictlyAscending(calendar) && SeenOn(calendar, snap) && EngineTx(d, head, snap, actor, tx)
    requires i < |EnabledRules(head.config.rules)|
    ensures IsHeard(calendar, d, head.config.watchlists, snap, tx.scan, Commit(d, tx), EnabledRules(head.config.rules)[i])
  {
    hide Integrity, SweepOf, EnabledRules, VerdictOn, LastSeenTrue, AlertNearby, OnAList, Commit, TxBound, Spaced, Rearmed, Gathers, Reached,
      WellTaken;
    var ws, rules := head.config.watchlists, EnabledRules(head.config.rules);
    var r := rules[i];
    var sweep := SweepOf(d, ws, head, snap, rules);
    IntactChain(d);
    CurrentConfigFacts(d, head.config);
    EnabledAreRules(head.config.rules);
    SweepAccounts(d, ws, head, snap, rules);
    AllReached(d, ws, head, snap, rules, sweep);
    RuleIsListed(d, ws, head, snap, rules, sweep, i);
    VerdictExactly(calendar, d, ws, snap, r);
    EngineTxIsBound(d, head, snap, actor, tx);
    AlertIsOnFile(d, tx, r.id);
  }

  /**
   A scan that finishes leaves an alert on disk for every enabled rule whose condition holds, except for
   those that were on record as still true or have an alert within their cooldown; and the scan says which.
   */
  lemma FinishedScanHearsEveryRule(calendar: seq<Date>, d: Disk, snap: Snapshot, tx: Tx)
    requires Sound(calendar, d) && StrictlyAscending(calendar) && Scanned(calendar, d, snap, tx)
    ensures EveryRuleIsHeard(calendar, d, snap, tx.scan, Commit(d, tx))
  {
    hide Integrity, SweepOf, EnabledRules, IsHeard, Commit, Spaced, Rearmed;
    var head, actor :| EngineTx(d, head, snap, actor, tx);
    IntactChain(d);
    CurrentConfigFacts(d, head.config);
    EnabledAreRules(head.config.rules);
    var rules := EnabledRules(head.config.rules);
    forall r | r in head.config.rules && r.spec.enabled
      ensures IsHeard(calendar, d, head.config.watchlists, snap, tx.scan, Commit(d, tx), r)
    {
      var i :| 0 <= i < |rules| && rules[i] == r;
      RuleIsHeard(calendar, d, head, snap, actor, tx, i);
    }
  }
}
