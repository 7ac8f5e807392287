/**
 Webhook delivery beside a growing inbox: steps of the owner's store and single file operations of the
 delivery in any order, which is all that `_verify_integrity_unlocked` sees of the two.
 */
module MonitoredDelivery {
  import opened Common
  import opened MarketCalendar
  import opened MonitoringConfig
  import opened MonitoringRecords
  import opened MonitoringStore
  import opened ScanTransaction
  import opened MonitoringRuns
  import Webhook

  /** The owner's store with the two delivery directories. */
  datatype World = World(disk: Disk, outboxes: Webhook.Outboxes, attempts: Webhook.Attempts)

  const EmptyWorld := World(EmptyDisk, map[], map[])

  function Inbox(d: Disk): set<Notification> {
    d.notifications.Values
  }

  ghost predicate OutboxStep(w: World, v: World) {
    exists d: Webhook.Delivery, now :: d.notification in Inbox(w.disk) && d !in w.outboxes
      && v == w.(outboxes := w.outboxes[d := Webhook.Outbox(d, now)])
  }

  /** The next attempt of an open delivery, with a reply that can be recorded. */
  ghost predicate NextAttempt(w: World, limit: nat, d: Webhook.Delivery, n: nat, reply: Webhook.Reply) {
    && d in w.outboxes && n < limit && Webhook.Contiguous(w.attempts, d, n)
    && (forall s: nat | 1 <= s <= n :: w.attempts[Webhook.AttemptId(d, s)].status.RetryableFailure?)
    && Webhook.Recordable(d, n + 1, reply)
  }

  ghost predicate AttemptStep(limit: nat, w: World, v: World) {
    exists d, n: nat, reply :: NextAttempt(w, limit, d, n, reply)
      && v == w.(attempts := w.attempts[Webhook.AttemptId(d, n + 1) := Webhook.AttemptFor(d, n + 1, reply)])
  }

  ghost predicate WorldStep(calendar: seq<Date>, limit: nat, w: World, v: World) {
    || (Step(calendar, w.disk, v.disk) && v == w.(disk := v.disk))
    || OutboxStep(w, v)
    || AttemptStep(limit, w, v)
  }

  ghost predicate StepAt(calendar: seq<Date>, limit: nat, h: seq<World>, i: nat)
    requires i + 1 < |h|
  {
    WorldStep(calendar, limit, h[i], h[i + 1])
  }

  ghost predicate WorldRun(calendar: seq<Date>, limit: nat, h: seq<World>) {
    && |h| > 0 && h[0] == EmptyWorld
    && forall i | 0 <= i < |h| - 1 :: StepAt(calendar, limit, h, i)
  }

  ghost predicate WorldInv(calendar: seq<Date>, limit: nat, w: World) {
    Inv(calendar, w.disk) && Webhook.Kept(w.outboxes, w.attempts, Inbox(w.disk), limit)
  }

  // ----- the inbox only grows

  lemma SmallerInbox(d: Disk, e: Disk)
    requires d.notifications.Items <= e.notifications.Items
    ensures Inbox(d) <= Inbox(e)
  {
    forall n | n in Inbox(d) ensures n in Inbox(e) {
      var id :| id in d.notifications && d.notifications[id] == n;
      assert (id, n) in d.notifications.Items;
      assert (id, n) in e.notifications.Items;
    }
  }

  lemma TxStepKeepsInbox(d: Disk, e: Disk)
    requires TxStep(d, e)
    ensures e.notifications == d.notifications
  {
    hide WriteStep, RecoverStep, LossStep;
    if WriteStep(d, e) {
      WriteStepKeepsInbox(d, e);
    } else if RecoverStep(d, e) {
      RecoverStepKeepsInbox(d, e);
    } else if LossStep(d, e) {
      LossStepKeepsInbox(d, e);
    }
  }

  lemma WriteStepKeepsInbox(d: Disk, e: Disk)
    requires WriteStep(d, e)
    ensures e.notifications == d.notifications
  {
    hide AllPresent, Present;
  }

  lemma RecoverStepKeepsInbox(d: Disk, e: Disk)
    requires RecoverStep(d, e)
    ensures e.notifications == d.notifications
  {
    hide AllPresent, NonePresent, Present;
  }

  lemma LossStepKeepsInbox(d: Disk, e: Disk)
    requires LossStep(d, e)
    ensures e.notifications == d.notifications
  {
    hide AsMap;
  }

  lemma InFlightInbox(base: Disk, tx: Tx, e: Disk)
    requires InFlight(base, tx, e)
    ensures e.notifications == base.notifications
  {
  }

  lemma InboxGrows(calendar: seq<Date>, d: Disk, e: Disk)
    requires StrictlyAscending(calendar) && Inv(calendar, d) && Step(calendar, d, e)
    ensures Inbox(d) <= Inbox(e)
  {
    hide Sound, Opened, InFlight, Step, TxStep, Inbox;
    if d.marker.Some? {
      OpenStepIsTxStep(calendar, d, e);
      TxStepKeepsInbox(d, e);
      SmallerInbox(d, e);
    } else {
      IdleStepHolds(calendar, d, e);
      if e.marker.None? {
        SmallerInbox(d, e);
      } else {
        var base, snap, tx :| Opened(calendar, base, snap, tx) && InFlight(base, tx, e) && Extends(d, base);
        InFlightInbox(base, tx, e);
        SmallerInbox(d, base);
        SmallerInbox(base, e);
      }
    }
  }

  lemma OpenStepIsTxStep(calendar: seq<Date>, d: Disk, e: Disk)
    requires d.marker.Some? && Step(calendar, d, e)
    ensures TxStep(d, e)
  {
    hide TxStep;
  }

  /** What delivery leaves behind stays in order when more notifications arrive. */
  lemma KeptInLargerInbox(outboxes: Webhook.Outboxes, attempts: Webhook.Attempts, some: set<Notification>, more: set<Notification>, limit: nat)
    requires Webhook.Kept(outboxes, attempts, some, limit) && some <= more
    ensures Webhook.Kept(outboxes, attempts, more, limit)
  {
    hide Webhook.ChainOk, Webhook.AttemptOk;
  }

  // ----- the theorem about runs

  lemma AttemptStepKeeps(calendar: seq<Date>, limit: nat, w: World, v: World)
    requires WorldInv(calendar, limit, w) && AttemptStep(limit, w, v)
    ensures WorldInv(calendar, limit, v)
  {
    hide Inv, Inbox, Webhook.Kept, Webhook.Contiguous, Webhook.AttemptOk, Webhook.StatusOf, Webhook.HttpOf, Webhook.ErrorOf;
    var d, n: nat, reply :| NextAttempt(w, limit, d, n, reply)
      && v == w.(attempts := w.attempts[Webhook.AttemptId(d, n + 1) := Webhook.AttemptFor(d, n + 1, reply)]);
    Webhook.NextAttemptKeeps(w.outboxes, w.attempts, Inbox(w.disk), limit, n, Webhook.AttemptFor(d, n + 1, reply));
  }

  lemma OutboxStepKeeps(calendar: seq<Date>, limit: nat, w: World, v: World)
    requires WorldInv(calendar, limit, w) && OutboxStep(w, v)
    ensures WorldInv(calendar, limit, v)
  {
    hide Inv, Inbox, Webhook.Kept;
    var d: Webhook.Delivery, now :| d.notification in Inbox(w.disk) && d !in w.outboxes
      && v == w.(outboxes := w.outboxes[d := Webhook.Outbox(d, now)]);
    Webhook.NewOutboxKeeps(w.outboxes, w.attempts, Inbox(w.disk), limit, Webhook.Outbox(d, now));
  }

  lemma WorldStepKeepsInv(calendar: seq<Date>, limit: nat, w: World, v: World)
    requires StrictlyAscending(calendar) && WorldInv(calendar, limit, w) && WorldStep(calendar, limit, w, v)
    ensures WorldInv(calendar, limit, v)
  {
    hide Inv, Step, Inbox, OutboxStep, AttemptStep, Webhook.Kept;
    if OutboxStep(w, v) {
      OutboxStepKeeps(calendar, limit, w, v);
    } else if AttemptStep(limit, w, v) {
      AttemptStepKeeps(calendar, limit, w, v);
    } else {
      StepKeepsInv(calendar, w.disk, v.disk);
      InboxGrows(calendar, w.disk, v.disk);
      KeptInLargerInbox(w.outboxes, w.attempts, Inbox(w.disk), Inbox(v.disk), limit);
    }
  }

  lemma EmptyWorldIsInOrder(calendar: seq<Date>, limit: nat)
    ensures WorldInv(calendar, limit, EmptyWorld)
  {
    hide Inv;
    EmptyIsSound(calendar);
    forall d: Webhook.Delivery ensures Webhook.ChainOk(map[], d, limit) {
      assert Webhook.Contiguous(map[], d, 0);
    }
  }

  lemma {:induction false} EveryWorldKeepsInv(calendar: seq<Date>, limit: nat, h: seq<World>, n: nat)
    requires StrictlyAscending(calendar) && WorldRun(calendar, limit, h) && n < |h|
    ensures WorldInv(calendar, limit, h[n])
  {
    hide WorldInv, WorldStep;
    if n == 0 {
      EmptyWorldIsInOrder(calendar, limit);
    } else {
      EveryWorldKeepsInv(calendar, limit, h, n - 1);
      assert StepAt(calendar, limit, h, n - 1);
      WorldStepKeepsInv(calendar, limit, h[n - 1], h[n]);
    }
  }

  lemma {:induction false} ValuesAreFewer<K, V>(m: map<K, V>)
    ensures |m.Values| <= |m|
    decreases |m|
  {
    if m.Keys != {} {
      var k := Pick(m.Keys);
      var rest := m - {k};
      assert rest.Keys == m.Keys - {k};
      ValuesAreFewer(rest);
      forall v | v in m.Values ensures v in rest.Values + {m[k]} {
        var j :| j in m && m[j] == v;
        assert j != k ==> j in rest && rest[j] == v;
      }
      SmallerSet(m.Values, rest.Values + {m[k]});
    } else {
      assert m.Values == {};
    }
  }

  /**
   Between transactions the verification accepts the local evidence of every reachable world, and the
   delivery records exactly when their two directories are within the limits; for a single target they are.
   */
  lemma EveryWorldIsVerified(calendar: seq<Date>, limit: nat, h: seq<World>, n: nat)
    requires StrictlyAscending(calendar) && WorldRun(calendar, limit, h) && n < |h| && h[n].disk.marker.None?
    ensures Integrity(h[n].disk)
    ensures Webhook.Accepted(h[n].outboxes, h[n].attempts, Inbox(h[n].disk))
        <==> |h[n].outboxes| <= Webhook.MAX_OUTBOX_RECORDS && |h[n].attempts| <= Webhook.MAX_ATTEMPT_RECORDS
    ensures limit <= 5 && |Webhook.Targets(h[n].outboxes)| <= 1 ==> Webhook.Accepted(h[n].outboxes, h[n].attempts, Inbox(h[n].disk))
  {
    hide WorldRun, Sound, Webhook.Kept, Webhook.Accepted, Webhook.Targets, Inbox, Integrity;
    EveryWorldKeepsInv(calendar, limit, h, n);
    SoundIsIntact(calendar, h[n].disk);
    Webhook.KeptIsAccepted(h[n].outboxes, h[n].attempts, Inbox(h[n].disk), limit);
    if limit <= 5 && |Webhook.Targets(h[n].outboxes)| <= 1 {
      InboxIsWithinTheLimit(h[n].disk);
      AtMostOnce(|Webhook.Targets(h[n].outboxes)|, |Inbox(h[n].disk)|);
      Webhook.FewTargetsStayAcceptable(h[n].outboxes, h[n].attempts, Inbox(h[n].disk), limit);
    }
  }

  lemma AtMostOnce(targets: nat, n: nat)
    requires targets <= 1
    ensures targets * n <= n
  {
  }

  lemma InboxIsWithinTheLimit(d: Disk)
    requires Integrity(d)
    ensures |Inbox(d)| <= Webhook.MAX_OUTBOX_RECORDS
  {
    hide ChainOk, ScansNumbered, ScansWhole, AlertsOwned, AlertActionsOk, NotificationsBound, NoteActionsOk;
    ValuesAreFewer(d.notifications);
  }
}
