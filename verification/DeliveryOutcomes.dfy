/**
 What the replies to a webhook delivery make of it: which of them are tried again at once, which settle it for
 good, and how many requests a call sends.
 */
module DeliveryOutcomes {
  import opened Common
  import opened Webhook

  // ----- kinds of replies

  /** The endpoint took the notification: a reply with a status in 200..299 that is not an exception. */
  predicate Accepts(reply: Reply) {
    reply.Responds? && reply.status / 100 == 2
  }

  /** Trying again may help: any server error, or one of three client errors, or an exception of the transport. */
  predicate Passing(reply: Reply) {
    match reply
    case Responds(status) => status in {408, 425, 429} || 500 <= status
    case Rejects(status, _, _, _) => status in {408, 425, 429} || 500 <= status
    case Breaks(retryable, _, _) => retryable
  }

  /** The attempt gets on record. */
  ghost predicate Lands(d: Delivery, sequence: nat, replies: nat -> Reply, writes: nat -> bool) {
    Recordable(d, sequence, replies(sequence)) && writes(sequence)
  }

  /** The record of an attempt says how the endpoint replied. */
  predicate Tells(a: Attempt, reply: Reply) {
    && a.status == (if Accepts(reply) then Succeeded else if Passing(reply) then RetryableFailure else PermanentFailure)
    && a.http == (if reply.Breaks? then None else Some(reply.status))
    && (a.error.None? <==> Accepts(reply))
  }

  lemma AttemptTells(d: Delivery, sequence: nat, reply: Reply)
    ensures Tells(AttemptFor(d, sequence, reply), reply)
    ensures !(Accepts(reply) && Passing(reply))
  {
    hide SafeError, Decimal;
  }

  // ----- one call

  /** Nothing has settled the delivery, and n attempts are on record. */
  ghost predicate OpenAfter(attempts: Attempts, d: Delivery, n: nat) {
    Contiguous(attempts, d, n) && (n > 0 ==> attempts[AttemptId(d, n)].status.RetryableFailure?)
  }

  /** The call ends at attempt m: the first one that is not a passing failure on record, or the one past the limit. */
  ghost predicate EndsAt(d: Delivery, n: nat, limit: nat, replies: nat -> Reply, writes: nat -> bool, m: nat) {
    && n < m <= limit + 1
    && (forall s: nat | n < s < m :: Lands(d, s, replies, writes) && Passing(replies(s)))
    && (m <= limit ==> !(Lands(d, m, replies, writes) && Passing(replies(m))))
  }

  /** The attempts on record when the call is over. */
  ghost function LastLanded(d: Delivery, limit: nat, replies: nat -> Reply, writes: nat -> bool, m: nat): nat
    requires m > 0
  {
    if m <= limit && Lands(d, m, replies, writes) then m else m - 1
  }

  ghost predicate Outcome(before: Attempts, r: CallResult, d: Delivery, n: nat, limit: nat, replies: nat -> Reply, writes: nat -> bool, m: nat)
    requires m > n
  {
    && r.posts == (if m <= limit then m else limit) - n
    && Contiguous(r.attempts, d, LastLanded(d, limit, replies, writes, m))
    && (forall s: nat | n < s <= LastLanded(d, limit, replies, writes, m) :: Tells(r.attempts[AttemptId(d, s)], replies(s)))
    && (r.ending.Finished? <==> m > limit || Lands(d, m, replies, writes))
    && (forall id | id in before :: id in r.attempts && r.attempts[id] == before[id])
    && forall id | id in r.attempts && id !in before :: id.delivery == d
  }

  lemma AddAttempt(attempts: Attempts, d: Delivery, n: nat, reply: Reply)
    requires Contiguous(attempts, d, n)
    ensures var a := AttemptFor(d, n + 1, reply);
            && a.id == AttemptId(d, n + 1) && a.id !in attempts && Contiguous(attempts[a.id := a], d, n + 1)
            && forall id | id in attempts :: attempts[a.id := a][id] == attempts[id]
  {
    AttemptForIsNumbered(d, n + 1, reply);
  }

  lemma {:induction false} RetriedExactly(
      attempts: Attempts, d: Delivery, n: nat, limit: nat, replies: nat -> Reply, writes: nat -> bool, m: nat)
    requires OpenAfter(attempts, d, n) && n <= limit && EndsAt(d, n, limit, replies, writes, m)
    ensures Outcome(attempts, Retried(attempts, d, n, limit, replies, writes), d, n, limit, replies, writes, m)
    decreases m - n
  {
    hide Recordable, AttemptFor, Tells, Passing, Contiguous;
    var r := Retried(attempts, d, n, limit, replies, writes);
    if n < limit {
      var reply := replies(n + 1);
      var a := AttemptFor(d, n + 1, reply);
      var after := attempts[a.id := a];
      AddAttempt(attempts, d, n, reply);
      AttemptTells(d, n + 1, reply);
      RetryableIsPassing(a, reply);
      if n + 1 < m {
        RetriedExactly(after, d, n + 1, limit, replies, writes, m);
        OneMoreOutcome(attempts, after, d, n, limit, replies, writes, m);
      }
    }
  }

  lemma RetryableIsPassing(a: Attempt, reply: Reply)
    requires Tells(a, reply)
    ensures a.status.RetryableFailure? <==> Passing(reply)
  {
  }

  lemma OneMoreOutcome(
      attempts: Attempts, after: Attempts, d: Delivery, n: nat, limit: nat, replies: nat -> Reply, writes: nat -> bool, m: nat)
    requires n < limit && n + 1 < m <= limit + 1 && Lands(d, n + 1, replies, writes)
    requires after == attempts[AttemptId(d, n + 1) := AttemptFor(d, n + 1, replies(n + 1))] && AttemptId(d, n + 1) !in attempts
    requires AttemptFor(d, n + 1, replies(n + 1)).status.RetryableFailure? && Tells(AttemptFor(d, n + 1, replies(n + 1)), replies(n + 1))
    requires AttemptFor(d, n + 1, replies(n + 1)).id == AttemptId(d, n + 1)
    requires Outcome(after, Retried(after, d, n + 1, limit, replies, writes), d, n + 1, limit, replies, writes, m)
    ensures Outcome(attempts, Retried(attempts, d, n, limit, replies, writes), d, n, limit, replies, writes, m)
  {
    hide Recordable, AttemptFor, Tells, Contiguous;
    var rest, r := Retried(after, d, n + 1, limit, replies, writes), Retried(attempts, d, n, limit, replies, writes);
    assert r == CallResult(rest.attempts, rest.posts + 1, rest.ending);
    assert rest.attempts[AttemptId(d, n + 1)] == after[AttemptId(d, n + 1)];
    forall id | id in attempts ensures id in r.attempts && r.attempts[id] == attempts[id] {
      assert id in after && after[id] == attempts[id];
    }
  }

  /**
   One call on an open delivery, exactly.  Passing failures that get on record are tried again at once, up to
   the limit; the first other reply, or the first that does not get on record, ends the call.
   */
  lemma CallExactly(attempts: Attempts, d: Delivery, n: nat, limit: nat, replies: nat -> Reply, writes: nat -> bool, m: nat)
    requires OpenAfter(attempts, d, n) && n <= limit && EndsAt(d, n, limit, replies, writes, m)
    ensures Outcome(attempts, Called(attempts, d, n, limit, replies, writes), d, n, limit, replies, writes, m)
  {
    hide Outcome, Retried, EndsAt;
    RetriedExactly(attempts, d, n, limit, replies, writes, m);
    NothingNumberedZero(attempts, d, n);
  }

  /** A call always ends somewhere. */
  lemma {:induction false} EveryCallEnds(d: Delivery, n: nat, limit: nat, replies: nat -> Reply, writes: nat -> bool)
    requires n <= limit
    ensures exists m: nat :: EndsAt(d, n, limit, replies, writes, m)
    decreases limit - n
  {
    hide Lands, Passing;
    if n < limit && Lands(d, n + 1, replies, writes) && Passing(replies(n + 1)) {
      EveryCallEnds(d, n + 1, limit, replies, writes);
      var m: nat :| EndsAt(d, n + 1, limit, replies, writes, m);
      assert EndsAt(d, n, limit, replies, writes, m);
    } else {
      assert EndsAt(d, n, limit, replies, writes, n + 1);
    }
  }

  // ----- what this means for a delivery

  /** The store can be delivered from: the outbox record is there or can be written, and the attempts are not too many. */
  ghost predicate Deliverable(outboxes: Outboxes, attempts: Attempts, d: Delivery, call: Call) {
    (d in outboxes || call.writes(0)) && |attempts| <= MAX_ATTEMPT_RECORDS
  }

  lemma VisitIsCall(outboxes: Outboxes, attempts: Attempts, d: Delivery, n: nat, limit: nat, call: Call)
    requires OpenAfter(attempts, d, n) && Deliverable(outboxes, attempts, d, call)
    ensures var v, r := Visited(outboxes, attempts, d, limit, call), Called(attempts, d, n, limit, call.replies, call.writes);
            v.attempts == r.attempts && v.posts == r.posts && v.ending == r.ending && d in v.outboxes
  {
    hide Called;
    OnlyOneLength(attempts, d, n);
    OutboxIsThere(outboxes, d, call.now, call.writes(0));
    assert LengthOf(attempts, d) == n;
  }

  /** A passing failure is not the end: while attempts remain the same call sends the next request. */
  lemma PassingFailureIsTriedAgain(outboxes: Outboxes, attempts: Attempts, d: Delivery, n: nat, limit: nat, call: Call)
    requires OpenAfter(attempts, d, n) && Deliverable(outboxes, attempts, d, call) && n < limit
    requires Lands(d, n + 1, call.replies, call.writes) && Passing(call.replies(n + 1))
    ensures var v := Visited(outboxes, attempts, d, limit, call);
            && AttemptId(d, n + 1) in v.attempts && v.attempts[AttemptId(d, n + 1)].status.RetryableFailure?
            && (n + 1 < limit ==> v.posts >= 2)
            && (n + 1 < limit && !Lands(d, n + 2, call.replies, call.writes) ==> !Closed(v.attempts, d, limit))
  {
    hide Visited, Called, Lands, Passing, Closed;
    VisitIsCall(outboxes, attempts, d, n, limit, call);
    EveryCallEnds(d, n, limit, call.replies, call.writes);
    var m: nat :| EndsAt(d, n, limit, call.replies, call.writes, m);
    CallExactly(attempts, d, n, limit, call.replies, call.writes, m);
    var v := Visited(outboxes, attempts, d, limit, call);
    RetryableIsPassing(v.attempts[AttemptId(d, n + 1)], call.replies(n + 1));
    if n + 1 < limit && !Lands(d, n + 2, call.replies, call.writes) {
      assert m == n + 2;
      OpenIsNotClosed(v.attempts, d, limit, n + 1);
    }
  }

  /** A closed delivery is never sent again, whatever calls come. */
  lemma {:induction false} ClosedStaysClosed(outboxes: Outboxes, attempts: Attempts, d: Delivery, limit: nat, calls: seq<Call>)
    requires Closed(attempts, d, limit)
    ensures var after := AfterCalls(outboxes, attempts, d, limit, calls);
            after.attempts == attempts && after.posts == 0
  {
    if calls != [] {
      ClosedStaysClosed(outboxes, attempts, d, limit, calls[..|calls| - 1]);
      var n: nat :| Contiguous(attempts, d, n) && (n >= limit || (n > 0 && !attempts[AttemptId(d, n)].status.RetryableFailure?));
      OnlyOneLength(attempts, d, n);
    }
  }

  /**
   Any other reply that gets on record is the end of it: a status in 200..299 as a success, everything else
   as a permanent failure, with no further request in this call or any later one.
   */
  lemma AnyOtherReplySettles(outboxes: Outboxes, attempts: Attempts, d: Delivery, n: nat, limit: nat, call: Call, later: seq<Call>)
    requires OpenAfter(attempts, d, n) && Deliverable(outboxes, attempts, d, call) && n < limit
    requires Lands(d, n + 1, call.replies, call.writes) && !Passing(call.replies(n + 1))
    ensures var v := Visited(outboxes, attempts, d, limit, call);
            && v.posts == 1 && v.ending.Finished? && AttemptId(d, n + 1) in v.attempts
            && v.attempts[AttemptId(d, n + 1)].status == (if Accepts(call.replies(n + 1)) then Succeeded else PermanentFailure)
            && AfterCalls(v.outboxes, v.attempts, d, limit, later).attempts == v.attempts
            && AfterCalls(v.outboxes, v.attempts, d, limit, later).posts == 0
  {
    hide Visited, Called, Lands, Passing, AfterCalls, Accepts;
    var v := Visited(outboxes, attempts, d, limit, call);
    VisitIsCall(outboxes, attempts, d, n, limit, call);
    CallExactly(attempts, d, n, limit, call.replies, call.writes, n + 1);
    ClosedStaysClosed(v.outboxes, v.attempts, d, limit, later);
  }

  /** The statuses by name: what a recorded HTTP status means for an open delivery. */
  lemma StatusDecides(d: Delivery, sequence: nat, reply: Reply)
    requires !reply.Breaks? && Recordable(d, sequence, reply)
    ensures Passing(reply) <==> reply.status == 408 || reply.status == 425 || reply.status == 429 || 500 <= reply.status <= 599
    ensures Accepts(reply) ==> 200 <= reply.status <= 299
    ensures reply.Responds? && 200 <= reply.status <= 299 ==> Accepts(reply)
    ensures reply.Rejects? ==> !Accepts(reply)
  {
    hide SafeError, Decimal;
  }
}
