/**
 Webhook delivery of notifications (notification_delivery.py): one outbox record per notification and
 target, and a chain of attempts that survives crashes between sending and recording.
 */
module Webhook {
  import opened Common
  import Records = MonitoringRecords

  const MAX_OUTBOX_RECORDS: nat := 7000
  const MAX_ATTEMPT_RECORDS: nat := 35000

  type Notification = Records.Notification

  /** The delivery id: an injective function of the notification and of the target it goes to. */
  datatype Delivery = Delivery(notification: Notification, target: string)

  datatype Outbox = Outbox(delivery: Delivery, createdAt: int)

  datatype Status = Succeeded | RetryableFailure | PermanentFailure

  /** The attempt id: the delivery and the sequence number. */
  datatype AttemptId = AttemptId(delivery: Delivery, sequence: nat)

  datatype Attempt = Attempt(id: AttemptId, status: Status, http: Option<int>, error: Option<string>)

  type Outboxes = map<Delivery, Outbox>

  type Attempts = map<AttemptId, Attempt>

  // ----- error texts

  const MAX_ERROR_TEXT: nat := 500

  predicate IsControl(c: char) {
    c as int < 32
  }

  /** `str.isspace` for one character. */
  predicate IsSpace(c: char) {
    var code := c as int;
    || 9 <= code <= 13 || 28 <= code <= 32 || code == 0x85 || code == 0xA0 || code == 0x1680
    || 0x2000 <= code <= 0x200A || code == 0x2028 || code == 0x2029 || code == 0x202F || code == 0x205F || code == 0x3000
  }

  function StripLeft(s: string): string {
    if s != "" && IsSpace(s[0]) then StripLeft(s[1..]) else s
  }

  function StripRight(s: string): string {
    if s != "" && IsSpace(s[|s| - 1]) then StripRight(s[..|s| - 1]) else s
  }

  function Strip(s: string): string {
    StripRight(StripLeft(s))
  }

  function OneLine(s: string): (r: string)
    ensures |r| == |s| && forall i | 0 <= i < |s| :: r[i] == if s[i] == '\r' || s[i] == '\n' then ' ' else s[i]
  {
    seq(|s|, i requires 0 <= i < |s| => if s[i] == '\r' || s[i] == '\n' then ' ' else s[i])
  }

  /** The name of an exception class. */
  type TypeName = s: string | s != "" && forall i | 0 <= i < |s| :: !IsControl(s[i]) witness "E"

  /** `_safe_error` */
  function SafeError(text: string, name: TypeName): string {
    var line := OneLine(Strip(text));
    var kept := if line != "" then line else name;
    if |kept| <= MAX_ERROR_TEXT then kept else kept[..MAX_ERROR_TEXT]
  }

  /** `_bounded_optional_text` */
  predicate BoundedText(s: string, maximum: nat) {
    0 < |s| <= maximum && forall i | 0 <= i < |s| :: !IsControl(s[i])
  }

  /** What is kept of the text holds no control character but line breaks. */
  predicate PlainText(text: string) {
    forall i | 0 <= i < |Strip(text)| && i < MAX_ERROR_TEXT && IsControl(Strip(text)[i]) ::
      Strip(text)[i] == '\r' || Strip(text)[i] == '\n'
  }

  /** The cleaned text is short enough and never empty; it fails the check for its control characters alone. */
  lemma SafeErrorIsBounded(text: string, name: TypeName)
    ensures BoundedText(SafeError(text, name), MAX_ERROR_TEXT) <==> PlainText(text)
  {
    var s := Strip(text);
    if !PlainText(text) {
      var i :| 0 <= i < |s| && i < MAX_ERROR_TEXT && IsControl(s[i]) && s[i] != '\r' && s[i] != '\n';
      assert SafeError(text, name)[i] == s[i];
    }
  }

  // ----- what verification accepts

  /** `_validate_attempt` */
  predicate AttemptOk(a: Attempt) {
    && 1 <= a.id.sequence <= 999
    && (a.http.Some? ==> 100 <= a.http.value <= 599)
    && if a.status.Succeeded? then a.http.Some? && 200 <= a.http.value < 300 && a.error.None?
       else a.error.Some? && BoundedText(a.error.value, MAX_ERROR_TEXT)
  }

  /** The sequence numbers of a delivery are 1, ..., n. */
  ghost predicate Contiguous(attempts: Attempts, d: Delivery, n: nat) {
    forall s: nat :: AttemptId(d, s) in attempts <==> 1 <= s <= n
  }

  /** ... and a success among them is the last. */
  ghost predicate ChainAccepted(attempts: Attempts, d: Delivery) {
    exists n: nat :: Contiguous(attempts, d, n) && forall s: nat | 1 <= s < n :: !attempts[AttemptId(d, s)].status.Succeeded?
  }

  ghost predicate Accepted(outboxes: Outboxes, attempts: Attempts, notifications: set<Notification>) {
    && |outboxes| <= MAX_OUTBOX_RECORDS && |attempts| <= MAX_ATTEMPT_RECORDS
    && (forall d | d in outboxes :: outboxes[d].delivery == d && d.notification in notifications)
    && (forall id | id in attempts :: attempts[id].id == id && AttemptOk(attempts[id]) && id.delivery in outboxes)
    && forall d | d in outboxes :: ChainAccepted(attempts, d)
  }

  method CountAttempts(attempts: Attempts, d: Delivery) returns (n: nat)
    ensures forall s: nat | 1 <= s <= n :: AttemptId(d, s) in attempts
    ensures AttemptId(d, n + 1) !in attempts
  {
    n := 0;
    ghost var rest := attempts.Keys;
    while AttemptId(d, n + 1) in attempts
      invariant rest <= attempts.Keys && forall s: nat | 1 <= s <= n :: AttemptId(d, s) in attempts
      invariant forall s: nat | s > n && AttemptId(d, s) in attempts :: AttemptId(d, s) in rest
      decreases rest
    {
      n := n + 1;
      rest := rest - {AttemptId(d, n)};
    }
  }

  method CheckChain(attempts: Attempts, d: Delivery) returns (ok: bool)
    ensures ok <==> ChainAccepted(attempts, d)
  {
    var n := CountAttempts(attempts, d);
    if id :| id in attempts.Keys && id.delivery == d && !(1 <= id.sequence <= n) {
      assert id == AttemptId(d, id.sequence);
      return false;
    }
    assert Contiguous(attempts, d, n);
    var s := 1;
    while s < n
      invariant 1 <= s && forall k: nat | 1 <= k < s && k < n :: !attempts[AttemptId(d, k)].status.Succeeded?
    {
      if attempts[AttemptId(d, s)].status.Succeeded? {
        OnlyOneLength(attempts, d, n);
        return false;
      }
      s := s + 1;
    }
    ok := true;
  }

  lemma OnlyOneLength(attempts: Attempts, d: Delivery, n: nat)
    requires Contiguous(attempts, d, n)
    ensures forall m: nat | Contiguous(attempts, d, m) :: m == n
  {
    forall m: nat | Contiguous(attempts, d, m) ensures m == n {
      assert m > 0 ==> AttemptId(d, m) in attempts;
      assert n > 0 ==> AttemptId(d, n) in attempts;
      assert AttemptId(d, m + 1) !in attempts && AttemptId(d, n + 1) !in attempts;
    }
  }

  /** `verify_webhook_records` */
  method VerifyRecords(outboxes: Outboxes, attempts: Attempts, notifications: set<Notification>) returns (ok: bool)
    ensures ok <==> Accepted(outboxes, attempts, notifications)
  {
    hide ChainAccepted, AttemptOk;
    if |outboxes| > MAX_OUTBOX_RECORDS || |attempts| > MAX_ATTEMPT_RECORDS {
      return false;
    }
    var rest := outboxes.Keys;
    while rest != {}
      invariant rest <= outboxes.Keys
      invariant forall d | d in outboxes && d !in rest :: outboxes[d].delivery == d && d.notification in notifications
      decreases rest
    {
      var d :| d in rest;
      rest := rest - {d};
      if outboxes[d].delivery != d || d.notification !in notifications {
        return false;
      }
    }
    var left := attempts.Keys;
    while left != {}
      invariant left <= attempts.Keys
      invariant forall id | id in attempts && id !in left ::
                  attempts[id].id == id && AttemptOk(attempts[id]) && id.delivery in outboxes
      decreases left
    {
      var id :| id in left;
      left := left - {id};
      if attempts[id].id != id || !AttemptOk(attempts[id]) || id.delivery !in outboxes {
        return false;
      }
    }
    rest := outboxes.Keys;
    while rest != {}
      invariant rest <= outboxes.Keys
      invariant forall d | d in outboxes && d !in rest :: ChainAccepted(attempts, d)
      decreases rest
    {
      var d :| d in rest;
      rest := rest - {d};
      ok := CheckChain(attempts, d);
      if !ok { return; }
    }
    ok := true;
  }

  // ----- what delivery keeps

  /** Attempts 1, ..., n, at most the limit, and only the last can be anything but a retryable failure. */
  ghost predicate ChainOk(attempts: Attempts, d: Delivery, limit: nat) {
    exists n: nat :: n <= limit && Contiguous(attempts, d, n)
      && forall s: nat | 1 <= s < n :: attempts[AttemptId(d, s)].status.RetryableFailure?
  }

  ghost predicate Kept(outboxes: Outboxes, attempts: Attempts, notifications: set<Notification>, limit: nat) {
    && (forall d | d in outboxes :: outboxes[d].delivery == d && d.notification in notifications)
    && (forall id | id in attempts :: attempts[id].id == id && AttemptOk(attempts[id]) && id.delivery in outboxes)
    && forall d: Delivery :: ChainOk(attempts, d, limit)
  }

  /** Apart from the two directory limits, the verifier accepts whatever delivery leaves behind. */
  lemma KeptIsAccepted(outboxes: Outboxes, attempts: Attempts, notifications: set<Notification>, limit: nat)
    requires Kept(outboxes, attempts, notifications, limit)
    ensures Accepted(outboxes, attempts, notifications)
        <==> |outboxes| <= MAX_OUTBOX_RECORDS && |attempts| <= MAX_ATTEMPT_RECORDS
  {
    forall d | d in outboxes ensures ChainAccepted(attempts, d) {
      assert ChainOk(attempts, d, limit);
      var n: nat :| n <= limit && Contiguous(attempts, d, n)
        && forall s: nat | 1 <= s < n :: attempts[AttemptId(d, s)].status.RetryableFailure?;
      forall s: nat | 1 <= s < n ensures !attempts[AttemptId(d, s)].status.Succeeded? {
        assert attempts[AttemptId(d, s)].status.RetryableFailure?;
      }
    }
  }

  function Targets(outboxes: Outboxes): set<string> {
    set d | d in outboxes :: d.target
  }

  /** All deliveries of these notifications to these targets. */
  function Deliveries(notifications: set<Notification>, targets: set<string>): set<Delivery> {
    set n, target | n in notifications && target in targets :: Delivery(n, target)
  }

  lemma {:induction false} DeliveriesToOne(notifications: set<Notification>, target: string)
    ensures |Deliveries(notifications, {target})| == |notifications|
  {
    if notifications != {} {
      var n := Pick(notifications);
      DeliveriesToOne(notifications - {n}, target);
      assert Deliveries(notifications, {target}) == Deliveries(notifications - {n}, {target}) + {Delivery(n, target)};
    } else {
      assert Deliveries(notifications, {target}) == {};
    }
  }

  lemma {:induction false} DeliveriesSize(notifications: set<Notification>, targets: set<string>)
    ensures |Deliveries(notifications, targets)| == |targets| * |notifications|
  {
    if targets != {} {
      var target := Pick(targets);
      DeliveriesSize(notifications, targets - {target});
      DeliveriesToOne(notifications, target);
      assert Deliveries(notifications, targets) == Deliveries(notifications, targets - {target}) + Deliveries(notifications, {target});
      assert |targets - {target}| == |targets| - 1;
      OneMore(|targets|, |notifications|);
    } else {
      assert Deliveries(notifications, targets) == {};
    }
  }

  function Slots(deliveries: set<Delivery>, limit: nat): set<AttemptId> {
    set d, s | d in deliveries && 1 <= s <= limit :: AttemptId(d, s)
  }

  lemma {:induction false} SlotsSize(deliveries: set<Delivery>, limit: nat)
    ensures |Slots(deliveries, limit)| == |deliveries| * limit
  {
    if deliveries != {} {
      var d := Pick(deliveries);
      SlotsSize(deliveries - {d}, limit);
      SlotsOfOne(d, limit);
      assert Slots(deliveries, limit) == Slots(deliveries - {d}, limit) + Slots({d}, limit);
      assert |deliveries - {d}| == |deliveries| - 1;
      OneMore(|deliveries|, limit);
    } else {
      assert Slots(deliveries, limit) == {};
    }
  }

  lemma OneMore(n: nat, k: nat)
    requires n > 0
    ensures n * k == (n - 1) * k + k
  {
  }

  lemma {:induction false} SlotsOfOne(d: Delivery, limit: nat)
    ensures |Slots({d}, limit)| == limit
  {
    if limit > 0 {
      SlotsOfOne(d, limit - 1);
      assert Slots({d}, limit) == Slots({d}, limit - 1) + {AttemptId(d, limit)};
    } else {
      assert Slots({d}, limit) == {};
    }
  }

  /** A kept store holds at most every delivery once, and each of them at most `limit` times. */
  lemma KeptIsBounded(outboxes: Outboxes, attempts: Attempts, notifications: set<Notification>, limit: nat)
    requires Kept(outboxes, attempts, notifications, limit)
    ensures |outboxes| <= |Targets(outboxes)| * |notifications|
    ensures |attempts| <= |outboxes| * limit
  {
    hide ChainOk, AttemptOk;
    forall d | d in outboxes ensures d in Deliveries(notifications, Targets(outboxes)) {
      assert d == Delivery(d.notification, d.target);
    }
    DeliveriesSize(notifications, Targets(outboxes));
    SmallerSet(outboxes.Keys, Deliveries(notifications, Targets(outboxes)));
    forall id | id in attempts ensures id in Slots(outboxes.Keys, limit) {
      SequenceWithinLimit(attempts, id, limit);
      assert id == AttemptId(id.delivery, id.sequence);
    }
    SlotsSize(outboxes.Keys, limit);
    SmallerSet(attempts.Keys, Slots(outboxes.Keys, limit));
  }

  /**
   While notifications times targets stay within the outbox limit, delivery leaves an acceptable store,
   whatever it records: five attempts for each of seven thousand deliveries are the attempt limit.
   */
  lemma FewTargetsStayAcceptable(outboxes: Outboxes, attempts: Attempts, notifications: set<Notification>, limit: nat)
    requires Kept(outboxes, attempts, notifications, limit) && limit <= 5
    requires |Targets(outboxes)| * |notifications| <= MAX_OUTBOX_RECORDS
    ensures Accepted(outboxes, attempts, notifications)
  {
    hide Accepted, Kept;
    KeptIsBounded(outboxes, attempts, notifications, limit);
    AtMostFive(|outboxes|, limit);
    KeptIsAccepted(outboxes, attempts, notifications, limit);
  }

  /** The outbox records once every notification was given to every target. */
  function EveryOutbox(notifications: set<Notification>, targets: set<string>, now: int): Outboxes {
    map d | d in Deliveries(notifications, targets) :: Outbox(d, now)
  }

  /**
   The bound is exact: once every notification went to every target the store is one that delivery
   leaves behind, and it is accepted if and only if their product is within the limit.
   */
  lemma TargetsTimesNotificationsDecide(notifications: set<Notification>, targets: set<string>, now: int, limit: nat)
    ensures Kept(EveryOutbox(notifications, targets, now), map[], notifications, limit)
    ensures Accepted(EveryOutbox(notifications, targets, now), map[], notifications)
        <==> |targets| * |notifications| <= MAX_OUTBOX_RECORDS
  {
    var all := EveryOutbox(notifications, targets, now);
    DeliveriesSize(notifications, targets);
    assert all.Keys == Deliveries(notifications, targets);
    forall d: Delivery ensures ChainOk(map[], d, limit) {
      assert Contiguous(map[], d, 0);
    }
    KeptIsAccepted(all, map[], notifications, limit);
  }

  /** So a second target is one too many for any inbox that is more than half full. */
  lemma SecondTargetOverflows(notifications: set<Notification>, target: string, second: string, now: int, limit: nat)
    requires target != second && MAX_OUTBOX_RECORDS < 2 * |notifications| && |notifications| <= MAX_OUTBOX_RECORDS
    ensures Accepted(EveryOutbox(notifications, {target}, now), map[], notifications)
    ensures Kept(EveryOutbox(notifications, {target, second}, now), map[], notifications, limit)
    ensures !Accepted(EveryOutbox(notifications, {target, second}, now), map[], notifications)
  {
    hide Accepted, Kept, EveryOutbox;
    assert |{target}| == 1 && |{target, second}| == 2;
    TargetsTimesNotificationsDecide(notifications, {target}, now, limit);
    TargetsTimesNotificationsDecide(notifications, {target, second}, now, limit);
  }

  lemma SequenceWithinLimit(attempts: Attempts, id: AttemptId, limit: nat)
    requires id in attempts && ChainOk(attempts, id.delivery, limit)
    ensures 1 <= id.sequence <= limit
  {
    assert id == AttemptId(id.delivery, id.sequence);
  }

  lemma AtMostFive(n: nat, limit: nat)
    requires n <= MAX_OUTBOX_RECORDS && limit <= 5
    ensures n * limit <= MAX_ATTEMPT_RECORDS
  {
    assert n * limit <= n * 5;
  }

  // ----- one delivery

  /** What reading the body of an error reply comes to; an operating-system error counts as an empty body. */
  datatype Body = IsRead | FailsInTheSystem | BreaksOff

  /**
   What comes back from the network: a reply, an error reply with its text and body, or some other
   exception with its text and class.
   */
  datatype Reply =
    | Responds(status: int)
    | Rejects(status: int, text: string, name: TypeName, body: Body)
    | Breaks(retryable: bool, text: string, name: TypeName)

  predicate RetryableCode(status: int) {
    status == 408 || status == 425 || status == 429 || status >= 500
  }

  function StatusOf(reply: Reply): Status {
    match reply
    case Responds(status) =>
      if 200 <= status < 300 then Succeeded else if RetryableCode(status) then RetryableFailure else PermanentFailure
    case Rejects(status, _, _, _) => if RetryableCode(status) then RetryableFailure else PermanentFailure
    case Breaks(retryable, _, _) => if retryable then RetryableFailure else PermanentFailure
  }

  function HttpOf(reply: Reply): Option<int> {
    match reply
    case Responds(status) => Some(status)
    case Rejects(status, _, _, _) => Some(status)
    case Breaks(_, _, _) => None
  }

  function Digits(n: nat): (r: string)
    ensures r != "" && forall i | 0 <= i < |r| :: !IsControl(r[i])
    ensures (n < 10 ==> |r| <= 1) && (n < 100 ==> |r| <= 2) && (n < 1000 ==> |r| <= 3)
  {
    (if n < 10 then "" else Digits(n / 10)) + [(48 + n % 10) as char]
  }

  function Decimal(n: int): string {
    if n < 0 then "-" + Digits(-n) else Digits(n)
  }

  function ErrorOf(reply: Reply): Option<string> {
    match reply
    case Responds(status) => if 200 <= status < 300 then None else Some("Webhook returned HTTP " + Decimal(status))
    case Rejects(_, text, name, _) => Some(SafeError(text, name))
    case Breaks(_, text, name) => Some(SafeError(text, name))
  }

  function AttemptFor(d: Delivery, sequence: nat, reply: Reply): Attempt {
    Attempt(AttemptId(d, sequence), StatusOf(reply), HttpOf(reply), ErrorOf(reply))
  }

  /** The program gets as far as writing the attempt: the body was read, and the record passes its own check. */
  predicate Recordable(d: Delivery, sequence: nat, reply: Reply) {
    !(reply.Rejects? && reply.body.BreaksOff?) && AttemptOk(AttemptFor(d, sequence, reply))
  }

  /**
   Which replies can be recorded, exactly: the status, if there is one, lies in 100..599; what is kept
   of an error text has no control character but line breaks; and the body of an error reply does not
   break off.
   */
  lemma RecordableReplies(d: Delivery, sequence: nat, reply: Reply)
    requires 1 <= sequence <= 999
    ensures Recordable(d, sequence, reply) <==>
      match reply
      case Responds(status) => 100 <= status <= 599
      case Rejects(status, text, _, body) => 100 <= status <= 599 && PlainText(text) && !body.BreaksOff?
      case Breaks(_, text, _) => PlainText(text)
  {
    hide SafeError, BoundedText, PlainText, Decimal;
    match reply
    case Responds(status) =>
      if 100 <= status <= 599 {
        StatusTextIsBounded(status);
      }
    case Rejects(_, text, name, _) => SafeErrorIsBounded(text, name);
    case Breaks(_, text, name) => SafeErrorIsBounded(text, name);
  }

  lemma StatusTextIsBounded(status: int)
    requires 0 <= status < 1000
    ensures BoundedText("Webhook returned HTTP " + Decimal(status), MAX_ERROR_TEXT)
  {
  }

  /** How a call on one notification ended: finished, or raised (which also stands for a crash). */
  datatype Ending = Finished | Raised

  /** What one call does to the attempts of a delivery, how many requests it sends, and how it ends. */
  datatype CallResult = CallResult(attempts: Attempts, posts: nat, ending: Ending)

  /** The retry loop, from the attempt after the n recorded ones. */
  function Retried(attempts: Attempts, d: Delivery, n: nat, limit: nat, replies: nat -> Reply, writes: nat -> bool): CallResult
    decreases limit - n
  {
    if n >= limit then CallResult(attempts, 0, Finished)
    else if !Recordable(d, n + 1, replies(n + 1)) || !writes(n + 1) then CallResult(attempts, 1, Raised)
    else
      var a := AttemptFor(d, n + 1, replies(n + 1));
      var after := attempts[a.id := a];
      if !a.status.RetryableFailure? then CallResult(after, 1, Finished)
      else
        var rest := Retried(after, d, n + 1, limit, replies, writes);
        CallResult(rest.attempts, rest.posts + 1, rest.ending)
  }

  lemma RetriedOnce(attempts: Attempts, d: Delivery, n: nat, limit: nat, replies: nat -> Reply, writes: nat -> bool, posts: nat)
    requires n < limit
    ensures var after := attempts[AttemptId(d, n + 1) := AttemptFor(d, n + 1, replies(n + 1))];
            Plus(Retried(attempts, d, n, limit, replies, writes), posts)
            == if !Recordable(d, n + 1, replies(n + 1)) || !writes(n + 1) then CallResult(attempts, posts + 1, Raised)
               else if !AttemptFor(d, n + 1, replies(n + 1)).status.RetryableFailure? then CallResult(after, posts + 1, Finished)
               else Plus(Retried(after, d, n + 1, limit, replies, writes), posts + 1)
  {
    hide Recordable, AttemptFor;
    AttemptForIsNumbered(d, n + 1, replies(n + 1));
  }

  lemma RetriedUp(attempts: Attempts, d: Delivery, limit: nat, replies: nat -> Reply, writes: nat -> bool, posts: nat)
    ensures Plus(Retried(attempts, d, limit, limit, replies, writes), posts) == CallResult(attempts, posts, Finished)
  {
  }

  /** One call on a delivery with n recorded attempts. */
  function Called(attempts: Attempts, d: Delivery, n: nat, limit: nat, replies: nat -> Reply, writes: nat -> bool): CallResult {
    if AttemptId(d, n) in attempts && !attempts[AttemptId(d, n)].status.RetryableFailure? then CallResult(attempts, 0, Finished)
    else Retried(attempts, d, n, limit, replies, writes)
  }

  /** The clock, the replies, and the fates of the writes of one call; write 0 is that of the outbox record. */
  datatype Call = Call(now: int, replies: nat -> Reply, writes: nat -> bool)

  function WithOutbox(outboxes: Outboxes, d: Delivery, now: int, writable: bool): Outboxes {
    if d !in outboxes && writable then outboxes[d := Outbox(d, now)] else outboxes
  }

  lemma OutboxIsThere(outboxes: Outboxes, d: Delivery, now: int, writable: bool)
    ensures d in WithOutbox(outboxes, d, now, writable) <==> d in outboxes || writable
  {
  }

  /** What one call, or several, make of the store. */
  datatype Visit = Visit(outboxes: Outboxes, attempts: Attempts, posts: nat, ending: Ending)

  function After(v: Visit, posts: nat): Visit {
    v.(posts := v.posts + posts)
  }

  /** `_deliver_one` on the whole store. */
  ghost function Visited(outboxes: Outboxes, attempts: Attempts, d: Delivery, limit: nat, call: Call): Visit {
    var ready := WithOutbox(outboxes, d, call.now, call.writes(0));
    if d !in ready || |attempts| > MAX_ATTEMPT_RECORDS || !exists n: nat :: Contiguous(attempts, d, n)
    then Visit(ready, attempts, 0, Raised)
    else
      var r := Called(attempts, d, LengthOf(attempts, d), limit, call.replies, call.writes);
      Visit(ready, r.attempts, r.posts, r.ending)
  }

  function AllTo(candidates: seq<Notification>, target: string): (r: seq<Delivery>)
    ensures |r| == |candidates| && forall i | 0 <= i < |r| :: r[i] == Delivery(candidates[i], target)
  {
    seq(|candidates|, i requires 0 <= i < |candidates| => Delivery(candidates[i], target))
  }

  /** The loop over a batch, from the i-th delivery: it stops at the first call that raises. */
  ghost function BatchFrom(outboxes: Outboxes, attempts: Attempts, deliveries: seq<Delivery>, i: nat, limit: nat, calls: nat -> Call): Visit
    requires i <= |deliveries|
    decreases |deliveries| - i
  {
    if i == |deliveries| then Visit(outboxes, attempts, 0, Finished) else
      var v := Visited(outboxes, attempts, deliveries[i], limit, calls(i));
      if v.ending.Raised? then v
      else After(BatchFrom(v.outboxes, v.attempts, deliveries, i + 1, limit, calls), v.posts)
  }

  function Plus(r: CallResult, posts: nat): CallResult {
    CallResult(r.attempts, r.posts + posts, r.ending)
  }

  lemma NextAttemptKeeps(outboxes: Outboxes, attempts: Attempts, notifications: set<Notification>, limit: nat, n: nat, a: Attempt)
    requires Kept(outboxes, attempts, notifications, limit) && n < limit && a.id.sequence == n + 1
    requires a.id.delivery in outboxes && AttemptOk(a) && Contiguous(attempts, a.id.delivery, n)
    requires forall s: nat | 1 <= s <= n :: attempts[AttemptId(a.id.delivery, s)].status.RetryableFailure?
    ensures Kept(outboxes, attempts[a.id := a], notifications, limit)
    ensures Contiguous(attempts[a.id := a], a.id.delivery, n + 1)
  {
    hide AttemptOk;
    var after := attempts[a.id := a];
    var own := a.id.delivery;
    assert a.id == AttemptId(own, n + 1);
    forall d: Delivery ensures ChainOk(after, d, limit) {
      assert ChainOk(attempts, d, limit);
      if d == own {
        assert Contiguous(after, d, n + 1);
        forall s: nat | 1 <= s < n + 1 ensures after[AttemptId(d, s)].status.RetryableFailure? {
          assert after[AttemptId(d, s)] == attempts[AttemptId(d, s)];
        }
      } else {
        OtherChain(attempts, after, d, limit);
      }
    }
  }

  lemma OtherChain(attempts: Attempts, after: Attempts, d: Delivery, limit: nat)
    requires ChainOk(attempts, d, limit)
    requires forall s: nat :: AttemptId(d, s) in attempts <==> AttemptId(d, s) in after
    requires forall s: nat | AttemptId(d, s) in attempts :: after[AttemptId(d, s)] == attempts[AttemptId(d, s)]
    ensures ChainOk(after, d, limit)
  {
    var n: nat :| n <= limit && Contiguous(attempts, d, n)
      && forall s: nat | 1 <= s < n :: attempts[AttemptId(d, s)].status.RetryableFailure?;
    assert Contiguous(after, d, n);
    forall s: nat | 1 <= s < n ensures after[AttemptId(d, s)].status.RetryableFailure? {
      assert AttemptId(d, s) in attempts;
    }
  }

  lemma NewOutboxKeeps(outboxes: Outboxes, attempts: Attempts, notifications: set<Notification>, limit: nat, record: Outbox)
    requires Kept(outboxes, attempts, notifications, limit) && record.delivery.notification in notifications
    ensures Kept(outboxes[record.delivery := record], attempts, notifications, limit)
  {
    hide ChainOk, AttemptOk;
  }

  class WebhookStore {
    var outboxes: Outboxes
    var attempts: Attempts
    /** Requests sent so far, whether or not they were recorded. */
    var posts: nat
    const maxAttempts: nat
    ghost const notifications: set<Notification>

    ghost predicate Valid()
      reads this
    {
      1 <= maxAttempts <= 5 && Kept(outboxes, attempts, notifications, maxAttempts)
    }

    constructor (maxAttempts: nat, ghost notifications: set<Notification>)
      requires 1 <= maxAttempts <= 5
      ensures Valid() && outboxes == map[] && attempts == map[] && this.notifications == notifications
    {
      this.maxAttempts := maxAttempts;
      this.notifications := notifications;
      outboxes, attempts, posts := map[], map[], 0;
      new;
      forall d: Delivery ensures ChainOk(map[], d, maxAttempts) {
        assert Contiguous(map[], d, 0);
      }
    }

    /** `_ensure_outbox` */
    method EnsureOutbox(d: Delivery, now: int, writable: bool) returns (ready: bool)
      requires Valid() && d.notification in notifications
      modifies this`outboxes
      ensures Valid() && old(outboxes.Items) <= outboxes.Items
      ensures ready == (d in outboxes) == (d in old(outboxes) || writable)
      ensures outboxes == WithOutbox(old(outboxes), d, now, writable)
    {
      hide Kept;
      ready := d in outboxes || writable;
      if d !in outboxes && writable {
        NewOutboxKeeps(outboxes, attempts, notifications, maxAttempts, Outbox(d, now));
        outboxes := outboxes[d := Outbox(d, now)];
      }
    }

    /** One request, and its record unless the reply cannot be recorded, the write fails or the process dies. */
    method TryOnce(d: Delivery, sequence: nat, reply: Reply, writable: bool) returns (recorded: bool)
      requires Valid() && d in outboxes && 1 <= sequence <= maxAttempts && Contiguous(attempts, d, sequence - 1)
      requires forall s: nat | 1 <= s <= sequence - 1 :: AttemptId(d, s) in attempts && attempts[AttemptId(d, s)].status.RetryableFailure?
      modifies this`attempts, this`posts
      ensures Valid() && posts == old(posts) + 1
      ensures recorded <==> Recordable(d, sequence, reply) && writable
      ensures recorded ==> AttemptId(d, sequence) !in old(attempts) && Contiguous(attempts, d, sequence)
      ensures recorded ==> attempts == old(attempts)[AttemptId(d, sequence) := AttemptFor(d, sequence, reply)]
      ensures !recorded ==> attempts == old(attempts)
    {
      hide AttemptOk, Kept, Contiguous, StatusOf, HttpOf, ErrorOf;
      posts := posts + 1;
      var a := AttemptFor(d, sequence, reply);
      recorded := Recordable(d, sequence, reply) && writable;
      if recorded {
        Unused(attempts, d, sequence);
        NextAttemptKeeps(outboxes, attempts, notifications, maxAttempts, sequence - 1, a);
        attempts := attempts[a.id := a];
      }
    }

    /** The retry loop, from the attempt after the n recorded ones. */
    method KeepTrying(d: Delivery, n: nat, replies: nat -> Reply, writes: nat -> bool) returns (ending: Ending)
      requires Valid() && d in outboxes && n <= maxAttempts && Contiguous(attempts, d, n)
      requires forall s: nat | 1 <= s <= n :: AttemptId(d, s) in attempts && attempts[AttemptId(d, s)].status.RetryableFailure?
      modifies this`attempts, this`posts
      ensures Valid() && old(attempts.Items) <= attempts.Items
      ensures CallResult(attempts, posts, ending) == Plus(Retried(old(attempts), d, n, maxAttempts, replies, writes), old(posts))
      ensures forall id | id in attempts && id !in old(attempts) :: id.delivery == d
      ensures posts <= old(posts) + maxAttempts - n
      ensures ending.Finished? ==> Closed(attempts, d, maxAttempts)
    {
      hide AttemptOk, Kept, ChainOk, Closed, Contiguous, AttemptFor, Recordable, Retried, Plus;
      var sequence := n + 1;
      while sequence <= maxAttempts
        invariant n + 1 <= sequence <= maxAttempts + 1 && posts == old(posts) + (sequence - 1 - n)
        invariant Valid() && d in outboxes && old(attempts.Items) <= attempts.Items
        invariant forall id | id in attempts && id !in old(attempts) :: id.delivery == d
        invariant Plus(Retried(attempts, d, sequence - 1, maxAttempts, replies, writes), posts)
               == Plus(Retried(old(attempts), d, n, maxAttempts, replies, writes), old(posts))
        invariant Contiguous(attempts, d, sequence - 1)
        invariant forall s: nat | 1 <= s <= sequence - 1 :: AttemptId(d, s) in attempts && attempts[AttemptId(d, s)].status.RetryableFailure?
      {
        RetriedOnce(attempts, d, sequence - 1, maxAttempts, replies, writes, posts);
        var recorded := TryOnce(d, sequence, replies(sequence), writes(sequence));
        if !recorded {
          return Raised;
        }
        if !attempts[AttemptId(d, sequence)].status.RetryableFailure? {
          SettledIsClosed(attempts, d, maxAttempts, sequence);
          return Finished;
        }
        sequence := sequence + 1;
      }
      UsedUpIsClosed(attempts, d, maxAttempts);
      RetriedUp(attempts, d, maxAttempts, replies, writes, posts);
      ending := Finished;
    }

    /**
     `_deliver_one`: earlier records are never changed, at most one chain grows, and nothing is sent for
     a delivery that has already succeeded, failed for good, or used up its attempts.
     */
    method DeliverOne(notification: Notification, target: string, call: Call) returns (ending: Ending)
      requires Valid() && notification in notifications
      modifies this
      ensures Valid()
      ensures old(attempts.Items) <= attempts.Items && old(outboxes.Items) <= outboxes.Items
      ensures forall id | id in attempts && id !in old(attempts) :: id.delivery == Delivery(notification, target)
      ensures Visit(outboxes, attempts, posts, ending)
           == After(Visited(old(outboxes), old(attempts), Delivery(notification, target), maxAttempts, call), old(posts))
      ensures Closed(old(attempts), Delivery(notification, target), maxAttempts) ==> posts == old(posts) && attempts == old(attempts)
      ensures ending.Finished? ==> Closed(attempts, Delivery(notification, target), maxAttempts)
      ensures posts <= old(posts) + maxAttempts
    {
      hide AttemptOk, Kept, ChainOk, Closed, Contiguous, AttemptFor, Recordable, WithOutbox;
      var d := Delivery(notification, target);
      OutboxIsThere(outboxes, d, call.now, call.writes(0));
      var ready := EnsureOutbox(d, call.now, call.writes(0));
      if !ready || |attempts| > MAX_ATTEMPT_RECORDS {
        return Raised;
      }
      var n := CountAttempts(attempts, d);
      CountIsLength(outboxes, attempts, notifications, maxAttempts, d, n);
      OnlyOneLength(attempts, d, n);
      NothingNumberedZero(attempts, d, n);
      if n > 0 && !attempts[AttemptId(d, n)].status.RetryableFailure? {
        SettledIsClosed(attempts, d, maxAttempts, n);
        return Finished;
      }
      OpenIsNotClosed(attempts, d, maxAttempts, n);
      ending := KeepTrying(d, n, call.replies, call.writes);
    }

    /** A batch stops at the first delivery that raises; every prefix leaves the store in order. */
    method DeliverAll(candidates: seq<Notification>, target: string, calls: nat -> Call) returns (ending: Ending)
      requires Valid() && forall i | 0 <= i < |candidates| :: candidates[i] in notifications
      modifies this
      ensures Valid()
      ensures old(attempts.Items) <= attempts.Items && old(outboxes.Items) <= outboxes.Items
      ensures Visit(outboxes, attempts, posts, ending)
           == After(BatchFrom(old(outboxes), old(attempts), AllTo(candidates, target), 0, maxAttempts, calls), old(posts))
    {
      hide Kept, Closed, Visited;
      ghost var deliveries := AllTo(candidates, target);
      for i := 0 to |candidates|
        invariant Valid() && old(attempts.Items) <= attempts.Items && old(outboxes.Items) <= outboxes.Items
        invariant After(BatchFrom(outboxes, attempts, deliveries, i, maxAttempts, calls), posts)
               == After(BatchFrom(old(outboxes), old(attempts), deliveries, 0, maxAttempts, calls), old(posts))
      {
        ending := DeliverOne(candidates[i], target, calls(i));
        if ending.Raised? { return; }
      }
      ending := Finished;
    }
  }

  /** Nothing more will be sent: the last attempt settled the delivery, or the attempts are used up. */
  ghost predicate Closed(attempts: Attempts, d: Delivery, limit: nat) {
    exists n: nat :: Contiguous(attempts, d, n) && (n >= limit || (n > 0 && !attempts[AttemptId(d, n)].status.RetryableFailure?))
  }

  lemma CountIsLength(outboxes: Outboxes, attempts: Attempts, notifications: set<Notification>, limit: nat, d: Delivery, n: nat)
    requires Kept(outboxes, attempts, notifications, limit)
    requires (forall s: nat | 1 <= s <= n :: AttemptId(d, s) in attempts) && AttemptId(d, n + 1) !in attempts
    ensures n <= limit && Contiguous(attempts, d, n)
    ensures forall s: nat | 1 <= s < n :: attempts[AttemptId(d, s)].status.RetryableFailure?
  {
    assert ChainOk(attempts, d, limit);
    var m: nat :| m <= limit && Contiguous(attempts, d, m)
      && forall s: nat | 1 <= s < m :: attempts[AttemptId(d, s)].status.RetryableFailure?;
    assert m > 0 ==> AttemptId(d, m) in attempts;
    assert n > 0 ==> AttemptId(d, n) in attempts;
    assert AttemptId(d, m + 1) !in attempts;
  }

  lemma SettledIsClosed(attempts: Attempts, d: Delivery, limit: nat, n: nat)
    requires n > 0 && Contiguous(attempts, d, n) && AttemptId(d, n) in attempts && !attempts[AttemptId(d, n)].status.RetryableFailure?
    ensures Closed(attempts, d, limit)
  {
  }

  lemma UsedUpIsClosed(attempts: Attempts, d: Delivery, limit: nat)
    requires Contiguous(attempts, d, limit)
    ensures Closed(attempts, d, limit)
  {
  }

  lemma Unused(attempts: Attempts, d: Delivery, sequence: nat)
    requires sequence > 0 && Contiguous(attempts, d, sequence - 1)
    ensures AttemptId(d, sequence) !in attempts
  {
  }

  lemma OpenIsNotClosed(attempts: Attempts, d: Delivery, limit: nat, n: nat)
    requires Contiguous(attempts, d, n) && (n > 0 ==> AttemptId(d, n) in attempts && attempts[AttemptId(d, n)].status.RetryableFailure?)
    ensures n < limit ==> !Closed(attempts, d, limit)
  {
    OnlyOneLength(attempts, d, n);
  }

  lemma NothingNumberedZero(attempts: Attempts, d: Delivery, n: nat)
    requires Contiguous(attempts, d, n)
    ensures AttemptId(d, n) in attempts <==> n > 0
  {
  }

  // ----- deliveries that never settle

  ghost function LengthOf(attempts: Attempts, d: Delivery): (n: nat)
    requires exists n: nat :: Contiguous(attempts, d, n)
    ensures Contiguous(attempts, d, n)
  {
    var n: nat :| Contiguous(attempts, d, n);
    n
  }

  /** An open delivery moves on exactly when the reply to its next attempt can be recorded and is written. */
  lemma CallMovesOn(attempts: Attempts, d: Delivery, n: nat, limit: nat, call: Call)
    requires Contiguous(attempts, d, n) && !Closed(attempts, d, limit)
    ensures var after := Called(attempts, d, n, limit, call.replies, call.writes);
            if Recordable(d, n + 1, call.replies(n + 1)) && call.writes(n + 1)
            then AttemptId(d, n + 1) in after.attempts && after.posts > 0
            else after == CallResult(attempts, 1, Raised)
  {
    hide Recordable, AttemptFor;
    NothingNumberedZero(attempts, d, n);
    if Recordable(d, n + 1, call.replies(n + 1)) && call.writes(n + 1) {
      var a := AttemptFor(d, n + 1, call.replies(n + 1));
      AttemptForIsNumbered(d, n + 1, call.replies(n + 1));
      RetriedKeeps(attempts[a.id := a], d, n + 1, limit, call, AttemptId(d, n + 1));
    }
  }

  lemma AttemptForIsNumbered(d: Delivery, sequence: nat, reply: Reply)
    ensures AttemptFor(d, sequence, reply).id == AttemptId(d, sequence)
  {
  }

  lemma {:induction false} RetriedKeeps(attempts: Attempts, d: Delivery, n: nat, limit: nat, call: Call, id: AttemptId)
    requires id in attempts
    ensures id in Retried(attempts, d, n, limit, call.replies, call.writes).attempts
    decreases limit - n
  {
    hide Recordable;
    if n < limit {
      var a := AttemptFor(d, n + 1, call.replies(n + 1));
      RetriedKeeps(attempts[a.id := a], d, n + 1, limit, call, id);
    }
  }

  /** What a sequence of calls on one delivery makes of the store. */
  ghost function AfterCalls(outboxes: Outboxes, attempts: Attempts, d: Delivery, limit: nat, calls: seq<Call>): Visit {
    if calls == [] then Visit(outboxes, attempts, 0, Finished) else
      var before := AfterCalls(outboxes, attempts, d, limit, calls[..|calls| - 1]);
      After(Visited(before.outboxes, before.attempts, d, limit, calls[|calls| - 1]), before.posts)
  }

  /** The delivery has not settled, and attempts are left. */
  ghost predicate Unsettled(attempts: Attempts, d: Delivery, limit: nat) {
    ChainOk(attempts, d, limit) && !Closed(attempts, d, limit)
  }

  /** No reply of the call to this delivery can be recorded. */
  ghost predicate Unrecordable(d: Delivery, limit: nat, call: Call) {
    forall s: nat | 1 <= s <= limit :: !Recordable(d, s, call.replies(s))
  }

  lemma StuckVisit(outboxes: Outboxes, attempts: Attempts, d: Delivery, limit: nat, call: Call)
    requires Unsettled(attempts, d, limit) && Unrecordable(d, limit, call)
    ensures var v := Visited(outboxes, attempts, d, limit, call);
            && v.ending.Raised? && v.attempts == attempts && v.outboxes == WithOutbox(outboxes, d, call.now, call.writes(0))
            && v.posts == if d in v.outboxes && |attempts| <= MAX_ATTEMPT_RECORDS then 1 else 0
  {
    hide Recordable, Called, WithOutbox;
    var n := LengthOf(attempts, d);
    UnsettledHasRoom(attempts, d, limit, n);
    CallMovesOn(attempts, d, n, limit, call);
  }

  lemma UnsettledHasRoom(attempts: Attempts, d: Delivery, limit: nat, n: nat)
    requires Unsettled(attempts, d, limit) && Contiguous(attempts, d, n)
    ensures n < limit
  {
    OnlyOneLength(attempts, d, n);
  }

  /**
   A delivery whose replies can never be recorded is sent again by every call, for ever: nothing is
   recorded, the limit on attempts never applies, and every call sends one more request.
   */
  lemma {:induction false} UnrecordableRepliesAreSentForever(outboxes: Outboxes, attempts: Attempts, d: Delivery, limit: nat, calls: seq<Call>)
    requires Unsettled(attempts, d, limit) && d in outboxes && |attempts| <= MAX_ATTEMPT_RECORDS
    requires forall i | 0 <= i < |calls| :: Unrecordable(d, limit, calls[i])
    ensures var after := AfterCalls(outboxes, attempts, d, limit, calls);
            after.outboxes == outboxes && after.attempts == attempts && after.posts == |calls|
  {
    hide Unsettled, Unrecordable, Visited;
    if calls != [] {
      UnrecordableRepliesAreSentForever(outboxes, attempts, d, limit, calls[..|calls| - 1]);
      StuckVisit(outboxes, attempts, d, limit, calls[|calls| - 1]);
    }
  }

  // ----- and what becomes of the deliveries behind it

  /** The records of a delivery are the same in both stores. */
  ghost predicate SameFor(e: Delivery, outboxes: Outboxes, attempts: Attempts, v: Visit) {
    && (e in outboxes <==> e in v.outboxes) && (e in outboxes ==> v.outboxes[e] == outboxes[e])
    && forall s: nat :: (AttemptId(e, s) in attempts <==> AttemptId(e, s) in v.attempts)
                        && (AttemptId(e, s) in attempts ==> v.attempts[AttemptId(e, s)] == attempts[AttemptId(e, s)])
  }

  lemma {:induction false} RetriedTouchesOne(attempts: Attempts, d: Delivery, n: nat, limit: nat, call: Call, id: AttemptId)
    requires id.delivery != d
    ensures var after := Retried(attempts, d, n, limit, call.replies, call.writes).attempts;
            (id in after <==> id in attempts) && (id in attempts ==> after[id] == attempts[id])
    decreases limit - n
  {
    hide Recordable, AttemptFor;
    if n < limit {
      var a := AttemptFor(d, n + 1, call.replies(n + 1));
      AttemptForIsNumbered(d, n + 1, call.replies(n + 1));
      RetriedTouchesOne(attempts[a.id := a], d, n + 1, limit, call, id);
    }
  }

  lemma VisitTouchesOne(outboxes: Outboxes, attempts: Attempts, d: Delivery, limit: nat, call: Call, e: Delivery)
    requires e != d
    ensures SameFor(e, outboxes, attempts, Visited(outboxes, attempts, d, limit, call))
  {
    hide Retried, Contiguous;
    if exists n: nat :: Contiguous(attempts, d, n) {
      forall s: nat {
        RetriedTouchesOne(attempts, d, LengthOf(attempts, d), limit, call, AttemptId(e, s));
      }
    }
  }

  lemma SameForChains(e: Delivery, outboxes: Outboxes, attempts: Attempts, v: Visit, w: Visit)
    requires SameFor(e, outboxes, attempts, v) && SameFor(e, v.outboxes, v.attempts, w)
    ensures SameFor(e, outboxes, attempts, w)
  {
  }

  lemma SameForKeepsUnsettled(e: Delivery, outboxes: Outboxes, attempts: Attempts, v: Visit, limit: nat)
    requires SameFor(e, outboxes, attempts, v) && Unsettled(attempts, e, limit)
    ensures Unsettled(v.attempts, e, limit)
  {
    OtherChain(attempts, v.attempts, e, limit);
    forall n: nat ensures Contiguous(v.attempts, e, n) <==> Contiguous(attempts, e, n) {
    }
  }

  /** A batch never gets past an unsettled delivery whose replies cannot be recorded. */
  lemma {:induction false} BlockedBatch(
      outboxes: Outboxes, attempts: Attempts, deliveries: seq<Delivery>, i: nat, b: nat, limit: nat, calls: nat -> Call, e: Delivery)
    requires i <= b < |deliveries| && Unsettled(attempts, deliveries[b], limit) && Unrecordable(deliveries[b], limit, calls(b))
    requires deliveries[b] !in deliveries[i..b] && e !in deliveries[i..b + 1]
    ensures var v := BatchFrom(outboxes, attempts, deliveries, i, limit, calls);
            v.ending.Raised? && SameFor(e, outboxes, attempts, v) && Unsettled(v.attempts, deliveries[b], limit)
    decreases b - i
  {
    hide Unsettled, Unrecordable, Visited, SameFor;
    var v := Visited(outboxes, attempts, deliveries[i], limit, calls(i));
    assert deliveries[i] in deliveries[i..b + 1];
    VisitTouchesOne(outboxes, attempts, deliveries[i], limit, calls(i), e);
    if i == b {
      StuckVisit(outboxes, attempts, deliveries[b], limit, calls(b));
    } else {
      assert deliveries[i] in deliveries[i..b];
      VisitTouchesOne(outboxes, attempts, deliveries[i], limit, calls(i), deliveries[b]);
      SameForKeepsUnsettled(deliveries[b], outboxes, attempts, v, limit);
      if v.ending.Finished? {
        assert deliveries[i..b] == [deliveries[i]] + deliveries[i + 1..b];
        assert deliveries[i..b + 1] == [deliveries[i]] + deliveries[i + 1..b + 1];
        BlockedBatch(v.outboxes, v.attempts, deliveries, i + 1, b, limit, calls, e);
        var w := BatchFrom(v.outboxes, v.attempts, deliveries, i + 1, limit, calls);
        SameForChains(e, outboxes, attempts, v, w);
        PostsDoNotMatter(e, outboxes, attempts, w, v.posts);
      }
    }
  }

  lemma PostsDoNotMatter(e: Delivery, outboxes: Outboxes, attempts: Attempts, v: Visit, posts: nat)
    requires SameFor(e, outboxes, attempts, v)
    ensures SameFor(e, outboxes, attempts, After(v, posts)) && After(v, posts).attempts == v.attempts && After(v, posts).ending == v.ending
  {
  }

  /** One batch: its deliveries in order, and what each call meets. */
  datatype Round = Round(deliveries: seq<Delivery>, calls: nat -> Call)

  ghost function AfterRounds(outboxes: Outboxes, attempts: Attempts, limit: nat, rounds: seq<Round>): Visit {
    if rounds == [] then Visit(outboxes, attempts, 0, Finished) else
      var before := AfterRounds(outboxes, attempts, limit, rounds[..|rounds| - 1]);
      var last := rounds[|rounds| - 1];
      After(BatchFrom(before.outboxes, before.attempts, last.deliveries, 0, limit, last.calls), before.posts)
  }

  /** In this batch the blocker comes before the other delivery, and its replies cannot be recorded. */
  ghost predicate BlockedBy(round: Round, blocker: Delivery, limit: nat, e: Delivery) {
    exists b: nat :: b < |round.deliveries| && round.deliveries[b] == blocker && blocker !in round.deliveries[..b]
      && e !in round.deliveries[..b + 1] && Unrecordable(blocker, limit, round.calls(b))
  }

  /**
   One unrecordable reply starves everything behind it: over any number of batches in which an unsettled
   delivery with such replies comes first, nothing is ever written for a later delivery, and the blocker
   itself never settles.
   */
  lemma {:induction false} OneReplyStarvesTheRest(
      outboxes: Outboxes, attempts: Attempts, limit: nat, rounds: seq<Round>, blocker: Delivery, e: Delivery)
    requires Unsettled(attempts, blocker, limit) && forall i | 0 <= i < |rounds| :: BlockedBy(rounds[i], blocker, limit, e)
    ensures var after := AfterRounds(outboxes, attempts, limit, rounds);
            SameFor(e, outboxes, attempts, after) && Unsettled(after.attempts, blocker, limit)
    ensures rounds != [] ==> AfterRounds(outboxes, attempts, limit, rounds).ending.Raised?
  {
    hide Unsettled, Unrecordable, BatchFrom, SameFor;
    if rounds == [] {
      SameForItself(e, outboxes, attempts);
    } else {
      var n := |rounds| - 1;
      OneReplyStarvesTheRest(outboxes, attempts, limit, rounds[..n], blocker, e);
      var before, last := AfterRounds(outboxes, attempts, limit, rounds[..n]), rounds[n];
      var b: nat :| b < |last.deliveries| && last.deliveries[b] == blocker && blocker !in last.deliveries[..b]
        && e !in last.deliveries[..b + 1] && Unrecordable(blocker, limit, last.calls(b));
      assert last.deliveries[0..b] == last.deliveries[..b] && last.deliveries[0..b + 1] == last.deliveries[..b + 1];
      BlockedBatch(before.outboxes, before.attempts, last.deliveries, 0, b, limit, last.calls, e);
      var batch := BatchFrom(before.outboxes, before.attempts, last.deliveries, 0, limit, last.calls);
      SameForChains(e, outboxes, attempts, before, batch);
      PostsDoNotMatter(e, outboxes, attempts, batch, before.posts);
    }
  }

  lemma SameForItself(e: Delivery, outboxes: Outboxes, attempts: Attempts)
    ensures SameFor(e, outboxes, attempts, Visit(outboxes, attempts, 0, Finished))
  {
  }

  /** An error reply with a tab in its reason phrase is one that cannot be recorded, whatever its status. */
  lemma TabbedReasonIsUnrecordable(d: Delivery, sequence: nat, status: int, body: Body)
    requires 1 <= sequence <= 999
    ensures !Recordable(d, sequence, Rejects(status, "HTTP Error 500: a\tb", "HTTPError", body))
  {
    var text := "HTTP Error 500: a\tb";
    assert Strip(text) == text;
    assert IsControl(text[17]);
    RecordableReplies(d, sequence, Rejects(status, text, "HTTPError", body));
  }

  // ----- `str.strip`

  ghost predicate AllSpace(s: string) {
    forall i | 0 <= i < |s| :: IsSpace(s[i])
  }

  /** Stripping takes away spaces at both ends, and all of them. */
  lemma StripExactly(text: string) returns (before: string, behind: string)
    ensures text == before + Strip(text) + behind && AllSpace(before) && AllSpace(behind)
    ensures Strip(text) != "" ==> !IsSpace(Strip(text)[0]) && !IsSpace(Strip(text)[|Strip(text)| - 1])
  {
    hide IsSpace;
    before := LeftSpaces(text);
    behind := RightSpaces(StripLeft(text));
    assert text == before + (Strip(text) + behind);
  }

  lemma {:induction false} LeftSpaces(s: string) returns (spaces: string)
    ensures s == spaces + StripLeft(s) && AllSpace(spaces)
    ensures StripLeft(s) != "" ==> !IsSpace(StripLeft(s)[0])
  {
    hide IsSpace;
    if s != "" && IsSpace(s[0]) {
      var rest := LeftSpaces(s[1..]);
      spaces := [s[0]] + rest;
      assert s == [s[0]] + s[1..];
    } else {
      spaces := "";
    }
  }

  lemma {:induction false} RightSpaces(s: string) returns (spaces: string)
    ensures s == StripRight(s) + spaces && AllSpace(spaces)
    ensures StripRight(s) != "" ==> !IsSpace(StripRight(s)[|StripRight(s)| - 1]) && StripRight(s)[0] == s[0]
  {
    hide IsSpace;
    if s != "" && IsSpace(s[|s| - 1]) {
      var rest := RightSpaces(s[..|s| - 1]);
      spaces := rest + [s[|s| - 1]];
      assert s == s[..|s| - 1] + [s[|s| - 1]];
    } else {
      spaces := "";
    }
  }
}
