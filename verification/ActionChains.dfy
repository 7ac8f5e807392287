/** Action histories: the records of one subject, in one directory, form a numbered, linked chain. */
module ActionChains {
  import opened Common
  import opened MonitoringConfig
  import opened MonitoringRecords

  type Actions = map<nat, Action>

  /** The files of one subject. */
  function Related(actions: Actions, subject: Subject): set<Action> {
    set k | k in actions && actions[k].subject == subject :: actions[k]
  }

  /** The records, each once, in the order of their sequence numbers 1, 2, ... */
  ghost predicate Numbered(records: set<Action>, chain: seq<Action>) {
    && |chain| == |records|
    && forall i | 0 <= i < |chain| :: chain[i] in records && chain[i].sequence == i + 1
  }

  function StatusAfter(initial: Status, chain: seq<Action>): Status {
    if chain == [] then initial else chain[|chain| - 1].to
  }

  /** Each action is lawful, bound to the subject, and starts where the one before it ended. */
  ghost predicate Linked(initial: Status, binding: SubjectFingerprint, chain: seq<Action>) {
    forall i | 0 <= i < |chain| ::
      && Lawful(chain[i])
      && chain[i].binding == binding
      && chain[i].from == StatusAfter(initial, chain[..i])
  }

  /** `_validated_action_chain` accepts the files of the subject. */
  ghost predicate ChainValid(actions: Actions, subject: Subject, initial: Status, binding: SubjectFingerprint) {
    exists chain :: Numbered(Related(actions, subject), chain) && Linked(initial, binding, chain)
  }

  ghost function ChainOf(actions: Actions, subject: Subject, initial: Status, binding: SubjectFingerprint): (chain: seq<Action>)
    requires ChainValid(actions, subject, initial, binding)
    ensures Numbered(Related(actions, subject), chain) && Linked(initial, binding, chain)
  {
    var chain :| Numbered(Related(actions, subject), chain) && Linked(initial, binding, chain);
    chain
  }

  lemma {:induction false} NumberedCovers(records: set<Action>, chain: seq<Action>)
    requires Numbered(records, chain)
    ensures forall a | a in records :: 1 <= a.sequence <= |chain| && chain[a.sequence - 1] == a
  {
    CoveredCount(chain);
    SubsetOfSameSize((set a | a in chain), records);
  }

  lemma {:induction false} CoveredCount(chain: seq<Action>)
    requires forall i | 0 <= i < |chain| :: chain[i].sequence == i + 1
    ensures |set a | a in chain| == |chain|
  {
    if chain != [] {
      var n := |chain| - 1;
      CoveredCount(chain[..n]);
      assert chain == chain[..n] + [chain[n]];
      assert (set a | a in chain) == (set a | a in chain[..n]) + {chain[n]};
    }
  }

  lemma SubsetOfSameSize<T>(a: set<T>, b: set<T>)
    requires a <= b && |a| == |b|
    ensures a == b
  {
    assert |b - a| == |b| - |a|;
    assert b == a + (b - a);
  }

  /** The chain of a subject is unique: sorting the files has one possible result. */
  lemma ChainIsUnique(records: set<Action>, s: seq<Action>, t: seq<Action>)
    requires Numbered(records, s) && Numbered(records, t)
    ensures s == t
  {
    NumberedCovers(records, s);
    forall i | 0 <= i < |s| ensures s[i] == t[i] {
      assert t[i] in records;
    }
  }

  /** Creating one more action file. */
  function Append(actions: Actions, a: Action): Actions {
    actions[a.id := a]
  }

  lemma AppendRelated(actions: Actions, a: Action, subject: Subject)
    requires a.id !in actions && forall k | k in actions :: actions[k].id == k
    ensures Related(Append(actions, a), subject)
         == if a.subject == subject then Related(actions, subject) + {a} else Related(actions, subject)
    ensures a !in Related(actions, subject)
  {
    var after := Append(actions, a);
    forall x ensures x in Related(after, subject)
      <==> x in Related(actions, subject) || (x == a && a.subject == subject)
    {
      if x in Related(actions, subject) {
        var k :| k in actions && actions[k] == x && x.subject == subject;
        assert after[k] == x;
      }
      if x == a && a.subject == subject {
        assert after[a.id] == a;
      }
    }
  }

  /** Appending the next action of a subject keeps its chain valid and extends it by that action. */
  lemma AppendExtends(actions: Actions, a: Action, initial: Status, binding: SubjectFingerprint)
    requires a.id !in actions && forall k | k in actions :: actions[k].id == k
    requires ChainValid(actions, a.subject, initial, binding)
    requires var chain := ChainOf(actions, a.subject, initial, binding);
             a.sequence == |chain| + 1 && Lawful(a) && a.binding == binding && a.from == StatusAfter(initial, chain)
    ensures ChainValid(Append(actions, a), a.subject, initial, binding)
    ensures ChainOf(Append(actions, a), a.subject, initial, binding) == ChainOf(actions, a.subject, initial, binding) + [a]
  {
    hide Lawful, Linked, Related, Append, StatusAfter;
    var chain := ChainOf(actions, a.subject, initial, binding);
    AppendRelated(actions, a, a.subject);
    LinkedGrows(initial, binding, chain, a);
    ChainIsUnique(Related(Append(actions, a), a.subject), chain + [a], ChainOf(Append(actions, a), a.subject, initial, binding));
  }

  lemma LinkedGrows(initial: Status, binding: SubjectFingerprint, chain: seq<Action>, a: Action)
    requires Linked(initial, binding, chain)
    requires Lawful(a) && a.binding == binding && a.from == StatusAfter(initial, chain)
    ensures Linked(initial, binding, chain + [a])
  {
    hide Lawful;
    var longer := chain + [a];
    forall i | 0 <= i < |longer|
      ensures Lawful(longer[i]) && longer[i].binding == binding && longer[i].from == StatusAfter(initial, longer[..i])
    {
      assert longer[..i] == chain[..i];
      if i == |chain| {
        assert chain[..i] == chain;
      }
    }
  }

  /** ... and leaves the chain of every other subject alone. */
  lemma AppendLeavesOthers(actions: Actions, a: Action, subject: Subject, initial: Status, binding: SubjectFingerprint)
    requires a.id !in actions && forall k | k in actions :: actions[k].id == k
    requires a.subject != subject && ChainValid(actions, subject, initial, binding)
    ensures ChainValid(Append(actions, a), subject, initial, binding)
    ensures ChainOf(Append(actions, a), subject, initial, binding) == ChainOf(actions, subject, initial, binding)
  {
    AppendRelated(actions, a, subject);
    ChainIsUnique(Related(actions, subject), ChainOf(actions, subject, initial, binding),
                  ChainOf(Append(actions, a), subject, initial, binding));
  }

  /** A subject nobody acted on has the empty chain. */
  lemma NoActionsNoChain(actions: Actions, subject: Subject, initial: Status, binding: SubjectFingerprint)
    requires forall k | k in actions :: actions[k].subject != subject
    ensures ChainValid(actions, subject, initial, binding)
    ensures ChainOf(actions, subject, initial, binding) == []
  {
    assert Related(actions, subject) == {};
    assert Numbered({}, []) && Linked(initial, binding, []);
  }

  // ----- compare and swap

  ghost function StateOf(actions: Actions, subject: Subject, initial: Status, binding: SubjectFingerprint): StateFingerprint
    requires ChainValid(actions, subject, initial, binding)
  {
    StateFingerprint(binding, ChainOf(actions, subject, initial, binding))
  }

  /**
   A fingerprint read before an action of its subject never matches again: the history only grows,
   so there is no way back to an earlier state, even when the status itself returns.
   */
  lemma StaleStateNeverMatches(before: Actions, after: Actions, subject: Subject, initial: Status, binding: SubjectFingerprint)
    requires ChainValid(before, subject, initial, binding) && ChainValid(after, subject, initial, binding)
    requires before.Items <= after.Items
    requires Related(before, subject) != Related(after, subject)
    ensures StateOf(before, subject, initial, binding) != StateOf(after, subject, initial, binding)
    ensures ChainOf(before, subject, initial, binding) < ChainOf(after, subject, initial, binding)
  {
    var was, now := ChainOf(before, subject, initial, binding), ChainOf(after, subject, initial, binding);
    forall x | x in Related(before, subject) ensures x in Related(after, subject) {
      var k :| k in before && before[k] == x && x.subject == subject;
      assert (k, x) in before.Items;
      assert k in after && after[k] == x;
    }
    assert |Related(after, subject) - Related(before, subject)| == |Related(after, subject)| - |Related(before, subject)|;
    NumberedCovers(Related(after, subject), now);
    assert |was| < |now|;
    forall i | 0 <= i < |was| ensures was[i] == now[i] {
      assert was[i] in Related(after, subject);
    }
  }

  // ----- the moves between statuses

  /** The moves an alert can make: (from, to) of every lawful action on one. */
  function AlertMoves(): set<(Status, Status)> {
    {(Open, Acknowledged), (Open, Snoozed), (Open, Dismissed), (Acknowledged, Open), (Acknowledged, Dismissed),
     (Snoozed, Open), (Snoozed, Acknowledged), (Snoozed, Dismissed), (Dismissed, Open)}
  }

  function NoteMoves(): set<(Status, Status)> {
    {(Unread, Read), (Read, Unread), (Unread, Discarded), (Read, Discarded)}
  }

  /** Lawful actions make exactly these moves; a move tells its verb, and a discarded notification stays discarded. */
  lemma LawfulMoves(a: Action, b: Action)
    requires Lawful(a)
    ensures (a.from, a.to) in AlertMoves() + NoteMoves()
    ensures a.from != Discarded && a.from != a.to
    ensures Lawful(b) && a.from == b.from && a.to == b.to ==> a.verb == b.verb
    ensures a.to == Snoozed <==> a.snoozeUntil.Some?
  {
  }

  /** Every one of the moves has a verb for it. */
  lemma EveryMoveIsLawful(from: Status, to: Status) returns (verb: Verb)
    requires (from, to) in AlertMoves() + NoteMoves()
    ensures from in AllowedFrom(verb) && TargetOf(verb) == to
  {
    verb := match to
      case Open => if from == Snoozed then Unsnooze else Reopen
      case Acknowledged => Acknowledge
      case Snoozed => Snooze
      case Dismissed => Dismiss
      case Unread => MarkUnread
      case Read => MarkRead
      case Discarded => Discard;
  }
}
