/**
 The append-only digest store of one owner and account (research_digest.py): one chain of revisions
 per period, batches that are checked before anything is written and committed file by file.
 */
module ResearchDigest {
  import opened Common

  const MAX_REVISIONS_PER_CHAIN: nat := 2000
  const MAX_CHAINS_PER_ACCOUNT: nat := 2000
  const MAX_DIGESTS_PER_BATCH: nat := 104

  datatype Kind = Daily | Weekly

  datatype Key = Key(kind: Kind, period: Date)

  /** A weekly period starts on an ISO Monday; day 1 of the calendar is one. */
  predicate PeriodOk(key: Key) {
    key.kind.Weekly? ==> (key.period - 1) % 7 == 0
  }

  /** What the content fingerprint is taken over; two contents are equal when their fingerprints are. */
  datatype Content = Content(key: Key, config: string, payload: string, source: string)

  /** A revision; its fingerprint is the record itself, injectively. */
  datatype Record = Record(
    id: nat, revision: nat, content: Content, supersedes: Option<Parent>,
    createdAt: int, actor: string, trigger: string)

  datatype Parent = Parent(id: nat, fingerprint: Record)

  datatype Slot = Slot(key: Key, revision: nat)

  type Files = map<Slot, Record>

  type Chains = map<Key, seq<Record>>

  /** A draft that passes or does not pass normalisation. */
  datatype Draft = Malformed | Draft(content: Content, createdAt: int, actor: string, trigger: string)

  // ----- what verification accepts

  ghost predicate RecordAt(key: Key, chain: seq<Record>, i: nat)
    requires i < |chain|
  {
    && chain[i].content.key == key && chain[i].revision == i + 1
    && chain[i].supersedes == if i == 0 then None else Some(Parent(chain[i - 1].id, chain[i - 1]))
  }

  ghost predicate ChainOk(key: Key, chain: seq<Record>) {
    PeriodOk(key) && 1 <= |chain| <= MAX_REVISIONS_PER_CHAIN && forall i | 0 <= i < |chain| :: RecordAt(key, chain, i)
  }

  predicate Has(chains: Chains, key: Key, i: int) {
    key in chains && 0 <= i < |chains[key]|
  }

  ghost predicate IdsUnique(chains: Chains) {
    forall k, i, l, j | Has(chains, k, i) && Has(chains, l, j) && chains[k][i].id == chains[l][j].id :: k == l && i == j
  }

  ghost predicate OneConfig(chains: Chains) {
    forall k, i, l, j | Has(chains, k, i) && Has(chains, l, j) :: chains[k][i].content.config == chains[l][j].content.config
  }

  /** Everything `_verify_account_unlocked` checks. */
  ghost predicate AccountOk(chains: Chains) {
    && |chains| <= MAX_CHAINS_PER_ACCOUNT
    && (forall key | key in chains :: ChainOk(key, chains[key]))
    && IdsUnique(chains) && OneConfig(chains)
  }

  /** The revision files are exactly those of the chains, numbered from one without a gap. */
  ghost predicate Represents(files: Files, chains: Chains) {
    && (forall key | key in chains :: chains[key] != [])
    && (forall slot :: slot in files <==> Has(chains, slot.key, slot.revision - 1))
    && forall slot | slot in files :: files[slot] == chains[slot.key][slot.revision - 1]
  }

  lemma RepresentsOnce(files: Files, a: Chains, b: Chains)
    requires Represents(files, a) && Represents(files, b)
    ensures a == b
  {
    forall key ensures key in a <==> key in b {
      assert key in a ==> Slot(key, 1) in files && Has(b, key, 0);
      assert key in b ==> Slot(key, 1) in files && Has(a, key, 0);
    }
    forall key | key in a ensures a[key] == b[key] {
      var n, m := |a[key]|, |b[key]|;
      assert Slot(key, n) in files && Has(b, key, n - 1);
      assert Slot(key, m) in files && Has(a, key, m - 1);
      forall i | 0 <= i < n ensures a[key][i] == b[key][i] {
        assert Has(a, key, i) && Slot(key, i + 1) in files;
      }
    }
  }

  // ----- the plan of a batch

  function ChainFor(chains: Chains, key: Key): seq<Record> {
    if key in chains then chains[key] else []
  }

  /** The newest revision already says the same. */
  predicate Reuses(chains: Chains, draft: Draft)
    requires draft.Draft?
  {
    var chain := ChainFor(chains, draft.content.key);
    chain != [] && chain[|chain| - 1].content == draft.content
  }

  /** `_digest_record` */
  function RecordFor(chains: Chains, draft: Draft, id: nat): Record
    requires draft.Draft?
  {
    var chain := ChainFor(chains, draft.content.key);
    Record(id, |chain| + 1, draft.content,
           if chain == [] then None else Some(Parent(chain[|chain| - 1].id, chain[|chain| - 1])),
           draft.createdAt, draft.actor, draft.trigger)
  }

  datatype Plan = Plan(record: Record, created: bool)

  function PlanFor(chains: Chains, draft: Draft, id: nat): Plan
    requires draft.Draft?
  {
    if Reuses(chains, draft) then Plan(ChainFor(chains, draft.content.key)[|ChainFor(chains, draft.content.key)| - 1], false)
    else Plan(RecordFor(chains, draft, id), true)
  }

  /** The chains with one more plan carried out. */
  function Carried(chains: Chains, plan: Plan): Chains {
    if plan.created then chains[plan.record.content.key := ChainFor(chains, plan.record.content.key) + [plan.record]] else chains
  }

  predicate WellFormed(drafts: seq<Draft>) {
    && 1 <= |drafts| <= MAX_DIGESTS_PER_BATCH
    && (forall i | 0 <= i < |drafts| :: drafts[i].Draft? && PeriodOk(drafts[i].content.key))
    && (forall i, j | 0 <= i < j < |drafts| :: drafts[i].content.key != drafts[j].content.key)
    && forall i | 0 <= i < |drafts| :: drafts[i].content.config == drafts[0].content.config
  }

  /** The batch belongs to the account's configuration epoch. */
  ghost predicate SameEpoch(chains: Chains, config: string) {
    forall k, i | Has(chains, k, i) :: chains[k][i].content.config == config
  }

  /** How many of the first n drafts start a new chain. */
  function NewChains(chains: Chains, drafts: seq<Draft>, n: nat): (r: nat)
    requires n <= |drafts| && forall i | 0 <= i < |drafts| :: drafts[i].Draft?
    ensures r <= n
  {
    if n == 0 then 0
    else NewChains(chains, drafts, n - 1) + if drafts[n - 1].content.key in chains then 0 else 1
  }

  ghost predicate Fits(chains: Chains, drafts: seq<Draft>)
    requires forall i | 0 <= i < |drafts| :: drafts[i].Draft?
  {
    && (forall i | 0 <= i < |drafts| && !Reuses(chains, drafts[i]) ::
          |ChainFor(chains, drafts[i].content.key)| < MAX_REVISIONS_PER_CHAIN)
    && |chains| + NewChains(chains, drafts, |drafts|) <= MAX_CHAINS_PER_ACCOUNT
  }

  /** The whole preflight, without an order of checking. */
  ghost predicate BatchOk(chains: Chains, drafts: seq<Draft>) {
    WellFormed(drafts) && SameEpoch(chains, drafts[0].content.config) && Fits(chains, drafts)
  }

  /** Fresh ids, one for each draft. */
  ghost predicate FreshIds(chains: Chains, ids: seq<nat>) {
    && (forall i, j | 0 <= i < j < |ids| :: ids[i] != ids[j])
    && forall k, i | Has(chains, k, i) :: chains[k][i].id !in ids
  }

  /** The chains after the first n plans; a draft's plan never depends on the other drafts of its batch. */
  ghost function After(chains: Chains, drafts: seq<Draft>, ids: seq<nat>, n: nat): Chains
    requires n <= |drafts| == |ids| && forall i | 0 <= i < |drafts| :: drafts[i].Draft?
  {
    if n == 0 then chains
    else Carried(After(chains, drafts, ids, n - 1), PlanFor(chains, drafts[n - 1], ids[n - 1]))
  }

  // ----- the content of a store

  function Contents(chain: seq<Record>): (r: seq<Content>)
    ensures |r| == |chain| && forall i | 0 <= i < |r| :: r[i] == chain[i].content
  {
    seq(|chain|, i requires 0 <= i < |chain| => chain[i].content)
  }

  /** The content-fingerprint sequences of all chains. */
  ghost function ContentOf(chains: Chains): map<Key, seq<Content>> {
    map key | key in chains :: Contents(chains[key])
  }

  ghost predicate AdjacentDiffer(chains: Chains) {
    forall key, i | Has(chains, key, i) && Has(chains, key, i + 1) :: chains[key][i].content != chains[key][i + 1].content
  }

  // ----- what a prefix of a batch does to each chain

  /** Keys are unique in a batch, so each chain is touched by at most one draft. */
  lemma {:induction false} AfterAt(chains: Chains, drafts: seq<Draft>, ids: seq<nat>, n: nat, key: Key)
    requires WellFormed(drafts) && n <= |drafts| == |ids|
    ensures (forall i | 0 <= i < n :: drafts[i].content.key != key) ==>
              (key in After(chains, drafts, ids, n) <==> key in chains)
              && ChainFor(After(chains, drafts, ids, n), key) == ChainFor(chains, key)
    ensures forall i | 0 <= i < n && drafts[i].content.key == key ::
              key in After(chains, drafts, ids, n)
              && ChainFor(After(chains, drafts, ids, n), key)
                 == if Reuses(chains, drafts[i]) then ChainFor(chains, key) else ChainFor(chains, key) + [RecordFor(chains, drafts[i], ids[i])]
  {
    hide PeriodOk, Reuses;
    if n > 0 {
      AfterAt(chains, drafts, ids, n - 1, key);
      var draft := drafts[n - 1];
      NewHasNoChain(chains, draft);
      if draft.content.key != key {
        assert ChainFor(After(chains, drafts, ids, n), key) == ChainFor(After(chains, drafts, ids, n - 1), key);
      }
    }
  }

  lemma NewHasNoChain(chains: Chains, draft: Draft)
    requires draft.Draft?
    ensures Reuses(chains, draft) ==> draft.content.key in chains
  {
  }

  lemma {:induction false} AfterSize(chains: Chains, drafts: seq<Draft>, ids: seq<nat>, n: nat)
    requires WellFormed(drafts) && n <= |drafts| == |ids|
    ensures |After(chains, drafts, ids, n)| == |chains| + NewChains(chains, drafts, n)
  {
    hide PeriodOk, Reuses;
    if n > 0 {
      AfterSize(chains, drafts, ids, n - 1);
      NewHasNoChain(chains, drafts[n - 1]);
      AfterAt(chains, drafts, ids, n - 1, drafts[n - 1].content.key);
    }
  }

  // ----- every prefix leaves an account that verifies

  /** The shape shared by all chains a store can have. */
  ghost predicate StoreOk(chains: Chains) {
    AccountOk(chains) && AdjacentDiffer(chains)
  }

  /** One more record at the end of a chain, or a chain of its own. */
  lemma CarriedIsOk(chains: Chains, draft: Draft, id: nat)
    requires StoreOk(chains) && draft.Draft? && PeriodOk(draft.content.key) && !Reuses(chains, draft)
    requires SameEpoch(chains, draft.content.config)
    requires forall k, i | Has(chains, k, i) :: chains[k][i].id != id
    requires |ChainFor(chains, draft.content.key)| < MAX_REVISIONS_PER_CHAIN
    requires draft.content.key in chains || |chains| < MAX_CHAINS_PER_ACCOUNT
    ensures StoreOk(Carried(chains, Plan(RecordFor(chains, draft, id), true)))
    ensures SameEpoch(Carried(chains, Plan(RecordFor(chains, draft, id), true)), draft.content.config)
  {
    hide ChainOk, PeriodOk;
    var record := RecordFor(chains, draft, id);
    var key := draft.content.key;
    var chain := ChainFor(chains, key);
    var after := Carried(chains, Plan(record, true));
    assert after[key] == chain + [record];
    LongerChainIsOk(chains, draft, id);
    forall k, i | Has(after, k, i) && !(k == key && i == |chain|) ensures Has(chains, k, i) && after[k][i] == chains[k][i] {
    }
    OneMoreUnique(chains, after, key, |chain|);
    OneMoreDiffers(chains, draft, id);
  }

  lemma LongerChainIsOk(chains: Chains, draft: Draft, id: nat)
    requires draft.Draft? && PeriodOk(draft.content.key)
    requires draft.content.key in chains ==> ChainOk(draft.content.key, chains[draft.content.key])
    requires |ChainFor(chains, draft.content.key)| < MAX_REVISIONS_PER_CHAIN
    ensures ChainOk(draft.content.key, ChainFor(chains, draft.content.key) + [RecordFor(chains, draft, id)])
  {
    var chain := ChainFor(chains, draft.content.key);
    var longer := chain + [RecordFor(chains, draft, id)];
    forall i | 0 <= i < |longer| ensures RecordAt(draft.content.key, longer, i) {
      assert i < |chain| ==> RecordAt(draft.content.key, chain, i);
    }
  }

  lemma OneMoreUnique(chains: Chains, after: Chains, key: Key, at: nat)
    requires IdsUnique(chains) && Has(after, key, at)
    requires forall k, i | Has(after, k, i) && !(k == key && i == at) :: Has(chains, k, i) && after[k][i] == chains[k][i]
    requires forall k, i | Has(chains, k, i) :: chains[k][i].id != after[key][at].id
    ensures IdsUnique(after)
  {
  }

  lemma OneMoreDiffers(chains: Chains, draft: Draft, id: nat)
    requires AdjacentDiffer(chains) && draft.Draft? && !Reuses(chains, draft)
    ensures AdjacentDiffer(Carried(chains, Plan(RecordFor(chains, draft, id), true)))
  {
    var key := draft.content.key;
    var after := Carried(chains, Plan(RecordFor(chains, draft, id), true));
    assert after[key] == ChainFor(chains, key) + [RecordFor(chains, draft, id)];
    forall k, i | Has(after, k, i) && Has(after, k, i + 1) ensures after[k][i].content != after[k][i + 1].content {
      if Has(chains, k, i + 1) {
        assert Has(chains, k, i) && chains[k][i].content != chains[k][i + 1].content;
      }
    }
  }

  ghost predicate NoneOf(chains: Chains, ids: seq<nat>) {
    forall k, i | Has(chains, k, i) :: chains[k][i].id !in ids
  }

  lemma {:induction false} PrefixIsOk(chains: Chains, drafts: seq<Draft>, ids: seq<nat>, n: nat)
    requires StoreOk(chains) && BatchOk(chains, drafts) && FreshIds(chains, ids) && n <= |drafts| == |ids|
    ensures StoreOk(After(chains, drafts, ids, n))
    ensures SameEpoch(After(chains, drafts, ids, n), drafts[0].content.config)
    ensures NoneOf(After(chains, drafts, ids, n), ids[n..])
  {
    hide StoreOk, SameEpoch, Fits, Carried, Reuses, PlanFor, RecordFor;
    if n > 0 {
      PrefixIsOk(chains, drafts, ids, n - 1);
      SamePlan(chains, drafts, ids, n - 1);
      RoomForNext(chains, drafts, ids, n - 1);
      var before := After(chains, drafts, ids, n - 1);
      var draft, id := drafts[n - 1], ids[n - 1];
      assert ids[n - 1..] == [id] + ids[n..];
      if !Reuses(chains, draft) {
        CarriedIsOk(before, draft, id);
        CarriedIds(before, draft, id, ids[n..]);
      }
      CarriedNothing(before, draft, id);
    } else {
      assert ids[0..] == ids;
    }
  }

  lemma CarriedNothing(chains: Chains, draft: Draft, id: nat)
    requires draft.Draft?
    ensures Reuses(chains, draft) ==> Carried(chains, PlanFor(chains, draft, id)) == chains
    ensures !Reuses(chains, draft) ==> PlanFor(chains, draft, id) == Plan(RecordFor(chains, draft, id), true)
  {
  }

  /** The plans of a batch may be made one after the other or all from the start. */
  lemma SamePlan(chains: Chains, drafts: seq<Draft>, ids: seq<nat>, n: nat)
    requires WellFormed(drafts) && n < |drafts| == |ids|
    ensures var before := After(chains, drafts, ids, n);
            && (Reuses(before, drafts[n]) <==> Reuses(chains, drafts[n]))
            && PlanFor(before, drafts[n], ids[n]) == PlanFor(chains, drafts[n], ids[n])
            && ChainFor(before, drafts[n].content.key) == ChainFor(chains, drafts[n].content.key)
            && (drafts[n].content.key in before <==> drafts[n].content.key in chains)
  {
    hide After;
    AfterAt(chains, drafts, ids, n, drafts[n].content.key);
  }

  /** The next draft still finds room for its record. */
  lemma RoomForNext(chains: Chains, drafts: seq<Draft>, ids: seq<nat>, n: nat)
    requires BatchOk(chains, drafts) && n < |drafts| == |ids|
    ensures var before := After(chains, drafts, ids, n);
            && (!Reuses(chains, drafts[n]) ==> |ChainFor(before, drafts[n].content.key)| < MAX_REVISIONS_PER_CHAIN)
            && (drafts[n].content.key in before || |before| < MAX_CHAINS_PER_ACCOUNT)
  {
    hide After, Reuses, SameEpoch;
    SamePlan(chains, drafts, ids, n);
    AfterSize(chains, drafts, ids, n);
    NewChainsGrow(chains, drafts, n + 1, |drafts|);
  }

  lemma CarriedIds(chains: Chains, draft: Draft, id: nat, others: seq<nat>)
    requires draft.Draft? && id !in others && NoneOf(chains, others)
    ensures NoneOf(Carried(chains, Plan(RecordFor(chains, draft, id), true)), others)
  {
    var key := draft.content.key;
    var after := Carried(chains, Plan(RecordFor(chains, draft, id), true));
    assert after[key] == ChainFor(chains, key) + [RecordFor(chains, draft, id)];
    forall k, i | Has(after, k, i) ensures after[k][i].id !in others {
      assert !(k == key && i == |ChainFor(chains, key)|) ==> Has(chains, k, i);
    }
  }

  lemma {:induction false} NewChainsGrow(chains: Chains, drafts: seq<Draft>, n: nat, m: nat)
    requires n <= m <= |drafts| && forall i | 0 <= i < |drafts| :: drafts[i].Draft?
    ensures NewChains(chains, drafts, n) <= NewChains(chains, drafts, m)
    decreases m
  {
    if n < m {
      NewChainsGrow(chains, drafts, n, m - 1);
    }
  }

  // ----- rerunning a batch

  /** After a prefix, its drafts are reused and the others are planned as before. */
  lemma PrefixSettles(chains: Chains, drafts: seq<Draft>, ids: seq<nat>, n: nat, i: nat)
    requires WellFormed(drafts) && n <= |drafts| == |ids| && i < |drafts|
    ensures Reuses(After(chains, drafts, ids, n), drafts[i]) <==> i < n || Reuses(chains, drafts[i])
    ensures i >= n ==> ChainFor(After(chains, drafts, ids, n), drafts[i].content.key) == ChainFor(chains, drafts[i].content.key)
    ensures i >= n ==> (drafts[i].content.key in After(chains, drafts, ids, n) <==> drafts[i].content.key in chains)
    ensures i < n ==> drafts[i].content.key in After(chains, drafts, ids, n)
  {
    AfterAt(chains, drafts, ids, n, drafts[i].content.key);
  }

  lemma {:induction false} RemainingNewChains(chains: Chains, drafts: seq<Draft>, ids: seq<nat>, n: nat, m: nat)
    requires WellFormed(drafts) && n <= m <= |drafts| == |ids|
    ensures NewChains(After(chains, drafts, ids, n), drafts, n) == 0
    ensures NewChains(After(chains, drafts, ids, n), drafts, m) == NewChains(chains, drafts, m) - NewChains(chains, drafts, n)
    decreases m
  {
    if m > n {
      RemainingNewChains(chains, drafts, ids, n, m - 1);
      PrefixSettles(chains, drafts, ids, n, m - 1);
    } else {
      NoneNewUpTo(chains, drafts, ids, n, n);
    }
  }

  lemma {:induction false} NoneNewUpTo(chains: Chains, drafts: seq<Draft>, ids: seq<nat>, n: nat, m: nat)
    requires WellFormed(drafts) && m <= n <= |drafts| == |ids|
    ensures NewChains(After(chains, drafts, ids, n), drafts, m) == 0
    decreases m
  {
    if m > 0 {
      NoneNewUpTo(chains, drafts, ids, n, m - 1);
      PrefixSettles(chains, drafts, ids, n, m - 1);
    }
  }

  /** A batch that was accepted and stopped half-way is accepted again. */
  lemma RerunIsAccepted(chains: Chains, drafts: seq<Draft>, ids: seq<nat>, n: nat)
    requires StoreOk(chains) && BatchOk(chains, drafts) && FreshIds(chains, ids) && n <= |drafts| == |ids|
    ensures BatchOk(After(chains, drafts, ids, n), drafts)
  {
    hide StoreOk, PeriodOk;
    PrefixIsOk(chains, drafts, ids, n);
    AfterSize(chains, drafts, ids, n);
    RemainingNewChains(chains, drafts, ids, n, |drafts|);
    var after := After(chains, drafts, ids, n);
    forall i | 0 <= i < |drafts| && !Reuses(after, drafts[i])
      ensures |ChainFor(after, drafts[i].content.key)| < MAX_REVISIONS_PER_CHAIN
    {
      PrefixSettles(chains, drafts, ids, n, i);
    }
  }

  /** The contents of a chain after a batch, from its contents before. */
  lemma ContentAfter(chains: Chains, drafts: seq<Draft>, ids: seq<nat>, n: nat, i: nat)
    requires WellFormed(drafts) && i < n <= |drafts| == |ids|
    ensures Contents(ChainFor(After(chains, drafts, ids, n), drafts[i].content.key))
         == if Reuses(chains, drafts[i]) then Contents(ChainFor(chains, drafts[i].content.key))
            else Contents(ChainFor(chains, drafts[i].content.key)) + [drafts[i].content]
  {
    AfterAt(chains, drafts, ids, n, drafts[i].content.key);
  }

  /**
   Convergence.  However far the first attempt got, running the batch again leaves in every chain the
   same contents as an attempt that was never interrupted.
   */
  lemma RerunConverges(chains: Chains, drafts: seq<Draft>, ids: seq<nat>, again: seq<nat>, n: nat)
    requires WellFormed(drafts) && n <= |drafts| == |ids| == |again|
    ensures ContentOf(After(After(chains, drafts, ids, n), drafts, again, |drafts|))
         == ContentOf(After(chains, drafts, ids, |drafts|))
  {
    var stopped := After(chains, drafts, ids, n);
    var rerun, whole := After(stopped, drafts, again, |drafts|), After(chains, drafts, ids, |drafts|);
    forall key ensures (key in rerun <==> key in whole) && Contents(ChainFor(rerun, key)) == Contents(ChainFor(whole, key)) {
      SameChainEitherWay(chains, drafts, ids, again, n, key);
    }
    assert forall key | key in whole :: ChainFor(whole, key) == whole[key];
    assert forall key | key in rerun :: ChainFor(rerun, key) == rerun[key];
  }

  lemma SameChainEitherWay(chains: Chains, drafts: seq<Draft>, ids: seq<nat>, again: seq<nat>, n: nat, key: Key)
    requires WellFormed(drafts) && n <= |drafts| == |ids| == |again|
    ensures var stopped := After(chains, drafts, ids, n);
            var rerun, whole := After(stopped, drafts, again, |drafts|), After(chains, drafts, ids, |drafts|);
            (key in rerun <==> key in whole) && Contents(ChainFor(rerun, key)) == Contents(ChainFor(whole, key))
  {
    hide Contents, Reuses, PeriodOk;
    var stopped := After(chains, drafts, ids, n);
    AfterAt(chains, drafts, ids, n, key);
    AfterAt(chains, drafts, ids, |drafts|, key);
    AfterAt(stopped, drafts, again, |drafts|, key);
    if i :| 0 <= i < |drafts| && drafts[i].content.key == key {
      PrefixSettles(chains, drafts, ids, n, i);
      ContentAfter(chains, drafts, ids, |drafts|, i);
      ContentAfter(stopped, drafts, again, |drafts|, i);
      if i < n {
        ContentAfter(chains, drafts, ids, n, i);
      }
    }
  }

  /** Once a batch is complete, running it again changes nothing and only reports reuse. */
  lemma ThirdRunChangesNothing(chains: Chains, drafts: seq<Draft>, ids: seq<nat>, again: seq<nat>, n: nat)
    requires WellFormed(drafts) && n <= |drafts| == |ids| == |again|
    ensures var settled := After(chains, drafts, ids, |drafts|);
            && After(settled, drafts, again, n) == settled
            && forall i | 0 <= i < n :: !PlanFor(settled, drafts[i], again[i]).created
  {
    NothingIsCreated(After(chains, drafts, ids, |drafts|), drafts, again, n) by {
      forall i | 0 <= i < |drafts| ensures Reuses(After(chains, drafts, ids, |drafts|), drafts[i]) {
        PrefixSettles(chains, drafts, ids, |drafts|, i);
      }
    }
  }

  lemma {:induction false} NothingIsCreated(chains: Chains, drafts: seq<Draft>, ids: seq<nat>, n: nat)
    requires WellFormed(drafts) && n <= |drafts| == |ids|
    requires forall i | 0 <= i < |drafts| :: Reuses(chains, drafts[i])
    ensures After(chains, drafts, ids, n) == chains
    ensures forall i | 0 <= i < n :: !PlanFor(chains, drafts[i], ids[i]).created
  {
    if n > 0 {
      NothingIsCreated(chains, drafts, ids, n - 1);
    }
  }

  // ----- what a batch is for

  /** The newest revision of a period, as far as there is one. */
  predicate Newest(chains: Chains, key: Key, record: Record) {
    key in chains && chains[key] != [] && chains[key][|chains[key]| - 1] == record
  }

  /** The plan answers the draft: with the newest revision where that says the same, else with one that is to be written. */
  ghost predicate AnswersDraft(chains: Chains, draft: Draft, plan: Plan)
    requires draft.Draft?
  {
    && plan.record.content == draft.content
    && (plan.created <==> !exists r :: Newest(chains, draft.content.key, r) && r.content == draft.content)
    && (!plan.created ==> Newest(chains, draft.content.key, plan.record))
    && (plan.created ==> plan.record.createdAt == draft.createdAt && plan.record.actor == draft.actor && plan.record.trigger == draft.trigger)
  }

  /** The draft is the newest of its period; nothing of the period's history was lost, and at most one revision came to it. */
  ghost predicate Landed(before: Chains, after: Chains, draft: Draft, plan: Plan)
    requires draft.Draft?
  {
    var key := draft.content.key;
    && Newest(after, key, plan.record) && plan.record.content == draft.content
    && (plan.created ==> after[key] == (if key in before then before[key] else []) + [plan.record])
    && (!plan.created ==> key in before && after[key] == before[key])
    && AnswersDraft(before, draft, plan)
  }

  /** The first drafts of a batch have landed, and no other period was touched. */
  ghost predicate AllLanded(before: Chains, after: Chains, drafts: seq<Draft>, plans: seq<Plan>) {
    && |plans| <= |drafts|
    && (forall i | 0 <= i < |plans| :: drafts[i].Draft? && Landed(before, after, drafts[i], plans[i]))
    && forall key | forall i | 0 <= i < |plans| :: drafts[i].Draft? && drafts[i].content.key != key ::
         (key in after <==> key in before) && (key in after ==> after[key] == before[key])
  }

  lemma PlanAnswers(chains: Chains, draft: Draft, id: nat)
    requires draft.Draft?
    ensures AnswersDraft(chains, draft, PlanFor(chains, draft, id))
  {
    var key := draft.content.key;
    if Reuses(chains, draft) {
      assert Newest(chains, key, chains[key][|chains[key]| - 1]);
    }
  }

  lemma DraftLands(chains: Chains, drafts: seq<Draft>, ids: seq<nat>, n: nat, i: nat)
    requires WellFormed(drafts) && i < n <= |drafts| == |ids|
    ensures Landed(chains, After(chains, drafts, ids, n), drafts[i], PlanFor(chains, drafts[i], ids[i]))
  {
    hide After, AnswersDraft, WellFormed;
    DraftsAreThere(drafts);
    var draft, after := drafts[i], After(chains, drafts, ids, n);
    AfterAt(chains, drafts, ids, n, draft.content.key);
    PlanAnswers(chains, draft, ids[i]);
  }

  lemma DraftsAreThere(drafts: seq<Draft>)
    requires WellFormed(drafts)
    ensures forall i | 0 <= i < |drafts| :: drafts[i].Draft?
  {
  }

  /** However far a batch got, its first drafts have landed and nothing else has changed. */
  lemma PrefixLands(chains: Chains, drafts: seq<Draft>, ids: seq<nat>, n: nat, plans: seq<Plan>)
    requires WellFormed(drafts) && n <= |drafts| == |ids|
    requires |plans| == n && forall i | 0 <= i < n :: drafts[i].Draft? && plans[i] == PlanFor(chains, drafts[i], ids[i])
    ensures AllLanded(chains, After(chains, drafts, ids, n), drafts, plans)
  {
    hide After, Landed, PlanFor, WellFormed;
    DraftsAreThere(drafts);
    var after := After(chains, drafts, ids, n);
    forall i | 0 <= i < n ensures Landed(chains, after, drafts[i], plans[i]) {
      DraftLands(chains, drafts, ids, n, i);
    }
    forall key | forall i | 0 <= i < n :: drafts[i].Draft? && drafts[i].content.key != key
      ensures (key in after <==> key in chains) && (key in after ==> after[key] == chains[key])
    {
      AfterAt(chains, drafts, ids, n, key);
    }
  }

  // ----- when a batch is refused

  /** The account that accepting the batch would leave. */
  ghost function Whole(chains: Chains, drafts: seq<Draft>, ids: seq<nat>): Chains
    requires WellFormed(drafts) && |drafts| == |ids|
  {
    After(chains, drafts, ids, |drafts|)
  }

  /** A well-formed batch is accepted exactly when the account it would leave verifies. */
  lemma AcceptedExactly(chains: Chains, drafts: seq<Draft>, ids: seq<nat>)
    requires StoreOk(chains) && WellFormed(drafts) && FreshIds(chains, ids) && |drafts| == |ids|
    ensures BatchOk(chains, drafts) <==> AccountOk(Whole(chains, drafts, ids))
  {
    hide StoreOk, AccountOk, SameEpoch, Fits, After, WellFormed;
    DraftsAreThere(drafts);
    var n := |drafts|;
    if BatchOk(chains, drafts) {
      PrefixIsOk(chains, drafts, ids, n);
      StoreIsAccount(After(chains, drafts, ids, n));
    }
    if AccountOk(Whole(chains, drafts, ids)) {
      VerifiedIsOneEpoch(chains, drafts, ids);
      VerifiedFits(chains, drafts, ids);
    }
  }

  lemma StoreIsAccount(chains: Chains)
    requires StoreOk(chains)
    ensures AccountOk(chains)
  {
  }

  lemma VerifiedIsOneEpoch(chains: Chains, drafts: seq<Draft>, ids: seq<nat>)
    requires WellFormed(drafts) && |drafts| == |ids| && AccountOk(Whole(chains, drafts, ids))
    ensures SameEpoch(chains, drafts[0].content.config)
  {
    hide After, IdsUnique, ChainOk, PeriodOk, PlanFor;
    var after := Whole(chains, drafts, ids);
    DraftLands(chains, drafts, ids, |drafts|, 0);
    var first := drafts[0].content.key;
    assert Has(after, first, |after[first]| - 1);
    forall k, i | Has(chains, k, i) ensures chains[k][i].content.config == drafts[0].content.config {
      HistoryStays(chains, drafts, ids, k, i);
    }
  }

  /** What was on record before a batch is on record after it. */
  lemma HistoryStays(chains: Chains, drafts: seq<Draft>, ids: seq<nat>, key: Key, i: nat)
    requires WellFormed(drafts) && |drafts| == |ids| && Has(chains, key, i)
    ensures Has(Whole(chains, drafts, ids), key, i) && Whole(chains, drafts, ids)[key][i] == chains[key][i]
  {
    hide After, PeriodOk, Reuses;
    AfterAt(chains, drafts, ids, |drafts|, key);
    var after := Whole(chains, drafts, ids);
    assert ChainFor(chains, key) == chains[key];
    if j :| 0 <= j < |drafts| && drafts[j].content.key == key {
      assert ChainFor(after, key) == after[key];
    }
  }

  lemma VerifiedFits(chains: Chains, drafts: seq<Draft>, ids: seq<nat>)
    requires WellFormed(drafts) && |drafts| == |ids| && AccountOk(Whole(chains, drafts, ids))
    ensures Fits(chains, drafts)
  {
    hide After, IdsUnique, OneConfig, Reuses;
    var after := Whole(chains, drafts, ids);
    AfterSize(chains, drafts, ids, |drafts|);
    forall i | 0 <= i < |drafts| && !Reuses(chains, drafts[i])
      ensures |ChainFor(chains, drafts[i].content.key)| < MAX_REVISIONS_PER_CHAIN
    {
      AfterAt(chains, drafts, ids, |drafts|, drafts[i].content.key);
      assert ChainOk(drafts[i].content.key, after[drafts[i].content.key]);
    }
  }

  // ----- which batches are well formed

  function KeysOf(drafts: seq<Draft>): set<Key> {
    set i | 0 <= i < |drafts| && drafts[i].Draft? :: drafts[i].content.key
  }

  function ConfigsOf(drafts: seq<Draft>): set<string> {
    set i | 0 <= i < |drafts| && drafts[i].Draft? :: drafts[i].content.config
  }

  /** A whole number of weeks after the first Monday of the calendar. */
  ghost predicate IsMonday(day: Date) {
    exists weeks: int :: day == 7 * weeks + 1
  }

  /**
   A batch is well formed exactly when it has 1 to 104 drafts, all normalised, weeks starting on Mondays, as many
   periods as drafts, and one configuration.
   */
  lemma WellFormedExactly(drafts: seq<Draft>)
    ensures WellFormed(drafts) <==>
              && 1 <= |drafts| <= 104 && (forall i | 0 <= i < |drafts| :: drafts[i].Draft?)
              && (forall key | key in KeysOf(drafts) && key.kind == Weekly :: IsMonday(key.period))
              && |KeysOf(drafts)| == |drafts| && |ConfigsOf(drafts)| == 1
  {
    if forall i | 0 <= i < |drafts| :: drafts[i].Draft? {
      DistinctKeys(drafts);
      Mondays(drafts);
      if drafts != [] {
        OneOfThem(drafts);
      }
    }
  }

  lemma Mondays(drafts: seq<Draft>)
    requires forall i | 0 <= i < |drafts| :: drafts[i].Draft?
    ensures (forall i | 0 <= i < |drafts| :: PeriodOk(drafts[i].content.key))
        <==> forall key | key in KeysOf(drafts) && key.kind == Weekly :: IsMonday(key.period)
  {
    forall day: Date ensures (day - 1) % 7 == 0 <==> IsMonday(day) {
      if (day - 1) % 7 == 0 {
        assert day == 7 * ((day - 1) / 7) + 1;
      }
    }
    forall i | 0 <= i < |drafts| ensures drafts[i].content.key in KeysOf(drafts) {
    }
  }

  lemma OneOfThem(drafts: seq<Draft>)
    requires drafts != [] && forall i | 0 <= i < |drafts| :: drafts[i].Draft?
    ensures (forall i | 0 <= i < |drafts| :: drafts[i].content.config == drafts[0].content.config) <==> |ConfigsOf(drafts)| == 1
  {
    var configs, first := ConfigsOf(drafts), drafts[0].content.config;
    assert first in configs;
    if forall i | 0 <= i < |drafts| :: drafts[i].content.config == first {
      assert configs == {first};
    }
    if |configs| == 1 {
      assert |configs - {first}| == 0;
      forall i | 0 <= i < |drafts| ensures drafts[i].content.config == first {
        assert drafts[i].content.config in configs;
      }
    }
  }

  lemma DistinctKeys(drafts: seq<Draft>)
    requires forall i | 0 <= i < |drafts| :: drafts[i].Draft?
    ensures (forall i, j | 0 <= i < j < |drafts| :: drafts[i].content.key != drafts[j].content.key) <==> |KeysOf(drafts)| == |drafts|
  {
    var keys := seq(|drafts|, i requires 0 <= i < |drafts| => drafts[i].content.key);
    NoRepetitionExactly(keys);
    forall key ensures key in KeysOf(drafts) <==> key in Elements(keys) {
      if key in KeysOf(drafts) {
        var i :| 0 <= i < |drafts| && drafts[i].content.key == key;
        assert keys[i] == key;
      }
    }
    assert KeysOf(drafts) == Elements(keys);
    if NoRepetition(keys) {
      forall i, j | 0 <= i < j < |drafts| ensures drafts[i].content.key != drafts[j].content.key {
        assert keys[i] != keys[j];
      }
    }
  }
}
