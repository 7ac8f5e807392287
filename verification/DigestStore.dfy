/** The digest store as the program works on it: verification of the files, and batches that may stop half-way. */
module DigestLedger {
  import opened Common
  import opened ResearchDigest

  // ----- reading and verifying the files

  /** Revision i + 1 of the key is the i-th record of the chain. */
  predicate InPlace(files: Files, key: Key, chain: seq<Record>, i: nat)
    requires i < |chain|
  {
    Slot(key, i + 1) in files && chain[i] == files[Slot(key, i + 1)]
  }

  /** `_chain_unlocked`: the revisions of one period, from the first up to the first gap. */
  method LoadChain(files: Files, key: Key) returns (chain: seq<Record>)
    ensures forall i | 0 <= i < |chain| :: InPlace(files, key, chain, i)
    ensures Slot(key, |chain| + 1) !in files
  {
    chain := [];
    ghost var rest := files.Keys;
    while Slot(key, |chain| + 1) in files
      invariant rest <= files.Keys
      invariant forall n: nat | n > |chain| && Slot(key, n) in files :: Slot(key, n) in rest
      invariant forall i | 0 <= i < |chain| :: InPlace(files, key, chain, i)
      decreases rest
    {
      rest := rest - {Slot(key, |chain| + 1)};
      var longer := chain + [files[Slot(key, |chain| + 1)]];
      forall i | 0 <= i < |longer| ensures InPlace(files, key, longer, i) {
        assert i < |chain| ==> InPlace(files, key, chain, i);
      }
      chain := longer;
    }
  }

  /** Every record is in its place and continues the one before it. */
  method CheckChain(key: Key, chain: seq<Record>) returns (ok: bool)
    ensures ok <==> ChainOk(key, chain)
  {
    if !PeriodOk(key) || !(1 <= |chain| <= MAX_REVISIONS_PER_CHAIN) {
      return false;
    }
    var previous: Option<Parent> := None;
    var i := 0;
    while i < |chain|
      invariant 0 <= i <= |chain|
      invariant previous == if i == 0 then None else Some(Parent(chain[i - 1].id, chain[i - 1]))
      invariant forall k | 0 <= k < i :: RecordAt(key, chain, k)
    {
      if chain[i].content.key != key || chain[i].revision != i + 1 || chain[i].supersedes != previous {
        assert !RecordAt(key, chain, i);
        return false;
      }
      previous := Some(Parent(chain[i].id, chain[i]));
      i := i + 1;
    }
    ok := true;
  }

  /** Adds the ids of one chain to those seen; refuses a repeated one. */
  method Register(chain: seq<Record>, seen: set<nat>) returns (ok: bool, after: set<nat>)
    ensures ok <==> Separate(chain, seen)
    ensures ok ==> forall id :: id in after <==> id in seen || exists i :: 0 <= i < |chain| && chain[i].id == id
  {
    after := seen;
    var i := 0;
    while i < |chain|
      invariant 0 <= i <= |chain|
      invariant forall id :: id in after <==> id in seen || exists k :: 0 <= k < i && chain[k].id == id
      invariant forall k | 0 <= k < i :: chain[k].id !in seen && forall j | 0 <= j < k :: chain[j].id != chain[k].id
    {
      if chain[i].id in after {
        return false, after;
      }
      after := after + {chain[i].id};
      i := i + 1;
    }
    ok := true;
  }

  predicate Separate(chain: seq<Record>, seen: set<nat>) {
    forall k | 0 <= k < |chain| :: chain[k].id !in seen && forall j | 0 <= j < k :: chain[j].id != chain[k].id
  }

  /** All chains of the account, unless the numbering of one has a gap. */
  method LoadAll(files: Files) returns (found: Option<Chains>)
    ensures found.Some? ==> Represents(files, found.value)
    ensures found.None? ==> forall chains :: !Represents(files, chains)
  {
    hide Represents, InPlace;
    var chains: Chains := map[];
    var rest := set slot | slot in files.Keys :: slot.key;
    ghost var keys := rest;
    while rest != {}
      invariant rest <= keys && chains.Keys == keys - rest
      invariant forall key | key in chains :: Loaded(files, key, chains[key])
      decreases rest
    {
      var key :| key in rest;
      rest := rest - {key};
      var chain := LoadChain(files, key);
      SomeSlot(files, key);
      if slot :| slot in files.Keys && slot.key == key && !(1 <= slot.revision <= |chain|) {
        forall other ensures !Represents(files, other) {
          if Represents(files, other) {
            LoadedIsChainOf(files, other, key, chain);
          }
        }
        return None;
      }
      CompleteIsLoaded(files, key, chain);
      chains := chains[key := chain];
    }
    LoadedIsRepresented(files, chains);
    found := Some(chains);
  }

  /** The checks over all chains together: each valid, ids unique, one configuration. */
  method CheckAccount(chains: Chains) returns (ok: bool)
    ensures ok <==> AccountOk(chains)
  {
    hide ChainOk, Separate, IdsUnique, IdIn, OneConfig;
    if |chains| > MAX_CHAINS_PER_ACCOUNT {
      return false;
    }
    var done: Chains := map[];
    var seen: set<nat> := {};
    var rest := chains.Keys;
    NoIds();
    while rest != {}
      invariant rest <= chains.Keys && done.Keys == chains.Keys - rest
      invariant forall key | key in done :: done[key] == chains[key] && ChainOk(key, chains[key])
      invariant IdsUnique(done) && forall id :: id in seen <==> IdIn(done, id)
      decreases rest
    {
      var key :| key in rest;
      rest := rest - {key};
      ok := CheckChain(key, chains[key]);
      if !ok { return; }
      var after;
      ok, after := Register(chains[key], seen);
      if !ok {
        RepeatedIdIsRefused(chains, done, key, seen);
        return;
      }
      OneMoreChain(done, key, chains[key], seen, after);
      done := done[key := chains[key]];
      seen := after;
    }
    assert done == chains;
    var configs := set key, i | key in chains && 0 <= i < |chains[key]| :: chains[key][i].content.config;
    OneConfigOrMore(chains, configs);
    ok := |configs| <= 1;
  }

  /** `_verify_account_unlocked`: the chains, exactly when everything about the files is in order. */
  method VerifyAccount(files: Files) returns (found: Option<Chains>)
    ensures found.Some? ==> Represents(files, found.value) && AccountOk(found.value)
    ensures found.None? ==> forall chains :: !(Represents(files, chains) && AccountOk(chains))
  {
    hide Represents, AccountOk;
    found := LoadAll(files);
    if found.Some? {
      var ok := CheckAccount(found.value);
      if !ok {
        forall other | Represents(files, other) ensures !AccountOk(other) {
          RepresentsOnce(files, other, found.value);
        }
        found := None;
      }
    }
  }

  predicate IdIn(chains: Chains, id: nat) {
    exists key, i | key in chains && 0 <= i < |chains[key]| :: chains[key][i].id == id
  }

  /** The chain holds exactly the files of its key. */
  ghost predicate Loaded(files: Files, key: Key, chain: seq<Record>) {
    && chain != []
    && (forall n: nat :: Slot(key, n) in files <==> 1 <= n <= |chain|)
    && forall i | 0 <= i < |chain| :: InPlace(files, key, chain, i)
  }

  lemma LoadedIsRepresented(files: Files, chains: Chains)
    requires chains.Keys == set slot | slot in files.Keys :: slot.key
    requires forall key | key in chains :: Loaded(files, key, chains[key])
    ensures Represents(files, chains)
  {
    forall slot ensures slot in files <==> Has(chains, slot.key, slot.revision - 1) {
      if slot.key in chains {
        assert Loaded(files, slot.key, chains[slot.key]);
        assert slot == Slot(slot.key, slot.revision);
      }
    }
    forall slot | slot in files ensures files[slot] == chains[slot.key][slot.revision - 1] {
      assert Has(chains, slot.key, slot.revision - 1);
      assert InPlace(files, slot.key, chains[slot.key], slot.revision - 1);
    }
  }

  lemma OneMoreChain(chains: Chains, key: Key, chain: seq<Record>, seen: set<nat>, after: set<nat>)
    requires key !in chains && IdsUnique(chains) && Separate(chain, seen)
    requires forall id :: id in seen <==> IdIn(chains, id)
    requires forall id :: id in after <==> id in seen || exists i :: 0 <= i < |chain| && chain[i].id == id
    ensures IdsUnique(chains[key := chain])
    ensures forall id :: id in after <==> IdIn(chains[key := chain], id)
  {
    var more := chains[key := chain];
    forall k, i, l, j | Has(more, k, i) && Has(more, l, j) && more[k][i].id == more[l][j].id ensures k == l && i == j {
      if k != key {
        assert Has(chains, k, i) && IdIn(chains, chains[k][i].id);
      }
      if l != key {
        assert Has(chains, l, j) && IdIn(chains, chains[l][j].id);
      }
    }
    forall id ensures id in after <==> IdIn(more, id) {
      if IdIn(chains, id) {
        var k, i :| k in chains && 0 <= i < |chains[k]| && chains[k][i].id == id;
        assert more[k][i].id == id;
      }
      if IdIn(more, id) {
        var k, i :| k in more && 0 <= i < |more[k]| && more[k][i].id == id;
        assert k != key ==> chains[k][i].id == id;
        assert k == key ==> chain[i].id == id;
      }
      if i :| 0 <= i < |chain| && chain[i].id == id {
        assert more[key][i].id == id;
      }
    }
  }

  lemma NoIds()
    ensures IdsUnique(map[]) && forall id: nat :: !IdIn(map[], id)
  {
  }

  lemma CompleteIsLoaded(files: Files, key: Key, chain: seq<Record>)
    requires forall i | 0 <= i < |chain| :: InPlace(files, key, chain, i)
    requires forall slot | slot in files.Keys && slot.key == key :: 1 <= slot.revision <= |chain|
    requires exists n: nat :: Slot(key, n) in files
    ensures Loaded(files, key, chain)
  {
    forall n: nat ensures Slot(key, n) in files <==> 1 <= n <= |chain| {
      if 1 <= n <= |chain| {
        assert InPlace(files, key, chain, n - 1);
      }
    }
  }

  lemma SomeSlot(files: Files, key: Key)
    requires key in set slot | slot in files.Keys :: slot.key
    ensures exists n: nat :: Slot(key, n) in files
  {
    var slot :| slot in files.Keys && slot.key == key;
    assert slot == Slot(key, slot.revision);
  }

  lemma LoadedIsChainOf(files: Files, other: Chains, key: Key, chain: seq<Record>)
    requires Represents(files, other) && exists n: nat :: Slot(key, n) in files
    requires forall i | 0 <= i < |chain| :: InPlace(files, key, chain, i)
    requires Slot(key, |chain| + 1) !in files
    ensures key in other && other[key] == chain
    ensures forall slot | slot in files && slot.key == key :: 1 <= slot.revision <= |chain|
  {
    var n: nat :| Slot(key, n) in files;
    assert Has(other, key, n - 1);
    assert !Has(other, key, |chain|);
    forall i | 0 <= i < |chain| ensures Has(other, key, i) && other[key][i] == chain[i] {
      assert InPlace(files, key, chain, i);
    }
    assert |other[key]| == |chain| by {
      assert Has(other, key, 0);
      assert |chain| > 0 ==> InPlace(files, key, chain, |chain| - 1) && Has(other, key, |chain| - 1);
    }
  }

  lemma RepeatedIdIsRefused(chains: Chains, done: Chains, key: Key, seen: set<nat>)
    requires key in chains && key !in done && forall k | k in done :: k in chains && done[k] == chains[k]
    requires forall id :: id in seen <==> IdIn(done, id)
    requires !Separate(chains[key], seen)
    ensures !IdsUnique(chains)
  {
    hide Separate;
    if IdsUnique(chains) {
      SeparateFrom(chains, done, key, seen);
    }
  }

  lemma SeparateFrom(other: Chains, chains: Chains, key: Key, seen: set<nat>)
    requires IdsUnique(other) && key in other && key !in chains
    requires forall k | k in chains :: k in other && other[k] == chains[k]
    requires forall id :: id in seen <==> IdIn(chains, id)
    ensures Separate(other[key], seen)
  {
    forall k | 0 <= k < |other[key]|
      ensures other[key][k].id !in seen && forall j | 0 <= j < k :: other[key][j].id != other[key][k].id
    {
      assert Has(other, key, k);
      if IdIn(chains, other[key][k].id) {
        var l, j :| l in chains && 0 <= j < |chains[l]| && chains[l][j].id == other[key][k].id;
        assert Has(other, l, j);
      }
      forall j | 0 <= j < k ensures other[key][j].id != other[key][k].id {
        assert Has(other, key, j);
      }
    }
  }

  lemma OneConfigOrMore(chains: Chains, configs: set<string>)
    requires configs == set key, i | key in chains && 0 <= i < |chains[key]| :: chains[key][i].content.config
    ensures OneConfig(chains) <==> |configs| <= 1
  {
    if OneConfig(chains) && configs != {} {
      var c := Pick(configs);
      forall d | d in configs ensures d == c {
        var k, i :| k in chains && 0 <= i < |chains[k]| && chains[k][i].content.config == c;
        var l, j :| l in chains && 0 <= j < |chains[l]| && chains[l][j].content.config == d;
        assert Has(chains, k, i) && Has(chains, l, j);
      }
      assert configs == {c};
    }
    if |configs| <= 1 {
      forall k, i, l, j | Has(chains, k, i) && Has(chains, l, j)
        ensures chains[k][i].content.config == chains[l][j].content.config
      {
        var c, d := chains[k][i].content.config, chains[l][j].content.config;
        assert c in configs && d in configs;
        assert |configs - {c}| == |configs| - 1;
      }
    }
  }

  // ----- appending a batch

  /** What becomes of one create: it may also be published and then fail its durability barrier or its re-read. */
  datatype Fault = Works | Fails | PublishesThenFails | LosesPower | PublishesThenLosesPower

  datatype Refusal = Invalid | Capacity

  /** A batch ends refused, complete, stopped with the results reported so far, or cut off by a power loss. */
  datatype BatchResult =
    | Refused(why: Refusal)
    | Complete(results: seq<Plan>)
    | Stopped(results: seq<Plan>)
    | CutOff

  ghost function Plans(chains: Chains, drafts: seq<Draft>, ids: seq<nat>, n: nat): (plans: seq<Plan>)
    requires n <= |drafts| == |ids| && forall i | 0 <= i < |drafts| :: drafts[i].Draft?
    ensures |plans| == n
  {
    seq(n, i requires 0 <= i < n => PlanFor(chains, drafts[i], ids[i]))
  }

  /** The file of the next plan extends the files the way the plan extends the chains. */
  lemma PlanIsRepresented(files: Files, chains: Chains, draft: Draft, id: nat)
    requires Represents(files, chains) && draft.Draft? && !Reuses(chains, draft)
    ensures var record := RecordFor(chains, draft, id);
            && Slot(draft.content.key, record.revision) !in files
            && Represents(files[Slot(draft.content.key, record.revision) := record], Carried(chains, Plan(record, true)))
  {
    var record := RecordFor(chains, draft, id);
    var key := draft.content.key;
    var slot := Slot(key, record.revision);
    var after := Carried(chains, Plan(record, true));
    assert after[key] == ChainFor(chains, key) + [record];
    forall s ensures s in files[slot := record] <==> Has(after, s.key, s.revision - 1) {
      assert s in files <==> Has(chains, s.key, s.revision - 1);
    }
  }

  /** A draft that starts a chain when the account is full, or extends a full chain, shows the batch does not fit. */
  lemma NoRoomMeansNotFits(chains: Chains, drafts: seq<Draft>, n: nat)
    requires WellFormed(drafts) && n < |drafts| && !Reuses(chains, drafts[n])
    requires
      || |ChainFor(chains, drafts[n].content.key)| >= MAX_REVISIONS_PER_CHAIN
      || (drafts[n].content.key !in chains && |chains| + NewChains(chains, drafts, n) >= MAX_CHAINS_PER_ACCOUNT)
    ensures !Fits(chains, drafts)
  {
    NewChainsGrow(chains, drafts, n + 1, |drafts|);
  }

  lemma SameConfigs(chains: Chains, configs: set<string>, config: string)
    requires configs == set key, i | key in chains && 0 <= i < |chains[key]| :: chains[key][i].content.config
    ensures SameEpoch(chains, config) <==> configs == {} || configs == {config}
  {
    if configs == {} || configs == {config} {
      forall k, i | Has(chains, k, i) ensures chains[k][i].content.config == config {
        assert chains[k][i].content.config in configs;
      }
    }
    if SameEpoch(chains, config) && configs != {} {
      forall c | c in configs ensures c == config {
        var k, i :| k in chains && 0 <= i < |chains[k]| && chains[k][i].content.config == c;
        assert Has(chains, k, i);
      }
      assert Pick(configs) in configs;
    }
  }

  lemma PlansAnswer(chains: Chains, drafts: seq<Draft>, ids: seq<nat>)
    requires |drafts| == |ids| && forall i | 0 <= i < |drafts| :: drafts[i].Draft?
    ensures forall i | 0 <= i < |drafts| :: AnswersDraft(chains, drafts[i], Plans(chains, drafts, ids, |drafts|)[i])
  {
    hide AnswersDraft, PlanFor;
    forall i | 0 <= i < |drafts| ensures AnswersDraft(chains, drafts[i], PlanFor(chains, drafts[i], ids[i])) {
      PlanAnswers(chains, drafts[i], ids[i]);
    }
  }

  lemma PlansLand(chains: Chains, drafts: seq<Draft>, ids: seq<nat>, n: nat)
    requires BatchOk(chains, drafts) && n <= |drafts| == |ids|
    ensures AllLanded(chains, After(chains, drafts, ids, n), drafts, Plans(chains, drafts, ids, n))
  {
    hide WellFormed, After, PlanFor, AllLanded, Fits, SameEpoch;
    DraftsAreThere(drafts);
    PrefixLands(chains, drafts, ids, n, Plans(chains, drafts, ids, n));
  }

  class DigestStore {
    var files: Files
    var operations: nat
    const faults: nat -> Fault
    ghost var chains: Chains

    /** The files are those of an account that verifies and whose neighbouring revisions differ. */
    ghost predicate Valid()
      reads this
    {
      Represents(files, chains) && StoreOk(chains)
    }

    constructor (faults: nat -> Fault)
      ensures Valid() && files == map[] && chains == map[]
    {
      this.faults := faults;
      operations := 0;
      files := map[];
      chains := map[];
    }

    /** `verify`: on a store that only batches have written it always succeeds. */
    method Verify() returns (found: Chains)
      requires Valid()
      ensures found == chains && |found| <= MAX_CHAINS_PER_ACCOUNT
    {
      var verified := VerifyAccount(files);
      assert AccountOk(chains);
      RepresentsOnce(files, chains, verified.value);
      found := verified.value;
    }

    /** The preflight: every draft is planned, in order, before anything is written. */
    method Preflight(drafts: seq<Draft>, ids: seq<nat>) returns (plans: Option<seq<Plan>>, why: Refusal)
      requires Valid() && |ids| == |drafts|
      ensures plans.Some? <==> BatchOk(chains, drafts)
      ensures plans.Some? ==> plans.value == Plans(chains, drafts, ids, |drafts|)
      ensures plans.Some? ==> forall i | 0 <= i < |drafts| :: drafts[i].Draft? && AnswersDraft(chains, drafts[i], plans.value[i])
      ensures plans.None? ==> why == (if WellFormed(drafts) && SameEpoch(chains, drafts[0].content.config) then Capacity else Invalid)
    {
      hide WellFormed, StoreOk, Reuses, RecordFor, Carried, Represents, AnswersDraft, SameEpoch, PeriodOk;
      plans, why := None, Invalid;
      if !WellFormed(drafts) {
        return;
      }
      var chainMap: Chains := Verify();
      var configs := set key, i | key in chainMap && 0 <= i < |chainMap[key]| :: chainMap[key][i].content.config;
      SameConfigs(chains, configs, FirstConfig(drafts));
      if configs != {} && configs != {FirstConfig(drafts)} {
        return;
      }
      why := Capacity;
      DraftsAreThere(drafts);
      var made: seq<Plan> := [];
      var chainCount := |chainMap|;
      while |made| < |drafts|
        invariant |made| <= |drafts|
        invariant made == Plans(chains, drafts, ids, |made|) && chainMap == After(chains, drafts, ids, |made|)
        invariant chainCount == |chains| + NewChains(chains, drafts, |made|)
        invariant forall i | 0 <= i < |made| && !Reuses(chains, drafts[i]) ::
                    |ChainFor(chains, drafts[i].content.key)| < MAX_REVISIONS_PER_CHAIN
        invariant chainCount <= MAX_CHAINS_PER_ACCOUNT
      {
        var n := |made|;
        SamePlan(chains, drafts, ids, n);
        var plan := PlanFor(chainMap, drafts[n], ids[n]);
        var key := drafts[n].content.key;
        NewHasNoChain(chains, drafts[n]);
        if plan.created {
          if |ChainFor(chainMap, key)| >= MAX_REVISIONS_PER_CHAIN {
            NoRoomMeansNotFits(chains, drafts, n);
            return;
          }
          if key !in chainMap {
            if chainCount >= MAX_CHAINS_PER_ACCOUNT {
              NoRoomMeansNotFits(chains, drafts, n);
              return;
            }
            chainCount := chainCount + 1;
          }
        }
        chainMap := Carried(chainMap, plan);
        made := made + [plan];
      }
      plans := Some(made);
      PlansAnswer(chains, drafts, ids);
    }

    /**
     `append_many_with_results`: a refused batch writes nothing; a stopped one leaves exactly the
     reported results; a complete one leaves all of them.
     */
    method AppendMany(drafts: seq<Draft>, ids: seq<nat>) returns (result: BatchResult)
      requires Valid() && |ids| == |drafts| && FreshIds(chains, ids)
      modifies this
      ensures Valid()
      ensures match result
              case Refused(why) => files == old(files) && chains == old(chains) && !BatchOk(old(chains), drafts)
                && why == (if WellFormed(drafts) && SameEpoch(old(chains), drafts[0].content.config) then Capacity else Invalid)
              case Complete(results) => BatchOk(old(chains), drafts) && |results| == |drafts|
                && AllLanded(old(chains), chains, drafts, results)
              case Stopped(results) => BatchOk(old(chains), drafts) && AllLanded(old(chains), chains, drafts, results)
              case CutOff => BatchOk(old(chains), drafts) && exists results :: AllLanded(old(chains), chains, drafts, results)
      ensures !result.Refused? ==> BatchOk(old(chains), drafts) && Carries(old(chains), drafts, ids, chains, result)
      ensures (forall k :: faults(k) == Works) ==> result.Refused? || result.Complete?
    {
      hide StoreOk, Represents, WellFormed, SameEpoch, Fits, FreshIds, AllLanded, AnswersDraft, After, PlanFor;
      var plans, why := Preflight(drafts, ids);
      if plans.None? {
        return Refused(why);
      }
      ghost var before := chains;
      result := CommitPlans(drafts, ids, plans.value);
      DraftsAreThere(drafts);
      ghost var n :| 0 <= n <= |drafts| && chains == After(before, drafts, ids, n)
        && (result.CutOff? || result.results == Plans(before, drafts, ids, n)) && (result.Complete? ==> n == |drafts|);
      PlansLand(before, drafts, ids, n);
    }

    /** The second half: one file after the other. */
    method CommitPlans(drafts: seq<Draft>, ids: seq<nat>, plans: seq<Plan>) returns (result: BatchResult)
      requires Valid() && |ids| == |drafts| && FreshIds(chains, ids) && BatchOk(chains, drafts)
      requires plans == Plans(chains, drafts, ids, |drafts|)
      modifies this
      ensures Valid() && !result.Refused? && Carries(old(chains), drafts, ids, chains, result)
      ensures (forall k :: faults(k) == Works) ==> result.Complete?
    {
      hide StoreOk, Represents, Reuses, RecordFor, Carried, SameEpoch, Fits, FreshIds, NoneOf, Carries, WellFormed;
      DraftsAreThere(drafts);
      ghost var before := chains;
      var results: seq<Plan> := [];
      while |results| < |drafts|
        invariant |results| <= |drafts| && Represents(files, chains)
        invariant chains == After(before, drafts, ids, |results|) && results == Plans(before, drafts, ids, |results|)
        modifies this
      {
        var n := |results|;
        var plan := plans[n];
        PrefixIsOk(before, drafts, ids, n);
        PrefixIsOk(before, drafts, ids, n + 1);
        SamePlan(before, drafts, ids, n);
        CarriedNothing(chains, drafts[n], ids[n]);
        if plan.created {
          PlanIsRepresented(files, chains, drafts[n], ids[n]);
          var fault := faults(operations);
          operations := operations + 1;
          if !fault.Fails? && !fault.LosesPower? {
            files := files[Slot(drafts[n].content.key, plan.record.revision) := plan.record];
            chains := Carried(chains, plan);
          }
          if fault.Fails? || fault.LosesPower? {
            CarriesUpTo(before, drafts, ids, n);
            return if fault.Fails? then Stopped(results) else CutOff;
          }
          results := results + [plan];
          if !fault.Works? {
            assert results == Plans(before, drafts, ids, n + 1);
            CarriesUpTo(before, drafts, ids, n + 1);
            return if fault.PublishesThenFails? then Stopped(results) else CutOff;
          }
        } else {
          results := results + [plan];
        }
      }
      PrefixIsOk(before, drafts, ids, |drafts|);
      CarriesUpTo(before, drafts, ids, |drafts|);
      result := Complete(results);
    }
  }

  /** The chains are those after some prefix of the batch: the reported results, or all of it. */
  ghost predicate Carries(before: Chains, drafts: seq<Draft>, ids: seq<nat>, after: Chains, result: BatchResult)
    requires BatchOk(before, drafts) && |ids| == |drafts|
  {
    exists n ::
      && 0 <= n <= |drafts| && after == After(before, drafts, ids, n)
      && (result.Complete? || result.Stopped? ==> result.results == Plans(before, drafts, ids, n))
      && (result.Complete? ==> n == |drafts|)
  }

  lemma CarriesUpTo(before: Chains, drafts: seq<Draft>, ids: seq<nat>, n: nat)
    requires BatchOk(before, drafts) && n <= |drafts| == |ids|
    ensures Carries(before, drafts, ids, After(before, drafts, ids, n), Stopped(Plans(before, drafts, ids, n)))
    ensures Carries(before, drafts, ids, After(before, drafts, ids, n), CutOff)
    ensures n == |drafts| ==> Carries(before, drafts, ids, After(before, drafts, ids, n), Complete(Plans(before, drafts, ids, n)))
  {
    hide After, WellFormed, PlanFor;
  }

  function FirstConfig(drafts: seq<Draft>): string
    requires WellFormed(drafts)
  {
    drafts[0].content.config
  }
}
