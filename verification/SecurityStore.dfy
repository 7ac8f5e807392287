/**
 Knowledge-time versions of the security master (security_store.py): a hash chain of create-once
 files, rebuilt from whatever the directory lists, and resolved as of a cutoff.
 */
module SecurityStore {
  import opened Common

  const MAX_SECURITY_MASTER_VERSIONS: nat := 10000

  /**
   A version file.  Its version id (which is also the file name) and its record fingerprint are
   injective functions of it, so the two link fields of a successor amount to its predecessor.
   */
  datatype Version = Version(knownAt: int, previous: Option<Version>, source: string, master: string)

  datatype Error = Invalid | NotFound | Unavailable | Capacity | Io

  datatype Result<T> = Ok(value: T) | Err(error: Error)

  // ----- chains

  function Link(chain: seq<Version>, i: nat): Option<Version>
    requires i <= |chain|
  {
    if i == 0 then None else Some(chain[i - 1])
  }

  predicate LinkedAt(chain: seq<Version>, i: nat)
    requires i < |chain|
  {
    chain[i].previous == Link(chain, i)
  }

  ghost predicate Increasing(chain: seq<Version>) {
    forall i, j | 0 <= i < j < |chain| :: chain[i].knownAt < chain[j].knownAt
  }

  function KnownAt(v: Version): real {
    v.knownAt as real
  }

  ghost predicate Ordered(versions: seq<Version>) {
    AscendingBy(KnownAt, versions)
  }

  /** Ordered by knowledge time, without a tie, each version naming the one before it. */
  ghost predicate IsChain(chain: seq<Version>) {
    Increasing(chain) && forall i | 0 <= i < |chain| :: LinkedAt(chain, i)
  }

  function Members(chain: seq<Version>): set<Version> {
    set v | v in chain
  }

  /** The files are those of this chain. */
  ghost predicate Loads(files: set<Version>, chain: seq<Version>) {
    Members(chain) == files && IsChain(chain)
  }

  /** Which version is where in a chain is settled by its link. */
  lemma PlaceByLink(chain: seq<Version>, i: nat, j: nat)
    requires IsChain(chain) && i < |chain| && j <= |chain| && chain[i].previous == Link(chain, j)
    ensures i == j
  {
    assert LinkedAt(chain, i);
  }

  lemma {:induction false} SubsetChainIsPrefix(chain: seq<Version>, part: seq<Version>, n: nat)
    requires IsChain(chain) && IsChain(part) && Members(part) <= Members(chain) && n <= |part|
    ensures n <= |chain| && part[..n] == chain[..n]
  {
    if n > 0 {
      SubsetChainIsPrefix(chain, part, n - 1);
      assert part[n - 1] in Members(part);
      var i :| 0 <= i < |chain| && chain[i] == part[n - 1];
      assert part[..n - 1] == chain[..n - 1];
      assert LinkedAt(part, n - 1) && Link(part, n - 1) == Link(chain, n - 1) by {
        assert n > 1 ==> part[n - 2] == part[..n - 1][n - 2] == chain[..n - 1][n - 2] == chain[n - 2];
      }
      PlaceByLink(chain, i, n - 1);
    }
  }

  lemma PrefixIsChain(chain: seq<Version>, n: nat)
    requires IsChain(chain) && n <= |chain|
    ensures Loads(Members(chain[..n]), chain[..n])
  {
    var part := chain[..n];
    forall i | 0 <= i < n ensures LinkedAt(part, i) {
      assert LinkedAt(chain, i);
    }
  }

  /**
   Any subset of a valid chain's files, in any directory order, loads exactly when it is a prefix of
   the chain, and then the publication order is what is rebuilt.
   */
  lemma LoadsExactlyThePrefixes(chain: seq<Version>, files: set<Version>)
    requires IsChain(chain) && files <= Members(chain)
    ensures (exists part :: Loads(files, part)) <==> (exists n: nat :: n <= |chain| && files == Members(chain[..n]))
    ensures forall part | Loads(files, part) :: part <= chain
  {
    forall part | Loads(files, part) ensures part <= chain && files == Members(chain[..|part|]) {
      SubsetChainIsPrefix(chain, part, |part|);
      assert part[..|part|] == part;
    }
    if n: nat :| n <= |chain| && files == Members(chain[..n]) {
      PrefixIsChain(chain, n);
    }
  }

  /** The files determine the chain. */
  lemma LoadsOnce(files: set<Version>, a: seq<Version>, b: seq<Version>)
    requires Loads(files, a) && Loads(files, b)
    ensures a == b
  {
    SubsetChainIsPrefix(a, b, |b|);
    SubsetChainIsPrefix(b, a, |a|);
    assert a[..|a|] == a && b[..|b|] == b;
  }

  // ----- reading the directory

  lemma ChainIncreases(files: set<Version>, chain: seq<Version>)
    requires Loads(files, chain)
    ensures Increasing(chain)
  {
  }

  /** Reads the files in whatever order they come and sorts them by knowledge time. */
  method SortedByTime(files: set<Version>) returns (versions: seq<Version>)
    ensures Members(versions) == files && |versions| == |files| && Ordered(versions)
  {
    var listed: seq<Version> := [];
    var rest := files;
    while rest != {}
      invariant rest <= files && multiset(listed) == multiset(files - rest)
      decreases rest
    {
      var v :| v in rest;
      assert files - (rest - {v}) == (files - rest) + {v};
      rest := rest - {v};
      listed := listed + [v];
    }
    assert files - rest == files;
    versions := SortedBy(KnownAt, listed);
    MembersOf(versions, files);
  }

  /** `_load_chain` */
  method LoadChain(rooted: bool, files: set<Version>, missingOk: bool) returns (loaded: Result<seq<Version>>)
    ensures loaded.Ok? ==> (if rooted then Loads(files, loaded.value) && |loaded.value| <= MAX_SECURITY_MASTER_VERSIONS else loaded.value == [])
    ensures loaded.Ok? ==> missingOk || loaded.value != []
    ensures loaded.Err? && rooted ==>
      || |files| > MAX_SECURITY_MASTER_VERSIONS || (!missingOk && files == {}) || forall chain :: !Loads(files, chain)
    ensures loaded.Err? ==> loaded.error == Unavailable && (!rooted ==> !missingOk)
  {
    if !rooted {
      return if missingOk then Ok([]) else Err(Unavailable);
    }
    if |files| > MAX_SECURITY_MASTER_VERSIONS {
      return Err(Unavailable);
    }
    var versions := SortedByTime(files);
    var previous: Option<Version> := None;
    var i := 0;
    while i < |versions|
      invariant 0 <= i <= |versions| && previous == Link(versions, i)
      invariant forall k | 0 <= k < i :: LinkedAt(versions, k)
      invariant forall k | 0 <= k < i - 1 :: versions[k].knownAt < versions[k + 1].knownAt
    {
      var tied := i > 0 && versions[i - 1].knownAt == versions[i].knownAt;
      if tied || versions[i].previous != previous {
        assert tied || !LinkedAt(versions, i);
        NotTheChain(files, versions, i);
        return Err(Unavailable);
      }
      previous := Some(versions[i]);
      i := i + 1;
    }
    StrictlySorted(versions);
    if versions == [] && !missingOk {
      return Err(Unavailable);
    }
    loaded := Ok(versions);
  }

  /** Files that, sorted, show a tie or a wrong link are those of no chain. */
  lemma NotTheChain(files: set<Version>, versions: seq<Version>, i: nat)
    requires Members(versions) == files && |versions| == |files| && Ordered(versions) && i < |versions|
    requires !LinkedAt(versions, i) || (i > 0 && versions[i - 1].knownAt == versions[i].knownAt)
    ensures forall chain :: !Loads(files, chain)
  {
    forall chain ensures !Loads(files, chain) {
      if Loads(files, chain) {
        SortedIsTheChain(files, chain, versions);
      }
    }
  }

  lemma MembersOf(versions: seq<Version>, files: set<Version>)
    requires multiset(versions) == multiset(files)
    ensures Members(versions) == files && |versions| == |files|
  {
    assert |multiset(versions)| == |multiset(files)|;
    forall v ensures v in Members(versions) <==> v in files {
      assert v in versions <==> v in multiset(versions);
    }
  }

  lemma {:induction false} StrictlySorted(versions: seq<Version>)
    requires forall k | 0 <= k < |versions| - 1 :: versions[k].knownAt < versions[k + 1].knownAt
    ensures Increasing(versions)
  {
    if |versions| > 1 {
      var n := |versions| - 1;
      StrictlySorted(versions[..n]);
      forall i, j | 0 <= i < j < |versions| ensures versions[i].knownAt < versions[j].knownAt {
        assert versions[..n][i] == versions[i];
        assert j < n ==> versions[..n][j] == versions[j];
        assert versions[n - 1].knownAt < versions[n].knownAt;
        assert i < n - 1 ==> versions[..n][i].knownAt < versions[..n][n - 1].knownAt;
      }
    }
  }

  /** If the files are those of a chain, sorting them by knowledge time gives that chain. */
  lemma {:induction false} SortedIsTheChain(files: set<Version>, chain: seq<Version>, versions: seq<Version>)
    requires Loads(files, chain) && Members(versions) == files && |versions| == |files|
    requires Ordered(versions)
    ensures versions == chain
  {
    ChainSize(chain);
    SameSorted(chain, versions, |chain|);
    assert chain[..|chain|] == chain && versions[..|chain|] == versions;
  }

  lemma {:induction false} ChainSize(chain: seq<Version>)
    requires IsChain(chain)
    ensures |Members(chain)| == |chain|
  {
    if chain != [] {
      var n := |chain| - 1;
      PrefixIsChain(chain, n);
      ChainSize(chain[..n]);
      assert chain == chain[..n] + [chain[n]];
      assert Members(chain) == Members(chain[..n]) + {chain[n]};
    }
  }

  lemma {:induction false} SameSorted(chain: seq<Version>, versions: seq<Version>, n: nat)
    requires IsChain(chain) && Members(versions) == Members(chain) && |versions| == |chain| && n <= |chain|
    requires Ordered(versions)
    ensures versions[..n] == chain[..n]
  {
    if n > 0 {
      SameSorted(chain, versions, n - 1);
      var k := n - 1;
      assert forall i | 0 <= i < k :: versions[i] == versions[..k][i] == chain[..k][i] == chain[i];
      assert versions[k] in Members(chain) && chain[k] in Members(versions);
      var a :| 0 <= a < |chain| && chain[a] == versions[k];
      var b :| 0 <= b < |versions| && versions[b] == chain[k];
      if a < k {
        RepeatedIsShort(versions, a, k);
        ChainSize(chain);
      }
    }
  }

  /** A list with a repetition has fewer members than places. */
  lemma RepeatedIsShort(versions: seq<Version>, a: nat, k: nat)
    requires a < k < |versions| && versions[a] == versions[k]
    ensures |Members(versions)| < |versions|
  {
    var rest := versions[..k] + versions[k + 1..];
    assert forall v | v in versions :: v in rest by {
      forall v | v in versions ensures v in rest {
        var i :| 0 <= i < |versions| && versions[i] == v;
        var j := if i == k then a else i;
        assert rest[if j < k then j else j - 1] == v;
      }
    }
    assert Members(rest) == Members(versions);
    MembersAreFewer(rest);
  }

  lemma {:induction false} MembersAreFewer(s: seq<Version>)
    ensures |Members(s)| <= |s|
  {
    if s != [] {
      MembersAreFewer(s[..|s| - 1]);
      assert s == s[..|s| - 1] + [s[|s| - 1]];
      assert Members(s) == Members(s[..|s| - 1]) + {s[|s| - 1]};
    }
  }

  // ----- resolving

  /** The newest version known by the cutoff. */
  ghost predicate IsResolved(chain: seq<Version>, cutoff: int, v: Version) {
    v in chain && v.knownAt <= cutoff && forall w | w in chain && w.knownAt <= cutoff :: w.knownAt <= v.knownAt
  }

  ghost predicate Unknown(chain: seq<Version>, cutoff: int) {
    forall w | w in chain :: w.knownAt > cutoff
  }

  /** Later versions do not change what was resolved for an earlier cutoff, or that nothing was. */
  lemma ResolveIsStable(chain: seq<Version>, longer: seq<Version>, cutoff: int)
    requires IsChain(longer) && chain <= longer
    requires |chain| < |longer| ==> cutoff < longer[|chain|].knownAt
    ensures forall v :: IsResolved(longer, cutoff, v) <==> IsResolved(chain, cutoff, v)
    ensures Unknown(longer, cutoff) <==> Unknown(chain, cutoff)
  {
    forall k | |chain| <= k < |longer| ensures longer[k].knownAt > cutoff {
      assert k > |chain| ==> longer[|chain|].knownAt < longer[k].knownAt;
    }
    forall w | w in longer && w.knownAt <= cutoff ensures w in chain {
      var i :| 0 <= i < |longer| && longer[i] == w;
      assert chain[i] == w;
    }
    forall w | w in chain ensures w in longer {
      var i :| 0 <= i < |chain| && chain[i] == w;
      assert longer[i] == w;
    }
  }

  /** A chain resolves a cutoff to one version, or to none. */
  lemma ResolveIsUnique(chain: seq<Version>, cutoff: int, v: Version, w: Version)
    requires IsChain(chain) && IsResolved(chain, cutoff, v) && IsResolved(chain, cutoff, w)
    ensures v == w
  {
    var i :| 0 <= i < |chain| && chain[i] == v;
    var j :| 0 <= j < |chain| && chain[j] == w;
  }

  /**
   What becomes of creating the file and reading it back: it works; it fails and no file is there; or the file
   is there and the create or the reading back fails afterwards.
   */
  datatype Write = Works | Fails(directoryMade: bool) | FailsAfterwards

  /** What `publish` does with a version offered at a knowledge time. */
  datatype Verdict = Reuse | Extend | Refuse(error: Error)

  function VerdictOn(chain: seq<Version>, knownAt: int, source: string, master: string): Verdict {
    if chain != [] && knownAt < chain[|chain| - 1].knownAt then Refuse(Invalid)
    else if chain != [] && knownAt == chain[|chain| - 1].knownAt then
      if chain[|chain| - 1].master == master && chain[|chain| - 1].source == source then Reuse else Refuse(Invalid)
    else if |chain| >= MAX_SECURITY_MASTER_VERSIONS then Refuse(Capacity)
    else Extend
  }

  /**
   An error need not mean that nothing was published.  Offering the same version again is safe either way: it is
   reused if it is there, and extends the chain as it would have before if it is not.
   */
  lemma OfferingAgainIsSafe(chain: seq<Version>, knownAt: int, source: string, master: string)
    requires VerdictOn(chain, knownAt, source, master).Extend?
    ensures VerdictOn(chain + [Version(knownAt, Link(chain, |chain|), source, master)], knownAt, source, master).Reuse?
  {
  }

  /** What an accepted offer amounts to: the version is the newest of its chain and says what was offered. */
  predicate SaysSo(chain: seq<Version>, knownAt: int, source: string, master: string, v: Version) {
    && chain != [] && chain[|chain| - 1] == v
    && v.knownAt == knownAt && v.source == source && v.master == master
  }

  /**
   An offer is reused exactly when the newest version says the same, and extends the chain exactly when the
   longer list is a chain within the limit; every other offer is refused.
   */
  lemma VerdictExactly(chain: seq<Version>, knownAt: int, source: string, master: string)
    requires IsChain(chain)
    ensures var v := Version(knownAt, Link(chain, |chain|), source, master);
            var verdict := VerdictOn(chain, knownAt, source, master);
            && (verdict.Reuse? <==> chain != [] && SaysSo(chain, knownAt, source, master, chain[|chain| - 1]))
            && (verdict.Extend? <==> IsChain(chain + [v]) && |chain + [v]| <= MAX_SECURITY_MASTER_VERSIONS)
            && (verdict == Refuse(Capacity) <==> IsChain(chain + [v]) && |chain + [v]| > MAX_SECURITY_MASTER_VERSIONS)
            && (verdict.Refuse? ==> verdict.error == Invalid || verdict.error == Capacity)
  {
    var v := Version(knownAt, Link(chain, |chain|), source, master);
    var longer := chain + [v];
    forall i | 0 <= i < |longer| ensures LinkedAt(longer, i) {
      assert i < |chain| ==> LinkedAt(chain, i);
    }
    if chain != [] && knownAt <= chain[|chain| - 1].knownAt {
      assert longer[|chain| - 1].knownAt >= longer[|chain|].knownAt;
    }
  }

  class VersionStore {
    var rooted: bool
    var files: set<Version>
    ghost var chain: seq<Version>

    ghost predicate Valid()
      reads this
    {
      Loads(files, chain) && |chain| <= MAX_SECURITY_MASTER_VERSIONS && (!rooted ==> files == {})
    }

    constructor ()
      ensures Valid() && !rooted && chain == []
    {
      rooted := false;
      files := {};
      chain := [];
    }

    /** `publish`; a create that fails before the file is there may still have made the directory. */
    method Publish(knownAt: int, source: string, master: string, write: Write) returns (published: Result<Version>)
      requires Valid()
      modifies this
      ensures Valid() && old(chain) <= chain
      ensures published.Ok? ==> SaysSo(chain, knownAt, source, master, published.value)
      ensures match VerdictOn(old(chain), knownAt, source, master)
              case Refuse(error) => published == Err(error) && chain == old(chain)
              case Reuse => published == Ok(chain[|chain| - 1]) && chain == old(chain)
              case Extend =>
                && published == (if write.Works? then Ok(Version(knownAt, Link(old(chain), |old(chain)|), source, master)) else Err(Io))
                && chain == if write.Fails? then old(chain)
                            else old(chain) + [Version(knownAt, Link(old(chain), |old(chain)|), source, master)]
    {
      SizeOf(files, chain);
      var loaded := LoadChain(rooted, files, true);
      LoadedIs(rooted, files, chain, loaded);
      var versions := loaded.value;
      match VerdictOn(versions, knownAt, source, master) {
        case Refuse(error) => published := Err(error);
        case Reuse => published := Ok(versions[|versions| - 1]);
        case Extend =>
          if write.Fails? {
            rooted := rooted || write.directoryMade;
            return Err(Io);
          }
          var v := Version(knownAt, Link(versions, |versions|), source, master);
          ExtendedLoads(files, chain, v);
          rooted := true;
          files := files + {v};
          chain := chain + [v];
          published := if write.Works? then Ok(v) else Err(Io);
      }
    }

    /** `resolve` */
    method Resolve(cutoff: int) returns (resolved: Result<Version>)
      requires Valid()
      ensures chain == [] ==> resolved == Err(Unavailable)
      ensures chain != [] && Unknown(chain, cutoff) ==> resolved == Err(NotFound)
      ensures chain != [] && !Unknown(chain, cutoff) ==> resolved.Ok? && IsResolved(chain, cutoff, resolved.value)
    {
      hide Loads, IsChain;
      SizeOf(files, chain);
      var loaded := LoadChain(rooted, files, false);
      if loaded.Err? {
        return Err(Unavailable);
      }
      LoadedIs(rooted, files, chain, loaded);
      var versions := loaded.value;
      ChainIncreases(files, versions);
      var eligible: seq<Version> := [];
      var i := 0;
      while i < |versions|
        invariant 0 <= i <= |versions|
        invariant forall v | v in eligible :: v in versions && v.knownAt <= cutoff
        invariant forall k | 0 <= k < i && versions[k].knownAt <= cutoff ::
                    eligible != [] && versions[k].knownAt <= eligible[|eligible| - 1].knownAt
      {
        if versions[i].knownAt <= cutoff {
          eligible := eligible + [versions[i]];
        }
        i := i + 1;
      }
      if eligible == [] {
        return Err(NotFound);
      }
      assert eligible[|eligible| - 1] in eligible;
      resolved := Ok(eligible[|eligible| - 1]);
    }
  }

  lemma SizeOf(files: set<Version>, chain: seq<Version>)
    requires Loads(files, chain)
    ensures |files| == |chain| && (files == {} <==> chain == [])
  {
    ChainSize(chain);
  }

  lemma LoadedIs(rooted: bool, files: set<Version>, chain: seq<Version>, loaded: Result<seq<Version>>)
    requires Loads(files, chain) && (!rooted ==> files == {})
    requires loaded.Ok? && (if rooted then Loads(files, loaded.value) else loaded.value == [])
    ensures loaded.value == chain
  {
    SizeOf(files, chain);
    if rooted {
      LoadsOnce(files, chain, loaded.value);
    }
  }

  lemma ExtendedLoads(files: set<Version>, chain: seq<Version>, v: Version)
    requires Loads(files, chain) && v.previous == Link(chain, |chain|)
    requires chain != [] ==> chain[|chain| - 1].knownAt < v.knownAt
    ensures Loads(files + {v}, chain + [v])
  {
    var longer := chain + [v];
    forall i | 0 <= i < |longer| ensures LinkedAt(longer, i) {
      assert i < |chain| ==> LinkedAt(chain, i);
    }
    assert Members(longer) == Members(chain) + {v};
  }
}
