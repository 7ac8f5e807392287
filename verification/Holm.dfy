/** Holm's correction of a family of p-values (research_statistics.py, `apply_holm_correction`). */
module Holm {
  import opened Common

  // ----- the specification, which does not mention an order

  /** How many p-values lie below v. */
  function CountBelow(p: seq<real>, v: real): (n: nat)
    ensures n <= |p|
  {
    if p == [] then 0 else CountBelow(p[..|p| - 1], v) + if p[|p| - 1] < v then 1 else 0
  }

  function Scaled(n: int, v: real): real {
    n as real * v
  }

  lemma ScaledGrows(m: int, n: int, v: real)
    requires m <= n && 0.0 <= v
    ensures Scaled(m, v) <= Scaled(n, v)
  {
  }

  function AtMostOne(x: real): real {
    if x <= 1.0 then x else 1.0
  }

  function Corrected(p: seq<real>, v: real): real {
    AtMostOne(Scaled(|p| - CountBelow(p, v), v))
  }

  /** The adjusted value of a p-value x: the largest corrected value among the p-values up to x. */
  ghost predicate IsAdjusted(p: seq<real>, x: real, adjusted: real) {
    && (forall j | 0 <= j < |p| && p[j] <= x :: Corrected(p, p[j]) <= adjusted)
    && exists j | 0 <= j < |p| && p[j] <= x :: Corrected(p, p[j]) == adjusted
  }

  lemma AdjustedIsUnique(p: seq<real>, x: real, a: real, b: real)
    requires IsAdjusted(p, x, a) && IsAdjusted(p, x, b)
    ensures a == b
  {
  }

  // ----- counting

  lemma {:induction false} CountSplits(a: seq<real>, b: seq<real>, v: real)
    ensures CountBelow(a + b, v) == CountBelow(a, v) + CountBelow(b, v)
  {
    if b == [] {
      assert a + b == a;
    } else {
      assert (a + b)[..|a + b| - 1] == a + b[..|b| - 1];
      CountSplits(a, b[..|b| - 1], v);
    }
  }

  lemma CountWithout(q: seq<real>, k: nat, v: real)
    requires k < |q|
    ensures CountBelow(q, v) == CountBelow(q[..k] + q[k + 1..], v) + if q[k] < v then 1 else 0
  {
    hide CountBelow;
    assert q == q[..k] + ([q[k]] + q[k + 1..]);
    CountSplits(q[..k], [q[k]] + q[k + 1..], v);
    CountSplits([q[k]], q[k + 1..], v);
    CountSplits(q[..k], q[k + 1..], v);
    CountOne(q[k], v);
  }

  lemma CountOne(x: real, v: real)
    ensures CountBelow([x], v) == if x < v then 1 else 0
  {
    assert [x][..0] == [];
  }

  lemma {:induction false} CountIgnoresOrder(p: seq<real>, q: seq<real>, v: real)
    requires multiset(p) == multiset(q)
    ensures CountBelow(p, v) == CountBelow(q, v) && |p| == |q|
    decreases |p|
  {
    hide CountBelow;
    assert |multiset(p)| == |multiset(q)|;
    if p != [] {
      assert p[0] in multiset(q);
      var k :| 0 <= k < |q| && q[k] == p[0];
      WithoutOne(q, k);
      WithoutOne(p, 0);
      CountIgnoresOrder(p[..0] + p[1..], q[..k] + q[k + 1..], v);
      CountWithout(q, k, v);
      CountWithout(p, 0, v);
    } else {
      assert q == [];
    }
  }

  predicate Ordered(q: seq<real>) {
    forall a, b | 0 <= a < b < |q| :: q[a] <= q[b]
  }

  lemma {:induction false} CountInOrdered(q: seq<real>, r: nat, n: nat)
    requires Ordered(q) && r < |q| && n <= |q|
    ensures n <= r ==> CountBelow(q[..n], q[r]) <= n
    ensures n <= r && r > 0 && q[r - 1] < q[r] ==> CountBelow(q[..n], q[r]) == n
    ensures n > r ==> CountBelow(q[..n], q[r]) <= r
    ensures n > r && (r == 0 || q[r - 1] < q[r]) ==> CountBelow(q[..n], q[r]) == r
  {
    if n > 0 {
      CountInOrdered(q, r, n - 1);
      assert q[..n][..n - 1] == q[..n - 1];
    }
  }

  /** In sorted order, at most `rank` values lie below the one of that rank; exactly so at the first of its ties. */
  lemma BelowIsRank(p: seq<real>, q: seq<real>, rank: nat)
    requires multiset(p) == multiset(q) && Ordered(q) && rank < |q|
    ensures CountBelow(p, q[rank]) <= rank
    ensures rank == 0 || q[rank - 1] < q[rank] ==> CountBelow(p, q[rank]) == rank
  {
    CountIgnoresOrder(p, q, q[rank]);
    CountInOrdered(q, rank, |q|);
    assert q[..|q|] == q;
  }

  // ----- the program

  function Values(p: seq<real>, order: seq<nat>): (q: seq<real>)
    requires InRange(order, |p|)
    ensures |q| == |order| && forall a | 0 <= a < |q| :: q[a] == p[order[a]]
  {
    seq(|order|, a requires 0 <= a < |order| => p[order[a]])
  }

  predicate InRange(order: seq<nat>, n: nat) {
    forall a | 0 <= a < |order| :: order[a] < n
  }

  /** Every index below n is somewhere in the order. */
  ghost predicate Covers(order: seq<nat>, n: nat) {
    forall i: nat | i < n :: i in order
  }

  function PValueKey(p: seq<real>): nat -> real {
    (i: nat) => if i < |p| then p[i] else 0.0
  }

  function Indices(m: nat): (r: seq<nat>)
    ensures |r| == m && forall i | 0 <= i < m :: r[i] == i
  {
    seq(m, i requires 0 <= i < m => i)
  }

  /** The indices sorted by p-value; ties stay in index order. */
  method SortedIndices(p: seq<real>) returns (order: seq<nat>)
    ensures |order| == |p| && InRange(order, |p|) && Covers(order, |p|)
    ensures Ordered(Values(p, order)) && multiset(Values(p, order)) == multiset(p)
  {
    order := SortedBy(PValueKey(p), Indices(|p|));
    PermutedIndices(p, order);
    assert forall a | 0 <= a < |order| :: PValueKey(p)(order[a]) == Values(p, order)[a];
  }

  /** A rearrangement of the indices lists every index, and the p-values rearranged with them. */
  lemma PermutedIndices(p: seq<real>, order: seq<nat>)
    requires multiset(order) == multiset(Indices(|p|))
    ensures |order| == |p| && InRange(order, |p|) && Covers(order, |p|)
    ensures multiset(Values(p, order)) == multiset(p)
  {
    var all := Indices(|p|);
    assert |multiset(order)| == |multiset(all)|;
    forall a | 0 <= a < |order| ensures order[a] < |p| {
      assert order[a] in multiset(all);
    }
    forall i: nat | i < |p| ensures i in order {
      assert all[i] in multiset(order);
    }
    SameValues(p, order, all);
    assert Values(p, all) == p;
  }

  lemma ValuesWithout(p: seq<real>, t: seq<nat>, k: nat)
    requires InRange(t, |p|) && k < |t|
    ensures InRange(t[..k] + t[k + 1..], |p|)
    ensures multiset(Values(p, t)) == multiset(Values(p, t[..k] + t[k + 1..])) + multiset{p[t[k]]}
  {
    var q := Values(p, t);
    assert Values(p, t[..k] + t[k + 1..]) == q[..k] + q[k + 1..];
    assert q == q[..k] + [q[k]] + q[k + 1..];
  }

  lemma {:induction false} SameValues(p: seq<real>, s: seq<nat>, t: seq<nat>)
    requires multiset(s) == multiset(t) && InRange(s, |p|) && InRange(t, |p|)
    ensures multiset(Values(p, s)) == multiset(Values(p, t))
    decreases |s|
  {
    hide Values, InRange;
    assert |multiset(s)| == |multiset(t)|;
    if s != [] {
      assert s[0] in multiset(t);
      var k :| 0 <= k < |t| && t[k] == s[0];
      WithoutOne(t, k);
      WithoutOne(s, 0);
      ValuesWithout(p, s, 0);
      ValuesWithout(p, t, k);
      SameValues(p, s[..0] + s[1..], t[..k] + t[k + 1..]);
      ElementInRange(p, t, k);
    } else {
      assert t == [];
    }
  }

  lemma ElementInRange(p: seq<real>, t: seq<nat>, k: nat)
    requires InRange(t, |p|) && k < |t|
    ensures t[k] < |p|
  {
  }

  /** The running maximum after one more rank is the adjusted value of that rank. */
  lemma RunningMaximum(p: seq<real>, q: seq<real>, rank: nat, running: real)
    requires multiset(p) == multiset(q) && Ordered(q) && rank < |q| && forall i | 0 <= i < |p| :: 0.0 <= p[i]
    requires if rank == 0 then running == 0.0 else IsAdjusted(p, q[rank - 1], running)
    ensures IsAdjusted(p, q[rank], Max(running, AtMostOne(Scaled(|p| - rank, q[rank]))))
  {
    hide Scaled, CountBelow;
    var x := q[rank];
    assert x in multiset(p);
    var at :| 0 <= at < |p| && p[at] == x;
    BelowIsRank(p, q, rank);
    ScaledGrows(|p| - rank, |p| - CountBelow(p, x), x);
    if rank > 0 && q[rank - 1] == x {
      assert Corrected(p, p[at]) <= running;
    } else {
      EarlierRanks(p, q, rank);
      ScaledIsPositive(|p| - rank, x);
      assert Corrected(p, p[at]) == AtMostOne(Scaled(|p| - rank, x));
    }
  }

  lemma ScaledIsPositive(n: nat, v: real)
    requires 0.0 <= v
    ensures 0.0 <= Scaled(n, v)
  {
  }

  /** A smaller p-value has an earlier rank. */
  lemma EarlierRanks(p: seq<real>, q: seq<real>, rank: nat)
    requires multiset(p) == multiset(q) && Ordered(q) && rank < |q|
    ensures forall j | 0 <= j < |p| && p[j] < q[rank] :: rank > 0 && p[j] <= q[rank - 1]
    ensures |p| == |q|
  {
    assert |multiset(p)| == |multiset(q)|;
    forall j | 0 <= j < |p| && p[j] < q[rank] ensures rank > 0 && p[j] <= q[rank - 1] {
      assert p[j] in multiset(q);
      var b :| 0 <= b < |q| && q[b] == p[j];
    }
  }

  /** The slots of the first ranks hold their adjusted values. */
  ghost predicate Filled(p: seq<real>, order: seq<nat>, adjusted: seq<real>, rank: nat)
    requires rank <= |order| && InRange(order, |p|) && |adjusted| == |p|
  {
    forall a | 0 <= a < rank :: IsAdjusted(p, p[order[a]], adjusted[order[a]])
  }

  lemma OneMoreFilled(p: seq<real>, order: seq<nat>, adjusted: seq<real>, rank: nat, value: real)
    requires rank < |order| && InRange(order, |p|) && |adjusted| == |p| && Filled(p, order, adjusted, rank)
    requires IsAdjusted(p, p[order[rank]], value)
    ensures Filled(p, order, adjusted[order[rank] := value], rank + 1)
  {
    hide IsAdjusted;
  }

  lemma AllFilled(p: seq<real>, order: seq<nat>, adjusted: seq<real>)
    requires InRange(order, |p|) && Covers(order, |p|) && |adjusted| == |p| && Filled(p, order, adjusted, |order|)
    ensures forall i | 0 <= i < |p| :: IsAdjusted(p, p[i], adjusted[i])
  {
    hide IsAdjusted;
    forall i | 0 <= i < |p| ensures IsAdjusted(p, p[i], adjusted[i]) {
      IsSomewhere(order, |p|, i);
      var a :| 0 <= a < |order| && order[a] == i;
    }
  }

  /** Holm's step-down pass: a running maximum over the ranks, stored back under the original indices. */
  method AdjustAll(p: seq<real>) returns (values: seq<real>)
    requires forall i | 0 <= i < |p| :: 0.0 <= p[i] <= 1.0
    ensures |values| == |p| && forall i | 0 <= i < |p| :: IsAdjusted(p, p[i], values[i])
  {
    hide IsAdjusted, Scaled, AtMostOne, Ordered, Covers, Filled;
    var familySize := |p|;
    var adjusted := new real[familySize](_ => 0.0);
    var order := SortedIndices(p);
    var runningMaximum := 0.0;
    NoneFilled(p, order, adjusted[..]);
    for rank := 0 to familySize
      invariant if rank == 0 then runningMaximum == 0.0 else IsAdjusted(p, Values(p, order)[rank - 1], runningMaximum)
      invariant Filled(p, order, adjusted[..], rank)
    {
      var index := order[rank];
      RunningMaximum(p, Values(p, order), rank, runningMaximum);
      var corrected := AtMostOne(Scaled(familySize - rank, p[index]));
      runningMaximum := Max(runningMaximum, corrected);
      OneMoreFilled(p, order, adjusted[..], rank, runningMaximum);
      adjusted[index] := runningMaximum;
    }
    AllFilled(p, order, adjusted[..]);
    values := adjusted[..];
  }

  lemma NoneFilled(p: seq<real>, order: seq<nat>, adjusted: seq<real>)
    requires InRange(order, |p|) && |adjusted| == |p|
    ensures Filled(p, order, adjusted, 0)
  {
  }

  datatype Outcome = Outcome(adjusted: real, rejected: bool)

  /** `apply_holm_correction`; nothing is returned for an empty family, a value outside [0, 1] or a bad level. */
  method ApplyHolm(p: seq<real>, alpha: real) returns (results: Option<seq<Outcome>>)
    ensures results.Some? <==> p != [] && 0.0 < alpha <= 0.05 && forall i | 0 <= i < |p| :: 0.0 <= p[i] <= 1.0
    ensures results.Some? ==> |results.value| == |p| && forall i | 0 <= i < |p| ::
              IsAdjusted(p, p[i], results.value[i].adjusted) && (results.value[i].rejected <==> results.value[i].adjusted <= alpha)
  {
    hide IsAdjusted;
    if p == [] || !(0.0 < alpha <= 0.05) {
      return None;
    }
    for index := 0 to |p|
      invariant forall i | 0 <= i < index :: 0.0 <= p[i] <= 1.0
    {
      if !(0.0 <= p[index] <= 1.0) {
        return None;
      }
    }
    var adjusted := AdjustAll(p);
    var found: seq<Outcome> := [];
    for index := 0 to |p|
      invariant |found| == index
      invariant forall i | 0 <= i < index :: found[i] == Outcome(adjusted[i], adjusted[i] <= alpha)
    {
      found := found + [Outcome(adjusted[index], adjusted[index] <= alpha)];
    }
    results := Some(found);
  }

  lemma IsSomewhere(order: seq<nat>, n: nat, i: nat)
    requires Covers(order, n) && i < n
    ensures exists a :: 0 <= a < |order| && order[a] == i
  {
    assert i in order;
  }

  // ----- what the correction promises

  /** Equal p-values get the same one adjusted value, and permuting the family permutes the results with it. */
  lemma OrderDoesNotMatter(p: seq<real>, q: seq<real>, x: real, adjusted: real)
    requires multiset(p) == multiset(q)
    ensures IsAdjusted(p, x, adjusted) <==> IsAdjusted(q, x, adjusted)
    ensures IsAdjusted(p, x, adjusted) ==> forall other | IsAdjusted(q, x, other) :: other == adjusted
  {
    if IsAdjusted(p, x, adjusted) {
      AlsoAdjusted(p, q, x, adjusted);
      forall other | IsAdjusted(q, x, other) ensures other == adjusted {
        AdjustedIsUnique(q, x, other, adjusted);
      }
    }
    if IsAdjusted(q, x, adjusted) {
      AlsoAdjusted(q, p, x, adjusted);
    }
  }

  lemma AlsoAdjusted(p: seq<real>, q: seq<real>, x: real, adjusted: real)
    requires multiset(p) == multiset(q) && IsAdjusted(p, x, adjusted)
    ensures IsAdjusted(q, x, adjusted)
  {
    hide Corrected;
    forall j | 0 <= j < |q| && q[j] <= x ensures Corrected(q, q[j]) <= adjusted {
      assert q[j] in multiset(p);
      var i :| 0 <= i < |p| && p[i] == q[j];
      SameCorrection(p, q, p[i]);
    }
    var i :| 0 <= i < |p| && p[i] <= x && Corrected(p, p[i]) == adjusted;
    assert p[i] in multiset(q);
    var j :| 0 <= j < |q| && q[j] == p[i];
    SameCorrection(p, q, p[i]);
  }

  lemma SameCorrection(p: seq<real>, q: seq<real>, v: real)
    requires multiset(p) == multiset(q)
    ensures Corrected(p, v) == Corrected(q, v)
  {
    CountIgnoresOrder(p, q, v);
  }

  /** Adjusting never lowers a p-value, never leaves [0, 1], and keeps the order of the family. */
  lemma AdjustmentIsMonotone(p: seq<real>, i: nat, j: nat, a: real, b: real)
    requires i < |p| && j < |p| && forall k | 0 <= k < |p| :: 0.0 <= p[k] <= 1.0
    requires IsAdjusted(p, p[i], a) && IsAdjusted(p, p[j], b)
    ensures p[i] <= a <= 1.0
    ensures p[i] <= p[j] ==> a <= b
  {
    hide CountBelow, Scaled;
    NotAllBelow(p, i);
    ScaledGrows(1, |p| - CountBelow(p, p[i]), p[i]);
    ScaledOnce(p[i]);
    assert Corrected(p, p[i]) <= a;
  }

  lemma ScaledOnce(v: real)
    ensures Scaled(1, v) == v
  {
  }

  lemma {:induction false} NotAllBelow(p: seq<real>, i: nat)
    requires i < |p|
    ensures CountBelow(p, p[i]) < |p|
  {
    var n := |p| - 1;
    if i < n {
      NotAllBelow(p[..n], i);
    }
  }

  /** Members of a set of indices whose p-values are at least v are not counted below v. */
  lemma {:induction false} SetIsNotBelow(p: seq<real>, members: set<nat>, v: real)
    requires forall i | i in members :: i < |p| && p[i] >= v
    ensures |members| + CountBelow(p, v) <= |p|
  {
    if p == [] {
      assert members == {};
    } else {
      var n := |p| - 1;
      SetIsNotBelow(p[..n], members - {n}, v);
      if n !in members {
        assert members - {n} == members;
      }
    }
  }

  lemma {:induction false} SmallestExists(p: seq<real>, members: set<nat>)
    requires members != {} && forall i | i in members :: i < |p|
    ensures exists j :: j in members && forall i | i in members :: p[j] <= p[i]
    decreases |members|
  {
    var x := Pick(members);
    var rest := members - {x};
    if rest != {} {
      SmallestExists(p, rest);
      var j :| j in rest && forall i | i in rest :: p[j] <= p[i];
      var least := if p[x] <= p[j] then x else j;
      assert forall i | i in members :: i == x || i in rest;
      assert least in members && forall i | i in members :: p[least] <= p[i];
    } else {
      assert forall i | i in members :: i == x || i in rest;
    }
  }

  /**
   The reason the correction controls the family-wise error: whenever a member of a set of hypotheses
   is rejected, some member of the set passes the Bonferroni test for the size of that very set.
   */
  lemma RejectionMeansBonferroni(p: seq<real>, members: set<nat>, i: nat, adjusted: real, alpha: real)
    requires i in members && (forall k | k in members :: k < |p|) && forall k | 0 <= k < |p| :: 0.0 <= p[k]
    requires IsAdjusted(p, p[i], adjusted) && adjusted <= alpha < 1.0
    ensures exists j :: j in members && Scaled(|members|, p[j]) <= alpha
  {
    hide Scaled, CountBelow;
    SmallestExists(p, members);
    var j :| j in members && forall k | k in members :: p[j] <= p[k];
    SetIsNotBelow(p, members, p[j]);
    assert Corrected(p, p[j]) <= adjusted;
    ScaledGrows(|members|, |p| - CountBelow(p, p[j]), p[j]);
  }

  // ----- the step-down procedure

  /** Every p-value up to this rank passes its own test: the smallest against alpha / n, the next against alpha / (n - 1), ... */
  ghost predicate StepsDown(q: seq<real>, rank: nat, alpha: real)
    requires rank < |q|
  {
    forall k | 0 <= k <= rank :: (|q| - k) as real * q[k] <= alpha
  }

  /** A hypothesis is rejected exactly when the textbook procedure on the sorted p-values gets as far as it. */
  lemma RejectedExactlyByStepDown(p: seq<real>, q: seq<real>, rank: nat, adjusted: real, alpha: real)
    requires multiset(p) == multiset(q) && Ordered(q) && rank < |q| && alpha < 1.0
    requires forall k | 0 <= k < |p| :: 0.0 <= p[k]
    requires IsAdjusted(p, q[rank], adjusted)
    ensures adjusted <= alpha <==> StepsDown(q, rank, alpha)
  {
    hide CountBelow, Scaled, Ordered;
    assert |multiset(p)| == |multiset(q)|;
    if adjusted <= alpha {
      forall k | 0 <= k <= rank ensures (|q| - k) as real * q[k] <= alpha {
        PassesItsTest(p, q, k, rank, adjusted, alpha);
      }
    }
    if StepsDown(q, rank, alpha) {
      var j :| 0 <= j < |p| && p[j] <= q[rank] && Corrected(p, p[j]) == adjusted;
      var k := FirstOf(p, q, rank, p[j]);
      assert (|q| - k) as real * q[k] <= alpha;
      ScaledIs(|p| - k, q[k]);
    }
  }

  lemma ScaledIs(n: int, v: real)
    ensures Scaled(n, v) == n as real * v
  {
  }

  lemma PassesItsTest(p: seq<real>, q: seq<real>, k: nat, rank: nat, adjusted: real, alpha: real)
    requires multiset(p) == multiset(q) && |p| == |q| && Ordered(q) && k <= rank < |q| && alpha < 1.0
    requires (forall k | 0 <= k < |p| :: 0.0 <= p[k]) && IsAdjusted(p, q[rank], adjusted) && adjusted <= alpha
    ensures (|q| - k) as real * q[k] <= alpha
  {
    ScaledIs(|q| - k, q[k]);
    assert Scaled(|q| - k, q[k]) <= alpha by {
      hide CountBelow, Scaled, Corrected, Ordered;
      var v := q[k];
      ValueIsIn(p, q, k);
      var j :| 0 <= j < |p| && p[j] == v;
      BelowRank(q, k, rank);
      assert Corrected(p, p[j]) <= adjusted;
      BelowIsRank(p, q, k);
      ScaledGrows(|p| - k, |p| - CountBelow(p, v), v);
      NotCut(p, v, alpha);
    }
  }

  lemma ValueIsIn(p: seq<real>, q: seq<real>, k: nat)
    requires multiset(p) == multiset(q) && k < |q|
    ensures q[k] in p
  {
    assert q[k] in multiset(p);
  }

  lemma BelowRank(q: seq<real>, k: nat, rank: nat)
    requires Ordered(q) && k <= rank < |q|
    ensures q[k] <= q[rank]
  {
  }

  lemma NotCut(p: seq<real>, v: real, alpha: real)
    requires Corrected(p, v) <= alpha < 1.0
    ensures Scaled(|p| - CountBelow(p, v), v) <= alpha
  {
    hide Scaled, CountBelow;
  }

  /** The first rank of a value has exactly the smaller values before it. */
  lemma FirstOf(p: seq<real>, q: seq<real>, rank: nat, v: real) returns (k: nat)
    requires multiset(p) == multiset(q) && |p| == |q| && Ordered(q) && rank < |q| && v in p && v <= q[rank]
    ensures k <= rank && q[k] == v && CountBelow(p, v) == k
  {
    assert v in multiset(q);
    var at :| 0 <= at < |q| && q[at] == v;
    k := if at <= rank then at else rank;
    while k > 0 && q[k - 1] == v
      invariant k <= rank && q[k] == v
    {
      k := k - 1;
    }
    BelowIsRank(p, q, k);
  }
}
