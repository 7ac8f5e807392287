/**
 Dated periods, keyed by a symbol or an instrument type, and the check that no two periods of
 one key overlap.  The security master and the cost history both rely on it.
 */
module Periods {
  import opened Common

  datatype Span = Span(start: Date, end: Option<Date>) {
    predicate Covers(day: Date) {
      start <= day && (end.None? || day <= end.value)
    }

    /** What the callers check row by row before they look for overlaps. */
    predicate Ordered() {
      end.Some? ==> start <= end.value
    }
  }

  /** A row of a dated table: what it is about, when it holds, what it says. */
  datatype Row<K, T> = Row(key: K, span: Span, value: T)

  predicate RowApplies<K(==), T>(row: Row<K, T>, key: K, day: Date) {
    row.key == key && row.span.Covers(day)
  }

  predicate Disjoint(a: Span, b: Span) {
    || (a.end.Some? && a.end.value < b.start)
    || (b.end.Some? && b.end.value < a.start)
  }

  /** At most one row of each key covers any date. */
  ghost predicate AtMostOneCover<K, T>(rows: seq<Row<K, T>>) {
    forall i, j, day: Date | 0 <= i < j < |rows| && rows[i].key == rows[j].key ::
      !(rows[i].span.Covers(day) && rows[j].span.Covers(day))
  }

  /** The test the source applies to one neighbouring pair of the sorted list. */
  predicate Follows(previous: Span, current: Span) {
    previous.end.Some? && previous.end.value < current.start
  }

  predicate Chained(spans: seq<Span>) {
    forall i | 0 < i < |spans| :: Follows(spans[i - 1], spans[i])
  }

  ghost predicate PairwiseDisjoint(spans: seq<Span>) {
    forall i, j | 0 <= i < j < |spans| :: Disjoint(spans[i], spans[j])
  }

  ghost predicate SortedByStart(spans: seq<Span>) {
    AscendingBy(StartKey, spans)
  }

  lemma DisjointMeansNoSharedDay(a: Span, b: Span)
    requires a.Ordered() && b.Ordered()
    ensures Disjoint(a, b) <==> forall day: Date :: !(a.Covers(day) && b.Covers(day))
  {
    if !Disjoint(a, b) {
      var day := if a.start <= b.start then b.start else a.start;
      assert a.Covers(day) && b.Covers(day);
    }
  }

  /** Adjacent checks reach every pair: a chain puts each later start past each earlier end. */
  lemma {:induction false} ChainReaches(spans: seq<Span>, i: nat, j: nat)
    requires Chained(spans) && i < j < |spans|
    requires forall k | 0 <= k < |spans| :: spans[k].Ordered()
    ensures Follows(spans[i], spans[j])
    decreases j
  {
    assert Follows(spans[j - 1], spans[j]);
    if i < j - 1 {
      ChainReaches(spans, i, j - 1);
    }
  }

  /** On a sorted list the adjacent test accepts exactly the globally disjoint lists. */
  lemma AdjacentIsGlobal(spans: seq<Span>)
    requires SortedByStart(spans)
    requires forall k | 0 <= k < |spans| :: spans[k].Ordered()
    ensures Chained(spans) <==> PairwiseDisjoint(spans)
  {
    if Chained(spans) {
      forall i, j | 0 <= i < j < |spans| ensures Disjoint(spans[i], spans[j]) {
        ChainReaches(spans, i, j);
      }
    }
    if PairwiseDisjoint(spans) {
      forall i | 0 < i < |spans| ensures Follows(spans[i - 1], spans[i]) {
        assert Disjoint(spans[i - 1], spans[i]);
        assert spans[i - 1].start <= spans[i].start;
      }
    }
  }

  /** Whether two lists hold the same spans does not matter to pairwise disjointness. */
  lemma DisjointIgnoresOrder(s: seq<Span>, t: seq<Span>)
    requires multiset(s) == multiset(t)
    requires PairwiseDisjoint(s)
    ensures PairwiseDisjoint(t)
  {
    forall i, j | 0 <= i < j < |t| ensures Disjoint(t[i], t[j]) {
      TwoPlaces(t, s, i, j);
      var a, b :| 0 <= a < |s| && 0 <= b < |s| && a != b && s[a] == t[i] && s[b] == t[j];
      assert Disjoint(s[if a < b then a else b], s[if a < b then b else a]);
    }
  }

  /** The spans of one key, in list order. */
  function SpansOf<K(==), T>(rows: seq<Row<K, T>>, key: K): (r: seq<Span>) {
    if rows == [] then [] else
      var before := SpansOf(rows[..|rows| - 1], key);
      if rows[|rows| - 1].key == key then before + [rows[|rows| - 1].span] else before
  }

  ghost predicate HasSpan<K, T>(rows: seq<Row<K, T>>, key: K, span: Span) {
    exists i :: 0 <= i < |rows| && rows[i].key == key && rows[i].span == span
  }

  lemma {:induction false} SpansOfAreRows<K, T>(rows: seq<Row<K, T>>, key: K)
    ensures forall span :: span in SpansOf(rows, key) <==> HasSpan(rows, key, span)
  {
    if rows != [] {
      var n := |rows| - 1;
      SpansOfAreRows(rows[..n], key);
      assert rows == rows[..n] + [rows[n]];
    }
  }

  lemma {:induction false} GroupsImplyRows<K, T>(rows: seq<Row<K, T>>)
    requires forall k | 0 <= k < |rows| :: rows[k].span.Ordered()
    requires forall key :: PairwiseDisjoint(SpansOf(rows, key))
    ensures AtMostOneCover(rows)
  {
    if rows != [] {
      var n := |rows| - 1;
      var front, last := rows[..n], rows[n];
      forall key ensures PairwiseDisjoint(SpansOf(front, key)) {
        PrefixDisjoint(SpansOf(rows, key), |SpansOf(front, key)|);
        assert SpansOf(rows, key)[..|SpansOf(front, key)|] == SpansOf(front, key);
      }
      GroupsImplyRows(front);
      var was, now := SpansOf(front, last.key), SpansOf(rows, last.key);
      SpansOfAreRows(front, last.key);
      forall i, j, day: Date | 0 <= i < j < |rows| && rows[i].key == rows[j].key
        ensures !(rows[i].span.Covers(day) && rows[j].span.Covers(day))
      {
        assert rows[i] == front[i];
        if j < n {
          assert rows[j] == front[j];
        } else {
          assert HasSpan(front, last.key, front[i].span);
          var k :| 0 <= k < |was| && was[k] == front[i].span;
          assert PairwiseDisjoint(now) && Disjoint(now[k], now[|was|]);
        }
      }
    }
  }

  lemma PrefixDisjoint(spans: seq<Span>, n: nat)
    requires n <= |spans| && PairwiseDisjoint(spans)
    ensures PairwiseDisjoint(spans[..n])
  {
  }

  lemma {:induction false} RowsImplyGroups<K, T>(rows: seq<Row<K, T>>, key: K)
    requires forall k | 0 <= k < |rows| :: rows[k].span.Ordered()
    requires AtMostOneCover(rows)
    ensures PairwiseDisjoint(SpansOf(rows, key))
  {
    if rows != [] {
      var n := |rows| - 1;
      var front, last := rows[..n], rows[n];
      assert forall k | 0 <= k < n :: front[k] == rows[k];
      RowsImplyGroups(front, key);
      var was := SpansOf(front, key);
      SpansOfAreRows(front, key);
      if last.key == key {
        forall k | 0 <= k < |was| ensures Disjoint(was[k], last.span) {
          assert was[k] in was && HasSpan(front, key, was[k]);
          var i :| 0 <= i < n && front[i].key == key && front[i].span == was[k];
          assert rows[i].key == rows[n].key;
          DisjointMeansNoSharedDay(was[k], last.span);
        }
      }
    }
  }

  function StartKey(span: Span): real {
    span.start as real
  }

  /** Sorting one group and comparing neighbours decides whether that group is disjoint. */
  method GroupDisjoint(spans: seq<Span>) returns (accepted: bool)
    requires forall k | 0 <= k < |spans| :: spans[k].Ordered()
    ensures accepted <==> PairwiseDisjoint(spans)
  {
    var ordered := SortedBy(StartKey, spans);
    forall k | 0 <= k < |ordered| ensures ordered[k].Ordered() {
      assert ordered[k] in multiset(spans);
    }
    AdjacentIsGlobal(ordered);
    var i := 1;
    while i < |ordered|
      invariant 1 <= i
      invariant forall k | 0 < k < i && k < |ordered| :: Follows(ordered[k - 1], ordered[k])
    {
      if !Follows(ordered[i - 1], ordered[i]) {
        if PairwiseDisjoint(spans) {
          DisjointIgnoresOrder(spans, ordered);
        }
        return false;
      }
      i := i + 1;
    }
    DisjointIgnoresOrder(ordered, spans);
    return true;
  }

  method GroupByKey<K(==,!new), T>(rows: seq<Row<K, T>>) returns (grouped: map<K, seq<Span>>)
    ensures forall key | key in grouped :: grouped[key] == SpansOf(rows, key)
    ensures forall key | key !in grouped :: SpansOf(rows, key) == []
  {
    grouped := map[];
    for i := 0 to |rows|
      invariant forall key | key in grouped :: grouped[key] == SpansOf(rows[..i], key)
      invariant forall key | key !in grouped :: SpansOf(rows[..i], key) == []
    {
      var key := rows[i].key;
      var before := if key in grouped then grouped[key] else [];
      assert rows[..i + 1][..i] == rows[..i];
      grouped := grouped[key := before + [rows[i].span]];
    }
    assert rows[..|rows|] == rows;
  }

  /**
   Group the rows by key, sort each group, compare neighbours.  The answer is exactly whether at
   most one row of each key covers any date.
   */
  method NonOverlapping<K(==,!new), T>(rows: seq<Row<K, T>>) returns (accepted: bool)
    requires forall k | 0 <= k < |rows| :: rows[k].span.Ordered()
    ensures accepted <==> AtMostOneCover(rows)
  {
    var grouped := GroupByKey(rows);
    var pending := grouped.Keys;
    while pending != {}
      invariant pending <= grouped.Keys
      invariant forall key | key in grouped && key !in pending :: PairwiseDisjoint(grouped[key])
      decreases |pending|
    {
      var key :| key in pending;
      assert grouped[key] == SpansOf(rows, key);
      GroupIsOrdered(rows, key);
      var disjoint := GroupDisjoint(grouped[key]);
      if !disjoint {
        if AtMostOneCover(rows) {
          RowsImplyGroups(rows, key);
        }
        return false;
      }
      pending := pending - {key};
    }
    forall key ensures PairwiseDisjoint(SpansOf(rows, key)) {
      assert key in grouped || SpansOf(rows, key) == [];
    }
    GroupsImplyRows(rows);
    return true;
  }

  lemma GroupIsOrdered<K, T>(rows: seq<Row<K, T>>, key: K)
    requires forall k | 0 <= k < |rows| :: rows[k].span.Ordered()
    ensures forall k | 0 <= k < |SpansOf(rows, key)| :: SpansOf(rows, key)[k].Ordered()
  {
    SpansOfAreRows(rows, key);
    forall k | 0 <= k < |SpansOf(rows, key)| ensures SpansOf(rows, key)[k].Ordered() {
      var span := SpansOf(rows, key)[k];
      assert span in SpansOf(rows, key);
      var i :| 0 <= i < |rows| && rows[i].key == key && rows[i].span == span;
    }
  }

  // ----- what the absence of overlaps buys

  lemma TheCoverIsUnique<K, T>(rows: seq<Row<K, T>>, key: K, day: Date, i: nat, j: nat)
    requires AtMostOneCover(rows)
    requires i < |rows| && j < |rows|
    requires RowApplies(rows[i], key, day) && RowApplies(rows[j], key, day)
    ensures i == j
  {
  }

  lemma ReorderedStaysDisjoint<K, T>(rows: seq<Row<K, T>>, other: seq<Row<K, T>>)
    requires AtMostOneCover(rows)
    requires multiset(other) == multiset(rows)
    ensures AtMostOneCover(other)
  {
    forall i, j, day: Date | 0 <= i < j < |other| && other[i].key == other[j].key
      ensures !(other[i].span.Covers(day) && other[j].span.Covers(day))
    {
      TwoPlaces(other, rows, i, j);
      var a, b :| 0 <= a < |rows| && 0 <= b < |rows| && a != b && rows[a] == other[i] && rows[b] == other[j];
      var low, high := if a < b then a else b, if a < b then b else a;
      assert rows[low].key == rows[high].key;
    }
  }

  /** The value of the last row that applies. */
  function LastApplying<K(==), T>(rows: seq<Row<K, T>>, key: K, day: Date): (r: Option<T>) {
    if rows == [] then None
    else if RowApplies(rows[|rows| - 1], key, day) then Some(rows[|rows| - 1].value)
    else LastApplying(rows[..|rows| - 1], key, day)
  }

  lemma {:induction false} LastApplyingIsSome<K, T>(rows: seq<Row<K, T>>, key: K, day: Date)
    ensures LastApplying(rows, key, day).None? ==> forall i | 0 <= i < |rows| :: !RowApplies(rows[i], key, day)
    ensures LastApplying(rows, key, day).Some? ==>
      exists i :: 0 <= i < |rows| && RowApplies(rows[i], key, day) && rows[i].value == LastApplying(rows, key, day).value
  {
    if rows != [] {
      LastApplyingIsSome(rows[..|rows| - 1], key, day);
    }
  }

  /** Without overlaps it does not matter in which order the rows are listed. */
  lemma LastApplyingIgnoresOrder<K, T>(rows: seq<Row<K, T>>, other: seq<Row<K, T>>, key: K, day: Date)
    requires AtMostOneCover(rows)
    requires multiset(other) == multiset(rows)
    ensures LastApplying(other, key, day) == LastApplying(rows, key, day)
  {
    ReorderedStaysDisjoint(rows, other);
    LastApplyingIsSome(rows, key, day);
    LastApplyingIsSome(other, key, day);
    if i :| 0 <= i < |rows| && RowApplies(rows[i], key, day) {
      assert rows[i] in multiset(other);
      var j :| 0 <= j < |other| && other[j] == rows[i];
      var a :| 0 <= a < |rows| && RowApplies(rows[a], key, day) && rows[a].value == LastApplying(rows, key, day).value;
      var b :| 0 <= b < |other| && RowApplies(other[b], key, day) && other[b].value == LastApplying(other, key, day).value;
      TheCoverIsUnique(rows, key, day, i, a);
      TheCoverIsUnique(other, key, day, j, b);
    } else {
      forall k | 0 <= k < |other| ensures !RowApplies(other[k], key, day) {
        assert other[k] in multiset(rows);
      }
    }
  }
}
