/** Trading-cost schedules (models.py) and the validation of their history (config.py). */
module Costs {
  import opened Common
  import opened Periods

  datatype Schedule = Schedule(
    commissionBps: real,
    slippageBps: real,
    minimumCommission: real,
    sellStampDutyBps: real,
    transferFeeBps: real)

  /** A row that may set any of the five values. */
  datatype Overrides = Overrides(
    commissionBps: Option<real>,
    slippageBps: Option<real>,
    minimumCommission: Option<real>,
    sellStampDutyBps: Option<real>,
    transferFeeBps: Option<real>)

  /** A dated row of one instrument type. */
  type HistoryRow = Row<string, Overrides>

  datatype CostSettings = CostSettings(
    base: Schedule,
    byInstrumentType: map<string, Overrides>,
    history: seq<HistoryRow>)

  function Or(value: Option<real>, otherwise: real): real {
    if value.Some? then value.value else otherwise
  }

  /** `values.update(row)`: the row's own fields win. */
  function Update(values: Schedule, row: Overrides): Schedule {
    Schedule(
      Or(row.commissionBps, values.commissionBps),
      Or(row.slippageBps, values.slippageBps),
      Or(row.minimumCommission, values.minimumCommission),
      Or(row.sellStampDutyBps, values.sellStampDutyBps),
      Or(row.transferFeeBps, values.transferFeeBps))
  }

  function TypeDefaults(costs: CostSettings, instrumentType: string): Schedule {
    if instrumentType in costs.byInstrumentType
    then Update(costs.base, costs.byInstrumentType[instrumentType])
    else costs.base
  }

  function ApplyHistory(values: Schedule, history: seq<HistoryRow>, instrumentType: string, day: Date): Schedule {
    if history == [] then values else
      var n := |history| - 1;
      var before := ApplyHistory(values, history[..n], instrumentType, day);
      if RowApplies(history[n], instrumentType, day) then Update(before, history[n].value) else before
  }

  /** The schedule in force for one instrument type on one date. */
  function Lookup(costs: CostSettings, instrumentType: string, day: Date): Schedule {
    ApplyHistory(TypeDefaults(costs, instrumentType), costs.history, instrumentType, day)
  }

  method ForInstrument(costs: CostSettings, instrumentType: string, day: Date) returns (values: Schedule)
    ensures values == Lookup(costs, instrumentType, day)
  {
    values := costs.base;
    if instrumentType in costs.byInstrumentType {
      values := Update(values, costs.byInstrumentType[instrumentType]);
    }
    for i := 0 to |costs.history|
      invariant values ==
        ApplyHistory(TypeDefaults(costs, instrumentType), costs.history[..i], instrumentType, day)
    {
      var row := costs.history[i];
      assert costs.history[..i + 1][..i] == costs.history[..i];
      if row.key != instrumentType {
        continue;
      }
      if row.span.Covers(day) {
        values := Update(values, row.value);
      }
    }
    assert costs.history[..|costs.history|] == costs.history;
  }

  // ----- validation

  predicate NonNegative(value: Option<real>) {
    value.Some? ==> value.value >= 0.0
  }

  predicate OverridesValid(row: Overrides) {
    && NonNegative(row.commissionBps) && NonNegative(row.slippageBps)
    && NonNegative(row.minimumCommission) && NonNegative(row.sellStampDutyBps)
    && NonNegative(row.transferFeeBps)
  }

  predicate ScheduleValid(s: Schedule) {
    && s.commissionBps >= 0.0 && s.slippageBps >= 0.0 && s.minimumCommission >= 0.0
    && s.sellStampDutyBps >= 0.0 && s.transferFeeBps >= 0.0
  }

  predicate ValuesValid(costs: CostSettings) {
    && ScheduleValid(costs.base)
    && (forall t | t in costs.byInstrumentType :: OverridesValid(costs.byInstrumentType[t]))
    && (forall i | 0 <= i < |costs.history| :: OverridesValid(costs.history[i].value))
  }

  predicate RowsWellFormed(history: seq<HistoryRow>) {
    forall i | 0 <= i < |history| :: history[i].key != "" && history[i].span.Ordered()
  }

  /** What an accepted configuration guarantees. */
  ghost predicate Valid(costs: CostSettings) {
    && ValuesValid(costs)
    && RowsWellFormed(costs.history)
    && AtMostOneCover(costs.history)
  }

  // ----- Python's order of (start, end) pairs, where an open end cannot be compared with a date

  predicate Comparable(a: Span, b: Span) {
    a.start == b.start ==> (a.end.Some? <==> b.end.Some?)
  }

  predicate Less(a: Span, b: Span) {
    a.start < b.start || (a.start == b.start && a.end.Some? && b.end.Some? && a.end.value < b.end.value)
  }

  /** No two of the periods share a start while only one of them has an end. */
  ghost predicate Sortable(spans: seq<Span>) {
    forall a, b | a in spans && b in spans :: Comparable(a, b)
  }

  ghost predicate InOrder(spans: seq<Span>) {
    forall i, j | 0 <= i < j < |spans| :: !Less(spans[j], spans[i])
  }

  /** `sorted(values)`; nothing when a comparison raises, which it does exactly when the periods are not sortable. */
  method SortPeriods(spans: seq<Span>) returns (ordered: Option<seq<Span>>)
    ensures ordered.Some? <==> Sortable(spans)
    ensures ordered.Some? ==> multiset(ordered.value) == multiset(spans) && SortedByStart(ordered.value)
  {
    var sorted: seq<Span> := [];
    for n := 0 to |spans|
      invariant multiset(sorted) == multiset(spans[..n]) && InOrder(sorted) && Sortable(sorted)
    {
      var x := spans[n];
      assert spans[..n + 1] == spans[..n] + [x];
      var k := |sorted|;
      while k > 0 && Comparable(sorted[k - 1], x) && Less(x, sorted[k - 1])
        invariant 0 <= k <= |sorted| && forall i | k <= i < |sorted| :: Comparable(sorted[i], x) && Less(x, sorted[i])
      {
        k := k - 1;
      }
      if k > 0 && !Comparable(sorted[k - 1], x) {
        assert sorted[k - 1] in multiset(spans[..n]);
        return None;
      }
      InsertionStaysInOrder(sorted, k, x);
      InsertedMembers(sorted, k, x);
      sorted := sorted[..k] + [x] + sorted[k..];
    }
    assert spans[..|spans|] == spans;
    SameSpansSortable(sorted, spans);
    OrderIsByStart(sorted);
    ordered := Some(sorted);
  }

  lemma NothingBeforeIsLarger(sorted: seq<Span>, k: nat, x: Span, i: nat)
    requires InOrder(sorted) && Sortable(sorted) && i < k <= |sorted|
    requires Comparable(sorted[k - 1], x) && !Less(x, sorted[k - 1])
    ensures Comparable(sorted[i], x) && !Less(x, sorted[i])
  {
    assert sorted[i] in sorted && sorted[k - 1] in sorted;
    assert i < k - 1 ==> !Less(sorted[k - 1], sorted[i]);
  }

  lemma InsertionStaysInOrder(sorted: seq<Span>, k: nat, x: Span)
    requires InOrder(sorted) && Sortable(sorted) && k <= |sorted|
    requires forall i | k <= i < |sorted| :: Comparable(sorted[i], x) && Less(x, sorted[i])
    requires k > 0 ==> Comparable(sorted[k - 1], x) && !Less(x, sorted[k - 1])
    ensures InOrder(sorted[..k] + [x] + sorted[k..]) && Sortable(sorted[..k] + [x] + sorted[k..])
  {
    hide Sortable;
    forall i | 0 <= i < k ensures Comparable(sorted[i], x) && !Less(x, sorted[i]) {
      NothingBeforeIsLarger(sorted, k, x, i);
    }
    InsertedIsInOrder(sorted, k, x);
    InsertedIsSortable(sorted, k, x);
  }

  lemma InsertedIsInOrder(sorted: seq<Span>, k: nat, x: Span)
    requires InOrder(sorted) && k <= |sorted|
    requires forall i | 0 <= i < k :: !Less(x, sorted[i])
    requires forall i | k <= i < |sorted| :: Less(x, sorted[i])
    ensures InOrder(sorted[..k] + [x] + sorted[k..])
  {
    var longer := sorted[..k] + [x] + sorted[k..];
    forall i, j | 0 <= i < j < |longer| ensures !Less(longer[j], longer[i]) {
      assert longer[i] == if i < k then sorted[i] else if i == k then x else sorted[i - 1];
      assert longer[j] == if j < k then sorted[j] else if j == k then x else sorted[j - 1];
    }
  }

  lemma InsertedIsSortable(sorted: seq<Span>, k: nat, x: Span)
    requires Sortable(sorted) && k <= |sorted| && forall i | 0 <= i < |sorted| :: Comparable(sorted[i], x)
    ensures Sortable(sorted[..k] + [x] + sorted[k..])
  {
    hide Comparable;
    var longer := sorted[..k] + [x] + sorted[k..];
    forall y | y in longer ensures y == x || y in sorted {
      var i :| 0 <= i < |longer| && longer[i] == y;
      assert longer[i] == if i < k then sorted[i] else if i == k then x else sorted[i - 1];
    }
    ComparableBothWays();
  }

  lemma ComparableBothWays()
    ensures forall a, b :: Comparable(a, b) <==> Comparable(b, a)
    ensures forall a :: Comparable(a, a)
  {
  }

  lemma SameSpansSortable(s: seq<Span>, t: seq<Span>)
    requires multiset(s) == multiset(t) && Sortable(s)
    ensures Sortable(t)
  {
    forall a | a in t ensures a in s {
      assert a in multiset(s);
    }
  }

  lemma OrderIsByStart(spans: seq<Span>)
    requires InOrder(spans)
    ensures SortedByStart(spans)
  {
  }

  // ----- the types of a history, in the order in which they first appear

  function Types(history: seq<HistoryRow>): (types: seq<string>)
    ensures forall t :: t in types <==> exists i :: 0 <= i < |history| && history[i].key == t
  {
    if history == [] then [] else
      var last := history[|history| - 1].key;
      var before := Types(history[..|history| - 1]);
      assert forall i | 0 <= i < |history| - 1 :: history[i] == history[..|history| - 1][i];
      if last in before then before else before + [last]
  }

  /** The first type whose periods are not disjoint. */
  ghost predicate FirstOverlap(history: seq<HistoryRow>, i: int) {
    && 0 <= i < |Types(history)| && !PairwiseDisjoint(SpansOf(history, Types(history)[i]))
    && forall j | 0 <= j < i :: PairwiseDisjoint(SpansOf(history, Types(history)[j]))
  }

  lemma FirstOverlapIsUnique(history: seq<HistoryRow>, i: int, j: int)
    requires FirstOverlap(history, i) && FirstOverlap(history, j)
    ensures i == j
  {
  }

  /** A history with a date covered twice has a first type where that happens. */
  lemma SomeOverlapIsFirst(history: seq<HistoryRow>, i: int)
    requires RowsWellFormed(history) && FirstOverlap(history, i)
    ensures !AtMostOneCover(history)
  {
    if AtMostOneCover(history) {
      RowsImplyGroups(history, Types(history)[i]);
    }
  }

  lemma {:induction false} NoSpans(history: seq<HistoryRow>, t: string)
    requires forall i | 0 <= i < |history| :: history[i].key != t
    ensures SpansOf(history, t) == []
  {
    if history != [] {
      NoSpans(history[..|history| - 1], t);
    }
  }

  lemma AllTypesDisjoint(history: seq<HistoryRow>)
    requires RowsWellFormed(history)
    requires forall i | 0 <= i < |Types(history)| :: PairwiseDisjoint(SpansOf(history, Types(history)[i]))
    ensures AtMostOneCover(history)
  {
    forall t: string ensures PairwiseDisjoint(SpansOf(history, t)) {
      if t in Types(history) {
        var i :| 0 <= i < |Types(history)| && Types(history)[i] == t;
      } else {
        NoSpans(history, t);
      }
    }
    GroupsImplyRows(history);
  }

  /** Two rows of the type share a start, and exactly one of them has an end. */
  ghost predicate MixesEnds(history: seq<HistoryRow>, t: string) {
    exists i, j :: 0 <= i < |history| && 0 <= j < |history| && history[i].key == t && history[j].key == t
      && history[i].span.start == history[j].span.start && history[i].span.end.Some? && history[j].span.end.None?
  }

  /** The periods of a type cannot be sorted exactly when its rows mix open and closed ends of one start. */
  lemma UnsortableExactly(history: seq<HistoryRow>, t: string)
    ensures !Sortable(SpansOf(history, t)) <==> MixesEnds(history, t)
  {
    var spans := SpansOf(history, t);
    SpansOfAreRows(history, t);
    if !Sortable(spans) {
      var a, b :| a in spans && b in spans && !Comparable(a, b);
      assert HasSpan(history, t, a) && HasSpan(history, t, b);
      var i :| 0 <= i < |history| && history[i].key == t && history[i].span == a;
      var j :| 0 <= j < |history| && history[j].key == t && history[j].span == b;
      var closed, open := if a.end.Some? then i else j, if a.end.Some? then j else i;
      assert history[closed].span.end.Some? && history[open].span.end.None?;
    }
    if MixesEnds(history, t) {
      var i, j :| 0 <= i < |history| && 0 <= j < |history| && history[i].key == t && history[j].key == t
        && history[i].span.start == history[j].span.start && history[i].span.end.Some? && history[j].span.end.None?;
      assert HasSpan(history, t, history[i].span) && HasSpan(history, t, history[j].span);
      assert !Comparable(history[i].span, history[j].span);
    }
  }

  /** Such periods overlap, so no accepted history has them. */
  lemma UnsortableOverlaps(spans: seq<Span>)
    requires !Sortable(spans) && forall k | 0 <= k < |spans| :: spans[k].Ordered()
    ensures !PairwiseDisjoint(spans)
  {
    var a, b :| a in spans && b in spans && !Comparable(a, b);
    var i :| 0 <= i < |spans| && spans[i] == a;
    var j :| 0 <= j < |spans| && spans[j] == b;
    assert !Disjoint(spans[if i < j then i else j], spans[if i < j then j else i]);
  }

  // ----- the whole validation

  /** `Unsortable` is the type error of a comparison between an open end and a date. */
  datatype Verdict = Accepted | NegativeCost | MissingType | EndBeforeStart | Unsortable | Overlapping

  /** The first row that is not well formed. */
  ghost predicate FirstBadRow(history: seq<HistoryRow>, i: int) {
    && 0 <= i < |history| && !(history[i].key != "" && history[i].span.Ordered())
    && forall j | 0 <= j < i :: history[j].key != "" && history[j].span.Ordered()
  }

  /** What the first bad row is reported as: its missing type is looked at before its period. */
  ghost predicate RowVerdict(history: seq<HistoryRow>, verdict: Verdict) {
    exists i :: FirstBadRow(history, i) && verdict == (if history[i].key == "" then MissingType else EndBeforeStart)
  }

  /** What the first type that is not disjoint is reported as. */
  ghost predicate TypeVerdict(history: seq<HistoryRow>, verdict: Verdict) {
    exists i :: FirstOverlap(history, i) && verdict == (if MixesEnds(history, Types(history)[i]) then Unsortable else Overlapping)
  }

  /** Only one verdict is possible on the rows, ... */
  lemma OneRowVerdict(history: seq<HistoryRow>, v: Verdict)
    requires RowVerdict(history, v)
    ensures !RowsWellFormed(history) && forall w :: RowVerdict(history, w) <==> w == v
  {
    var i :| FirstBadRow(history, i) && v == (if history[i].key == "" then MissingType else EndBeforeStart);
  }

  /** ... and only one on the types. */
  lemma OneTypeVerdict(history: seq<HistoryRow>, v: Verdict)
    requires RowsWellFormed(history) && TypeVerdict(history, v)
    ensures !AtMostOneCover(history) && forall w :: TypeVerdict(history, w) <==> w == v
  {
    hide MixesEnds, Types, PairwiseDisjoint, RowsWellFormed, AtMostOneCover;
    var i :| FirstOverlap(history, i) && v == (if MixesEnds(history, Types(history)[i]) then Unsortable else Overlapping);
    SomeOverlapIsFirst(history, i);
    forall j | FirstOverlap(history, j) ensures j == i {
      FirstOverlapIsUnique(history, i, j);
    }
  }

  /** The type is sorted, and its neighbours compared; how that ends, or nothing when all is well. */
  method CheckType(spans: seq<Span>) returns (verdict: Option<Verdict>)
    requires forall k | 0 <= k < |spans| :: spans[k].Ordered()
    ensures verdict.None? <==> PairwiseDisjoint(spans)
    ensures verdict.Some? ==> verdict.value == if Sortable(spans) then Overlapping else Unsortable
  {
    var sorted := SortPeriods(spans);
    if sorted.None? {
      UnsortableOverlaps(spans);
      return Some(Unsortable);
    }
    var ordered := sorted.value;
    forall k | 0 <= k < |ordered| ensures ordered[k].Ordered() {
      assert ordered[k] in multiset(spans);
    }
    AdjacentIsGlobal(ordered);
    var i := 1;
    while i < |ordered|
      invariant 1 <= i
      invariant forall k | 0 < k < i && k < |ordered| :: Follows(ordered[k - 1], ordered[k])
    {
      if !Follows(ordered[i - 1], ordered[i]) {
        if PairwiseDisjoint(spans) {
          DisjointIgnoresOrder(spans, ordered);
        }
        return Some(Overlapping);
      }
      i := i + 1;
    }
    DisjointIgnoresOrder(ordered, spans);
    verdict := None;
  }

  method CheckRows(history: seq<HistoryRow>) returns (verdict: Option<Verdict>)
    ensures verdict.None? <==> RowsWellFormed(history)
    ensures verdict.Some? ==> RowVerdict(history, verdict.value)
  {
    for i := 0 to |history|
      invariant forall j | 0 <= j < i :: history[j].key != "" && history[j].span.Ordered()
    {
      var row := history[i];
      if row.key == "" {
        assert FirstBadRow(history, i);
        return Some(MissingType);
      }
      if row.span.end.Some? && row.span.end.value < row.span.start {
        assert FirstBadRow(history, i);
        return Some(EndBeforeStart);
      }
    }
    verdict := None;
  }

  method CheckTypes(history: seq<HistoryRow>) returns (verdict: Option<Verdict>)
    requires RowsWellFormed(history)
    ensures verdict.None? <==> AtMostOneCover(history)
    ensures verdict.Some? ==> TypeVerdict(history, verdict.value)
  {
    hide PairwiseDisjoint, Sortable, SpansOf, Types, AtMostOneCover, MixesEnds;
    var grouped := GroupByKey(history);
    var types := Types(history);
    for i := 0 to |types|
      invariant forall j | 0 <= j < i :: PairwiseDisjoint(SpansOf(history, types[j]))
    {
      var spans := if types[i] in grouped then grouped[types[i]] else [];
      GroupIsOrdered(history, types[i]);
      verdict := CheckType(spans);
      if verdict.Some? {
        UnsortableExactly(history, types[i]);
        assert FirstOverlap(history, i);
        SomeOverlapIsFirst(history, i);
        return;
      }
    }
    AllTypesDisjoint(history);
    verdict := None;
  }

  /**
   `_validate_costs`: raises on the first violation, in the order the source tests for them: the values, then
   row by row, then type by type in the order of first appearance.
   */
  method ValidateCosts(costs: CostSettings) returns (verdict: Verdict)
    ensures verdict.Accepted? <==> Valid(costs)
    ensures verdict.NegativeCost? <==> !ValuesValid(costs)
    ensures verdict.MissingType? || verdict.EndBeforeStart? <==> ValuesValid(costs) && !RowsWellFormed(costs.history)
    ensures verdict.MissingType? || verdict.EndBeforeStart? ==> RowVerdict(costs.history, verdict)
    ensures verdict.Unsortable? || verdict.Overlapping? <==>
      ValuesValid(costs) && RowsWellFormed(costs.history) && !AtMostOneCover(costs.history)
    ensures verdict.Unsortable? || verdict.Overlapping? ==> TypeVerdict(costs.history, verdict)
  {
    hide RowsWellFormed, AtMostOneCover, RowVerdict, TypeVerdict, ValuesValid;
    if !ValuesValid(costs) {
      return NegativeCost;
    }
    var bad := CheckRows(costs.history);
    if bad.Some? {
      RowVerdictsAre(costs.history, bad.value);
      return bad.value;
    }
    var worse := CheckTypes(costs.history);
    if worse.Some? {
      TypeVerdictsAre(costs.history, worse.value);
    }
    verdict := if worse.Some? then worse.value else Accepted;
  }

  lemma RowVerdictsAre(history: seq<HistoryRow>, v: Verdict)
    requires RowVerdict(history, v)
    ensures v.MissingType? || v.EndBeforeStart?
  {
  }

  lemma TypeVerdictsAre(history: seq<HistoryRow>, v: Verdict)
    requires TypeVerdict(history, v)
    ensures v.Unsortable? || v.Overlapping?
  {
  }

  // ----- what acceptance buys

  /** With one row per date at most, folding over the history is applying that one row. */
  lemma {:induction false} HistoryIsOneRow(
      values: Schedule, history: seq<HistoryRow>, instrumentType: string, day: Date)
    requires AtMostOneCover(history)
    ensures var row := LastApplying(history, instrumentType, day);
            ApplyHistory(values, history, instrumentType, day) == if row.None? then values else Update(values, row.value)
  {
    if history != [] {
      var n := |history| - 1;
      HistoryIsOneRow(values, history[..n], instrumentType, day);
      LastApplyingIsSome(history[..n], instrumentType, day);
      if RowApplies(history[n], instrumentType, day) {
        forall i | 0 <= i < |history| && RowApplies(history[i], instrumentType, day) ensures i == n {
          TheCoverIsUnique(history, instrumentType, day, i, n);
        }
        assert LastApplying(history[..n], instrumentType, day).None?;
      }
    }
  }

  /** The lookup of an accepted history does not depend on the order of its rows. */
  lemma LookupIgnoresRowOrder(costs: CostSettings, other: CostSettings, instrumentType: string, day: Date)
    requires Valid(costs)
    requires other.base == costs.base && other.byInstrumentType == costs.byInstrumentType
    requires multiset(other.history) == multiset(costs.history)
    ensures Lookup(other, instrumentType, day) == Lookup(costs, instrumentType, day)
  {
    ReorderedStaysDisjoint(costs.history, other.history);
    HistoryIsOneRow(TypeDefaults(costs, instrumentType), costs.history, instrumentType, day);
    HistoryIsOneRow(TypeDefaults(costs, instrumentType), other.history, instrumentType, day);
    LastApplyingIgnoresOrder(costs.history, other.history, instrumentType, day);
  }

  // ----- scaling

  function Times(x: real, m: real): real {
    x * m
  }

  function ScaleSchedule(s: Schedule, m: real): Schedule {
    Schedule(Times(s.commissionBps, m), Times(s.slippageBps, m), Times(s.minimumCommission, m),
             Times(s.sellStampDutyBps, m), Times(s.transferFeeBps, m))
  }

  function ScaleValue(v: Option<real>, m: real): Option<real> {
    if v.Some? then Some(Times(v.value, m)) else None
  }

  function ScaleOverrides(o: Overrides, m: real): Overrides {
    Overrides(ScaleValue(o.commissionBps, m), ScaleValue(o.slippageBps, m), ScaleValue(o.minimumCommission, m),
              ScaleValue(o.sellStampDutyBps, m), ScaleValue(o.transferFeeBps, m))
  }

  function ScaleRows(history: seq<HistoryRow>, m: real): (r: seq<HistoryRow>)
    ensures |r| == |history|
    ensures forall i | 0 <= i < |r| :: r[i] == history[i].(value := ScaleOverrides(history[i].value, m))
  {
    seq(|history|, i requires 0 <= i < |history| => history[i].(value := ScaleOverrides(history[i].value, m)))
  }

  /** `scaled`: refuses a multiplier that is not positive. */
  function Scaled(costs: CostSettings, m: real): Option<CostSettings> {
    if m <= 0.0 then None else
      Some(CostSettings(
        ScaleSchedule(costs.base, m),
        map t | t in costs.byInstrumentType :: ScaleOverrides(costs.byInstrumentType[t], m),
        ScaleRows(costs.history, m)))
  }

  lemma UpdateScales(values: Schedule, row: Overrides, m: real)
    ensures Update(ScaleSchedule(values, m), ScaleOverrides(row, m)) == ScaleSchedule(Update(values, row), m)
  {
    hide Times;
  }

  lemma {:induction false} HistoryScales(
      values: Schedule, history: seq<HistoryRow>, instrumentType: string, day: Date, m: real)
    ensures ApplyHistory(ScaleSchedule(values, m), ScaleRows(history, m), instrumentType, day)
         == ScaleSchedule(ApplyHistory(values, history, instrumentType, day), m)
  {
    hide Times;
    if history != [] {
      var n := |history| - 1;
      HistoryScales(values, history[..n], instrumentType, day, m);
      assert ScaleRows(history, m)[..n] == ScaleRows(history[..n], m);
      UpdateScales(ApplyHistory(values, history[..n], instrumentType, day), history[n].value, m);
    }
  }

  /** Scaling then looking up is looking up then scaling, and scaling keeps an accepted history accepted. */
  lemma LookupCommutesWithScaling(costs: CostSettings, m: real, instrumentType: string, day: Date)
    requires m > 0.0
    ensures Scaled(costs, m).Some?
    ensures Lookup(Scaled(costs, m).value, instrumentType, day) == ScaleSchedule(Lookup(costs, instrumentType, day), m)
    ensures var scaled, plain := Lookup(Scaled(costs, m).value, instrumentType, day), Lookup(costs, instrumentType, day);
            && scaled.commissionBps == plain.commissionBps * m && scaled.slippageBps == plain.slippageBps * m
            && scaled.minimumCommission == plain.minimumCommission * m
            && scaled.sellStampDutyBps == plain.sellStampDutyBps * m && scaled.transferFeeBps == plain.transferFeeBps * m
    ensures Valid(costs) ==> Valid(Scaled(costs, m).value)
  {
    var scaled := Scaled(costs, m).value;
    if instrumentType in costs.byInstrumentType {
      UpdateScales(costs.base, costs.byInstrumentType[instrumentType], m);
    }
    HistoryScales(TypeDefaults(costs, instrumentType), costs.history, instrumentType, day, m);
    EachIsScaled(Lookup(costs, instrumentType, day), m);
    if Valid(costs) {
      ScalingKeepsValid(costs, m);
    }
  }

  lemma EachIsScaled(s: Schedule, m: real)
    ensures var scaled := ScaleSchedule(s, m);
            && scaled.commissionBps == s.commissionBps * m && scaled.slippageBps == s.slippageBps * m
            && scaled.minimumCommission == s.minimumCommission * m
            && scaled.sellStampDutyBps == s.sellStampDutyBps * m && scaled.transferFeeBps == s.transferFeeBps * m
  {
  }

  lemma ScalingKeepsValid(costs: CostSettings, m: real)
    requires m > 0.0 && Valid(costs)
    ensures Valid(Scaled(costs, m).value)
  {
    var scaled := Scaled(costs, m).value;
    forall o: Overrides | OverridesValid(o) ensures OverridesValid(ScaleOverrides(o, m)) {
    }
    assert ValuesValid(scaled);
    forall i, j, d: Date | 0 <= i < j < |scaled.history| && scaled.history[i].key == scaled.history[j].key
      ensures !(scaled.history[i].span.Covers(d) && scaled.history[j].span.Covers(d))
    {
      assert costs.history[i].key == costs.history[j].key;
    }
  }

  /** Every schedule looked up in an accepted configuration has non-negative rates. */
  lemma {:induction false} HistoryStaysValid(
      values: Schedule, history: seq<HistoryRow>, instrumentType: string, day: Date)
    requires ScheduleValid(values)
    requires forall i | 0 <= i < |history| :: OverridesValid(history[i].value)
    ensures ScheduleValid(ApplyHistory(values, history, instrumentType, day))
  {
    if history != [] {
      HistoryStaysValid(values, history[..|history| - 1], instrumentType, day);
    }
  }

  lemma LookupIsValid(costs: CostSettings, instrumentType: string, day: Date)
    requires ValuesValid(costs)
    ensures ScheduleValid(Lookup(costs, instrumentType, day))
  {
    HistoryStaysValid(TypeDefaults(costs, instrumentType), costs.history, instrumentType, day);
  }

  // ----- what a lookup finds

  /** A value is taken from the first layer that sets it. */
  function FirstOf(row: Option<real>, override: Option<real>, base: real): real {
    match row
    case Some(x) => x
    case None => match override case Some(y) => y case None => base
  }

  const Silent := Overrides(None, None, None, None, None)

  lemma {:induction false} NoRowNoChange(values: Schedule, history: seq<HistoryRow>, instrumentType: string, day: Date)
    requires forall i | 0 <= i < |history| :: !(history[i].key == instrumentType && history[i].span.Covers(day))
    ensures ApplyHistory(values, history, instrumentType, day) == values
  {
    if history != [] {
      NoRowNoChange(values, history[..|history| - 1], instrumentType, day);
    }
  }

  lemma NotBothCover(history: seq<HistoryRow>, i: nat, j: nat, day: Date)
    requires AtMostOneCover(history) && i < j < |history| && history[i].key == history[j].key
    ensures !(history[i].span.Covers(day) && history[j].span.Covers(day))
  {
  }

  lemma {:induction false} OneRowOneChange(values: Schedule, history: seq<HistoryRow>, instrumentType: string, day: Date, at: nat)
    requires AtMostOneCover(history) && at < |history|
    requires history[at].key == instrumentType && history[at].span.Covers(day)
    ensures ApplyHistory(values, history, instrumentType, day) == Update(values, history[at].value)
  {
    var n := |history| - 1;
    if at == n {
      forall i | 0 <= i < n ensures !(history[i].key == instrumentType && history[i].span.Covers(day)) {
        if history[i].key == instrumentType {
          NotBothCover(history, i, n, day);
        }
      }
      NoRowNoChange(values, history[..n], instrumentType, day);
    } else {
      if history[n].key == instrumentType {
        NotBothCover(history, at, n, day);
      }
      OneRowOneChange(values, history[..n], instrumentType, day, at);
    }
  }

  /** The row covers the day for the type; or no row does, and then the silent one stands for it. */
  ghost predicate InForce(costs: CostSettings, instrumentType: string, day: Date, row: Overrides) {
    || (exists i :: 0 <= i < |costs.history| && costs.history[i].key == instrumentType
                    && costs.history[i].span.Covers(day) && costs.history[i].value == row)
    || (row == Silent && forall i | 0 <= i < |costs.history| ::
          !(costs.history[i].key == instrumentType && costs.history[i].span.Covers(day)))
  }

  function OverrideOf(costs: CostSettings, instrumentType: string): Overrides {
    if instrumentType in costs.byInstrumentType then costs.byInstrumentType[instrumentType] else Silent
  }

  /**
   The schedule in force, value by value: the dated row that covers the day wins, then the override of the
   instrument type, then the base.
   */
  lemma LookupLayerByLayer(costs: CostSettings, instrumentType: string, day: Date, row: Overrides)
    requires Valid(costs) && InForce(costs, instrumentType, day, row)
    ensures var found, own, base := Lookup(costs, instrumentType, day), OverrideOf(costs, instrumentType), costs.base;
            && found.commissionBps == FirstOf(row.commissionBps, own.commissionBps, base.commissionBps)
            && found.slippageBps == FirstOf(row.slippageBps, own.slippageBps, base.slippageBps)
            && found.minimumCommission == FirstOf(row.minimumCommission, own.minimumCommission, base.minimumCommission)
            && found.sellStampDutyBps == FirstOf(row.sellStampDutyBps, own.sellStampDutyBps, base.sellStampDutyBps)
            && found.transferFeeBps == FirstOf(row.transferFeeBps, own.transferFeeBps, base.transferFeeBps)
  {
    var defaults := TypeDefaults(costs, instrumentType);
    if i :| 0 <= i < |costs.history| && costs.history[i].key == instrumentType
            && costs.history[i].span.Covers(day) && costs.history[i].value == row {
      OneRowOneChange(defaults, costs.history, instrumentType, day, i);
    } else {
      NoRowNoChange(defaults, costs.history, instrumentType, day);
    }
  }

  // ----- which values are valid

  /** The rates of a schedule, and those a row sets. */
  function Rates(s: Schedule): set<real> {
    {s.commissionBps, s.slippageBps, s.minimumCommission, s.sellStampDutyBps, s.transferFeeBps}
  }

  function RatesSet(row: Overrides): set<Option<real>> {
    {row.commissionBps, row.slippageBps, row.minimumCommission, row.sellStampDutyBps, row.transferFeeBps}
  }

  /** No rate that is set anywhere is negative, and then no rate that is looked up is; zero is allowed. */
  lemma NoRateIsNegative(costs: CostSettings, instrumentType: string, day: Date)
    ensures ValuesValid(costs) <==>
              && (forall x | x in Rates(costs.base) :: x >= 0.0)
              && (forall t, x | t in costs.byInstrumentType && Some(x) in RatesSet(costs.byInstrumentType[t]) :: x >= 0.0)
              && (forall i, x | 0 <= i < |costs.history| && Some(x) in RatesSet(costs.history[i].value) :: x >= 0.0)
    ensures ValuesValid(costs) ==> forall x | x in Rates(Lookup(costs, instrumentType, day)) :: x >= 0.0
  {
    forall t | t in costs.byInstrumentType
      ensures OverridesValid(costs.byInstrumentType[t]) <==> forall x | Some(x) in RatesSet(costs.byInstrumentType[t]) :: x >= 0.0
    {
      RowIsValidExactly(costs.byInstrumentType[t]);
    }
    forall i | 0 <= i < |costs.history|
      ensures OverridesValid(costs.history[i].value) <==> forall x | Some(x) in RatesSet(costs.history[i].value) :: x >= 0.0
    {
      RowIsValidExactly(costs.history[i].value);
    }
    ScheduleIsValidExactly(costs.base);
    if ValuesValid(costs) {
      LookupIsValid(costs, instrumentType, day);
      ScheduleIsValidExactly(Lookup(costs, instrumentType, day));
    }
  }

  lemma ScheduleIsValidExactly(s: Schedule)
    ensures ScheduleValid(s) <==> forall x | x in Rates(s) :: x >= 0.0
  {
    assert s.commissionBps in Rates(s) && s.slippageBps in Rates(s) && s.minimumCommission in Rates(s);
    assert s.sellStampDutyBps in Rates(s) && s.transferFeeBps in Rates(s);
  }

  lemma RowIsValidExactly(row: Overrides)
    ensures OverridesValid(row) <==> forall x | Some(x) in RatesSet(row) :: x >= 0.0
  {
    forall v: Option<real> | v in RatesSet(row) && v.Some? ensures Some(v.value) in RatesSet(row) {
    }
  }
}
