/**
 Monitoring configuration (monitoring.py): watchlists and rules, their canonical form, the edits,
 and the chain of revisions.
 */
module MonitoringConfig {
  import opened Common

  const MAX_CONFIG_REVISIONS: nat := 1000
  const MAX_WATCHLISTS: nat := 50
  const MAX_SYMBOLS_PER_WATCHLIST: nat := 500
  const MAX_TOTAL_SYMBOLS: nat := 2000
  const MAX_RULES: nat := 500

  type WatchlistId = nat
  type RuleId = nat

  /** A timestamp in microseconds since some epoch, UTC. */
  type Stamp = int

  /** A display name and the rank of its casefolded text in lexicographic order. */
  datatype Name = Name(text: string, folded: int)

  datatype Watchlist = Watchlist(
    id: WatchlistId, name: Name, enabled: bool, symbols: seq<Symbol>, createdAt: Stamp, updatedAt: Stamp)

  datatype RuleType =
    | CloseAbove | CloseBelow | DailyReturnAbove | DailyReturnBelow | VolumeRatioAbove | VolumeRatioBelow
    | EmaCrossAbove | EmaCrossBelow | RsiAbove | RsiBelow | AtrPercentAbove | DataStale

  datatype Operator = Gte | Lte | CrossUp | CrossDown

  datatype Severity = Info | Warning | Critical

  /** The fields a rule's fingerprint is taken over, besides its id. */
  datatype RuleSpec = RuleSpec(
    watchlistId: WatchlistId, symbol: Symbol, ruleType: RuleType, threshold: Option<real>,
    window: Option<int>, comparison: Option<int>, operator: Operator, cooldown: int,
    severity: Severity, enabled: bool)

  datatype Rule = Rule(id: RuleId, spec: RuleSpec, createdAt: Stamp, updatedAt: Stamp)

  /** One immutable revision; its fingerprint is the record itself, injectively. */
  datatype ConfigFingerprint = ConfigFingerprint(record: Config)

  datatype Config = Config(
    id: nat, revision: nat, createdAt: Stamp, actor: string, action: string,
    parent: Option<ConfigFingerprint>, watchlists: seq<Watchlist>, rules: seq<Rule>)

  datatype Error = Invalid | Capacity | NotFound | Conflict

  datatype Result<T> = Ok(value: T) | Err(error: Error)

  // ----- sorting by a three-part key

  datatype Key = Key(major: int, middle: int, minor: int)

  predicate KeyLess(a: Key, b: Key) {
    a.major < b.major
    || (a.major == b.major && (a.middle < b.middle || (a.middle == b.middle && a.minor < b.minor)))
  }

  function InsertBy<T>(key: T -> Key, x: T, sorted: seq<T>): (r: seq<T>) {
    if sorted == [] || KeyLess(key(x), key(sorted[0])) then [x] + sorted
    else [sorted[0]] + InsertBy(key, x, sorted[1..])
  }

  /** Python's stable `sort` with a key. */
  function SortBy<T>(key: T -> Key, s: seq<T>): (r: seq<T>) {
    if s == [] then [] else InsertBy(key, s[|s| - 1], SortBy(key, s[..|s| - 1]))
  }

  ghost predicate Ascending<T>(key: T -> Key, s: seq<T>) {
    forall i, j | 0 <= i < j < |s| :: !KeyLess(key(s[j]), key(s[i]))
  }

  lemma {:induction false} InsertMembers<T>(key: T -> Key, x: T, sorted: seq<T>)
    ensures multiset(InsertBy(key, x, sorted)) == multiset(sorted) + multiset{x}
  {
    if sorted != [] && !KeyLess(key(x), key(sorted[0])) {
      InsertMembers(key, x, sorted[1..]);
      assert sorted == [sorted[0]] + sorted[1..];
    }
  }

  lemma {:induction false} InsertAscends<T>(key: T -> Key, x: T, sorted: seq<T>)
    requires Ascending(key, sorted)
    ensures Ascending(key, InsertBy(key, x, sorted))
  {
    if sorted != [] && !KeyLess(key(x), key(sorted[0])) {
      var rest := InsertBy(key, x, sorted[1..]);
      InsertAscends(key, x, sorted[1..]);
      InsertMembers(key, x, sorted[1..]);
      forall j | 0 <= j < |rest| ensures !KeyLess(key(rest[j]), key(sorted[0])) {
        assert rest[j] in multiset(rest);
        if rest[j] != x {
          assert rest[j] in multiset(sorted[1..]);
        }
      }
    }
  }

  lemma {:induction false} InsertAtEnd<T>(key: T -> Key, x: T, sorted: seq<T>)
    requires forall i | 0 <= i < |sorted| :: !KeyLess(key(x), key(sorted[i]))
    ensures InsertBy(key, x, sorted) == sorted + [x]
  {
    if sorted != [] {
      InsertAtEnd(key, x, sorted[1..]);
    }
  }

  lemma {:induction false} SortSorts<T>(key: T -> Key, s: seq<T>)
    ensures multiset(SortBy(key, s)) == multiset(s)
    ensures Ascending(key, SortBy(key, s))
  {
    if s != [] {
      var n := |s| - 1;
      SortSorts(key, s[..n]);
      InsertMembers(key, s[n], SortBy(key, s[..n]));
      InsertAscends(key, s[n], SortBy(key, s[..n]));
      assert s == s[..n] + [s[n]];
    }
  }

  /** Sorting a sorted list changes nothing. */
  lemma {:induction false} SortIsIdempotent<T>(key: T -> Key, s: seq<T>)
    requires Ascending(key, s)
    ensures SortBy(key, s) == s
  {
    if s != [] {
      var n := |s| - 1;
      SortIsIdempotent(key, s[..n]);
      InsertAtEnd(key, s[n], s[..n]);
      assert s == s[..n] + [s[n]];
    }
  }

  // ----- watchlists

  function WholeSecond(t: Stamp): Stamp {
    t - t % 1000000
  }

  predicate NameOk(name: Name) {
    && 1 <= |name.text| <= 80
    && name.text[0] != ' ' && name.text[|name.text| - 1] != ' '
    && forall i | 0 <= i < |name.text| :: name.text[i] != '\0'
  }

  function SymbolSet(s: seq<Symbol>): set<Symbol> {
    set x | x in s
  }

  function WatchlistKey(w: Watchlist): Key {
    Key(w.name.folded, w.id, 0)
  }

  predicate WatchlistOk(w: Watchlist) {
    |w.symbols| <= MAX_SYMBOLS_PER_WATCHLIST && NameOk(w.name)
  }

  function CanonicalWatchlist(w: Watchlist): Watchlist {
    w.(symbols := Sorted(SymbolSet(w.symbols)),
       createdAt := WholeSecond(w.createdAt), updatedAt := WholeSecond(w.updatedAt))
  }

  predicate DistinctWatchlists(ws: seq<Watchlist>) {
    forall i, j | 0 <= i < j < |ws| :: ws[i].id != ws[j].id
  }

  function CanonicalList(ws: seq<Watchlist>): (r: seq<Watchlist>)
    ensures |r| == |ws|
    ensures forall i | 0 <= i < |r| :: r[i] == CanonicalWatchlist(ws[i])
  {
    seq(|ws|, i requires 0 <= i < |ws| => CanonicalWatchlist(ws[i]))
  }

  /** `_normalize_watchlists` */
  function NormalizeWatchlists(ws: seq<Watchlist>): Result<seq<Watchlist>> {
    if |ws| > MAX_WATCHLISTS then Err(Capacity)
    else if !DistinctWatchlists(ws) || exists i | 0 <= i < |ws| :: !WatchlistOk(ws[i]) then Err(Invalid)
    else Ok(SortBy(WatchlistKey, CanonicalList(ws)))
  }

  lemma CanonicalIsFixed(w: Watchlist)
    ensures CanonicalWatchlist(CanonicalWatchlist(w)) == CanonicalWatchlist(w)
    ensures SymbolSet(CanonicalWatchlist(w).symbols) == SymbolSet(w.symbols)
    ensures |CanonicalWatchlist(w).symbols| <= |w.symbols|
  {
    SortedAscends(SymbolSet(w.symbols));
    DistinctAreFewer(w.symbols);
    assert SymbolSet(Sorted(SymbolSet(w.symbols))) == SymbolSet(w.symbols);
  }

  lemma {:induction false} DistinctAreFewer(s: seq<Symbol>)
    ensures |SymbolSet(s)| <= |s|
  {
    if s != [] {
      DistinctAreFewer(s[..|s| - 1]);
      assert s == s[..|s| - 1] + [s[|s| - 1]];
      assert SymbolSet(s) == SymbolSet(s[..|s| - 1]) + {s[|s| - 1]};
    }
  }

  /** What a normalised list of watchlists looks like. */
  ghost predicate CanonicalWatchlists(ws: seq<Watchlist>) {
    && |ws| <= MAX_WATCHLISTS
    && DistinctWatchlists(ws)
    && Ascending(WatchlistKey, ws)
    && forall i | 0 <= i < |ws| :: WatchlistOk(ws[i]) && CanonicalWatchlist(ws[i]) == ws[i]
  }

  lemma SameIdsStayDistinct(s: seq<Watchlist>, t: seq<Watchlist>)
    requires DistinctWatchlists(s) && multiset(s) == multiset(t)
    ensures DistinctWatchlists(t)
  {
    forall i, j | 0 <= i < j < |t| ensures t[i].id != t[j].id {
      TwoPlaces(t, s, i, j);
    }
  }

  lemma NormalizedIsCanonical(ws: seq<Watchlist>)
    requires NormalizeWatchlists(ws).Ok?
    ensures CanonicalWatchlists(NormalizeWatchlists(ws).value)
  {
    var mapped := CanonicalList(ws);
    var sorted := SortBy(WatchlistKey, mapped);
    SortSorts(WatchlistKey, mapped);
    assert |sorted| == |multiset(sorted)| == |multiset(mapped)|;
    SameIdsStayDistinct(mapped, sorted);
    forall i | 0 <= i < |sorted| ensures WatchlistOk(sorted[i]) && CanonicalWatchlist(sorted[i]) == sorted[i] {
      assert sorted[i] in multiset(mapped);
      var k :| 0 <= k < |mapped| && mapped[k] == sorted[i];
      CanonicalIsFixed(ws[k]);
    }
  }

  /** Canonical watchlists normalise to themselves. */
  lemma CanonicalNormalizesToItself(ws: seq<Watchlist>)
    requires CanonicalWatchlists(ws)
    ensures NormalizeWatchlists(ws) == Ok(ws)
  {
    assert CanonicalList(ws) == ws;
    SortIsIdempotent(WatchlistKey, ws);
  }

  /** Normalisation is idempotent: what was accepted once is accepted again, unchanged. */
  lemma WatchlistNormalizationIsIdempotent(ws: seq<Watchlist>)
    requires NormalizeWatchlists(ws).Ok?
    ensures NormalizeWatchlists(NormalizeWatchlists(ws).value) == NormalizeWatchlists(ws)
  {
    NormalizedIsCanonical(ws);
    CanonicalNormalizesToItself(NormalizeWatchlists(ws).value);
  }

  // ----- rules

  function OperatorOf(t: RuleType): Operator {
    match t
    case CloseAbove | DailyReturnAbove | VolumeRatioAbove | RsiAbove | AtrPercentAbove | DataStale => Gte
    case CloseBelow | DailyReturnBelow | VolumeRatioBelow | RsiBelow => Lte
    case EmaCrossAbove => CrossUp
    case EmaCrossBelow => CrossDown
  }

  predicate IsEmaCross(t: RuleType) {
    t.EmaCrossAbove? || t.EmaCrossBelow?
  }

  function DefaultWindow(t: RuleType): Option<int> {
    match t
    case VolumeRatioAbove | VolumeRatioBelow => Some(20)
    case EmaCrossAbove | EmaCrossBelow => Some(12)
    case RsiAbove | RsiBelow | AtrPercentAbove => Some(14)
    case _ => None
  }

  function DefaultComparison(t: RuleType): Option<int> {
    if IsEmaCross(t) then Some(26) else None
  }

  /** The range each rule type allows its threshold. */
  predicate ThresholdOk(t: RuleType, threshold: real) {
    match t
    case CloseAbove | CloseBelow => threshold > 0.0
    case DailyReturnAbove | DailyReturnBelow => -1.0 <= threshold <= 10.0
    case RsiAbove | RsiBelow => 0.0 <= threshold <= 100.0
    case AtrPercentAbove => 0.0 <= threshold <= 10.0
    case DataStale => 0.0 <= threshold <= 365.0 && threshold == threshold.Floor as real
    case VolumeRatioAbove | VolumeRatioBelow => threshold >= 0.0
    case EmaCrossAbove | EmaCrossBelow => true
  }

  function Else(value: Option<int>, otherwise: Option<int>): Option<int> {
    if value.Some? then value else otherwise
  }

  /** `_normalize_rule` on a complete rule. */
  function NormalizeRule(r: Rule): Result<Rule> {
    var t := r.spec.ruleType;
    var window := Else(r.spec.window, DefaultWindow(t));
    var comparison := Else(r.spec.comparison, DefaultComparison(t));
    if !IsEmaCross(t) && (r.spec.threshold.None? || !ThresholdOk(t, r.spec.threshold.value)) then Err(Invalid)
    else if window.Some? && !(2 <= window.value <= 500) then Err(Invalid)
    else if comparison.Some? && !(2 <= comparison.value <= 1000) then Err(Invalid)
    else if IsEmaCross(t) && window.value >= comparison.value then Err(Invalid)
    else if !IsEmaCross(t) && comparison.Some? then Err(Invalid)
    else if !(0 <= r.spec.cooldown <= 250) then Err(Invalid)
    else Ok(r.(spec := r.spec.(
                 threshold := if IsEmaCross(t) then None else r.spec.threshold,
                 window := window, comparison := comparison, operator := OperatorOf(t)),
               createdAt := WholeSecond(r.createdAt), updatedAt := WholeSecond(r.updatedAt)))
  }

  lemma RuleNormalizationIsIdempotent(r: Rule)
    requires NormalizeRule(r).Ok?
    ensures NormalizeRule(NormalizeRule(r).value) == NormalizeRule(r)
    ensures NormalizeRule(r).value.id == r.id
    ensures NormalizeRule(r).value.spec.watchlistId == r.spec.watchlistId
    ensures NormalizeRule(r).value.spec.symbol == r.spec.symbol
  {
  }

  function RuleKey(r: Rule): Key {
    Key(r.spec.watchlistId, r.spec.symbol, r.id)
  }

  /** The rule's watchlist exists and holds its symbol. */
  predicate Belongs(r: Rule, ws: seq<Watchlist>) {
    exists i | 0 <= i < |ws| :: ws[i].id == r.spec.watchlistId && r.spec.symbol in ws[i].symbols
  }

  predicate DistinctRules(rules: seq<Rule>) {
    forall i, j | 0 <= i < j < |rules| :: rules[i].id != rules[j].id
  }

  predicate AllNormalize(rules: seq<Rule>) {
    forall i | 0 <= i < |rules| :: NormalizeRule(rules[i]).Ok?
  }

  predicate AllBelong(rules: seq<Rule>, ws: seq<Watchlist>) {
    forall i | 0 <= i < |rules| :: Belongs(rules[i], ws)
  }

  function NormalizedEach(rules: seq<Rule>): (r: seq<Rule>)
    requires AllNormalize(rules)
    ensures |r| == |rules|
    ensures forall i | 0 <= i < |r| :: r[i] == NormalizeRule(rules[i]).value
  {
    seq(|rules|, i requires 0 <= i < |rules| => NormalizeRule(rules[i]).value)
  }

  /** `_normalize_rules` */
  function NormalizeRules(rules: seq<Rule>, ws: seq<Watchlist>): Result<seq<Rule>> {
    if |rules| > MAX_RULES then Err(Capacity)
    else if !AllNormalize(rules) || !DistinctRules(rules) || !AllBelong(rules, ws) then Err(Invalid)
    else Ok(SortBy(RuleKey, NormalizedEach(rules)))
  }

  /** What a normalised list of rules looks like. */
  ghost predicate CanonicalRules(rules: seq<Rule>, ws: seq<Watchlist>) {
    && |rules| <= MAX_RULES
    && DistinctRules(rules)
    && AllBelong(rules, ws)
    && Ascending(RuleKey, rules)
    && forall i | 0 <= i < |rules| :: NormalizeRule(rules[i]) == Ok(rules[i])
  }

  lemma RulesStayDistinct(s: seq<Rule>, t: seq<Rule>)
    requires DistinctRules(s) && multiset(s) == multiset(t)
    ensures DistinctRules(t)
  {
    forall i, j | 0 <= i < j < |t| ensures t[i].id != t[j].id {
      TwoPlaces(t, s, i, j);
    }
  }

  lemma NormalizedRulesAreCanonical(rules: seq<Rule>, ws: seq<Watchlist>)
    requires NormalizeRules(rules, ws).Ok?
    ensures CanonicalRules(NormalizeRules(rules, ws).value, ws)
  {
    hide NormalizeRule;
    var mapped := NormalizedEach(rules);
    var sorted := SortBy(RuleKey, mapped);
    SortSorts(RuleKey, mapped);
    assert |sorted| == |multiset(sorted)| == |multiset(mapped)|;
    forall i | 0 <= i < |rules| ensures mapped[i].id == rules[i].id {
      RuleNormalizationIsIdempotent(rules[i]);
    }
    RulesStayDistinct(mapped, sorted);
    forall i | 0 <= i < |sorted| ensures NormalizeRule(sorted[i]) == Ok(sorted[i]) && Belongs(sorted[i], ws) {
      assert sorted[i] in multiset(mapped);
      var k :| 0 <= k < |mapped| && mapped[k] == sorted[i];
      RuleNormalizationIsIdempotent(rules[k]);
      assert Belongs(rules[k], ws);
    }
  }

  lemma CanonicalRulesNormalizeToThemselves(rules: seq<Rule>, ws: seq<Watchlist>)
    requires CanonicalRules(rules, ws)
    ensures NormalizeRules(rules, ws) == Ok(rules)
  {
    assert NormalizedEach(rules) == rules;
    SortIsIdempotent(RuleKey, rules);
  }

  lemma RulesNormalizationIsIdempotent(rules: seq<Rule>, ws: seq<Watchlist>)
    requires NormalizeRules(rules, ws).Ok?
    ensures NormalizeRules(NormalizeRules(rules, ws).value, ws) == NormalizeRules(rules, ws)
  {
    NormalizedRulesAreCanonical(rules, ws);
    CanonicalRulesNormalizeToThemselves(NormalizeRules(rules, ws).value, ws);
  }

  // ----- the revision chain

  function TotalSymbols(ws: seq<Watchlist>): nat {
    if ws == [] then 0 else TotalSymbols(ws[..|ws| - 1]) + |ws[|ws| - 1].symbols|
  }

  ghost predicate CanonicalConfig(c: Config) {
    CanonicalWatchlists(c.watchlists) && CanonicalRules(c.rules, c.watchlists)
  }

  /** What reading the configuration directory checks, revision by revision. */
  ghost predicate ChainOk(configs: seq<Config>) {
    && |configs| <= MAX_CONFIG_REVISIONS
    && forall i | 0 <= i < |configs| ::
         && configs[i].revision == i + 1
         && configs[i].parent == (if i == 0 then None else Some(ConfigFingerprint(configs[i - 1])))
         && NormalizeWatchlists(configs[i].watchlists) == Ok(configs[i].watchlists)
         && NormalizeRules(configs[i].rules, configs[i].watchlists) == Ok(configs[i].rules)
  }

  function CurrentWatchlists(configs: seq<Config>): seq<Watchlist> {
    if configs == [] then [] else configs[|configs| - 1].watchlists
  }

  function CurrentRules(configs: seq<Config>): seq<Rule> {
    if configs == [] then [] else configs[|configs| - 1].rules
  }

  /** `_write_config_unlocked`: the revision that would be created, or the refusal. */
  function NextConfig(configs: seq<Config>, ws: seq<Watchlist>, rules: seq<Rule>,
                      id: nat, now: Stamp, actor: string, action: string): Result<Config>
  {
    var w := NormalizeWatchlists(ws);
    if w.Err? then Err(w.error) else
      var r := NormalizeRules(rules, w.value);
      if r.Err? then Err(r.error)
      else if TotalSymbols(w.value) > MAX_TOTAL_SYMBOLS then Err(Capacity)
      else if |configs| + 1 > MAX_CONFIG_REVISIONS then Err(Capacity)
      else Ok(Config(id, |configs| + 1, now, actor, action,
                     if configs == [] then None else Some(ConfigFingerprint(configs[|configs| - 1])),
                     w.value, r.value))
  }

  /** Everything that is written is accepted when it is read back. */
  lemma WrittenIsAcceptedOnRead(configs: seq<Config>, ws: seq<Watchlist>, rules: seq<Rule>,
                                id: nat, now: Stamp, actor: string, action: string)
    requires ChainOk(configs)
    requires NextConfig(configs, ws, rules, id, now, actor, action).Ok?
    ensures ChainOk(configs + [NextConfig(configs, ws, rules, id, now, actor, action).value])
  {
    hide NormalizeWatchlists, NormalizeRules, TotalSymbols;
    WatchlistNormalizationIsIdempotent(ws);
    RulesNormalizationIsIdempotent(rules, NormalizeWatchlists(ws).value);
  }

  lemma ReadIsCanonical(configs: seq<Config>, i: nat)
    requires ChainOk(configs) && i < |configs|
    ensures CanonicalConfig(configs[i])
  {
    NormalizedIsCanonical(configs[i].watchlists);
    NormalizedRulesAreCanonical(configs[i].rules, configs[i].watchlists);
  }

  // ----- edits

  datatype Edit =
    | AddSymbol(symbol: Symbol)
    | RemoveSymbol(symbol: Symbol)
    | Rename(name: Name)
    | SetEnabled(enabled: bool)
    | Delete

  function RemoveAll(s: seq<Symbol>, x: Symbol): (r: seq<Symbol>)
    ensures forall y :: y in r <==> y in s && y != x
    ensures |r| <= |s|
  {
    if s == [] then [] else
      assert s == s[..|s| - 1] + [s[|s| - 1]];
      var rest := RemoveAll(s[..|s| - 1], x);
      if s[|s| - 1] == x then rest else rest + [s[|s| - 1]]
  }

  predicate KeepsRule(edit: Edit, id: WatchlistId, r: Rule) {
    match edit
    case Delete => r.spec.watchlistId != id
    case RemoveSymbol(symbol) => !(r.spec.watchlistId == id && r.spec.symbol == symbol)
    case _ => true
  }

  function KeptRules(edit: Edit, id: WatchlistId, rules: seq<Rule>): (r: seq<Rule>)
    ensures |r| <= |rules|
  {
    if rules == [] then [] else
      var rest := KeptRules(edit, id, rules[..|rules| - 1]);
      if KeepsRule(edit, id, rules[|rules| - 1]) then rest + [rules[|rules| - 1]] else rest
  }

  function Edited(edit: Edit, w: Watchlist, now: Stamp): Result<Watchlist> {
    match edit
    case AddSymbol(symbol) =>
      if symbol in w.symbols then Ok(w.(updatedAt := now))
      else if |w.symbols| >= MAX_SYMBOLS_PER_WATCHLIST then Err(Capacity)
      else Ok(w.(symbols := w.symbols + [symbol], updatedAt := now))
    case RemoveSymbol(symbol) => Ok(w.(symbols := RemoveAll(w.symbols, symbol), updatedAt := now))
    case Rename(name) => if NameOk(name) then Ok(w.(name := name, updatedAt := now)) else Err(Invalid)
    case SetEnabled(enabled) => Ok(w.(enabled := enabled, updatedAt := now))
    case Delete => Ok(w)
  }

  /** `mutate_watchlist`: the lists handed to the writer. */
  function MutatedLists(edit: Edit, at: nat, ws: seq<Watchlist>, rules: seq<Rule>, now: Stamp)
      : Result<(seq<Watchlist>, seq<Rule>)>
    requires at < |ws|
  {
    var item := Edited(edit, ws[at], now);
    if item.Err? then Err(item.error)
    else Ok((if edit.Delete? then ws[..at] + ws[at + 1..] else ws[at := item.value], KeptRules(edit, ws[at].id, rules)))
  }

  lemma {:induction false} KeptRulesAreRules(edit: Edit, id: WatchlistId, rules: seq<Rule>)
    requires DistinctRules(rules)
    ensures var kept := KeptRules(edit, id, rules);
            && DistinctRules(kept)
            && forall r :: r in kept <==> r in rules && KeepsRule(edit, id, r)
  {
    if rules != [] {
      var n := |rules| - 1;
      KeptRulesAreRules(edit, id, rules[..n]);
      assert rules == rules[..n] + [rules[n]];
      var rest := KeptRules(edit, id, rules[..n]);
      forall i | 0 <= i < |rest| ensures rest[i].id != rules[n].id {
        assert rest[i] in rules[..n];
        var k :| 0 <= k < n && rules[k] == rest[i];
      }
    }
  }

  /** A watchlist in a list of watchlists, found by its place. */
  lemma SortedKeepsBelonging(r: Rule, ws: seq<Watchlist>, i: nat)
    requires i < |ws| && ws[i].id == r.spec.watchlistId && r.spec.symbol in ws[i].symbols
    ensures Belongs(r, SortBy(WatchlistKey, CanonicalList(ws)))
  {
    var mapped := CanonicalList(ws);
    SortSorts(WatchlistKey, mapped);
    assert mapped[i] in multiset(SortBy(WatchlistKey, mapped));
    var k :| 0 <= k < |mapped| && SortBy(WatchlistKey, mapped)[k] == mapped[i];
    assert r.spec.symbol in SymbolSet(ws[i].symbols);
  }

  /** The rules that survive an edit still belong to a watchlist that survives it. */
  lemma SurvivorsBelong(edit: Edit, at: nat, ws: seq<Watchlist>, r: Rule, now: Stamp)
    requires at < |ws| && DistinctWatchlists(ws) && Belongs(r, ws) && KeepsRule(edit, ws[at].id, r)
    requires Edited(edit, ws[at], now).Ok?
    ensures var after := if edit.Delete? then ws[..at] + ws[at + 1..] else ws[at := Edited(edit, ws[at], now).value];
            Belongs(r, SortBy(WatchlistKey, CanonicalList(after)))
  {
    var after := if edit.Delete? then ws[..at] + ws[at + 1..] else ws[at := Edited(edit, ws[at], now).value];
    var i :| 0 <= i < |ws| && ws[i].id == r.spec.watchlistId && r.spec.symbol in ws[i].symbols;
    var k := if edit.Delete? && i > at then i - 1 else i;
    assert after[k].id == r.spec.watchlistId && r.spec.symbol in after[k].symbols;
    SortedKeepsBelonging(r, after, k);
  }

  /**
   Edits cascade: on a valid store, deleting a watchlist, removing a symbol, switching it or
   renaming it is never refused because a rule lost its watchlist or its symbol.
   */
  lemma EditsCascade(configs: seq<Config>, edit: Edit, at: nat, now: Stamp)
    requires ChainOk(configs) && at < |CurrentWatchlists(configs)|
    requires MutatedLists(edit, at, CurrentWatchlists(configs), CurrentRules(configs), now).Ok?
    ensures var (ws, rules) := MutatedLists(edit, at, CurrentWatchlists(configs), CurrentRules(configs), now).value;
            && NormalizeWatchlists(ws).Ok?
            && NormalizeRules(rules, NormalizeWatchlists(ws).value).Ok?
  {
    hide MutatedLists, NormalizeWatchlists, NormalizeRules, CanonicalWatchlists, CanonicalRules;
    ReadIsCanonical(configs, |configs| - 1);
    EditedWatchlistsNormalize(edit, at, CurrentWatchlists(configs), CurrentRules(configs), now);
    EditedRulesNormalize(edit, at, CurrentWatchlists(configs), CurrentRules(configs), now);
  }

  lemma EditedWatchlistsNormalize(edit: Edit, at: nat, was: seq<Watchlist>, rules: seq<Rule>, now: Stamp)
    requires CanonicalWatchlists(was) && at < |was|
    requires MutatedLists(edit, at, was, rules, now).Ok?
    ensures var ws := MutatedLists(edit, at, was, rules, now).value.0;
            NormalizeWatchlists(ws) == Ok(SortBy(WatchlistKey, CanonicalList(ws)))
  {
    hide SortBy, CanonicalWatchlist, NameOk, KeptRules;
    var ws := MutatedLists(edit, at, was, rules, now).value.0;
    forall i | 0 <= i < |ws| ensures WatchlistOk(ws[i]) {
      if edit.Delete? {
        assert ws[i] == was[if i < at then i else i + 1];
      }
    }
  }

  lemma EditedRulesNormalize(edit: Edit, at: nat, was: seq<Watchlist>, wasRules: seq<Rule>, now: Stamp)
    requires CanonicalWatchlists(was) && CanonicalRules(wasRules, was) && at < |was|
    requires MutatedLists(edit, at, was, wasRules, now).Ok?
    ensures var (ws, rules) := MutatedLists(edit, at, was, wasRules, now).value;
            NormalizeRules(rules, SortBy(WatchlistKey, CanonicalList(ws))).Ok?
  {
    hide NormalizeRule, SortBy, CanonicalWatchlist, KeptRules, Belongs, KeepsRule, NameOk;
    var (ws, rules) := MutatedLists(edit, at, was, wasRules, now).value;
    KeptRulesAreRules(edit, was[at].id, wasRules);
    forall i | 0 <= i < |rules|
      ensures NormalizeRule(rules[i]).Ok? && Belongs(rules[i], SortBy(WatchlistKey, CanonicalList(ws)))
    {
      assert rules[i] in rules;
      var k :| 0 <= k < |wasRules| && wasRules[k] == rules[i];
      SurvivorsBelong(edit, at, was, rules[i], now);
    }
  }
}
