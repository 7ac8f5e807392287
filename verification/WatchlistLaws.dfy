/**
 What an accepted edit makes of the configuration: the list it names, as asked, and nothing else.
 Which rules and which configurations are accepted at all.
 */
module WatchlistLaws {
  import opened Common
  import opened MonitoringConfig

  /** The list is the old one with what the edit asks for. */
  ghost predicate Became(edit: Edit, was: Watchlist, now: Watchlist, stamp: Stamp) {
    && now.id == was.id && now.createdAt == was.createdAt
    && now.updatedAt <= stamp < now.updatedAt + 1000000 && now.updatedAt % 1000000 == 0
    && now.name == (if edit.Rename? then edit.name else was.name)
    && now.enabled == (if edit.SetEnabled? then edit.enabled else was.enabled)
    && forall s :: s in now.symbols <==>
         (s in was.symbols && !(edit.RemoveSymbol? && s == edit.symbol)) || (edit.AddSymbol? && s == edit.symbol)
  }

  lemma SortedMembers(ws: seq<Watchlist>, w: Watchlist)
    ensures w in SortBy(WatchlistKey, ws) <==> w in ws
  {
    SortSorts(WatchlistKey, ws);
    assert w in SortBy(WatchlistKey, ws) <==> w in multiset(SortBy(WatchlistKey, ws));
    assert w in ws <==> w in multiset(ws);
  }

  lemma EditedBecame(edit: Edit, was: Watchlist, stamp: Stamp)
    requires CanonicalWatchlist(was) == was && !edit.Delete? && Edited(edit, was, stamp).Ok?
    ensures Became(edit, was, CanonicalWatchlist(Edited(edit, was, stamp).value), stamp)
  {
    var w := Edited(edit, was, stamp).value;
    assert forall s :: s in CanonicalWatchlist(w).symbols <==> s in SymbolSet(w.symbols);
    assert forall s :: s in SymbolSet(w.symbols) <==> s in w.symbols;
  }

  lemma {:induction false} KeptExactly(edit: Edit, id: WatchlistId, rules: seq<Rule>)
    ensures forall r :: r in KeptRules(edit, id, rules) <==>
              r in rules && !(edit.Delete? && r.spec.watchlistId == id)
              && !(edit.RemoveSymbol? && r.spec.watchlistId == id && r.spec.symbol == edit.symbol)
  {
    if rules != [] {
      var n := |rules| - 1;
      KeptExactly(edit, id, rules[..n]);
      assert rules == rules[..n] + [rules[n]];
    }
  }

  lemma RulesAreNormalized(rules: seq<Rule>, ws: seq<Watchlist>, r: Rule)
    requires NormalizeRules(rules, ws).Ok? && forall k | k in rules :: NormalizeRule(k) == Ok(k)
    ensures r in NormalizeRules(rules, ws).value <==> r in rules
  {
    hide NormalizeRule, Belongs;
    assert NormalizedEach(rules) == rules;
    SortSorts(RuleKey, rules);
    assert r in SortBy(RuleKey, rules) <==> r in multiset(SortBy(RuleKey, rules));
    assert r in rules <==> r in multiset(rules);
  }

  /** The lists handed to the writer, as a set: the edited list changed or gone, every other one as it was. */
  lemma ListsAfter(edit: Edit, at: nat, was: seq<Watchlist>, rules: seq<Rule>, stamp: Stamp, w: Watchlist)
    requires at < |was| && DistinctWatchlists(was) && MutatedLists(edit, at, was, rules, stamp).Ok?
    ensures var after := MutatedLists(edit, at, was, rules, stamp).value.0;
            && (w.id != was[at].id ==> (w in after <==> w in was))
            && (w.id == was[at].id ==> (w in after <==> !edit.Delete? && w == Edited(edit, was[at], stamp).value))
  {
    var after := MutatedLists(edit, at, was, rules, stamp).value.0;
    EditKeepsId(edit, was[at], stamp);
    if edit.Delete? {
      assert after == was[..at] + was[at + 1..];
      forall i | 0 <= i < |was| && i != at ensures was[i] in after {
        assert after[if i < at then i else i - 1] == was[i];
      }
      forall i | 0 <= i < |after| ensures after[i] in was && after[i].id != was[at].id {
        assert after[i] == was[if i < at then i else i + 1];
      }
    } else {
      assert after == was[at := Edited(edit, was[at], stamp).value];
      forall i | 0 <= i < |was| && i != at ensures after[i] == was[i] && was[i] in after && was[i].id != was[at].id {
        assert after[i] in after;
      }
      assert after[at] in after;
    }
  }

  lemma EditKeepsId(edit: Edit, was: Watchlist, stamp: Stamp)
    requires Edited(edit, was, stamp).Ok?
    ensures Edited(edit, was, stamp).value.id == was.id
  {
  }

  /** The canonical forms of a list whose other members are canonical already. */
  lemma NormalizedMembers(ws: seq<Watchlist>, w: Watchlist)
    requires NormalizeWatchlists(ws).Ok?
    ensures w in NormalizeWatchlists(ws).value <==> exists k :: k in ws && CanonicalWatchlist(k) == w
  {
    hide CanonicalWatchlist;
    var mapped := CanonicalList(ws);
    SortedMembers(mapped, w);
    if w in mapped {
      var i :| 0 <= i < |mapped| && mapped[i] == w;
      assert ws[i] in ws && CanonicalWatchlist(ws[i]) == w;
    }
    if k :| k in ws && CanonicalWatchlist(k) == w {
      var i :| 0 <= i < |ws| && ws[i] == k;
      assert mapped[i] == w;
    }
  }

  /** What an edit of one list leads to, for every list and every rule. */
  ghost predicate DoesAsAsked(edit: Edit, was: Watchlist, before: Config, after: Config, stamp: Stamp) {
    && (forall w: Watchlist | w.id != was.id :: w in after.watchlists <==> w in before.watchlists)
    && (edit.Delete? ==> forall w | w in after.watchlists :: w.id != was.id)
    && (!edit.Delete? ==> (exists w :: w in after.watchlists && w.id == was.id)
                          && forall w | w in after.watchlists && w.id == was.id :: Became(edit, was, w, stamp))
    && forall r :: r in after.rules <==>
         r in before.rules && !(edit.Delete? && r.spec.watchlistId == was.id)
         && !(edit.RemoveSymbol? && r.spec.watchlistId == was.id && r.spec.symbol == edit.symbol)
  }

  lemma WatchlistsAsAsked(edit: Edit, at: nat, before: Config, stamp: Stamp, ws: seq<Watchlist>, w: Watchlist)
    requires CanonicalWatchlists(before.watchlists) && at < |before.watchlists|
    requires MutatedLists(edit, at, before.watchlists, before.rules, stamp).Ok?
    requires ws == MutatedLists(edit, at, before.watchlists, before.rules, stamp).value.0 && NormalizeWatchlists(ws).Ok?
    ensures w.id != before.watchlists[at].id ==> (w in NormalizeWatchlists(ws).value <==> w in before.watchlists)
    ensures w.id == before.watchlists[at].id ==>
      (w in NormalizeWatchlists(ws).value
       <==> !edit.Delete? && w == CanonicalWatchlist(Edited(edit, before.watchlists[at], stamp).value))
  {
    hide MutatedLists, NormalizeWatchlists, WatchlistOk, Ascending, SortBy;
    var was := before.watchlists;
    NormalizedMembers(ws, w);
    MutatedMeansEdited(edit, at, was, before.rules, stamp);
    forall k: Watchlist | CanonicalWatchlist(k) == w
      ensures k.id == w.id
      ensures k.id != was[at].id ==> (k in ws <==> k in was) && (k in was ==> k == w)
      ensures k.id == was[at].id ==> (k in ws <==> !edit.Delete? && k == Edited(edit, was[at], stamp).value)
    {
      ListsAfter(edit, at, was, before.rules, stamp, k);
      CanonicalKeepsId(k);
      if k in was {
        var i :| 0 <= i < |was| && was[i] == k;
        assert CanonicalWatchlist(was[i]) == was[i];
      }
    }
    if w in was {
      var i :| 0 <= i < |was| && was[i] == w;
      assert CanonicalWatchlist(was[i]) == was[i];
    }
    EditKeepsId(edit, was[at], stamp);
    CanonicalKeepsId(Edited(edit, was[at], stamp).value);
  }

  lemma MutatedMeansEdited(edit: Edit, at: nat, was: seq<Watchlist>, rules: seq<Rule>, stamp: Stamp)
    requires at < |was| && MutatedLists(edit, at, was, rules, stamp).Ok?
    ensures Edited(edit, was[at], stamp).Ok?
    ensures MutatedLists(edit, at, was, rules, stamp).value.1 == KeptRules(edit, was[at].id, rules)
  {
  }

  lemma CanonicalKeepsId(w: Watchlist)
    ensures CanonicalWatchlist(w).id == w.id
  {
  }

  /**
   An accepted edit does what it asks for.  The list it names gets the new name, the new switch, or the symbol
   more or less, or is gone, together with exactly the rules that went with it; nothing else changes.
   */
  lemma EditDoesAsAsked(configs: seq<Config>, edit: Edit, at: nat, id: nat, stamp: Stamp, actor: string, action: string, after: Config)
    requires ChainOk(configs) && at < |CurrentWatchlists(configs)|
    requires MutatedLists(edit, at, CurrentWatchlists(configs), CurrentRules(configs), stamp).Ok?
    requires var lists := MutatedLists(edit, at, CurrentWatchlists(configs), CurrentRules(configs), stamp).value;
             NextConfig(configs, lists.0, lists.1, id, stamp, actor, action) == Ok(after)
    ensures DoesAsAsked(edit, CurrentWatchlists(configs)[at], configs[|configs| - 1], after, stamp)
  {
    hide MutatedLists, NormalizeWatchlists, NormalizeRules, CanonicalWatchlist, Edited, KeptRules, NormalizeRule, SortBy, Belongs,
      WatchlistOk, Became, ChainOk;
    var before := configs[|configs| - 1];
    var was := before.watchlists[at];
    var lists := MutatedLists(edit, at, before.watchlists, before.rules, stamp).value;
    ReadIsCanonical(configs, |configs| - 1);
    MutatedMeansEdited(edit, at, before.watchlists, before.rules, stamp);
    forall w: Watchlist {
      WatchlistsAsAsked(edit, at, before, stamp, lists.0, w);
    }
    var changed := CanonicalWatchlist(Edited(edit, was, stamp).value);
    if !edit.Delete? {
      EditedBecame(edit, was, stamp);
      EditKeepsId(edit, was, stamp);
      CanonicalKeepsId(Edited(edit, was, stamp).value);
      assert changed in after.watchlists;
    }
    KeptExactly(edit, was.id, before.rules);
    forall r: Rule ensures r in after.rules <==> r in lists.1 {
      RulesAreNormalized(lists.1, NormalizeWatchlists(lists.0).value, r);
    }
  }

  // ----- which rules are accepted

  /** The window of a rule: the one given, or that of its type. */
  function WindowOf(r: Rule): Option<int> {
    match r.spec.window
    case Some(w) => Some(w)
    case None =>
      if r.spec.ruleType in {VolumeRatioAbove, VolumeRatioBelow} then Some(20)
      else if r.spec.ruleType in {EmaCrossAbove, EmaCrossBelow} then Some(12)
      else if r.spec.ruleType in {RsiAbove, RsiBelow, AtrPercentAbove} then Some(14)
      else None
  }

  /** The two averages of a crossing: the faster one is shorter than the slower one. */
  predicate CrossingOk(r: Rule) {
    var slow := if r.spec.comparison.Some? then r.spec.comparison.value else 26;
    WindowOf(r).Some? && 2 <= WindowOf(r).value < slow <= 1000 && WindowOf(r).value <= 500
  }

  /** The threshold is there and in the range its unit allows: a price, a return, a ratio, an index, a share, days. */
  ghost predicate LevelOk(r: Rule) {
    r.spec.threshold.Some? &&
    var x := r.spec.threshold.value;
    if r.spec.ruleType in {CloseAbove, CloseBelow} then 0.0 < x
    else if r.spec.ruleType in {DailyReturnAbove, DailyReturnBelow} then -1.0 <= x <= 10.0
    else if r.spec.ruleType in {VolumeRatioAbove, VolumeRatioBelow} then 0.0 <= x
    else if r.spec.ruleType in {RsiAbove, RsiBelow} then 0.0 <= x <= 100.0
    else if r.spec.ruleType == AtrPercentAbove then 0.0 <= x <= 10.0
    else exists days: nat :: days <= 365 && IsDays(x, days)
  }

  predicate IsDays(x: real, days: nat) {
    x == days as real
  }

  lemma WholeDays(x: real)
    ensures (0.0 <= x <= 365.0 && x == x.Floor as real) <==> exists days: nat :: days <= 365 && IsDays(x, days)
  {
    if 0.0 <= x <= 365.0 && x == x.Floor as real {
      assert IsDays(x, x.Floor);
    }
  }

  /**
   A rule is accepted exactly when it is a proper crossing, or has a level its type allows and no second window,
   and its windows and its cooldown are within bounds; it comes back with its defaults filled in and the
   operator its type stands for.
   */
  lemma RuleIsAcceptedExactly(r: Rule)
    ensures var crossing := r.spec.ruleType in {EmaCrossAbove, EmaCrossBelow};
            NormalizeRule(r).Ok? <==>
              && 0 <= r.spec.cooldown <= 250
              && (if crossing then CrossingOk(r) else LevelOk(r) && r.spec.comparison.None?)
              && (WindowOf(r).Some? ==> 2 <= WindowOf(r).value <= 500)
    ensures NormalizeRule(r).Ok? ==>
              var n := NormalizeRule(r).value;
              && n.id == r.id && n.spec.window == WindowOf(r) && n.spec.cooldown == r.spec.cooldown && n.spec.enabled == r.spec.enabled
              && (n.spec.operator == CrossUp <==> r.spec.ruleType == EmaCrossAbove)
              && (n.spec.operator == CrossDown <==> r.spec.ruleType == EmaCrossBelow)
              && (n.spec.operator == Lte <==> r.spec.ruleType in {CloseBelow, DailyReturnBelow, VolumeRatioBelow, RsiBelow})
              && (n.spec.threshold == if r.spec.ruleType in {EmaCrossAbove, EmaCrossBelow} then None else r.spec.threshold)
  {
    if r.spec.threshold.Some? {
      WholeDays(r.spec.threshold.value);
    }
  }

  // ----- which configurations are written

  /** Every watchlist with each of its symbols. */
  function WatchedSymbols(ws: seq<Watchlist>): set<(int, Symbol)> {
    set i, x | 0 <= i < |ws| && x in ws[i].symbols :: (i, x)
  }

  lemma {:induction false} TotalCountsTheWatched(ws: seq<Watchlist>)
    requires forall i | 0 <= i < |ws| :: |SymbolSet(ws[i].symbols)| == |ws[i].symbols|
    ensures TotalSymbols(ws) == |WatchedSymbols(ws)|
  {
    if ws == [] {
      assert WatchedSymbols(ws) == {};
    } else {
      var n := |ws| - 1;
      TotalCountsTheWatched(ws[..n]);
      var own := set x | x in SymbolSet(ws[n].symbols) :: (n, x);
      PairsSize(n, SymbolSet(ws[n].symbols));
      assert WatchedSymbols(ws) == WatchedSymbols(ws[..n]) + own;
      assert WatchedSymbols(ws[..n]) !! own;
    }
  }

  lemma {:induction false} PairsSize(n: int, symbols: set<Symbol>)
    ensures |set x | x in symbols :: (n, x)| == |symbols|
  {
    if symbols != {} {
      var x := Pick(symbols);
      PairsSize(n, symbols - {x});
      assert (set y | y in symbols :: (n, y)) == (set y | y in symbols - {x} :: (n, y)) + {(n, x)};
    }
  }

  lemma CanonicalIsCounted(ws: seq<Watchlist>)
    requires CanonicalWatchlists(ws)
    ensures forall i | 0 <= i < |ws| :: |SymbolSet(ws[i].symbols)| == |ws[i].symbols|
  {
    forall i | 0 <= i < |ws| ensures |SymbolSet(ws[i].symbols)| == |ws[i].symbols| {
      assert CanonicalWatchlist(ws[i]) == ws[i];
      SortedAscends(SymbolSet(ws[i].symbols));
    }
  }

  /**
   Of lists and rules that are proper by themselves, a revision is written exactly when no more than two thousand
   symbols are watched in all and there is a number left for it.
   */
  lemma WrittenExactly(configs: seq<Config>, ws: seq<Watchlist>, rules: seq<Rule>, id: nat, now: Stamp, actor: string, action: string)
    requires NormalizeWatchlists(ws).Ok? && NormalizeRules(rules, NormalizeWatchlists(ws).value).Ok?
    ensures NextConfig(configs, ws, rules, id, now, actor, action).Ok?
        <==> |WatchedSymbols(NormalizeWatchlists(ws).value)| <= 2000 && |configs| < 1000
  {
    hide NormalizeWatchlists, NormalizeRules, TotalSymbols, WatchedSymbols;
    NormalizedIsCanonical(ws);
    CanonicalIsCounted(NormalizeWatchlists(ws).value);
    TotalCountsTheWatched(NormalizeWatchlists(ws).value);
  }

  /** Watchlists are kept by name without regard to case, rules by watchlist and symbol; ids decide between equals. */
  lemma WrittenIsSorted(configs: seq<Config>, ws: seq<Watchlist>, rules: seq<Rule>, id: nat, now: Stamp, actor: string, action: string)
    requires NextConfig(configs, ws, rules, id, now, actor, action).Ok?
    ensures var lists := NextConfig(configs, ws, rules, id, now, actor, action).value.watchlists;
            forall i, j | 0 <= i < j < |lists| ::
              lists[i].name.folded < lists[j].name.folded || (lists[i].name.folded == lists[j].name.folded && lists[i].id < lists[j].id)
    ensures var kept := NextConfig(configs, ws, rules, id, now, actor, action).value.rules;
            forall i, j | 0 <= i < j < |kept| ::
              var a, b := kept[i].spec, kept[j].spec;
              || a.watchlistId < b.watchlistId
              || (a.watchlistId == b.watchlistId && (a.symbol < b.symbol || (a.symbol == b.symbol && kept[i].id < kept[j].id)))
  {
    hide NormalizeWatchlists, NormalizeRules, TotalSymbols, NormalizeRule, Belongs, WatchlistOk, CanonicalWatchlist;
    NormalizedIsCanonical(ws);
    var lists := NormalizeWatchlists(ws).value;
    NormalizedRulesAreCanonical(rules, lists);
    var kept := NormalizeRules(rules, lists).value;
    forall i, j | 0 <= i < j < |lists| ensures !KeyLess(WatchlistKey(lists[j]), WatchlistKey(lists[i])) && lists[i].id != lists[j].id {
    }
    forall i, j | 0 <= i < j < |kept| ensures !KeyLess(RuleKey(kept[j]), RuleKey(kept[i])) && kept[i].id != kept[j].id {
    }
  }

  /** A name of one to eighty characters, without blanks around it and without a null character. */
  predicate IsName(text: string) {
    1 <= |text| <= 80 && text[0] != ' ' && text[|text| - 1] != ' ' && '\0' !in text
  }

  function IdsOf(ws: seq<Watchlist>): set<WatchlistId> {
    set i | 0 <= i < |ws| :: ws[i].id
  }

  /** Lists are accepted exactly when there are at most fifty, each with its own id, a name, and at most 500 symbols. */
  lemma ListsAreAcceptedExactly(ws: seq<Watchlist>)
    ensures NormalizeWatchlists(ws).Ok? <==>
              && |ws| <= 50 && |IdsOf(ws)| == |ws|
              && forall i | 0 <= i < |ws| :: IsName(ws[i].name.text) && |ws[i].symbols| <= 500
    ensures |ws| > 50 <==> NormalizeWatchlists(ws) == Err(Capacity)
  {
    hide SortBy;
    DistinctIds(ws);
    forall i | 0 <= i < |ws| ensures NameOk(ws[i].name) <==> IsName(ws[i].name.text) {
      NameExactly(ws[i].name);
    }
  }

  lemma NameExactly(name: Name)
    ensures NameOk(name) <==> IsName(name.text)
  {
    if '\0' in name.text {
      var i :| 0 <= i < |name.text| && name.text[i] == '\0';
    }
  }

  lemma DistinctIds(ws: seq<Watchlist>)
    ensures DistinctWatchlists(ws) <==> |IdsOf(ws)| == |ws|
  {
    var ids := seq(|ws|, i requires 0 <= i < |ws| => ws[i].id);
    NoRepetitionExactly(ids);
    forall id ensures id in IdsOf(ws) <==> id in Elements(ids) {
      if id in IdsOf(ws) {
        var i :| 0 <= i < |ws| && ws[i].id == id;
        assert ids[i] == id;
      }
    }
    assert IdsOf(ws) == Elements(ids);
    assert NoRepetition(ids) <==> DistinctWatchlists(ws) by {
      if NoRepetition(ids) {
        forall i, j | 0 <= i < j < |ws| ensures ws[i].id != ws[j].id {
          assert ids[i] != ids[j];
        }
      }
    }
  }
}
