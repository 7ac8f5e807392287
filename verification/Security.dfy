/** The security master (security.py): instruments, universe memberships and trading-status periods. */
module Security {
  import opened Common
  import opened Periods

  datatype Instrument = Instrument(
    listing: Option<Date>,
    delisting: Option<Date>,
    priceLimit: Option<real>)

  /** What a status period says about its symbol. */
  datatype StatusNote = StatusNote(status: string, tradable: bool, priceLimit: Option<real>)

  type Membership = Row<Symbol, ()>
  type StatusPeriod = Row<Symbol, StatusNote>

  datatype SecurityMaster = SecurityMaster(
    instruments: map<Symbol, Instrument>,
    universes: map<string, seq<Membership>>,
    statusPeriods: seq<StatusPeriod>)

  datatype TradingStatus = TradingStatus(status: string, tradable: bool, priceLimit: Option<real>)

  datatype Reason = UnknownSymbol | NotYetListed | Delisted | OutsideMembership | ListingSeasoning

  predicate MembershipsWellFormed(master: SecurityMaster, rows: seq<Membership>) {
    && rows != []
    && forall i | 0 <= i < |rows| :: rows[i].key in master.instruments && rows[i].span.Ordered()
  }

  predicate StatusesWellFormed(master: SecurityMaster) {
    forall i | 0 <= i < |master.statusPeriods| ::
      var row := master.statusPeriods[i];
      && row.key in master.instruments && row.span.Ordered()
      && (row.value.priceLimit.Some? ==> 0.0 < row.value.priceLimit.value < 1.0)
  }

  /** What an accepted master guarantees: every date of every symbol is covered at most once. */
  ghost predicate Valid(master: SecurityMaster) {
    && master.instruments.Keys != {}
    && master.universes.Keys != {}
    && (forall u | u in master.universes ::
          MembershipsWellFormed(master, master.universes[u]) && AtMostOneCover(master.universes[u]))
    && StatusesWellFormed(master)
    && AtMostOneCover(master.statusPeriods)
  }

  method Validate(master: SecurityMaster) returns (accepted: bool)
    ensures accepted <==> Valid(master)
  {
    if master.instruments.Keys == {} || master.universes.Keys == {} {
      return false;
    }
    var pending := master.universes.Keys;
    while pending != {}
      invariant pending <= master.universes.Keys
      invariant forall u | u in master.universes && u !in pending ::
        MembershipsWellFormed(master, master.universes[u]) && AtMostOneCover(master.universes[u])
      decreases |pending|
    {
      var u :| u in pending;
      if !MembershipsWellFormed(master, master.universes[u]) {
        return false;
      }
      var disjoint := NonOverlapping(master.universes[u]);
      if !disjoint {
        return false;
      }
      pending := pending - {u};
    }
    if !StatusesWellFormed(master) {
      return false;
    }
    accepted := NonOverlapping(master.statusPeriods);
  }

  /** The status of a known symbol: the last matching period, else a normal, tradable day. */
  function StatusOf(master: SecurityMaster, symbol: Symbol, day: Date): TradingStatus
    requires symbol in master.instruments
  {
    var instrument := master.instruments[symbol];
    var found := LastApplying(master.statusPeriods, symbol, day);
    if found.None? then TradingStatus("normal", true, instrument.priceLimit) else
      TradingStatus(found.value.status, found.value.tradable,
                    if found.value.priceLimit.Some? then found.value.priceLimit else instrument.priceLimit)
  }

  /** In an accepted master the status of a day does not depend on how the periods are listed. */
  lemma StatusIgnoresListOrder(master: SecurityMaster, other: SecurityMaster, symbol: Symbol, day: Date)
    requires Valid(master)
    requires symbol in master.instruments && other.instruments == master.instruments
    requires multiset(other.statusPeriods) == multiset(master.statusPeriods)
    ensures StatusOf(other, symbol, day) == StatusOf(master, symbol, day)
  {
    LastApplyingIgnoresOrder(master.statusPeriods, other.statusPeriods, symbol, day);
  }

  /** The verdict of a day is the one period that covers it: no other period of the symbol does. */
  lemma StatusIsTheOnePeriod(master: SecurityMaster, symbol: Symbol, day: Date, i: nat)
    requires Valid(master) && symbol in master.instruments
    requires i < |master.statusPeriods| && RowApplies(master.statusPeriods[i], symbol, day)
    ensures StatusOf(master, symbol, day).tradable == master.statusPeriods[i].value.tradable
    ensures StatusOf(master, symbol, day).status == master.statusPeriods[i].value.status
  {
    LastApplyingIsSome(master.statusPeriods, symbol, day);
    var j :| 0 <= j < |master.statusPeriods| && RowApplies(master.statusPeriods[j], symbol, day)
      && master.statusPeriods[j].value == LastApplying(master.statusPeriods, symbol, day).value;
    TheCoverIsUnique(master.statusPeriods, symbol, day, i, j);
  }

  function ReasonsFor(
      master: SecurityMaster, universe: string, symbol: Symbol, day: Date, minimumListingDays: int): (r: seq<Reason>)
    requires universe in master.universes
  {
    if symbol !in master.instruments then [UnknownSymbol] else
      var it := master.instruments[symbol];
      (if it.listing.Some? && day < it.listing.value then [NotYetListed] else [])
      + (if it.delisting.Some? && day > it.delisting.value then [Delisted] else [])
      + (if exists row | row in master.universes[universe] :: RowApplies(row, symbol, day) then []
         else [OutsideMembership])
      + (if minimumListingDays > 0 && it.listing.Some? && day < it.listing.value + minimumListingDays
         then [ListingSeasoning] else [])
  }

  /** A symbol is active exactly when it is listed, a member, and seasoned on the day. */
  ghost predicate Eligible(
      master: SecurityMaster, universe: string, symbol: Symbol, day: Date, minimumListingDays: int)
    requires universe in master.universes
  {
    && symbol in master.instruments
    && var it := master.instruments[symbol];
    && (it.listing.Some? ==> it.listing.value <= day && it.listing.value + minimumListingDays <= day)
    && (it.delisting.Some? ==> day <= it.delisting.value)
    && exists row :: row in master.universes[universe] && row.key == symbol && row.span.Covers(day)
  }

  lemma NoReasonsMeansEligible(
      master: SecurityMaster, universe: string, symbol: Symbol, day: Date, minimumListingDays: int)
    requires universe in master.universes && minimumListingDays >= 0
    ensures ReasonsFor(master, universe, symbol, day, minimumListingDays) == []
      <==> Eligible(master, universe, symbol, day, minimumListingDays)
  {
    if symbol in master.instruments {
      var member := exists row | row in master.universes[universe] :: RowApplies(row, symbol, day);
      assert member <==> exists row :: row in master.universes[universe] && row.key == symbol && row.span.Covers(day) by {
        if row :| row in master.universes[universe] && row.key == symbol && row.span.Covers(day) {
          assert RowApplies(row, symbol, day);
        }
      }
    }
  }

  /** Each eligible member once, in the order of first appearance. */
  method ActiveSymbols(master: SecurityMaster, universe: string, day: Date, minimumListingDays: nat)
      returns (active: Option<seq<Symbol>>)
    ensures active.None? <==> universe !in master.universes
    ensures active.Some? ==> forall s :: s in active.value <==> Eligible(master, universe, s, day, minimumListingDays)
    ensures active.Some? ==> forall i, j | 0 <= i < j < |active.value| :: active.value[i] != active.value[j]
  {
    if universe !in master.universes {
      return None;
    }
    var rows := master.universes[universe];
    var result: seq<Symbol> := [];
    var seen: set<Symbol> := {};
    for i := 0 to |rows|
      invariant forall s :: s in seen <==> s in result
      invariant forall a, b | 0 <= a < b < |result| :: result[a] != result[b]
      invariant forall s | s in result :: ReasonsFor(master, universe, s, day, minimumListingDays) == []
      invariant forall k | 0 <= k < i ::
        rows[k].key in result || ReasonsFor(master, universe, rows[k].key, day, minimumListingDays) != []
    {
      var symbol := rows[i].key;
      if symbol in seen {
        continue;
      }
      if ReasonsFor(master, universe, symbol, day, minimumListingDays) == [] {
        result := result + [symbol];
        seen := seen + {symbol};
      }
    }
    forall s ensures s in result <==> Eligible(master, universe, s, day, minimumListingDays) {
      NoReasonsMeansEligible(master, universe, s, day, minimumListingDays);
      if Eligible(master, universe, s, day, minimumListingDays) {
        var row :| row in rows && row.key == s && row.span.Covers(day);
        var k :| 0 <= k < |rows| && rows[k] == row;
        assert rows[k].key == s;
      }
    }
    return Some(result);
  }

  /**
   The status of a day, whole: what the one covering period says, with the price limit of the period where it
   sets one and of the instrument otherwise; a day without a period is a normal, tradable one.
   */
  lemma StatusExactly(master: SecurityMaster, symbol: Symbol, day: Date)
    requires Valid(master) && symbol in master.instruments
    ensures var own := master.instruments[symbol].priceLimit;
            var status := StatusOf(master, symbol, day);
            && (forall i | 0 <= i < |master.statusPeriods| && master.statusPeriods[i].key == symbol && master.statusPeriods[i].span.Covers(day) ::
                  var note := master.statusPeriods[i].value;
                  && status.status == note.status && status.tradable == note.tradable
                  && (note.priceLimit.Some? ==> status.priceLimit == note.priceLimit)
                  && (note.priceLimit.None? ==> status.priceLimit == own))
            && ((forall i | 0 <= i < |master.statusPeriods| ::
                   !(master.statusPeriods[i].key == symbol && master.statusPeriods[i].span.Covers(day)))
                ==> status.status == "normal" && status.tradable && status.priceLimit == own)
  {
    LastApplyingIsSome(master.statusPeriods, symbol, day);
    forall i | 0 <= i < |master.statusPeriods| && master.statusPeriods[i].key == symbol && master.statusPeriods[i].span.Covers(day)
      ensures LastApplying(master.statusPeriods, symbol, day) == Some(master.statusPeriods[i].value)
    {
      assert RowApplies(master.statusPeriods[i], symbol, day);
      var j :| 0 <= j < |master.statusPeriods| && RowApplies(master.statusPeriods[j], symbol, day)
        && master.statusPeriods[j].value == LastApplying(master.statusPeriods, symbol, day).value;
      TheCoverIsUnique(master.statusPeriods, symbol, day, i, j);
    }
  }

  /** Each reason is given exactly when it holds; an unknown symbol has that one reason alone. */
  lemma ReasonsExactly(master: SecurityMaster, universe: string, symbol: Symbol, day: Date, minimumListingDays: int)
    requires universe in master.universes
    ensures var reasons := ReasonsFor(master, universe, symbol, day, minimumListingDays);
            && (UnknownSymbol in reasons <==> symbol !in master.instruments)
            && (symbol !in master.instruments ==> reasons == [UnknownSymbol])
            && (symbol in master.instruments ==>
                  var listing, delisting := master.instruments[symbol].listing, master.instruments[symbol].delisting;
                  && (NotYetListed in reasons <==> listing.Some? && day < listing.value)
                  && (Delisted in reasons <==> delisting.Some? && delisting.value < day)
                  && (ListingSeasoning in reasons
                      <==> listing.Some? && minimumListingDays >= 1 && day - listing.value < minimumListingDays)
                  && (OutsideMembership in reasons
                      <==> forall row | row in master.universes[universe] && row.key == symbol :: !row.span.Covers(day)))
  {
    if symbol in master.instruments {
      var member := exists row | row in master.universes[universe] :: RowApplies(row, symbol, day);
      if row :| row in master.universes[universe] && row.key == symbol && row.span.Covers(day) {
        assert RowApplies(row, symbol, day);
      }
    }
  }
}
