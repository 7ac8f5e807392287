/** The mutable portfolio and the executor that updates it in place (execution.py). */
module PortfolioModule {
  import opened Common
  import opened Costs
  import opened Execution

  /** `portfolio_value` at the prices of `mark`; positions without any bar count nothing. */
  method PortfolioValue(a: Account, mark: Symbol -> real) returns (value: real)
    ensures value == Worth(a, mark)
  {
    hide Marked;
    value := a.cash;
    ghost var f := s => Marked(a.positions, mark, s);
    var pending := a.positions.Keys;
    while pending != {}
      invariant pending <= a.positions.Keys
      invariant value + SumOver(pending, f) == Worth(a, mark)
      decreases |pending|
    {
      var s :| s in pending;
      SumSplit(pending, f, s);
      value := value + Marked(a.positions, mark, s);
      pending := pending - {s};
    }
  }

  function LotFold(x: Session, t: Targets, equity: real, order: seq<Symbol>): map<Symbol, int> {
    if order == [] then map[] else
      var s := order[|order| - 1];
      var before := LotFold(x, t, equity, order[..|order| - 1]);
      if s in t.weight && CanPlan(x, t, s)
      then before[s := LotQuantity(Budget(equity, t.weight[s]), x.market.bar(s, x.day).value.open, x.market.instrument(s).lotSize)] else before
  }

  lemma {:induction false} LotFoldOver(x: Session, t: Targets, equity: real, order: seq<Symbol>)
    ensures forall s :: s in LotFold(x, t, equity, order) <==> s in order && s in LotPlan(x, t, equity)
    ensures forall s | s in LotFold(x, t, equity, order) ::
              LotFold(x, t, equity, order)[s] == LotPlan(x, t, equity)[s]
  {
    hide LotQuantity;
    if order != [] {
      var n := |order| - 1;
      assert order == order[..n] + [order[n]];
      LotFoldOver(x, t, equity, order[..n]);
    }
  }

  lemma LotFoldIsLotPlan(x: Session, t: Targets, equity: real)
    requires t.Valid()
    ensures LotFold(x, t, equity, t.order) == LotPlan(x, t, equity)
  {
    hide LotQuantity;
    LotFoldOver(x, t, equity, t.order);
    forall s | s in LotPlan(x, t, equity) ensures s in t.order {
      assert s in t.weight;
    }
    var fold, plan := LotFold(x, t, equity, t.order), LotPlan(x, t, equity);
    forall s ensures s in fold <==> s in plan {
    }
    assert fold == plan;
  }

  function BandOver(x: Session, t: Targets, equity: real, band: real, positions: Positions, seen: set<Symbol>): map<Symbol, int>
    requires equity > 0.0
  {
    map s | s in seen && s in t.weight && s in positions && InBand(x, t, band, equity, positions, s) :: positions[s]
  }

  lemma BandOverGrows(x: Session, t: Targets, equity: real, band: real, positions: Positions, seen: set<Symbol>, s: Symbol)
    requires equity > 0.0 && s in t.weight && s in positions
    ensures BandOver(x, t, equity, band, positions, seen + {s})
         == if InBand(x, t, band, equity, positions, s)
            then BandOver(x, t, equity, band, positions, seen)[s := positions[s]]
            else BandOver(x, t, equity, band, positions, seen)
  {
    hide InBand;
  }

  lemma BandOverNothing(x: Session, t: Targets, equity: real, band: real, positions: Positions, base: map<Symbol, int>)
    requires equity > 0.0
    ensures base + BandOver(x, t, equity, band, positions, {}) == base
  {
    assert BandOver(x, t, equity, band, positions, {}) == map[];
  }

  lemma BandOverAll(x: Session, t: Targets, equity: real, band: real, positions: Positions)
    requires equity > 0.0
    ensures BandOver(x, t, equity, band, positions, positions.Keys * t.weight.Keys) == BandPlan(x, t, equity, band, positions)
  {
    hide InBand;
  }

  lemma PutLast(base: map<Symbol, int>, more: map<Symbol, int>, s: Symbol, quantity: int)
    ensures base + more[s := quantity] == (base + more)[s := quantity]
  {
  }

  class Portfolio {
    var cash: real
    var positions: Positions
    var highWaterMark: real

    constructor (cash: real, highWaterMark: real)
      ensures Account() == Execution.Account(cash, map[]) && this.highWaterMark == highWaterMark
    {
      this.cash := cash;
      this.positions := map[];
      this.highWaterMark := highWaterMark;
    }

    function Account(): Account
      reads this
    {
      Execution.Account(cash, positions)
    }

    method Set(s: Symbol, quantity: int)
      modifies this`positions
      ensures positions == SetPosition(old(positions), s, quantity)
    {
      if quantity > 0 {
        positions := positions[s := quantity];
      } else {
        positions := positions - {s};
      }
    }

    /** The first loop of the plan: one affordable quantity per weight that has a valid opening bar. */
    method PlanLots(x: Session, t: Targets, equity: real, log: seq<Rejection>)
        returns (target: map<Symbol, int>, rejections: seq<Rejection>)
      requires t.Valid()
      ensures target == LotPlan(x, t, equity)
      ensures rejections == log + PlanRejections(x, t, t.order)
    {
      hide LotQuantity, LotPlan;
      target := map[];
      rejections := log;
      for i := 0 to |t.order|
        invariant target == LotFold(x, t, equity, t.order[..i])
        invariant rejections == log + PlanRejections(x, t, t.order[..i])
      {
        var s := t.order[i];
        assert t.order[..i + 1][..i] == t.order[..i];
        var bar := x.market.bar(s, x.day);
        if bar.None? || bar.value.open <= 0.0 || t.weight[s] <= 0.0 {
          if t.weight[s] > 0.0 {
            rejections := rejections + [Rejection(x.day, s, Buy, NoValidOpeningBar)];
          }
        } else {
          target := target[s := LotQuantity(Budget(equity, t.weight[s]), bar.value.open, x.market.instrument(s).lotSize)];
        }
      }
      assert t.order[..|t.order|] == t.order;
      LotFoldIsLotPlan(x, t, equity);
    }

    /** The second loop of the plan: positions inside the rebalance band keep their quantity. */
    method ApplyBand(x: Session, t: Targets, equity: real, band: real, base: map<Symbol, int>)
        returns (target: map<Symbol, int>)
      requires equity > 0.0
      ensures target == base + BandPlan(x, t, equity, band, positions)
    {
      hide InBand, BandOver, BandPlan;
      target := base;
      var pending := positions.Keys * t.weight.Keys;
      var seen: set<Symbol> := {};
      BandOverNothing(x, t, equity, band, positions, base);
      while pending != {}
        invariant pending + seen == positions.Keys * t.weight.Keys
        invariant target == base + BandOver(x, t, equity, band, positions, seen)
        decreases |pending|
      {
        ghost var some := Pick(pending);
        var s :| s in pending;
        BandOverGrows(x, t, equity, band, positions, seen, s);
        if InBand(x, t, band, equity, positions, s) {
          PutLast(base, BandOver(x, t, equity, band, positions, seen), s, positions[s]);
          target := target[s := positions[s]];
        }
        pending, seen := pending - {s}, seen + {s};
      }
      assert seen == positions.Keys * t.weight.Keys;
      BandOverAll(x, t, equity, band, positions);
    }

    /** One symbol of the sell phase. */
    method SellSymbol(x: Session, target: map<Symbol, int>, s: Symbol, ghost desk: Desk)
        returns (trades: seq<Trade>, rejections: seq<Rejection>)
      requires Account() == desk.account
      modifies this`cash, this`positions
      ensures SellOne(x, target, desk, s)
           == Desk(Account(), desk.trades + trades, desk.rejections + rejections, desk.sellBlocked || rejections != [])
    {
      hide Commission, OrderRestriction, Lookup;
      trades, rejections := [], [];
      var current, wanted := Quantity(positions, s), Quantity(target, s);
      if current <= wanted {
        return;
      }
      var bar := x.market.bar(s, x.day);
      if bar.None? {
        rejections := [Rejection(x.day, s, Sell, NoOpeningBar)];
        return;
      }
      var restriction := OrderRestriction(x.market, s, x.day, Sell);
      if restriction.Some? {
        rejections := [Rejection(x.day, s, Sell, Restricted(restriction.value))];
        return;
      }
      var trade := SellTrade(x, s, bar.value.open, current - wanted);
      cash := cash + (trade.notional - trade.commission - trade.stampDuty - trade.transferFee);
      Set(s, wanted);
      trades := [trade];
    }

    /** One symbol of the buy phase. */
    method BuySymbol(x: Session, target: map<Symbol, int>, s: Symbol, ghost desk: Desk)
        returns (trades: seq<Trade>, rejections: seq<Rejection>)
      requires Account() == desk.account
      modifies this`cash, this`positions
      ensures BuyOne(x, target, desk, s)
           == Desk(Account(), desk.trades + trades, desk.rejections + rejections, desk.sellBlocked)
    {
      hide Commission, OrderRestriction, Shrink, Lookup, BuyPrice;
      trades, rejections := [], [];
      var current := Quantity(positions, s);
      if s !in target || target[s] - current <= 0 {
        return;
      }
      var bar := x.market.bar(s, x.day);
      if bar.None? {
        rejections := [Rejection(x.day, s, Buy, NoOpeningBar)];
        return;
      }
      var restriction := OrderRestriction(x.market, s, x.day, Buy);
      if restriction.Some? {
        rejections := [Rejection(x.day, s, Buy, Restricted(restriction.value))];
        return;
      }
      var quantity := FillQuantity(x, s, bar.value.open, cash, target[s] - current);
      if quantity < x.market.instrument(s).lotSize {
        return;
      }
      var trade := BuyTrade(x, s, bar.value.open, quantity);
      cash := cash - (trade.notional + trade.commission + trade.transferFee);
      Set(s, current + quantity);
      trades := [trade];
    }

    /** `execute_target_weights`. */
    method ExecuteTargetWeights(x: Session, t: Targets, band: real, log: seq<Rejection>)
        returns (trades: seq<Trade>, rejections: seq<Rejection>, ghost blocked: bool)
      requires t.Valid()
      modifies this`cash, this`positions
      ensures Desk(Account(), trades, rejections, blocked) == Execute(x, old(Account()), t, band, log)
    {
      hide SellOne, BuyOne, LotPlan, BandPlan, PlanRejections, Worth;
      var equity := PortfolioValue(Account(), OpenMark(x.market, x.day));
      var target;
      target, rejections := PlanLots(x, t, equity, log);
      if band > 0.0 && equity > 0.0 {
        target := ApplyBand(x, t, equity, band, target);
      }
      assert target == Plan(x, old(Account()), t, band);
      ghost var desk := Desk(Account(), [], rejections, false);
      ghost var start := desk;
      trades := [];
      var sellBlocked := false;
      var all := Sorted(positions.Keys + target.Keys);
      for i := 0 to |all|
        invariant desk == Desk(Account(), trades, rejections, sellBlocked)
        invariant desk == SellAll(x, target, start, all[..i])
      {
        assert all[..i + 1][..i] == all[..i];
        var sold, refused := SellSymbol(x, target, all[i], desk);
        desk := SellOne(x, target, desk, all[i]);
        trades, rejections := trades + sold, rejections + refused;
        sellBlocked := sellBlocked || refused != [];
      }
      assert all[..|all|] == all;
      blocked := sellBlocked;
      if sellBlocked {
        var refused := RefuseBuys(x, target, positions);
        rejections := rejections + refused;
        return;
      }
      var order := ByWeight(t, t.order);
      ghost var sold := desk;
      for i := 0 to |order|
        invariant desk == Desk(Account(), trades, rejections, false)
        invariant desk == BuyAll(x, target, sold, order[..i])
      {
        assert order[..i + 1][..i] == order[..i];
        var bought, refused := BuySymbol(x, target, order[i], desk);
        desk := BuyOne(x, target, desk, order[i]);
        trades, rejections := trades + bought, rejections + refused;
      }
      assert order[..|order|] == order;
    }
  }

  method RefuseBuys(x: Session, target: map<Symbol, int>, positions: Positions) returns (refused: seq<Rejection>)
    ensures refused == BlockedBuys(x, target, positions, Sorted(target.Keys))
  {
    var symbols := Sorted(target.Keys);
    refused := [];
    for i := 0 to |symbols|
      invariant refused == BlockedBuys(x, target, positions, symbols[..i])
    {
      var s := symbols[i];
      assert symbols[..i + 1][..i] == symbols[..i];
      if target[s] > Quantity(positions, s) {
        refused := refused + [Rejection(x.day, s, Buy, BuyPhaseBlocked)];
      }
    }
    assert symbols[..|symbols|] == symbols;
  }

  /** The shrinking loop: from the desired quantity down, lot by lot, to the first that fits the cash. */
  method FillQuantity(x: Session, s: Symbol, open: real, cash: real, desired: int) returns (quantity: int)
    ensures var c := ScheduleFor(x, s);
            quantity == Shrink(c, BuyPrice(c, open), cash, x.market.instrument(s).lotSize, desired)
  {
    hide Shrink, Lookup;
    var lot := x.market.instrument(s).lotSize;
    var c := ForInstrument(x.costs, x.market.instrument(s).instrumentType, x.day);
    var price := BuyPrice(c, open);
    quantity := ShrinkToFit(c, price, cash, lot, desired);
  }

  method ShrinkToFit(c: Schedule, price: real, cash: real, lot: int, desired: int) returns (quantity: int)
    requires lot > 0
    ensures quantity == Shrink(c, price, cash, lot, desired)
  {
    hide BuyOutlay;
    quantity := desired;
    while quantity >= lot
      invariant Shrink(c, price, cash, lot, quantity) == Shrink(c, price, cash, lot, desired)
      decreases quantity
    {
      var outlay := BuyOutlay(c, price, quantity);
      if outlay <= cash + Tolerance {
        break;
      }
      quantity := quantity - lot;
    }
  }
}
