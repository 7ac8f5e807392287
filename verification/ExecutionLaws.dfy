/** What every call of the order executor guarantees. */
module ExecutionLaws {
  import opened Common
  import opened Costs
  import opened Execution

  /** Non-negative rates (checked by the configuration) and non-negative opening prices. */
  ghost predicate Sane(x: Session) {
    && ValuesValid(x.costs)
    && forall s: Symbol :: x.market.bar(s, x.day).Some? ==> x.market.bar(s, x.day).value.open >= 0.0
  }

  // ----- replay: the trades say everything that happened to the account

  lemma ReplayAppends(a: Account, trades: seq<Trade>, t: Trade)
    ensures Replay(a, trades + [t]) == ApplyTrade(Replay(a, trades), t)
    ensures CostOf(trades + [t]) == CostOf(trades) + t.TotalCost()
  {
    assert (trades + [t])[..|trades|] == trades;
  }

  lemma {:induction false} ReplayConcat(a: Account, first: seq<Trade>, second: seq<Trade>)
    ensures Replay(a, first + second) == Replay(Replay(a, first), second)
    ensures CostOf(first + second) == CostOf(first) + CostOf(second)
  {
    if second == [] {
      assert first + second == first;
    } else {
      var n := |second| - 1;
      ReplayConcat(a, first, second[..n]);
      assert first + second == (first + second[..n]) + [second[n]];
      ReplayAppends(a, first + second[..n], second[n]);
    }
  }

  lemma {:induction false} SellAllReplays(
      x: Session, target: map<Symbol, int>, a: Account, desk: Desk, symbols: seq<Symbol>)
    requires desk.account == Replay(a, desk.trades)
    ensures var after := SellAll(x, target, desk, symbols);
            after.account == Replay(a, after.trades) && desk.trades <= after.trades
  {
    if symbols != [] {
      var n := |symbols| - 1;
      SellAllReplays(x, target, a, desk, symbols[..n]);
      var mid, after := SellAll(x, target, desk, symbols[..n]), SellAll(x, target, desk, symbols);
      if after.trades != mid.trades {
        ReplayAppends(a, mid.trades, after.trades[|mid.trades|]);
      }
    }
  }

  lemma {:induction false} BuyAllReplays(
      x: Session, target: map<Symbol, int>, a: Account, desk: Desk, symbols: seq<Symbol>)
    requires desk.account == Replay(a, desk.trades)
    ensures var after := BuyAll(x, target, desk, symbols);
            after.account == Replay(a, after.trades) && desk.trades <= after.trades
  {
    if symbols != [] {
      var n := |symbols| - 1;
      BuyAllReplays(x, target, a, desk, symbols[..n]);
      var mid, after := BuyAll(x, target, desk, symbols[..n]), BuyAll(x, target, desk, symbols);
      if after.trades != mid.trades {
        ReplayAppends(a, mid.trades, after.trades[|mid.trades|]);
      }
    }
  }

  /** Folding the returned trades over the account before the call gives the account after it. */
  lemma ExecuteReplays(x: Session, a: Account, t: Targets, band: real, log: seq<Rejection>)
    requires t.Valid()
    ensures var after := Execute(x, a, t, band, log); after.account == Replay(a, after.trades)
  {
    var target := Plan(x, a, t, band);
    var start := Desk(a, [], log + PlanRejections(x, t, t.order), false);
    SellAllReplays(x, target, a, start, Sorted(a.positions.Keys + target.Keys));
    BuyAllReplays(x, target, a, AfterSells(x, a, t, band, log), ByWeight(t, t.order));
  }

  // ----- conservation of value

  lemma SlippageIsTheGap(open: real, bps: real)
    requires open >= 0.0 && bps >= 0.0
    ensures Abs(open * (1.0 - bps / 10000.0) - open) == open - open * (1.0 - bps / 10000.0)
    ensures Abs(open * (1.0 + bps / 10000.0) - open) == open * (1.0 + bps / 10000.0) - open
  {
    var rate := bps / 10000.0;
    assert rate >= 0.0;
    assert open * rate >= 0.0;
    assert open * (1.0 - rate) == open - open * rate;
    assert open * (1.0 + rate) == open + open * rate;
  }

  /** A sale gives up exactly the slippage below the opening value; a purchase pays it on top. */
  lemma SlippageBooksTheGap(x: Session, s: Symbol, open: real, quantity: int)
    requires ValuesValid(x.costs) && open >= 0.0
    ensures var t := SellTrade(x, s, open, quantity); t.notional + t.slippageCost == quantity as real * open
    ensures var t := BuyTrade(x, s, open, quantity); t.notional - t.slippageCost == quantity as real * open
  {
    hide Commission;
    LookupIsValid(x.costs, x.market.instrument(s).instrumentType, x.day);
    SlippageIsTheGap(open, ScheduleFor(x, s).slippageBps);
    var sale, purchase := SellTrade(x, s, open, quantity), BuyTrade(x, s, open, quantity);
    Spread(quantity as real, open, sale.price);
    Spread(quantity as real, purchase.price, open);
  }

  lemma Spread(q: real, a: real, b: real)
    ensures q * (a - b) == q * a - q * b
  {
  }

  lemma SaleBooks(a: Account, t: Trade, mark: Symbol -> real)
    requires t.side.Sell? && 0 < t.quantity <= Quantity(a.positions, t.symbol)
    requires t.notional + t.slippageCost == t.quantity as real * mark(t.symbol)
    ensures Worth(ApplyTrade(a, t), mark) == Worth(a, mark) - t.TotalCost()
  {
    SetPositionWorth(a.positions, mark, t.symbol, Quantity(a.positions, t.symbol) - t.quantity);
    assert (-t.quantity) as real * mark(t.symbol) == -(t.quantity as real * mark(t.symbol));
  }

  lemma PurchaseBooks(a: Account, t: Trade, mark: Symbol -> real)
    requires t.side.Buy? && t.quantity > 0 && Quantity(a.positions, t.symbol) + t.quantity >= 0
    requires t.notional - t.slippageCost == t.quantity as real * mark(t.symbol)
    requires t.stampDuty == 0.0
    ensures Worth(ApplyTrade(a, t), mark) == Worth(a, mark) - t.TotalCost()
  {
    SetPositionWorth(a.positions, mark, t.symbol, Quantity(a.positions, t.symbol) + t.quantity);
  }

  /** `_set_position` never stores a position that is not positive. */
  predicate AllPositive(positions: Positions) {
    forall s | s in positions :: positions[s] > 0
  }

  predicate NonNegativePlan(target: map<Symbol, int>) {
    forall s | s in target :: target[s] >= 0
  }

  lemma PlanIsNonNegative(x: Session, a: Account, t: Targets, band: real)
    requires AllPositive(a.positions)
    ensures NonNegativePlan(Plan(x, a, t, band))
  {
  }

  /** Value plus the costs booked so far. */
  function Accounted(x: Session, desk: Desk): real {
    Worth(desk.account, OpenMark(x.market, x.day)) + CostOf(desk.trades)
  }

  lemma SellOneConserves(x: Session, target: map<Symbol, int>, desk: Desk, s: Symbol)
    requires Sane(x) && NonNegativePlan(target) && AllPositive(desk.account.positions)
    ensures Accounted(x, SellOne(x, target, desk, s)) == Accounted(x, desk)
    ensures AllPositive(SellOne(x, target, desk, s).account.positions)
  {
    hide Commission, OrderRestriction, Worth, Abs;
    var after := SellOne(x, target, desk, s);
    if after.trades != desk.trades {
      var trade := after.trades[|desk.trades|];
      assert trade == SellTrade(x, s, x.market.bar(s, x.day).value.open, trade.quantity);
      assert trade.quantity == Quantity(desk.account.positions, s) - Quantity(target, s);
      SlippageBooksTheGap(x, s, x.market.bar(s, x.day).value.open, trade.quantity);
      SaleBooks(desk.account, trade, OpenMark(x.market, x.day));
      ReplayAppends(desk.account, desk.trades, trade);
    }
  }

  lemma {:induction false} SellAllConserves(
      x: Session, target: map<Symbol, int>, desk: Desk, symbols: seq<Symbol>)
    requires Sane(x) && NonNegativePlan(target) && AllPositive(desk.account.positions)
    ensures Accounted(x, SellAll(x, target, desk, symbols)) == Accounted(x, desk)
    ensures AllPositive(SellAll(x, target, desk, symbols).account.positions)
  {
    if symbols != [] {
      var n := |symbols| - 1;
      SellAllConserves(x, target, desk, symbols[..n]);
      SellOneConserves(x, target, SellAll(x, target, desk, symbols[..n]), symbols[n]);
    }
  }

  lemma BuyOneConserves(x: Session, target: map<Symbol, int>, desk: Desk, s: Symbol)
    requires Sane(x) && AllPositive(desk.account.positions)
    ensures Accounted(x, BuyOne(x, target, desk, s)) == Accounted(x, desk)
    ensures AllPositive(BuyOne(x, target, desk, s).account.positions)
  {
    hide Commission, Shrink, OrderRestriction, Worth, Abs;
    var after := BuyOne(x, target, desk, s);
    if after.trades != desk.trades {
      var trade := after.trades[|desk.trades|];
      assert trade == BuyTrade(x, s, x.market.bar(s, x.day).value.open, trade.quantity);
      SlippageBooksTheGap(x, s, x.market.bar(s, x.day).value.open, trade.quantity);
      PurchaseBooks(desk.account, trade, OpenMark(x.market, x.day));
      ReplayAppends(desk.account, desk.trades, trade);
    }
  }

  lemma {:induction false} BuyAllConserves(
      x: Session, target: map<Symbol, int>, desk: Desk, symbols: seq<Symbol>)
    requires Sane(x) && AllPositive(desk.account.positions)
    ensures Accounted(x, BuyAll(x, target, desk, symbols)) == Accounted(x, desk)
    ensures AllPositive(BuyAll(x, target, desk, symbols).account.positions)
  {
    if symbols != [] {
      var n := |symbols| - 1;
      BuyAllConserves(x, target, desk, symbols[..n]);
      BuyOneConserves(x, target, BuyAll(x, target, desk, symbols[..n]), symbols[n]);
    }
  }

  /** Marked at the open, the call loses exactly the transaction costs of the trades it returns. */
  lemma ExecuteConserves(x: Session, a: Account, t: Targets, band: real, log: seq<Rejection>)
    requires t.Valid() && Sane(x) && AllPositive(a.positions)
    ensures var after := Execute(x, a, t, band, log);
            var mark := OpenMark(x.market, x.day);
            && Worth(after.account, mark) == Worth(a, mark) - CostOf(after.trades)
            && AllPositive(after.account.positions)
  {
    var target := Plan(x, a, t, band);
    PlanIsNonNegative(x, a, t, band);
    var start := Desk(a, [], log + PlanRejections(x, t, t.order), false);
    SellAllConserves(x, target, start, Sorted(a.positions.Keys + target.Keys));
    BuyAllConserves(x, target, AfterSells(x, a, t, band, log), ByWeight(t, t.order));
  }

  // ----- the shape of the trade list

  ghost predicate AllOn(trades: seq<Trade>, side: Side) {
    forall i | 0 <= i < |trades| :: trades[i].side == side && trades[i].quantity > 0
  }

  lemma {:induction false} SellAllOnlySells(
      x: Session, target: map<Symbol, int>, desk: Desk, symbols: seq<Symbol>)
    requires AllOn(desk.trades, Sell)
    ensures AllOn(SellAll(x, target, desk, symbols).trades, Sell)
  {
    if symbols != [] {
      SellAllOnlySells(x, target, desk, symbols[..|symbols| - 1]);
    }
  }

  lemma {:induction false} BuyAllOnlyBuys(
      x: Session, target: map<Symbol, int>, desk: Desk, symbols: seq<Symbol>)
    ensures var after := BuyAll(x, target, desk, symbols);
            desk.trades <= after.trades && AllOn(after.trades[|desk.trades|..], Buy)
  {
    if symbols != [] {
      BuyAllOnlyBuys(x, target, desk, symbols[..|symbols| - 1]);
    }
  }

  /** Sales come first; when one that was needed cannot execute, nothing is bought. */
  lemma SellsPrecedeBuys(x: Session, a: Account, t: Targets, band: real, log: seq<Rejection>)
    requires t.Valid()
    ensures var sold := AfterSells(x, a, t, band, log);
            var after := Execute(x, a, t, band, log);
            && sold.trades <= after.trades
            && AllOn(sold.trades, Sell)
            && AllOn(after.trades[|sold.trades|..], Buy)
            && (sold.sellBlocked ==> after.trades == sold.trades && after.account == sold.account)
  {
    var target := Plan(x, a, t, band);
    var start := Desk(a, [], log + PlanRejections(x, t, t.order), false);
    SellAllOnlySells(x, target, start, Sorted(a.positions.Keys + target.Keys));
    BuyAllOnlyBuys(x, target, AfterSells(x, a, t, band, log), ByWeight(t, t.order));
  }

  /** An empty target set only ever sells. */
  lemma NoTargetsNoBuys(x: Session, a: Account, band: real, log: seq<Rejection>)
    ensures AllOn(Execute(x, a, NoTargets, band, log).trades, Sell)
  {
    SellsPrecedeBuys(x, a, NoTargets, band, log);
    assert ByWeight(NoTargets, []) == [];
  }

  /** Unless a sale was blocked, the sell phase leaves no position above its target. */
  lemma {:induction false} SellAllReachesTargets(
      x: Session, target: map<Symbol, int>, desk: Desk, symbols: seq<Symbol>)
    requires NonNegativePlan(target)
    requires forall i, j | 0 <= i < j < |symbols| :: symbols[i] != symbols[j]
    ensures var after := SellAll(x, target, desk, symbols);
            && (desk.sellBlocked ==> after.sellBlocked)
            && (forall s | s !in symbols :: Quantity(after.account.positions, s) == Quantity(desk.account.positions, s))
            && (!after.sellBlocked ==> forall s | s in symbols ::
                  Quantity(after.account.positions, s)
                    == if Quantity(desk.account.positions, s) > Quantity(target, s)
                       then Quantity(target, s) else Quantity(desk.account.positions, s))
  {
    if symbols != [] {
      var n := |symbols| - 1;
      assert symbols == symbols[..n] + [symbols[n]];
      assert symbols[n] !in symbols[..n];
      SellAllReachesTargets(x, target, desk, symbols[..n]);
      SellOneReachesTarget(x, target, SellAll(x, target, desk, symbols[..n]), symbols[n]);
    }
  }

  lemma SellOneReachesTarget(x: Session, target: map<Symbol, int>, desk: Desk, s: Symbol)
    requires NonNegativePlan(target)
    ensures var after := SellOne(x, target, desk, s);
            var was, wanted := Quantity(desk.account.positions, s), Quantity(target, s);
            && (desk.sellBlocked ==> after.sellBlocked)
            && (forall k | k != s :: Quantity(after.account.positions, k) == Quantity(desk.account.positions, k))
            && (!after.sellBlocked ==> Quantity(after.account.positions, s) == if was > wanted then wanted else was)
  {
  }

  lemma SellPhaseReachesTargets(x: Session, a: Account, t: Targets, band: real, log: seq<Rejection>)
    requires t.Valid() && AllPositive(a.positions)
    ensures var sold := AfterSells(x, a, t, band, log);
            var target := Plan(x, a, t, band);
            !sold.sellBlocked ==> forall s ::
              Quantity(sold.account.positions, s)
                == if Quantity(a.positions, s) > Quantity(target, s) then Quantity(target, s) else Quantity(a.positions, s)
  {
    var target := Plan(x, a, t, band);
    PlanIsNonNegative(x, a, t, band);
    var start := Desk(a, [], log + PlanRejections(x, t, t.order), false);
    SortedAscends(a.positions.Keys + target.Keys);
    SellAllReachesTargets(x, target, start, Sorted(a.positions.Keys + target.Keys));
  }

  // ----- the buy phase: cash floor and maximal fills

  /** The loop stops at the first candidate that fits: every larger one it tried did not. */
  lemma {:induction false} ShrinkIsLargest(c: Schedule, price: real, cash: real, lot: int, desired: int, j: nat)
    requires lot > 0
    ensures var q := Shrink(c, price, cash, lot, desired);
            && q <= desired
            && (q >= lot ==> Fits(c, price, cash, q))
            && (q < desired - j * lot && desired - j * lot >= lot ==> !Fits(c, price, cash, desired - j * lot))
    decreases desired
  {
    if desired >= lot && !Fits(c, price, cash, desired) {
      if j == 0 {
        ShrinkIsLargest(c, price, cash, lot, desired - lot, 0);
      } else {
        ShrinkIsLargest(c, price, cash, lot, desired - lot, j - 1);
        assert desired - lot - (j - 1) * lot == desired - j * lot;
      }
    }
  }

  lemma {:induction false} ShrinkStepsByLots(c: Schedule, price: real, cash: real, lot: int, desired: int)
    requires lot > 0
    ensures exists k: nat :: Shrink(c, price, cash, lot, desired) == desired - k * lot
    decreases desired
  {
    if desired < lot || Fits(c, price, cash, desired) {
      assert desired == desired - 0 * lot;
    } else {
      ShrinkStepsByLots(c, price, cash, lot, desired - lot);
      var k: nat :| Shrink(c, price, cash, lot, desired - lot) == desired - lot - k * lot;
      assert desired - lot - k * lot == desired - (k + 1) * lot;
    }
  }

  /** The largest fill among desired, desired - lot, ... that is at least one lot and fits. */
  ghost predicate LargestFill(c: Schedule, price: real, cash: real, lot: int, desired: int, quantity: int) {
    && lot <= quantity <= desired
    && (exists k: nat :: quantity == desired - k * lot)
    && Fits(c, price, cash, quantity)
    && forall j: nat | quantity < desired - j * lot :: !Fits(c, price, cash, desired - j * lot)
  }

  ghost predicate NothingFits(c: Schedule, price: real, cash: real, lot: int, desired: int) {
    forall j: nat | desired - j * lot >= lot :: !Fits(c, price, cash, desired - j * lot)
  }

  lemma ShrinkIsLargestFill(c: Schedule, price: real, cash: real, lot: int, desired: int)
    requires lot > 0
    ensures var q := Shrink(c, price, cash, lot, desired);
            if q >= lot then LargestFill(c, price, cash, lot, desired, q)
            else NothingFits(c, price, cash, lot, desired)
  {
    var q := Shrink(c, price, cash, lot, desired);
    ShrinkStepsByLots(c, price, cash, lot, desired);
    forall j: nat | q < desired - j * lot && desired - j * lot >= lot
      ensures !Fits(c, price, cash, desired - j * lot)
    {
      ShrinkIsLargest(c, price, cash, lot, desired, j);
    }
    ShrinkIsLargest(c, price, cash, lot, desired, 0);
  }

  /** What one purchase is measured against. */
  function PriceToBuy(x: Session, s: Symbol): real
    requires x.market.bar(s, x.day).Some?
  {
    BuyPrice(ScheduleFor(x, s), x.market.bar(s, x.day).value.open)
  }

  /** One step of the buy phase buys the largest fill, or nothing because nothing fits. */
  lemma BuyOneIsMaximal(x: Session, target: map<Symbol, int>, desk: Desk, s: Symbol)
    requires s in target && target[s] > Quantity(desk.account.positions, s)
    requires x.market.bar(s, x.day).Some? && OrderRestriction(x.market, s, x.day, Buy).None?
    ensures var after := BuyOne(x, target, desk, s);
            var c, price, lot := ScheduleFor(x, s), PriceToBuy(x, s), x.market.instrument(s).lotSize;
            var desired := target[s] - Quantity(desk.account.positions, s);
            if after == desk then NothingFits(c, price, desk.account.cash, lot, desired)
            else
              && |after.trades| == |desk.trades| + 1
              && var trade := after.trades[|desk.trades|];
              && LargestFill(c, price, desk.account.cash, lot, desired, trade.quantity)
              && trade.symbol == s && trade.price == price
              && after.account.cash == desk.account.cash - BuyOutlay(c, price, trade.quantity)
  {
    var lot := x.market.instrument(s).lotSize;
    var quantity := Shrink(ScheduleFor(x, s), PriceToBuy(x, s), desk.account.cash, lot,
                           target[s] - Quantity(desk.account.positions, s));
    ShrinkIsLargestFill(ScheduleFor(x, s), PriceToBuy(x, s), desk.account.cash, lot,
                        target[s] - Quantity(desk.account.positions, s));
    var after := BuyOne(x, target, desk, s);
    if quantity >= lot {
      var trade := BuyTrade(x, s, x.market.bar(s, x.day).value.open, quantity);
      assert after.trades == desk.trades + [trade];
      PurchaseOutlay(x, desk.account, s, quantity);
    } else {
      assert after == desk;
    }
  }

  lemma PurchaseOutlay(x: Session, a: Account, s: Symbol, quantity: int)
    requires x.market.bar(s, x.day).Some?
    ensures ApplyTrade(a, BuyTrade(x, s, x.market.bar(s, x.day).value.open, quantity)).cash
         == a.cash - BuyOutlay(ScheduleFor(x, s), PriceToBuy(x, s), quantity)
  {
  }

  /** Each purchase leaves the cash above minus the tolerance, however many came before it. */
  lemma {:induction false} BuyAllCashFloor(x: Session, target: map<Symbol, int>, desk: Desk, symbols: seq<Symbol>)
    ensures var after := BuyAll(x, target, desk, symbols);
            after.account.cash >= -Tolerance || after.account.cash == desk.account.cash
  {
    if symbols != [] {
      var n := |symbols| - 1;
      BuyAllCashFloor(x, target, desk, symbols[..n]);
      var mid, s := BuyAll(x, target, desk, symbols[..n]), symbols[n];
      var after := BuyOne(x, target, mid, s);
      if after.account != mid.account {
        BuyOneIsMaximal(x, target, mid, s);
      }
    }
  }

  lemma BuyPhaseCashFloor(x: Session, a: Account, t: Targets, band: real, log: seq<Rejection>)
    requires t.Valid()
    ensures var sold := AfterSells(x, a, t, band, log).account.cash;
            var after := Execute(x, a, t, band, log).account.cash;
            after >= sold || after >= -Tolerance
  {
    BuyAllCashFloor(x, Plan(x, a, t, band), AfterSells(x, a, t, band, log), ByWeight(t, t.order));
  }

  // ----- whole lots

  ghost predicate WholeLots(quantity: int, lot: int) {
    exists k :: quantity == k * lot
  }

  /** Every position is positive and a whole number of its instrument's lots. */
  ghost predicate InLots(m: Market, positions: Positions) {
    AllPositive(positions) && forall s | s in positions :: WholeLots(positions[s], m.instrument(s).lotSize)
  }

  lemma LotDifference(a: int, k: int, lot: int)
    requires WholeLots(a, lot)
    ensures WholeLots(a - k * lot, lot)
  {
    var n :| a == n * lot;
    assert a - k * lot == (n - k) * lot;
  }

  lemma ZeroLots(lot: int)
    ensures WholeLots(0, lot)
  {
    assert 0 == 0 * lot;
  }

  ghost predicate PlanInLots(m: Market, target: map<Symbol, int>) {
    NonNegativePlan(target) && forall s | s in target :: WholeLots(target[s], m.instrument(s).lotSize)
  }

  lemma PlanIsInLots(x: Session, a: Account, t: Targets, band: real)
    requires InLots(x.market, a.positions)
    ensures PlanInLots(x.market, Plan(x, a, t, band))
  {
    var target := Plan(x, a, t, band);
    forall s | s in target ensures WholeLots(target[s], x.market.instrument(s).lotSize) {
      ZeroLots(x.market.instrument(s).lotSize);
    }
  }

  lemma SellOneInLots(x: Session, target: map<Symbol, int>, desk: Desk, s: Symbol)
    requires PlanInLots(x.market, target) && InLots(x.market, desk.account.positions)
    ensures InLots(x.market, SellOne(x, target, desk, s).account.positions)
  {
  }

  lemma BuyOneInLots(x: Session, target: map<Symbol, int>, desk: Desk, s: Symbol)
    requires PlanInLots(x.market, target) && InLots(x.market, desk.account.positions)
    ensures InLots(x.market, BuyOne(x, target, desk, s).account.positions)
  {
    var lot := x.market.instrument(s).lotSize;
    var after := BuyOne(x, target, desk, s);
    if after.account != desk.account {
      BuyOneIsMaximal(x, target, desk, s);
      var trade := after.trades[|desk.trades|];
      var current := Quantity(desk.account.positions, s);
      var k: nat :| trade.quantity == target[s] - current - k * lot;
      LotDifference(target[s], k, lot);
      assert current + trade.quantity == target[s] - k * lot;
      assert after.account.positions == desk.account.positions[s := current + trade.quantity];
    }
  }

  lemma {:induction false} SellAllInLots(x: Session, target: map<Symbol, int>, desk: Desk, symbols: seq<Symbol>)
    requires PlanInLots(x.market, target) && InLots(x.market, desk.account.positions)
    ensures InLots(x.market, SellAll(x, target, desk, symbols).account.positions)
  {
    if symbols != [] {
      SellAllInLots(x, target, desk, symbols[..|symbols| - 1]);
      SellOneInLots(x, target, SellAll(x, target, desk, symbols[..|symbols| - 1]), symbols[|symbols| - 1]);
    }
  }

  lemma {:induction false} BuyAllInLots(x: Session, target: map<Symbol, int>, desk: Desk, symbols: seq<Symbol>)
    requires PlanInLots(x.market, target) && InLots(x.market, desk.account.positions)
    ensures InLots(x.market, BuyAll(x, target, desk, symbols).account.positions)
  {
    if symbols != [] {
      BuyAllInLots(x, target, desk, symbols[..|symbols| - 1]);
      BuyOneInLots(x, target, BuyAll(x, target, desk, symbols[..|symbols| - 1]), symbols[|symbols| - 1]);
    }
  }

  /** Whole, strictly positive lots in; whole, strictly positive lots out. */
  lemma ExecuteKeepsLots(x: Session, a: Account, t: Targets, band: real, log: seq<Rejection>)
    requires t.Valid() && InLots(x.market, a.positions)
    ensures InLots(x.market, Execute(x, a, t, band, log).account.positions)
  {
    var target := Plan(x, a, t, band);
    PlanIsInLots(x, a, t, band);
    SellAllInLots(x, target, Desk(a, [], log + PlanRejections(x, t, t.order), false), Sorted(a.positions.Keys + target.Keys));
    BuyAllInLots(x, target, AfterSells(x, a, t, band, log), ByWeight(t, t.order));
  }
}
