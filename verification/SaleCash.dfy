/**
 What selling does to cash: when a sale pays for its own fees, which cost schedules make every sale do so,
 and what that means for whole calls of the executor.
 */
module SaleCash {
  import opened Common
  import opened Costs
  import opened Execution
  import opened ExecutionLaws

  /** Commission, stamp duty and transfer fee of a sale. */
  function SaleFees(c: Schedule, price: real, quantity: int): real {
    var notional := quantity as real * price;
    Commission(notional, c) + notional * c.sellStampDutyBps / 10000.0 + notional * c.transferFeeBps / 10000.0
  }

  /** The fees are at most what the sale brings in. */
  predicate Covers(c: Schedule, price: real, quantity: int) {
    SaleFees(c, price, quantity) <= quantity as real * price
  }

  /** The sale is needed and nothing stands in its way. */
  predicate Sells(x: Session, target: map<Symbol, int>, positions: Positions, s: Symbol) {
    && Quantity(positions, s) > Quantity(target, s)
    && x.market.bar(s, x.day).Some? && OrderRestriction(x.market, s, x.day, Sell).None?
  }

  function SaleOf(x: Session, target: map<Symbol, int>, positions: Positions, s: Symbol): int {
    Quantity(positions, s) - Quantity(target, s)
  }

  function PriceToSell(x: Session, s: Symbol): real
    requires x.market.bar(s, x.day).Some?
  {
    SellPrice(ScheduleFor(x, s), x.market.bar(s, x.day).value.open)
  }

  predicate SaleCovers(x: Session, target: map<Symbol, int>, positions: Positions, s: Symbol) {
    Sells(x, target, positions, s) ==> Covers(ScheduleFor(x, s), PriceToSell(x, s), SaleOf(x, target, positions, s))
  }

  /** One sale lowers cash exactly when it does not cover its fees, and leaves all other positions alone. */
  lemma OneSale(x: Session, target: map<Symbol, int>, desk: Desk, s: Symbol)
    ensures var after := SellOne(x, target, desk, s);
            && (after.account.cash >= desk.account.cash <==> SaleCovers(x, target, desk.account.positions, s))
            && forall k | k != s :: Quantity(after.account.positions, k) == Quantity(desk.account.positions, k)
  {
    hide Commission, OrderRestriction;
    if Sells(x, target, desk.account.positions, s) {
      var quantity := SaleOf(x, target, desk.account.positions, s);
      var trade := SellTrade(x, s, x.market.bar(s, x.day).value.open, quantity);
      assert SellOne(x, target, desk, s).account == ApplyTrade(desk.account, trade);
      SaleBooksFees(x, s, quantity);
    }
  }

  lemma SaleBooksFees(x: Session, s: Symbol, quantity: int)
    requires x.market.bar(s, x.day).Some?
    ensures var trade := SellTrade(x, s, x.market.bar(s, x.day).value.open, quantity);
            && trade.notional == quantity as real * PriceToSell(x, s)
            && trade.commission + trade.stampDuty + trade.transferFee == SaleFees(ScheduleFor(x, s), PriceToSell(x, s), quantity)
  {
    hide Commission;
    var c, price := ScheduleFor(x, s), PriceToSell(x, s);
    var trade := SellTrade(x, s, x.market.bar(s, x.day).value.open, quantity);
    var notional := quantity as real * price;
    assert trade.notional == notional && trade.commission == Commission(notional, c);
    assert trade.stampDuty == notional * c.sellStampDutyBps / 10000.0;
    assert trade.transferFee == notional * c.transferFeeBps / 10000.0;
  }

  /** What happens to a symbol depends only on what was held of it before the phase. */
  lemma {:induction false} SalesAreApart(x: Session, target: map<Symbol, int>, desk: Desk, symbols: seq<Symbol>)
    ensures forall k | k !in symbols ::
              Quantity(SellAll(x, target, desk, symbols).account.positions, k) == Quantity(desk.account.positions, k)
  {
    hide SellOne;
    if symbols != [] {
      var n := |symbols| - 1;
      SalesAreApart(x, target, desk, symbols[..n]);
      OneSale(x, target, SellAll(x, target, desk, symbols[..n]), symbols[n]);
      assert symbols == symbols[..n] + [symbols[n]];
    }
  }

  ghost predicate CashAt(x: Session, target: map<Symbol, int>, desk: Desk, symbols: seq<Symbol>, n: nat)
    requires n < |symbols|
  {
    SellAll(x, target, desk, symbols[..n + 1]).account.cash >= SellAll(x, target, desk, symbols[..n]).account.cash
  }

  lemma StepOfPhase(x: Session, target: map<Symbol, int>, desk: Desk, symbols: seq<Symbol>, n: nat)
    requires n < |symbols| && forall i, j | 0 <= i < j < |symbols| :: symbols[i] != symbols[j]
    ensures CashAt(x, target, desk, symbols, n) <==> SaleCovers(x, target, desk.account.positions, symbols[n])
  {
    hide SellOne, Covers, OrderRestriction;
    assert symbols[..n + 1][..n] == symbols[..n];
    SalesAreApart(x, target, desk, symbols[..n]);
    OneSale(x, target, SellAll(x, target, desk, symbols[..n]), symbols[n]);
  }

  /** Cash never falls during a sell phase exactly when every sale in it covers its fees. */
  lemma CashNeverFallsExactly(x: Session, target: map<Symbol, int>, desk: Desk, symbols: seq<Symbol>)
    requires forall i, j | 0 <= i < j < |symbols| :: symbols[i] != symbols[j]
    ensures (forall n | 0 <= n < |symbols| :: CashAt(x, target, desk, symbols, n))
        <==> forall n | 0 <= n < |symbols| :: SaleCovers(x, target, desk.account.positions, symbols[n])
  {
    hide CashAt, SaleCovers;
    forall n | 0 <= n < |symbols|
      ensures CashAt(x, target, desk, symbols, n) <==> SaleCovers(x, target, desk.account.positions, symbols[n])
    {
      StepOfPhase(x, target, desk, symbols, n);
    }
  }

  lemma {:induction false} CoveredPhase(x: Session, target: map<Symbol, int>, desk: Desk, symbols: seq<Symbol>, n: nat)
    requires n <= |symbols| && forall k | 0 <= k < n :: CashAt(x, target, desk, symbols, k)
    ensures SellAll(x, target, desk, symbols[..n]).account.cash >= desk.account.cash
  {
    if n > 0 {
      CoveredPhase(x, target, desk, symbols, n - 1);
      assert CashAt(x, target, desk, symbols, n - 1);
    }
  }

  /** When every sale of a call covers its fees, selling does not lower cash, and the call keeps it above the tolerance. */
  lemma CoveredCallCashFloor(x: Session, a: Account, t: Targets, band: real, log: seq<Rejection>)
    requires t.Valid()
    requires forall s: Symbol :: SaleCovers(x, Plan(x, a, t, band), a.positions, s)
    ensures AfterSells(x, a, t, band, log).account.cash >= a.cash
    ensures var after := Execute(x, a, t, band, log).account.cash; after >= a.cash || after >= -Tolerance
  {
    hide SaleCovers, CashAt, Plan;
    var target := Plan(x, a, t, band);
    var symbols := Sorted(a.positions.Keys + target.Keys);
    var start := Desk(a, [], log + PlanRejections(x, t, t.order), false);
    SortedAscends(a.positions.Keys + target.Keys);
    CashNeverFallsExactly(x, target, start, symbols);
    CoveredPhase(x, target, start, symbols, |symbols|);
    assert symbols[..|symbols|] == symbols;
    BuyPhaseCashFloor(x, a, t, band, log);
  }

  // ----- the schedules under which every sale covers its fees

  /** What can be read off a schedule. */
  predicate AlwaysCovers(c: Schedule) {
    if c.slippageBps < 10000.0
    then c.minimumCommission <= 0.0 && c.commissionBps + c.sellStampDutyBps + c.transferFeeBps <= 10000.0
    else c.slippageBps == 10000.0 || c.sellStampDutyBps + c.transferFeeBps >= 10000.0
  }

  lemma Proportional(notional: real, a: real, b: real, d: real)
    ensures notional * a / 10000.0 + notional * b / 10000.0 + notional * d / 10000.0 == notional * ((a + b + d) / 10000.0)
  {
    assert notional * (a / 10000.0) == notional * a / 10000.0;
    assert notional * (b / 10000.0) == notional * b / 10000.0;
    assert notional * (d / 10000.0) == notional * d / 10000.0;
    assert notional * (a / 10000.0 + b / 10000.0 + d / 10000.0)
        == notional * (a / 10000.0) + notional * (b / 10000.0) + notional * (d / 10000.0);
  }

  lemma AtMostWhole(notional: real, rate: real)
    ensures notional > 0.0 ==> (notional * rate <= notional <==> rate <= 1.0)
    ensures notional < 0.0 ==> (notional * rate <= notional <==> rate >= 1.0)
  {
    assert notional * rate - notional == notional * (rate - 1.0);
    if notional > 0.0 && rate > 1.0 {
      Positive(notional, rate - 1.0);
    } else if notional > 0.0 && rate < 1.0 {
      Positive(notional, 1.0 - rate);
      assert notional * (1.0 - rate) == -(notional * (rate - 1.0));
    } else if notional < 0.0 && rate > 1.0 {
      Positive(-notional, rate - 1.0);
      assert -notional * (rate - 1.0) == -(notional * (rate - 1.0));
    } else if notional < 0.0 && rate < 1.0 {
      Positive(-notional, 1.0 - rate);
      assert -notional * (1.0 - rate) == notional * (rate - 1.0);
    }
  }

  lemma Positive(a: real, b: real)
    requires a > 0.0 && b > 0.0
    ensures a * b > 0.0
  {
  }

  /** For a sale of some value, by its sign: the minimum commission and the proportional fees have to fit. */
  lemma CoversByRates(c: Schedule, price: real, quantity: int)
    requires ScheduleValid(c)
    ensures var notional := quantity as real * price;
            Covers(c, price, quantity) <==>
              if notional > 0.0 then
                && c.commissionBps + c.sellStampDutyBps + c.transferFeeBps <= 10000.0
                && c.minimumCommission + notional * ((c.sellStampDutyBps + c.transferFeeBps) / 10000.0) <= notional
              else notional == 0.0 || c.sellStampDutyBps + c.transferFeeBps >= 10000.0
  {
    var notional := quantity as real * price;
    var whole := (c.commissionBps + c.sellStampDutyBps + c.transferFeeBps) / 10000.0;
    var taxes := (0.0 + c.sellStampDutyBps + c.transferFeeBps) / 10000.0;
    Proportional(notional, c.commissionBps, c.sellStampDutyBps, c.transferFeeBps);
    Proportional(notional, 0.0, c.sellStampDutyBps, c.transferFeeBps);
    AtMostWhole(notional, whole);
    AtMostWhole(notional, taxes);
    var stamp, transfer := notional * c.sellStampDutyBps / 10000.0, notional * c.transferFeeBps / 10000.0;
    assert stamp + transfer == notional * taxes;
    assert notional * c.commissionBps / 10000.0 + stamp + transfer == notional * whole;
    assert SaleFees(c, price, quantity) == Commission(notional, c) + stamp + transfer;
  }

  /** Under such a schedule every sale covers its fees, and under no other. */
  lemma AlwaysCoversExactly(c: Schedule)
    requires ScheduleValid(c)
    ensures (forall open: real, quantity: int | open >= 0.0 && quantity > 0 :: Covers(c, SellPrice(c, open), quantity))
        <==> AlwaysCovers(c)
  {
    if AlwaysCovers(c) {
      forall open: real, quantity: int | open >= 0.0 && quantity > 0 ensures Covers(c, SellPrice(c, open), quantity) {
        CoveredByRates(c, open, quantity);
      }
    } else {
      var open := SomeUncovered(c);
    }
  }

  lemma NotionalSign(c: Schedule, open: real, quantity: int)
    requires open >= 0.0 && quantity > 0
    ensures var notional := quantity as real * SellPrice(c, open);
            && (c.slippageBps < 10000.0 ==> notional >= 0.0 && (open > 0.0 ==> notional > 0.0))
            && (c.slippageBps == 10000.0 ==> notional == 0.0)
            && (c.slippageBps > 10000.0 ==> notional <= 0.0 && (open > 0.0 ==> notional < 0.0))
  {
    var rest := 1.0 - c.slippageBps / 10000.0;
    assert SellPrice(c, open) == open * rest;
    if open > 0.0 && rest > 0.0 {
      Positive(open, rest);
      Positive(quantity as real, open * rest);
    } else if open > 0.0 && rest < 0.0 {
      Positive(open, -rest);
      assert open * -rest == -(open * rest);
      Positive(quantity as real, -(open * rest));
      assert quantity as real * -(open * rest) == -(quantity as real * (open * rest));
    } else {
      assert open == 0.0 || rest == 0.0;
      assert open * rest == 0.0;
    }
  }

  lemma CoveredByRates(c: Schedule, open: real, quantity: int)
    requires ScheduleValid(c) && AlwaysCovers(c) && open >= 0.0 && quantity > 0
    ensures Covers(c, SellPrice(c, open), quantity)
  {
    hide Covers;
    var notional := quantity as real * SellPrice(c, open);
    NotionalSign(c, open, quantity);
    CoversByRates(c, SellPrice(c, open), quantity);
    AtMostWhole(notional, (c.sellStampDutyBps + c.transferFeeBps) / 10000.0);
  }

  /** An opening price at which a single share is not worth its fees. */
  lemma SomeUncovered(c: Schedule) returns (open: real)
    requires ScheduleValid(c) && !AlwaysCovers(c)
    ensures open > 0.0 && !Covers(c, SellPrice(c, open), 1)
  {
    hide Covers;
    var rest := 1.0 - c.slippageBps / 10000.0;
    open := 1.0;
    if c.slippageBps < 10000.0 && c.minimumCommission > 0.0 {
      open := c.minimumCommission / 2.0 / rest;
      assert open > 0.0 && open * rest == c.minimumCommission / 2.0;
    }
    var notional := SellPrice(c, open);
    assert 1 as real * notional == notional;
    NotionalSign(c, open, 1);
    CoversByRates(c, notional, 1);
    NotNegative(notional, (c.sellStampDutyBps + c.transferFeeBps) / 10000.0);
  }

  lemma NotNegative(a: real, b: real)
    requires b >= 0.0
    ensures a >= 0.0 ==> a * b >= 0.0
  {
  }

  // ----- whole calls

  /** Nothing but this schedule, whatever the instrument and the date. */
  function Flat(c: Schedule): CostSettings {
    CostSettings(c, map[], [])
  }

  /** A market with one bar for everything, no statuses and no price limits. */
  function OneBarMarket(bar: Bar, instrument: Instrument): Market {
    Market((s: Symbol, d: Date) => Some(bar), (s: Symbol, d: Date) => Some(bar), (s: Symbol, d: Date) => None,
           (s: Symbol) => instrument, (s: Symbol, d: Date) => None)
  }

  /** A call that sells one share for less than its fees, from an account without cash. */
  lemma UncoveredSaleOverdraws(c: Schedule, open: real, day: Date) returns (x: Session, a: Account)
    requires ScheduleValid(c) && open > 0.0 && !Covers(c, SellPrice(c, open), 1)
    ensures x.costs == Flat(c) && Sane(x) && a.cash == 0.0 && AllPositive(a.positions)
    ensures AfterSells(x, a, NoTargets, 0.0, []).account.cash < 0.0
    ensures Execute(x, a, NoTargets, 0.0, []).account.cash < 0.0
  {
    hide Covers, Commission;
    var instrument: Instrument := InstrumentInfo(1, 0.01, None, "stock");
    x := Session(OneBarMarket(Bar(open, open, 1.0, 1.0), instrument), day, Flat(c), "");
    a := Account(0.0, map[0 := 1]);
    assert ScheduleFor(x, 0) == c;
    var target := Plan(x, a, NoTargets, 0.0);
    assert target == map[];
    var start := Desk(a, [], [] + PlanRejections(x, NoTargets, NoTargets.order), false);
    assert a.positions.Keys + target.Keys == {0};
    SortedSingle(0);
    assert SellAll(x, target, start, [0]) == SellOne(x, target, start, 0) by {
      assert [0][..0] == [];
      assert SellAll(x, target, start, []) == start;
    }
    OneSale(x, target, start, 0);
    assert Sells(x, target, a.positions, 0) && SaleOf(x, target, a.positions, 0) == 1;
    SellsPrecedeBuys(x, a, NoTargets, 0.0, []);
    assert ByWeight(NoTargets, []) == [];
  }

  lemma SortedSingle(s: Symbol)
    ensures Sorted({s}) == [s]
  {
    SortedAscends({s});
    assert Sorted({s})[0] in Sorted({s});
  }

  lemma FlatSchedule(x: Session, c: Schedule, s: Symbol)
    requires x.costs == Flat(c)
    ensures ScheduleFor(x, s) == c
  {
  }

  /** The executor, on these costs, never sells an account that is not overdrawn into the red. */
  ghost predicate SellsSafely(c: Schedule) {
    forall x: Session, a: Account, t: Targets, band: real, log: seq<Rejection>
      | x.costs == Flat(c) && Sane(x) && t.Valid() && AllPositive(a.positions) && a.cash >= 0.0 ::
      AfterSells(x, a, t, band, log).account.cash >= 0.0
  }

  /**
   Cash after the sell phase, exactly: over every market, account and target set it stays non-negative if and
   only if the schedule is one under which every sale covers its fees.
   */
  lemma SellPhaseIsSafeExactly(c: Schedule)
    requires ScheduleValid(c)
    ensures SellsSafely(c) <==> AlwaysCovers(c)
  {
    hide AlwaysCovers, AfterSells, Covers, Plan, ScheduleFor;
    if AlwaysCovers(c) {
      forall x: Session, a: Account, t: Targets, band: real, log: seq<Rejection>
        | x.costs == Flat(c) && Sane(x) && t.Valid() && AllPositive(a.positions) && a.cash >= 0.0
        ensures AfterSells(x, a, t, band, log).account.cash >= 0.0
      {
        forall s: Symbol ensures AlwaysCovers(ScheduleFor(x, s)) {
          FlatSchedule(x, c, s);
        }
        SafeCall(x, a, t, band, log);
      }
    } else {
      var open := SomeUncovered(c);
      var x, a := UncoveredSaleOverdraws(c, open, 0);
      assert NoTargets.Valid();
    }
  }

  /** The same for dated and typed costs: when the schedule of every instrument always covers, no call overdraws. */
  lemma SafeCall(x: Session, a: Account, t: Targets, band: real, log: seq<Rejection>)
    requires Sane(x) && t.Valid() && AllPositive(a.positions)
    requires forall s: Symbol :: AlwaysCovers(ScheduleFor(x, s))
    ensures AfterSells(x, a, t, band, log).account.cash >= a.cash
    ensures a.cash >= 0.0 ==> Execute(x, a, t, band, log).account.cash >= -Tolerance
  {
    hide AlwaysCovers, AfterSells, Covers, Plan, Execute, OrderRestriction;
    var target := Plan(x, a, t, band);
    forall s: Symbol ensures SaleCovers(x, target, a.positions, s) {
      if Sells(x, target, a.positions, s) {
        LookupIsValid(x.costs, x.market.instrument(s).instrumentType, x.day);
        CoveredByRates(ScheduleFor(x, s), x.market.bar(s, x.day).value.open, SaleOf(x, target, a.positions, s));
      }
    }
    CoveredCallCashFloor(x, a, t, band, log);
  }
}
