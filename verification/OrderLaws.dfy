/**
 What the orders of one call are meant to be, told apart from how they are computed: the plan against the
 weights, the positions after the call, what may be traded at all, in which order, and what is refused.
 */
module OrderLaws {
  import opened Common
  import opened Costs
  import opened Execution
  import opened ExecutionLaws

  // ----- what the portfolio is worth

  /** A price of one bar: its open, or its close. */
  function PriceOn(m: Market, s: Symbol, day: Date, price: Bar -> real): real {
    if m.bar(s, day).Some? then price(m.bar(s, day).value)
    else if m.latestBarOnOrBefore(s, day).Some? then price(m.latestBarOnOrBefore(s, day).value)
    else 0.0
  }

  /** Cash counts as it is; every position counts its quantity at today's bar, or at the latest one before. */
  lemma WorthIsCashPlusMarks(m: Market, day: Date, cash: real, positions: Positions, s: Symbol)
    ensures Worth(Account(cash, map[]), OpenMark(m, day)) == cash == Worth(Account(cash, map[]), CloseMark(m, day))
    ensures s in positions ==>
      && Worth(Account(cash, positions), OpenMark(m, day))
         == Worth(Account(cash, positions - {s}), OpenMark(m, day)) + positions[s] as real * PriceOn(m, s, day, (b: Bar) => b.open)
      && Worth(Account(cash, positions), CloseMark(m, day))
         == Worth(Account(cash, positions - {s}), CloseMark(m, day)) + positions[s] as real * PriceOn(m, s, day, (b: Bar) => b.close)
  {
    HoldingsSplit(positions, OpenMark(m, day), s);
    HoldingsSplit(positions, CloseMark(m, day), s);
  }

  // ----- the plan

  function OpenOf(x: Session, s: Symbol): real {
    if x.market.bar(s, x.day).Some? then x.market.bar(s, x.day).value.open else 0.0
  }

  /** The symbol can be given a quantity: it opens today at a positive price and has a positive weight. */
  predicate Plannable(x: Session, t: Targets, s: Symbol) {
    s in t.weight && t.weight[s] > 0.0 && OpenOf(x, s) > 0.0
  }

  /** The position is worth within the band of what it should be worth. */
  predicate StaysInBand(x: Session, t: Targets, band: real, equity: real, positions: Positions, s: Symbol) {
    && band > 0.0 && equity > 0.0 && s in t.weight && s in positions && x.market.bar(s, x.day).Some?
    && var gap := t.weight[s] * equity - positions[s] as real * OpenOf(x, s);
       -(band * equity) < gap < band * equity
  }

  /** The whole-lot quantity whose value at the open comes closest to `worth` without exceeding it. */
  ghost predicate LargestWithin(quantity: int, lot: int, open: real, worth: real)
    requires lot > 0
  {
    && quantity >= 0 && WholeLots(quantity, lot)
    && if worth >= 0.0 then quantity as real * open <= worth < (quantity + lot) as real * open else quantity == 0
  }

  lemma ScaleOrder(a: real, b: real, c: real)
    requires c > 0.0
    ensures a < b <==> a * c < b * c
  {
    Distributes(b, a, c);
    if a < b {
      assert (b - a) * c > 0.0;
    } else {
      assert (b - a) * c <= 0.0;
    }
  }

  lemma Distributes(a: real, b: real, c: real)
    ensures (a - b) * c == a * c - b * c
  {
  }

  lemma FloorWithin(worth: real, perLot: real)
    requires perLot > 0.0
    ensures var n := (worth / perLot).Floor;
            n as real * perLot <= worth < (n + 1) as real * perLot && (worth >= 0.0 <==> n >= 0)
  {
    var ratio := worth / perLot;
    var n := ratio.Floor;
    assert ratio * perLot == worth;
    assert n as real <= ratio < (n + 1) as real;
    ScaleOrder(ratio, n as real, perLot);
    var next := (n + 1) as real;
    ScaleOrder(ratio, next, perLot);
    assert worth < next * perLot;
    ScaleOrder(ratio, 0.0, perLot);
  }

  lemma LotsTimesPrice(n: int, lot: int, open: real)
    ensures n as real * (open * lot as real) == (n * lot) as real * open
    ensures (n + 1) as real * (open * lot as real) == (n * lot + lot) as real * open
  {
    assert (n * lot) as real == n as real * lot as real;
    assert (n * lot + lot) as real == n as real * lot as real + lot as real;
    assert n as real * (open * lot as real) == n as real * lot as real * open;
    Distributes(n as real, -1.0, open * lot as real);
    assert (n + 1) as real == n as real - (-1.0);
  }

  lemma LotQuantityIsLargest(worth: real, open: real, lot: int)
    requires open > 0.0 && lot > 0
    ensures LargestWithin(LotQuantity(worth, open, lot), lot, open, worth)
  {
    var perLot := open * lot as real;
    assert perLot > 0.0;
    var n := (worth / perLot).Floor;
    FloorWithin(worth, perLot);
    LotsTimesPrice(n, lot, open);
    SignOfLots(n, lot);
    ZeroLots(lot);
    if n < 0 {
      assert LotQuantity(worth, open, lot) == 0;
    } else {
      assert LotQuantity(worth, open, lot) == n * lot;
    }
  }

  lemma SignOfLots(n: int, lot: int)
    requires lot > 0
    ensures (n * lot > 0 <==> n > 0) && (n * lot >= 0 <==> n >= 0)
  {
    if n > 0 {
      assert n * lot > 0;
    } else if n < 0 {
      assert (-n) * lot > 0;
    }
  }

  lemma BandIsRelative(weight: real, quantity: int, open: real, equity: real, band: real)
    requires equity > 0.0
    ensures var gap := weight * equity - quantity as real * open;
            Abs(weight - ShareOf(quantity, open, equity)) < band <==> -(band * equity) < gap < band * equity
  {
    var held := quantity as real * open;
    var share := held / equity;
    assert share == ShareOf(quantity, open, equity);
    var gap := weight - share;
    assert share * equity == held;
    Distributes(weight, share, equity);
    ScaleOrder(gap, band, equity);
    ScaleOrder(-band, gap, equity);
    Distributes(0.0, band, equity);
  }

  /**
   The plan, symbol by symbol: a position inside the band keeps its quantity; any other symbol with a positive
   weight and a valid opening bar gets the largest number of whole lots its share of the equity at the open
   can pay for; nothing else is planned.
   */
  lemma PlanExactly(x: Session, a: Account, t: Targets, band: real, s: Symbol)
    ensures var target := Plan(x, a, t, band);
            var equity := Worth(a, OpenMark(x.market, x.day));
            && (s in target <==> Plannable(x, t, s) || StaysInBand(x, t, band, equity, a.positions, s))
            && (StaysInBand(x, t, band, equity, a.positions, s) ==> s in a.positions && target[s] == a.positions[s])
            && (Plannable(x, t, s) && !StaysInBand(x, t, band, equity, a.positions, s) ==>
                  LargestWithin(target[s], x.market.instrument(s).lotSize, OpenOf(x, s), equity * t.weight[s]))
  {
    hide LotQuantity, Worth, LargestWithin, InBand, StaysInBand;
    var equity := Worth(a, OpenMark(x.market, x.day));
    if Plannable(x, t, s) {
      LotQuantityIsLargest(Budget(equity, t.weight[s]), OpenOf(x, s), x.market.instrument(s).lotSize);
      assert Budget(equity, t.weight[s]) == equity * t.weight[s];
    }
    BandExactly(x, t, band, equity, a.positions, s);
  }

  lemma BandExactly(x: Session, t: Targets, band: real, equity: real, positions: Positions, s: Symbol)
    ensures StaysInBand(x, t, band, equity, positions, s)
        <==> band > 0.0 && equity > 0.0 && s in t.weight && s in positions && InBand(x, t, band, equity, positions, s)
  {
    hide Abs;
    var bar := x.market.bar(s, x.day);
    if equity > 0.0 && s in t.weight && s in positions && bar.Some? {
      BandIsRelative(t.weight[s], positions[s], bar.value.open, equity, band);
    }
  }

  // ----- the positions after the call

  lemma BuyOneStaysWithin(x: Session, target: map<Symbol, int>, desk: Desk, s: Symbol)
    ensures var was, now := desk.account.positions, BuyOne(x, target, desk, s).account.positions;
            && (forall k | k != s :: Quantity(now, k) == Quantity(was, k))
            && (Quantity(was, s) >= 0 && Quantity(was, s) >= Quantity(target, s) ==> Quantity(now, s) == Quantity(was, s))
            && (Quantity(was, s) < Quantity(target, s) ==> Quantity(was, s) <= Quantity(now, s) <= Quantity(target, s) || Quantity(was, s) < 0)
  {
    hide OrderRestriction, Lookup, BuyPrice, Shrink;
    var after := BuyOne(x, target, desk, s);
    if after.account != desk.account {
      ShrinkIsLargest(ScheduleFor(x, s), PriceToBuy(x, s), desk.account.cash, x.market.instrument(s).lotSize,
                      target[s] - Quantity(desk.account.positions, s), 0);
    }
  }

  lemma {:induction false} BuyAllStaysWithin(x: Session, target: map<Symbol, int>, desk: Desk, symbols: seq<Symbol>, s: Symbol)
    requires Quantity(desk.account.positions, s) >= 0
    ensures var was, now := Quantity(desk.account.positions, s), Quantity(BuyAll(x, target, desk, symbols).account.positions, s);
            if was >= Quantity(target, s) then now == was else was <= now <= Quantity(target, s)
  {
    hide BuyOne;
    if symbols != [] {
      var n := |symbols| - 1;
      BuyAllStaysWithin(x, target, desk, symbols[..n], s);
      BuyOneStaysWithin(x, target, BuyAll(x, target, desk, symbols[..n]), symbols[n]);
    }
  }

  /** Unless a sale was blocked, positions come down to their target and go up no further than to it. */
  lemma TargetsAreReached(x: Session, a: Account, t: Targets, band: real, log: seq<Rejection>, s: Symbol)
    requires t.Valid() && AllPositive(a.positions) && !AfterSells(x, a, t, band, log).sellBlocked
    ensures var was, now := Quantity(a.positions, s), Quantity(Execute(x, a, t, band, log).account.positions, s);
            var wanted := Quantity(Plan(x, a, t, band), s);
            && 0 <= wanted && 0 <= was
            && if was > wanted then now == wanted else was <= now <= wanted
  {
    hide Worth, Plan, SellOne, BuyOne;
    SellPhaseReachesTargets(x, a, t, band, log);
    PlanIsNonNegative(x, a, t, band);
    BuyAllStaysWithin(x, Plan(x, a, t, band), AfterSells(x, a, t, band, log), ByWeight(t, t.order), s);
  }

  /**
   What a call that was not blocked leaves of every symbol.  Symbols without a weight to go by are sold out.
   Positions inside the band are as they were.  Any other position is worth no more than its share of the
   equity, and one that was worth more keeps as many whole lots as that share can pay for.
   */
  lemma WeightsAreReached(x: Session, a: Account, t: Targets, band: real, log: seq<Rejection>, s: Symbol)
    requires t.Valid() && AllPositive(a.positions) && !AfterSells(x, a, t, band, log).sellBlocked
    ensures var was, now := Quantity(a.positions, s), Quantity(Execute(x, a, t, band, log).account.positions, s);
            var equity := Worth(a, OpenMark(x.market, x.day));
            if StaysInBand(x, t, band, equity, a.positions, s) then now == was
            else if !Plannable(x, t, s) then now == 0
            else
              var lot, open, share := x.market.instrument(s).lotSize, OpenOf(x, s), equity * t.weight[s];
              && now >= 0
              && (share >= 0.0 ==> now as real * open <= share)
              && (share < 0.0 ==> now == 0)
              && (now < was ==> LargestWithin(now, lot, open, share))
              && (was as real * open > share ==> now == 0 || now < was)
  {
    hide Worth, Plan, Execute, AfterSells, AllPositive, StaysInBand, WholeLots;
    PlanExactly(x, a, t, band, s);
    TargetsAreReached(x, a, t, band, log, s);
    var now, was, wanted := Quantity(Execute(x, a, t, band, log).account.positions, s), Quantity(a.positions, s), Quantity(Plan(x, a, t, band), s);
    if Plannable(x, t, s) {
      MoreIsWorthMore(now, wanted, OpenOf(x, s));
      MoreIsWorthMore(was, wanted, OpenOf(x, s));
    }
  }

  lemma MoreIsWorthMore(a: int, b: int, open: real)
    requires open > 0.0
    ensures a <= b ==> a as real * open <= b as real * open
  {
    ScaleOrder(b as real, a as real, open);
  }

  // ----- what may be traded

  function Ticks(k: int, tick: real): real {
    k as real * tick
  }

  /** The multiple of the tick nearest to a value; a value halfway goes away from zero. */
  ghost predicate NearestTick(value: real, tick: real, r: real) {
    exists k: int :: r == Ticks(k, tick) && Nearest(value, tick, r)
  }

  predicate Nearest(value: real, tick: real, r: real) {
    if value >= 0.0 then r - tick / 2.0 <= value < r + tick / 2.0 else r - tick / 2.0 < value <= r + tick / 2.0
  }

  /** A number of ticks lies below a bound exactly when its value lies below the value of the bound. */
  lemma OffBy(x: real, value: real, k: real, r: real, h: real, bound: real, offset: real, tick: real)
    requires tick > 0.0 && bound == k + h && value == x * tick && r == k * tick && offset == h * tick
    ensures x < bound <==> value < r + offset
    ensures x <= bound <==> value <= r + offset
  {
    AddsUp(k, h, bound, tick);
    ScaleOrder(x, bound, tick);
    ScaleOrder(bound, x, tick);
  }

  lemma AddsUp(a: real, b: real, sum: real, c: real)
    requires sum == a + b
    ensures sum * c == a * c + b * c
  {
  }

  lemma RoundedIsNearest(value: real, tick: real)
    requires tick > 0.0
    ensures NearestTick(value, tick, RoundToTick(value, tick))
  {
    var ticks := value / tick;
    assert ticks * tick == value;
    var k := RoundHalfUp(ticks);
    assert RoundToTick(value, tick) == Ticks(k, tick);
    var r := Ticks(k, tick);
    ScaleOrder(ticks, 0.0, tick);
    OffBy(ticks, value, k as real, r, -0.5, k as real - 0.5, -tick / 2.0, tick);
    OffBy(ticks, value, k as real, r, 0.5, k as real + 0.5, tick / 2.0, tick);
    assert Nearest(value, tick, r);
  }

  lemma NearestIsOne(value: real, tick: real, r: real, q: real)
    requires tick > 0.0 && NearestTick(value, tick, r) && NearestTick(value, tick, q)
    ensures r == q
  {
    var i: int :| r == Ticks(i, tick) && Nearest(value, tick, r);
    var j: int :| q == Ticks(j, tick) && Nearest(value, tick, q);
    assert -tick < r - q < tick;
    if i > j {
      ApartByATick(i, j, tick);
    } else if j > i {
      ApartByATick(j, i, tick);
    }
  }

  lemma ApartByATick(i: int, j: int, tick: real)
    requires tick > 0.0 && i > j
    ensures Ticks(i, tick) - Ticks(j, tick) >= tick
  {
    Distributes(i as real, j as real, tick);
    ScaleOrder((i - j) as real, 1.0, tick);
    assert (i - j) as real == i as real - j as real;
  }

  predicate Tradable(m: Market, s: Symbol, day: Date) {
    m.tradingStatus(s, day).Some? ==> m.tradingStatus(s, day).value.tradable
  }

  /** The symbol is actually traded that day. */
  predicate Liquid(m: Market, s: Symbol, day: Date) {
    var bar := m.bar(s, day);
    bar.Some? && bar.value.volume > 0.0 && bar.value.amount > 0.0
  }

  /** The limit in force: the one of the dated status where there is one, else the instrument's own. */
  ghost predicate LimitInForce(m: Market, s: Symbol, day: Date, limit: real) {
    match m.tradingStatus(s, day)
    case Some(status) => status.priceLimit == Some(limit)
    case None => m.instrument(s).priceLimit == Some(limit)
  }

  /** The opening price is within half a tick of the limit price on the side the order pushes to, or beyond it. */
  ghost predicate OpensAtLimit(m: Market, s: Symbol, day: Date, side: Side) {
    var previous, tick := m.previousBar(s, day), m.instrument(s).tickSize;
    m.bar(s, day).Some? && previous.Some? && previous.value.close > 0.0 &&
    exists limit, r ::
      LimitInForce(m, s, day, limit) && NearestTick(FullMove(previous.value.close, limit, side), tick, r)
      && if side.Buy? then m.bar(s, day).value.open >= r - tick / 2.0 else m.bar(s, day).value.open <= r + tick / 2.0
  }

  /** The previous close after a move by the whole limit: up for a purchase, down for a sale. */
  function FullMove(close: real, limit: real, side: Side): real {
    match side
    case Buy => close + close * limit
    case Sell => close - close * limit
  }

  lemma FullMoveIsLimitPrice(close: real, limit: real, side: Side)
    ensures FullMove(close, limit, side) == LimitPrice(side, close, limit)
  {
    assert close * (1.0 + limit) == close + close * limit;
    assert close * (1.0 - limit) == close - close * limit;
  }

  /** An order is refused exactly for a status that forbids trading, a suspension, or an opening price at the limit. */
  lemma RestrictionExactly(m: Market, s: Symbol, day: Date, side: Side)
    ensures var why := OrderRestriction(m, s, day, side);
            && (why.None? <==> Tradable(m, s, day) && Liquid(m, s, day) && !OpensAtLimit(m, s, day, side))
            && (why.Some? && why.value.StatusForbids? <==> !Tradable(m, s, day))
            && (why == Some(Suspended) <==> Tradable(m, s, day) && !Liquid(m, s, day))
            && (why == Some(AtUpperLimit) ==> side.Buy?) && (why == Some(AtLowerLimit) ==> side.Sell?)
  {
    hide NearestTick, RoundToTick, FullMove, LimitPrice;
    var previous, tick := m.previousBar(s, day), m.instrument(s).tickSize;
    var status := m.tradingStatus(s, day);
    var limit := if status.Some? then status.value.priceLimit else m.instrument(s).priceLimit;
    if previous.Some? && limit.Some? {
      var price := FullMove(previous.value.close, limit.value, side);
      FullMoveIsLimitPrice(previous.value.close, limit.value, side);
      RoundedIsNearest(price, tick);
      forall r | NearestTick(price, tick, r) ensures r == RoundToTick(price, tick) {
        NearestIsOne(price, tick, r, RoundToTick(price, tick));
      }
      assert forall l | LimitInForce(m, s, day, l) :: l == limit.value;
    }
  }

  /** The trade may be made, and carries the day and the reason of the call. */
  ghost predicate Allowed(x: Session, trade: Trade) {
    && Tradable(x.market, trade.symbol, x.day) && Liquid(x.market, trade.symbol, x.day)
    && !OpensAtLimit(x.market, trade.symbol, x.day, trade.side)
    && trade.date == x.day && trade.reason == x.reason && trade.quantity > 0
  }

  ghost predicate AllAllowed(x: Session, trades: seq<Trade>) {
    forall i | 0 <= i < |trades| :: Allowed(x, trades[i])
  }

  lemma {:induction false} SalesAreAllowed(x: Session, target: map<Symbol, int>, desk: Desk, symbols: seq<Symbol>)
    requires AllAllowed(x, desk.trades)
    ensures AllAllowed(x, SellAll(x, target, desk, symbols).trades)
  {
    hide OrderRestriction, Tradable, Liquid, OpensAtLimit, Commission, Lookup, ApplyTrade;
    if symbols != [] {
      SalesAreAllowed(x, target, desk, symbols[..|symbols| - 1]);
      RestrictionExactly(x.market, symbols[|symbols| - 1], x.day, Sell);
    }
  }

  lemma {:induction false} PurchasesAreAllowed(x: Session, target: map<Symbol, int>, desk: Desk, symbols: seq<Symbol>)
    requires AllAllowed(x, desk.trades)
    ensures AllAllowed(x, BuyAll(x, target, desk, symbols).trades)
  {
    hide OrderRestriction, Tradable, Liquid, OpensAtLimit, Commission, Lookup, ApplyTrade, Shrink;
    if symbols != [] {
      PurchasesAreAllowed(x, target, desk, symbols[..|symbols| - 1]);
      RestrictionExactly(x.market, symbols[|symbols| - 1], x.day, Buy);
    }
  }

  /** No call trades what may not be traded, buys at the upper limit or sells at the lower one. */
  lemma EveryTradeIsAllowed(x: Session, a: Account, t: Targets, band: real, log: seq<Rejection>)
    requires t.Valid()
    ensures AllAllowed(x, Execute(x, a, t, band, log).trades)
  {
    hide AllAllowed, SellOne, BuyOne, Plan;
    var target := Plan(x, a, t, band);
    NothingIsAllowed(x);
    SalesAreAllowed(x, target, Desk(a, [], log + PlanRejections(x, t, t.order), false), Sorted(a.positions.Keys + target.Keys));
    PurchasesAreAllowed(x, target, AfterSells(x, a, t, band, log), ByWeight(t, t.order));
  }

  lemma NothingIsAllowed(x: Session)
    ensures AllAllowed(x, [])
  {
  }

  // ----- in which order

  /** The first symbol has the heavier target, or an equal one that was given earlier. */
  ghost predicate ComesFirst(t: Targets, order: seq<Symbol>, a: Symbol, b: Symbol) {
    a in t.weight && b in t.weight &&
    exists i, j :: 0 <= i < |order| && 0 <= j < |order| && order[i] == a && order[j] == b
                   && (t.weight[a] > t.weight[b] || (t.weight[a] == t.weight[b] && i < j))
  }

  ghost predicate Weighed(t: Targets, order: seq<Symbol>) {
    forall s | s in order :: s in t.weight
  }

  ghost predicate HeaviestFirst(t: Targets, order: seq<Symbol>, sorted: seq<Symbol>) {
    forall i, j | 0 <= i < j < |sorted| :: ComesFirst(t, order, sorted[i], sorted[j])
  }

  lemma PutFirst(t: Targets, order: seq<Symbol>, s: Symbol, sorted: seq<Symbol>)
    requires Weighed(t, order + [s]) && HeaviestFirst(t, order, sorted) && forall k | k in sorted :: k in order
    requires sorted == [] || WeightOf(t, sorted[0]) < WeightOf(t, s)
    ensures HeaviestFirst(t, order + [s], [s] + sorted)
  {
    hide ComesFirst;
    var r := [s] + sorted;
    forall i, j | 0 <= i < j < |r| ensures ComesFirst(t, order + [s], r[i], r[j]) {
      if i == 0 {
        LighterComesAfter(t, order, s, sorted, j - 1);
      } else {
        LongerOrderKeeps(t, order, s, sorted[i - 1], sorted[j - 1]);
      }
    }
  }

  lemma KeepFirst(t: Targets, order: seq<Symbol>, s: Symbol, sorted: seq<Symbol>, rest: seq<Symbol>)
    requires Weighed(t, order + [s]) && HeaviestFirst(t, order, sorted) && sorted != [] && WeightOf(t, sorted[0]) >= WeightOf(t, s)
    requires forall k | k in sorted :: k in order
    requires HeaviestFirst(t, order + [s], rest) && forall k | k in rest :: k == s || k in sorted[1..]
    ensures HeaviestFirst(t, order + [s], [sorted[0]] + rest)
  {
    hide ComesFirst;
    var r := [sorted[0]] + rest;
    forall i, j | 0 <= i < j < |r| ensures ComesFirst(t, order + [s], r[i], r[j]) {
      if i > 0 {
        assert ComesFirst(t, order + [s], rest[i - 1], rest[j - 1]);
      } else {
        assert r[j] == rest[j - 1] && rest[j - 1] in rest;
        HeadComesFirst(t, order, s, sorted, r[j]);
      }
    }
  }

  lemma TailKeepsOrder(t: Targets, order: seq<Symbol>, sorted: seq<Symbol>)
    requires HeaviestFirst(t, order, sorted) && sorted != []
    ensures HeaviestFirst(t, order, sorted[1..])
  {
    hide ComesFirst;
    forall i, j | 0 <= i < j < |sorted[1..]| ensures ComesFirst(t, order, sorted[1..][i], sorted[1..][j]) {
      assert ComesFirst(t, order, sorted[i + 1], sorted[j + 1]);
    }
  }

  lemma {:induction false} InsertKeepsOrder(t: Targets, order: seq<Symbol>, s: Symbol, sorted: seq<Symbol>)
    requires Weighed(t, order + [s]) && HeaviestFirst(t, order, sorted) && s !in order && forall k | k in sorted :: k in order
    ensures HeaviestFirst(t, order + [s], InsertByWeight(t, s, sorted))
    ensures multiset(InsertByWeight(t, s, sorted)) == multiset(sorted) + multiset{s}
  {
    hide HeaviestFirst;
    if sorted == [] || WeightOf(t, sorted[0]) < WeightOf(t, s) {
      PutFirst(t, order, s, sorted);
    } else {
      assert sorted == [sorted[0]] + sorted[1..];
      TailKeepsOrder(t, order, sorted);
      InsertKeepsOrder(t, order, s, sorted[1..]);
      KeepFirst(t, order, s, sorted, InsertByWeight(t, s, sorted[1..]));
    }
  }

  lemma LongerOrderKeeps(t: Targets, order: seq<Symbol>, s: Symbol, a: Symbol, b: Symbol)
    requires ComesFirst(t, order, a, b)
    ensures ComesFirst(t, order + [s], a, b)
  {
    var i, j :| 0 <= i < |order| && 0 <= j < |order| && order[i] == a && order[j] == b
      && (t.weight[a] > t.weight[b] || (t.weight[a] == t.weight[b] && i < j));
    assert (order + [s])[i] == a && (order + [s])[j] == b;
  }

  lemma LighterComesAfter(t: Targets, order: seq<Symbol>, s: Symbol, sorted: seq<Symbol>, j: nat)
    requires Weighed(t, order + [s]) && HeaviestFirst(t, order, sorted) && j < |sorted| && WeightOf(t, sorted[0]) < WeightOf(t, s)
    requires forall k | k in sorted :: k in order
    ensures ComesFirst(t, order + [s], s, sorted[j])
  {
    if j > 0 {
      assert ComesFirst(t, order, sorted[0], sorted[j]);
    }
    assert sorted[j] in sorted && sorted[0] in sorted && sorted[0] in order + [s] && sorted[j] in order + [s] && s in order + [s];
    var k :| 0 <= k < |order| && order[k] == sorted[j];
    assert (order + [s])[k] == sorted[j] && (order + [s])[|order|] == s;
  }

  lemma HeadComesFirst(t: Targets, order: seq<Symbol>, s: Symbol, sorted: seq<Symbol>, b: Symbol)
    requires Weighed(t, order + [s]) && HeaviestFirst(t, order, sorted) && sorted != [] && WeightOf(t, sorted[0]) >= WeightOf(t, s)
    requires b == s || b in sorted[1..]
    requires forall k | k in sorted :: k in order
    ensures ComesFirst(t, order + [s], sorted[0], b)
  {
    if b == s {
      assert sorted[0] in sorted && sorted[0] in order + [s] && s in order + [s];
      var k :| 0 <= k < |order| && order[k] == sorted[0];
      assert (order + [s])[k] == sorted[0] && (order + [s])[|order|] == s;
    } else {
      var j :| 0 <= j < |sorted[1..]| && sorted[1..][j] == b;
      assert sorted[j + 1] == b;
      LongerOrderKeeps(t, order, s, sorted[0], b);
    }
  }

  /** Purchases are tried once per symbol, heaviest target first, equal targets in the order they were given. */
  lemma {:induction false} ByWeightIsHeaviestFirst(t: Targets, order: seq<Symbol>)
    requires Weighed(t, order) && forall i, j | 0 <= i < j < |order| :: order[i] != order[j]
    ensures HeaviestFirst(t, order, ByWeight(t, order)) && multiset(ByWeight(t, order)) == multiset(order)
  {
    if order != [] {
      var n := |order| - 1;
      ByWeightIsHeaviestFirst(t, order[..n]);
      assert order == order[..n] + [order[n]];
      InsertKeepsOrder(t, order[..n], order[n], ByWeight(t, order[..n]));
    }
  }

  /** The symbols of the trades are taken from the list in its order, each at most once. */
  ghost predicate Follow(trades: seq<Trade>, symbols: seq<Symbol>) {
    exists at: seq<int> :: FollowAt(trades, symbols, at)
  }

  ghost predicate FollowAt(trades: seq<Trade>, symbols: seq<Symbol>, at: seq<int>) {
    && |at| == |trades|
    && (forall k | 0 <= k < |at| :: 0 <= at[k] < |symbols| && trades[k].symbol == symbols[at[k]])
    && forall j, k | 0 <= j < k < |at| :: at[j] < at[k]
  }

  lemma FollowOneMore(trades: seq<Trade>, symbols: seq<Symbol>, s: Symbol, more: seq<Trade>)
    requires Follow(trades, symbols) && |more| <= 1 && forall k | 0 <= k < |more| :: more[k].symbol == s
    ensures Follow(trades + more, symbols + [s])
  {
    var at :| FollowAt(trades, symbols, at);
    var longer := if more == [] then at else at + [|symbols|];
    assert FollowAt(trades + more, symbols + [s], longer);
  }

  lemma {:induction false} SalesFollow(x: Session, target: map<Symbol, int>, desk: Desk, symbols: seq<Symbol>)
    requires desk.trades == []
    ensures Follow(SellAll(x, target, desk, symbols).trades, symbols)
  {
    hide OrderRestriction, Commission, Lookup, ApplyTrade, Follow;
    if symbols == [] {
      assert Follow([], []) by {
        NothingFollows();
      }
    } else {
      var n := |symbols| - 1;
      SalesFollow(x, target, desk, symbols[..n]);
      assert symbols == symbols[..n] + [symbols[n]];
      var before, after := SellAll(x, target, desk, symbols[..n]), SellAll(x, target, desk, symbols);
      FollowOneMore(before.trades, symbols[..n], symbols[n], after.trades[|before.trades|..]);
      assert after.trades == before.trades + after.trades[|before.trades|..];
    }
  }

  lemma NothingFollows()
    ensures Follow([], [])
  {
    assert FollowAt([], [], []);
  }

  lemma {:induction false} PurchasesFollow(x: Session, target: map<Symbol, int>, desk: Desk, symbols: seq<Symbol>)
    ensures var after := BuyAll(x, target, desk, symbols).trades;
            desk.trades <= after && Follow(after[|desk.trades|..], symbols)
  {
    hide OrderRestriction, Commission, Lookup, ApplyTrade, Shrink, Follow;
    if symbols == [] {
      NothingFollows();
      assert desk.trades[|desk.trades|..] == [];
    } else {
      var n := |symbols| - 1;
      PurchasesFollow(x, target, desk, symbols[..n]);
      assert symbols == symbols[..n] + [symbols[n]];
      var before, after := BuyAll(x, target, desk, symbols[..n]), BuyAll(x, target, desk, symbols);
      var m := |desk.trades|;
      FollowOneMore(before.trades[m..], symbols[..n], symbols[n], after.trades[|before.trades|..]);
      assert after.trades[m..] == before.trades[m..] + after.trades[|before.trades|..];
    }
  }

  lemma FollowAscending(trades: seq<Trade>, symbols: seq<Symbol>)
    requires Follow(trades, symbols) && forall i, j | 0 <= i < j < |symbols| :: symbols[i] < symbols[j]
    ensures forall i, j | 0 <= i < j < |trades| :: trades[i].symbol < trades[j].symbol
  {
    var at :| FollowAt(trades, symbols, at);
  }

  lemma FollowHeaviest(t: Targets, trades: seq<Trade>, symbols: seq<Symbol>)
    requires Follow(trades, symbols) && HeaviestFirst(t, t.order, symbols)
    ensures forall i, j | 0 <= i < j < |trades| :: ComesFirst(t, t.order, trades[i].symbol, trades[j].symbol)
  {
    hide ComesFirst;
    var at :| FollowAt(trades, symbols, at);
    forall i, j | 0 <= i < j < |trades| ensures ComesFirst(t, t.order, trades[i].symbol, trades[j].symbol) {
      assert at[i] < at[j];
      assert ComesFirst(t, t.order, symbols[at[i]], symbols[at[j]]);
    }
  }

  /** Sales go by ascending symbol, purchases by descending target weight. */
  lemma TradesAreInOrder(x: Session, a: Account, t: Targets, band: real, log: seq<Rejection>)
    requires t.Valid()
    ensures var sales, all := AfterSells(x, a, t, band, log).trades, Execute(x, a, t, band, log).trades;
            && sales <= all
            && (forall i, j | 0 <= i < j < |sales| :: sales[i].symbol < sales[j].symbol)
            && var bought := all[|sales|..];
            forall i, j | 0 <= i < j < |bought| :: ComesFirst(t, t.order, bought[i].symbol, bought[j].symbol)
  {
    hide SellAll, BuyAll, Plan, ComesFirst, Follow, HeaviestFirst;
    var target := Plan(x, a, t, band);
    var symbols := Sorted(a.positions.Keys + target.Keys);
    var sold := AfterSells(x, a, t, band, log);
    SortedAscends(a.positions.Keys + target.Keys);
    SalesFollow(x, target, Desk(a, [], log + PlanRejections(x, t, t.order), false), symbols);
    FollowAscending(sold.trades, symbols);
    ByWeightIsHeaviestFirst(t, t.order);
    PurchasesFollow(x, target, sold, ByWeight(t, t.order));
    FollowHeaviest(t, BuyAll(x, target, sold, ByWeight(t, t.order)).trades[|sold.trades|..], ByWeight(t, t.order));
  }

  // ----- what is refused

  /** The wanted change of one symbol was made, or is on the list of refusals. */
  ghost predicate Refused(rejections: seq<Rejection>, day: Date, s: Symbol, side: Side) {
    exists why :: Rejection(day, s, side, why) in rejections
  }

  lemma {:induction false} PlanRefuses(x: Session, t: Targets, order: seq<Symbol>)
    requires forall s | s in order :: s in t.weight
    ensures forall r :: r in PlanRejections(x, t, order)
              <==> r == Rejection(x.day, r.symbol, Buy, NoValidOpeningBar) && r.symbol in order
                   && t.weight[r.symbol] > 0.0 && OpenOf(x, r.symbol) <= 0.0
  {
    if order != [] {
      var n := |order| - 1;
      PlanRefuses(x, t, order[..n]);
      assert order == order[..n] + [order[n]];
    }
  }

  /** A position above its target comes down to it, or stays, blocks the purchases and is on the list of refusals. */
  lemma SellOneAnswers(x: Session, target: map<Symbol, int>, desk: Desk, s: Symbol)
    requires NonNegativePlan(target)
    ensures var after := SellOne(x, target, desk, s);
            var was, now, wanted := Quantity(desk.account.positions, s), Quantity(after.account.positions, s), Quantity(target, s);
            && desk.rejections <= after.rejections
            && (after.sellBlocked <==> desk.sellBlocked || now > wanted)
            && (now > wanted ==> now == was && Refused(after.rejections, x.day, s, Sell))
            && (was >= 0 ==> now >= 0) && (was <= wanted ==> now == was) && (was > wanted && now <= wanted ==> now == wanted)
            && forall k | k != s :: Quantity(after.account.positions, k) == Quantity(desk.account.positions, k)
  {
    hide OrderRestriction, Commission, Lookup;
    var after := SellOne(x, target, desk, s);
    if |after.rejections| > |desk.rejections| {
      var r := after.rejections[|desk.rejections|];
      assert r in after.rejections && Rejection(x.day, s, Sell, r.why) == r;
    }
  }

  lemma MoreRefusals(first: seq<Rejection>, second: seq<Rejection>, day: Date, s: Symbol, side: Side)
    requires first <= second && Refused(first, day, s, side)
    ensures Refused(second, day, s, side)
  {
    var why :| Rejection(day, s, side, why) in first;
    assert Rejection(day, s, side, why) in second;
  }

  ghost predicate SalesAnswered(x: Session, target: map<Symbol, int>, desk: Desk, after: Desk, symbols: seq<Symbol>) {
    && desk.rejections <= after.rejections
    && (forall k | k !in symbols :: Quantity(after.account.positions, k) == Quantity(desk.account.positions, k))
    && (forall k :: Quantity(desk.account.positions, k) >= 0 ==> Quantity(after.account.positions, k) >= 0)
    && (after.sellBlocked <==> desk.sellBlocked || exists s :: s in symbols && Quantity(after.account.positions, s) > Quantity(target, s))
    && (forall s | s in symbols && Quantity(after.account.positions, s) > Quantity(target, s) ::
          Quantity(after.account.positions, s) == Quantity(desk.account.positions, s) && Refused(after.rejections, x.day, s, Sell))
  }

  lemma {:induction false} SellAllAnswers(x: Session, target: map<Symbol, int>, desk: Desk, symbols: seq<Symbol>)
    requires NonNegativePlan(target)
    requires forall i, j | 0 <= i < j < |symbols| :: symbols[i] != symbols[j]
    ensures SalesAnswered(x, target, desk, SellAll(x, target, desk, symbols), symbols)
  {
    hide SellOne, Refused, NonNegativePlan;
    if symbols != [] {
      var n := |symbols| - 1;
      var s := symbols[n];
      assert symbols == symbols[..n] + [s];
      assert s !in symbols[..n];
      SellAllAnswers(x, target, desk, symbols[..n]);
      var before, after := SellAll(x, target, desk, symbols[..n]), SellAll(x, target, desk, symbols);
      SellOneAnswers(x, target, before, s);
      forall k | k in symbols && Quantity(after.account.positions, k) > Quantity(target, k)
        ensures Quantity(after.account.positions, k) == Quantity(desk.account.positions, k) && Refused(after.rejections, x.day, k, Sell)
      {
        if k != s {
          MoreRefusals(before.rejections, after.rejections, x.day, k, Sell);
        }
      }
    }
  }

  lemma {:induction false} BlockedBuysExactly(x: Session, target: map<Symbol, int>, positions: Positions, symbols: seq<Symbol>)
    ensures forall r :: r in BlockedBuys(x, target, positions, symbols)
              <==> r == Rejection(x.day, r.symbol, Buy, BuyPhaseBlocked) && r.symbol in symbols
                   && Quantity(target, r.symbol) > Quantity(positions, r.symbol)
  {
    if symbols != [] {
      var n := |symbols| - 1;
      BlockedBuysExactly(x, target, positions, symbols[..n]);
      assert symbols == symbols[..n] + [symbols[n]];
    }
  }

  lemma {:induction false} BuyAllKeepsRefusals(x: Session, target: map<Symbol, int>, desk: Desk, symbols: seq<Symbol>)
    ensures desk.rejections <= BuyAll(x, target, desk, symbols).rejections
  {
    hide OrderRestriction, Commission, Lookup, ApplyTrade, Shrink;
    if symbols != [] {
      BuyAllKeepsRefusals(x, target, desk, symbols[..|symbols| - 1]);
    }
  }

  lemma SoldIsAnswered(x: Session, a: Account, t: Targets, band: real, log: seq<Rejection>)
    requires t.Valid() && AllPositive(a.positions)
    ensures var symbols := Sorted(a.positions.Keys + Plan(x, a, t, band).Keys);
            SalesAnswered(x, Plan(x, a, t, band), Desk(a, [], log + PlanRejections(x, t, t.order), false), AfterSells(x, a, t, band, log), symbols)
    ensures NonNegativePlan(Plan(x, a, t, band))
  {
    hide SellAll, Plan, PlanRejections, AllPositive, NonNegativePlan, SalesAnswered;
    var target := Plan(x, a, t, band);
    PlanIsNonNegative(x, a, t, band);
    SortedAscends(a.positions.Keys + target.Keys);
    SellAllAnswers(x, target, Desk(a, [], log + PlanRejections(x, t, t.order), false), Sorted(a.positions.Keys + target.Keys));
  }

  /** The call only adds to the refusals of its sell phase, which only adds to those of the plan. */
  lemma RefusalsGrow(x: Session, a: Account, t: Targets, band: real, log: seq<Rejection>)
    requires t.Valid() && AllPositive(a.positions)
    ensures log + PlanRejections(x, t, t.order) <= AfterSells(x, a, t, band, log).rejections <= Execute(x, a, t, band, log).rejections
  {
    hide SellAll, BuyAll, Plan, PlanRejections, AllPositive, NonNegativePlan, BlockedBuys;
    SoldIsAnswered(x, a, t, band, log);
    BuyAllKeepsRefusals(x, Plan(x, a, t, band), AfterSells(x, a, t, band, log), ByWeight(t, t.order));
  }

  lemma PricelessWeightsAreRefused(x: Session, a: Account, t: Targets, band: real, log: seq<Rejection>, s: Symbol)
    requires t.Valid() && AllPositive(a.positions)
    requires s in t.weight && t.weight[s] > 0.0 && OpenOf(x, s) <= 0.0
    ensures Rejection(x.day, s, Buy, NoValidOpeningBar) in Execute(x, a, t, band, log).rejections
  {
    hide Execute, AfterSells, PlanRejections, AllPositive;
    RefusalsGrow(x, a, t, band, log);
    PlanRefuses(x, t, t.order);
    var r := Rejection(x.day, s, Buy, NoValidOpeningBar);
    assert r in PlanRejections(x, t, t.order);
    assert r in log + PlanRejections(x, t, t.order);
  }

  lemma UnsoldIsRefused(x: Session, a: Account, t: Targets, band: real, log: seq<Rejection>, s: Symbol)
    requires t.Valid() && AllPositive(a.positions)
    requires Quantity(AfterSells(x, a, t, band, log).account.positions, s) > Quantity(Plan(x, a, t, band), s)
    ensures AfterSells(x, a, t, band, log).sellBlocked
    ensures Quantity(AfterSells(x, a, t, band, log).account.positions, s) == Quantity(a.positions, s)
    ensures Refused(Execute(x, a, t, band, log).rejections, x.day, s, Sell)
  {
    hide Execute, AfterSells, PlanRejections, AllPositive, Plan, Refused;
    var target := Plan(x, a, t, band);
    var sold := AfterSells(x, a, t, band, log);
    SoldIsAnswered(x, a, t, band, log);
    RefusalsGrow(x, a, t, band, log);
    NothingElseIsHeld(a.positions, target, sold.account.positions, Sorted(a.positions.Keys + target.Keys));
    MoreRefusals(sold.rejections, Execute(x, a, t, band, log).rejections, x.day, s, Sell);
  }

  lemma NoneIsNegative(positions: Positions, s: Symbol)
    requires AllPositive(positions)
    ensures Quantity(positions, s) >= 0
  {
  }

  lemma PreventedIsRefused(x: Session, a: Account, t: Targets, band: real, log: seq<Rejection>, s: Symbol)
    requires t.Valid() && AllPositive(a.positions) && AfterSells(x, a, t, band, log).sellBlocked
    requires Quantity(Plan(x, a, t, band), s) > Quantity(AfterSells(x, a, t, band, log).account.positions, s)
    ensures Rejection(x.day, s, Buy, BuyPhaseBlocked) in Execute(x, a, t, band, log).rejections
  {
    hide SellAll, BuyAll, PlanRejections, AllPositive, Plan, BlockedBuys;
    var target := Plan(x, a, t, band);
    var sold := AfterSells(x, a, t, band, log);
    SoldIsAnswered(x, a, t, band, log);
    BlockedBuysExactly(x, target, sold.account.positions, Sorted(target.Keys));
    NoneIsNegative(a.positions, s);
    assert Rejection(x.day, s, Buy, BuyPhaseBlocked) in BlockedBuys(x, target, sold.account.positions, Sorted(target.Keys));
  }

  /**
   Nothing wanted is dropped in silence.  A weight without a valid opening price is refused; a position still
   above its target was refused, and exactly such a position blocks all purchases; every purchase that a
   blocked sale prevents is refused as well.
   */
  lemma EveryOrderIsAnswered(x: Session, a: Account, t: Targets, band: real, log: seq<Rejection>)
    requires t.Valid() && AllPositive(a.positions)
    ensures var target := Plan(x, a, t, band);
            var sold, after := AfterSells(x, a, t, band, log), Execute(x, a, t, band, log);
            && log <= after.rejections
            && (forall s | s in t.weight && t.weight[s] > 0.0 && OpenOf(x, s) <= 0.0 ::
                  Rejection(x.day, s, Buy, NoValidOpeningBar) in after.rejections)
            && (sold.sellBlocked <==> exists s :: Quantity(sold.account.positions, s) > Quantity(target, s))
            && (forall s | Quantity(sold.account.positions, s) > Quantity(target, s) ::
                  Quantity(sold.account.positions, s) == Quantity(a.positions, s) && Refused(after.rejections, x.day, s, Sell))
            && (sold.sellBlocked ==> forall s | Quantity(target, s) > Quantity(sold.account.positions, s) ::
                  Rejection(x.day, s, Buy, BuyPhaseBlocked) in after.rejections)
  {
    hide Execute, AfterSells, Plan, Refused, PlanRejections, AllPositive, OpenOf;
    var target := Plan(x, a, t, band);
    var sold, after := AfterSells(x, a, t, band, log), Execute(x, a, t, band, log);
    RefusalsGrow(x, a, t, band, log);
    SoldIsAnswered(x, a, t, band, log);
    forall s | Quantity(sold.account.positions, s) > Quantity(target, s)
      ensures Quantity(sold.account.positions, s) == Quantity(a.positions, s) && Refused(after.rejections, x.day, s, Sell) && sold.sellBlocked
    {
      UnsoldIsRefused(x, a, t, band, log, s);
    }
    forall s | s in t.weight && t.weight[s] > 0.0 && OpenOf(x, s) <= 0.0
      ensures Rejection(x.day, s, Buy, NoValidOpeningBar) in after.rejections
    {
      PricelessWeightsAreRefused(x, a, t, band, log, s);
    }
    if sold.sellBlocked {
      forall s | Quantity(target, s) > Quantity(sold.account.positions, s)
        ensures Rejection(x.day, s, Buy, BuyPhaseBlocked) in after.rejections
      {
        PreventedIsRefused(x, a, t, band, log, s);
      }
    }
  }

  lemma NothingElseIsHeld(before: Positions, target: map<Symbol, int>, after: Positions, symbols: seq<Symbol>)
    requires NonNegativePlan(target) && forall s :: s in symbols <==> s in before.Keys + target.Keys
    requires forall k | k !in symbols :: Quantity(after, k) == Quantity(before, k)
    ensures forall s | Quantity(after, s) > Quantity(target, s) :: s in symbols
  {
  }
}
