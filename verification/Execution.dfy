/**
 The order executor (execution.py): plan target quantities at the open, sell first, then buy what
 the cash allows.  Money is exact (`real`), quantities are integers.
 */
module Execution {
  import opened Common
  import opened Costs
  import Security

  datatype Bar = Bar(open: real, close: real, volume: real, amount: real)

  datatype InstrumentInfo = InstrumentInfo(
    lotSize: int, tickSize: real, priceLimit: Option<real>, instrumentType: string)

  /** config.py refuses instruments whose lot or tick is not positive. */
  type Instrument = i: InstrumentInfo | i.lotSize > 0 && i.tickSize > 0.0
    witness InstrumentInfo(100, 0.01, None, "ETF")

  /** The market is an arbitrary source of bars, instruments and statuses. */
  datatype Market = Market(
    bar: (Symbol, Date) -> Option<Bar>,
    latestBarOnOrBefore: (Symbol, Date) -> Option<Bar>,
    previousBar: (Symbol, Date) -> Option<Bar>,
    instrument: Symbol -> Instrument,
    tradingStatus: (Symbol, Date) -> Option<Security.TradingStatus>)

  datatype Side = Buy | Sell

  datatype Trade = Trade(
    date: Date, symbol: Symbol, side: Side, quantity: int, price: real, notional: real,
    commission: real, reason: string, stampDuty: real, transferFee: real, slippageCost: real)
  {
    function TotalCost(): real {
      commission + stampDuty + transferFee + slippageCost
    }
  }

  datatype Restriction = StatusForbids(status: string) | Suspended | AtUpperLimit | AtLowerLimit

  datatype Refusal = NoValidOpeningBar | NoOpeningBar | Restricted(why: Restriction) | BuyPhaseBlocked

  datatype Rejection = Rejection(date: Date, symbol: Symbol, side: Side, why: Refusal)

  type Positions = map<Symbol, int>

  datatype Account = Account(cash: real, positions: Positions)

  /** A weight dictionary: its keys in insertion order, and the weight of each. */
  datatype Targets = Targets(order: seq<Symbol>, weight: map<Symbol, real>) {
    ghost predicate Valid() {
      && (forall s :: s in weight <==> s in order)
      && forall i, j | 0 <= i < j < |order| :: order[i] != order[j]
    }
  }

  const NoTargets := Targets([], map[])

  /** Everything one call of the executor is given besides the portfolio and the targets. */
  datatype Session = Session(market: Market, day: Date, costs: CostSettings, reason: string)

  /** The executor's working state: the account and the two lists it appends to. */
  datatype Desk = Desk(account: Account, trades: seq<Trade>, rejections: seq<Rejection>, sellBlocked: bool)

  // ----- valuation

  function Quantity(positions: Positions, s: Symbol): int {
    if s in positions then positions[s] else 0
  }

  /** The bar a position is marked with: today's, else the latest before it. */
  function MarkBar(m: Market, s: Symbol, day: Date): Option<Bar> {
    if m.bar(s, day).Some? then m.bar(s, day) else m.latestBarOnOrBefore(s, day)
  }

  function OpenMark(m: Market, day: Date): Symbol -> real {
    s => var bar := MarkBar(m, s, day); if bar.None? then 0.0 else bar.value.open
  }

  function CloseMark(m: Market, day: Date): Symbol -> real {
    s => var bar := MarkBar(m, s, day); if bar.None? then 0.0 else bar.value.close
  }

  function Marked(positions: Positions, mark: Symbol -> real, s: Symbol): real {
    Quantity(positions, s) as real * mark(s)
  }

  function SumOver(keys: set<Symbol>, f: Symbol -> real): real {
    if keys == {} then 0.0 else
      var s := MinOf(keys);
      f(s) + SumOver(keys - {s}, f)
  }

  function Holdings(positions: Positions, mark: Symbol -> real): real {
    SumOver(positions.Keys, s => Marked(positions, mark, s))
  }

  function Worth(a: Account, mark: Symbol -> real): real {
    a.cash + Holdings(a.positions, mark)
  }

  /** Any one term can be taken out of the sum, not only the first. */
  lemma {:induction false} SumSplit(keys: set<Symbol>, f: Symbol -> real, s: Symbol)
    requires s in keys
    ensures SumOver(keys, f) == f(s) + SumOver(keys - {s}, f)
  {
    var first := MinOf(keys);
    if first != s {
      SumSplit(keys - {first}, f, s);
      SumSplit(keys - {s}, f, first);
      assert keys - {first} - {s} == keys - {s} - {first};
    }
  }

  lemma {:induction false} SumAgrees(keys: set<Symbol>, f: Symbol -> real, g: Symbol -> real)
    requires forall s | s in keys :: f(s) == g(s)
    ensures SumOver(keys, f) == SumOver(keys, g)
  {
    if keys != {} {
      SumAgrees(keys - {MinOf(keys)}, f, g);
    }
  }

  lemma HoldingsSplit(positions: Positions, mark: Symbol -> real, s: Symbol)
    ensures Holdings(positions, mark) == Marked(positions, mark, s) + Holdings(positions - {s}, mark)
  {
    var rest := positions - {s};
    var f := k => Marked(positions, mark, k);
    var g := k => Marked(rest, mark, k);
    assert rest.Keys == positions.Keys - {s};
    SumAgrees(rest.Keys, f, g);
    if s in positions {
      SumSplit(positions.Keys, f, s);
    } else {
      assert rest.Keys == positions.Keys;
      assert f(s) == 0.0;
    }
  }

  /** `_set_position`: a position that is not positive is removed. */
  function SetPosition(positions: Positions, s: Symbol, quantity: int): Positions {
    if quantity > 0 then positions[s := quantity] else positions - {s}
  }

  lemma SetPositionWorth(positions: Positions, mark: Symbol -> real, s: Symbol, quantity: int)
    requires quantity >= 0
    ensures Holdings(SetPosition(positions, s, quantity), mark)
         == Holdings(positions, mark) + (quantity - Quantity(positions, s)) as real * mark(s)
  {
    var after := SetPosition(positions, s, quantity);
    HoldingsSplit(positions, mark, s);
    HoldingsSplit(after, mark, s);
    assert after - {s} == positions - {s};
    assert Quantity(after, s) == quantity;
    Distribute(quantity, Quantity(positions, s), mark(s));
  }

  lemma Distribute(a: int, b: int, m: real)
    ensures (a - b) as real * m == a as real * m - b as real * m
  {
  }

  // ----- prices, fees, restrictions

  function Commission(notional: real, c: Schedule): real {
    if notional <= 0.0 then 0.0 else Max(c.minimumCommission, notional * c.commissionBps / 10000.0)
  }

  /** Decimal ROUND_HALF_UP: halves go away from zero. */
  function RoundHalfUp(ticks: real): int {
    if ticks >= 0.0 then (ticks + 0.5).Floor else -((-ticks + 0.5).Floor)
  }

  function RoundToTick(value: real, tick: real): real
    requires tick > 0.0
  {
    RoundHalfUp(value / tick) as real * tick
  }

  function LimitPrice(side: Side, close: real, limit: real): real {
    close * (if side.Buy? then 1.0 + limit else 1.0 - limit)
  }

  function OrderRestriction(m: Market, s: Symbol, day: Date, side: Side): Option<Restriction> {
    var instrument := m.instrument(s);
    var status := m.tradingStatus(s, day);
    var bar := m.bar(s, day);
    if status.Some? && !status.value.tradable then Some(StatusForbids(status.value.status))
    else if bar.None? || bar.value.volume <= 0.0 || bar.value.amount <= 0.0 then Some(Suspended)
    else
      var limit := if status.Some? then status.value.priceLimit else instrument.priceLimit;
      var previous := m.previousBar(s, day);
      if limit.None? || previous.None? || previous.value.close <= 0.0 then None
      else
        var upper := RoundToTick(LimitPrice(Buy, previous.value.close, limit.value), instrument.tickSize);
        var lower := RoundToTick(LimitPrice(Sell, previous.value.close, limit.value), instrument.tickSize);
        var tolerance := instrument.tickSize / 2.0;
        if side.Buy? && bar.value.open >= upper - tolerance then Some(AtUpperLimit)
        else if side.Sell? && bar.value.open <= lower + tolerance then Some(AtLowerLimit)
        else None
  }

  function ScheduleFor(x: Session, s: Symbol): Schedule {
    Lookup(x.costs, x.market.instrument(s).instrumentType, x.day)
  }

  function SellPrice(c: Schedule, open: real): real {
    open * (1.0 - c.slippageBps / 10000.0)
  }

  function BuyPrice(c: Schedule, open: real): real {
    open * (1.0 + c.slippageBps / 10000.0)
  }

  function SellTrade(x: Session, s: Symbol, open: real, quantity: int): Trade {
    var c := ScheduleFor(x, s);
    var price := SellPrice(c, open);
    var notional := quantity as real * price;
    Trade(x.day, s, Sell, quantity, price, notional, Commission(notional, c), x.reason,
          notional * c.sellStampDutyBps / 10000.0, notional * c.transferFeeBps / 10000.0,
          quantity as real * Abs(price - open))
  }

  function BuyTrade(x: Session, s: Symbol, open: real, quantity: int): Trade {
    var c := ScheduleFor(x, s);
    var price := BuyPrice(c, open);
    var notional := quantity as real * price;
    Trade(x.day, s, Buy, quantity, price, notional, Commission(notional, c), x.reason,
          0.0, notional * c.transferFeeBps / 10000.0, quantity as real * Abs(price - open))
  }

  /** What a trade does to cash and positions; the backtest can be replayed with it. */
  function ApplyTrade(a: Account, t: Trade): Account {
    match t.side
    case Sell => Account(a.cash + (t.notional - t.commission - t.stampDuty - t.transferFee),
                         SetPosition(a.positions, t.symbol, Quantity(a.positions, t.symbol) - t.quantity))
    case Buy => Account(a.cash - (t.notional + t.commission + t.transferFee),
                        SetPosition(a.positions, t.symbol, Quantity(a.positions, t.symbol) + t.quantity))
  }

  function Replay(a: Account, trades: seq<Trade>): Account {
    if trades == [] then a else ApplyTrade(Replay(a, trades[..|trades| - 1]), trades[|trades| - 1])
  }

  function CostOf(trades: seq<Trade>): real {
    if trades == [] then 0.0 else CostOf(trades[..|trades| - 1]) + trades[|trades| - 1].TotalCost()
  }

  // ----- planning

  predicate CanPlan(x: Session, t: Targets, s: Symbol)
    requires s in t.weight
  {
    var bar := x.market.bar(s, x.day);
    bar.Some? && bar.value.open > 0.0 && t.weight[s] > 0.0
  }

  /** What a target may be worth. */
  function Budget(equity: real, weight: real): real {
    equity * weight
  }

  /** The weight a position has in the portfolio. */
  function ShareOf(quantity: int, open: real, equity: real): real
    requires equity > 0.0
  {
    quantity as real * open / equity
  }

  /** `max(0, int(worth // (open * lot)) * lot)` */
  function LotQuantity(worth: real, open: real, lot: int): int
    requires open > 0.0 && lot > 0
  {
    var perLot := open * lot as real;
    assert perLot > 0.0;
    var lots := (worth / perLot).Floor;
    if lots * lot > 0 then lots * lot else 0
  }

  predicate InBand(x: Session, t: Targets, band: real, equity: real, positions: Positions, s: Symbol)
    requires s in t.weight && s in positions && equity > 0.0
  {
    var bar := x.market.bar(s, x.day);
    bar.Some? && Abs(t.weight[s] - ShareOf(positions[s], bar.value.open, equity)) < band
  }

  function LotPlan(x: Session, t: Targets, equity: real): map<Symbol, int> {
    map s | s in t.weight && CanPlan(x, t, s) ::
      LotQuantity(Budget(equity, t.weight[s]), x.market.bar(s, x.day).value.open, x.market.instrument(s).lotSize)
  }

  function BandPlan(x: Session, t: Targets, equity: real, band: real, positions: Positions): map<Symbol, int>
    requires equity > 0.0
  {
    map s | s in t.weight && s in positions && InBand(x, t, band, equity, positions, s) :: positions[s]
  }

  /** `target_quantities`: whole lots affordable at the weight; a position inside the band stays as it is. */
  function Plan(x: Session, a: Account, t: Targets, band: real): map<Symbol, int> {
    var equity := Worth(a, OpenMark(x.market, x.day));
    if band > 0.0 && equity > 0.0 then LotPlan(x, t, equity) + BandPlan(x, t, equity, band, a.positions)
    else LotPlan(x, t, equity)
  }

  function PlanRejections(x: Session, t: Targets, order: seq<Symbol>): seq<Rejection>
    requires forall s | s in order :: s in t.weight
  {
    if order == [] then [] else
      var s := order[|order| - 1];
      var before := PlanRejections(x, t, order[..|order| - 1]);
      if !CanPlan(x, t, s) && t.weight[s] > 0.0
      then before + [Rejection(x.day, s, Buy, NoValidOpeningBar)] else before
  }

  // ----- the sell phase

  function SellOne(x: Session, target: map<Symbol, int>, desk: Desk, s: Symbol): Desk {
    var current, wanted := Quantity(desk.account.positions, s), Quantity(target, s);
    var bar := x.market.bar(s, x.day);
    if current <= wanted then desk
    else if bar.None? then
      desk.(sellBlocked := true, rejections := desk.rejections + [Rejection(x.day, s, Sell, NoOpeningBar)])
    else
      var restriction := OrderRestriction(x.market, s, x.day, Sell);
      if restriction.Some? then
        desk.(sellBlocked := true,
              rejections := desk.rejections + [Rejection(x.day, s, Sell, Restricted(restriction.value))])
      else
        var trade := SellTrade(x, s, bar.value.open, current - wanted);
        desk.(account := ApplyTrade(desk.account, trade), trades := desk.trades + [trade])
  }

  function SellAll(x: Session, target: map<Symbol, int>, desk: Desk, symbols: seq<Symbol>): Desk {
    if symbols == [] then desk
    else SellOne(x, target, SellAll(x, target, desk, symbols[..|symbols| - 1]), symbols[|symbols| - 1])
  }

  function BlockedBuys(x: Session, target: map<Symbol, int>, positions: Positions, symbols: seq<Symbol>): seq<Rejection> {
    if symbols == [] then [] else
      var s := symbols[|symbols| - 1];
      var before := BlockedBuys(x, target, positions, symbols[..|symbols| - 1]);
      if Quantity(target, s) > Quantity(positions, s)
      then before + [Rejection(x.day, s, Buy, BuyPhaseBlocked)] else before
  }

  // ----- the buy phase

  const Tolerance := 0.00000001

  function BuyOutlay(c: Schedule, price: real, quantity: int): real {
    var notional := quantity as real * price;
    notional + Commission(notional, c) + notional * c.transferFeeBps / 10000.0
  }

  predicate Fits(c: Schedule, price: real, cash: real, quantity: int) {
    BuyOutlay(c, price, quantity) <= cash + Tolerance
  }

  /** The quantity the shrinking loop stops at; less than one lot means nothing fits. */
  function Shrink(c: Schedule, price: real, cash: real, lot: int, quantity: int): int
    requires lot > 0
    decreases quantity
  {
    if quantity < lot || Fits(c, price, cash, quantity) then quantity
    else Shrink(c, price, cash, lot, quantity - lot)
  }

  function BuyOne(x: Session, target: map<Symbol, int>, desk: Desk, s: Symbol): Desk {
    var current := Quantity(desk.account.positions, s);
    var bar := x.market.bar(s, x.day);
    if s !in target || target[s] - current <= 0 then desk
    else if bar.None? then desk.(rejections := desk.rejections + [Rejection(x.day, s, Buy, NoOpeningBar)])
    else
      var restriction := OrderRestriction(x.market, s, x.day, Buy);
      if restriction.Some? then
        desk.(rejections := desk.rejections + [Rejection(x.day, s, Buy, Restricted(restriction.value))])
      else
        var lot := x.market.instrument(s).lotSize;
        var c := ScheduleFor(x, s);
        var price := BuyPrice(c, bar.value.open);
        var quantity := Shrink(c, price, desk.account.cash, lot, target[s] - current);
        if quantity < lot then desk
        else
          var trade := BuyTrade(x, s, bar.value.open, quantity);
          desk.(account := ApplyTrade(desk.account, trade), trades := desk.trades + [trade])
  }

  function BuyAll(x: Session, target: map<Symbol, int>, desk: Desk, symbols: seq<Symbol>): Desk {
    if symbols == [] then desk
    else BuyOne(x, target, BuyAll(x, target, desk, symbols[..|symbols| - 1]), symbols[|symbols| - 1])
  }

  /** `target_weights.get(symbol, 0.0)` */
  function WeightOf(t: Targets, s: Symbol): real {
    if s in t.weight then t.weight[s] else 0.0
  }

  function InsertByWeight(t: Targets, s: Symbol, sorted: seq<Symbol>): (r: seq<Symbol>)
    ensures forall k :: k in r <==> k == s || k in sorted
  {
    if sorted == [] || WeightOf(t, sorted[0]) < WeightOf(t, s) then [s] + sorted
    else [sorted[0]] + InsertByWeight(t, s, sorted[1..])
  }

  /** Heaviest target first; equal weights keep their insertion order. */
  function ByWeight(t: Targets, order: seq<Symbol>): (r: seq<Symbol>)
    ensures forall k :: k in r <==> k in order
  {
    if order == [] then [] else
      assert order == order[..|order| - 1] + [order[|order| - 1]];
      InsertByWeight(t, order[|order| - 1], ByWeight(t, order[..|order| - 1]))
  }

  /** The whole call, as a function of the account. */
  function Execute(x: Session, a: Account, t: Targets, band: real, log: seq<Rejection>): Desk
    requires t.Valid()
  {
    var target := Plan(x, a, t, band);
    var start := Desk(a, [], log + PlanRejections(x, t, t.order), false);
    var sold := SellAll(x, target, start, Sorted(a.positions.Keys + target.Keys));
    if sold.sellBlocked then
      sold.(rejections := sold.rejections + BlockedBuys(x, target, sold.account.positions, Sorted(target.Keys)))
    else BuyAll(x, target, sold, ByWeight(t, t.order))
  }

  /** The desk when the sell phase is over. */
  function AfterSells(x: Session, a: Account, t: Targets, band: real, log: seq<Rejection>): Desk
    requires t.Valid()
  {
    var target := Plan(x, a, t, band);
    SellAll(x, target, Desk(a, [], log + PlanRejections(x, t, t.order), false), Sorted(a.positions.Keys + target.Keys))
  }
}
