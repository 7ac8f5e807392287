/**
 The daily state machine of the backtest (backtest.py): execute what was pending, mark the
 portfolio, then decide between a risk stop, a cooldown day, a new signal, and nothing.
 The market and the signal generator are arbitrary.
 */
module Backtest {
  import opened Common
  import opened Costs
  import opened Execution
  import opened PortfolioModule

  datatype Settings = Settings(rebalanceDays: int, minimumRebalanceWeight: real)

  datatype Signal = Signal(targets: Targets, reason: string)

  datatype Risk = Risk(maxPortfolioDrawdown: real, maxDailyLoss: real, cooldownDays: nat)

  /** Everything a run is given: the window's sessions, the settings schedule, and the signal generator. */
  datatype Setup = Setup(
    market: Market, costs: CostSettings, risk: Risk, calendar: seq<Date>, settings: Settings,
    schedule: map<Date, Settings>, initialCash: real, generate: (Settings, Date, real) -> Signal)
  {
    /** The calendar is a list of distinct days in order, and target weights are dictionaries. */
    ghost predicate Valid() {
      && (forall i, j | 0 <= i < j < |calendar| :: calendar[i] < calendar[j])
      && forall settings: Settings, day: Date, equity: real :: generate(settings, day, equity).targets.Valid()
    }
  }

  /** A target set waiting for the next open. */
  datatype Order = Order(targets: Targets, reason: string, band: real)

  datatype EquityPoint = EquityPoint(date: Date, equity: real, cash: real, drawdown: real)

  /** The loop's variables. */
  datatype Book = Book(
    account: Account, highWater: real, pending: Option<Order>, cooldown: int, previousEquity: real,
    active: Settings, lastSignal: Option<nat>, trades: seq<Trade>, rejections: seq<Rejection>,
    curve: seq<EquityPoint>)

  datatype Decision = RiskStop | Cooling | NewSignal | Idle

  function Opening(s: Setup): Book {
    Book(Account(s.initialCash, map[]), s.initialCash, None, 0, s.initialCash, s.settings, None, [], [], [])
  }

  function SessionOf(s: Setup, i: nat, reason: string): Session
    requires i < |s.calendar|
  {
    Session(s.market, s.calendar[i], s.costs, reason)
  }

  /** The desk after the pending order, if any, was executed at the open of session i. */
  function AtOpen(s: Setup, b: Book, i: nat): Desk
    requires i < |s.calendar|
    requires b.pending.Some? ==> b.pending.value.targets.Valid()
  {
    match b.pending
    case None => Desk(b.account, [], b.rejections, false)
    case Some(order) => Execute(SessionOf(s, i, order.reason), b.account, order.targets, order.band, b.rejections)
  }

  function CloseWorth(s: Setup, a: Account, i: nat): real
    requires i < |s.calendar|
  {
    Worth(a, CloseMark(s.market, s.calendar[i]))
  }

  function ActiveSettings(s: Setup, active: Settings, i: nat): Settings
    requires i < |s.calendar|
  {
    if s.calendar[i] in s.schedule then s.schedule[s.calendar[i]] else active
  }

  function Drawdown(equity: real, peak: real): real {
    if peak > 0.0 then equity / peak - 1.0 else 0.0
  }

  function DailyReturn(equity: real, previous: real): real {
    if previous > 0.0 then equity / previous - 1.0 else 0.0
  }

  predicate RiskTriggered(risk: Risk, held: Positions, drawdown: real, dailyReturn: real) {
    held.Keys != {} && (drawdown <= -risk.maxPortfolioDrawdown || dailyReturn <= -risk.maxDailyLoss)
  }

  predicate SignalDue(s: Setup, settings: Settings, lastSignal: Option<nat>, i: nat)
    requires i < |s.calendar|
  {
    || s.calendar[i] in s.schedule
    || lastSignal.None?
    || i - lastSignal.value >= settings.rebalanceDays
  }

  function Decide(s: Setup, b: Book, held: Positions, equity: real, i: nat): Decision
    requires i < |s.calendar|
  {
    if RiskTriggered(s.risk, held, Drawdown(equity, Max(b.highWater, equity)), DailyReturn(equity, b.previousEquity))
    then RiskStop
    else if b.cooldown > 0 then Cooling
    else if SignalDue(s, ActiveSettings(s, b.active, i), b.lastSignal, i) then NewSignal
    else Idle
  }

  /** The target set a decision leaves for the next session. */
  function OrderFor(s: Setup, b: Book, decision: Decision, equity: real, i: nat): Option<Order>
    requires i < |s.calendar|
  {
    match decision
    case RiskStop => Some(Order(NoTargets, "Portfolio risk stop", 0.0))
    case Cooling => Some(Order(NoTargets, "Risk cooldown", 0.0))
    case NewSignal =>
      var signal := s.generate(ActiveSettings(s, b.active, i), s.calendar[i], equity);
      Some(Order(signal.targets, signal.reason, ActiveSettings(s, b.active, i).minimumRebalanceWeight))
    case Idle => None
  }

  ghost predicate BookOk(b: Book) {
    b.pending.Some? ==> b.pending.value.targets.Valid()
  }

  /** One session. */
  function Day(s: Setup, b: Book, i: nat): Book
    requires i < |s.calendar| && BookOk(b)
  {
    var desk := AtOpen(s, b, i);
    var equity := CloseWorth(s, desk.account, i);
    var peak := Max(b.highWater, equity);
    var decision := Decide(s, b, desk.account.positions, equity, i);
    var cooldown := match decision
      case RiskStop => s.risk.cooldownDays
      case Cooling => b.cooldown - 1
      case _ => b.cooldown;
    Book(
      desk.account,
      if decision.Cooling? && cooldown == 0 then equity else peak,
      OrderFor(s, b, decision, equity, i),
      cooldown,
      equity,
      ActiveSettings(s, b.active, i),
      if decision.NewSignal? then Some(i) else b.lastSignal,
      b.trades + desk.trades,
      desk.rejections,
      b.curve + [EquityPoint(s.calendar[i], equity, desk.account.cash, Drawdown(equity, peak))])
  }

  /** The loop's variables after the first n sessions. */
  function After(s: Setup, n: nat): (b: Book)
    requires s.Valid() && n <= |s.calendar|
    ensures BookOk(b)
  {
    if n == 0 then Opening(s) else Day(s, After(s, n - 1), n - 1)
  }

  function DecisionOn(s: Setup, i: nat): Decision
    requires s.Valid() && i < |s.calendar|
  {
    var b := After(s, i);
    var desk := AtOpen(s, b, i);
    Decide(s, b, desk.account.positions, CloseWorth(s, desk.account, i), i)
  }

  function EquityOn(s: Setup, i: nat): real
    requires s.Valid() && i < |s.calendar|
  {
    CloseWorth(s, AtOpen(s, After(s, i), i).account, i)
  }

  /** The signal generated once more after the loop, from the last day's settings and equity. */
  function LatestSignal(s: Setup): Signal
    requires s.Valid() && 0 < |s.calendar|
  {
    var n := |s.calendar|;
    s.generate(After(s, n).active, s.calendar[n - 1], After(s, n).previousEquity)
  }

  datatype Outcome = CashNotPositive | TooFewSessions | Finished(book: Book, latest: Signal)

  /** `_run`: the whole loop over a mutable portfolio. */
  method Run(s: Setup) returns (outcome: Outcome)
    requires s.Valid()
    ensures outcome == if s.initialCash <= 0.0 then CashNotPositive
                       else if |s.calendar| < 2 then TooFewSessions
                       else Finished(After(s, |s.calendar|), LatestSignal(s))
  {
    hide Execute, Worth, Drawdown, DailyReturn, Max, RiskTriggered, SignalDue;
    if s.initialCash <= 0.0 {
      return CashNotPositive;
    }
    if |s.calendar| < 2 {
      return TooFewSessions;
    }
    var portfolio := new Portfolio(s.initialCash, s.initialCash);
    var pending: Option<Order> := None;
    var cooldown := 0;
    var trades: seq<Trade>, rejections: seq<Rejection>, curve: seq<EquityPoint> := [], [], [];
    var previousEquity := s.initialCash;
    var active := s.settings;
    var lastSignal: Option<nat> := None;
    for i := 0 to |s.calendar|
      invariant fresh(portfolio)
      invariant Book(portfolio.Account(), portfolio.highWaterMark, pending, cooldown, previousEquity, active,
                     lastSignal, trades, rejections, curve) == After(s, i)
      invariant i > 0 ==> curve != [] && curve[|curve| - 1].equity == previousEquity
    {
      ghost var b := After(s, i);
      var day := s.calendar[i];
      active := ActiveSettings(s, active, i);
      if pending.Some? {
        var executed;
        ghost var blocked;
        executed, rejections, blocked := portfolio.ExecuteTargetWeights(
          SessionOf(s, i, pending.value.reason), pending.value.targets, pending.value.band, rejections);
        trades := trades + executed;
        pending := None;
      }
      assert trades == b.trades + AtOpen(s, b, i).trades;
      var equity := PortfolioValue(portfolio.Account(), CloseMark(s.market, day));
      portfolio.highWaterMark := Max(portfolio.highWaterMark, equity);
      var drawdown := Drawdown(equity, portfolio.highWaterMark);
      var dailyReturn := DailyReturn(equity, previousEquity);
      curve := curve + [EquityPoint(day, equity, portfolio.cash, drawdown)];
      previousEquity := equity;
      assert After(s, i + 1) == Day(s, b, i);
      if RiskTriggered(s.risk, portfolio.positions, drawdown, dailyReturn) {
        cooldown := s.risk.cooldownDays;
        pending := Some(Order(NoTargets, "Portfolio risk stop", 0.0));
        continue;
      }
      if cooldown > 0 {
        cooldown := cooldown - 1;
        pending := Some(Order(NoTargets, "Risk cooldown", 0.0));
        if cooldown == 0 {
          portfolio.highWaterMark := equity;
        }
        continue;
      }
      if SignalDue(s, active, lastSignal, i) {
        var signal := s.generate(active, day, equity);
        pending := Some(Order(signal.targets, signal.reason, active.minimumRebalanceWeight));
        lastSignal := Some(i);
      }
    }
    var latest := s.generate(active, s.calendar[|s.calendar| - 1], curve[|curve| - 1].equity);
    outcome := Finished(Book(portfolio.Account(), portfolio.highWaterMark, pending, cooldown, previousEquity, active,
                             lastSignal, trades, rejections, curve), latest);
  }
}
