/** Statements about whole backtests: every market, every signal generator, every calendar. */
module BacktestLaws {
  import opened Common
  import opened Costs
  import opened Execution
  import opened ExecutionLaws
  import opened Backtest

  /** Valid rates and non-negative opening prices on every session. */
  ghost predicate Sane(s: Setup) {
    && s.Valid()
    && ValuesValid(s.costs)
    && forall k: Symbol, day: Date :: s.market.bar(k, day).Some? ==> s.market.bar(k, day).value.open >= 0.0
  }

  /** The order left by session i for session i + 1. */
  function OrderSetOn(s: Setup, i: nat): Option<Order>
    requires s.Valid() && i < |s.calendar|
  {
    OrderFor(s, After(s, i), DecisionOn(s, i), EquityOn(s, i), i)
  }

  /** The trades of session i. */
  function TradesOn(s: Setup, i: nat): seq<Trade>
    requires s.Valid() && i < |s.calendar|
  {
    AtOpen(s, After(s, i), i).trades
  }

  lemma OpeningBook(s: Setup)
    requires s.Valid()
    ensures After(s, 0) == Opening(s)
  {
  }

  lemma SessionEffects(s: Setup, i: nat)
    requires s.Valid() && i < |s.calendar|
    ensures var b, after := After(s, i), After(s, i + 1);
            && after.account == AtOpen(s, b, i).account
            && after.trades == b.trades + TradesOn(s, i)
            && after.pending == OrderSetOn(s, i)
            && after.previousEquity == EquityOn(s, i)
  {
    hide Execute, Worth, Decide, OrderFor;
  }

  // ----- replay and attribution

  lemma OpenReplays(s: Setup, i: nat)
    requires s.Valid() && i < |s.calendar|
    ensures AtOpen(s, After(s, i), i).account == Replay(After(s, i).account, TradesOn(s, i))
  {
    hide Execute;
    var b := After(s, i);
    if b.pending.Some? {
      var order := b.pending.value;
      ExecuteReplays(SessionOf(s, i, order.reason), b.account, order.targets, order.band, b.rejections);
    }
  }

  /** Folding the trade list from the initial cash reproduces cash and positions after any session. */
  lemma {:induction false} TradesReplayTheRun(s: Setup, n: nat)
    requires s.Valid() && n <= |s.calendar|
    ensures After(s, n).account == Replay(Account(s.initialCash, map[]), After(s, n).trades)
  {
    hide Day, AtOpen, TradesOn;
    if n == 0 {
      assert After(s, 0) == Opening(s);
    } else {
      TradesReplayTheRun(s, n - 1);
      SessionEffects(s, n - 1);
      OpenReplays(s, n - 1);
      ReplayConcat(Account(s.initialCash, map[]), After(s, n - 1).trades, TradesOn(s, n - 1));
    }
  }

  /** What the held quantities gain when their marks move. */
  function Gain(positions: Positions, from: Symbol -> real, to: Symbol -> real): real {
    SumOver(positions.Keys, k => Quantity(positions, k) as real * (to(k) - from(k)))
  }

  lemma {:induction false} SumDifference(keys: set<Symbol>, f: Symbol -> real, g: Symbol -> real, h: Symbol -> real)
    requires forall k | k in keys :: h(k) == f(k) - g(k)
    ensures SumOver(keys, h) == SumOver(keys, f) - SumOver(keys, g)
  {
    if keys != {} {
      SumDifference(keys - {MinOf(keys)}, f, g, h);
    }
  }

  lemma GainIsRevaluation(positions: Positions, from: Symbol -> real, to: Symbol -> real)
    ensures Gain(positions, from, to) == Holdings(positions, to) - Holdings(positions, from)
  {
    var f, g := k => Marked(positions, to, k), k => Marked(positions, from, k);
    var h := k => Quantity(positions, k) as real * (to(k) - from(k));
    forall k | k in positions.Keys ensures h(k) == f(k) - g(k) {
      Spread(Quantity(positions, k) as real, to(k), from(k));
    }
    SumDifference(positions.Keys, f, g, h);
  }

  /** Session i: overnight on what was held, then from open to close on what is held after the trades. */
  function SessionGain(s: Setup, i: nat): real
    requires s.Valid() && i < |s.calendar|
  {
    var open, close := OpenMark(s.market, s.calendar[i]), CloseMark(s.market, s.calendar[i]);
    (if i == 0 then 0.0 else Gain(After(s, i).account.positions, CloseMark(s.market, s.calendar[i - 1]), open))
    + Gain(After(s, i + 1).account.positions, open, close)
  }

  function GainsUpTo(s: Setup, n: nat): real
    requires s.Valid() && n <= |s.calendar|
  {
    if n == 0 then 0.0 else GainsUpTo(s, n - 1) + SessionGain(s, n - 1)
  }

  lemma OpenConserves(s: Setup, i: nat)
    requires Sane(s) && i < |s.calendar| && AllPositive(After(s, i).account.positions)
    ensures var mark := OpenMark(s.market, s.calendar[i]);
            && Worth(AtOpen(s, After(s, i), i).account, mark) == Worth(After(s, i).account, mark) - CostOf(TradesOn(s, i))
            && AllPositive(AtOpen(s, After(s, i), i).account.positions)
  {
    hide Execute, Worth;
    var b := After(s, i);
    if b.pending.Some? {
      var order := b.pending.value;
      ExecuteConserves(SessionOf(s, i, order.reason), b.account, order.targets, order.band, b.rejections);
    }
  }

  /** Final equity is the initial cash, plus the gains on held quantities, minus every transaction cost. */
  lemma {:induction false} EquityIsAttributed(s: Setup, n: nat)
    requires Sane(s) && n <= |s.calendar|
    ensures After(s, n).previousEquity == s.initialCash + GainsUpTo(s, n) - CostOf(After(s, n).trades)
    ensures AllPositive(After(s, n).account.positions)
    ensures n > 0 ==> After(s, n).previousEquity == Worth(After(s, n).account, CloseMark(s.market, s.calendar[n - 1]))
  {
    if n > 0 {
      var i := n - 1;
      EquityIsAttributed(s, i);
      SessionEffects(s, i);
      OpenConserves(s, i);
      ReplayConcat(After(s, i).account, After(s, i).trades, TradesOn(s, i));
      var before, after := After(s, i).account, After(s, n).account;
      var open, close := OpenMark(s.market, s.calendar[i]), CloseMark(s.market, s.calendar[i]);
      GainIsRevaluation(after.positions, open, close);
      if i > 0 {
        GainIsRevaluation(before.positions, CloseMark(s.market, s.calendar[i - 1]), open);
      } else {
        assert before == Account(s.initialCash, map[]);
      }
    }
  }

  // ----- where trades come from

  /** Every trade of session i executes the target set of session i - 1, once, and carries session i's date. */
  lemma SessionTradesComeFromYesterday(s: Setup, i: nat)
    requires s.Valid() && i < |s.calendar| && TradesOn(s, i) != []
    ensures i > 0 && OrderSetOn(s, i - 1).Some?
    ensures var order := OrderSetOn(s, i - 1).value;
            && order.targets.Valid()
            && TradesOn(s, i) == Execute(SessionOf(s, i, order.reason), After(s, i).account, order.targets,
                                         order.band, After(s, i).rejections).trades
    ensures AllDated(TradesOn(s, i), s.calendar[i])
  {
    hide Execute, Day, DecisionOn, EquityOn, OrderFor;
    OpeningBook(s);
    SessionEffects(s, i - 1);
    var order := After(s, i).pending.value;
    ExecuteDates(SessionOf(s, i, order.reason), After(s, i).account, order.targets, order.band, After(s, i).rejections);
  }

  ghost predicate AllDated(trades: seq<Trade>, day: Date) {
    forall k | 0 <= k < |trades| :: trades[k].date == day
  }

  lemma SellOneDates(x: Session, target: map<Symbol, int>, desk: Desk, s: Symbol)
    requires AllDated(desk.trades, x.day)
    ensures AllDated(SellOne(x, target, desk, s).trades, x.day)
  {
    hide Commission, OrderRestriction, ApplyTrade;
  }

  lemma BuyOneDates(x: Session, target: map<Symbol, int>, desk: Desk, s: Symbol)
    requires AllDated(desk.trades, x.day)
    ensures AllDated(BuyOne(x, target, desk, s).trades, x.day)
  {
    hide Commission, OrderRestriction, ApplyTrade, Shrink;
  }

  lemma {:induction false} SellAllDates(x: Session, target: map<Symbol, int>, desk: Desk, symbols: seq<Symbol>)
    requires AllDated(desk.trades, x.day)
    ensures AllDated(SellAll(x, target, desk, symbols).trades, x.day)
  {
    hide SellOne, AllDated;
    if symbols != [] {
      var n := |symbols| - 1;
      SellAllDates(x, target, desk, symbols[..n]);
      SellOneDates(x, target, SellAll(x, target, desk, symbols[..n]), symbols[n]);
    }
  }

  lemma {:induction false} BuyAllDates(x: Session, target: map<Symbol, int>, desk: Desk, symbols: seq<Symbol>)
    requires AllDated(desk.trades, x.day)
    ensures AllDated(BuyAll(x, target, desk, symbols).trades, x.day)
  {
    hide BuyOne, AllDated;
    if symbols != [] {
      var n := |symbols| - 1;
      BuyAllDates(x, target, desk, symbols[..n]);
      BuyOneDates(x, target, BuyAll(x, target, desk, symbols[..n]), symbols[n]);
    }
  }

  lemma ExecuteDates(x: Session, a: Account, t: Targets, band: real, log: seq<Rejection>)
    requires t.Valid()
    ensures AllDated(Execute(x, a, t, band, log).trades, x.day)
  {
    hide SellOne, BuyOne, Plan, PlanRejections, ByWeight, Sorted;
    var target := Plan(x, a, t, band);
    SellAllDates(x, target, Desk(a, [], log + PlanRejections(x, t, t.order), false), Sorted(a.positions.Keys + target.Keys));
    BuyAllDates(x, target, AfterSells(x, a, t, band, log), ByWeight(t, t.order));
  }

  /** The trade is the one at that place of the list, made on session i, the session after its targets were set. */
  ghost predicate MadeOn(s: Setup, i: nat, at: nat, t: Trade)
    requires s.Valid() && i < |s.calendar|
  {
    && 0 < i && OrderSetOn(s, i - 1).Some? && t.date == s.calendar[i]
    && 0 <= at - |After(s, i).trades| < |TradesOn(s, i)|
    && t == TradesOn(s, i)[at - |After(s, i).trades|]
  }

  /** The trade at any place of the list was made on a session, from the targets of the session before. */
  lemma {:induction false} EveryTradeHasItsSession(s: Setup, n: nat, at: nat)
    requires s.Valid() && n <= |s.calendar| && at < |After(s, n).trades|
    ensures exists i: nat :: i < n && MadeOn(s, i, at, After(s, n).trades[at])
  {
    hide TradesOn, OrderSetOn, After, MadeOn;
    NoTradesAtFirst(s);
    var i := n - 1;
    TradesGrow(s, i);
    if at < |After(s, i).trades| {
      EveryTradeHasItsSession(s, i, at);
      assert After(s, n).trades[at] == After(s, i).trades[at];
    } else {
      NewTradeIsMade(s, i, at);
    }
  }

  lemma NoTradesAtFirst(s: Setup)
    requires s.Valid()
    ensures After(s, 0).trades == []
  {
  }

  lemma TradesGrow(s: Setup, i: nat)
    requires s.Valid() && i < |s.calendar|
    ensures After(s, i + 1).trades == After(s, i).trades + TradesOn(s, i)
  {
    hide TradesOn, OrderSetOn, After;
    SessionEffects(s, i);
  }

  lemma TradesNeedAnOrder(s: Setup, i: nat)
    requires s.Valid() && i < |s.calendar| && TradesOn(s, i) != []
    ensures i > 0 && OrderSetOn(s, i - 1).Some? && AllDated(TradesOn(s, i), s.calendar[i])
  {
    hide TradesOn, OrderSetOn, After, Execute, AllDated;
    SessionTradesComeFromYesterday(s, i);
  }

  lemma NewTradeIsMade(s: Setup, i: nat, at: nat)
    requires s.Valid() && i < |s.calendar| && |After(s, i).trades| <= at < |After(s, i + 1).trades|
    ensures MadeOn(s, i, at, After(s, i + 1).trades[at])
  {
    hide TradesOn, OrderSetOn, After;
    TradesGrow(s, i);
    TradesNeedAnOrder(s, i);
  }

  /** ... and on no other session. */
  lemma MadeOnce(s: Setup, i: nat, j: nat, at: nat, t: Trade)
    requires s.Valid() && i < |s.calendar| && j < |s.calendar| && MadeOn(s, i, at, t) && MadeOn(s, j, at, t)
    ensures i == j
  {
    hide AtOpen, TradesOn, OrderSetOn, Day, After;
  }

  /**
   No target set is executed twice and none is skipped: what a session does at the open is to execute exactly
   the order of the session before, and nothing when that session set none.
   */
  lemma EachOrderIsExecutedOnce(s: Setup, j: nat)
    requires s.Valid() && j < |s.calendar|
    ensures j > 0 && OrderSetOn(s, j - 1).Some? ==> OrderSetOn(s, j - 1).value.targets.Valid()
    ensures AtOpen(s, After(s, j), j) ==
      if j > 0 && OrderSetOn(s, j - 1).Some? then
        var order := OrderSetOn(s, j - 1).value;
        Execute(SessionOf(s, j, order.reason), After(s, j).account, order.targets, order.band, After(s, j).rejections)
      else Desk(After(s, j).account, [], After(s, j).rejections, false)
  {
    hide Execute, OrderSetOn, Day;
    if j > 0 {
      SessionEffects(s, j - 1);
    } else {
      OpeningBook(s);
    }
  }

  // ----- the signal after the loop

  /**
   The signal that is generated once more after the loop is the last session's order when that session
   signalled.  Otherwise nothing of it is pending: a stop or a cooldown day leaves the empty target set,
   an idle day leaves none.
   */
  lemma LatestSignalIsForDisplay(s: Setup)
    requires s.Valid() && 0 < |s.calendar|
    ensures var last := |s.calendar| - 1;
            OrderSetOn(s, last) == match DecisionOn(s, last)
              case RiskStop => Some(Order(NoTargets, "Portfolio risk stop", 0.0))
              case Cooling => Some(Order(NoTargets, "Risk cooldown", 0.0))
              case NewSignal => Some(Order(LatestSignal(s).targets, LatestSignal(s).reason,
                                           After(s, |s.calendar|).active.minimumRebalanceWeight))
              case Idle => None
  {
    hide Execute, Worth, Decide;
  }

  // ----- the risk stop

  lemma {:induction false} CooldownInRange(s: Setup, n: nat)
    requires s.Valid() && n <= |s.calendar|
    ensures 0 <= After(s, n).cooldown <= s.risk.cooldownDays
  {
    hide Execute, Worth, RiskTriggered, SignalDue;
    if n > 0 {
      CooldownInRange(s, n - 1);
    }
  }

  lemma CooldownStep(s: Setup, i: nat)
    requires s.Valid() && i < |s.calendar|
    ensures var b := After(s, i);
            After(s, i + 1).cooldown == match DecisionOn(s, i)
              case RiskStop => s.risk.cooldownDays
              case Cooling => b.cooldown - 1
              case NewSignal => b.cooldown
              case Idle => b.cooldown
    ensures After(s, i).cooldown > 0 ==> DecisionOn(s, i).RiskStop? || DecisionOn(s, i).Cooling?
  {
    hide Execute, Worth, RiskTriggered, SignalDue;
  }

  /** The countdown after a stop: a new stop can only lengthen it. */
  lemma {:induction false} CountdownHolds(s: Setup, i: nat, j: nat)
    requires s.Valid() && i <= j < |s.calendar| && DecisionOn(s, i).RiskStop?
    requires j <= i + s.risk.cooldownDays
    ensures After(s, j + 1).cooldown >= s.risk.cooldownDays - (j - i)
    ensures DecisionOn(s, j).RiskStop? || DecisionOn(s, j).Cooling?
  {
    hide After, DecisionOn;
    if j > i {
      CountdownHolds(s, i, j - 1);
    }
    CooldownInRange(s, j);
    CooldownStep(s, j);
  }

  /** After a stop on session i with cooldown c: no signal on i+1..i+c, no purchase on i+1..i+c+1. */
  lemma RiskStopIsSafe(s: Setup, i: nat, j: nat)
    requires s.Valid() && i < j < |s.calendar| && DecisionOn(s, i).RiskStop?
    ensures j <= i + s.risk.cooldownDays ==> !DecisionOn(s, j).NewSignal?
    ensures j <= i + s.risk.cooldownDays + 1 ==> AllOn(TradesOn(s, j), Sell)
  {
    hide Execute, Worth, RiskTriggered, SignalDue;
    if j <= i + s.risk.cooldownDays {
      CountdownHolds(s, i, j);
    }
    if j <= i + s.risk.cooldownDays + 1 {
      CountdownHolds(s, i, j - 1);
      SessionEffects(s, j - 1);
      var b := After(s, j);
      assert b.pending.value.targets == NoTargets;
      NoTargetsNoBuys(SessionOf(s, j, b.pending.value.reason), b.account, b.pending.value.band, b.rejections);
    }
  }

  // ----- the high-water mark

  /** The cooldown ended on session i: the mark restarts from that day's equity. */
  predicate ResetOn(s: Setup, i: nat)
    requires s.Valid() && i < |s.calendar|
  {
    DecisionOn(s, i).Cooling? && After(s, i).cooldown == 1
  }

  /** The session the current mark counts from: 0, or the last session a cooldown ended. */
  function MarkStart(s: Setup, n: nat): (start: nat)
    requires s.Valid() && n <= |s.calendar|
    ensures start <= n
  {
    if n == 0 then 0 else if ResetOn(s, n - 1) then n - 1 else MarkStart(s, n - 1)
  }

  lemma HighWaterStep(s: Setup, i: nat)
    requires s.Valid() && i < |s.calendar|
    ensures After(s, i + 1).highWater
         == if ResetOn(s, i) then EquityOn(s, i) else Max(After(s, i).highWater, EquityOn(s, i))
  {
    hide Execute, Worth, RiskTriggered, SignalDue, Max;
  }

  lemma NoResetOnFirstSession(s: Setup)
    requires s.Valid() && 0 < |s.calendar|
    ensures !ResetOn(s, 0)
  {
    hide Execute, Worth, RiskTriggered, SignalDue, Max;
    assert After(s, 0).cooldown == 0;
  }

  /** The mark is the maximum of the equities since its start (and of the initial cash before any reset). */
  lemma {:induction false} HighWaterIsTheMaximum(s: Setup, n: nat)
    requires s.Valid() && n <= |s.calendar|
    ensures forall i | MarkStart(s, n) <= i < n :: EquityOn(s, i) <= After(s, n).highWater
    ensures MarkStart(s, n) == 0 ==> s.initialCash <= After(s, n).highWater
    ensures || (MarkStart(s, n) == 0 && After(s, n).highWater == s.initialCash)
            || exists i :: MarkStart(s, n) <= i < n && EquityOn(s, i) == After(s, n).highWater
  {
    hide EquityOn, After, ResetOn;
    if n == 0 {
      OpeningBook(s);
    } else {
      HighWaterIsTheMaximum(s, n - 1);
      HighWaterStep(s, n - 1);
      if ResetOn(s, n - 1) && n == 1 {
        NoResetOnFirstSession(s);
      }
      if After(s, n).highWater == EquityOn(s, n - 1) {
        assert MarkStart(s, n) <= n - 1;
      }
    }
  }
}
