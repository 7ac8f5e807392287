/**
 When a session of the backtest stops, cools down, signals or idles, told from the equity curve, the earlier
 decisions and the settings schedule alone, over every run.
 */
module SessionLaws {
  import opened Common
  import opened Execution
  import opened Backtest
  import opened BacktestLaws

  // ----- the countdown

  ghost predicate StopsOn(s: Setup, i: nat)
    requires s.Valid() && i < |s.calendar|
  {
    DecisionOn(s, i).RiskStop?
  }

  /** A stop within the last `cooldownDays` sessions. */
  ghost predicate CoolsDown(s: Setup, j: nat)
    requires s.Valid() && j <= |s.calendar|
  {
    exists i: nat :: i < j <= i + s.risk.cooldownDays && StopsOn(s, i)
  }

  /** The countdown is what is left of the time since the newest stop. */
  lemma {:induction false} CountdownExactly(s: Setup, j: nat)
    requires s.Valid() && j <= |s.calendar|
    ensures forall i: nat | i < j && StopsOn(s, i) :: After(s, j).cooldown >= s.risk.cooldownDays - (j - 1 - i)
    ensures After(s, j).cooldown > 0 ==>
      exists i: nat :: i < j && StopsOn(s, i) && After(s, j).cooldown == s.risk.cooldownDays - (j - 1 - i)
    ensures After(s, j).cooldown >= 0
  {
    hide After, DecisionOn;
    CooldownInRange(s, j);
    if j == 0 {
      OpeningBook(s);
    } else {
      CountdownExactly(s, j - 1);
      CooldownStep(s, j - 1);
      CooldownInRange(s, j - 1);
      if After(s, j).cooldown > 0 {
        if StopsOn(s, j - 1) {
          assert After(s, j).cooldown == s.risk.cooldownDays - (j - 1 - (j - 1));
        } else {
          var i: nat :| i < j - 1 && StopsOn(s, i) && After(s, j - 1).cooldown == s.risk.cooldownDays - (j - 2 - i);
          assert After(s, j).cooldown == s.risk.cooldownDays - (j - 1 - i);
        }
      }
    }
  }

  lemma CoolingIsRecentStop(s: Setup, j: nat)
    requires s.Valid() && j <= |s.calendar|
    ensures After(s, j).cooldown > 0 <==> CoolsDown(s, j)
  {
    hide After, DecisionOn;
    CountdownExactly(s, j);
  }

  /** The mark restarts on session j: the countdown of the newest stop ends. */
  ghost predicate MarkRestarts(s: Setup, j: nat)
    requires s.Valid() && j < |s.calendar|
  {
    exists i: nat :: i < j == i + s.risk.cooldownDays && StopsOn(s, i) && forall k | i < k <= j :: !StopsOn(s, k)
  }

  /** The high-water mark restarts exactly `cooldownDays` sessions after a stop that no other stop followed. */
  lemma ResetExactly(s: Setup, j: nat)
    requires s.Valid() && j < |s.calendar|
    ensures ResetOn(s, j) <==> MarkRestarts(s, j)
  {
    hide After, DecisionOn;
    CountdownExactly(s, j);
    CooldownStep(s, j);
    CooldownIsCooling(s, j);
    if ResetOn(s, j) {
      var i: nat :| i < j && StopsOn(s, i) && After(s, j).cooldown == s.risk.cooldownDays - (j - 1 - i);
      assert j == i + s.risk.cooldownDays;
    }
    if i: nat :| i < j == i + s.risk.cooldownDays && StopsOn(s, i) && forall k | i < k <= j :: !StopsOn(s, k) {
      assert After(s, j).cooldown >= 1;
      var k: nat :| k < j && StopsOn(s, k) && After(s, j).cooldown == s.risk.cooldownDays - (j - 1 - k);
      assert k <= i;
    }
  }

  lemma CooldownIsCooling(s: Setup, j: nat)
    requires s.Valid() && j < |s.calendar|
    ensures DecisionOn(s, j).Cooling? <==> !StopsOn(s, j) && After(s, j).cooldown > 0
  {
    hide Execute, Worth, RiskTriggered, SignalDue, After;
  }

  // ----- the stop

  /** No restart strictly between the sessions. */
  ghost predicate NoRestart(s: Setup, from: int, to: nat)
    requires s.Valid() && to <= |s.calendar|
  {
    forall j: nat | from < j < to :: !MarkRestarts(s, j)
  }

  /** The largest equity since the mark last restarted; before the first restart the initial cash counts too. */
  ghost predicate IsMark(s: Setup, n: nat, mark: real)
    requires s.Valid() && n <= |s.calendar|
  {
    && (forall k: nat | k < n && NoRestart(s, k, n) :: EquityOn(s, k) <= mark)
    && (NoRestart(s, -1, n) ==> s.initialCash <= mark)
    && ((NoRestart(s, -1, n) && mark == s.initialCash) || exists k: nat :: k < n && NoRestart(s, k, n) && EquityOn(s, k) == mark)
  }

  lemma RestartSplits(s: Setup, from: int, n: nat)
    requires s.Valid() && n < |s.calendar| && from < n
    ensures NoRestart(s, from, n + 1) <==> NoRestart(s, from, n) && !MarkRestarts(s, n)
    ensures NoRestart(s, n, n + 1)
  {
    hide MarkRestarts;
  }

  lemma {:induction false} HighWaterIsMark(s: Setup, n: nat)
    requires s.Valid() && n <= |s.calendar|
    ensures IsMark(s, n, After(s, n).highWater)
  {
    hide After, EquityOn, MarkRestarts, NoRestart;
    if n == 0 {
      OpeningBook(s);
      assert NoRestart(s, -1, 0) by {
        NoneBeforeTheFirst(s);
      }
    } else {
      HighWaterIsMark(s, n - 1);
      HighWaterStep(s, n - 1);
      ResetExactly(s, n - 1);
      MarkGoesOn(s, n - 1, After(s, n - 1).highWater, After(s, n).highWater);
    }
  }

  lemma NoneBeforeTheFirst(s: Setup)
    requires s.Valid()
    ensures NoRestart(s, -1, 0)
  {
  }

  lemma MarkGoesOn(s: Setup, n: nat, mark: real, next: real)
    requires s.Valid() && n < |s.calendar| && IsMark(s, n, mark)
    requires next == if MarkRestarts(s, n) then EquityOn(s, n) else Max(mark, EquityOn(s, n))
    ensures IsMark(s, n + 1, next)
  {
    hide EquityOn, MarkRestarts, NoRestart;
    RestartSplits(s, -1, n);
    forall k: nat | k < n ensures NoRestart(s, k, n + 1) <==> NoRestart(s, k, n) && !MarkRestarts(s, n) {
      RestartSplits(s, k, n);
    }
    assert NoRestart(s, n, n + 1) by {
      RestartSplits(s, n - 1, n);
    }
    forall k: nat | k < n + 1 && NoRestart(s, k, n + 1) ensures EquityOn(s, k) <= next {
      if k < n {
        assert NoRestart(s, k, n);
      }
    }
    if next == EquityOn(s, n) {
      assert exists k: nat :: k < n + 1 && NoRestart(s, k, n + 1) && EquityOn(s, k) == next;
    } else if !NoRestart(s, -1, n) || mark != s.initialCash {
      var k: nat :| k < n && NoRestart(s, k, n) && EquityOn(s, k) == mark;
      assert k < n + 1 && NoRestart(s, k, n + 1);
    }
  }

  /** A fall from a reference value to at most `1 - limit` of it; without a positive reference the fall is nothing. */
  predicate FallsBy(now: real, from: real, limit: real) {
    if from > 0.0 then now <= (1.0 - limit) * from else limit <= 0.0
  }

  lemma DrawdownFalls(now: real, from: real, limit: real)
    ensures Drawdown(now, from) <= -limit <==> FallsBy(now, from, limit)
    ensures DailyReturn(now, from) <= -limit <==> FallsBy(now, from, limit)
  {
    if from > 0.0 {
      var ratio := now / from;
      assert ratio * from == now;
      ProductSign(1.0 - limit - ratio, from);
      assert (1.0 - limit - ratio) * from == (1.0 - limit) * from - now;
    }
  }

  lemma ProductSign(a: real, b: real)
    requires b > 0.0
    ensures a * b >= 0.0 <==> a >= 0.0
  {
  }

  function PreviousEquity(s: Setup, i: nat): real
    requires s.Valid() && i < |s.calendar|
  {
    if i == 0 then s.initialCash else EquityOn(s, i - 1)
  }

  lemma PreviousIsPrevious(s: Setup, i: nat)
    requires s.Valid() && i < |s.calendar|
    ensures After(s, i).previousEquity == PreviousEquity(s, i)
  {
    hide After, EquityOn;
    if i == 0 {
      OpeningBook(s);
    } else {
      SessionEffects(s, i - 1);
    }
  }

  lemma StopIsTriggered(s: Setup, i: nat)
    requires s.Valid() && i < |s.calendar|
    ensures var b, equity := After(s, i), EquityOn(s, i);
            StopsOn(s, i) <==>
              After(s, i + 1).account.positions != map[]
              && (Drawdown(equity, Max(b.highWater, equity)) <= -s.risk.maxPortfolioDrawdown
                  || DailyReturn(equity, b.previousEquity) <= -s.risk.maxDailyLoss)
  {
    hide Execute, Worth, SignalDue, Drawdown, DailyReturn, Max;
    SessionEffects(s, i);
    var held := After(s, i + 1).account.positions;
    assert held.Keys == {} <==> held == map[];
  }

  /**
   A session stops exactly when something is held after its open and its closing equity has fallen by the
   drawdown limit from the mark, today included, or by the daily limit from the session before.
   */
  lemma StopsExactly(s: Setup, i: nat, before: real)
    requires s.Valid() && i < |s.calendar| && IsMark(s, i, before)
    ensures var equity := EquityOn(s, i);
            StopsOn(s, i) <==>
              After(s, i + 1).account.positions != map[]
              && (FallsBy(equity, if before >= equity then before else equity, s.risk.maxPortfolioDrawdown)
                  || FallsBy(equity, PreviousEquity(s, i), s.risk.maxDailyLoss))
  {
    hide StopsOn, EquityOn, After, Drawdown, DailyReturn, FallsBy, IsMark;
    HighWaterIsMark(s, i);
    MarksAgree(s, i, before, After(s, i).highWater);
    StopIsTriggered(s, i);
    PreviousIsPrevious(s, i);
    DrawdownFalls(EquityOn(s, i), Max(before, EquityOn(s, i)), s.risk.maxPortfolioDrawdown);
    DrawdownFalls(EquityOn(s, i), PreviousEquity(s, i), s.risk.maxDailyLoss);
  }

  lemma MarksAgree(s: Setup, n: nat, a: real, b: real)
    requires s.Valid() && n <= |s.calendar| && IsMark(s, n, a) && IsMark(s, n, b)
    ensures a == b
  {
    hide EquityOn, NoRestart;
  }

  // ----- the signal

  /** The settings in force: those of the latest scheduled session up to today, else the ones of the run. */
  ghost predicate InForce(s: Setup, n: nat, settings: Settings)
    requires s.Valid() && n <= |s.calendar|
  {
    || (settings == s.settings && forall k: nat | k < n :: s.calendar[k] !in s.schedule)
    || exists k: nat :: k < n && s.calendar[k] in s.schedule && settings == s.schedule[s.calendar[k]]
                        && forall j: nat | k < j < n :: s.calendar[j] !in s.schedule
  }

  lemma ActiveStep(s: Setup, i: nat)
    requires s.Valid() && i < |s.calendar|
    ensures After(s, i + 1).active == if s.calendar[i] in s.schedule then s.schedule[s.calendar[i]] else After(s, i).active
    ensures After(s, i + 1).lastSignal == if DecisionOn(s, i).NewSignal? then Some(i) else After(s, i).lastSignal
  {
    hide Execute, Worth, RiskTriggered, SignalDue;
  }

  lemma {:induction false} ActiveIsInForce(s: Setup, n: nat)
    requires s.Valid() && n <= |s.calendar|
    ensures InForce(s, n, After(s, n).active)
  {
    hide After;
    if n == 0 {
      OpeningBook(s);
    } else {
      ActiveIsInForce(s, n - 1);
      ActiveStep(s, n - 1);
    }
  }

  ghost predicate SignalsOn(s: Setup, i: nat)
    requires s.Valid() && i < |s.calendar|
  {
    DecisionOn(s, i).NewSignal?
  }

  lemma {:induction false} LastSignalIsNewest(s: Setup, n: nat)
    requires s.Valid() && n <= |s.calendar|
    ensures forall k: nat | k < n && SignalsOn(s, k) :: After(s, n).lastSignal.Some? && k <= After(s, n).lastSignal.value
    ensures After(s, n).lastSignal.Some? ==> After(s, n).lastSignal.value < n && SignalsOn(s, After(s, n).lastSignal.value)
  {
    hide After, DecisionOn;
    if n == 0 {
      OpeningBook(s);
    } else {
      LastSignalIsNewest(s, n - 1);
      ActiveStep(s, n - 1);
    }
  }

  lemma SignalIsDue(s: Setup, i: nat)
    requires s.Valid() && i < |s.calendar|
    ensures var b := After(s, i);
            SignalsOn(s, i) <==>
              !StopsOn(s, i) && b.cooldown <= 0
              && (s.calendar[i] in s.schedule || b.lastSignal.None? || i - b.lastSignal.value >= After(s, i + 1).active.rebalanceDays)
  {
    hide Execute, Worth, RiskTriggered;
  }

  /**
   A session signals exactly when it does not stop, no stop lies within the countdown, and either its day
   changes the settings or every earlier signal is at least `rebalanceDays` sessions back.
   */
  lemma SignalsExactly(s: Setup, i: nat, settings: Settings)
    requires s.Valid() && i < |s.calendar| && InForce(s, i + 1, settings)
    ensures SignalsOn(s, i) <==>
              !StopsOn(s, i) && !CoolsDown(s, i)
              && (s.calendar[i] in s.schedule || forall k: nat | k < i && SignalsOn(s, k) :: i - k >= settings.rebalanceDays)
  {
    hide After, DecisionOn, StopsOn, SignalsOn, CoolsDown;
    SignalIsDue(s, i);
    CoolingIsRecentStop(s, i);
    LastSignalIsNewest(s, i);
    ActiveIsInForce(s, i + 1);
    OneInForce(s, i + 1, settings, After(s, i + 1).active);
  }

  lemma OneInForce(s: Setup, n: nat, a: Settings, b: Settings)
    requires s.Valid() && n <= |s.calendar| && InForce(s, n, a) && InForce(s, n, b)
    ensures a == b
  {
  }

  // ----- what a session leaves

  /** The order a session leaves for the next open, by what it decided. */
  lemma OrdersExactly(s: Setup, i: nat, settings: Settings)
    requires s.Valid() && i < |s.calendar| && InForce(s, i + 1, settings)
    ensures var signal := s.generate(settings, s.calendar[i], EquityOn(s, i));
            OrderSetOn(s, i) == if StopsOn(s, i) then Some(Order(NoTargets, "Portfolio risk stop", 0.0))
                                else if CoolsDown(s, i) then Some(Order(NoTargets, "Risk cooldown", 0.0))
                                else if SignalsOn(s, i) then Some(Order(signal.targets, signal.reason, settings.minimumRebalanceWeight))
                                else None
  {
    hide After, Decide, EquityOn, CoolsDown;
    CoolingIsRecentStop(s, i);
    CooldownIsCooling(s, i);
    ActiveIsInForce(s, i + 1);
    OneInForce(s, i + 1, settings, After(s, i + 1).active);
    ActiveStep(s, i);
  }

  /** One point per session: its day, its closing equity, its cash, and how far the equity lies below the mark. */
  ghost predicate PointOn(s: Setup, i: nat, point: EquityPoint)
    requires s.Valid() && i < |s.calendar|
  {
    && point.date == s.calendar[i] && point.equity == EquityOn(s, i) && point.cash == After(s, i + 1).account.cash
    && forall mark | IsMark(s, i, mark) ::
         var top := if mark >= point.equity then mark else point.equity;
         if top > 0.0 then top + top * point.drawdown == point.equity else point.drawdown == 0.0
  }

  lemma NewPoint(s: Setup, i: nat)
    requires s.Valid() && i < |s.calendar|
    ensures exists point :: After(s, i + 1).curve == After(s, i).curve + [point] && PointOn(s, i, point)
  {
    hide Execute, Worth, Decide, IsMark, OrderFor, StopsOn, MarkRestarts;
    var equity := EquityOn(s, i);
    var b := After(s, i);
    var point := EquityPoint(s.calendar[i], equity, AtOpen(s, b, i).account.cash, Drawdown(equity, Max(b.highWater, equity)));
    assert After(s, i + 1).curve == b.curve + [point];
    HighWaterIsMark(s, i);
    forall mark | IsMark(s, i, mark) ensures mark == b.highWater {
      MarksAgree(s, i, mark, b.highWater);
    }
    DrawdownTimesPeak(equity, Max(b.highWater, equity));
    SessionEffects(s, i);
    assert PointOn(s, i, point);
  }

  lemma DrawdownTimesPeak(equity: real, peak: real)
    ensures if peak > 0.0 then peak + peak * Drawdown(equity, peak) == equity else Drawdown(equity, peak) == 0.0
  {
    if peak > 0.0 {
      var ratio := equity / peak;
      assert peak * (ratio - 1.0) == equity - peak;
    }
  }

  lemma {:induction false} CurveExactly(s: Setup, n: nat)
    requires s.Valid() && n <= |s.calendar|
    ensures |After(s, n).curve| == n && forall i: nat | i < n :: PointOn(s, i, After(s, n).curve[i])
  {
    hide After, PointOn;
    if n == 0 {
      OpeningBook(s);
    } else {
      CurveExactly(s, n - 1);
      NewPoint(s, n - 1);
    }
  }
}
