/** The trading guard: running totals of trade results, three limits, and a kill switch that
    latches; and the reconciliation run that throws it.
  */
module TradingGuards {
  import opened Common
  import opened MapSums
  import opened Reconciliations
  import L = PortfolioLedgers

  datatype Risk = Risk(
    initialCapital: real,
    dailyLossLimit: real,
    maxDrawdown: real,
    consecutiveLossLimit: int,
    maxOrderAmount: real)

  datatype Block = KillSwitch | Environment | DailyLoss | Drawdown | ConsecutiveLosses | OrderAmount

  datatype Verdict = Allowed | Refused(block: Block)

  datatype Guard = Guard(
    killSwitch: bool,
    dailyPnl: real,
    dailyOrders: int,
    losses: int,
    drawdown: real,
    peak: real,
    value: real)

  function Initial(risk: Risk): Guard {
    Guard(false, 0.0, 0, 0, 0.0, risk.initialCapital, risk.initialCapital)
  }

  function Recorded(g: Guard, pnl: real, value: real): Guard {
    g.(dailyPnl := g.dailyPnl + pnl,
       dailyOrders := g.dailyOrders + 1,
       value := value,
       peak := if value > g.peak then value else g.peak,
       losses := if pnl < 0.0 then g.losses + 1 else 0)
  }

  function DayReset(g: Guard): Guard {
    g.(dailyPnl := 0.0, dailyOrders := 0)
  }

  function WithDrawdown(g: Guard): Guard {
    if g.peak > 0.0 then g.(drawdown := (g.peak - g.value) / g.peak) else g
  }

  /** The checks in their order; the first limit found broken throws the switch. */
  function AllChecks(risk: Risk, environmentOk: bool, g: Guard): (Verdict, Guard) {
    if !environmentOk then (Refused(Environment), g)
    else if g.dailyPnl <= -risk.dailyLossLimit then (Refused(DailyLoss), g.(killSwitch := true))
    else
      var seen := WithDrawdown(g);
      if g.peak > 0.0 && seen.drawdown >= risk.maxDrawdown then (Refused(Drawdown), seen.(killSwitch := true))
      else if g.losses >= risk.consecutiveLossLimit then (Refused(ConsecutiveLosses), seen.(killSwitch := true))
      else (Allowed, seen)
  }

  function PreOrder(risk: Risk, environmentOk: bool, g: Guard, order: Order): (Verdict, Guard) {
    if g.killSwitch then (Refused(KillSwitch), g)
    else
      var (verdict, after) := AllChecks(risk, environmentOk, g);
      if verdict.Refused? then (verdict, after)
      else if TooLarge(risk, order) then (Refused(OrderAmount), after)
      else (Allowed, after)
  }

  datatype Order = Order(buy: bool, quantity: int, limitPrice: Option<real>)

  predicate TooLarge(risk: Risk, order: Order) {
    order.buy && order.limitPrice.Some? && order.limitPrice.value > 0.0
    && order.limitPrice.value * order.quantity as real > risk.maxOrderAmount
  }

  class TradingGuard {
    const risk: Risk
    const environmentOk: bool
    var killSwitchOn: bool
    var dailyRealizedPnl: real
    var dailyOrderCount: int
    var consecutiveLosses: int
    var currentDrawdown: real
    var peakPortfolioValue: real
    var currentPortfolioValue: real

    constructor (risk: Risk, environmentOk: bool)
      ensures this.risk == risk && this.environmentOk == environmentOk && Value() == Initial(risk)
    {
      this.risk, this.environmentOk := risk, environmentOk;
      killSwitchOn, dailyRealizedPnl, dailyOrderCount, consecutiveLosses := false, 0.0, 0, 0;
      currentDrawdown, peakPortfolioValue, currentPortfolioValue := 0.0, risk.initialCapital, risk.initialCapital;
    }

    function Value(): Guard
      reads this
    {
      Guard(killSwitchOn, dailyRealizedPnl, dailyOrderCount, consecutiveLosses,
            currentDrawdown, peakPortfolioValue, currentPortfolioValue)
    }

    method RecordTradeResult(pnl: real, portfolioValue: real)
      modifies this
      ensures Value() == Recorded(old(Value()), pnl, portfolioValue)
    {
      dailyRealizedPnl := dailyRealizedPnl + pnl;
      dailyOrderCount := dailyOrderCount + 1;
      currentPortfolioValue := portfolioValue;
      if portfolioValue > peakPortfolioValue {
        peakPortfolioValue := portfolioValue;
      }
      if pnl < 0.0 {
        consecutiveLosses := consecutiveLosses + 1;
      } else {
        consecutiveLosses := 0;
      }
    }

    method ResetDailyState()
      modifies this
      ensures Value() == DayReset(old(Value()))
    {
      dailyRealizedPnl := 0.0;
      dailyOrderCount := 0;
    }

    method ActivateKillSwitch()
      modifies this
      ensures Value() == old(Value()).(killSwitch := true)
    {
      killSwitchOn := true;
    }

    method DeactivateKillSwitch()
      modifies this
      ensures Value() == old(Value()).(killSwitch := false)
    {
      killSwitchOn := false;
    }

    method CheckDailyLossLimit() returns (verdict: Verdict)
      modifies this
      ensures verdict == if old(dailyRealizedPnl) <= -risk.dailyLossLimit then Refused(DailyLoss) else Allowed
      ensures Value() == old(Value()).(killSwitch := old(killSwitchOn) || verdict.Refused?)
    {
      if dailyRealizedPnl <= -risk.dailyLossLimit {
        ActivateKillSwitch();
        return Refused(DailyLoss);
      }
      return Allowed;
    }

    method CheckMaxDrawdown() returns (verdict: Verdict)
      modifies this
      ensures var seen := WithDrawdown(old(Value()));
              && verdict == (if seen.peak > 0.0 && seen.drawdown >= risk.maxDrawdown then Refused(Drawdown) else Allowed)
              && Value() == seen.(killSwitch := seen.killSwitch || verdict.Refused?)
    {
      if peakPortfolioValue > 0.0 {
        var dd := (peakPortfolioValue - currentPortfolioValue) / peakPortfolioValue;
        currentDrawdown := dd;
        if dd >= risk.maxDrawdown {
          ActivateKillSwitch();
          return Refused(Drawdown);
        }
      }
      return Allowed;
    }

    method CheckConsecutiveLosses() returns (verdict: Verdict)
      modifies this
      ensures verdict == if old(consecutiveLosses) >= risk.consecutiveLossLimit then Refused(ConsecutiveLosses) else Allowed
      ensures Value() == old(Value()).(killSwitch := old(killSwitchOn) || verdict.Refused?)
    {
      if consecutiveLosses >= risk.consecutiveLossLimit {
        ActivateKillSwitch();
        return Refused(ConsecutiveLosses);
      }
      return Allowed;
    }

    method RunAllChecks() returns (verdict: Verdict)
      modifies this
      ensures var (v, after) := AllChecks(risk, environmentOk, old(Value())); verdict == v && Value() == after
    {
      if !environmentOk {
        return Refused(Environment);
      }
      verdict := CheckDailyLossLimit();
      if verdict.Refused? {
        return;
      }
      verdict := CheckMaxDrawdown();
      if verdict.Refused? {
        return;
      }
      verdict := CheckConsecutiveLosses();
    }

    method CheckPreOrder(order: Order) returns (verdict: Verdict)
      modifies this
      ensures var (v, after) := PreOrder(risk, environmentOk, old(Value()), order); verdict == v && Value() == after
    {
      if killSwitchOn {
        return Refused(KillSwitch);
      }
      verdict := RunAllChecks();
      if verdict.Refused? {
        return;
      }
      if order.buy && order.limitPrice.Some? && order.limitPrice.value > 0.0 {
        var amount := order.limitPrice.value * order.quantity as real;
        if amount > risk.maxOrderAmount {
          return Refused(OrderAmount);
        }
      }
      return Allowed;
    }
  }

  /** Reconciling once: a provider that fails is passed on; more mismatches than the
      threshold throw the guard's switch. */
  class ReconciliationRunner {
    const engine: ReconciliationEngine
    const guard: TradingGuard
    const mismatchThreshold: nat

    constructor (engine: ReconciliationEngine, guard: TradingGuard, mismatchThreshold: nat)
      ensures this.engine == engine && this.guard == guard && this.mismatchThreshold == mismatchThreshold
    {
      this.engine, this.guard, this.mismatchThreshold := engine, guard, mismatchThreshold;
    }

    method Run(broker: Option<PositionMap>, internal: Option<PositionMap>) returns (r: Option<Report>)
      modifies engine, guard
      ensures r.Some? <==> broker.Some? && internal.Some?
      ensures r.None? ==> guard.Value() == old(guard.Value()) && engine.lastResult == old(engine.lastResult)
      ensures r.Some? ==> IsReport(broker.value, internal.value, r.value) && engine.lastResult == r
      ensures r.Some? ==> guard.Value() == Reconciled(old(guard.Value()), r.value, mismatchThreshold)
    {
      if broker.None? || internal.None? {
        return None;
      }
      var report := engine.Reconcile(broker.value, internal.value);
      if report.matched {
        return Some(report);
      }
      if |report.mismatches| > mismatchThreshold {
        guard.ActivateKillSwitch();
      }
      return Some(report);
    }
  }

  function Reconciled(g: Guard, r: Report, threshold: nat): Guard {
    if !r.matched && |r.mismatches| > threshold then g.(killSwitch := true) else g
  }

  // ---- Runs of guard operations ----

  datatype Op =
    | Trade(pnl: real, value: real)
    | ResetDay
    | PreOrderCheck(order: Order)
    | AllChecksRun
    | Activate
    | Deactivate

  function Step(risk: Risk, environmentOk: bool, g: Guard, op: Op): Guard {
    match op
    case Trade(pnl, value) => Recorded(g, pnl, value)
    case ResetDay => DayReset(g)
    case PreOrderCheck(order) => PreOrder(risk, environmentOk, g, order).1
    case AllChecksRun => AllChecks(risk, environmentOk, g).1
    case Activate => g.(killSwitch := true)
    case Deactivate => g.(killSwitch := false)
  }

  function After(risk: Risk, environmentOk: bool, g: Guard, ops: seq<Op>): Guard {
    if ops == [] then g
    else Step(risk, environmentOk, After(risk, environmentOk, g, ops[..|ops| - 1]), ops[|ops| - 1])
  }

  // ---- The running totals as folds over the trades ----

  function PnlSinceReset(ops: seq<Op>): real {
    if ops == [] || ops[|ops| - 1].ResetDay? then 0.0
    else PnlSinceReset(ops[..|ops| - 1]) + (if ops[|ops| - 1].Trade? then ops[|ops| - 1].pnl else 0.0)
  }

  function TradesSinceReset(ops: seq<Op>): int {
    if ops == [] || ops[|ops| - 1].ResetDay? then 0
    else TradesSinceReset(ops[..|ops| - 1]) + (if ops[|ops| - 1].Trade? then 1 else 0)
  }

  /** Losing trades since the last trade that did not lose; days do not interrupt it. */
  function LosingStreak(ops: seq<Op>): int {
    if ops == [] then 0
    else
      var last := ops[|ops| - 1];
      if !last.Trade? then LosingStreak(ops[..|ops| - 1])
      else if last.pnl < 0.0 then LosingStreak(ops[..|ops| - 1]) + 1
      else 0
  }

  /** `peak` is the largest of the initial capital and all values recorded. */
  ghost predicate IsPeak(risk: Risk, ops: seq<Op>, peak: real) {
    && peak >= risk.initialCapital
    && (forall i :: 0 <= i < |ops| && ops[i].Trade? ==> peak >= ops[i].value)
    && (peak == risk.initialCapital || exists i :: 0 <= i < |ops| && ops[i].Trade? && ops[i].value == peak)
  }

  function LastValue(risk: Risk, ops: seq<Op>): real {
    if ops == [] then risk.initialCapital
    else if ops[|ops| - 1].Trade? then ops[|ops| - 1].value
    else LastValue(risk, ops[..|ops| - 1])
  }

  /** Whatever else is called in between, the guard's fields are these folds. */
  lemma {:induction false} FieldsAreFolds(risk: Risk, environmentOk: bool, ops: seq<Op>)
    ensures var g := After(risk, environmentOk, Initial(risk), ops);
            && g.dailyPnl == PnlSinceReset(ops)
            && g.dailyOrders == TradesSinceReset(ops)
            && g.losses == LosingStreak(ops)
            && g.value == LastValue(risk, ops)
            && IsPeak(risk, ops, g.peak)
    decreases |ops|
  {
    if ops != [] {
      var front, last := ops[..|ops| - 1], ops[|ops| - 1];
      FieldsAreFolds(risk, environmentOk, front);
      var g := After(risk, environmentOk, Initial(risk), front);
      var g' := After(risk, environmentOk, Initial(risk), ops);
      assert forall i :: 0 <= i < |front| ==> ops[i] == front[i];
      if g.peak != g'.peak {
        assert ops[|ops| - 1].value == g'.peak;
      } else if g.peak != risk.initialCapital {
        var i :| 0 <= i < |front| && front[i].Trade? && front[i].value == g.peak;
        assert ops[i].value == g'.peak;
      }
    }
  }

  /** With non-negative values the drawdown is always a fraction. */
  lemma {:induction false} DrawdownIsFraction(risk: Risk, environmentOk: bool, ops: seq<Op>)
    requires risk.initialCapital >= 0.0
    requires forall i :: 0 <= i < |ops| && ops[i].Trade? ==> ops[i].value >= 0.0
    ensures var g := After(risk, environmentOk, Initial(risk), ops);
            0.0 <= g.drawdown <= 1.0 && 0.0 <= g.value <= g.peak
    decreases |ops|
  {
    if ops != [] {
      var front := ops[..|ops| - 1];
      DrawdownIsFraction(risk, environmentOk, front);
      var g := After(risk, environmentOk, Initial(risk), front);
      if g.peak > 0.0 {
        FractionOfPeak(g.peak, g.value);
      }
    }
  }

  lemma FractionOfPeak(peak: real, value: real)
    requires 0.0 <= value <= peak && peak > 0.0
    ensures 0.0 <= (peak - value) / peak <= 1.0
  {
  }

  // ---- The kill switch ----

  predicate Breached(risk: Risk, g: Guard) {
    || g.dailyPnl <= -risk.dailyLossLimit
    || (g.peak > 0.0 && (g.peak - g.value) / g.peak >= risk.maxDrawdown)
    || g.losses >= risk.consecutiveLossLimit
  }

  /** An order passes exactly when the switch is off, the environment is right, no limit is
      broken and the order is not too large; a passed check leaves the switch off. */
  lemma AllowedIff(risk: Risk, environmentOk: bool, g: Guard, order: Order)
    ensures PreOrder(risk, environmentOk, g, order).0 == Allowed <==>
              !g.killSwitch && environmentOk && !Breached(risk, g) && !TooLarge(risk, order)
    ensures PreOrder(risk, environmentOk, g, order).1.killSwitch <==>
              g.killSwitch || (environmentOk && Breached(risk, g))
  {
  }

  /** Switching off while a limit is still broken lasts until the next check, and only then:
      the check refuses, and throws the switch again exactly if the environment is right. */
  lemma DeactivatingWhileBreached(risk: Risk, environmentOk: bool, g: Guard, order: Order)
    requires Breached(risk, g)
    ensures var off := Step(risk, environmentOk, g, Deactivate);
            && PreOrder(risk, environmentOk, off, order).0.Refused?
            && (PreOrder(risk, environmentOk, off, order).1.killSwitch <==> environmentOk)
  {
    var off := Step(risk, environmentOk, g, Deactivate);
    AllowedIff(risk, environmentOk, off, order);
    assert Breached(risk, off);
  }

  /** Once thrown, the switch stays on until it is switched off by hand. */
  lemma {:induction false} SwitchLatches(risk: Risk, environmentOk: bool, g: Guard, ops: seq<Op>)
    requires g.killSwitch
    requires Deactivate !in ops
    ensures After(risk, environmentOk, g, ops).killSwitch
    decreases |ops|
  {
    if ops != [] {
      var front, last := ops[..|ops| - 1], ops[|ops| - 1];
      assert last in ops && forall op :: op in front ==> op in ops;
      SwitchLatches(risk, environmentOk, g, front);
    }
  }

  /** With the default threshold, one differing ticker at a reconciliation stops every order
      until somebody deactivates the switch, whatever else happens in between. */
  lemma MismatchStopsOrders(
    risk: Risk, environmentOk: bool, g: Guard,
    broker: PositionMap, internal: PositionMap, r: Report, ticker: string,
    ops: seq<Op>, order: Order)
    requires IsReport(broker, internal, r) && Differs(broker, internal, ticker)
    requires Deactivate !in ops
    ensures PreOrder(risk, environmentOk, After(risk, environmentOk, Reconciled(g, r, 0), ops), order).0 == Refused(KillSwitch)
  {
    MatchBoundsTotals(broker, internal, r);
    SwitchLatches(risk, environmentOk, Reconciled(g, r, 0), ops);
  }

  /** The same, from the ledger's history: whatever rows it started from and however often it
      was hydrated, if the broker's quantity of a ticker is not the net of the accepted fills,
      the reconciliation after them stops every order. */
  lemma DriftFromFillsStopsOrders(
    risk: Risk, environmentOk: bool, g: Guard,
    start: L.Books, ledgerOps: seq<L.Op>, broker: PositionMap, r: Report, ticker: string,
    ops: seq<Op>, order: Order)
    requires L.Balanced(start) && start.cache == start.rows
    requires forall f :: f in ledgerOps ==> !f.ForeignDelta?
    requires var books := L.Run(start, ledgerOps);
             && IsReport(broker, books.cache, r)
             && (Get(broker, ticker) - L.Net(books.log, ticker) > TOLERANCE || L.Net(books.log, ticker) - Get(broker, ticker) > TOLERANCE)
    requires Deactivate !in ops
    ensures PreOrder(risk, environmentOk, After(risk, environmentOk, Reconciled(g, r, 0), ops), order).0 == Refused(KillSwitch)
  {
    var books := L.Run(start, ledgerOps);
    L.SingleWriterAgrees(start, ledgerOps);
    L.BalancedAt(books, ticker);
    MismatchStopsOrders(risk, environmentOk, g, broker, books.cache, r, ticker, ops, order);
  }

  // ---- Why an order is refused ----

  /** Each reason with its exact condition: the order of the checks, and for the amount only
      purchases with a positive limit price. */
  lemma RefusedBecause(risk: Risk, environmentOk: bool, g: Guard, order: Order)
    ensures var verdict := PreOrder(risk, environmentOk, g, order).0;
            var dailyLoss := g.dailyPnl <= -risk.dailyLossLimit;
            var drawdown := g.peak > 0.0 && (g.peak - g.value) / g.peak >= risk.maxDrawdown;
            var losses := g.losses >= risk.consecutiveLossLimit;
            var checked := !g.killSwitch && environmentOk;
            && (verdict == Refused(KillSwitch) <==> g.killSwitch)
            && (verdict == Refused(Environment) <==> !g.killSwitch && !environmentOk)
            && (verdict == Refused(DailyLoss) <==> checked && dailyLoss)
            && (verdict == Refused(Drawdown) <==> checked && !dailyLoss && drawdown)
            && (verdict == Refused(ConsecutiveLosses) <==> checked && !dailyLoss && !drawdown && losses)
            && (verdict == Refused(OrderAmount) <==>
                  && checked && !dailyLoss && !drawdown && !losses
                  && order.buy && order.limitPrice.Some? && order.limitPrice.value > 0.0
                  && order.limitPrice.value * order.quantity as real > risk.maxOrderAmount)
  {
  }

  /** A reconciliation leaves the switch on exactly if it was, or more tickers differ than the
      threshold allows, and touches nothing else. */
  lemma ThrownByReconciliationIff(g: Guard, broker: PositionMap, internal: PositionMap, r: Report, threshold: nat)
    requires IsReport(broker, internal, r)
    ensures Reconciled(g, r, threshold) == g.(killSwitch := g.killSwitch || |r.mismatches| > threshold)
  {
  }
}
