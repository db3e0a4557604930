/**
 The backtest trading model: long only, one position, all-in compounding.
 `OnStep` is the specification of one processed candle; the class refines it.
 */
module Executor {
  import opened Candles

  datatype Signal = Signal(key: string, value: StateValue)

  datatype Threshold = Fixed(amount: real) | Percentage(amount: real)

  datatype ExitRules = ExitRules(signal: Option<Signal>, profitTarget: Option<Threshold>, stopLoss: Option<Threshold>)

  datatype Commission = Commission(rate: Option<real>, fixed: Option<real>)

  datatype Config = Config(entry: Signal, exit: ExitRules, initialCapital: real, commission: Commission)
  {
    function Rate(): real { if commission.rate.Some? then commission.rate.value else 0.0 }
    function Flat(): real { if commission.fixed.Some? then commission.fixed.value else 0.0 }
  }

  datatype ExitReason = BySignal | ByProfitTarget | ByStopLoss

  datatype OpenLot = OpenLot(entryTs: int, entryPrice: real, quantity: real, notional: real, entryCommission: real)

  datatype Trade = Trade(entryTs: int, exitTs: int, entryPrice: real, exitPrice: real, quantity: real,
                         commission: real, pnl: real, roiPct: real, exitReason: ExitReason)

  datatype Scope = SymbolScope | GlobalScope

  datatype RuleEvent = StateSet(scope: Scope, key: string, value: StateValue) | OtherEvent

  /** One processed candle: its events in emission order, and the instant its bar closes. */
  datatype Step = Step(candle: Candle, events: seq<RuleEvent>, closeTime: int)

  datatype State = State(equity: real, position: Option<OpenLot>, trades: seq<Trade>, lastClose: real,
                         lastValues: map<string, StateValue>)

  /** A quotient. Division by zero, a non-finite number in the original, is not modelled. */
  function Div(a: real, b: real): real {
    if b == 0.0 then 0.0 else a / b
  }

  function ProfitTargetLevel(entryPrice: real, t: Threshold): real {
    if t.Fixed? then entryPrice + t.amount else entryPrice * (1.0 + t.amount / 100.0)
  }

  function StopLossLevel(entryPrice: real, t: Threshold): real {
    if t.Fixed? then entryPrice - t.amount else entryPrice * (1.0 - t.amount / 100.0)
  }

  /** The intrabar level a candle touches, stop-loss first, filled at the level itself. */
  function LevelExit(exit: ExitRules, entryPrice: real, candle: Candle): Option<(real, ExitReason)> {
    if exit.stopLoss.Some? && candle.low <= StopLossLevel(entryPrice, exit.stopLoss.value)
    then Some((StopLossLevel(entryPrice, exit.stopLoss.value), ByStopLoss))
    else if exit.profitTarget.Some? && candle.high >= ProfitTargetLevel(entryPrice, exit.profitTarget.value)
    then Some((ProfitTargetLevel(entryPrice, exit.profitTarget.value), ByProfitTarget))
    else None
  }

  predicate SignalMatches(signal: Signal, key: string, value: StateValue) {
    signal.key == key && signal.value == value
  }

  /** The commission of a fill: `rate` percent of its notional plus the flat amount. */
  function CommissionOn(cfg: Config, notional: real): real {
    notional * (cfg.Rate() / 100.0) + cfg.Flat()
  }

  /** The notional that leaves room for its own commission. */
  function NotionalFor(cfg: Config, equity: real): real {
    Div(equity - cfg.Flat(), 1.0 + cfg.Rate() / 100.0)
  }

  function Proceeds(quantity: real, price: real): real {
    quantity * price
  }

  function Percent(part: real, whole: real): real {
    Div(part, whole) * 100.0
  }

  /** A whole-equity lot, cash-constrained including commission. */
  function LotFor(cfg: Config, equity: real, ts: int, price: real): OpenLot {
    var notional := NotionalFor(cfg, equity);
    OpenLot(ts, price, Div(notional, price), notional, CommissionOn(cfg, notional))
  }

  function TradeFor(cfg: Config, lot: OpenLot, ts: int, price: real, reason: ExitReason): Trade {
    var gross := Proceeds(lot.quantity, price);
    var exitCommission := CommissionOn(cfg, gross);
    var costBasis := lot.notional + lot.entryCommission;
    var pnl := gross - exitCommission - costBasis;
    Trade(lot.entryTs, ts, lot.entryPrice, price, lot.quantity, lot.entryCommission + exitCommission,
          pnl, Percent(pnl, costBasis), reason)
  }

  function Opened(cfg: Config, st: State, ts: int, price: real): State {
    st.(position := Some(LotFor(cfg, st.equity, ts, price)))
  }

  /** Sell everything, compound the proceeds, and forget every observed value. */
  function Closed(cfg: Config, st: State, ts: int, price: real, reason: ExitReason): State
    requires st.position.Some?
  {
    var trade := TradeFor(cfg, st.position.value, ts, price, reason);
    st.(equity := st.equity + trade.pnl, position := None, trades := st.trades + [trade], lastValues := map[])
  }

  /** Whether writing `value` is a change from the last value seen for `key`. */
  predicate IsTransition(st: State, key: string, value: StateValue) {
    key !in st.lastValues || st.lastValues[key] != value
  }

  function OnEvent(cfg: Config, st: State, event: RuleEvent, close: real, closeTime: int): State {
    if !event.StateSet? || !event.scope.SymbolScope? then st
    else
      var seen := st.(lastValues := st.lastValues[event.key := event.value]);
      if !IsTransition(st, event.key, event.value) then seen
      else if st.position.Some? then
        if cfg.exit.signal.Some? && SignalMatches(cfg.exit.signal.value, event.key, event.value)
        then Closed(cfg, seen, closeTime, close, BySignal)
        else seen
      else if SignalMatches(cfg.entry, event.key, event.value) then Opened(cfg, seen, closeTime, close)
      else seen
  }

  /** The level check that opens a step: only a position already open is checked. */
  function OnCheck(cfg: Config, st: State, candle: Candle, closeTime: int): State {
    var marked := st.(lastClose := candle.close);
    if st.position.None? then marked
    else
      var level := LevelExit(cfg.exit, st.position.value.entryPrice, candle);
      if level.None? then marked else Closed(cfg, marked, closeTime, level.value.0, level.value.1)
  }

  function OnEvents(cfg: Config, st: State, events: seq<RuleEvent>, close: real, closeTime: int): State
    decreases |events|
  {
    if events == [] then st
    else OnEvent(cfg, OnEvents(cfg, st, events[..|events| - 1], close, closeTime), events[|events| - 1], close,
                 closeTime)
  }

  function OnStep(cfg: Config, st: State, step: Step): State {
    OnEvents(cfg, OnCheck(cfg, st, step.candle, step.closeTime), step.events, step.candle.close, step.closeTime)
  }

  function Initial(cfg: Config): State {
    State(cfg.initialCapital, None, [], 0.0, map[])
  }

  /** The state after a whole run of steps. */
  function Run(cfg: Config, steps: seq<Step>): State {
    if steps == [] then Initial(cfg) else OnStep(cfg, Run(cfg, steps[..|steps| - 1]), steps[|steps| - 1])
  }

  // ---- summary ----

  function SumPnl(trades: seq<Trade>): real {
    if trades == [] then 0.0 else SumPnl(trades[..|trades| - 1]) + trades[|trades| - 1].pnl
  }

  function SumRoi(trades: seq<Trade>): real {
    if trades == [] then 0.0 else SumRoi(trades[..|trades| - 1]) + trades[|trades| - 1].roiPct
  }

  function SumDays(trades: seq<Trade>): real {
    if trades == [] then 0.0
    else
      var t := trades[|trades| - 1];
      SumDays(trades[..|trades| - 1]) + (t.exitTs - t.entryTs) as real / 86_400_000.0
  }

  datatype Summary = Summary(totalPnl: real, roiPct: real, avgPnlPerTrade: real, tradeCount: nat,
                             winners: nat, losers: nat, avgRoiPct: real, avgDaysInTrade: real)

  function SummarizeTrades(trades: seq<Trade>, initialCapital: real): Summary {
    var n := |trades|;
    var total := SumPnl(trades);
    Summary(total, if initialCapital > 0.0 then total / initialCapital * 100.0 else 0.0,
            if n == 0 then 0.0 else total / n as real, n,
            |Filter(trades, (t: Trade) => t.pnl > 0.0)|, |Filter(trades, (t: Trade) => t.pnl < 0.0)|,
            if n == 0 then 0.0 else SumRoi(trades) / n as real,
            if n == 0 then 0.0 else SumDays(trades) / n as real)
  }

  datatype OpenPosition = OpenPosition(entryTs: int, entryPrice: real, quantity: real, entryCommission: real,
                                       unrealizedPnl: real)

  datatype Outcome = Outcome(trades: seq<Trade>, openPosition: Option<OpenPosition>, summary: Summary)

  function OutcomeOf(cfg: Config, st: State): Outcome {
    var open :=
      if st.position.None? then None
      else
        var pos := st.position.value;
        Some(OpenPosition(pos.entryTs, pos.entryPrice, pos.quantity, pos.entryCommission,
                          pos.quantity * st.lastClose - (pos.notional + pos.entryCommission)));
    Outcome(st.trades, open, SummarizeTrades(st.trades, cfg.initialCapital))
  }

  // ---- the executor object ----

  class BacktestExecutor {
    const cfg: Config
    var equity: real
    var position: Option<OpenLot>
    var trades: seq<Trade>
    var lastClose: real
    var lastValues: map<string, StateValue>

    function Now(): State
      reads this
    {
      State(equity, position, trades, lastClose, lastValues)
    }

    constructor (cfg: Config)
      ensures this.cfg == cfg && Now() == Initial(cfg)
    {
      this.cfg := cfg;
      equity, position, trades, lastClose, lastValues := cfg.initialCapital, None, [], 0.0, map[];
    }

    method OpenPosition(entryTs: int, entryPrice: real)
      modifies this
      ensures Now() == Opened(cfg, old(Now()), entryTs, entryPrice)
    {
      hide Div, CommissionOn, NotionalFor;
      var notional := NotionalFor(cfg, equity);
      var quantity := Div(notional, entryPrice);
      var entryCommission := CommissionOn(cfg, notional);
      position := Some(OpenLot(entryTs, entryPrice, quantity, notional, entryCommission));
    }

    method ClosePosition(exitTs: int, exitPrice: real, reason: ExitReason)
      modifies this
      ensures Now() == if old(Now()).position.None? then old(Now())
                         else Closed(cfg, old(Now()), exitTs, exitPrice, reason)
    {
      hide Percent, CommissionOn, Proceeds;
      if position.None? { return; }
      var pos := position.value;
      var grossProceeds := Proceeds(pos.quantity, exitPrice);
      var exitCommission := CommissionOn(cfg, grossProceeds);
      var costBasis := pos.notional + pos.entryCommission;
      var pnl := grossProceeds - exitCommission - costBasis;
      trades := trades + [Trade(pos.entryTs, exitTs, pos.entryPrice, exitPrice, pos.quantity,
                                pos.entryCommission + exitCommission, pnl, Percent(pnl, costBasis), reason)];
      equity := equity + pnl;
      position := None;
      lastValues := map[];
    }

    /**
     Record the latest value for a key; says whether it changed from the value seen before, the first always counting.
     */
    method RecordTransition(key: string, value: StateValue) returns (transition: bool)
      modifies this
      ensures transition == IsTransition(old(Now()), key, value)
      ensures Now() == old(Now()).(lastValues := old(lastValues)[key := value])
    {
      transition := key !in lastValues || lastValues[key] != value;
      lastValues := lastValues[key := value];
    }

    /** Advance the model by one candle: levels first, then its events in emission order. */
    method ProcessStep(candle: Candle, events: seq<RuleEvent>, closeTime: int)
      modifies this
      ensures Now() == OnStep(cfg, old(Now()), Step(candle, events, closeTime))
    {
      lastClose := candle.close;
      if position.Some? {
        var level := LevelExit(cfg.exit, position.value.entryPrice, candle);
        if level.Some? {
          ClosePosition(closeTime, level.value.0, level.value.1);
        }
      }
      ghost var checked := OnCheck(cfg, old(Now()), candle, closeTime);
      for i := 0 to |events|
        invariant Now() == OnEvents(cfg, checked, events[..i], candle.close, closeTime)
      {
        assert events[..i + 1][..i] == events[..i];
        ConsumeEvent(events[i], candle.close, closeTime);
      }
      assert events[..|events|] == events;
    }

    method ConsumeEvent(event: RuleEvent, close: real, closeTime: int)
      modifies this
      ensures Now() == OnEvent(cfg, old(Now()), event, close, closeTime)
    {
      if !event.StateSet? || !event.scope.SymbolScope? { return; }
      var transition := RecordTransition(event.key, event.value);
      if !transition { return; }
      if position.Some? {
        if cfg.exit.signal.Some? && SignalMatches(cfg.exit.signal.value, event.key, event.value) {
          ClosePosition(closeTime, close, BySignal);
        }
      } else if SignalMatches(cfg.entry, event.key, event.value) {
        OpenPosition(closeTime, close);
      }
    }

    method Result() returns (r: Outcome)
      ensures r == OutcomeOf(cfg, Now())
    {
      r := OutcomeOf(cfg, Now());
    }
  }

  /** Feed a run's steps to a fresh executor: the object ends in the specified state. */
  method Replay(cfg: Config, steps: seq<Step>) returns (r: Outcome)
    ensures r == OutcomeOf(cfg, Run(cfg, steps))
  {
    var executor := new BacktestExecutor(cfg);
    for i := 0 to |steps|
      invariant executor.cfg == cfg && executor.Now() == Run(cfg, steps[..i])
    {
      assert steps[..i + 1][..i] == steps[..i];
      executor.ProcessStep(steps[i].candle, steps[i].events, steps[i].closeTime);
    }
    assert steps[..|steps|] == steps;
    r := executor.Result();
  }
}
