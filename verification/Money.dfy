/** Conservation and compounding: what every run of the trading model keeps about money. */
module Money {
  import opened Candles
  import opened Executor

  /** Equity just before the `i`-th trade was entered. */
  function EquityBefore(cfg: Config, trades: seq<Trade>, i: nat): real
    requires i <= |trades|
  {
    cfg.initialCapital + SumPnl(trades[..i])
  }

  /** A trade booked from a whole-equity entry at `equity`. */
  ghost predicate BookedAt(cfg: Config, equity: real, t: Trade) {
    t == TradeFor(cfg, LotFor(cfg, equity, t.entryTs, t.entryPrice), t.exitTs, t.exitPrice, t.exitReason)
  }

  /** Every trade spent the whole equity left by the trades before it, and equity is the capital plus all closed P/L. */
  ghost predicate Books(cfg: Config, st: State) {
    && st.equity == cfg.initialCapital + SumPnl(st.trades)
    && (forall i :: 0 <= i < |st.trades| ==> BookedAt(cfg, EquityBefore(cfg, st.trades, i), st.trades[i]))
    && (st.position.Some? ==>
          var lot := st.position.value;
          lot == LotFor(cfg, st.equity, lot.entryTs, lot.entryPrice))
  }

  lemma SumPnlAppend(trades: seq<Trade>, t: Trade)
    ensures SumPnl(trades + [t]) == SumPnl(trades) + t.pnl
  {
    assert (trades + [t])[..|trades|] == trades;
  }

  lemma CloseKeepsBooks(cfg: Config, st: State, ts: int, price: real, reason: ExitReason)
    requires Books(cfg, st) && st.position.Some?
    ensures Books(cfg, Closed(cfg, st, ts, price, reason))
  {
    hide TradeFor, LotFor, SumPnl;
    var after := Closed(cfg, st, ts, price, reason);
    var t := after.trades[|st.trades|];
    TradeForFields(cfg, st.position.value, ts, price, reason);
    SumPnlAppend(st.trades, t);
    forall i | 0 <= i < |after.trades| ensures BookedAt(cfg, EquityBefore(cfg, after.trades, i), after.trades[i]) {
      assert i <= |st.trades| ==> after.trades[..i] == st.trades[..i];
      assert st.trades[..|st.trades|] == st.trades;
    }
  }

  lemma TradeForFields(cfg: Config, lot: OpenLot, ts: int, price: real, reason: ExitReason)
    ensures var t := TradeFor(cfg, lot, ts, price, reason);
            t.entryTs == lot.entryTs && t.entryPrice == lot.entryPrice && t.exitTs == ts && t.exitPrice == price
                && t.exitReason == reason
  {
  }

  lemma OpenKeepsBooks(cfg: Config, st: State, ts: int, price: real)
    requires Books(cfg, st)
    ensures Books(cfg, Opened(cfg, st, ts, price))
  {
    hide SumPnl, NotionalFor, Div, CommissionOn, BookedAt;
  }

  lemma EventKeepsBooks(cfg: Config, st: State, event: RuleEvent, close: real, closeTime: int)
    requires Books(cfg, st)
    ensures Books(cfg, OnEvent(cfg, st, event, close, closeTime))
  {
    hide Closed, Opened, Books;
    if event.StateSet? {
      var seen := st.(lastValues := st.lastValues[event.key := event.value]);
      SameBooks(cfg, st, seen);
      if seen.position.Some? { CloseKeepsBooks(cfg, seen, closeTime, close, BySignal); }
      OpenKeepsBooks(cfg, seen, closeTime, close);
    }
  }

  lemma SameBooks(cfg: Config, st: State, st': State)
    requires Books(cfg, st) && st'.equity == st.equity && st'.trades == st.trades && st'.position == st.position
    ensures Books(cfg, st')
  {
  }

  lemma {:induction false} EventsKeepBooks(cfg: Config, st: State, events: seq<RuleEvent>, close: real, closeTime: int)
    requires Books(cfg, st)
    ensures Books(cfg, OnEvents(cfg, st, events, close, closeTime))
    decreases |events|
  {
    hide OnEvent, Books;
    if events != [] {
      EventsKeepBooks(cfg, st, events[..|events| - 1], close, closeTime);
      EventKeepsBooks(cfg, OnEvents(cfg, st, events[..|events| - 1], close, closeTime), events[|events| - 1], close,
                      closeTime);
    }
  }

  lemma StepKeepsBooks(cfg: Config, st: State, step: Step)
    requires Books(cfg, st)
    ensures Books(cfg, OnStep(cfg, st, step))
  {
    hide Closed, Books, OnEvents, LevelExit;
    var marked := st.(lastClose := step.candle.close);
    SameBooks(cfg, st, marked);
    if st.position.Some? {
      var level := LevelExit(cfg.exit, st.position.value.entryPrice, step.candle);
      if level.Some? { CloseKeepsBooks(cfg, marked, step.closeTime, level.value.0, level.value.1); }
    }
    EventsKeepBooks(cfg, OnCheck(cfg, st, step.candle, step.closeTime), step.events, step.candle.close, step.closeTime);
  }

  /** Every run keeps the books: no premise on rates, prices or events. */
  lemma {:induction false} RunKeepsBooks(cfg: Config, steps: seq<Step>)
    ensures Books(cfg, Run(cfg, steps))
  {
    hide OnStep;
    if steps != [] {
      RunKeepsBooks(cfg, steps[..|steps| - 1]);
      StepKeepsBooks(cfg, Run(cfg, steps[..|steps| - 1]), steps[|steps| - 1]);
    }
  }

  /** The closed P/L of any run is exactly the change in equity, and is what the summary reports. */
  lemma EquityIsCapitalPlusPnl(cfg: Config, steps: seq<Step>)
    ensures var st := Run(cfg, steps);
            && st.equity == cfg.initialCapital + SumPnl(st.trades)
            && OutcomeOf(cfg, st).summary.totalPnl == st.equity - cfg.initialCapital
  {
    hide SumPnl, SumRoi, SumDays, Run, Filter;
    RunKeepsBooks(cfg, steps);
  }

  lemma DivTimes(a: real, b: real)
    requires b != 0.0
    ensures Div(a, b) * b == a
  {
  }

  // ---- commissions ----

  /** Fills are charged `rate` percent and `fixed`: each part as given, an absent one as zero. */
  ghost predicate Charges(commission: Commission, rate: real, fixed: real) {
    && (if commission.rate.Some? then commission.rate == Some(rate) else rate == 0.0)
    && (if commission.fixed.Some? then commission.fixed == Some(fixed) else fixed == 0.0)
  }

  ghost predicate RateNonNegative(commission: Commission) {
    commission.rate.Some? ==> commission.rate.value >= 0.0
  }

  lemma RatesCharged(cfg: Config)
    ensures Charges(cfg.commission, cfg.Rate(), cfg.Flat())
    ensures forall rate, fixed :: Charges(cfg.commission, rate, fixed) ==> rate == cfg.Rate() && fixed == cfg.Flat()
    ensures RateNonNegative(cfg.commission) <==> cfg.Rate() >= 0.0
  {
  }

  /**
   An entry's notional plus its commission is the whole equity, the commission is its rate on the notional plus the
   fixed part, and its quantity at the entry price is the notional.
   */
  lemma EntrySpendsEquity(cfg: Config, equity: real, ts: int, price: real, rate: real, fixed: real)
    requires Charges(cfg.commission, rate, fixed) && rate >= 0.0
    ensures var lot := LotFor(cfg, equity, ts, price);
            && lot.entryTs == ts && lot.entryPrice == price
            && lot.notional + lot.entryCommission == equity
            && lot.entryCommission == lot.notional * rate / 100.0 + fixed
            && (price != 0.0 ==> lot.quantity * price == lot.notional)
  {
    hide Div;
    RatesCharged(cfg);
    var r := rate / 100.0;
    var notional := NotionalFor(cfg, equity);
    DivTimes(equity - fixed, 1.0 + r);
    assert notional * (1.0 + r) == notional + notional * r;
    PartOf(notional, rate);
    if price != 0.0 { DivTimes(notional, price); }
  }

  lemma PartOf(amount: real, rate: real)
    ensures amount * (rate / 100.0) == amount * rate / 100.0
  {
  }

  /** While a position is open, equity plus its unrealized P/L is the position marked at the last close. */
  lemma OpenPositionMarksToMarket(cfg: Config, steps: seq<Step>)
    requires RateNonNegative(cfg.commission)
    ensures var st := Run(cfg, steps);
            var open := OutcomeOf(cfg, st).openPosition;
            && (open.Some? <==> st.position.Some?)
            && (open.Some? ==>
                  && st.position.value.notional + st.position.value.entryCommission == st.equity
                  && st.equity + open.value.unrealizedPnl == open.value.quantity * st.lastClose)
  {
    hide SumPnl, SumRoi, SumDays, Run, Filter, LotFor;
    RunKeepsBooks(cfg, steps);
    var st := Run(cfg, steps);
    if st.position.Some? {
      RatesCharged(cfg);
      EntrySpendsEquity(cfg, st.equity, st.position.value.entryTs, st.position.value.entryPrice, cfg.Rate(),
                        cfg.Flat());
    }
  }

  /**
   A closed trade turns the equity it spent into its proceeds net of the exit commission, charged like the entry's.
   */
  lemma TradeNetsProceeds(cfg: Config, equity: real, t: Trade, rate: real, fixed: real)
    requires Charges(cfg.commission, rate, fixed) && rate >= 0.0 && BookedAt(cfg, equity, t)
    ensures var exitCommission := t.quantity * t.exitPrice * rate / 100.0 + fixed;
            && equity + t.pnl == t.quantity * t.exitPrice - exitCommission
            && (t.entryPrice != 0.0 ==>
                  t.commission == t.quantity * t.entryPrice * rate / 100.0 + fixed + exitCommission)
    ensures equity != 0.0 ==> t.roiPct * equity == t.pnl * 100.0
  {
    hide LotFor, Percent;
    RatesCharged(cfg);
    EntrySpendsEquity(cfg, equity, t.entryTs, t.entryPrice, rate, fixed);
    PartOf(t.quantity * t.exitPrice, rate);
    if equity != 0.0 { PercentOf(t.pnl, equity); }
  }

  lemma PercentOf(part: real, whole: real)
    requires whole != 0.0
    ensures Percent(part, whole) * whole == part * 100.0
  {
    hide Div;
    DivTimes(part, whole);
    var q := Div(part, whole);
    assert q * 100.0 * whole == q * whole * 100.0;
  }

  /** The compounded growth factor of a list of trades. */
  function Growth(trades: seq<Trade>): real {
    if trades == [] then 1.0 else Growth(trades[..|trades| - 1]) * (1.0 + trades[|trades| - 1].roiPct / 100.0)
  }

  lemma {:induction false} GrowthOfPrefix(cfg: Config, trades: seq<Trade>, n: nat)
    requires n <= |trades| && RateNonNegative(cfg.commission)
    requires forall i :: 0 <= i < |trades| ==> BookedAt(cfg, EquityBefore(cfg, trades, i), trades[i])
    requires forall i :: 0 <= i < n ==> EquityBefore(cfg, trades, i) != 0.0
    ensures EquityBefore(cfg, trades, n) == cfg.initialCapital * Growth(trades[..n])
  {
    hide *;
    if n == 0 {
      NoTrades(cfg, trades);
    } else {
      GrowthOfPrefix(cfg, trades, n - 1);
      var before, t := EquityBefore(cfg, trades, n - 1), trades[n - 1];
      TradeGrows(cfg, before, t);
      PrefixGrows(cfg, trades, n);
      GrowthStep(cfg.initialCapital, Growth(trades[..n - 1]), 1.0 + t.roiPct / 100.0, before);
    }
  }

  lemma NoTrades(cfg: Config, trades: seq<Trade>)
    ensures EquityBefore(cfg, trades, 0) == cfg.initialCapital * Growth(trades[..0])
  {
  }

  /** A trade multiplies the equity it spent by its own return. */
  lemma TradeGrows(cfg: Config, equity: real, t: Trade)
    requires RateNonNegative(cfg.commission) && BookedAt(cfg, equity, t) && equity != 0.0
    ensures equity * (1.0 + t.roiPct / 100.0) == equity + t.pnl
  {
    hide BookedAt;
    RatesCharged(cfg);
    TradeNetsProceeds(cfg, equity, t, cfg.Rate(), cfg.Flat());
    GrowsBy(equity, t.pnl, t.roiPct);
  }

  lemma GrowsBy(equity: real, pnl: real, roiPct: real)
    requires roiPct * equity == pnl * 100.0
    ensures equity * (1.0 + roiPct / 100.0) == equity + pnl
  {
    var q := roiPct / 100.0;
    assert roiPct == q * 100.0;
    assert q * 100.0 * equity == q * equity * 100.0;
  }

  lemma PrefixGrows(cfg: Config, trades: seq<Trade>, n: nat)
    requires 0 < n <= |trades|
    ensures EquityBefore(cfg, trades, n) == EquityBefore(cfg, trades, n - 1) + trades[n - 1].pnl
    ensures Growth(trades[..n]) == Growth(trades[..n - 1]) * (1.0 + trades[n - 1].roiPct / 100.0)
  {
    assert trades[..n][..n - 1] == trades[..n - 1];
  }

  lemma GrowthStep(capital: real, growth: real, factor: real, equity: real)
    requires equity == capital * growth
    ensures equity * factor == capital * (growth * factor)
  {
  }

  /**
   With nonzero equity at every entry, equity after `n` trades is the capital times the product of `1 + roiPct / 100`.
   */
  lemma EquityCompounds(cfg: Config, steps: seq<Step>)
    requires RateNonNegative(cfg.commission)
    requires var trades := Run(cfg, steps).trades;
             forall i :: 0 <= i < |trades| ==> EquityBefore(cfg, trades, i) != 0.0
    ensures Run(cfg, steps).equity == cfg.initialCapital * Growth(Run(cfg, steps).trades)
  {
    hide BookedAt, Run, Growth, SumPnl;
    RunKeepsBooks(cfg, steps);
    var trades := Run(cfg, steps).trades;
    GrowthOfPrefix(cfg, trades, |trades|);
    assert trades[..|trades|] == trades;
  }

  /** Without commission a round trip multiplies equity by the ratio of its prices. */
  lemma FreeTradeScalesByPrice(cfg: Config, equity: real, t: Trade)
    requires Charges(cfg.commission, 0.0, 0.0) && BookedAt(cfg, equity, t) && t.entryPrice != 0.0
    ensures (equity + t.pnl) * t.entryPrice == equity * t.exitPrice
  {
    hide LotFor, TradeFor;
    TradeNetsProceeds(cfg, equity, t, 0.0, 0.0);
    BoughtWithEquity(cfg, equity, t, 0.0, 0.0);
    var q := t.quantity;
    assert (q * t.exitPrice) * t.entryPrice == (q * t.entryPrice) * t.exitPrice;
  }

  /** What a trade's quantity cost at its entry price, and its entry commission, are the equity it was entered with. */
  lemma BoughtWithEquity(cfg: Config, equity: real, t: Trade, rate: real, fixed: real)
    requires Charges(cfg.commission, rate, fixed) && rate >= 0.0 && BookedAt(cfg, equity, t) && t.entryPrice != 0.0
    ensures var cost := t.quantity * t.entryPrice; cost + (cost * rate / 100.0 + fixed) == equity
  {
    hide LotFor, Percent, CommissionOn;
    EntrySpendsEquity(cfg, equity, t.entryTs, t.entryPrice, rate, fixed);
  }

  /** A trade's net P/L is its quantity times the price move, less both commissions. */
  lemma PnlIsMoveLessCommission(cfg: Config, equity: real, t: Trade)
    requires RateNonNegative(cfg.commission) && BookedAt(cfg, equity, t) && t.entryPrice != 0.0
    ensures t.pnl == t.quantity * (t.exitPrice - t.entryPrice) - t.commission
  {
    hide BookedAt;
    RatesCharged(cfg);
    var rate, fixed := cfg.Rate(), cfg.Flat();
    TradeNetsProceeds(cfg, equity, t, rate, fixed);
    BoughtWithEquity(cfg, equity, t, rate, fixed);
    assert t.quantity * (t.exitPrice - t.entryPrice) == t.quantity * t.exitPrice - t.quantity * t.entryPrice;
  }

  // ---- levels ----

  /** The stop and target of a long position lie on their own sides of its entry price. */
  lemma LevelsStraddleEntry(entryPrice: real, t: Threshold)
    requires entryPrice >= 0.0 && t.amount >= 0.0
    ensures StopLossLevel(entryPrice, t) <= entryPrice <= ProfitTargetLevel(entryPrice, t)
  {
    if t.Percentage? {
      var part := t.amount / 100.0;
      assert entryPrice * part >= 0.0;
      assert entryPrice * (1.0 + part) == entryPrice + entryPrice * part;
      assert entryPrice * (1.0 - part) == entryPrice - entryPrice * part;
    }
  }

  predicate Touched(exit: ExitRules, entryPrice: real, candle: Candle, level: real) {
    || (exit.stopLoss.Some? && level == StopLossLevel(entryPrice, exit.stopLoss.value) && candle.low <= level)
    || (exit.profitTarget.Some? && level == ProfitTargetLevel(entryPrice, exit.profitTarget.value)
        && candle.high >= level)
  }

  /**
   A level exit is pessimistic: it happens exactly when some level is touched, and fills at the lowest touched one.
   */
  lemma LevelExitIsWorstTouched(exit: ExitRules, entryPrice: real, candle: Candle)
    requires entryPrice >= 0.0
    requires exit.stopLoss.Some? ==> exit.stopLoss.value.amount >= 0.0
    requires exit.profitTarget.Some? ==> exit.profitTarget.value.amount >= 0.0
    ensures LevelExit(exit, entryPrice, candle).Some? <==> exists level :: Touched(exit, entryPrice, candle, level)
    ensures LevelExit(exit, entryPrice, candle).Some? ==>
              var fill := LevelExit(exit, entryPrice, candle).value.0;
              && Touched(exit, entryPrice, candle, fill)
              && forall level :: Touched(exit, entryPrice, candle, level) ==> fill <= level
  {
    hide StopLossLevel, ProfitTargetLevel;
    if exit.stopLoss.Some? {
      LevelsStraddleEntry(entryPrice, exit.stopLoss.value);
      assert candle.low <= StopLossLevel(entryPrice, exit.stopLoss.value) ==>
          Touched(exit, entryPrice, candle, StopLossLevel(entryPrice, exit.stopLoss.value));
    }
    if exit.profitTarget.Some? {
      LevelsStraddleEntry(entryPrice, exit.profitTarget.value);
      assert candle.high >= ProfitTargetLevel(entryPrice, exit.profitTarget.value) ==>
          Touched(exit, entryPrice, candle, ProfitTargetLevel(entryPrice, exit.profitTarget.value));
    }
  }

  /** Without commission, a trade that moves its price by a part of itself returns that part. */
  lemma FreeReturn(cfg: Config, equity: real, t: Trade, part: real)
    requires Charges(cfg.commission, 0.0, 0.0) && BookedAt(cfg, equity, t) && t.entryPrice != 0.0 && equity != 0.0
    requires t.exitPrice == t.entryPrice * (1.0 + part)
    ensures t.roiPct == part * 100.0
  {
    hide BookedAt;
    FreeTradeScalesByPrice(cfg, equity, t);
    TradeNetsProceeds(cfg, equity, t, 0.0, 0.0);
    assert (equity + t.pnl) * t.entryPrice == (equity * (1.0 + part)) * t.entryPrice;
    SameFactor(equity + t.pnl, equity * (1.0 + part), t.entryPrice);
    assert t.pnl == part * equity;
    assert part * equity * 100.0 == part * 100.0 * equity;
    SameFactor(t.roiPct, part * 100.0, equity);
  }

  lemma SameFactor(a: real, b: real, c: real)
    requires c != 0.0 && a * c == b * c
    ensures a == b
  {
    assert (a - b) * c == 0.0;
  }

  /**
   Without commission a percentage target returns exactly its percentage, and a percentage stop loses exactly its own.
   */
  lemma PercentageLevelsReturn(cfg: Config, equity: real, t: Trade, amount: real)
    requires Charges(cfg.commission, 0.0, 0.0) && BookedAt(cfg, equity, t) && t.entryPrice != 0.0 && equity != 0.0
    ensures t.exitPrice == ProfitTargetLevel(t.entryPrice, Percentage(amount)) ==> t.roiPct == amount
    ensures t.exitPrice == StopLossLevel(t.entryPrice, Percentage(amount)) ==> t.roiPct == -amount
  {
    hide BookedAt;
    if t.exitPrice == ProfitTargetLevel(t.entryPrice, Percentage(amount)) {
      FreeReturn(cfg, equity, t, amount / 100.0);
    }
    if t.exitPrice == StopLossLevel(t.entryPrice, Percentage(amount)) {
      assert 1.0 - amount / 100.0 == 1.0 + (-amount / 100.0);
      FreeReturn(cfg, equity, t, -amount / 100.0);
    }
  }

  // ---- the summary ----

  /** The sum of a list, for any measure of its trades. */
  ghost function Total(trades: seq<Trade>, measure: Trade -> real): real {
    if trades == [] then 0.0 else Total(trades[..|trades| - 1], measure) + measure(trades[|trades| - 1])
  }

  /** The trades a condition holds of, by position. */
  ghost function Where(trades: seq<Trade>, holds: Trade -> bool): set<nat> {
    set i: nat | i < |trades| && holds(trades[i])
  }

  lemma {:induction false} FilterCounts(trades: seq<Trade>, p: Trade -> bool, holds: Trade -> bool)
    requires forall t :: p(t) <==> holds(t)
    ensures |Filter(trades, p)| == |Where(trades, holds)|
  {
    if trades != [] {
      var n := |trades| - 1;
      FilterCounts(trades[..n], p, holds);
      FilterConcat(trades[..n], [trades[n]], p);
      assert trades == trades[..n] + [trades[n]];
      assert Where(trades, holds) == Where(trades[..n], holds) + if holds(trades[n]) then {n} else {};
      assert n !in Where(trades[..n], holds);
    }
  }

  lemma {:induction false} SumsAre(trades: seq<Trade>, pnl: Trade -> real, roi: Trade -> real, held: Trade -> real)
    requires forall t :: pnl(t) == t.pnl && roi(t) == t.roiPct && held(t) == (t.exitTs - t.entryTs) as real
    ensures SumPnl(trades) == Total(trades, pnl) && SumRoi(trades) == Total(trades, roi)
    ensures SumDays(trades) * 24.0 * 3600.0 * 1000.0 == Total(trades, held)
  {
    if trades != [] { SumsAre(trades[..|trades| - 1], pnl, roi, held); }
  }

  /**
   The summary of any run: its return takes the initial capital to the final equity, its averages times the count are
   the trades' totals, the average holding time in days of milliseconds, and it counts the winners and the losers.
   */
  lemma SummaryAddsUp(cfg: Config, steps: seq<Step>, pnl: Trade -> real, roi: Trade -> real, held: Trade -> real,
                      won: Trade -> bool, lost: Trade -> bool)
    requires forall t :: pnl(t) == t.pnl && roi(t) == t.roiPct && held(t) == (t.exitTs - t.entryTs) as real
    requires forall t :: (won(t) <==> t.pnl > 0.0) && (lost(t) <==> t.pnl < 0.0)
    ensures var st := Run(cfg, steps);
            var sum := OutcomeOf(cfg, st).summary;
            && sum.tradeCount == |st.trades|
            && sum.winners == |Where(st.trades, won)| && sum.losers == |Where(st.trades, lost)|
            && sum.totalPnl == Total(st.trades, pnl)
            && sum.avgPnlPerTrade * sum.tradeCount as real == Total(st.trades, pnl)
            && sum.avgRoiPct * sum.tradeCount as real == Total(st.trades, roi)
            && sum.avgDaysInTrade * sum.tradeCount as real * 24.0 * 3600.0 * 1000.0 == Total(st.trades, held)
            && (st.trades == [] ==> sum.avgPnlPerTrade == sum.avgRoiPct == sum.avgDaysInTrade == 0.0)
            && (cfg.initialCapital > 0.0 ==> cfg.initialCapital * (1.0 + sum.roiPct / 100.0) == st.equity)
            && (cfg.initialCapital <= 0.0 ==> sum.roiPct == 0.0)
  {
    hide Run, Filter, SumPnl, SumRoi, SumDays, Total, Where;
    EquityIsCapitalPlusPnl(cfg, steps);
    var trades := Run(cfg, steps).trades;
    FilterCounts(trades, (t: Trade) => t.pnl > 0.0, won);
    FilterCounts(trades, (t: Trade) => t.pnl < 0.0, lost);
    SumsAre(trades, pnl, roi, held);
    EmptySums();
    AverageTimesCount(SumPnl(trades), |trades|);
    AverageTimesCount(SumRoi(trades), |trades|);
    AverageTimesCount(SumDays(trades), |trades|);
    if cfg.initialCapital > 0.0 { ReturnTimesCapital(SumPnl(trades), cfg.initialCapital); }
  }

  lemma EmptySums()
    ensures SumPnl([]) == SumRoi([]) == SumDays([]) == 0.0
  {
  }

  lemma AverageTimesCount(total: real, n: nat)
    ensures n > 0 ==> (total / n as real) * n as real == total
  {
  }

  lemma ReturnTimesCapital(total: real, capital: real)
    requires capital > 0.0
    ensures capital * (1.0 + total / capital * 100.0 / 100.0) == capital + total
  {
    var q := total / capital;
    assert q * 100.0 / 100.0 == q;
    assert capital * (1.0 + q) == capital + capital * q;
  }
}
