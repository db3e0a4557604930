/**
 Supertrend read off the candles themselves: the spreads, their average, the two bands and the trend of every bar, as
 rules relating one bar to the one before. The compute's rows are those of the one reading the rules allow.
 */
module SupertrendReading {
  import opened Candles
  import opened MovingAverages
  import opened Supertrend

  /** What a bar's reading holds: nothing yet, or the average range, both bands and the trend. */
  datatype Bar = Warming | Warmed(range: real, up: real, dn: real, trend: Trend)

  /** How far prices reached at a bar, from the previous close on. */
  ghost function Spread(s: seq<Candle>, i: nat): real
    requires i < |s|
  {
    if i == 0 then s[i].high - s[i].low
    else RealMax(s[i].high, s[i - 1].close) - RealMin(s[i].low, s[i - 1].close)
  }

  ghost function SpreadSum(s: seq<Candle>, lo: nat, hi: nat): real
    requires lo <= hi <= |s|
  {
    if lo == hi then 0.0 else SpreadSum(s, lo, hi - 1) + Spread(s, hi - 1)
  }

  ghost predicate Proper(s: seq<Candle>) {
    forall i :: 0 <= i < |s| ==> s[i].low <= s[i].high
  }

  ghost function BarBefore(bars: seq<Bar>, i: nat): Bar
    requires i <= |bars|
  {
    if i == 0 then Warming else bars[i - 1]
  }

  /**
   The average of the last `n` spreads, or under Wilder's method, past the first average, the average before it moved
   one `n`-th of the way to the newest spread.
   */
  ghost predicate Averages(s: seq<Candle>, i: nat, n: int, atrMethod: AtrMethod, was: Bar, range: real)
    requires i < |s| && 1 <= n <= i + 1
  {
    if atrMethod == Rma && was.Warmed? then n as real * (range - was.range) == Spread(s, i) - was.range
    else n as real * range == SpreadSum(s, i + 1 - n, i + 1)
  }

  /**
   The bands of a bar, `width` either side of its price: a band the previous close was beyond moves
   only towards the price.
   */
  ghost predicate BandsPlaced(price: real, width: real, closeBefore: real, was: Bar, now: Bar)
    requires now.Warmed?
  {
    && now.up == (if was.Warmed? && closeBefore > was.up then RealMax(price - width, was.up) else price - width)
    && now.dn == (if was.Warmed? && closeBefore < was.dn then RealMin(price + width, was.dn) else price + width)
  }

  /**
   The trend starts up. It turns down on a close below the up band and up on a close above the down band: the bands of
   the bar before, or on the first warmed bar its own.
   */
  ghost predicate TrendTurns(close: real, was: Bar, now: Bar)
    requires now.Warmed?
  {
    if was.Warming? then now.trend == if close < now.up then Down else Up
    else if was.trend == Up then now.trend == if close < was.up then Down else Up
    else now.trend == if close > was.dn then Up else Down
  }

  ghost function Width(inputs: Inputs, b: Bar): real
    requires b.Warmed?
  {
    inputs.multiplier * b.range
  }

  ghost function CloseBefore(s: seq<Candle>, i: nat): real
    requires i < |s|
  {
    if i == 0 then 0.0 else s[i - 1].close
  }

  ghost predicate BarFollows(s: seq<Candle>, i: nat, inputs: Inputs, price: Candle -> real, was: Bar, now: Bar)
    requires i < |s| && inputs.atrPeriod >= 1
  {
    if i + 1 < inputs.atrPeriod then now == Warming
    else
      && now.Warmed?
      && Averages(s, i, inputs.atrPeriod, inputs.atrMethod, was, now.range)
      && BandsPlaced(price(s[i]), Width(inputs, now), CloseBefore(s, i), was, now)
      && TrendTurns(s[i].close, was, now)
  }

  ghost predicate Reading(s: seq<Candle>, inputs: Inputs, price: Candle -> real, bars: seq<Bar>)
    requires inputs.atrPeriod >= 1
  {
    |bars| == |s| && forall i :: 0 <= i < |s| ==> BarFollows(s, i, inputs, price, BarBefore(bars, i), bars[i])
  }

  /** The row of a bar: the band of its trend, the trend, and a signal where the trend turned. */
  ghost function RowOf(time: int, was: Bar, now: Bar): Row {
    if now.Warming? then Row(time, map["value" := Null, "trend" := Null, "signal" := Null])
    else
      var trendBefore := if was.Warmed? then was.trend else Up;
      Row(time, map[
        "value" := Num(if now.trend == Up then now.up else now.dn),
        "trend" := Str(if now.trend == Up then "up" else "down"),
        "signal" := if now.trend == trendBefore then Null else if now.trend == Up then Str("buy") else Str("sell")])
  }

  // ---- spreads and averages ----

  lemma TrueRangeIsSpread(s: seq<Candle>, i: nat)
    requires i < |s| && s[i].low <= s[i].high
    ensures TrueRange(s, i) == Spread(s, i)
  {
  }

  lemma {:induction false} SumIsSpreads(s: seq<Candle>, lo: nat, hi: nat)
    requires lo <= hi <= |s| && Proper(s)
    ensures SumRange(s, lo, hi) == SpreadSum(s, lo, hi)
  {
    hide TrueRange, Spread;
    if lo < hi {
      SumIsSpreads(s, lo, hi - 1);
      TrueRangeIsSpread(s, hi - 1);
    }
  }

  /** The range before a bar, when there is one, is the average true range before it. */
  ghost predicate RangeIsAtr(s: seq<Candle>, i: nat, inputs: Inputs, was: Bar)
    requires i <= |s| && inputs.atrPeriod >= 1
  {
    && (was.Warmed? <==> i >= inputs.atrPeriod)
    && (was.Warmed? ==> Atr(s, i - 1, inputs.atrPeriod, inputs.atrMethod) == Some(was.range))
  }

  lemma AverageIsAtr(s: seq<Candle>, i: nat, inputs: Inputs, was: Bar, range: real)
    requires i < |s| && 1 <= inputs.atrPeriod <= i + 1 && Proper(s) && RangeIsAtr(s, i, inputs, was)
    ensures Averages(s, i, inputs.atrPeriod, inputs.atrMethod, was, range) <==>
              Atr(s, i, inputs.atrPeriod, inputs.atrMethod) == Some(range)
  {
    hide TrueRange, Spread, SumRange, SpreadSum, Mean, Wilder;
    var n := inputs.atrPeriod;
    SumIsSpreads(s, i + 1 - n, i + 1);
    TrueRangeIsSpread(s, i);
    MeanIs(SumRange(s, i + 1 - n, i + 1), n, range);
    if was.Warmed? { WilderIs(was.range, TrueRange(s, i), n, range); }
  }

  lemma MeanIs(sum: real, n: int, mean: real)
    requires n >= 1
    ensures n as real * mean == sum <==> Mean(sum, n) == mean
  {
    TimesBack(sum, n);
    OneQuotient(Mean(sum, n), mean, n as real);
  }

  lemma WilderIs(prev: real, range: real, n: int, next: real)
    requires n >= 1
    ensures n as real * (next - prev) == range - prev <==> Wilder(prev, range, n) == next
  {
    var k := n as real;
    assert prev * (n - 1) as real == prev * k - prev;
    assert k * (next - prev) == k * next - k * prev;
    TimesBack(prev * (n - 1) as real + range, n);
    OneQuotient(Wilder(prev, range, n), next, k);
  }

  lemma OneQuotient(a: real, b: real, k: real)
    requires k > 0.0
    ensures a * k == k * b <==> a == b
  {
    assert k * (a - b) == a * k - k * b;
    assert a != b ==> k * (a - b) != 0.0;
  }

  // ---- the recursion follows the rules ----

  /** What a bar of the reading hands on. */
  ghost function HandsOn(b: Bar): Carry {
    if b.Warming? then Carry(None, None, Up) else Carry(Some(b.up), Some(b.dn), b.trend)
  }

  lemma MoveCarries(candle: Candle, price: real, width: real, prevClose: Option<real>, closeBefore: real, was: Bar,
                    now: Bar)
    requires now.Warmed? && (was.Warmed? ==> prevClose == Some(closeBefore))
    requires BandsPlaced(price, width, closeBefore, was, now) && TrendTurns(candle.close, was, now)
    ensures Move(candle, price, width, prevClose, HandsOn(was)).1 == HandsOn(now)
  {
    hide Fields, TrendName, SignalFor;
  }

  /** A move's row is told by what it hands on. */
  lemma MoveShows(candle: Candle, price: real, width: real, prevClose: Option<real>, was: Bar, now: Bar)
    requires now.Warmed? && Move(candle, price, width, prevClose, HandsOn(was)).1 == HandsOn(now)
    ensures Move(candle, price, width, prevClose, HandsOn(was)).0 == RowOf(candle.time, was, now)
  {
    hide Turn;
    assert HandsOn(was).trend == if was.Warmed? then was.trend else Up;
  }

  lemma StepMoves(s: seq<Candle>, i: nat, inputs: Inputs, price: real, c: Carry, now: Bar)
    requires i < |s| && inputs.atrPeriod >= 1 && now.Warmed? && SourceOf(s[i], inputs.source) == price
    requires Atr(s, i, inputs.atrPeriod, inputs.atrMethod) == Some(now.range)
    ensures StepAt(s, i, inputs, c) == Move(s[i], price, Width(inputs, now), PrevClose(s, i), c)
  {
    WidthIs(inputs, now);
    hide Atr, SourceOf, Move, BandWidth;
  }

  lemma WidthIs(inputs: Inputs, b: Bar)
    requires b.Warmed?
    ensures BandWidth(inputs, b.range) == Width(inputs, b)
  {
  }

  /** One step of the recursion is the one bar the rules allow, and shows its row. */
  lemma StepFollows(s: seq<Candle>, i: nat, inputs: Inputs, price: Candle -> real, was: Bar, now: Bar)
    requires i < |s| && inputs.atrPeriod >= 1 && Proper(s) && RangeIsAtr(s, i, inputs, was)
    requires i + 1 >= inputs.atrPeriod ==> SourceOf(s[i], inputs.source) == price(s[i])
    requires BarFollows(s, i, inputs, price, was, now)
    ensures StepAt(s, i, inputs, HandsOn(was)) == (RowOf(s[i].time, was, now), HandsOn(now))
    ensures RangeIsAtr(s, i + 1, inputs, now)
  {
    hide Atr, Averages, SourceOf, Spread, SpreadSum, Proper, BandsPlaced, TrendTurns;
    if i + 1 >= inputs.atrPeriod {
      hide Move, RowOf, HandsOn, StepAt, Width;
      AverageIsAtr(s, i, inputs, was, now.range);
      StepMoves(s, i, inputs, price(s[i]), HandsOn(was), now);
      MoveCarries(s[i], price(s[i]), Width(inputs, now), PrevClose(s, i), CloseBefore(s, i), was, now);
      MoveShows(s[i], price(s[i]), Width(inputs, now), PrevClose(s, i), was, now);
    } else {
      NoAtr(s, i, inputs);
    }
  }

  lemma NoAtr(s: seq<Candle>, i: nat, inputs: Inputs)
    requires i < |s| && 1 <= i + 1 < inputs.atrPeriod
    ensures Atr(s, i, inputs.atrPeriod, inputs.atrMethod).None?
  {
  }

  lemma {:induction false} CarryFollows(s: seq<Candle>, i: nat, inputs: Inputs, price: Candle -> real, bars: seq<Bar>)
    requires i <= |s| && inputs.atrPeriod >= 1 && Proper(s) && Reading(s, inputs, price, bars)
    requires forall j :: 0 <= j < |s| && j + 1 >= inputs.atrPeriod ==> SourceOf(s[j], inputs.source) == price(s[j])
    ensures CarryInto(s, i, inputs) == HandsOn(BarBefore(bars, i)) && RangeIsAtr(s, i, inputs, BarBefore(bars, i))
  {
    hide StepAt, BarFollows, Atr, SourceOf, Proper;
    if i > 0 {
      CarryFollows(s, i - 1, inputs, price, bars);
      StepFollows(s, i - 1, inputs, price, BarBefore(bars, i - 1), bars[i - 1]);
    }
  }

  /** The one bar the rules allow after `was`. */
  ghost function NextBarOf(s: seq<Candle>, i: nat, inputs: Inputs, price: Candle -> real, was: Bar): Bar
    requires i < |s| && inputs.atrPeriod >= 1
  {
    var atr := Atr(s, i, inputs.atrPeriod, inputs.atrMethod);
    if atr.None? then Warming
    else
      var c, width := CloseBefore(s, i), inputs.multiplier * atr.value;
      var basicUp, basicDn := price(s[i]) - width, price(s[i]) + width;
      var up := if was.Warmed? && c > was.up then RealMax(basicUp, was.up) else basicUp;
      var dn := if was.Warmed? && c < was.dn then RealMin(basicDn, was.dn) else basicDn;
      var trend := if was.Warming? then (if s[i].close < up then Down else Up)
                   else if was.trend == Up then (if s[i].close < was.up then Down else Up)
                   else if s[i].close > was.dn then Up else Down;
      Warmed(atr.value, up, dn, trend)
  }

  lemma NextBarFollows(s: seq<Candle>, i: nat, inputs: Inputs, price: Candle -> real, was: Bar)
    requires i < |s| && inputs.atrPeriod >= 1 && Proper(s) && RangeIsAtr(s, i, inputs, was)
    ensures BarFollows(s, i, inputs, price, was, NextBarOf(s, i, inputs, price, was))
    ensures RangeIsAtr(s, i + 1, inputs, NextBarOf(s, i, inputs, price, was))
  {
    hide Averages, Spread, SpreadSum, Proper, TrueRange, SumRange, Mean, Wilder;
    var atr := Atr(s, i, inputs.atrPeriod, inputs.atrMethod);
    if atr.Some? { AverageIsAtr(s, i, inputs, was, atr.value); }
  }

  lemma {:induction false} ReadPrefix(s: seq<Candle>, inputs: Inputs, price: Candle -> real, n: nat)
    returns (bars: seq<Bar>)
    requires inputs.atrPeriod >= 1 && Proper(s) && n <= |s|
    ensures |bars| == n && RangeIsAtr(s, n, inputs, BarBefore(bars, n))
    ensures forall i :: 0 <= i < n ==> BarFollows(s, i, inputs, price, BarBefore(bars, i), bars[i])
  {
    hide BarFollows, Atr, Proper, NextBarOf;
    if n == 0 {
      bars := [];
    } else {
      var front := ReadPrefix(s, inputs, price, n - 1);
      var was := BarBefore(front, n - 1);
      NextBarFollows(s, n - 1, inputs, price, was);
      bars := front + [NextBarOf(s, n - 1, inputs, price, was)];
      forall i | 0 <= i < n ensures BarFollows(s, i, inputs, price, BarBefore(bars, i), bars[i]) {
        assert i < n - 1 ==> BarBefore(bars, i) == BarBefore(front, i);
      }
    }
  }

  // ---- the compute is the reading ----

  /** Every series of candles has a reading. */
  lemma ReadingExists(s: seq<Candle>, inputs: Inputs, price: Candle -> real) returns (bars: seq<Bar>)
    requires inputs.atrPeriod >= 1 && Proper(s)
    ensures Reading(s, inputs, price, bars)
  {
    hide BarFollows;
    bars := ReadPrefix(s, inputs, price, |s|);
  }

  /**
   The compute throws exactly when a warmed bar's volume is asked for and it has none; otherwise its rows are those of
   any reading of the candles.
   */
  lemma RowsAreTheReading(s: seq<Candle>, inputs: Inputs, price: Candle -> real, bars: seq<Bar>)
    requires inputs.atrPeriod >= 1 && Proper(s) && ReadsAs(inputs.source, price) && Reading(s, inputs, price, bars)
    ensures SupertrendCompute(s, inputs).Throws? <==>
              inputs.source.Volume? && exists i :: 0 <= i < |s| && i + 1 >= inputs.atrPeriod && s[i].FxCandle?
    ensures SupertrendCompute(s, inputs).Rows? ==>
              var rows := SupertrendCompute(s, inputs).rows;
              |rows| == |s| && forall i :: 0 <= i < |s| ==> rows[i] == RowOf(s[i].time, BarBefore(bars, i), bars[i])
  {
    hide ResolveSource, Reading, Proper, StepAt, RangeIsAtr, BarFollows;
    forall i | 0 <= i < |s|
      ensures ResolveSource(s[i], inputs.source).None? <==> inputs.source.Volume? && s[i].FxCandle?
    {
    }
    if SupertrendCompute(s, inputs).Rows? {
      ReadingLength(s, inputs, price, bars);
      forall i | 0 <= i < |s| ensures SupertrendRow(s, i, inputs) == RowOf(s[i].time, BarBefore(bars, i), bars[i]) {
        RowFollows(s, i, inputs, price, bars);
      }
    }
  }

  lemma ReadingLength(s: seq<Candle>, inputs: Inputs, price: Candle -> real, bars: seq<Bar>)
    requires inputs.atrPeriod >= 1 && Reading(s, inputs, price, bars)
    ensures |bars| == |s|
  {
  }

  lemma RowFollows(s: seq<Candle>, i: nat, inputs: Inputs, price: Candle -> real, bars: seq<Bar>)
    requires i < |s| && inputs.atrPeriod >= 1 && Proper(s) && Reading(s, inputs, price, bars)
    requires forall j :: 0 <= j < |s| && j + 1 >= inputs.atrPeriod ==> SourceOf(s[j], inputs.source) == price(s[j])
    ensures SupertrendRow(s, i, inputs) == RowOf(s[i].time, BarBefore(bars, i), bars[i])
  {
    hide StepAt, BarFollows, Atr, SourceOf, Proper, RowOf;
    CarryFollows(s, i, inputs, price, bars);
    StepFollows(s, i, inputs, price, BarBefore(bars, i), bars[i]);
  }
}
