/** The two windowed indicators: the simple moving average, and the volume-weighted one with its crossover signal. */
module MovingAverages {
  import opened Candles

  datatype PriceSource = Open | High | Low | Close | HL2 | HLC3 | OHLC4 | Volume

  /** `resolveSource`; `None` is its thrown error: volume requested of an FX candle. */
  function ResolveSource(c: Candle, source: PriceSource): Option<real> {
    match source
    case Open => Some(c.open)
    case High => Some(c.high)
    case Low => Some(c.low)
    case Close => Some(c.close)
    case HL2 => Some((c.high + c.low) / 2.0)
    case HLC3 => Some((c.high + c.low + c.close) / 3.0)
    case OHLC4 => Some((c.open + c.high + c.low + c.close) / 4.0)
    case Volume => if c.FxCandle? then None else Some(c.volume)
  }

  /** The resolved source; the value for a candle that does not resolve is never used. */
  function SourceOf(c: Candle, source: PriceSource): real {
    var v := ResolveSource(c, source);
    if v.Some? then v.value else 0.0
  }

  /** A state field's value in a computed row. `Infinite` is the quotient of a nonzero number by zero. */
  datatype Raw = Null | Num(n: real) | Infinite | Str(s: string) | Flag(b: bool)

  datatype Row = Row(time: int, fields: map<string, Raw>)

  datatype ComputeResult = Rows(rows: seq<Row>) | Throws

  function Nullable(v: Option<real>): Raw {
    if v.Some? then Num(v.value) else Null
  }

  /** The weighted sum of the window `[lo, hi)`. */
  function WindowSum(s: seq<Candle>, lo: nat, hi: nat, weigh: Candle -> real): real
    requires lo <= hi <= |s|
  {
    if lo == hi then 0.0 else WindowSum(s, lo, hi - 1, weigh) + weigh(s[hi - 1])
  }

  lemma {:induction false} WindowSumSlice(s: seq<Candle>, b: nat, e: nat, lo: nat, hi: nat, weigh: Candle -> real)
    requires b <= lo <= hi <= e <= |s|
    ensures WindowSum(s[b..e], lo - b, hi - b, weigh) == WindowSum(s, lo, hi, weigh)
  {
    if lo < hi { WindowSumSlice(s, b, e, lo, hi - 1, weigh); }
  }

  // ---- simple moving average ----

  function SourceWeight(source: PriceSource): Candle -> real {
    (c: Candle) => SourceOf(c, source)
  }

  function SmaValue(s: seq<Candle>, i: nat, length: int, source: PriceSource): Option<real>
    requires i < |s| && length >= 1
  {
    if i + 1 < length then None
    else Some(WindowSum(s, i + 1 - length, i + 1, SourceWeight(source)) / length as real)
  }

  function SmaRow(s: seq<Candle>, i: nat, length: int, source: PriceSource): Row
    requires i < |s| && length >= 1
  {
    Row(s[i].time, map["value" := Nullable(SmaValue(s, i, length, source))])
  }

  predicate Unresolvable(s: seq<Candle>, source: PriceSource) {
    exists i :: 0 <= i < |s| && ResolveSource(s[i], source).None?
  }

  function SmaCompute(s: seq<Candle>, length: int, source: PriceSource): ComputeResult
    requires length >= 1
  {
    if |s| >= length && Unresolvable(s, source) then Throws
    else Rows(seq(|s|, i requires 0 <= i < |s| => SmaRow(s, i, length, source)))
  }

  /** The inner loop: the window ending at `i`, summed, or the error of the first candle that does not resolve. */
  method SumSource(s: seq<Candle>, i: nat, length: int, source: PriceSource) returns (sum: Option<real>)
    requires length >= 1 && length - 1 <= i < |s|
    ensures sum.None? ==> Unresolvable(s, source)
    ensures sum.Some? ==> sum.value == WindowSum(s, i + 1 - length, i + 1, SourceWeight(source))
    ensures sum.Some? ==> forall j :: i + 1 - length <= j <= i ==> ResolveSource(s[j], source).Some?
  {
    var total := 0.0;
    var j := i - length + 1;
    while j <= i
      invariant i - length + 1 <= j <= i + 1
      invariant total == WindowSum(s, i + 1 - length, j, SourceWeight(source))
      invariant forall m :: i + 1 - length <= m < j ==> ResolveSource(s[m], source).Some?
    {
      var v := ResolveSource(s[j], source);
      if v.None? { return None; }
      total := total + v.value;
      j := j + 1;
    }
    return Some(total);
  }

  /** `movingAverage.compute`. */
  method ComputeSma(s: seq<Candle>, length: int, source: PriceSource) returns (r: ComputeResult)
    requires length >= 1
    ensures r == SmaCompute(s, length, source)
  {
    var rows: seq<Row> := [];
    var i := 0;
    while i < |s|
      invariant 0 <= i <= |s|
      invariant rows == seq(i, j requires 0 <= j < i => SmaRow(s, j, length, source))
      invariant i >= length ==> forall j :: 0 <= j < i ==> ResolveSource(s[j], source).Some?
    {
      if i + 1 < length {
        rows := rows + [Row(s[i].time, map["value" := Null])];
      } else {
        var sum := SumSource(s, i, length, source);
        if sum.None? { return Throws; }
        rows := rows + [Row(s[i].time, map["value" := Num(sum.value / length as real)])];
      }
      i := i + 1;
    }
    r := Rows(rows);
  }

  // ---- volume-weighted moving average ----

  datatype Direction = LongOnly | Both

  function WeightedSource(source: PriceSource): Candle -> real {
    (c: Candle) => SourceOf(c, source) * SourceOf(c, Volume)
  }

  /** The line: volume-weighted mean of the window, or nothing during warm-up or without volume. */
  function VwmaValue(s: seq<Candle>, i: nat, length: int, source: PriceSource): Option<real>
    requires i < |s| && length >= 1
  {
    if i + 1 < length then None
    else
      var volume := WindowSum(s, i + 1 - length, i + 1, SourceWeight(Volume));
      if volume > 0.0 then Some(WindowSum(s, i + 1 - length, i + 1, WeightedSource(source)) / volume) else None
  }

  function Abs(x: real): real { if x < 0.0 then -x else x }

  /** `Math.abs(curr - value) / value`; `None` when the line is zero, which no threshold comparison rejects. */
  function Deviation(curr: real, value: real): Option<real> {
    if value == 0.0 then None else Some(Abs(curr - value) / value)
  }

  datatype Cross = Buy | Sell | NoCross

  /** The crossover at one bar, given the source and line there and one bar back. */
  function CrossAt(curr: real, value: real, prev: real, prevValue: real, direction: Direction): Cross {
    if curr > value && prev <= prevValue then Buy
    else if curr < value && prev >= prevValue && direction.Both? then Sell
    else NoCross
  }

  function VwmaFields(value: Raw, signal: Raw, confidence: Raw, above: Raw): map<string, Raw> {
    map["value" := value, "signal" := signal, "confidence" := confidence, "above" := above]
  }

  /** One row from the line at a bar, the line one bar back, and the two source values. */
  function VwmaFieldsAt(value: Option<real>, prevValue: Option<real>, curr: real, prev: real,
                        multiplier: real, direction: Direction): map<string, Raw> {
    if value.None? then VwmaFields(Null, Null, Null, Null)
    else
      var above := Flag(curr > value.value);
      if prevValue.None? then VwmaFields(Num(value.value), Null, Null, above)
      else
        var deviation := Deviation(curr, value.value);
        if deviation.Some? && deviation.value < multiplier * 0.001 then VwmaFields(Num(value.value), Null, Null, above)
        else
          match CrossAt(curr, value.value, prev, prevValue.value, direction)
          case NoCross => VwmaFields(Num(value.value), Null, Null, above)
          case Buy => VwmaFields(Num(value.value), Str("buy"), if deviation.Some? then Num(deviation.value)
                                                                 else Infinite, above)
          case Sell => VwmaFields(Num(value.value), Str("sell"), if deviation.Some? then Num(deviation.value)
                                                                   else Infinite, above)
  }

  function VwmaRow(s: seq<Candle>, i: nat, length: int, source: PriceSource, multiplier: real,
                   direction: Direction): Row
    requires i < |s| && length >= 1
  {
    var prevValue := if i > 0 then VwmaValue(s, i - 1, length, source) else None;
    var prev := if i > 0 then SourceOf(s[i - 1], source) else 0.0;
    Row(s[i].time, VwmaFieldsAt(VwmaValue(s, i, length, source), prevValue, SourceOf(s[i], source), prev, multiplier,
                                direction))
  }

  function VwmaCompute(s: seq<Candle>, length: int, source: PriceSource, multiplier: real,
                       direction: Direction): ComputeResult
    requires length >= 1
  {
    if |s| >= length && (Unresolvable(s, source) || Unresolvable(s, Volume)) then Throws
    else Rows(seq(|s|, i requires 0 <= i < |s| => VwmaRow(s, i, length, source, multiplier, direction)))
  }

  /**
   The inner loop: the window's weighted sum and its volume, or the error of the first candle that does not resolve.
   */
  method SumWeighted(s: seq<Candle>, i: nat, length: int, source: PriceSource) returns (sums: Option<(real, real)>)
    requires length >= 1 && length - 1 <= i < |s|
    ensures sums.None? ==> Unresolvable(s, source) || Unresolvable(s, Volume)
    ensures sums.Some? ==>
              && sums.value.0 == WindowSum(s, i + 1 - length, i + 1, WeightedSource(source))
              && sums.value.1 == WindowSum(s, i + 1 - length, i + 1, SourceWeight(Volume))
    ensures sums.Some? ==> forall j :: i + 1 - length <= j <= i ==>
              ResolveSource(s[j], source).Some? && ResolveSource(s[j], Volume).Some?
  {
    var weightedSum, volumeSum := 0.0, 0.0;
    var j := i - length + 1;
    while j <= i
      invariant i - length + 1 <= j <= i + 1
      invariant weightedSum == WindowSum(s, i + 1 - length, j, WeightedSource(source))
      invariant volumeSum == WindowSum(s, i + 1 - length, j, SourceWeight(Volume))
      invariant forall m :: i + 1 - length <= m < j ==>
                  ResolveSource(s[m], source).Some? && ResolveSource(s[m], Volume).Some?
    {
      var price, volume := ResolveSource(s[j], source), ResolveSource(s[j], Volume);
      if price.None? || volume.None? { return None; }
      weightedSum := weightedSum + price.value * volume.value;
      volumeSum := volumeSum + volume.value;
      j := j + 1;
    }
    return Some((weightedSum, volumeSum));
  }

  /** The first pass: the line at every bar, or the error of a candle that does not resolve. */
  method VwmaLine(s: seq<Candle>, length: int, source: PriceSource) returns (values: Option<seq<Option<real>>>)
    requires length >= 1
    ensures values.None? <==> |s| >= length && (Unresolvable(s, source) || Unresolvable(s, Volume))
    ensures values.Some? ==> |values.value| == |s| && forall i :: 0 <= i < |s| ==>
                                                        values.value[i] == VwmaValue(s, i, length, source)
  {
    var line: seq<Option<real>> := [];
    var i := 0;
    while i < |s|
      invariant 0 <= i <= |s| && |line| == i
      invariant forall j :: 0 <= j < i ==> line[j] == VwmaValue(s, j, length, source)
      invariant i >= length ==> forall j :: 0 <= j < i ==>
                                  ResolveSource(s[j], source).Some? && ResolveSource(s[j], Volume).Some?
    {
      if i + 1 < length {
        line := line + [None];
      } else {
        var sums := SumWeighted(s, i, length, source);
        if sums.None? { return None; }
        line := line + [if sums.value.1 > 0.0 then Some(sums.value.0 / sums.value.1) else None];
      }
      i := i + 1;
    }
    values := Some(line);
  }

  /** `volumeWeightedMovingAverage.compute`: the line, then signals and confidence looking only backward. */
  method ComputeVwma(s: seq<Candle>, length: int, source: PriceSource, multiplier: real, direction: Direction)
    returns (r: ComputeResult)
    requires length >= 1
    ensures r == VwmaCompute(s, length, source, multiplier, direction)
  {
    var values := VwmaLine(s, length, source);
    if values.None? { return Throws; }
    var rows: seq<Row> := [];
    for i := 0 to |s|
      invariant rows == seq(i, j requires 0 <= j < i => VwmaRow(s, j, length, source, multiplier, direction))
    {
      var value := values.value[i];
      var prevValue := if i > 0 then values.value[i - 1] else None;
      var prev := if i > 0 then SourceOf(s[i - 1], source) else 0.0;
      rows := rows + [Row(s[i].time,
                          VwmaFieldsAt(value, prevValue, SourceOf(s[i], source), prev, multiplier, direction))];
    }
    r := Rows(rows);
  }

  // ---- locality ----

  /** A moving-average row needs no more than its own window: `length - 1` earlier candles, or all there are. */
  lemma SmaLocal(s: seq<Candle>, b: nat, e: nat, i: nat, length: int, source: PriceSource)
    requires length >= 1 && b <= i < e <= |s|
    requires b == 0 || i + 1 - length >= b
    ensures SmaRow(s[b..e], i - b, length, source) == SmaRow(s, i, length, source)
  {
    if i + 1 >= length {
      WindowSumSlice(s, b, e, i + 1 - length, i + 1, SourceWeight(source));
    }
  }

  lemma VwmaValueLocal(s: seq<Candle>, b: nat, e: nat, i: nat, length: int, source: PriceSource)
    requires length >= 1 && b <= i < e <= |s|
    requires b == 0 || i + 1 - length >= b
    ensures VwmaValue(s[b..e], i - b, length, source) == VwmaValue(s, i, length, source)
  {
    if i + 1 >= length {
      WindowSumSlice(s, b, e, i + 1 - length, i + 1, SourceWeight(Volume));
      WindowSumSlice(s, b, e, i + 1 - length, i + 1, WeightedSource(source));
    }
  }

  /** A volume-weighted row also looks at the bar before: `length` earlier candles, or all there are. */
  lemma VwmaLocal(s: seq<Candle>, b: nat, e: nat, i: nat, length: int, source: PriceSource, multiplier: real,
                  direction: Direction)
    requires length >= 1 && b <= i < e <= |s|
    requires b == 0 || i - length >= b
    ensures VwmaRow(s[b..e], i - b, length, source, multiplier, direction)
            == VwmaRow(s, i, length, source, multiplier, direction)
  {
    hide VwmaValue;
    VwmaValueLocal(s, b, e, i, length, source);
    if i > b {
      VwmaValueLocal(s, b, e, i - 1, length, source);
    }
  }

  /** Adding one weighted term keeps `c * total <= weighted`. */
  lemma AddAtLeast(c: real, price: real, volume: real, total: real, weighted: real)
    requires c <= price && volume >= 0.0 && c * total <= weighted
    ensures c * (total + volume) <= weighted + price * volume
  {
    assert c * (total + volume) == c * total + c * volume;
    assert (price - c) * volume >= 0.0;
  }

  lemma AddAtMost(c: real, price: real, volume: real, total: real, weighted: real)
    requires price <= c && volume >= 0.0 && weighted <= c * total
    ensures weighted + price * volume <= c * (total + volume)
  {
    assert c * (total + volume) == c * total + c * volume;
    assert (c - price) * volume >= 0.0;
  }

  lemma WindowSumStep(s: seq<Candle>, lo: nat, hi: nat, source: PriceSource)
    requires lo < hi <= |s|
    ensures WindowSum(s, lo, hi, SourceWeight(Volume))
         == WindowSum(s, lo, hi - 1, SourceWeight(Volume)) + SourceOf(s[hi - 1], Volume)
    ensures WindowSum(s, lo, hi, WeightedSource(source))
         == WindowSum(s, lo, hi - 1, WeightedSource(source)) + SourceOf(s[hi - 1], source) * SourceOf(s[hi - 1], Volume)
  {
  }

  /** A weighted sum between its extremes times its total weight. */
  ghost predicate Bounded(least: real, most: real, total: real, weighted: real) {
    least * total <= weighted <= most * total
  }

  lemma BoundedTerm(least: real, most: real, total: real, weighted: real, price: real, volume: real, total': real,
                    weighted': real)
    requires Bounded(least, most, total, weighted) && least <= price <= most && volume >= 0.0
    requires total' == total + volume && weighted' == weighted + price * volume
    ensures Bounded(least, most, total', weighted')
  {
    AddAtLeast(least, price, volume, total, weighted);
    AddAtMost(most, price, volume, total, weighted);
  }

  lemma EmptyWindow(s: seq<Candle>, lo: nat, weigh: Candle -> real)
    requires lo <= |s|
    ensures WindowSum(s, lo, lo, weigh) == 0.0
  {
  }

  lemma BoundedEmpty(least: real, most: real, total: real, weighted: real)
    requires total == weighted == 0.0
    ensures Bounded(least, most, total, weighted)
  {
  }

  /** A window's weighted sum lies between its extremes times its volume. */
  lemma {:induction false} WeightedSumBounds(s: seq<Candle>, lo: nat, hi: nat, source: PriceSource, least: real,
                                             most: real)
    requires lo <= hi <= |s|
    requires forall j :: lo <= j < hi ==> least <= SourceOf(s[j], source) <= most && SourceOf(s[j], Volume) >= 0.0
    ensures Bounded(least, most, WindowSum(s, lo, hi, SourceWeight(Volume)),
                    WindowSum(s, lo, hi, WeightedSource(source)))
  {
    hide *;
    if lo == hi {
      EmptyWindow(s, lo, SourceWeight(Volume));
      EmptyWindow(s, lo, WeightedSource(source));
      BoundedEmpty(least, most, WindowSum(s, lo, hi, SourceWeight(Volume)),
                   WindowSum(s, lo, hi, WeightedSource(source)));
    } else {
      WeightedSumBounds(s, lo, hi - 1, source, least, most);
      WindowSumStep(s, lo, hi, source);
      BoundedTerm(least, most, WindowSum(s, lo, hi - 1, SourceWeight(Volume)),
                  WindowSum(s, lo, hi - 1, WeightedSource(source)),
                  SourceOf(s[hi - 1], source), SourceOf(s[hi - 1], Volume),
                  WindowSum(s, lo, hi, SourceWeight(Volume)), WindowSum(s, lo, hi, WeightedSource(source)));
    }
  }

  /** With non-negative volumes the line is a weighted mean: it stays inside the range of its window's source values. */
  lemma VwmaIsWeightedMean(s: seq<Candle>, i: nat, length: int, source: PriceSource, least: real, most: real)
    requires length >= 1 && length - 1 <= i < |s|
    requires forall j :: i + 1 - length <= j <= i ==>
               least <= SourceOf(s[j], source) <= most && SourceOf(s[j], Volume) >= 0.0
    requires VwmaValue(s, i, length, source).Some?
    ensures least <= VwmaValue(s, i, length, source).value <= most
  {
    hide WindowSum, SourceOf, Bounded;
    WeightedSumBounds(s, i + 1 - length, i + 1, source, least, most);
    QuotientBounds(WindowSum(s, i + 1 - length, i + 1, WeightedSource(source)),
                   WindowSum(s, i + 1 - length, i + 1, SourceWeight(Volume)), least, most);
  }

  lemma QuotientBounds(a: real, b: real, least: real, most: real)
    requires b > 0.0 && Bounded(least, most, b, a)
    ensures least <= a / b <= most
  {
    var q := a / b;
    assert q * b == a;
    assert q < least ==> q * b < least * b;
    assert q > most ==> q * b > most * b;
  }

  // ---- what the averages and the signal mean ----

  lemma {:induction false} WindowSumFront(s: seq<Candle>, lo: nat, hi: nat, weigh: Candle -> real)
    requires lo < hi <= |s|
    ensures WindowSum(s, lo, hi, weigh) == weigh(s[lo]) + WindowSum(s, lo + 1, hi, weigh)
  {
    if lo + 1 < hi {
      WindowSumFront(s, lo, hi - 1, weigh);
    } else {
      EmptyWindow(s, lo, weigh);
      EmptyWindow(s, hi, weigh);
    }
  }

  lemma {:induction false} PlainSumBounds(s: seq<Candle>, lo: nat, hi: nat, source: PriceSource, least: real,
                                          most: real)
    requires lo <= hi <= |s|
    requires forall j :: lo <= j < hi ==> least <= SourceOf(s[j], source) <= most
    ensures Bounded(least, most, (hi - lo) as real, WindowSum(s, lo, hi, SourceWeight(source)))
  {
    hide *;
    if lo == hi {
      EmptyWindow(s, lo, SourceWeight(source));
      BoundedEmpty(least, most, (hi - lo) as real, WindowSum(s, lo, hi, SourceWeight(source)));
    } else {
      PlainSumBounds(s, lo, hi - 1, source, least, most);
      PlainSumStep(s, lo, hi, source);
      BoundedTerm(least, most, (hi - 1 - lo) as real, WindowSum(s, lo, hi - 1, SourceWeight(source)),
                  SourceOf(s[hi - 1], source), 1.0,
                  (hi - lo) as real, WindowSum(s, lo, hi, SourceWeight(source)));
    }
  }

  lemma PlainSumStep(s: seq<Candle>, lo: nat, hi: nat, source: PriceSource)
    requires lo < hi <= |s|
    ensures WindowSum(s, lo, hi, SourceWeight(source))
         == WindowSum(s, lo, hi - 1, SourceWeight(source)) + SourceOf(s[hi - 1], source) * 1.0
    ensures (hi - lo) as real == (hi - 1 - lo) as real + 1.0
  {
  }

  /** The moving average stays inside the range of its window's source values. */
  lemma SmaWithinExtremes(s: seq<Candle>, i: nat, length: int, source: PriceSource, least: real, most: real)
    requires length >= 1 && length - 1 <= i < |s|
    requires forall j :: i + 1 - length <= j <= i ==> least <= SourceOf(s[j], source) <= most
    ensures SmaValue(s, i, length, source).Some? && least <= SmaValue(s, i, length, source).value <= most
  {
    hide WindowSum, SourceOf, Bounded;
    PlainSumBounds(s, i + 1 - length, i + 1, source, least, most);
    QuotientBounds(WindowSum(s, i + 1 - length, i + 1, SourceWeight(source)), length as real, least, most);
  }

  /** Sliding the window one bar adds the new source value and drops the oldest. */
  lemma SmaSlides(s: seq<Candle>, i: nat, length: int, source: PriceSource)
    requires length >= 1 && length - 1 <= i && i + 1 < |s|
    ensures SmaValue(s, i, length, source).Some? && SmaValue(s, i + 1, length, source).Some?
    ensures SmaValue(s, i + 1, length, source).value * length as real
         == SmaValue(s, i, length, source).value * length as real
             + SourceOf(s[i + 1], source) - SourceOf(s[i + 1 - length], source)
  {
    hide SourceOf;
    var lo := i + 1 - length;
    WindowSumFront(s, lo, i + 2, SourceWeight(source));
    TimesBack(WindowSum(s, lo, i + 1, SourceWeight(source)), length);
    TimesBack(WindowSum(s, lo + 1, i + 2, SourceWeight(source)), length);
  }

  lemma TimesBack(sum: real, n: int)
    requires n >= 1
    ensures sum / n as real * n as real == sum
  {
  }

  // ---- which price a selector reads ----

  /** A selector reads `price` off every candle, except that volume cannot be read off an FX candle. */
  ghost predicate ReadsAs(source: PriceSource, price: Candle -> real) {
    forall c :: ResolveSource(c, source) == if source.Volume? && c.FxCandle? then None else Some(price(c))
  }

  /** The eight selectors: the four prices, their three averages, and the volume. */
  lemma Selectors()
    ensures ReadsAs(Open, (c: Candle) => c.open) && ReadsAs(High, (c: Candle) => c.high)
    ensures ReadsAs(Low, (c: Candle) => c.low) && ReadsAs(Close, (c: Candle) => c.close)
    ensures ReadsAs(HL2, (c: Candle) => (c.high + c.low) / 2.0)
    ensures ReadsAs(HLC3, (c: Candle) => (c.high + c.low + c.close) / 3.0)
    ensures ReadsAs(OHLC4, (c: Candle) => (c.open + c.high + c.low + c.close) / 4.0)
    ensures ReadsAs(Volume, (c: Candle) => if c.FxCandle? then 0.0 else c.volume)
  {
  }

  /** A one-bar average is the price selected, read off the candle's own fields; only an FX candle's volume throws. */
  lemma OneBarAverages(c: Candle)
    ensures var row := (price: real) => Rows([Row(c.time, map["value" := Num(price)])]);
            && SmaCompute([c], 1, Open) == row(c.open) && SmaCompute([c], 1, High) == row(c.high)
            && SmaCompute([c], 1, Low) == row(c.low) && SmaCompute([c], 1, Close) == row(c.close)
            && SmaCompute([c], 1, HL2) == row((c.high + c.low) / 2.0)
            && SmaCompute([c], 1, HLC3) == row((c.high + c.low + c.close) / 3.0)
            && SmaCompute([c], 1, OHLC4) == row((c.open + c.high + c.low + c.close) / 4.0)
            && SmaCompute([c], 1, Volume) == if c.FxCandle? then Throws else row(c.volume)
  {
    forall source: PriceSource
      ensures ResolveSource(c, source).None? ==> SmaCompute([c], 1, source) == Throws
      ensures ResolveSource(c, source).Some? ==>
                SmaCompute([c], 1, source) == Rows([Row(c.time, map["value" := Num(ResolveSource(c, source).value)])])
    {
      OneBar(c, source);
    }
  }

  lemma OneBar(c: Candle, source: PriceSource)
    ensures SmaCompute([c], 1, source)
         == if ResolveSource(c, source).None? then Throws
            else Rows([Row(c.time, map["value" := Num(ResolveSource(c, source).value)])])
  {
    hide ResolveSource;
    var s := [c];
    assert s[0] == c;
    assert WindowSum(s, 0, 1, SourceWeight(source)) == WindowSum(s, 0, 0, SourceWeight(source)) + SourceOf(c, source);
    assert SmaValue(s, 0, 1, source) == Some(SourceOf(c, source));
  }

  lemma {:induction false} WindowSumSame(s: seq<Candle>, lo: nat, hi: nat, f: Candle -> real, g: Candle -> real)
    requires lo <= hi <= |s| && forall j :: lo <= j < hi ==> f(s[j]) == g(s[j])
    ensures WindowSum(s, lo, hi, f) == WindowSum(s, lo, hi, g)
  {
    if lo < hi { WindowSumSame(s, lo, hi - 1, f, g); }
  }

  /** Some candle's volume is asked for and it has none. */
  ghost predicate AsksFxVolume(s: seq<Candle>, asks: bool) {
    asks && exists i :: 0 <= i < |s| && s[i].FxCandle?
  }

  /** The mean of a price over the window ending at a bar; nothing before there is a whole window. */
  ghost function MeanOf(s: seq<Candle>, i: nat, length: int, price: Candle -> real): Raw
    requires i < |s| && length >= 1
  {
    if i + 1 < length then Null else Num(WindowSum(s, i + 1 - length, i + 1, price) / length as real)
  }

  /** The moving average of a price: each row is the mean over its window, null before there is one. */
  lemma SmaIsWindowMean(s: seq<Candle>, length: int, source: PriceSource, price: Candle -> real)
    requires length >= 1 && ReadsAs(source, price)
    ensures SmaCompute(s, length, source).Throws? <==> |s| >= length && AsksFxVolume(s, source.Volume?)
    ensures SmaCompute(s, length, source).Rows? ==>
              var rows := SmaCompute(s, length, source).rows;
              && |rows| == |s|
              && forall i :: 0 <= i < |s| ==> rows[i] == Row(s[i].time, map["value" := MeanOf(s, i, length, price)])
  {
    hide SmaRow, MeanOf, SourceOf, ReadsAs, Unresolvable, AsksFxVolume;
    Unresolved(s, source, price);
    if SmaCompute(s, length, source).Rows? {
      forall i | 0 <= i < |s|
        ensures SmaRow(s, i, length, source) == Row(s[i].time, map["value" := MeanOf(s, i, length, price)])
      {
        SmaRowIs(s, i, length, source, price);
      }
    }
  }

  lemma SmaRowIs(s: seq<Candle>, i: nat, length: int, source: PriceSource, price: Candle -> real)
    requires i < |s| && length >= 1
    requires |s| >= length ==> forall j :: 0 <= j < |s| ==> SourceOf(s[j], source) == price(s[j])
    ensures SmaRow(s, i, length, source) == Row(s[i].time, map["value" := MeanOf(s, i, length, price)])
  {
    hide WindowSum, SourceOf;
    if i + 1 >= length { WindowSumSame(s, i + 1 - length, i + 1, SourceWeight(source), price); }
  }

  lemma Unresolved(s: seq<Candle>, source: PriceSource, price: Candle -> real)
    requires ReadsAs(source, price)
    ensures Unresolvable(s, source) <==> AsksFxVolume(s, source.Volume?)
    ensures !Unresolvable(s, source) ==> forall i :: 0 <= i < |s| ==> SourceOf(s[i], source) == price(s[i])
  {
    hide ResolveSource;
    forall i | 0 <= i < |s| ensures ResolveSource(s[i], source).None? <==> source.Volume? && s[i].FxCandle? {
    }
  }

  function FieldOf(row: Row, key: string): Raw {
    if key in row.fields then row.fields[key] else Null
  }

  /** The line at a bar from the candles' own prices and volumes: nothing before a whole window, or without volume. */
  ghost function LineOf(s: seq<Candle>, i: nat, length: int, price: Candle -> real, volume: Candle -> real): (r: Raw)
    requires i < |s| && length >= 1
    ensures r.Null? || r.Num?
  {
    if i + 1 < length then Null
    else
      var traded := WindowSum(s, i + 1 - length, i + 1, volume);
      if traded > 0.0 then Num(WindowSum(s, i + 1 - length, i + 1, (c: Candle) => price(c) * volume(c)) / traded)
          else Null
  }

  /** The volume-weighted average of a price, and on which side of it each bar's price lies. */
  lemma VwmaIsWindowMean(s: seq<Candle>, length: int, source: PriceSource, multiplier: real, direction: Direction,
                         price: Candle -> real, volume: Candle -> real)
    requires length >= 1 && ReadsAs(source, price) && ReadsAs(Volume, volume)
    ensures VwmaCompute(s, length, source, multiplier, direction).Throws? <==> |s| >= length && AsksFxVolume(s, true)
    ensures VwmaCompute(s, length, source, multiplier, direction).Rows? ==>
              var rows := VwmaCompute(s, length, source, multiplier, direction).rows;
              && |rows| == |s|
              && forall i :: 0 <= i < |s| ==> VwmaRowShows(rows[i], s[i], LineOf(s, i, length, price, volume), price)
  {
    hide VwmaRow, LineOf, SourceOf, ReadsAs, Unresolvable, AsksFxVolume, FieldOf;
    Unresolved(s, source, price);
    Unresolved(s, Volume, volume);
    FxVolumes(s, source);
    if VwmaCompute(s, length, source, multiplier, direction).Rows? {
      forall i | 0 <= i < |s|
        ensures VwmaRowShows(VwmaRow(s, i, length, source, multiplier, direction), s[i],
                             LineOf(s, i, length, price, volume), price)
      {
        LineIs(s, i, length, source, price, volume);
        VwmaRowIs(s, i, length, source, multiplier, direction, price, volume);
      }
    }
  }

  lemma FxVolumes(s: seq<Candle>, source: PriceSource)
    ensures AsksFxVolume(s, source.Volume?) ==> AsksFxVolume(s, true)
  {
  }

  /** A row at its candle's time, with the line, and the side of it the candle's price lies on when there is a line. */
  ghost predicate VwmaRowShows(row: Row, c: Candle, line: Raw, price: Candle -> real) {
    && row.time == c.time && FieldOf(row, "value") == line
    && FieldOf(row, "above") == if line.Num? then Flag(price(c) > line.n) else Null
  }

  lemma VwmaRowIs(s: seq<Candle>, i: nat, length: int, source: PriceSource, multiplier: real, direction: Direction,
                  price: Candle -> real, volume: Candle -> real)
    requires i < |s| && length >= 1
    requires |s| >= length ==> SourceOf(s[i], source) == price(s[i])
    requires Nullable(VwmaValue(s, i, length, source)) == LineOf(s, i, length, price, volume)
    ensures VwmaRowShows(VwmaRow(s, i, length, source, multiplier, direction), s[i],
                         LineOf(s, i, length, price, volume), price)
  {
    hide LineOf, SourceOf, VwmaValue;
    WarmedResolves(s, i, length, source);
  }

  lemma LineIs(s: seq<Candle>, i: nat, length: int, source: PriceSource, price: Candle -> real, volume: Candle -> real)
    requires i < |s| && length >= 1
    requires |s| >= length ==> forall j :: 0 <= j < |s| ==>
               SourceOf(s[j], source) == price(s[j]) && SourceOf(s[j], Volume) == volume(s[j])
    ensures Nullable(VwmaValue(s, i, length, source)) == LineOf(s, i, length, price, volume)
  {
    hide WindowSum;
    if i + 1 >= length {
      WindowSumSame(s, i + 1 - length, i + 1, SourceWeight(Volume), volume);
      WindowSumSame(s, i + 1 - length, i + 1, WeightedSource(source), (c: Candle) => price(c) * volume(c));
    }
  }

  /** How far a price is from its line, relative to the line; beyond all bounds of a line at zero. */
  ghost function Confidence(price: real, line: real): (r: Raw)
    ensures r.Num? || r.Infinite?
  {
    if line == 0.0 then Infinite else Num((if price < line then line - price else price - line) / line)
  }

  /** A price within so many thousandths of its line. */
  ghost predicate TooClose(price: real, line: real, multiplier: real) {
    Confidence(price, line).Num? && Confidence(price, line).n < multiplier / 1000.0
  }

  /** `now` crosses up through its line, or down when `Both` directions count, not too close to it. */
  ghost function CrossOf(now: real, line: real, was: real, wasLine: real, multiplier: real,
                         direction: Direction): (r: Raw)
    ensures r.Null? || r.Str?
  {
    if TooClose(now, line, multiplier) then Null
    else if now > line && was <= wasLine then Str("buy")
    else if now < line && was >= wasLine && direction == Both then Str("sell")
    else Null
  }

  /**
   A signal fires exactly where the price crosses its line between two warmed bars, far enough from it, a sell only in
   both directions; its confidence is the relative distance from the line; and no signal repeats on the next bar.
   */
  lemma VwmaSignalIsCross(s: seq<Candle>, i: nat, length: int, source: PriceSource, multiplier: real,
                          direction: Direction, price: Candle -> real)
    requires length >= 1 && i < |s| && ReadsAs(source, price)
    requires VwmaCompute(s, length, source, multiplier, direction).Rows?
    ensures var rows := VwmaCompute(s, length, source, multiplier, direction).rows;
            var line, was := FieldOf(rows[i], "value"), if i > 0 then FieldOf(rows[i - 1], "value") else Null;
            var signal := FieldOf(rows[i], "signal");
            && signal == (if line.Num? && was.Num?
                          then CrossOf(price(s[i]), line.n, price(s[i - 1]), was.n, multiplier, direction) else Null)
            && (signal == Null ==> FieldOf(rows[i], "confidence") == Null)
            && (signal != Null ==>
                  line.Num? && FieldOf(rows[i], "confidence") == Confidence(price(s[i]), line.n))
            && (i > 0 && signal != Null ==> signal != FieldOf(rows[i - 1], "signal"))
  {
    hide VwmaValue, ReadsAs, Unresolvable, SourceOf, VwmaFieldsAt, CrossOf, AsksFxVolume;
    Unresolved(s, source, price);
    WarmedResolves(s, i, length, source);
    CrossFields(s, i, length, source, multiplier, direction);
    if i > 0 {
      WarmedResolves(s, i - 1, length, source);
      CrossFields(s, i - 1, length, source, multiplier, direction);
      NoRepeat(s, i, length, source, multiplier, direction);
    }
  }

  ghost function SignalOf(s: seq<Candle>, i: nat, length: int, source: PriceSource, multiplier: real,
                          direction: Direction): Raw
    requires i < |s| && length >= 1
  {
    var line, was := VwmaValue(s, i, length, source), if i > 0 then VwmaValue(s, i - 1, length, source) else None;
    if line.Some? && was.Some?
      then CrossOf(SourceOf(s[i], source), line.value, SourceOf(s[i - 1], source), was.value, multiplier, direction)
      else Null
  }

  lemma CrossFields(s: seq<Candle>, i: nat, length: int, source: PriceSource, multiplier: real, direction: Direction)
    requires i < |s| && length >= 1
    ensures var row := VwmaRow(s, i, length, source, multiplier, direction);
            var signal, line := SignalOf(s, i, length, source, multiplier, direction), VwmaValue(s, i, length, source);
            && FieldOf(row, "value") == Nullable(line)
            && FieldOf(row, "signal") == signal
            && (signal == Null ==> FieldOf(row, "confidence") == Null)
            && (signal != Null ==>
                line.Some? && FieldOf(row, "confidence") == Confidence(SourceOf(s[i], source), line.value))
  {
    hide VwmaValue, SourceOf;
  }

  lemma NoRepeat(s: seq<Candle>, i: nat, length: int, source: PriceSource, multiplier: real, direction: Direction)
    requires 0 < i < |s| && length >= 1
    ensures var signal := SignalOf(s, i, length, source, multiplier, direction);
            signal != Null ==> signal != SignalOf(s, i - 1, length, source, multiplier, direction)
  {
    hide VwmaValue, SourceOf;
  }

  lemma WarmedResolves(s: seq<Candle>, i: nat, length: int, source: PriceSource)
    requires i < |s| && length >= 1
    ensures VwmaValue(s, i, length, source).Some? ==> |s| >= length
  {
  }
}
