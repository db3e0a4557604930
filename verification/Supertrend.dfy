/** Supertrend: average true range, ratcheting bands, and the trend automaton they drive. */
module Supertrend {
  import opened Candles
  import opened MovingAverages

  datatype AtrMethod = Rma | SimpleMean

  datatype Inputs = Inputs(atrPeriod: int, multiplier: real, source: PriceSource, atrMethod: AtrMethod)

  datatype Trend = Up | Down

  /** What one bar hands to the next: the previous bands, once there are any, and the trend. */
  datatype Carry = Carry(up: Option<real>, dn: Option<real>, trend: Trend)

  function TrueRange(s: seq<Candle>, i: nat): real
    requires i < |s|
  {
    if i == 0 then s[0].high - s[0].low
    else RealMax(RealMax(s[i].high - s[i].low, Abs(s[i].high - s[i - 1].close)), Abs(s[i].low - s[i - 1].close))
  }

  function SumRange(s: seq<Candle>, lo: nat, hi: nat): real
    requires lo <= hi <= |s|
  {
    if lo == hi then 0.0 else SumRange(s, lo, hi - 1) + TrueRange(s, hi - 1)
  }

  function Mean(sum: real, n: int): real
    requires n >= 1
  {
    sum / n as real
  }

  /** Wilder's smoothing: the running average moves one `n`-th of the way to the new range. */
  function Wilder(prev: real, range: real, n: int): real
    requires n >= 1
  {
    (prev * (n - 1) as real + range) / n as real
  }

  /** The average true range at bar `i`; nothing before index `atrPeriod - 1`. */
  function Atr(s: seq<Candle>, i: nat, atrPeriod: int, atrMethod: AtrMethod): Option<real>
    requires i < |s| && atrPeriod >= 1
  {
    if i + 1 < atrPeriod then None
    else if atrMethod.SimpleMean? || i + 1 == atrPeriod
           then Some(Mean(SumRange(s, i + 1 - atrPeriod, i + 1), atrPeriod))
    else Some(Wilder(Atr(s, i - 1, atrPeriod, atrMethod).value, TrueRange(s, i), atrPeriod))
  }

  function TrendName(t: Trend): string { if t.Up? then "up" else "down" }

  function Fields(value: Raw, trend: Raw, signal: Raw): map<string, Raw> {
    map["value" := value, "trend" := trend, "signal" := signal]
  }

  function Turn(c: Carry, close: real, up1: real, dn1: real): Trend {
    if c.trend.Down? && close > dn1 then Up
    else if c.trend.Up? && close < up1 then Down
    else c.trend
  }

  function SignalFor(was: Trend, now: Trend): Raw {
    if now.Up? && was.Down? then Str("buy") else if now.Down? && was.Up? then Str("sell") else Null
  }

  /** How far the basic bands lie from the source. */
  function BandWidth(inputs: Inputs, atr: real): real {
    inputs.multiplier * atr
  }

  /** One warmed bar of the band and trend recursion, its basic bands `width` either side of `src`. */
  function Move(candle: Candle, src: real, width: real, prevClose: Option<real>, c: Carry): (Row, Carry) {
    var basicUp := src - width;
    var basicDn := src + width;
    var up1 := if c.up.Some? then c.up.value else basicUp;
    var dn1 := if c.dn.Some? then c.dn.value else basicDn;
    var up := if prevClose.Some? && prevClose.value > up1 then RealMax(basicUp, up1) else basicUp;
    var dn := if prevClose.Some? && prevClose.value < dn1 then RealMin(basicDn, dn1) else basicDn;
    var trend := Turn(c, candle.close, up1, dn1);
    (Row(candle.time, Fields(Num(if trend.Up? then up else dn), Str(TrendName(trend)), SignalFor(c.trend, trend))),
     Carry(Some(up), Some(dn), trend))
  }

  /** One bar of the recursion; nothing happens before there is an average. */
  function Step(inputs: Inputs, candle: Candle, prevClose: Option<real>, atr: Option<real>, c: Carry): (Row, Carry) {
    if atr.None? then (Row(candle.time, Fields(Null, Null, Null)), c)
    else Move(candle, SourceOf(candle, inputs.source), BandWidth(inputs, atr.value), prevClose, c)
  }

  function PrevClose(s: seq<Candle>, i: nat): Option<real>
    requires i < |s|
  {
    if i > 0 then Some(s[i - 1].close) else None
  }

  function StepAt(s: seq<Candle>, i: nat, inputs: Inputs, c: Carry): (Row, Carry)
    requires i < |s| && inputs.atrPeriod >= 1
  {
    Step(inputs, s[i], PrevClose(s, i), Atr(s, i, inputs.atrPeriod, inputs.atrMethod), c)
  }

  /** What the first `i` bars hand on; the trend is seeded up. */
  function CarryInto(s: seq<Candle>, i: nat, inputs: Inputs): Carry
    requires i <= |s| && inputs.atrPeriod >= 1
  {
    if i == 0 then Carry(None, None, Up) else StepAt(s, i - 1, inputs, CarryInto(s, i - 1, inputs)).1
  }

  function SupertrendRow(s: seq<Candle>, i: nat, inputs: Inputs): Row
    requires i < |s| && inputs.atrPeriod >= 1
  {
    StepAt(s, i, inputs, CarryInto(s, i, inputs)).0
  }

  predicate WarmUnresolvable(s: seq<Candle>, inputs: Inputs) {
    exists i :: 0 <= i < |s| && i + 1 >= inputs.atrPeriod && ResolveSource(s[i], inputs.source).None?
  }

  function SupertrendCompute(s: seq<Candle>, inputs: Inputs): ComputeResult
    requires inputs.atrPeriod >= 1
  {
    if WarmUnresolvable(s, inputs) then Throws
    else Rows(seq(|s|, i requires 0 <= i < |s| => SupertrendRow(s, i, inputs)))
  }

  // ---- the imperative compute ----

  ghost predicate HoldsRanges(ranges: array<real>, s: seq<Candle>)
    reads ranges
  {
    ranges.Length == |s| && forall i :: 0 <= i < |s| ==> ranges[i] == TrueRange(s, i)
  }

  ghost predicate HoldsAtr(atr: array<Option<real>>, s: seq<Candle>, n: nat, atrPeriod: int, atrMethod: AtrMethod)
    requires atrPeriod >= 1
    reads atr
  {
    n <= atr.Length == |s| && forall i :: 0 <= i < n ==> atr[i] == Atr(s, i, atrPeriod, atrMethod)
  }

  method TrueRanges(s: seq<Candle>) returns (ranges: array<real>)
    ensures fresh(ranges) && HoldsRanges(ranges, s)
  {
    ranges := new real[|s|];
    for i := 0 to |s|
      invariant forall j :: 0 <= j < i ==> ranges[j] == TrueRange(s, j)
    {
      ranges[i] := TrueRange(s, i);
    }
  }

  method SumRanges(s: seq<Candle>, ranges: array<real>, lo: nat, hi: nat) returns (sum: real)
    requires HoldsRanges(ranges, s) && lo <= hi <= |s|
    ensures sum == SumRange(s, lo, hi)
  {
    sum := 0.0;
    for j := lo to hi
      invariant sum == SumRange(s, lo, j)
    {
      sum := sum + ranges[j];
    }
  }

  /** The simple mean of every full window. */
  method FillSimple(s: seq<Candle>, ranges: array<real>, atr: array<Option<real>>, atrPeriod: int)
    requires 1 <= atrPeriod <= |s| && HoldsRanges(ranges, s)
    requires HoldsAtr(atr, s, atrPeriod - 1, atrPeriod, SimpleMean)
    modifies atr
    ensures HoldsAtr(atr, s, |s|, atrPeriod, SimpleMean)
  {
    for i := atrPeriod - 1 to |s|
      invariant HoldsRanges(ranges, s) && HoldsAtr(atr, s, i, atrPeriod, SimpleMean)
    {
      var sum := SumRanges(s, ranges, i + 1 - atrPeriod, i + 1);
      atr[i] := Some(Mean(sum, atrPeriod));
    }
  }

  /** Wilder's recursion, seeded with the mean of the first window. */
  method FillWilder(s: seq<Candle>, ranges: array<real>, atr: array<Option<real>>, atrPeriod: int)
    requires 1 <= atrPeriod <= |s| && HoldsRanges(ranges, s)
    requires HoldsAtr(atr, s, atrPeriod - 1, atrPeriod, Rma)
    modifies atr
    ensures HoldsAtr(atr, s, |s|, atrPeriod, Rma)
  {
    var seed := SumRanges(s, ranges, 0, atrPeriod);
    atr[atrPeriod - 1] := Some(Mean(seed, atrPeriod));
    for i := atrPeriod to |s|
      invariant HoldsRanges(ranges, s) && HoldsAtr(atr, s, i, atrPeriod, Rma)
    {
      atr[i] := Some(Wilder(atr[i - 1].value, ranges[i], atrPeriod));
    }
  }

  /** The `atr` array, null until index `atrPeriod - 1`. */
  method Atrs(s: seq<Candle>, atrPeriod: int, atrMethod: AtrMethod) returns (atr: array<Option<real>>)
    requires atrPeriod >= 1
    ensures fresh(atr) && HoldsAtr(atr, s, |s|, atrPeriod, atrMethod)
  {
    var ranges := TrueRanges(s);
    atr := new Option<real>[|s|](_ => None);
    if |s| < atrPeriod {
      return;
    }
    if atrMethod.SimpleMean? {
      FillSimple(s, ranges, atr, atrPeriod);
    } else {
      FillWilder(s, ranges, atr, atrPeriod);
    }
  }

  lemma NextBar(s: seq<Candle>, i: nat, inputs: Inputs)
    requires i < |s| && inputs.atrPeriod >= 1
    ensures var atr := Atr(s, i, inputs.atrPeriod, inputs.atrMethod);
            && (atr.Some? <==> i + 1 >= inputs.atrPeriod)
            && (SupertrendRow(s, i, inputs), CarryInto(s, i + 1, inputs))
               == Step(inputs, s[i], PrevClose(s, i), atr, CarryInto(s, i, inputs))
  {
    hide Step;
  }

  lemma FirstCarry(s: seq<Candle>, inputs: Inputs)
    requires inputs.atrPeriod >= 1
    ensures CarryInto(s, 0, inputs) == Carry(None, None, Up)
  {
  }

  /** `supertrend.compute`: the bands and trend carried across the bars. */
  method ComputeSupertrend(s: seq<Candle>, inputs: Inputs) returns (r: ComputeResult)
    requires inputs.atrPeriod >= 1
    ensures r == SupertrendCompute(s, inputs)
  {
    var atr := Atrs(s, inputs.atrPeriod, inputs.atrMethod);
    r := CarryAcross(s, inputs, atr[..]);
  }

  method CarryAcross(s: seq<Candle>, inputs: Inputs, atr: seq<Option<real>>) returns (r: ComputeResult)
    requires inputs.atrPeriod >= 1 && |atr| == |s|
    requires forall i :: 0 <= i < |s| ==> atr[i] == Atr(s, i, inputs.atrPeriod, inputs.atrMethod)
    ensures r == SupertrendCompute(s, inputs)
  {
    hide Step, Atr, CarryInto, SupertrendRow, ResolveSource;
    var carry := Carry(None, None, Up);
    var rows: seq<Row> := [];
    FirstCarry(s, inputs);
    var i := 0;
    while i < |s|
      invariant 0 <= i <= |s|
      invariant carry == CarryInto(s, i, inputs)
      invariant rows == seq(i, j requires 0 <= j < i => SupertrendRow(s, j, inputs))
      invariant forall j :: 0 <= j < i && j + 1 >= inputs.atrPeriod ==> ResolveSource(s[j], inputs.source).Some?
    {
      NextBar(s, i, inputs);
      if atr[i].Some? && ResolveSource(s[i], inputs.source).None? {
        return Throws;
      }
      var (row, next) := Step(inputs, s[i], PrevClose(s, i), atr[i], carry);
      rows := rows + [row];
      carry := next;
      i := i + 1;
    }
    r := Rows(rows);
  }

  // ---- no look-ahead ----

  lemma {:induction false} SumRangePrefix(s: seq<Candle>, m: nat, lo: nat, hi: nat)
    requires lo <= hi <= m <= |s|
    ensures SumRange(s[..m], lo, hi) == SumRange(s, lo, hi)
  {
    if lo < hi { SumRangePrefix(s, m, lo, hi - 1); }
  }

  lemma {:induction false} AtrPrefix(s: seq<Candle>, m: nat, i: nat, atrPeriod: int, atrMethod: AtrMethod)
    requires i < m <= |s| && atrPeriod >= 1
    ensures Atr(s[..m], i, atrPeriod, atrMethod) == Atr(s, i, atrPeriod, atrMethod)
  {
    if i + 1 >= atrPeriod {
      if atrMethod.SimpleMean? || i + 1 == atrPeriod {
        SumRangePrefix(s, m, i + 1 - atrPeriod, i + 1);
      } else {
        AtrPrefix(s, m, i - 1, atrPeriod, atrMethod);
      }
    }
  }

  lemma StepPrefix(s: seq<Candle>, m: nat, i: nat, inputs: Inputs, c: Carry)
    requires i < m <= |s| && inputs.atrPeriod >= 1
    ensures StepAt(s[..m], i, inputs, c) == StepAt(s, i, inputs, c)
  {
    hide Step, Atr;
    AtrPrefix(s, m, i, inputs.atrPeriod, inputs.atrMethod);
    assert s[..m][i] == s[i] && PrevClose(s[..m], i) == PrevClose(s, i);
  }

  lemma {:induction false} CarryPrefix(s: seq<Candle>, m: nat, i: nat, inputs: Inputs)
    requires i <= m <= |s| && inputs.atrPeriod >= 1
    ensures CarryInto(s[..m], i, inputs) == CarryInto(s, i, inputs)
  {
    hide StepAt;
    if i > 0 {
      CarryPrefix(s, m, i - 1, inputs);
      StepPrefix(s, m, i - 1, inputs, CarryInto(s, i - 1, inputs));
    }
  }

  /** Prefix stability: a row depends only on the candles up to it. */
  lemma SupertrendPrefix(s: seq<Candle>, m: nat, i: nat, inputs: Inputs)
    requires i < m <= |s| && inputs.atrPeriod >= 1
    ensures SupertrendRow(s[..m], i, inputs) == SupertrendRow(s, i, inputs)
  {
    hide StepAt, CarryInto;
    CarryPrefix(s, m, i, inputs);
    StepPrefix(s, m, i, inputs, CarryInto(s, i, inputs));
  }

  /** The rows of a prefix are the prefix of the rows. */
  lemma RowsOfPrefix(s: seq<Candle>, m: nat, inputs: Inputs)
    requires m <= |s| && inputs.atrPeriod >= 1
    requires SupertrendCompute(s, inputs).Rows?
    ensures SupertrendCompute(s[..m], inputs) == Rows(SupertrendCompute(s, inputs).rows[..m])
  {
    hide SupertrendRow, ResolveSource;
    assert forall i :: 0 <= i < m ==> s[..m][i] == s[i];
    forall i | 0 <= i < m ensures SupertrendRow(s[..m], i, inputs) == SupertrendRow(s, i, inputs) {
      SupertrendPrefix(s, m, i, inputs);
    }
    assert SupertrendCompute(s[..m], inputs).rows == SupertrendCompute(s, inputs).rows[..m];
  }

  /** Every field is null exactly before index `atrPeriod - 1`, except the sparse signal. */
  lemma WarmUp(s: seq<Candle>, i: nat, inputs: Inputs)
    requires i < |s| && inputs.atrPeriod >= 1
    ensures var f := SupertrendRow(s, i, inputs).fields;
            if i + 1 < inputs.atrPeriod then f == Fields(Null, Null, Null)
            else
              && "value" in f && f["value"].Num? && "trend" in f && f["trend"].Str?
              && "signal" in f && !f["signal"].Num?
  {
  }

  // ---- the average lies between the extremes ----

  lemma {:induction false} SumRangeBounds(s: seq<Candle>, lo: nat, hi: nat, least: real, most: real)
    requires lo <= hi <= |s|
    requires forall j :: lo <= j < hi ==> least <= TrueRange(s, j) <= most
    ensures Within(least, most, hi - lo, SumRange(s, lo, hi))
  {
    hide TrueRange, Within;
    if lo == hi {
      WithinEmpty(least, most);
    } else {
      SumRangeBounds(s, lo, hi - 1, least, most);
      WithinOneMore(least, most, hi - 1 - lo, SumRange(s, lo, hi - 1), TrueRange(s, hi - 1));
    }
  }

  /** A sum of `n` terms each between the bounds. */
  ghost predicate Within(least: real, most: real, n: int, sum: real) {
    least * n as real <= sum <= most * n as real
  }

  lemma WithinEmpty(least: real, most: real)
    ensures Within(least, most, 0, 0.0)
  {
  }

  lemma WithinOneMore(least: real, most: real, n: int, sum: real, term: real)
    requires Within(least, most, n, sum) && least <= term <= most
    ensures Within(least, most, n + 1, sum + term)
  {
    var k := n as real;
    assert (n + 1) as real == k + 1.0;
    assert least * (k + 1.0) == least * k + least;
    assert most * (k + 1.0) == most * k + most;
  }

  lemma MeanBounds(sum: real, n: int, least: real, most: real)
    requires n >= 1 && Within(least, most, n, sum)
    ensures least <= Mean(sum, n) <= most
  {
    var q := sum / n as real;
    assert q * n as real == sum;
    assert q < least ==> q * n as real < least * n as real;
    assert q > most ==> q * n as real > most * n as real;
  }

  /**
   Under both methods the average at `i` lies within any bounds on the true ranges over `[0..i]`, so between their
   extremes.
   */
  lemma {:induction false} AtrBetweenExtremes(s: seq<Candle>, i: nat, atrPeriod: int, atrMethod: AtrMethod, least: real,
                                              most: real)
    requires i < |s| && atrPeriod >= 1
    requires forall j :: 0 <= j <= i ==> least <= TrueRange(s, j) <= most
    requires Atr(s, i, atrPeriod, atrMethod).Some?
    ensures least <= Atr(s, i, atrPeriod, atrMethod).value <= most
  {
    hide TrueRange, SumRange, Mean, Wilder, Within;
    if atrMethod.SimpleMean? || i + 1 == atrPeriod {
      SumRangeBounds(s, i + 1 - atrPeriod, i + 1, least, most);
      MeanBounds(SumRange(s, i + 1 - atrPeriod, i + 1), atrPeriod, least, most);
    } else {
      AtrBetweenExtremes(s, i - 1, atrPeriod, atrMethod, least, most);
      WilderBounds(Atr(s, i - 1, atrPeriod, atrMethod).value, TrueRange(s, i), atrPeriod, least, most);
    }
  }

  lemma ScaleOrder(a: real, b: real, k: real)
    requires a <= b && k >= 0.0
    ensures a * k <= b * k
  {
  }

  lemma ScaledWithin(prev: real, n: int, scaled: real, least: real, most: real)
    requires n >= 0 && least <= prev <= most && scaled == prev * n as real
    ensures Within(least, most, n, scaled)
  {
    ScaleOrder(least, prev, n as real);
    ScaleOrder(prev, most, n as real);
  }

  lemma WilderIsMean(prev: real, range: real, n: int) returns (scaled: real)
    requires n >= 1
    ensures scaled == prev * (n - 1) as real && Wilder(prev, range, n) == Mean(scaled + range, n)
  {
    scaled := prev * (n - 1) as real;
  }

  lemma WilderBounds(prev: real, range: real, n: int, least: real, most: real)
    requires n >= 1 && least <= prev <= most && least <= range <= most
    ensures least <= Wilder(prev, range, n) <= most
  {
    hide *;
    var scaled := WilderIsMean(prev, range, n);
    ScaledWithin(prev, n - 1, scaled, least, most);
    WithinOneMore(least, most, n - 1, scaled, range);
    MeanBounds(scaled + range, n, least, most);
  }

  // ---- signals alternate ----

  /** The non-null signals of the first `n` rows, in order. */
  function Signals(s: seq<Candle>, n: nat, inputs: Inputs): seq<Raw>
    requires n <= |s| && inputs.atrPeriod >= 1
  {
    if n == 0 then []
    else
      var signal := SupertrendRow(s, n - 1, inputs).fields["signal"];
      Signals(s, n - 1, inputs) + (if signal == Null then [] else [signal])
  }

  lemma SignalIsFlip(s: seq<Candle>, i: nat, inputs: Inputs)
    requires i < |s| && inputs.atrPeriod >= 1
    ensures SupertrendRow(s, i, inputs).fields["signal"]
         == SignalFor(CarryInto(s, i, inputs).trend, CarryInto(s, i + 1, inputs).trend)
  {
  }

  /** Signals strictly alternate, starting with a sell; the trend is up exactly after an even number of them. */
  lemma {:induction false} SignalsAlternate(s: seq<Candle>, n: nat, inputs: Inputs)
    requires n <= |s| && inputs.atrPeriod >= 1
    ensures forall j :: 0 <= j < |Signals(s, n, inputs)| ==>
              Signals(s, n, inputs)[j] == if j % 2 == 0 then Str("sell") else Str("buy")
    ensures CarryInto(s, n, inputs).trend == if |Signals(s, n, inputs)| % 2 == 0 then Up else Down
  {
    hide SupertrendRow, StepAt;
    if n > 0 {
      SignalsAlternate(s, n - 1, inputs);
      SignalIsFlip(s, n - 1, inputs);
    }
  }

  /** The bands in force, and when the trend turns. */
  lemma TrendTurnsOnCross(s: seq<Candle>, i: nat, inputs: Inputs)
    requires i < |s| && inputs.atrPeriod >= 1 && CarryInto(s, i, inputs).up.Some? && CarryInto(s, i, inputs).dn.Some?
    requires Atr(s, i, inputs.atrPeriod, inputs.atrMethod).Some?
    ensures var was, now := CarryInto(s, i, inputs), CarryInto(s, i + 1, inputs);
            && now.up.Some? && now.dn.Some?
            // a turn needs a close beyond the previous active band, and such a close always turns
            && (was.trend.Up? ==> (now.trend.Down? <==> s[i].close < was.up.value))
            && (was.trend.Down? ==> (now.trend.Up? <==> s[i].close > was.dn.value))
            // a band the previous close was beyond only moves towards the price
            && (i > 0 && s[i - 1].close > was.up.value ==> now.up.value >= was.up.value)
            && (i > 0 && s[i - 1].close < was.dn.value ==> now.dn.value <= was.dn.value)
            // the row shows the band of the trend it ends in
            && SupertrendRow(s, i, inputs).fields["value"] == Num(if now.trend.Up? then now.up.value else now.dn.value)
            && SupertrendRow(s, i, inputs).fields["trend"] == Str(TrendName(now.trend))
  {
    hide Atr, SourceOf;
  }

  /** Once the average exists, so do the bands. */
  lemma BandsExist(s: seq<Candle>, i: nat, inputs: Inputs)
    requires i <= |s| && inputs.atrPeriod >= 1
    ensures CarryInto(s, i, inputs).up.Some? <==> i >= inputs.atrPeriod
    ensures CarryInto(s, i, inputs).dn.Some? <==> i >= inputs.atrPeriod
  {
    hide SourceOf, TrueRange, SumRange, Mean, Wilder;
    if i > 0 { BandsExist(s, i - 1, inputs); }
  }
}
