/** What the points of an indicator walk are worth: each field's value at each bar, told from the candles. */
module IndicatorValues {
  import opened Candles
  import opened BarSeries
  import opened MovingAverages
  import opened IndicatorSeries
  import opened IndicatorPaging
  import opened Supertrend
  import opened SupertrendReading

  /** `p` is the point of a row's field: a finite number, a string or a boolean as it stands; nothing else has one. */
  ghost predicate ShowsField(row: Row, stateKey: string, p: SeriesPoint) {
    && p.ts == row.time
    && match FieldOf(row, stateKey)
       case Num(n) => p.value == NumberValue(n)
       case Str(s) => p.value == StringValue(s)
       case Flag(b) => p.value == BoolValue(b)
       case Null => false
       case Infinite => false
  }

  ghost predicate TimesAscend(rows: seq<Row>) {
    forall i, j :: 0 <= i < j < |rows| ==> rows[i].time < rows[j].time
  }

  /** A walk's points: strictly newest first, exactly those some row's field has, so one for each row that has one. */
  ghost predicate PointsOf(points: seq<SeriesPoint>, rows: seq<Row>, stateKey: string) {
    && Descending(points)
    && forall p :: p in points <==> exists i :: 0 <= i < |rows| && ShowsField(rows[i], stateKey, p)
  }

  lemma {:induction false} ProjectedAre(rows: seq<Row>, stateKey: string)
    requires TimesAscend(rows)
    ensures PointsOf(Reverse(ProjectRows(rows, stateKey)), rows, stateKey)
  {
    if rows != [] {
      var n := |rows| - 1;
      ProjectedAre(rows[..n], stateKey);
      ProjectedOneMore(rows[..n], rows[n], stateKey);
      assert rows == rows[..n] + [rows[n]];
    }
  }

  lemma ShownIsProjected(row: Row, stateKey: string, p: SeriesPoint)
    ensures ShowsField(row, stateKey, p) <==>
            Projected(row, stateKey).Some? && p == SeriesPoint(row.time, Projected(row, stateKey).value)
  {
  }

  lemma ProjectOneMore(rows: seq<Row>, row: Row, stateKey: string)
    ensures var v := Projected(row, stateKey);
            Reverse(ProjectRows(rows + [row], stateKey))
            == (if v.Some? then [SeriesPoint(row.time, v.value)] else []) + Reverse(ProjectRows(rows, stateKey))
  {
    hide Projected;
    assert (rows + [row])[..|rows|] == rows && (rows + [row])[|rows|] == row;
  }

  lemma ProjectedOneMore(rows: seq<Row>, row: Row, stateKey: string)
    requires PointsOf(Reverse(ProjectRows(rows, stateKey)), rows, stateKey)
    requires forall i :: 0 <= i < |rows| ==> rows[i].time < row.time
    ensures PointsOf(Reverse(ProjectRows(rows + [row], stateKey)), rows + [row], stateKey)
  {
    hide ShowsField, ProjectRows, Projected, Reverse;
    var all := rows + [row];
    var v := Projected(row, stateKey);
    var was, now := Reverse(ProjectRows(rows, stateKey)), Reverse(ProjectRows(all, stateKey));
    ProjectOneMore(rows, row, stateKey);
    forall p ensures p in now <==> exists i :: 0 <= i < |all| && ShowsField(all[i], stateKey, p) {
      ShownIsProjected(row, stateKey, p);
      assert ShowsField(row, stateKey, p) ==> ShowsField(all[|rows|], stateKey, p);
      if i :| 0 <= i < |rows| && ShowsField(rows[i], stateKey, p) { assert all[i] == rows[i]; }
    }
    forall p | p in was ensures p.ts < row.time {
      var i :| 0 <= i < |rows| && ShowsField(rows[i], stateKey, p);
      ShownIsProjected(rows[i], stateKey, p);
    }
    if v.Some? { DescendingMore(SeriesPoint(row.time, v.value), was); }
  }

  lemma DescendingMore(first: SeriesPoint, rest: seq<SeriesPoint>)
    requires Descending(rest) && forall p :: p in rest ==> p.ts < first.ts
    ensures Descending([first] + rest)
  {
    assert forall j :: 0 <= j < |rest| ==> rest[j] in rest;
  }

  // ---- the windowed indicators, over any pages ----

  /** The rows of one compute over every candle below the bound. */
  ghost function RowsBelow(ind: Indicator, s: seq<Candle>, before: int): seq<Row>
    requires ind.Warmup() >= 1 && ind.Compute(Earlier(s, At(before))).Rows?
  {
    ind.Compute(Earlier(s, At(before))).rows
  }

  lemma EarlierAscends(s: seq<Candle>, before: int)
    requires Ascending(s)
    ensures Ascending(Earlier(s, At(before)))
  {
    EarlierIsPrefix(s, At(before));
  }

  /** Whatever the page size, a windowed walk yields a point for each row of the whole-history compute that has one. */
  lemma WindowedPoints(ind: Indicator, s: seq<Candle>, before: int, pageSize: int, stateKey: string)
    requires Ascending(s) && ind.Warmup() >= 1 && pageSize > 0 && Windowed(ind)
    requires ind.Compute(Earlier(s, At(before))).Rows?
    ensures PointsOf(PagedPoints(ind, s, CountBelow(s, At(before)), pageSize, stateKey), RowsBelow(ind, s, before),
                     stateKey)
  {
    hide Indicator.Compute, Indicator.RowAt, PagedPoints, ProjectRows, PointsOf, Earlier, CountBelow;
    var h := Earlier(s, At(before));
    PagedIsWholeHistory(ind, s, before, pageSize, stateKey);
    EarlierAscends(s, before);
    ComputeRows(ind, h);
    RowsOfLength(ind, h);
    assert ind.Compute(h).rows == RowsOf(ind, h);
    ProjectedAre(RowsOf(ind, h), stateKey);
  }

  /** A moving average's point at bar `i`: the mean of the price over the window ending there. */
  ghost predicate SmaPoint(s: seq<Candle>, i: nat, length: int, price: Candle -> real, p: SeriesPoint)
    requires i < |s| && length >= 1
  {
    i + 1 >= length && p
        == SeriesPoint(s[i].time, NumberValue(WindowSum(s, i + 1 - length, i + 1, price) / length as real))
  }

  /** The moving average's walk: newest first, the mean of every whole window, each at its last candle's time. */
  lemma SmaPoints(s: seq<Candle>, before: int, pageSize: int, length: int, source: PriceSource, price: Candle -> real)
    requires Ascending(s) && length >= 1 && pageSize > 0 && ReadsAs(source, price)
    requires !AsksFxVolume(Earlier(s, At(before)), source.Volume?)
    ensures var points := PagedPoints(Sma(length, source), s, CountBelow(s, At(before)), pageSize, "value");
            var h := Earlier(s, At(before));
            && Descending(points)
            && forall p :: p in points <==> exists i :: 0 <= i < |h| && SmaPoint(h, i, length, price, p)
  {
    hide PagedPoints, WindowSum, Earlier, CountBelow, AsksFxVolume, ReadsAs, SmaCompute;
    var ind, h := Sma(length, source), Earlier(s, At(before));
    SmaIsWindowMean(h, length, source, price);
    WindowedPoints(ind, s, before, pageSize, "value");
    var rows := RowsBelow(ind, s, before);
    forall i, p | 0 <= i < |h| ensures ShowsField(rows[i], "value", p) <==> SmaPoint(h, i, length, price, p) {
      assert rows[i] == Row(h[i].time, map["value" := MeanOf(h, i, length, price)]);
    }
  }

  /** A volume-weighted average's point at bar `i`: its line, the side of it the price is on, or where they cross. */
  ghost predicate VwmaPoint(s: seq<Candle>, i: nat, ind: Indicator, price: Candle -> real, volume: Candle -> real,
                            stateKey: string, p: SeriesPoint)
    requires i < |s| && ind.Vwma? && ind.length >= 1
  {
    var line := LineOf(s, i, ind.length, price, volume);
    var was := if i > 0 then LineOf(s, i - 1, ind.length, price, volume) else Null;
    var cross := if line.Num? && was.Num?
                 then CrossOf(price(s[i]), line.n, price(s[i - 1]), was.n, ind.multiplier, ind.direction) else Null;
    && p.ts == s[i].time && line.Num?
    && (stateKey == "value" ==> p.value == NumberValue(line.n))
    && (stateKey == "above" ==> p.value == BoolValue(price(s[i]) > line.n))
    && (stateKey == "signal" ==> cross.Str? && p.value == StringValue(cross.s))
    && (stateKey == "confidence" ==>
          cross.Str? && Confidence(price(s[i]), line.n).Num?
              && p.value == NumberValue(Confidence(price(s[i]), line.n).n))
  }

  /** The volume-weighted average's walks: exactly the lines, the sides, the crossings or their confidence. */
  lemma VwmaPoints(s: seq<Candle>, before: int, pageSize: int, ind: Indicator, price: Candle -> real,
                   volume: Candle -> real, stateKey: string)
    requires Ascending(s) && pageSize > 0 && ind.Vwma? && ind.length >= 1
    requires ReadsAs(ind.source, price) && ReadsAs(Volume, volume) && !AsksFxVolume(Earlier(s, At(before)), true)
    requires stateKey in ["value", "above", "signal", "confidence"]
    ensures var points := PagedPoints(ind, s, CountBelow(s, At(before)), pageSize, stateKey);
            var h := Earlier(s, At(before));
            && Descending(points)
            && forall p :: p in points <==> exists i :: 0 <= i < |h| && VwmaPoint(h, i, ind, price, volume, stateKey, p)
  {
    hide PagedPoints, LineOf, Earlier, CountBelow, AsksFxVolume, ReadsAs, VwmaCompute, CrossOf, VwmaPoint, ShowsField;
    var h := Earlier(s, At(before));
    VwmaIsWindowMean(h, ind.length, ind.source, ind.multiplier, ind.direction, price, volume);
    WindowedPoints(ind, s, before, pageSize, stateKey);
    var rows := RowsBelow(ind, s, before);
    forall i, p | 0 <= i < |h|
      ensures ShowsField(rows[i], stateKey, p) <==> VwmaPoint(h, i, ind, price, volume, stateKey, p)
    {
      VwmaShows(h, i, ind, price, volume, stateKey, p);
    }
  }

  lemma VwmaShows(s: seq<Candle>, i: nat, ind: Indicator, price: Candle -> real, volume: Candle -> real,
                  stateKey: string, p: SeriesPoint)
    requires ind.Vwma? && ind.length >= 1 && ReadsAs(ind.source, price) && ReadsAs(Volume, volume)
    requires i < |s| && stateKey in ["value", "above", "signal", "confidence"]
    requires VwmaCompute(s, ind.length, ind.source, ind.multiplier, ind.direction).Rows?
    ensures |VwmaCompute(s, ind.length, ind.source, ind.multiplier, ind.direction).rows| == |s|
    ensures ShowsField(VwmaCompute(s, ind.length, ind.source, ind.multiplier, ind.direction).rows[i], stateKey, p)
            <==> VwmaPoint(s, i, ind, price, volume, stateKey, p)
  {
    hide LineOf, ReadsAs, VwmaCompute, CrossOf, FieldOf, Confidence;
    VwmaIsWindowMean(s, ind.length, ind.source, ind.multiplier, ind.direction, price, volume);
    VwmaSignalIsCross(s, i, ind.length, ind.source, ind.multiplier, ind.direction, price);
  }

  // ---- Supertrend, page by page ----

  /** The candles the compute of candle `j`'s page reads: the warm-up before the page, and the page. */
  ghost function PageInputOf(ind: Indicator, s: seq<Candle>, e: nat, pageSize: int, j: nat): (r: seq<Candle>)
    requires ind.Warmup() >= 1 && pageSize > 0 && j < e <= |s|
    ensures |r| > j - PageInputStart(ind, s, e, pageSize, j)
    ensures r[j - PageInputStart(ind, s, e, pageSize, j)] == s[j]
  {
    s[PageInputStart(ind, s, e, pageSize, j)..PageOf(e, pageSize, j).1]
  }

  ghost function PageInputStart(ind: Indicator, s: seq<Candle>, e: nat, pageSize: int, j: nat): (b: nat)
    requires ind.Warmup() >= 1 && pageSize > 0 && j < e
    ensures b <= j
  {
    InputStart(ind, PageOf(e, pageSize, j).0)
  }

  lemma PagedRowAt(ind: Indicator, s: seq<Candle>, e: nat, pageSize: int, j: nat)
    requires ind.Warmup() >= 1 && pageSize > 0 && j < e <= |s|
    ensures PagedRows(ind, s, e, pageSize)[j]
         == ind.RowAt(PageInputOf(ind, s, e, pageSize, j), j - PageInputStart(ind, s, e, pageSize, j))
    ensures PagedRows(ind, s, e, pageSize)[j].time == s[j].time
  {
    hide Indicator.RowAt, PagedRows, PageOf;
    var _, _ := PagedRowIs(ind, s, e, pageSize, j);
  }

  /** A Supertrend point: the band in force, the trend, or where it turned, as the candles its page read tell it. */
  ghost predicate TrendPoint(t: seq<Candle>, m: nat, inputs: Inputs, price: Candle -> real, stateKey: string,
                             p: SeriesPoint)
    requires m < |t| && inputs.atrPeriod >= 1
  {
    exists bars :: ReadingTells(t, m, inputs, price, bars, stateKey, p)
  }

  ghost predicate ReadingTells(t: seq<Candle>, m: nat, inputs: Inputs, price: Candle -> real, bars: seq<Bar>,
                               stateKey: string, p: SeriesPoint)
    requires m < |t| && inputs.atrPeriod >= 1
  {
    Reading(t, inputs, price, bars) && BarPoint(t[m].time, BarBefore(bars, m), bars[m], stateKey, p)
  }

  ghost predicate BarPoint(time: int, was: Bar, now: Bar, stateKey: string, p: SeriesPoint) {
    && p.ts == time && now.Warmed?
    && (stateKey == "value" ==> p.value == NumberValue(if now.trend == Up then now.up else now.dn))
    && (stateKey == "trend" ==> p.value == StringValue(if now.trend == Up then "up" else "down"))
    && (stateKey == "signal" ==>
          && now.trend != (if was.Warmed? then was.trend else Up)
          && p.value == StringValue(if now.trend == Up then "buy" else "sell"))
  }

  lemma TrendShows(t: seq<Candle>, m: nat, inputs: Inputs, price: Candle -> real, stateKey: string, p: SeriesPoint)
    requires m < |t| && inputs.atrPeriod >= 1 && Proper(t) && ReadsAs(inputs.source, price)
    requires SupertrendCompute(t, inputs).Rows? && stateKey in ["value", "trend", "signal"]
    ensures ShowsField(SupertrendRow(t, m, inputs), stateKey, p) <==> TrendPoint(t, m, inputs, price, stateKey, p)
  {
    hide ReadingTells, Reading, Proper, ReadsAs, SupertrendRow, SupertrendCompute, ShowsField;
    var bars := ReadingExists(t, inputs, price);
    ReadingShows(t, m, inputs, price, bars, stateKey, p);
    if other :| ReadingTells(t, m, inputs, price, other, stateKey, p) {
      ToldByReading(t, m, inputs, price, other, stateKey, p);
      ReadingShows(t, m, inputs, price, other, stateKey, p);
    }
  }

  lemma ToldByReading(t: seq<Candle>, m: nat, inputs: Inputs, price: Candle -> real, bars: seq<Bar>, stateKey: string,
                      p: SeriesPoint)
    requires m < |t| && inputs.atrPeriod >= 1 && ReadingTells(t, m, inputs, price, bars, stateKey, p)
    ensures Reading(t, inputs, price, bars)
  {
  }

  lemma ReadingShows(t: seq<Candle>, m: nat, inputs: Inputs, price: Candle -> real, bars: seq<Bar>, stateKey: string,
                     p: SeriesPoint)
    requires m < |t| && inputs.atrPeriod >= 1 && Proper(t) && ReadsAs(inputs.source, price)
    requires SupertrendCompute(t, inputs).Rows? && stateKey in ["value", "trend", "signal"]
    requires Reading(t, inputs, price, bars)
    ensures ShowsField(SupertrendRow(t, m, inputs), stateKey, p)
            <==> ReadingTells(t, m, inputs, price, bars, stateKey, p)
  {
    hide Proper, ReadsAs, SupertrendRow, WarmUnresolvable, RowOf, BarPoint, ShowsField, BarBefore, BarFollows;
    RowsAreTheReading(t, inputs, price, bars);
    BarShows(t[m].time, BarBefore(bars, m), bars[m], stateKey, p);
  }

  lemma BarShows(time: int, was: Bar, now: Bar, stateKey: string, p: SeriesPoint)
    requires stateKey in ["value", "trend", "signal"]
    ensures ShowsField(RowOf(time, was, now), stateKey, p) <==> BarPoint(time, was, now, stateKey, p)
  {
  }

  /** Supertrend's walks, for every page size: exactly the points the candles read for each page tell. */
  lemma SupertrendPoints(s: seq<Candle>, before: int, pageSize: int, inputs: Inputs, price: Candle -> real,
                         stateKey: string)
    requires Ascending(s) && Proper(s) && inputs.atrPeriod >= 1 && pageSize > 0 && ReadsAs(inputs.source, price)
    requires SupertrendCompute(Earlier(s, At(before)), inputs).Rows? && stateKey in ["value", "trend", "signal"]
    ensures var ind, k := SupertrendOf(inputs), CountBelow(s, At(before));
            var points := PagedPoints(ind, s, k, pageSize, stateKey);
            && Descending(points)
            && forall p :: p in points <==>
                 exists j :: 0 <= j < k && TrendPoint(PageInputOf(ind, s, k, pageSize, j),
                   j - PageInputStart(ind, s, k, pageSize, j), inputs, price, stateKey, p)
  {
    hide PagedPoints, CountBelow, TrendPoint, PageInputOf, PageInputStart, ShowsField, Proper, ReadsAs, ProjectRows,
         SupertrendCompute, SupertrendRow, PagedRows;
    var ind, k := SupertrendOf(inputs), CountBelow(s, At(before));
    EarlierIsPrefix(s, At(before));
    PagedPointsProject(ind, s, k, k, pageSize, stateKey);
    var rows := PagedRows(ind, s, k, pageSize);
    forall j | 0 <= j < k ensures rows[j].time == s[j].time {
      PagedRowAt(ind, s, k, pageSize, j);
    }
    forall j, p | 0 <= j < k
      ensures ShowsField(rows[j], stateKey, p) <==> TrendPoint(PageInputOf(ind, s, k, pageSize, j),
                j - PageInputStart(ind, s, k, pageSize, j), inputs, price, stateKey, p)
    {
      PagedRowAt(ind, s, k, pageSize, j);
      PageInputResolves(ind, s, k, pageSize, j);
      TrendShows(PageInputOf(ind, s, k, pageSize, j), j - PageInputStart(ind, s, k, pageSize, j), inputs, price,
                 stateKey, p);
    }
    ProjectedAre(rows, stateKey);
  }

  lemma PageInputResolves(ind: Indicator, s: seq<Candle>, k: nat, pageSize: int, j: nat)
    requires ind.Warmup() >= 1 && pageSize > 0 && j < k <= |s| && ind.Compute(s[..k]).Rows? && Proper(s)
    ensures ind.Compute(PageInputOf(ind, s, k, pageSize, j)).Rows? && Proper(PageInputOf(ind, s, k, pageSize, j))
  {
    hide Indicator.Compute;
    PagesNeverThrow(ind, s, k, PageInputStart(ind, s, k, pageSize, j), PageOf(k, pageSize, j).1);
  }
}
