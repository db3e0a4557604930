/** Folding Yahoo's trailing live row onto the bar grid. */
module YahooLive {
  import opened Candles

  const DAY_MS := 86_400_000

  datatype YahooBar = YahooBar(date: int, open: Option<real>, high: Option<real>, low: Option<real>,
                               close: Option<real>, volume: Option<real>)

  function OrElse(a: Option<real>, b: Option<real>): Option<real> {
    if a.Some? then a else b
  }

  function NanMax(a: Option<real>, b: Option<real>): Option<real> {
    if a.None? then b
    else if b.None? then a
    else Some(if a.value > b.value then a.value else b.value)
  }

  function NanMin(a: Option<real>, b: Option<real>): Option<real> {
    if a.None? then b
    else if b.None? then a
    else Some(if a.value < b.value then a.value else b.value)
  }

  function OrZero(a: Option<real>): real {
    if a.Some? then a.value else 0.0
  }

  function PlaceLiveBar(existing: Option<YahooBar>, live: YahooBar, bucketTime: int): YahooBar {
    if existing.None? then live.(date := bucketTime)
    else
      var e := existing.value;
      YahooBar(bucketTime, OrElse(e.open, live.open), NanMax(e.high, live.high), NanMin(e.low, live.low),
               OrElse(live.close, e.close), Some(OrZero(e.volume) + OrZero(live.volume)))
  }

  /** The open of the live row's bucket, on the grid of the bar before it. */
  function BucketTime(live: int, prev: int, span: int): int
    requires span > 0
  {
    live - (live - prev) % span
  }

  function MergeLiveBar(bars: seq<YahooBar>, period: Period): seq<YahooBar> {
    if |bars| < 2 then bars
    else
      var n := |bars|;
      var live, prev := bars[n - 1], bars[n - 2];
      var span := PeriodMillis(period);
      var delta := live.date - prev.date;
      if delta <= 0 then bars
      else if span >= DAY_MS then
        if delta < span then bars[..n - 2] + [PlaceLiveBar(Some(prev), live, prev.date)] else bars
      else
        var offset := delta % span;
        if offset == 0 then bars
        else
          var bucketTime := BucketTime(live.date, prev.date, span);
          if bucketTime == prev.date then bars[..n - 2] + [PlaceLiveBar(Some(prev), live, bucketTime)]
          else bars[..n - 1] + [PlaceLiveBar(None, live, bucketTime)]
  }

  // ---- the grid ----

  /** `t` lies a whole number of periods from `origin`. */
  predicate OnGrid(t: int, origin: int, span: int)
    requires span > 0
  {
    (t - origin) % span == 0
  }

  lemma ModDecomposes(x: int, q: int, r: int, span: int)
    requires span > 0 && x == q * span + r && 0 <= r < span
    ensures x % span == r
  {
    assert (q + 1) * span == q * span + span;
    DivisionIs(x, q, span);
    assert x == (x / span) * span + x % span;
  }

  lemma GridTransitive(a: int, b: int, origin: int, span: int)
    requires span > 0 && OnGrid(a, origin, span) && OnGrid(b, a, span)
    ensures OnGrid(b, origin, span)
  {
    var p, q := (a - origin) / span, (b - a) / span;
    assert a - origin == p * span && b - a == q * span;
    assert b - origin == (p + q) * span;
    ModDecomposes(b - origin, p + q, 0, span);
  }

  lemma GridSymmetric(a: int, b: int, span: int)
    requires span > 0 && OnGrid(a, b, span)
    ensures OnGrid(b, a, span)
  {
    var p := (a - b) / span;
    assert a - b == p * span;
    assert b - a == (-p) * span;
    ModDecomposes(b - a, -p, 0, span);
  }

  /** Two grid points less than a period apart are the same point; a later one is at least a period later. */
  lemma GridApart(a: int, b: int, span: int)
    requires span > 0 && OnGrid(b, a, span)
    ensures a < b ==> a + span <= b
    ensures b < a ==> b + span <= a
  {
    var q := (b - a) / span;
    assert b - a == q * span;
    assert q > 0 ==> q * span >= span;
    assert q < 0 ==> q * span <= -span;
  }

  /** Stepping back by the remainder lands on the grid. */
  lemma BucketOnGrid(live: int, prev: int, span: int)
    requires span > 0 && prev < live
    ensures var bucket := BucketTime(live, prev, span);
            OnGrid(bucket, prev, span) && prev <= bucket <= live < bucket + span
  {
    var delta := live - prev;
    var q, r := delta / span, delta % span;
    assert delta == q * span + r;
    assert q < 0 ==> q * span <= -span;
    assert q >= 0 ==> q * span >= 0;
    ModDecomposes(delta - r, q, 0, span);
  }

  // ---- what a bucket amounts to ----

  /** The candle a run of bars amounts to: first open, extremes, last close, summed volume. */
  datatype Rollup = Rollup(open: Option<real>, high: Option<real>, low: Option<real>, close: Option<real>, volume: real)

  function Fold(r: Rollup, b: YahooBar): Rollup {
    Rollup(OrElse(r.open, b.open), NanMax(r.high, b.high), NanMin(r.low, b.low), OrElse(b.close, r.close),
           r.volume + OrZero(b.volume))
  }

  /** The roll-up of the bars with `t <= date < t + span`. */
  function RollUp(bars: seq<YahooBar>, t: int, span: int): Rollup {
    if bars == [] then Rollup(None, None, None, None, 0.0)
    else
      var before, last := RollUp(bars[..|bars| - 1], t, span), bars[|bars| - 1];
      if t <= last.date < t + span then Fold(before, last) else before
  }

  /** The values present in one column of the bars with `t <= date < t + span`, in order. */
  ghost function Present(bars: seq<YahooBar>, t: int, span: int, column: YahooBar -> Option<real>): seq<real> {
    if bars == [] then []
    else
      var before, last := Present(bars[..|bars| - 1], t, span, column), bars[|bars| - 1];
      if t <= last.date < t + span && column(last).Some? then before + [column(last).value] else before
  }

  ghost predicate IsMost(most: Option<real>, vs: seq<real>) {
    if vs == [] then most.None? else most.Some? && most.value in vs && forall v :: v in vs ==> v <= most.value
  }

  ghost predicate IsLeast(least: Option<real>, vs: seq<real>) {
    if vs == [] then least.None? else least.Some? && least.value in vs && forall v :: v in vs ==> least.value <= v
  }

  ghost function Total(vs: seq<real>): real {
    if vs == [] then 0.0 else Total(vs[..|vs| - 1]) + vs[|vs| - 1]
  }

  lemma {:induction false} RollUpEnds(bars: seq<YahooBar>, t: int, span: int)
    ensures var r := RollUp(bars, t, span);
            var opens := Present(bars, t, span, (b: YahooBar) => b.open);
            var closes := Present(bars, t, span, (b: YahooBar) => b.close);
            && r.open == (if opens == [] then None else Some(opens[0]))
            && r.close == (if closes == [] then None else Some(closes[|closes| - 1]))
  {
    hide NanMax, NanMin, OrZero;
    if bars != [] { RollUpEnds(bars[..|bars| - 1], t, span); }
  }

  lemma {:induction false} RollUpExtremes(bars: seq<YahooBar>, t: int, span: int)
    ensures IsMost(RollUp(bars, t, span).high, Present(bars, t, span, (b: YahooBar) => b.high))
    ensures IsLeast(RollUp(bars, t, span).low, Present(bars, t, span, (b: YahooBar) => b.low))
  {
    hide NanMax, NanMin, OrElse, OrZero;
    if bars != [] {
      hide IsMost, IsLeast;
      var n := |bars| - 1;
      RollUpExtremes(bars[..n], t, span);
      MostOneMore(RollUp(bars[..n], t, span).high, Present(bars[..n], t, span, (b: YahooBar) => b.high), bars[n].high);
      LeastOneMore(RollUp(bars[..n], t, span).low, Present(bars[..n], t, span, (b: YahooBar) => b.low), bars[n].low);
    }
  }

  lemma {:induction false} RollUpVolume(bars: seq<YahooBar>, t: int, span: int)
    ensures RollUp(bars, t, span).volume == Total(Present(bars, t, span, (b: YahooBar) => b.volume))
  {
    hide NanMax, NanMin, OrElse;
    if bars != [] {
      RollUpVolume(bars[..|bars| - 1], t, span);
      TotalOneMore(Present(bars[..|bars| - 1], t, span, (b: YahooBar) => b.volume), OrZero(bars[|bars| - 1].volume));
    } else {
      EmptyTotal();
    }
  }

  /**
   What a bucket amounts to: its first open and its last close that are present, the highest high and the lowest low
   present, and the volumes present added up.
   */
  lemma RollUpTells(bars: seq<YahooBar>, t: int, span: int)
    ensures var r := RollUp(bars, t, span);
            var opens := Present(bars, t, span, (b: YahooBar) => b.open);
            var closes := Present(bars, t, span, (b: YahooBar) => b.close);
            && r.open == (if opens == [] then None else Some(opens[0]))
            && r.close == (if closes == [] then None else Some(closes[|closes| - 1]))
            && IsMost(r.high, Present(bars, t, span, (b: YahooBar) => b.high))
            && IsLeast(r.low, Present(bars, t, span, (b: YahooBar) => b.low))
            && r.volume == Total(Present(bars, t, span, (b: YahooBar) => b.volume))
  {
    hide *;
    RollUpEnds(bars, t, span);
    RollUpExtremes(bars, t, span);
    RollUpVolume(bars, t, span);
  }

  lemma EmptyTotal()
    ensures Total([]) == 0.0
  {
  }

  lemma TotalOneMore(vs: seq<real>, v: real)
    ensures Total(vs + [v]) == Total(vs) + v
  {
    assert (vs + [v])[..|vs|] == vs;
  }

  lemma MostOneMore(most: Option<real>, vs: seq<real>, v: Option<real>)
    requires IsMost(most, vs)
    ensures IsMost(NanMax(most, v), if v.Some? then vs + [v.value] else vs)
  {
  }

  lemma LeastOneMore(least: Option<real>, vs: seq<real>, v: Option<real>)
    requires IsLeast(least, vs)
    ensures IsLeast(NanMin(least, v), if v.Some? then vs + [v.value] else vs)
  {
  }

  /** A live row placed on a bar leaves a bar with a volume; re-stamped, it keeps its own. */
  lemma PlacedVolume(existing: Option<YahooBar>, live: YahooBar, t: int)
    ensures var placed := PlaceLiveBar(existing, live, t);
            if existing.None? then placed == YahooBar(t, live.open, live.high, live.low, live.close, live.volume)
            else placed.volume.Some?
  {
  }

  /** Folding a placed live bar is folding the bar it was placed on, then the live row. */
  lemma PlacedFolds(r: Rollup, prev: YahooBar, live: YahooBar, t: int)
    ensures Fold(r, PlaceLiveBar(Some(prev), live, t)) == Fold(Fold(r, prev), live)
    ensures Fold(r, PlaceLiveBar(None, live, t)) == Fold(r, live)
  {
  }

  lemma RollUpLast(front: seq<YahooBar>, last: YahooBar, t: int, span: int)
    ensures RollUp(front + [last], t, span)
         == if t <= last.date < t + span then Fold(RollUp(front, t, span), last) else RollUp(front, t, span)
  {
    hide Fold;
    assert (front + [last])[..|front|] == front;
  }

  /**
   Replacing the two last bars by one placed in their common bucket keeps every roll-up that holds both or neither.
   */
  lemma MergedRollsUp(front: seq<YahooBar>, prev: YahooBar, live: YahooBar, t: int, span: int)
    requires (t <= prev.date < t + span) == (t <= live.date < t + span)
    ensures RollUp(front + [PlaceLiveBar(Some(prev), live, prev.date)], t, span)
            == RollUp(front + [prev, live], t, span)
  {
    hide Fold, PlaceLiveBar, RollUp;
    var merged := PlaceLiveBar(Some(prev), live, prev.date);
    assert merged.date == prev.date by { PlacedDate(Some(prev), live, prev.date); }
    RollUpLast(front, merged, t, span);
    RollUpLast(front, prev, t, span);
    RollUpLast(front + [prev], live, t, span);
    assert front + [prev] + [live] == front + [prev, live];
    PlacedFolds(RollUp(front, t, span), prev, live, prev.date);
  }

  lemma PlacedDate(existing: Option<YahooBar>, live: YahooBar, bucketTime: int)
    ensures PlaceLiveBar(existing, live, bucketTime).date == bucketTime
  {
  }

  /** Re-stamping the last bar within its bucket keeps every roll-up. */
  lemma RestampedRollsUp(front: seq<YahooBar>, live: YahooBar, bucket: int, t: int, span: int)
    requires (t <= bucket < t + span) == (t <= live.date < t + span)
    ensures RollUp(front + [PlaceLiveBar(None, live, bucket)], t, span) == RollUp(front + [live], t, span)
  {
    hide Fold, RollUp;
    RollUpLast(front, PlaceLiveBar(None, live, bucket), t, span);
    RollUpLast(front, live, t, span);
    PlacedFolds(RollUp(front, t, span), live, live, bucket);
  }

  // ---- intraday ----

  ghost predicate AscendingBars(bars: seq<YahooBar>) {
    forall i, j :: 0 <= i < j < |bars| ==> bars[i].date < bars[j].date
  }

  ghost predicate Aligned(bars: seq<YahooBar>, origin: int, span: int)
    requires span > 0
  {
    forall i :: 0 <= i < |bars| ==> OnGrid(bars[i].date, origin, span)
  }

  /** What an intraday chart looks like: ascending bars on one grid, and one trailing row that may be anywhere. */
  ghost predicate LiveChart(bars: seq<YahooBar>, span: int)
    requires span > 0
  {
    && |bars| >= 2
    && AscendingBars(bars[..|bars| - 1])
    && Aligned(bars[..|bars| - 1], bars[0].date, span)
  }

  /** The three ways an intraday chart is merged. */
  lemma MergeCases(bars: seq<YahooBar>, period: Period)
    requires PeriodMillis(period) < DAY_MS && LiveChart(bars, PeriodMillis(period))
    ensures var n, span, r := |bars|, PeriodMillis(period), MergeLiveBar(bars, period);
            var live, prev := bars[n - 1], bars[n - 2];
            var bucket := BucketTime(live.date, prev.date, span);
            || (r == bars && (live.date <= prev.date || OnGrid(live.date, prev.date, span)))
            || (prev.date < live.date && bucket == prev.date
                && r == bars[..n - 2] + [PlaceLiveBar(Some(prev), live, prev.date)])
            || (prev.date < live.date && bucket != prev.date && r == bars[..n - 1] + [PlaceLiveBar(None, live, bucket)])
  {
  }

  /** Two rows of one bucket lie in the same buckets of the grid. */
  lemma SameBuckets(bucket: int, live: int, t: int, origin: int, span: int)
    requires span > 0 && OnGrid(bucket, origin, span) && OnGrid(t, origin, span) && bucket <= live < bucket + span
    ensures (t <= bucket < t + span) == (t <= live < t + span)
  {
    hide OnGrid;
    GridSymmetric(t, origin, span);
    GridTransitive(origin, bucket, t, span);
    GridApart(t, bucket, span);
  }

  lemma FrontAligned(bars: seq<YahooBar>, span: int)
    requires span > 0 && LiveChart(bars, span)
    ensures |bars| >= 2
    ensures forall i :: 0 <= i < |bars| - 1 ==> OnGrid(bars[i].date, bars[0].date, span)
    ensures forall i, j :: 0 <= i < j < |bars| - 1 ==> bars[i].date < bars[j].date
  {
    hide OnGrid;
    var front := bars[..|bars| - 1];
    forall i | 0 <= i < |bars| - 1 ensures OnGrid(bars[i].date, bars[0].date, span) { assert front[i] == bars[i]; }
    forall i, j | 0 <= i < j < |bars| - 1 ensures bars[i].date < bars[j].date {
      assert front[i] == bars[i] && front[j] == bars[j];
    }
  }

  /** Putting a later bar of the same grid after the first `k` bars. */
  lemma AlignedAppend(bars: seq<YahooBar>, k: nat, last: YahooBar, origin: int, span: int)
    requires span > 0 && k <= |bars|
    requires forall i :: 0 <= i < k ==> OnGrid(bars[i].date, origin, span) && bars[i].date < last.date
    requires forall i, j :: 0 <= i < j < k ==> bars[i].date < bars[j].date
    requires OnGrid(last.date, origin, span)
    ensures AscendingBars(bars[..k] + [last]) && Aligned(bars[..k] + [last], origin, span)
  {
    hide OnGrid;
  }

  lemma OutOfOrder(bars: seq<YahooBar>)
    requires |bars| >= 2 && bars[|bars| - 1].date <= bars[|bars| - 2].date
    ensures !AscendingBars(bars)
  {
  }

  /** Only the last one or two bars change. */
  lemma MergeChangesTail(bars: seq<YahooBar>, period: Period)
    requires PeriodMillis(period) < DAY_MS && LiveChart(bars, PeriodMillis(period))
    ensures var n, r := |bars|, MergeLiveBar(bars, period);
            n - 1 <= |r| <= n && r[..n - 2] == bars[..n - 2] && (|r| == n ==> r[n - 2] == bars[n - 2])
  {
    hide *;
    FrontAligned(bars, PeriodMillis(period));
    MergeCases(bars, period);
  }

  /** A live row later than the bar before it, merged or re-stamped: the chart ends up ascending and on the grid. */
  lemma LaterRowAligns(bars: seq<YahooBar>, period: Period)
    requires PeriodMillis(period) < DAY_MS && LiveChart(bars, PeriodMillis(period))
    requires bars[|bars| - 2].date < bars[|bars| - 1].date
    ensures AscendingBars(MergeLiveBar(bars, period))
            && Aligned(MergeLiveBar(bars, period), bars[0].date, PeriodMillis(period))
  {
    hide *;
    FrontAligned(bars, PeriodMillis(period));
    var n, span, origin := |bars|, PeriodMillis(period), bars[0].date;
    var live, prev := bars[n - 1], bars[n - 2];
    var bucket := BucketTime(live.date, prev.date, span);
    MergeCases(bars, period);
    BucketOnGrid(live.date, prev.date, span);
    GridTransitive(prev.date, bucket, origin, span);
    PlacedDate(Some(prev), live, prev.date);
    PlacedDate(None, live, bucket);
    if OnGrid(live.date, prev.date, span) {
      GridTransitive(prev.date, live.date, origin, span);
      AlignedAppend(bars, n - 1, live, origin, span);
      assert bars[..n - 1] + [live] == bars;
    }
    if bucket == prev.date {
      AlignedAppend(bars, n - 2, PlaceLiveBar(Some(prev), live, prev.date), origin, span);
    } else {
      AlignedAppend(bars, n - 1, PlaceLiveBar(None, live, bucket), origin, span);
    }
  }

  /** After the merge the chart is ascending and wholly on the grid exactly when its live row came last. */
  lemma MergeAligns(bars: seq<YahooBar>, period: Period)
    requires PeriodMillis(period) < DAY_MS && LiveChart(bars, PeriodMillis(period))
    ensures var r := MergeLiveBar(bars, period);
            AscendingBars(r) && Aligned(r, bars[0].date, PeriodMillis(period)) <==>
                bars[|bars| - 2].date < bars[|bars| - 1].date
  {
    hide *;
    FrontAligned(bars, PeriodMillis(period));
    if bars[|bars| - 2].date < bars[|bars| - 1].date {
      LaterRowAligns(bars, period);
    } else {
      MergeCases(bars, period);
      OutOfOrder(bars);
    }
  }

  /** Every bucket of the grid keeps its open, high, low, close and volume. */
  lemma MergeKeepsBuckets(bars: seq<YahooBar>, period: Period, t: int)
    requires PeriodMillis(period) < DAY_MS && LiveChart(bars, PeriodMillis(period))
    requires OnGrid(t, bars[0].date, PeriodMillis(period))
    ensures RollUp(MergeLiveBar(bars, period), t, PeriodMillis(period)) == RollUp(bars, t, PeriodMillis(period))
  {
    hide *;
    FrontAligned(bars, PeriodMillis(period));
    var n, span, origin := |bars|, PeriodMillis(period), bars[0].date;
    var live, prev := bars[n - 1], bars[n - 2];
    MergeCases(bars, period);
    if prev.date < live.date {
      var bucket := BucketTime(live.date, prev.date, span);
      BucketOnGrid(live.date, prev.date, span);
      GridTransitive(prev.date, bucket, origin, span);
      SameBuckets(bucket, live.date, t, origin, span);
      if bucket == prev.date {
        MergedRollsUp(bars[..n - 2], prev, live, t, span);
        assert bars[..n - 2] + [prev, live] == bars;
      } else {
        RestampedRollsUp(bars[..n - 1], live, bucket, t, span);
        assert bars[..n - 1] + [live] == bars;
      }
    }
  }

  /** Once the trailing row is on the grid there is nothing left to merge. */
  lemma AlignedUnchanged(bars: seq<YahooBar>, period: Period)
    requires PeriodMillis(period) < DAY_MS
    requires |bars| >= 2 ==> OnGrid(bars[|bars| - 1].date, bars[|bars| - 2].date, PeriodMillis(period))
    ensures MergeLiveBar(bars, period) == bars
  {
  }

  lemma AlignedPair(a: int, b: int, origin: int, span: int)
    requires span > 0 && OnGrid(a, origin, span) && OnGrid(b, origin, span)
    ensures OnGrid(b, a, span)
  {
    hide OnGrid;
    GridSymmetric(a, origin, span);
    GridTransitive(origin, b, a, span);
  }

  /** Merging twice is merging once. */
  lemma MergeIdempotent(bars: seq<YahooBar>, period: Period)
    requires PeriodMillis(period) < DAY_MS && LiveChart(bars, PeriodMillis(period))
    ensures MergeLiveBar(MergeLiveBar(bars, period), period) == MergeLiveBar(bars, period)
  {
    hide OnGrid, MergeLiveBar, LiveChart, PlaceLiveBar, PeriodMillis;
    FrontAligned(bars, PeriodMillis(period));
    var n, span, r, origin := |bars|, PeriodMillis(period), MergeLiveBar(bars, period), bars[0].date;
    if bars[n - 2].date < bars[n - 1].date {
      LaterRowAligns(bars, period);
      if |r| >= 2 { AlignedPair(r[|r| - 2].date, r[|r| - 1].date, origin, span); }
      AlignedUnchanged(r, period);
    } else {
      MergeCases(bars, period);
    }
  }

  // ---- daily and weekly ----

  ghost predicate SpacedBars(bars: seq<YahooBar>, span: int) {
    forall i, j :: 0 <= i < j < |bars| ==> bars[i].date + span <= bars[j].date
  }

  /** The two ways a daily or weekly chart is merged. */
  lemma DailyCases(bars: seq<YahooBar>, period: Period)
    requires PeriodMillis(period) >= DAY_MS && |bars| >= 2
    ensures var n, span, r := |bars|, PeriodMillis(period), MergeLiveBar(bars, period);
            var live, prev := bars[n - 1], bars[n - 2];
            if 0 < live.date - prev.date < span then r == bars[..n - 2] + [PlaceLiveBar(Some(prev), live, prev.date)]
                else r == bars
  {
  }

  lemma FrontSpaced(bars: seq<YahooBar>, span: int)
    requires |bars| >= 2 && SpacedBars(bars[..|bars| - 1], span)
    ensures forall i, j :: 0 <= i < j < |bars| - 1 ==> bars[i].date + span <= bars[j].date
  {
    var front := bars[..|bars| - 1];
    forall i, j | 0 <= i < j < |bars| - 1 ensures bars[i].date + span <= bars[j].date {
      assert front[i] == bars[i] && front[j] == bars[j];
    }
  }

  lemma SpacedAppend(bars: seq<YahooBar>, k: nat, last: YahooBar, span: int)
    requires k <= |bars| && span > 0
    requires forall i, j :: 0 <= i < j < k ==> bars[i].date + span <= bars[j].date
    requires k > 0 ==> bars[k - 1].date + span <= last.date
    ensures SpacedBars(bars[..k] + [last], span)
  {
  }

  lemma NotSpaced(bars: seq<YahooBar>, span: int)
    requires |bars| >= 2 && span > 0 && bars[|bars| - 1].date <= bars[|bars| - 2].date
    ensures !SpacedBars(bars, span)
  {
  }

  /**
   Once the earlier bars are a period apart, the chart is spaced after the merge exactly when its last row comes later.
   */
  lemma DailyMergeSpaces(bars: seq<YahooBar>, period: Period)
    requires PeriodMillis(period) >= DAY_MS && |bars| >= 2 && SpacedBars(bars[..|bars| - 1], PeriodMillis(period))
    ensures var n, span, r := |bars|, PeriodMillis(period), MergeLiveBar(bars, period);
            && n - 1 <= |r| <= n && r[..n - 2] == bars[..n - 2]
            && (SpacedBars(r, span) <==> bars[n - 2].date < bars[n - 1].date)
  {
    hide MergeLiveBar, PlaceLiveBar;
    var n, span := |bars|, PeriodMillis(period);
    var live, prev := bars[n - 1], bars[n - 2];
    DailyCases(bars, period);
    FrontSpaced(bars, span);
    if prev.date + span <= live.date {
      SpacedAppend(bars, n - 1, live, span);
      assert bars[..n - 1] + [live] == bars;
    } else if prev.date < live.date {
      PlacedDate(Some(prev), live, prev.date);
      SpacedAppend(bars, n - 2, PlaceLiveBar(Some(prev), live, prev.date), span);
    } else {
      NotSpaced(bars, span);
    }
  }

  /** Merging a daily or weekly chart twice is merging it once. */
  lemma DailyMergeIdempotent(bars: seq<YahooBar>, period: Period)
    requires PeriodMillis(period) >= DAY_MS && |bars| >= 2 && SpacedBars(bars[..|bars| - 1], PeriodMillis(period))
    ensures MergeLiveBar(MergeLiveBar(bars, period), period) == MergeLiveBar(bars, period)
  {
    hide PlaceLiveBar;
    var n, span, r := |bars|, PeriodMillis(period), MergeLiveBar(bars, period);
    DailyMergeSpaces(bars, period);
    assert bars[n - 2].date < bars[n - 1].date && |r| >= 2 ==> r[|r| - 2].date + span <= r[|r| - 1].date;
  }

  /** The interval of every earlier bar keeps its open, high, low, close and volume. */
  lemma DailyMergeKeepsIntervals(bars: seq<YahooBar>, period: Period, i: nat)
    requires PeriodMillis(period) >= DAY_MS && |bars| >= 2 && SpacedBars(bars[..|bars| - 1], PeriodMillis(period))
             && i < |bars| - 1
    ensures RollUp(MergeLiveBar(bars, period), bars[i].date, PeriodMillis(period))
            == RollUp(bars, bars[i].date, PeriodMillis(period))
  {
    hide *;
    var n, span := |bars|, PeriodMillis(period);
    var live, prev := bars[n - 1], bars[n - 2];
    DailyCases(bars, period);
    FrontSpaced(bars, span);
    if 0 < live.date - prev.date < span {
      assert i < n - 2 ==> bars[i].date + span <= prev.date;
      MergedRollsUp(bars[..n - 2], prev, live, bars[i].date, span);
      assert bars[..n - 2] + [prev, live] == bars;
    }
  }

  // ---- the fetch ----

  /** A complete bar as a candle; an incomplete one, or a stock's or fund's without volume, is dropped. */
  function ToCandle(kind: SymbolType, bar: YahooBar): Option<Candle> {
    if bar.open.None? || bar.high.None? || bar.low.None? || bar.close.None? then None
    else if kind.Fx? then Some(FxCandle(bar.date, bar.open.value, bar.high.value, bar.low.value, bar.close.value))
    else if bar.volume.None? then None
    else Some(EquityCandle(kind.Fund?, bar.date, bar.open.value, bar.high.value, bar.low.value, bar.close.value,
                           bar.volume.value))
  }

  /** The candles of the complete bars, in order. */
  function CandlesOf(bars: seq<YahooBar>, kind: SymbolType): seq<Candle> {
    if bars == [] then []
    else
      var before, candle := CandlesOf(bars[..|bars| - 1], kind), ToCandle(kind, bars[|bars| - 1]);
      if candle.Some? then before + [candle.value] else before
  }

  /**
   `c` is a bar's candle: its four prices, all present, at its date, and for a stock or fund its volume, present too.
   */
  ghost predicate IsCandleOf(kind: SymbolType, bar: YahooBar, c: Candle) {
    && c.time == bar.date
    && bar.open == Some(c.open) && bar.high == Some(c.high) && bar.low == Some(c.low) && bar.close == Some(c.close)
    && (if kind == Fx then c.FxCandle? else c.EquityCandle? && c.fund == (kind == Fund) && bar.volume == Some(c.volume))
  }

  /** Exactly the complete bars' candles, ascending. */
  ghost predicate Ingested(bars: seq<YahooBar>, n: nat, kind: SymbolType, out: seq<Candle>)
    requires n <= |bars|
  {
    && Ascending(out)
    && forall c :: c in out <==> exists i :: 0 <= i < n && IsCandleOf(kind, bars[i], c)
  }

  lemma CandleIs(kind: SymbolType, bar: YahooBar)
    ensures forall c :: IsCandleOf(kind, bar, c) <==> ToCandle(kind, bar) == Some(c)
  {
  }

  /** Merge the live row, map the bars to candles, and keep the requested window. */
  method IngestChart(quotes: seq<YahooBar>, kind: SymbolType, period: Period, range: Option<(int, int)>)
    returns (candles: seq<Candle>)
    ensures var out := CandlesOf(MergeLiveBar(quotes, period), kind);
            candles == if range.Some? then Between(out, range.value.0, At(range.value.1)) else out
  {
    hide MergeLiveBar, ToCandle;
    var bars := MergeLiveBar(quotes, period);
    var out: seq<Candle> := [];
    for i := 0 to |bars|
      invariant out == CandlesOf(bars[..i], kind)
    {
      assert bars[..i + 1][..i] == bars[..i];
      var candle := ToCandle(kind, bars[i]);
      if candle.Some? { out := out + [candle.value]; }
    }
    assert bars[..|bars|] == bars;
    candles := if range.Some? then Between(out, range.value.0, At(range.value.1)) else out;
  }

  /** From ascending bars: exactly the complete bars' candles, strictly ascending in time. */
  lemma {:induction false} CandlesAscend(bars: seq<YahooBar>, kind: SymbolType, n: nat)
    requires AscendingBars(bars) && n <= |bars|
    ensures Ingested(bars, n, kind, CandlesOf(bars[..n], kind))
  {
    hide Ingested, ToCandle, AscendingBars;
    if n == 0 {
      IngestNone(bars, kind);
    } else {
      CandlesAscend(bars, kind, n - 1);
      assert bars[..n][..n - 1] == bars[..n - 1];
      IngestOne(bars, kind, CandlesOf(bars[..n - 1], kind), n - 1);
    }
  }

  lemma IngestNone(bars: seq<YahooBar>, kind: SymbolType)
    ensures Ingested(bars, 0, kind, [])
  {
  }

  lemma AppendAscends(out: seq<Candle>, c: Candle)
    requires Ascending(out) && forall d :: d in out ==> d.time < c.time
    ensures Ascending(out + [c])
  {
  }

  lemma IngestedBefore(bars: seq<YahooBar>, i: nat, kind: SymbolType, out: seq<Candle>)
    requires i < |bars| && AscendingBars(bars) && Ingested(bars, i, kind, out)
    ensures forall d :: d in out ==> d.time < bars[i].date
  {
    hide Ascending;
    forall d | d in out ensures d.time < bars[i].date {
      var j :| 0 <= j < i && IsCandleOf(kind, bars[j], d);
    }
  }

  lemma IngestOne(bars: seq<YahooBar>, kind: SymbolType, out: seq<Candle>, i: nat)
    requires i < |bars| && AscendingBars(bars) && Ingested(bars, i, kind, out)
    ensures var c := ToCandle(kind, bars[i]);
            Ingested(bars, i + 1, kind, if c.Some? then out + [c.value] else out)
  {
    hide ToCandle, Ascending;
    var c := ToCandle(kind, bars[i]);
    CandleIs(kind, bars[i]);
    if c.Some? {
      assert IsCandleOf(kind, bars[i], c.value);
      IngestedBefore(bars, i, kind, out);
      AppendAscends(out, c.value);
    }
    var out' := if c.Some? then out + [c.value] else out;
    forall d ensures d in out' <==> exists j :: 0 <= j < i + 1 && IsCandleOf(kind, bars[j], d) {
      if j :| 0 <= j < i + 1 && IsCandleOf(kind, bars[j], d) { assert j == i || d in out; }
    }
  }
}
