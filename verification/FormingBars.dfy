/** A coarse series with its forming bar synthesized from finer candles, layered on the closed tail. */
module FormingBars {
  import opened Candles
  import opened CandleStore
  import opened Repositories
  import opened Series
  import opened Paging
  import opened BarSeries
  import opened Rollup

  /** The fine candles of the window containing `before - 1`, newest first. */
  function WindowCandles(fine: seq<Candle>, before: int, ms: int): seq<Candle>
    requires ms > 0
  {
    Reverse(Between(fine, WindowStart(before - 1, ms), At(before)))
  }

  function FormingValue(fine: seq<Candle>, axis: BarAxis, before: int, ms: int): Option<real>
    requires ms > 0
  {
    RollUp(AxisValues(WindowCandles(fine, before, ms), axis), axis)
  }

  /**
   The layered series: the forming bar when its window holds the axis, then the closed coarse bars below the window.
   */
  function FormingPoints(fine: seq<Candle>, coarse: seq<Candle>, axis: BarAxis, before: int, ms: int): seq<SeriesPoint>
    requires ms > 0
  {
    var value := FormingValue(fine, axis, before, ms);
    var start := WindowStart(before - 1, ms);
    (if value.Some? then [SeriesPoint(start, NumberValue(value.value))] else []) + BarPoints(coarse, axis, start)
  }

  lemma WindowStartBounds(t: int, ms: int)
    requires ms > 0
    ensures WindowStart(t, ms) <= t < WindowStart(t, ms) + ms
    ensures WindowStart(t, ms) % ms == 0
  {
    var q := t / ms;
    assert t == q * ms + t % ms;
    assert q * ms % ms == 0 by { MultipleMod(q, ms); }
  }

  lemma MultipleMod(q: int, ms: int)
    requires ms > 0
    ensures q * ms % ms == 0
  {
    var r := q * ms % ms;
    var d := q * ms / ms;
    assert q * ms == d * ms + r;
    assert (q - d) * ms == r;
    assert q - d >= 1 ==> (q - d) * ms >= ms;
    assert q - d <= -1 ==> (q - d) * ms <= -ms;
  }

  /** Of two multiples of a period, the smaller is at least one period below. */
  lemma MultiplesApart(a: int, b: int, ms: int)
    requires ms > 0 && a % ms == 0 && b % ms == 0 && a < b
    ensures a + ms <= b
  {
    var p, q := a / ms, b / ms;
    assert a == p * ms && b == q * ms;
    if q <= p { ProductOrder(q, p, ms); } else { ProductOrder(p + 1, q, ms); }
  }

  /** The layered walk is strictly newest first and never reaches the bound. */
  lemma FormingPointsDescend(fine: seq<Candle>, coarse: seq<Candle>, axis: BarAxis, before: int, ms: int)
    requires Ascending(coarse) && ms > 0
    ensures Descending(FormingPoints(fine, coarse, axis, before, ms))
    ensures forall p :: p in FormingPoints(fine, coarse, axis, before, ms) ==> p.ts < before
  {
    hide FormingValue, BarPoints, WindowStart;
    var start := WindowStart(before - 1, ms);
    WindowStartBounds(before - 1, ms);
    BarPointsDescend(coarse, axis, start);
    var tail := BarPoints(coarse, axis, start);
    assert forall i :: 0 <= i < |tail| ==> tail[i] in tail;
  }

  /** When coarse bars open on multiples of their period, the tail holds no bar still open at the last instant read. */
  lemma TailIsClosed(coarse: seq<Candle>, axis: BarAxis, before: int, ms: int)
    requires Ascending(coarse) && ms > 0
    requires forall c :: c in coarse ==> c.time % ms == 0
    ensures forall p :: p in BarPoints(coarse, axis, WindowStart(before - 1, ms)) ==> p.ts + ms <= before - 1
  {
    hide WindowStart, BarPoints;
    var start := WindowStart(before - 1, ms);
    WindowStartBounds(before - 1, ms);
    BarPointsDescend(coarse, axis, start);
    forall p | p in BarPoints(coarse, axis, start) ensures p.ts + ms <= before - 1 {
      BarPointsAreBars(coarse, axis, start, p);
      MultiplesApart(p.ts, start, ms);
    }
  }

  /** Candles of one asset class: all carry volume, or none does. */
  ghost predicate VolumeUniform(s: seq<Candle>) {
    forall c, d :: c in s && d in s ==> c.FxCandle? == d.FxCandle?
  }

  /**
   The backend's forming value is what the UI's forming candle shows for the axis whenever the newest candle lies in the
   bucket being read; when it does not, the backend has no forming value, though the UI still shows the older bucket.
   */
  lemma FormingMatchesChart(fine: seq<Candle>, axis: BarAxis, before: int, ms: int)
    requires Ascending(fine) && ms > 0 && VolumeUniform(fine)
    ensures var candles := Earlier(fine, At(before));
            if candles != [] && WindowStart(candles[|candles| - 1].time, ms) == WindowStart(before - 1, ms)
            then FormingValue(fine, axis, before, ms) == ReadAxis(FormingCandle(candles, ms).value, axis)
            else FormingValue(fine, axis, before, ms) == None
  {
    hide WindowStart, FoldBucket, Earlier, Between, LatestBucket, ReadAxis, MaxOf, MinOf, SumOf;
    var candles, start := Earlier(fine, At(before)), WindowStart(before - 1, ms);
    SameBucket(fine, before, ms);
    if candles != [] && WindowStart(candles[|candles| - 1].time, ms) == start {
      var bucket := LatestBucket(candles, ms);
      LatestInBucket(candles, ms);
      BucketUniform(fine, start, before);
      RollUpsAgree(bucket, start, axis);
    } else {
      assert Reverse<Candle>([]) == [];
    }
  }

  lemma BucketUniform(s: seq<Candle>, start: int, before: int)
    requires Ascending(s) && VolumeUniform(s)
    ensures VolumeUniform(Between(s, start, At(before)))
  {
    BetweenIsSlice(s, start, At(before));
  }

  lemma BarPointsAreBars(s: seq<Candle>, axis: BarAxis, before: int, p: SeriesPoint)
    requires Ascending(s) && p in BarPoints(s, axis, before)
    ensures exists c :: c in s && c.time == p.ts && ReadAxis(c, axis).Some?
              && p.value == NumberValue(ReadAxis(c, axis).value)
  {
    EarlierIsPrefix(s, At(before));
    var newestFirst := Reverse(s[..CountBelow(s, At(before))]);
    ProjectedFrom(newestFirst, axis, p);
  }

  lemma {:induction false} ProjectedFrom(candles: seq<Candle>, axis: BarAxis, p: SeriesPoint)
    requires p in Project(candles, axis)
    ensures exists c :: c in candles && c.time == p.ts && ReadAxis(c, axis).Some?
              && p.value == NumberValue(ReadAxis(c, axis).value)
  {
    var v := ReadAxis(candles[0], axis);
    assert candles[0] in candles;
    if v.None? || p != SeriesPoint(candles[0].time, NumberValue(v.value)) {
      ProjectedFrom(candles[1..], axis, p);
    }
  }

  // ---- collecting the window ----

  /** Walking `[e, k)` of the fine series is done; `lo` is where the window starts. */
  ghost predicate Collected(fine: seq<Candle>, windowStart: int, cap: int, cursor: int, e: int, window: seq<Candle>) {
    var lo, k := CountBelow(fine, At(windowStart)), CountBelow(fine, At(cap + 1));
    && lo <= e <= k
    && e == CountBelow(fine, At(cursor))
    && window == Reverse(fine[e..k])
  }

  /** Keep a page's candles down to the window's start; `crossed` says the page reached below it. */
  method KeepInWindow(page: seq<Candle>, windowStart: int, before: seq<Candle>)
    returns (window: seq<Candle>, crossed: bool, ghost kept: nat)
    ensures kept <= |page| && window == before + page[..kept]
    ensures forall i :: 0 <= i < kept ==> page[i].time >= windowStart
    ensures crossed <==> kept < |page|
    ensures crossed ==> page[kept].time < windowStart
  {
    window, crossed := before, false;
    var i := 0;
    while i < |page|
      invariant 0 <= i <= |page|
      invariant window == before + page[..i]
      invariant forall j :: 0 <= j < i ==> page[j].time >= windowStart
    {
      if page[i].time < windowStart {
        crossed, kept := true, i;
        return;
      }
      window := window + [page[i]];
      i := i + 1;
    }
    kept := i;
  }

  lemma CollectPage(fine: seq<Candle>, windowStart: int, cap: int, cursor: int, e: int, window: seq<Candle>,
                    page: seq<Candle>, kept: nat)
    requires Ascending(fine) && windowStart <= cap
    requires Collected(fine, windowStart, cap, cursor, e, window)
    requires |page| <= e && page == Reverse(fine[e - |page|..e]) && kept <= |page|
    requires forall i :: 0 <= i < kept ==> page[i].time >= windowStart
    ensures window + page[..kept] == Reverse(fine[e - kept..CountBelow(fine, At(cap + 1))])
    ensures CountBelow(fine, At(windowStart)) <= e - kept
    ensures kept < |page| && page[kept].time < windowStart ==> CountBelow(fine, At(windowStart)) == e - kept
  {
    hide CountBelow, Ascending;
    BelowIsPrefix(fine, At(windowStart));
    var lo := CountBelow(fine, At(windowStart));
    assert kept > 0 ==> page[kept - 1] == fine[e - kept];
    assert kept < |page| ==> page[kept] == fine[e - kept - 1];
  }

  /** `formingAt`: page the fine candles back to the window's start, then roll them up. */
  method FormingAt(repo: Repository, fineKey: SeriesKey, ms: int, axis: BarAxis, cap: int, pageSize: int)
    returns (windowStart: int, value: Option<real>)
    requires repo.Faithful() && ms > 0 && pageSize > 0
    ensures windowStart == WindowStart(cap, ms)
    ensures value == FormingValue(repo.Series(fineKey), axis, cap + 1, ms)
  {
    windowStart := WindowStart(cap, ms);
    ghost var fine := repo.Series(fineKey);
    SeriesAscending(repo, fineKey);
    WindowStartBounds(cap, ms);
    var window := CollectWindow(repo, fineKey, windowStart, cap, pageSize);
    value := AggregateAxis(window, axis);
  }

  method CollectWindow(repo: Repository, fineKey: SeriesKey, windowStart: int, cap: int, pageSize: int)
    returns (window: seq<Candle>)
    requires repo.Faithful() && pageSize > 0 && windowStart <= cap
    ensures window == Reverse(Between(repo.Series(fineKey), windowStart, At(cap + 1)))
  {
    hide *;
    ghost var fine := repo.Series(fineKey);
    SeriesAscending(repo, fineKey);
    window := [];
    var cursor := cap + 1;
    ghost var e: nat := CountBelow(fine, At(cap + 1));
    CollectStarts(fine, windowStart, cap);
    while true
      invariant e <= |fine| && e == CountBelow(fine, At(cursor))
      invariant Collected(fine, windowStart, cap, cursor, e, window)
      decreases e
    {
      var page := FetchPage(repo, fineKey, pageSize, cursor);
      ghost var was := window;
      if |page| == 0 {
        CollectedAll(fine, windowStart, cap, cursor, e, window);
        break;
      }
      var crossed;
      ghost var kept;
      window, crossed, kept := KeepInWindow(page, windowStart, window);
      if crossed || |page| < pageSize {
        CollectStops(fine, windowStart, cap, cursor, e, was, page, kept);
        break;
      }
      CollectContinues(fine, windowStart, cap, cursor, e, was, page);
      cursor := page[|page| - 1].time;
      e := e - |page|;
    }
  }

  lemma CollectStarts(fine: seq<Candle>, windowStart: int, cap: int)
    requires windowStart <= cap
    ensures Collected(fine, windowStart, cap, cap + 1, CountBelow(fine, At(cap + 1)), [])
  {
    CountBelowMonotone(fine, windowStart, cap + 1);
  }

  /** Down to the window's start, the collected candles are the window's. */
  lemma CollectedDown(fine: seq<Candle>, windowStart: int, cap: int, window: seq<Candle>, e: nat)
    requires Ascending(fine) && windowStart <= cap
    requires e == CountBelow(fine, At(windowStart)) <= CountBelow(fine, At(cap + 1))
    requires window == Reverse(fine[e..CountBelow(fine, At(cap + 1))])
    ensures window == Reverse(Between(fine, windowStart, At(cap + 1)))
  {
    hide CountBelow, Between, Ascending, Reverse;
    BetweenIsSlice(fine, windowStart, At(cap + 1));
  }

  /** With nothing older left, everything of the window is collected. */
  lemma CollectedAll(fine: seq<Candle>, windowStart: int, cap: int, cursor: int, e: nat, window: seq<Candle>)
    requires Ascending(fine) && windowStart <= cap && e == 0
    requires Collected(fine, windowStart, cap, cursor, e, window)
    ensures window == Reverse(Between(fine, windowStart, At(cap + 1)))
  {
    hide CountBelow, Between, Ascending, Reverse;
    CollectedDown(fine, windowStart, cap, window, 0);
  }

  /** A page that crosses the window's start, or that ends the history, completes the window. */
  lemma CollectStops(fine: seq<Candle>, windowStart: int, cap: int, cursor: int, e: nat, window: seq<Candle>,
                     page: seq<Candle>, kept: nat)
    requires Ascending(fine) && windowStart <= cap
    requires Collected(fine, windowStart, cap, cursor, e, window)
    requires |page| <= e <= |fine| && page == Reverse(fine[e - |page|..e]) && kept <= |page|
    requires forall i :: 0 <= i < kept ==> page[i].time >= windowStart
    requires if kept < |page| then page[kept].time < windowStart else |page| == e
    ensures window + page[..kept] == Reverse(Between(fine, windowStart, At(cap + 1)))
  {
    hide CountBelow, Between, Ascending, Reverse, Collected;
    CollectPage(fine, windowStart, cap, cursor, e, window, page, kept);
    CountBelowMonotone(fine, windowStart, cap + 1);
    CollectedDown(fine, windowStart, cap, window + page[..kept], e - kept);
  }

  /** A full page inside the window: collecting continues below its oldest candle. */
  lemma CollectContinues(fine: seq<Candle>, windowStart: int, cap: int, cursor: int, e: nat, window: seq<Candle>,
                         page: seq<Candle>)
    requires Ascending(fine) && windowStart <= cap
    requires Collected(fine, windowStart, cap, cursor, e, window)
    requires 0 < |page| <= e <= |fine| && page == Reverse(fine[e - |page|..e])
    requires forall i :: 0 <= i < |page| ==> page[i].time >= windowStart
    ensures CountBelow(fine, At(page[|page| - 1].time)) == e - |page|
    ensures Collected(fine, windowStart, cap, page[|page| - 1].time, e - |page|, window + page[..|page|])
  {
    hide CountBelow, Ascending;
    CollectPage(fine, windowStart, cap, cursor, e, window, page, |page|);
    assert page[|page| - 1] == fine[e - |page|];
    CountBelowAt(fine, e - |page|);
  }

  // ---- the view ----

  lemma {:induction false} ConsumeAfter(first: SeriesPoint, seen: seq<SeriesPoint>, rest: seq<SeriesPoint>,
                                        stop: Consumer)
    ensures Consume([first] + seen, rest, stop)
         == [first] + Consume(seen, rest, (points: seq<SeriesPoint>) => stop([first] + points))
    decreases |rest|
  {
    if rest != [] {
      assert [first] + (seen + [rest[0]]) == ([first] + seen) + [rest[0]];
      ConsumeAfter(first, seen + [rest[0]], rest[1..], stop);
    }
  }

  /** `FormingBarSeriesView.backwardWalk` driven by a consumer, independent of page size and preloading. */
  method FormingBackwardWalk(repo: Repository, key: SeriesKey, fineKey: SeriesKey, axis: BarAxis, before: int,
                             pageSize: int, stop: Consumer)
    returns (points: seq<SeriesPoint>)
    requires repo.Faithful() && pageSize > 0
    ensures points == Pulled(FormingPoints(repo.Series(fineKey), repo.Series(key), axis, before,
                                           PeriodMillis(key.period)), stop)
  {
    hide *;
    var ms := PeriodMillis(key.period);
    ghost var fine, coarse := repo.Series(fineKey), repo.Series(key);
    var start, value := FormingAt(repo, fineKey, ms, axis, before - 1, pageSize);
    LayersOf(fine, coarse, axis, before, ms, stop);
    var log;
    ghost var last;
    if value.Some? {
      var forming := SeriesPoint(start, NumberValue(value.value));
      if stop([forming]) {
        return [forming];
      }
      var tail;
      tail, log, last := BackwardWalk(repo, key, axis, start, pageSize,
                                      (points: seq<SeriesPoint>) => stop([forming] + points));
      points := [forming] + tail;
      WalkedPulls(coarse, axis, start, pageSize, (points: seq<SeriesPoint>) => stop([forming] + points), tail, log,
                  last);
    } else {
      points, log, last := BackwardWalk(repo, key, axis, start, pageSize, stop);
      WalkedPulls(coarse, axis, start, pageSize, stop, points, log, last);
    }
  }

  lemma WalkedPulls(s: seq<Candle>, axis: BarAxis, before: int, pageSize: int, stop: Consumer,
                    points: seq<SeriesPoint>, log: seq<Read>, last: nat)
    requires pageSize > 0 && Walked(s, BarPoints(s, axis, before), before, pageSize, stop, points, log, last)
    ensures points == Pulled(BarPoints(s, axis, before), stop)
  {
  }

  lemma LayersOf(fine: seq<Candle>, coarse: seq<Candle>, axis: BarAxis, before: int, ms: int, stop: Consumer)
    requires ms > 0
    ensures var value, start := FormingValue(fine, axis, before, ms), WindowStart(before - 1, ms);
            var pulled := Pulled(FormingPoints(fine, coarse, axis, before, ms), stop);
            if value.None? then pulled == Pulled(BarPoints(coarse, axis, start), stop)
            else
              var forming := SeriesPoint(start, NumberValue(value.value));
              if stop([forming]) then pulled == [forming]
              else pulled == [forming] +
                   Pulled(BarPoints(coarse, axis, start), (points: seq<SeriesPoint>) => stop([forming] + points))
  {
    hide FormingValue, BarPoints;
    var value, start := FormingValue(fine, axis, before, ms), WindowStart(before - 1, ms);
    var tail := BarPoints(coarse, axis, start);
    if value.None? {
      assert FormingPoints(fine, coarse, axis, before, ms) == tail;
    } else {
      var forming := SeriesPoint(start, NumberValue(value.value));
      var all := FormingPoints(fine, coarse, axis, before, ms);
      assert all[0] == forming && all[1..] == tail && [] + [forming] == [forming];
      assert [forming] + [] == [forming];
      ConsumeAfter(forming, [], tail, stop);
    }
  }

  /** `FormingBarSeriesView.asOf`: always the first point of the layered walk at or before the query. */
  method FormingAsOf(repo: Repository, key: SeriesKey, fineKey: SeriesKey, axis: BarAxis, before: int, pageSize: int,
                     queryTs: int)
    returns (r: Option<SeriesPoint>)
    requires repo.Faithful() && pageSize > 0
    ensures r == AsOfPoint(FormingPoints(repo.Series(fineKey), repo.Series(key), axis, before,
                                         PeriodMillis(key.period)), queryTs)
  {
    hide *;
    var ms := PeriodMillis(key.period);
    var start, value := FormingAt(repo, fineKey, ms, axis, before - 1, pageSize);
    FormingFirst(repo.Series(fineKey), repo.Series(key), axis, before, ms, queryTs);
    if value.Some? && queryTs >= start {
      return Some(SeriesPoint(start, NumberValue(value.value)));
    }
    var log;
    r, log := AsOf(repo, key, axis, start, pageSize, queryTs);
  }

  lemma FormingFirst(fine: seq<Candle>, coarse: seq<Candle>, axis: BarAxis, before: int, ms: int, queryTs: int)
    requires ms > 0
    ensures var value, start := FormingValue(fine, axis, before, ms), WindowStart(before - 1, ms);
            AsOfPoint(FormingPoints(fine, coarse, axis, before, ms), queryTs) ==
            if value.Some? && queryTs >= start then Some(SeriesPoint(start, NumberValue(value.value)))
            else AsOfPoint(BarPoints(coarse, axis, start), queryTs)
  {
    hide FormingValue, BarPoints;
    var start := WindowStart(before - 1, ms);
    var all, tail := FormingPoints(fine, coarse, axis, before, ms), BarPoints(coarse, axis, start);
    if FormingValue(fine, axis, before, ms).Some? {
      assert all[1..] == tail;
    } else {
      assert all == tail;
    }
  }
}
