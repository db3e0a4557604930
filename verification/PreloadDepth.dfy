/** How deep a run preloads, and why a Moving walk then never falls through to the store. */
module PreloadDepth {
  import opened Candles
  import opened CandleStore
  import opened Repositories
  import opened Series
  import opened Paging
  import opened BarSeries
  import opened MovingAverages
  import opened IndicatorSeries
  import opened IndicatorPaging

  datatype Condition =
    | MovingLeaf(lookbackBars: nat)
    | OtherLeaf
    | Group(children: seq<Condition>)

  const PRELOAD_MARGIN_BARS := BAR_SERIES_PAGE_SIZE

  /** The deepest `Moving` walk (`lookbackBars + 1`) in a condition tree, 0 when there is none. */
  function MaxMovingDepth(node: Condition): nat {
    match node
    case MovingLeaf(lookback) => lookback + 1
    case OtherLeaf => 0
    case Group(children) => MaxMovingOf(children)
  }

  function MaxMovingOf(nodes: seq<Condition>): nat {
    if nodes == [] then 0 else Max(MaxMovingOf(nodes[..|nodes| - 1]), MaxMovingDepth(nodes[|nodes| - 1]))
  }

  /** A `Moving` leaf looking back `lookback` bars occurs somewhere in the tree. */
  predicate Occurs(node: Condition, lookback: nat) {
    match node
    case MovingLeaf(l) => l == lookback
    case OtherLeaf => false
    case Group(children) => exists i :: 0 <= i < |children| && Occurs(children[i], lookback)
  }

  /** The depth bounds every `Moving` leaf of the tree, and is reached by one of them unless there is none. */
  lemma {:induction false} DeepestMoving(node: Condition)
    ensures forall l: nat :: Occurs(node, l) ==> l + 1 <= MaxMovingDepth(node)
    ensures MaxMovingDepth(node) > 0 ==> Occurs(node, MaxMovingDepth(node) - 1)
    decreases node, if node.Group? then |node.children| + 1 else 0
  {
    if node.Group? {
      DeepestOf(node, |node.children|);
      assert node.children[..|node.children|] == node.children;
    }
  }

  lemma {:induction false} DeepestOf(node: Condition, n: nat)
    requires node.Group? && n <= |node.children|
    ensures forall i, l: nat :: 0 <= i < n && Occurs(node.children[i], l) ==> l + 1 <= MaxMovingOf(node.children[..n])
    ensures MaxMovingOf(node.children[..n]) > 0 ==>
              exists i :: 0 <= i < n && Occurs(node.children[i], MaxMovingOf(node.children[..n]) - 1)
    decreases node, n
  {
    if n > 0 {
      DeepestOf(node, n - 1);
      DeepestMoving(node.children[n - 1]);
      assert node.children[..n][..n - 1] == node.children[..n - 1];
    }
  }

  /** An instance's warm-up; an instance whose indicator is not registered has none. */
  function WarmupOf(instance: Option<Indicator>): int {
    if instance.Some? then instance.value.Warmup() else 0
  }

  function MaxWarmup(instances: seq<Option<Indicator>>): int {
    if instances == [] then 0 else Max(MaxWarmup(instances[..|instances| - 1]), WarmupOf(instances[|instances| - 1]))
  }

  /** The maximum bounds every registered instance's warm-up, and is one of them, or zero. */
  lemma {:induction false} MaxWarmupBounds(instances: seq<Option<Indicator>>)
    ensures MaxWarmup(instances) >= 0
    ensures forall inst :: inst in instances && inst.Some? ==> inst.value.Warmup() <= MaxWarmup(instances)
    ensures MaxWarmup(instances) == 0
            || exists inst :: inst in instances && inst.Some? && inst.value.Warmup() == MaxWarmup(instances)
  {
    if instances != [] {
      var n := |instances| - 1;
      MaxWarmupBounds(instances[..n]);
      assert instances == instances[..n] + [instances[n]];
    }
  }

  /** `derivePreloadBars`: deepest warm-up, plus deepest `Moving` walk, plus one page. */
  function DerivePreloadBars(rules: seq<Condition>, instances: seq<Option<Indicator>>): int {
    MaxWarmup(instances) + MaxMovingOf(rules) + PRELOAD_MARGIN_BARS
  }

  // ---- the window holds what a Moving walk reads ----

  /** Up to the bound no step of the history is longer than one period. */
  ghost predicate Gapless(s: seq<Candle>, ms: int, before: int) {
    && (forall i :: 0 < i < |s| ==> s[i].time - s[i - 1].time <= ms)
    && (CountBelow(s, At(before)) > 0 ==> s[CountBelow(s, At(before)) - 1].time + ms >= before)
  }

  lemma {:induction false} GaplessReach(s: seq<Candle>, ms: int, before: int, j: nat)
    requires Gapless(s, ms, before) && j < CountBelow(s, At(before))
    ensures s[CountBelow(s, At(before)) - 1 - j].time >= before - (j + 1) * ms
  {
    var k := CountBelow(s, At(before));
    if j > 0 {
      GaplessReach(s, ms, before, j - 1);
      assert s[k - j].time - s[k - j - 1].time <= ms;
      assert (j + 1) * ms == j * ms + ms;
    }
  }

  /** A window floored `bars` periods below the start holds `bars` candles below any later bound, or all history. */
  lemma WindowHolds(s: seq<Candle>, ms: int, bars: nat, start: int, before: int)
    requires Ascending(s) && ms > 0 && Gapless(s, ms, before) && start <= before
    ensures var lo := CountBelow(s, At(start - bars * ms));
            lo == 0 || lo <= CountBelow(s, At(before)) - bars
  {
    hide CountBelow, Gapless;
    var floor := start - bars * ms;
    var lo, k := CountBelow(s, At(floor)), CountBelow(s, At(before));
    BelowIsPrefix(s, At(floor));
    CountBelowMonotone(s, floor, before) by { assert bars * ms >= 0; }
    if lo > 0 && lo > k - bars {
      assert Below(s[lo - 1].time, At(floor));
      GaplessReach(s, ms, before, k - lo);
      assert (k - lo + 1) * ms <= bars * ms by { ProductOrder(k - lo + 1, bars, ms); }
      assert false;
    }
  }

  /**
   A read that reaches no deeper than the preload, or any read of a history no longer than it, is served from memory.
   */
  lemma ResidentRead(inner: Repository, symbolId: string, periods: seq<Period>, bars: nat, start: int, end: int,
                     p: Period, before: int, depth: int, read: Read)
    requires inner.Faithful() && p in periods
    requires var s := inner.Series(SeriesKey(symbolId, p));
             && Gapless(s, PeriodMillis(p), before) && Reaches(s, before, depth, read)
             && (depth <= bars || CountBelow(s, At(before)) <= bars)
    requires start <= before <= end
    ensures var repo := PreloadedView(inner, symbolId, periods, bars, start, end);
            repo.Preloaded? && !repo.Delegates(SeriesKey(symbolId, p), read)
  {
    hide Repository.Range, Repository.LatestN, Repository.Series, CountBelow, Gapless, Repository.Faithful,
         StoredRange, StoredLatestN, WindowsOf, LoadEntries, Earlier;
    var key := SeriesKey(symbolId, p);
    var s := inner.Series(key);
    var ms := PeriodMillis(p);
    var w := LoadWindow(inner, key, bars, start, end);
    SeriesAscending(inner, key);
    ReadThroughIsTransparent(inner, key);
    PreloadedWindow(inner, symbolId, periods, bars, start, end, p);
    WindowIsSlice(s, w);
    WindowHolds(s, ms, bars, start, before);
    ResidentServes(s, w, bars, before, depth, read);
  }

  lemma ResidentServes(s: seq<Candle>, w: Resident, bars: nat, before: int, depth: int, read: Read)
    requires Ascending(s) && Resides(s, w) && before <= w.end
    requires CountBelow(s, At(w.floor)) == 0 || CountBelow(s, At(w.floor)) <= CountBelow(s, At(before)) - bars
    requires Reaches(s, before, depth, read)
    requires depth <= bars || CountBelow(s, At(before)) <= bars
    ensures match read
            case RangeRead(from, to) => (from >= w.floor || w.completeBelow) && to <= w.end
            case LatestNRead(n, b) =>
              b.At? && b.t <= w.end && (n > 0 && !w.completeBelow ==> |LastN(Earlier(w.candles, b), n)| >= n)
  {
    hide CountBelow, StoredRange, StoredLatestN, Earlier;
    WindowIsSlice(s, w);
    match read
    case RangeRead(from, to) =>
      BelowIsPrefix(s, At(w.floor));
    case LatestNRead(n, b) =>
      EarlierInWindow(s, w, b.t);
  }

  // ---- the two walks ----

  /** On an axis every candle carries a whole walk has one point per candle. */
  lemma DenseLength(s: seq<Candle>, axis: BarAxis, before: int)
    requires Ascending(s)
    requires forall c :: c in s ==> ReadAxis(c, axis).Some?
    ensures |BarPoints(s, axis, before)| == CountBelow(s, At(before))
  {
    EarlierIsPrefix(s, At(before));
    ProjectDense(Reverse(s[..CountBelow(s, At(before))]), axis);
  }

  /** Pulling `n` points of such an axis reads at most one page more than `n` candles. */
  lemma DenseWalkDepth(s: seq<Candle>, axis: BarAxis, before: int, stop: Consumer,
                       points: seq<SeriesPoint>, log: seq<Read>, last: nat)
    requires Ascending(s)
             && Walked(s, BarPoints(s, axis, before), before, BAR_SERIES_PAGE_SIZE, stop, points, log, last)
    requires forall c :: c in s ==> ReadAxis(c, axis).Some?
    ensures |log| * BAR_SERIES_PAGE_SIZE <= |points| + BAR_SERIES_PAGE_SIZE
  {
    hide CountBelow, BarPoints, ReadAxis, Pulled, PagesTo, PageLog;
    if Stopped(points, stop) {
      StoppedWalkFetches(s, axis, before, BAR_SERIES_PAGE_SIZE, stop, points, log, last);
      StoppedDepth(last, BAR_SERIES_PAGE_SIZE);
    } else {
      PulledMeaning(BarPoints(s, axis, before), stop);
      DenseLength(s, axis, before);
      StoppedDepth(|points|, BAR_SERIES_PAGE_SIZE);
    }
  }

  /**
   A bar walk over an axis every candle carries that pulls at most the deepest `Moving` depth reads only resident
   candles.
   */
  lemma MovingBarWalkStaysResident(inner: Repository, symbolId: string, periods: seq<Period>, start: int, end: int,
                                   rules: seq<Condition>, instances: seq<Option<Indicator>>,
                                   p: Period, axis: BarAxis, before: int, stop: Consumer,
                                   points: seq<SeriesPoint>, log: seq<Read>, last: nat)
    requires inner.Faithful() && p in periods && start <= before <= end
    requires var s := inner.Series(SeriesKey(symbolId, p));
             && Gapless(s, PeriodMillis(p), before)
             && (forall c :: c in s ==> ReadAxis(c, axis).Some?)
             && Walked(s, BarPoints(s, axis, before), before, BAR_SERIES_PAGE_SIZE, stop, points, log, last)
    requires |points| <= MaxMovingOf(rules)
    ensures var bars := DerivePreloadBars(rules, instances);
            var repo := PreloadedView(inner, symbolId, periods, bars, start, end);
            repo.Preloaded? && forall r :: r in log ==> !repo.Delegates(SeriesKey(symbolId, p), r)
  {
    hide Repository.Range, Repository.LatestN, Repository.Series, CountBelow, Gapless, Repository.Faithful,
         Reaches, ReadAxis, BarPoints, Repository.Delegates, MaxMovingOf, MaxWarmup;
    var key := SeriesKey(symbolId, p);
    var s := inner.Series(key);
    var bars := DerivePreloadBars(rules, instances);
    SeriesAscending(inner, key);
    MaxWarmupBounds(instances);
    DenseWalkDepth(s, axis, before, stop, points, log, last);
    LogReaches(s, before, BAR_SERIES_PAGE_SIZE, log);
    PreloadedWindow(inner, symbolId, periods, bars, start, end, p);
    forall r | r in log ensures !PreloadedView(inner, symbolId, periods, bars, start, end).Delegates(key, r) {
      ResidentRead(inner, symbolId, periods, bars, start, end, p, before, |log| * BAR_SERIES_PAGE_SIZE, r);
    }
  }

  /** When the newest `i + 1` rows all project, the newest points are those rows. */
  lemma {:induction false} WarmPoints(rows: seq<Row>, stateKey: string, i: nat)
    requires i < |rows|
    requires forall j :: |rows| - 1 - i <= j < |rows| ==> Projected(rows[j], stateKey).Some?
    ensures i < |ProjectRows(rows, stateKey)|
    ensures Reverse(ProjectRows(rows, stateKey))[i].ts == rows[|rows| - 1 - i].time
  {
    hide Projected;
    if i > 0 { WarmPoints(rows[..|rows| - 1], stateKey, i - 1); }
  }

  /** Every row from index `warmup` on projects, as the pages compute it, up to the bound. */
  ghost predicate Warm(ind: Indicator, s: seq<Candle>, stateKey: string, before: int)
    requires ind.Warmup() >= 1
  {
    var k := CountBelow(s, At(before));
    forall j :: ind.Warmup() <= j < k ==> Projected(PagedRows(ind, s, k, INDICATOR_SERIES_PAGE_SIZE)[j], stateKey).Some?
  }

  /** The fields set on every warmed bar: for the volume-weighted average, when every candle traded. */
  ghost predicate Persistent(ind: Indicator, s: seq<Candle>, stateKey: string) {
    match ind
    case Sma(_, _) => stateKey == "value"
    case Vwma(_, _, _, _) => (stateKey == "value" || stateKey == "above") && forall c :: c in s ==>
                                                                               SourceOf(c, Volume) > 0.0
    case SupertrendOf(_) => stateKey == "value" || stateKey == "trend"
  }

  lemma {:induction false} VolumePositive(s: seq<Candle>, lo: nat, hi: nat)
    requires lo < hi <= |s| && forall c :: c in s ==> SourceOf(c, Volume) > 0.0
    ensures WindowSum(s, lo, hi, SourceWeight(Volume)) > 0.0
  {
    hide SourceOf;
    if lo < hi - 1 { VolumePositive(s, lo, hi - 1); }
    assert s[hi - 1] in s;
  }

  /** The persistent fields are warm on every history. */
  lemma PersistentFieldsAreWarm(ind: Indicator, s: seq<Candle>, stateKey: string, before: int)
    requires ind.Warmup() >= 1
    requires Persistent(ind, s, stateKey)
    ensures Warm(ind, s, stateKey, before)
  {
    hide PagedRows, CountBelow, Indicator.RowAt;
    var k := CountBelow(s, At(before));
    forall j | ind.Warmup() <= j < k
      ensures Projected(PagedRows(ind, s, k, INDICATOR_SERIES_PAGE_SIZE)[j], stateKey).Some?
    {
      var a, stop := PagedRowIs(ind, s, k, INDICATOR_SERIES_PAGE_SIZE, j);
      PersistentField(ind, s[InputStart(ind, a)..stop], j - InputStart(ind, a), stateKey);
    }
  }

  lemma PersistentField(ind: Indicator, s: seq<Candle>, i: nat, stateKey: string)
    requires ind.Warmup() >= 1 && ind.Warmup() <= i < |s|
    requires Persistent(ind, s, stateKey)
    ensures Projected(ind.RowAt(s, i), stateKey).Some?
  {
    hide WindowSum, Supertrend.CarryInto, Supertrend.Atr, Supertrend.StepAt, Supertrend.SupertrendRow;
    if ind.SupertrendOf? { Supertrend.WarmUp(s, i, ind.inputs); }
    if ind.Vwma? { VolumePositive(s, i + 1 - ind.length, i + 1); }
  }

  lemma WarmPointTime(ind: Indicator, s: seq<Candle>, before: int, stateKey: string, i: nat)
    requires Ascending(s) && ind.Warmup() >= 1 && i < CountBelow(s, At(before)) - ind.Warmup()
    requires Warm(ind, s, stateKey, before) && ind.Compute(Earlier(s, At(before))).Rows?
    ensures var points := PagedPoints(ind, s, CountBelow(s, At(before)), INDICATOR_SERIES_PAGE_SIZE, stateKey);
            i < |points| && points[i].ts == s[CountBelow(s, At(before)) - 1 - i].time
  {
    hide Indicator.RowAt, Projected, CountBelow, ProjectRows, Indicator.Warmup, Indicator.Compute, PagedPoints,
         PagedRows;
    var k := CountBelow(s, At(before));
    EarlierIsPrefix(s, At(before));
    var rows := PagedRows(ind, s, k, INDICATOR_SERIES_PAGE_SIZE);
    PagedPointsProject(ind, s, k, k, INDICATOR_SERIES_PAGE_SIZE, stateKey);
    WarmPoints(rows, stateKey, i);
    var _, _ := PagedRowIs(ind, s, k, INDICATOR_SERIES_PAGE_SIZE, k - 1 - i);
  }

  /**
   Pulling `n` points of a warm field reads one page and one warm-up more than `n` candles, or the history is no longer
   than `n` and the warm-up.
   */
  lemma WarmWalkDepth(ind: Indicator, s: seq<Candle>, before: int, stateKey: string, stop: Consumer,
                      points: seq<SeriesPoint>, log: seq<Read>, pages: seq<Read>, last: nat)
    requires Ascending(s) && ind.Warmup() >= 1
    requires ind.Compute(Earlier(s, At(before))).Rows?
    requires IndicatorWalked(ind, s, stateKey, before, INDICATOR_SERIES_PAGE_SIZE, stop, points, log, pages, last,
                             false)
    requires Warm(ind, s, stateKey, before)
    ensures || DepthOf(ind, s, before, INDICATOR_SERIES_PAGE_SIZE, |pages|) <= |points| + INDICATOR_SERIES_PAGE_SIZE
            + ind.Warmup()
            || CountBelow(s, At(before)) <= |points| + ind.Warmup()
  {
    hide PagedPoints, IndicatorPoints, Indicator.Compute, Indicator.RowAt, Warm, CountBelow, ProjectRows,
         Indicator.Warmup,
         Pulled, PageLog, PagesTo, AllReach, Left;
    var k := CountBelow(s, At(before));
    if k > |points| + ind.Warmup() {
      PulledMeaning(PagedPoints(ind, s, k, INDICATOR_SERIES_PAGE_SIZE, stateKey), stop);
      WarmPointTime(ind, s, before, stateKey, |points|);
      assert Stopped(points, stop);
      var i := |points| - 1;
      WarmPointTime(ind, s, before, stateKey, i);
      assert points[i] == PagedPoints(ind, s, k, INDICATOR_SERIES_PAGE_SIZE, stateKey)[i];
      assert s[k - 1 - last].time == s[k - 1 - i].time;
      assert last == i;
      StoppedDepth(last, INDICATOR_SERIES_PAGE_SIZE);
      LeftIs(k, |pages|, INDICATOR_SERIES_PAGE_SIZE);
    }
  }

  /**
   An indicator walk over a field warm on every row past its warm-up that pulls at most the
   deepest `Moving` depth reads only resident candles, each page's warm-up included.
   */
  lemma MovingIndicatorWalkStaysResident(inner: Repository, symbolId: string, periods: seq<Period>, start: int,
                                         end: int,
                                         rules: seq<Condition>, instances: seq<Option<Indicator>>,
                                         p: Period, ind: Indicator, stateKey: string, before: int, stop: Consumer,
                                         points: seq<SeriesPoint>, log: seq<Read>, pages: seq<Read>, last: nat)
    requires inner.Faithful() && p in periods && start <= before <= end
    requires Some(ind) in instances && ind.Warmup() >= 1
    requires var s := inner.Series(SeriesKey(symbolId, p));
             && Gapless(s, PeriodMillis(p), before)
             && ind.Compute(Earlier(s, At(before))).Rows?
             && IndicatorWalked(ind, s, stateKey, before, INDICATOR_SERIES_PAGE_SIZE, stop, points, log, pages, last,
                                false)
             && Warm(ind, s, stateKey, before)
    requires |points| <= MaxMovingOf(rules)
    ensures var bars := DerivePreloadBars(rules, instances);
            var repo := PreloadedView(inner, symbolId, periods, bars, start, end);
            repo.Preloaded? && forall r :: r in log ==> !repo.Delegates(SeriesKey(symbolId, p), r)
  {
    hide Repository.Range, Repository.LatestN, Repository.Series, CountBelow, Gapless, Repository.Faithful, Reaches,
         Repository.Delegates, MaxMovingOf, MaxWarmup, Indicator.Compute, Indicator.RowAt, Indicator.Warmup, Walked,
             PagedPoints,
         Pulled, Warm, DepthOf;
    var key := SeriesKey(symbolId, p);
    var s := inner.Series(key);
    var bars := DerivePreloadBars(rules, instances);
    SeriesAscending(inner, key);
    MaxWarmupBounds(instances);
    assert WarmupOf(Some(ind)) <= MaxWarmup(instances);
    WarmWalkDepth(ind, s, before, stateKey, stop, points, log, pages, last);
    var depth := DepthOf(ind, s, before, INDICATOR_SERIES_PAGE_SIZE, |pages|);
    PreloadedWindow(inner, symbolId, periods, bars, start, end, p);
    forall r | r in log ensures !PreloadedView(inner, symbolId, periods, bars, start, end).Delegates(key, r) {
      ResidentRead(inner, symbolId, periods, bars, start, end, p, before, depth, r);
    }
  }
}
