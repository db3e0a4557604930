/** The paged backward view over one indicator field, recomputed page by page. */
module IndicatorSeries {
  import opened Candles
  import opened CandleStore
  import opened Repositories
  import opened Series
  import opened Paging
  import opened MovingAverages
  import Supertrend

  const INDICATOR_SERIES_PAGE_SIZE := 64

  // ---- indicators behind one interface ----

  datatype Indicator =
    | Sma(length: int, source: PriceSource)
    | Vwma(length: int, source: PriceSource, multiplier: real, direction: Direction)
    | SupertrendOf(inputs: Supertrend.Inputs)
  {
    /** `warmup(inputs)`: how many bars before a range the compute service loads. */
    function Warmup(): int {
      match this
      case Sma(length, _) => length
      case Vwma(length, _, _, _) => length
      case SupertrendOf(inputs) => inputs.atrPeriod
    }

    predicate ValidInputs() {
      && 1 <= Warmup() <= 1000
      && (Vwma? ==> multiplier >= 0.0)
      && (SupertrendOf? ==> inputs.multiplier >= 0.0)
    }

    predicate AppliesTo(t: SymbolType) {
      Vwma? ==> !t.Fx?
    }

    function Compute(s: seq<Candle>): ComputeResult
      requires Warmup() >= 1
    {
      match this
      case Sma(length, source) => SmaCompute(s, length, source)
      case Vwma(length, source, multiplier, direction) => VwmaCompute(s, length, source, multiplier, direction)
      case SupertrendOf(inputs) => Supertrend.SupertrendCompute(s, inputs)
    }

    /** Row `i` of the indicator over the candles `s`. */
    function RowAt(s: seq<Candle>, i: nat): Row
      requires Warmup() >= 1 && i < |s|
    {
      match this
      case Sma(length, source) => SmaRow(s, i, length, source)
      case Vwma(length, source, multiplier, direction) => VwmaRow(s, i, length, source, multiplier, direction)
      case SupertrendOf(inputs) => Supertrend.SupertrendRow(s, i, inputs)
    }

    /** Whether the source selector resolves on a candle, volume included where the indicator weighs by it. */
    predicate Resolves(c: Candle) {
      match this
      case Sma(_, source) => ResolveSource(c, source).Some?
      case Vwma(_, source, _, _) => ResolveSource(c, source).Some? && ResolveSource(c, Volume).Some?
      case SupertrendOf(inputs) => ResolveSource(c, inputs.source).Some?
    }
  }

  method RunCompute(ind: Indicator, s: seq<Candle>) returns (r: ComputeResult)
    requires ind.Warmup() >= 1
    ensures r == ind.Compute(s)
  {
    match ind
    case Sma(length, source) => r := ComputeSma(s, length, source);
    case Vwma(length, source, multiplier, direction) => r := ComputeVwma(s, length, source, multiplier, direction);
    case SupertrendOf(inputs) => r := Supertrend.ComputeSupertrend(s, inputs);
  }

  /** A compute that does not throw has one row per candle, at its time. */
  lemma ComputeRows(ind: Indicator, s: seq<Candle>)
    requires ind.Warmup() >= 1
    ensures ind.Compute(s).Rows? ==>
              && |ind.Compute(s).rows| == |s|
              && forall i :: 0 <= i < |s| ==>
                   ind.Compute(s).rows[i] == ind.RowAt(s, i) && ind.RowAt(s, i).time == s[i].time
  {
    hide SmaValue, VwmaValue, VwmaFieldsAt, Supertrend.CarryInto, Supertrend.Atr;
  }

  /** Where every candle resolves, nothing throws. */
  lemma ResolvingNeverThrows(ind: Indicator, s: seq<Candle>)
    requires ind.Warmup() >= 1
    requires forall c :: c in s ==> ind.Resolves(c)
    ensures ind.Compute(s).Rows?
  {
    hide ResolveSource;
    assert forall i :: 0 <= i < |s| ==> s[i] in s;
  }

  // ---- the compute service ----

  /** The watchlist as the service reads it: each watched symbol's asset class. */
  type Watchlist = map<string, SymbolType>

  predicate Accepts(watched: Watchlist, symbolId: string, ind: Indicator) {
    symbolId in watched && ind.AppliesTo(watched[symbolId]) && ind.ValidInputs()
  }

  /** The candles one compute reads: the warm-up bars before `from`, then `[from, to)`. */
  function ComputeInput(s: seq<Candle>, warmup: int, from: int, to: int): seq<Candle> {
    Reverse(StoredLatestN(s, warmup, At(from))) + StoredRange(s, from, to, None)
  }

  /**
   A request that is valid with `length` bars of warm-up: the symbol is watched, the indicator's length or period is
   that and from 1 to 1000, its multiplier not negative, and a volume-weighted average is only of a class with volume.
   */
  ghost predicate Acceptable(watched: Watchlist, symbolId: string, ind: Indicator, length: int) {
    && symbolId in watched && 1 <= length <= 1000
    && match ind
       case Sma(n, _) => n == length
       case Vwma(n, _, multiplier, _) => n == length && multiplier >= 0.0 && watched[symbolId] != Fx
       case SupertrendOf(inputs) => inputs.atrPeriod == length && inputs.multiplier >= 0.0
  }

  /**
   `IndicatorService.compute` over an explicit range: validate, load warm-up and range, compute, slice to the range.
   */
  method ServiceCompute(repo: Repository, watched: Watchlist, key: SeriesKey, ind: Indicator, from: int, to: int)
    returns (r: ComputeResult, log: seq<Read>)
    requires repo.Faithful()
    ensures Accepts(watched, key.symbolId, ind) <==> exists length :: Acceptable(watched, key.symbolId, ind, length)
    ensures !Accepts(watched, key.symbolId, ind) ==> r == Throws && log == []
    ensures forall length :: Acceptable(watched, key.symbolId, ind, length) ==>
              && ind.Warmup() == length && log == [LatestNRead(length, At(from)), RangeRead(from, to)]
              && var full := ind.Compute(ComputeInput(repo.Series(key), length, from, to));
                 r == if full.Throws? then Throws else Rows(Filter(full.rows, (row: Row) => from <= row.time < to))
  {
    AcceptedRequests(watched, key.symbolId, ind);
    if !Accepts(watched, key.symbolId, ind) {
      return Throws, [];
    }
    hide *;
    AcceptedWarmup(watched, key.symbolId, ind);
    ReadThroughIsTransparent(repo, key);
    var warmup := Reverse(repo.LatestN(key, ind.Warmup(), At(from)));
    var inRange := repo.Range(key, from, to, None);
    log := [LatestNRead(ind.Warmup(), At(from)), RangeRead(from, to)];
    assert ComputeInput(repo.Series(key), ind.Warmup(), from, to) == warmup + inRange by {
      InputIs(repo.Series(key), ind.Warmup(), from, to);
    }
    var full := RunCompute(ind, warmup + inRange);
    match full
    case Throws => r := Throws;
    case Rows(rows) => r := Rows(Filter(rows, (row: Row) => from <= row.time < to));
  }

  lemma AcceptedRequests(watched: Watchlist, symbolId: string, ind: Indicator)
    ensures Accepts(watched, symbolId, ind) <==> Acceptable(watched, symbolId, ind, ind.Warmup())
    ensures forall length :: Acceptable(watched, symbolId, ind, length) ==> length == ind.Warmup()
  {
  }

  lemma AcceptedWarmup(watched: Watchlist, symbolId: string, ind: Indicator)
    requires Accepts(watched, symbolId, ind)
    ensures 1 <= ind.Warmup()
  {
  }

  lemma InputIs(s: seq<Candle>, warmup: int, from: int, to: int)
    ensures ComputeInput(s, warmup, from, to)
            == Reverse(StoredLatestN(s, warmup, At(from))) + StoredRange(s, from, to, None)
  {
  }

  // ---- projecting rows ----

  /** `toStateValue`: finite numbers, strings and booleans project; null and non-finite numbers do not. */
  function ToStateValue(raw: Raw): Option<StateValue> {
    match raw
    case Num(n) => Some(NumberValue(n))
    case Flag(b) => Some(BoolValue(b))
    case Str(s) => Some(StringValue(s))
    case Null => None
    case Infinite => None
  }

  /** The row's field as a state value; a field the row does not have is undefined, which does not project. */
  function Projected(row: Row, stateKey: string): Option<StateValue> {
    if stateKey in row.fields then ToStateValue(row.fields[stateKey]) else None
  }

  function ProjectRows(rows: seq<Row>, stateKey: string): seq<SeriesPoint> {
    if rows == [] then []
    else
      var n := |rows| - 1;
      var v := Projected(rows[n], stateKey);
      if v.Some? then ProjectRows(rows[..n], stateKey) + [SeriesPoint(rows[n].time, v.value)]
      else ProjectRows(rows[..n], stateKey)
  }

  method CollectPoints(rows: seq<Row>, stateKey: string) returns (projected: seq<SeriesPoint>)
    ensures projected == ProjectRows(rows, stateKey)
  {
    projected := [];
    for i := 0 to |rows|
      invariant projected == ProjectRows(rows[..i], stateKey)
    {
      assert rows[..i + 1][..i] == rows[..i];
      var value := Projected(rows[i], stateKey);
      if value.Some? {
        projected := projected + [SeriesPoint(rows[i].time, value.value)];
      }
    }
    assert rows[..|rows|] == rows;
  }

  lemma {:induction false} ProjectRowsConcat(a: seq<Row>, b: seq<Row>, stateKey: string)
    ensures ProjectRows(a + b, stateKey) == ProjectRows(a, stateKey) + ProjectRows(b, stateKey)
  {
    hide Projected;
    if b == [] {
      assert a + b == a;
    } else {
      var n := |b| - 1;
      ProjectRowsConcat(a, b[..n], stateKey);
      var s := a + b;
      assert s[..|s| - 1] == a + b[..n] && s[|s| - 1] == b[n];
    }
  }

  /** A projected point comes from a row at its time. */
  lemma {:induction false} ProjectRowsSource(rows: seq<Row>, stateKey: string, i: nat) returns (m: nat)
    requires i < |ProjectRows(rows, stateKey)|
    ensures m < |rows| && rows[m].time == ProjectRows(rows, stateKey)[i].ts
  {
    hide Projected;
    var n := |rows| - 1;
    if i < |ProjectRows(rows[..n], stateKey)| {
      m := ProjectRowsSource(rows[..n], stateKey, i);
    } else {
      m := n;
    }
  }

  // ---- the two series: whole-history, and page by page ----

  /** The rows of one whole-history compute. */
  function RowsOf(ind: Indicator, s: seq<Candle>): seq<Row>
    requires ind.Warmup() >= 1
  {
    seq(|s|, i requires 0 <= i < |s| => ind.RowAt(s, i))
  }

  /** The whole backward series of a field: one compute over every candle below the bound, projected, newest first. */
  function IndicatorPoints(ind: Indicator, s: seq<Candle>, stateKey: string, before: int): seq<SeriesPoint>
    requires ind.Warmup() >= 1
  {
    Reverse(ProjectRows(RowsOf(ind, Earlier(s, At(before))), stateKey))
  }

  /** Where the compute for the page `[a, e)` starts reading: the warm-up before it, or the start of history. */
  function InputStart(ind: Indicator, a: int): nat {
    Max(0, a - ind.Warmup())
  }

  /** The rows a page's own compute gives for the page `[a, e)`. */
  function PageRows(ind: Indicator, s: seq<Candle>, a: nat, e: nat): seq<Row>
    requires ind.Warmup() >= 1 && a <= e <= |s|
  {
    var b := InputStart(ind, a);
    seq(e - a, i requires 0 <= i < e - a => ind.RowAt(s[b..e], a + i - b))
  }

  /** The backward series over the oldest `e` candles as the pages compute it; a throwing page ends it. */
  function PagedPoints(ind: Indicator, s: seq<Candle>, e: nat, pageSize: int, stateKey: string): seq<SeriesPoint>
    requires ind.Warmup() >= 1 && pageSize > 0 && e <= |s|
  {
    if e == 0 then []
    else
      var a := Max(0, e - pageSize);
      if ind.Compute(s[InputStart(ind, a)..e]).Throws? then []
      else Reverse(ProjectRows(PageRows(ind, s, a, e), stateKey)) + PagedPoints(ind, s, a, pageSize, stateKey)
  }

  lemma ReverseTwice<T>(s: seq<T>)
    ensures Reverse(Reverse(s)) == s
  {
  }

  /** A page's compute reads exactly the page and its warm-up. */
  lemma PageInput(ind: Indicator, s: seq<Candle>, a: nat, e: nat)
    requires Ascending(s) && ind.Warmup() >= 1 && a < e <= |s|
    ensures ComputeInput(s, ind.Warmup(), s[a].time, s[e - 1].time + 1) == s[InputStart(ind, a)..e]
  {
    hide CountBelow, Ascending, StoredLatestN, Between, Indicator.Warmup;
    var from, to := s[a].time, s[e - 1].time + 1;
    CountBelowAt(s, a);
    CountBelowAt(s, e - 1);
    LatestNIsSlice(s, ind.Warmup(), At(from));
    BetweenIsSlice(s, from, At(to));
    TwoSlices(s, InputStart(ind, a), a, e);
  }

  lemma TwoSlices<T>(s: seq<T>, b: nat, a: nat, e: nat)
    requires b <= a <= e <= |s|
    ensures Reverse(Reverse(s[b..a])) + s[a..e] == s[b..e]
  {
    ReverseTwice(s[b..a]);
    assert s[b..a] + s[a..e] == s[b..e];
  }

  /** Slicing the computed rows back to the page's range keeps exactly the page's rows. */
  lemma PageSlice(ind: Indicator, s: seq<Candle>, a: nat, e: nat)
    requires Ascending(s) && ind.Warmup() >= 1 && a < e <= |s|
    requires ind.Compute(s[InputStart(ind, a)..e]).Rows?
    ensures Filter(ind.Compute(s[InputStart(ind, a)..e]).rows, (row: Row) => s[a].time <= row.time < s[e - 1].time + 1)
         == PageRows(ind, s, a, e)
  {
    hide Indicator.Compute, Indicator.RowAt;
    var b := InputStart(ind, a);
    var input := s[b..e];
    ComputeRows(ind, input);
    var rows := ind.Compute(input).rows;
    forall i | 0 <= i < |rows| ensures s[a].time <= rows[i].time < s[e - 1].time + 1 <==> a - b <= i < e - b {
      assert rows[i].time == s[b + i].time;
      assert b + i < a ==> s[b + i].time < s[a].time;
      assert a < b + i ==> s[a].time < s[b + i].time;
      assert b + i < e - 1 ==> s[b + i].time < s[e - 1].time;
    }
    FilterIsSlice(rows, a - b, e - b, (row: Row) => s[a].time <= row.time < s[e - 1].time + 1);
    assert rows[a - b..e - b] == PageRows(ind, s, a, e);
  }

  /** Yield a page's projected points newest first. */
  method YieldPoints(projected: seq<SeriesPoint>, pulled: seq<SeriesPoint>, stop: Consumer,
                     ghost older: seq<SeriesPoint>)
    returns (points: seq<SeriesPoint>, ghost at: nat)
    requires !Stopped(pulled, stop)
    ensures if Stopped(points, stop)
            then at < |projected| && projected[at] == points[|points| - 1]
                 && Consume(pulled, Reverse(projected) + older, stop) == points
            else Consume(pulled, Reverse(projected) + older, stop) == Consume(points, older, stop)
  {
    points, at := pulled, 0;
    var i := |projected|;
    assert projected[..i] == projected;
    while i > 0
      invariant 0 <= i <= |projected|
      invariant Consume(pulled, Reverse(projected) + older, stop)
                == Consume(points, Reverse(projected[..i]) + older, stop)
      invariant !Stopped(points, stop)
    {
      assert Reverse(projected[..i]) + older == [projected[i - 1]] + (Reverse(projected[..i - 1]) + older);
      points := points + [projected[i - 1]];
      if stop(points) {
        at := i - 1;
        return;
      }
      i := i - 1;
    }
    assert Reverse(projected[..i]) + older == older;
  }

  /** One step of the page-by-page series. */
  lemma PagedPointsStep(ind: Indicator, s: seq<Candle>, e: nat, pageSize: int, stateKey: string, size: nat)
    requires ind.Warmup() >= 1 && pageSize > 0 && e <= |s|
    requires size == if e < pageSize then e else pageSize
    ensures size > 0 ==>
              PagedPoints(ind, s, e, pageSize, stateKey) ==
              if ind.Compute(s[InputStart(ind, e - size)..e]).Throws? then []
              else Reverse(ProjectRows(PageRows(ind, s, e - size, e), stateKey)) +
                   PagedPoints(ind, s, e - size, pageSize, stateKey)
    ensures size == 0 ==> PagedPoints(ind, s, e, pageSize, stateKey) == []
    ensures PageThrows(ind, s, e, pageSize) <==> size > 0 && ind.Compute(s[InputStart(ind, e - size)..e]).Throws?
  {
    hide Indicator.Compute, ProjectRows, PageRows;
  }

  /** The repository reads of one page: the page, then its compute's warm-up and range. */
  function PageReads(ind: Indicator, s: seq<Candle>, cursor: int, e: nat, size: nat, pageSize: int): seq<Read>
    requires size <= e <= |s|
  {
    [LatestNRead(pageSize, At(cursor))] +
    if size == 0 then []
    else [LatestNRead(ind.Warmup(), At(s[e - size].time)), RangeRead(s[e - size].time, s[e - 1].time + 1)]
  }

  lemma PageReadsAre(ind: Indicator, s: seq<Candle>, cursor: int, e: nat, size: nat, pageSize: int)
    requires size <= e <= |s|
    ensures PageReads(ind, s, cursor, e, size, pageSize)
         == [LatestNRead(pageSize, At(cursor))]
            + (if size == 0 then []
               else [LatestNRead(ind.Warmup(), At(s[e - size].time)), RangeRead(s[e - size].time, s[e - 1].time + 1)])
  {
  }

  /** Whether the compute of the page ending at `e` throws. */
  predicate PageThrows(ind: Indicator, s: seq<Candle>, e: nat, pageSize: int)
    requires ind.Warmup() >= 1 && pageSize > 0 && e <= |s|
  {
    e > 0 && ind.Compute(s[InputStart(ind, Max(0, e - pageSize))..e]).Throws?
  }

  /**
   What the first `n` pages of a walk read, and whether one of them throws: a throwing or a short page is the last.
   */
  function WalkTrace(ind: Indicator, s: seq<Candle>, cursor: int, e: nat, pageSize: int, n: nat): (seq<Read>, bool)
    requires ind.Warmup() >= 1 && pageSize > 0 && e <= |s|
    decreases n
  {
    if n == 0 then ([], false)
    else
      var size := Min(e, pageSize);
      var pageReads := PageReads(ind, s, cursor, e, size, pageSize);
      if PageThrows(ind, s, e, pageSize) then (pageReads, true)
      else if size < pageSize then (pageReads, false)
      else
        var rest := WalkTrace(ind, s, s[e - size].time, e - size, pageSize, n - 1);
        (pageReads + rest.0, rest.1)
  }

  /** `n` pages have been read, none threw, and the walk goes on below `cursor`. */
  ghost predicate TraceSoFar(ind: Indicator, s: seq<Candle>, before: int, k: nat, pageSize: int, cursor: int, e: nat,
                             n: nat, log: seq<Read>)
    requires ind.Warmup() >= 1 && pageSize > 0 && k <= |s| && e <= |s|
  {
    forall m: nat :: TraceSplits(ind, s, before, k, pageSize, cursor, e, n, log, m)
  }

  /** `n + m` pages from the start are `n` pages, then `m` more from the cursor. */
  ghost predicate TraceSplits(ind: Indicator, s: seq<Candle>, before: int, k: nat, pageSize: int, cursor: int, e: nat,
                              n: nat,
                              log: seq<Read>, m: nat)
    requires ind.Warmup() >= 1 && pageSize > 0 && k <= |s| && e <= |s|
  {
    var rest := WalkTrace(ind, s, cursor, e, pageSize, m);
    WalkTrace(ind, s, before, k, pageSize, n + m) == (log + rest.0, rest.1)
  }

  lemma TraceStarts(ind: Indicator, s: seq<Candle>, before: int, k: nat, pageSize: int)
    requires ind.Warmup() >= 1 && pageSize > 0 && k <= |s|
    ensures TraceSoFar(ind, s, before, k, pageSize, before, k, 0, [])
  {
    hide WalkTrace;
    forall m: nat ensures TraceSplits(ind, s, before, k, pageSize, before, k, 0, [], m) {
      var rest := WalkTrace(ind, s, before, k, pageSize, m);
      assert [] + rest.0 == rest.0;
    }
  }

  /** The last page, thrown, short, or the one the consumer stops on, completes the trace. */
  lemma TraceEnds(ind: Indicator, s: seq<Candle>, before: int, k: nat, pageSize: int, cursor: int, e: nat, n: nat,
                  log: seq<Read>, size: nat)
    requires ind.Warmup() >= 1 && pageSize > 0 && k <= |s| && e <= |s|
    requires size == if e < pageSize then e else pageSize
    requires TraceSoFar(ind, s, before, k, pageSize, cursor, e, n, log)
    ensures WalkTrace(ind, s, before, k, pageSize, n + 1)
         == (log + PageReads(ind, s, cursor, e, size, pageSize), PageThrows(ind, s, e, pageSize))
  {
    hide PageReads, PageThrows;
    OnePage(ind, s, cursor, e, pageSize, size);
    assert TraceSplits(ind, s, before, k, pageSize, cursor, e, n, log, 1);
  }

  lemma OnePage(ind: Indicator, s: seq<Candle>, cursor: int, e: nat, pageSize: int, size: nat)
    requires ind.Warmup() >= 1 && pageSize > 0 && e <= |s|
    requires size == if e < pageSize then e else pageSize
    ensures WalkTrace(ind, s, cursor, e, pageSize, 1)
            == (PageReads(ind, s, cursor, e, size, pageSize), PageThrows(ind, s, e, pageSize))
  {
    hide PageReads, PageThrows;
    if size == pageSize {
      var rest := WalkTrace(ind, s, s[e - size].time, e - size, pageSize, 0);
      assert rest == ([], false);
      assert PageReads(ind, s, cursor, e, size, pageSize) + [] == PageReads(ind, s, cursor, e, size, pageSize);
    }
  }

  lemma TraceContinues(ind: Indicator, s: seq<Candle>, before: int, k: nat, pageSize: int, cursor: int, e: nat, n: nat,
                       log: seq<Read>)
    requires ind.Warmup() >= 1 && pageSize > 0 && k <= |s| && pageSize <= e <= |s|
    requires TraceSoFar(ind, s, before, k, pageSize, cursor, e, n, log) && !PageThrows(ind, s, e, pageSize)
    ensures TraceSoFar(ind, s, before, k, pageSize, s[e - pageSize].time, e - pageSize, n + 1,
                       log + PageReads(ind, s, cursor, e, pageSize, pageSize))
  {
    hide PageReads, PageThrows;
    var page := PageReads(ind, s, cursor, e, pageSize, pageSize);
    var cursor', e', n', log' := s[e - pageSize].time, e - pageSize, n + 1, log + page;
    forall m: nat ensures TraceSplits(ind, s, before, k, pageSize, cursor', e', n', log', m) {
      assert TraceSplits(ind, s, before, k, pageSize, cursor, e, n, log, m + 1);
      var rest := WalkTrace(ind, s, s[e - pageSize].time, e - pageSize, pageSize, m);
      assert WalkTrace(ind, s, cursor, e, pageSize, m + 1) == (page + rest.0, rest.1);
      assert n + (m + 1) == n + 1 + m;
      assert log + (page + rest.0) == log + page + rest.0;
    }
  }

  /** How one step of the walk ends: out of history, on a throwing compute, or with the page yielded. */
  datatype Step = Exhausted | Threw | Yielded

  /** The candle a page's projected point belongs to. */
  lemma PageRowCandle(ind: Indicator, s: seq<Candle>, a: nat, e: nat, stateKey: string, i: nat) returns (m: nat)
    requires ind.Warmup() >= 1 && a <= e <= |s|
    requires i < |ProjectRows(PageRows(ind, s, a, e), stateKey)|
    ensures a <= m < e && s[m].time == ProjectRows(PageRows(ind, s, a, e), stateKey)[i].ts
  {
    var rows := PageRows(ind, s, a, e);
    var r := ProjectRowsSource(rows, stateKey, i);
    m := a + r;
    RowTime(ind, s[InputStart(ind, a)..e], m - InputStart(ind, a));
  }

  lemma RowTime(ind: Indicator, s: seq<Candle>, i: nat)
    requires ind.Warmup() >= 1 && i < |s|
    ensures ind.RowAt(s, i).time == s[i].time
  {
    hide SmaValue, VwmaValue, VwmaFieldsAt, Supertrend.CarryInto, Supertrend.Atr;
  }

  /**
   Project a page's computed rows and yield the points newest first; `at` is the newest-first position it stopped on.
   */
  method YieldRows(rows: seq<Row>, ghost ind: Indicator, ghost s: seq<Candle>, ghost a: nat, ghost e: nat,
                   stateKey: string,
                   pulled: seq<SeriesPoint>, stop: Consumer, ghost older: seq<SeriesPoint>)
    returns (points: seq<SeriesPoint>, ghost at: nat)
    requires ind.Warmup() >= 1 && a <= e <= |s| && rows == PageRows(ind, s, a, e) && !Stopped(pulled, stop)
    ensures var page := Reverse(ProjectRows(PageRows(ind, s, a, e), stateKey));
            Handed(s, e, e - a, pulled, page + older, older, stop, points, at)
  {
    hide PageRows, ProjectRows, Consume;
    at := 0;
    var projected := CollectPoints(rows, stateKey);
    ghost var from;
    points, from := YieldPoints(projected, pulled, stop, older);
    if Stopped(points, stop) {
      ghost var m := PageRowCandle(ind, s, a, e, stateKey, from);
      at := e - 1 - m;
    }
  }

  /** `computePage`: compute the page `[a, e)` over its own bounds; the rows it gives are the page's. */
  method ComputePage(repo: Repository, watched: Watchlist, key: SeriesKey, ind: Indicator, from: int, to: int,
                     ghost a: nat, ghost e: nat)
    returns (computed: ComputeResult, log: seq<Read>)
    requires repo.Faithful() && Accepts(watched, key.symbolId, ind) && ind.Warmup() >= 1
    requires a < e <= |repo.Series(key)| && from == repo.Series(key)[a].time && to == repo.Series(key)[e - 1].time + 1
    ensures log == [LatestNRead(ind.Warmup(), At(from)), RangeRead(from, to)]
    ensures computed == if ind.Compute(repo.Series(key)[InputStart(ind, a)..e]).Throws? then Throws
                        else Rows(PageRows(ind, repo.Series(key), a, e))
  {
    hide *;
    SeriesAscending(repo, key);
    PageInput(ind, repo.Series(key), a, e);
    computed, log := ServiceCompute(repo, watched, key, ind, from, to);
    if computed.Rows? { PageSlice(ind, repo.Series(key), a, e); }
  }

  /**
   A consumer that had `pulled` was handed the front of `rest`, up to `older`: it stopped at newest-first position `at`
   of a page ending at `e`, or goes on with `older`.
   */
  ghost predicate Handed(s: seq<Candle>, e: nat, size: nat, pulled: seq<SeriesPoint>, rest: seq<SeriesPoint>,
                         older: seq<SeriesPoint>, stop: Consumer, points: seq<SeriesPoint>, at: nat)
    requires size <= e <= |s|
  {
    if Stopped(points, stop)
    then at < size && s[e - 1 - at].time == points[|points| - 1].ts && Consume(pulled, rest, stop) == points
    else Consume(pulled, rest, stop) == Consume(points, older, stop)
  }

  lemma HandedMeans(s: seq<Candle>, e: nat, size: nat, pulled: seq<SeriesPoint>, rest: seq<SeriesPoint>,
                    older: seq<SeriesPoint>, stop: Consumer, points: seq<SeriesPoint>, at: nat)
    requires size <= e <= |s| && Handed(s, e, size, pulled, rest, older, stop, points, at)
    ensures if Stopped(points, stop)
            then at < size && points != [] && s[e - 1 - at].time == points[|points| - 1].ts
                && Consume(pulled, rest, stop) == points
            else Consume(pulled, rest, stop) == Consume(points, older, stop)
  {
  }

  lemma HandedNothing(s: seq<Candle>, e: nat, pulled: seq<SeriesPoint>, rest: seq<SeriesPoint>, stop: Consumer)
    requires e <= |s| && !Stopped(pulled, stop)
    ensures Handed(s, e, 0, pulled, rest, rest, stop, pulled, 0)
  {
  }

  /** Compute a fetched page and yield its points, or find that it throws. */
  method RunPage(repo: Repository, watched: Watchlist, key: SeriesKey, ind: Indicator, stateKey: string, from: int,
                 to: int, pulled: seq<SeriesPoint>, stop: Consumer, ghost a: nat, ghost e: nat,
                 ghost older: seq<SeriesPoint>)
    returns (step: Step, points: seq<SeriesPoint>, log: seq<Read>, ghost at: nat)
    requires repo.Faithful() && Accepts(watched, key.symbolId, ind) && ind.Warmup() >= 1 && !Stopped(pulled, stop)
    requires a < e <= |repo.Series(key)| && from == repo.Series(key)[a].time && to == repo.Series(key)[e - 1].time + 1
    ensures log == [LatestNRead(ind.Warmup(), At(from)), RangeRead(from, to)]
    ensures var s := repo.Series(key);
            if ind.Compute(s[InputStart(ind, a)..e]).Throws? then step == Threw && points == pulled
            else
              && step == Yielded
              && var rest := Reverse(ProjectRows(PageRows(ind, s, a, e), stateKey)) + older;
                 Handed(s, e, e - a, pulled, rest, older, stop, points, at)
  {
    hide *;
    at := 0;
    var computed;
    computed, log := ComputePage(repo, watched, key, ind, from, to, a, e);
    match computed
    case Throws =>
      step, points := Threw, pulled;
    case Rows(rows) =>
      step := Yielded;
      points, at := YieldRows(rows, ind, repo.Series(key), a, e, stateKey, pulled, stop, older);
  }

  /** One page of the walk: fetch it, compute it, yield its points. */
  method NextPage(repo: Repository, watched: Watchlist, key: SeriesKey, ind: Indicator, stateKey: string, pageSize: int,
                  cursor: int, pulled: seq<SeriesPoint>, stop: Consumer)
    returns (step: Step, points: seq<SeriesPoint>, size: nat, oldest: int, log: seq<Read>, ghost at: nat)
    requires repo.Faithful() && pageSize > 0 && !Stopped(pulled, stop)
    requires Accepts(watched, key.symbolId, ind) && ind.Warmup() >= 1
    ensures var s, e := repo.Series(key), CountBelow(repo.Series(key), At(cursor));
            && size == (if e < pageSize then e else pageSize)
            && (step.Threw? ==> points == pulled)
            && (size > 0 ==> oldest == s[e - size].time)
            && log == PageReads(ind, s, cursor, e, size, pageSize)
            && (step.Threw? <==> PageThrows(ind, s, e, pageSize))
            && (step.Threw? ==> PagedPoints(ind, s, e, pageSize, stateKey) == [])
            && (!step.Threw? ==>
                  Handed(s, e, size, pulled, PagedPoints(ind, s, e, pageSize, stateKey),
                         PagedPoints(ind, s, e - size, pageSize, stateKey), stop, points, at))
  {
    hide *;
    at := 0;
    ghost var s, e := repo.Series(key), CountBelow(repo.Series(key), At(cursor));
    SeriesAscending(repo, key);
    var page := FetchPage(repo, key, pageSize, cursor);
    size := |page|;
    PageIndex(s, e, page);
    PagedPointsStep(ind, s, e, pageSize, stateKey, size);
    PageReadsAre(ind, s, cursor, e, size, pageSize);
    log := [LatestNRead(pageSize, At(cursor))];
    if size == 0 {
      HandedNothing(s, e, pulled, PagedPoints(ind, s, e, pageSize, stateKey), stop);
      return Exhausted, pulled, 0, 0, log, 0;
    }
    oldest := page[size - 1].time;
    ghost var a := e - size;
    var runLog;
    step, points, runLog, at := RunPage(repo, watched, key, ind, stateKey, oldest, page[0].time + 1, pulled, stop, a, e,
                                        PagedPoints(ind, s, a, pageSize, stateKey));
    log := log + runLog;
  }

  /** The three reads of one page reach to the warm-up before it and no deeper. */
  lemma PageReadsReach(ind: Indicator, s: seq<Candle>, before: int, pageSize: int, pages: seq<Read>, cursor: int,
                       e: int, size: int)
    requires Ascending(s) && pageSize > 0 && ind.Warmup() >= 1
    requires |pages| > 0 ==> 0 <= Left(CountBelow(s, At(before)), |pages|, pageSize) < |s|
    requires cursor == Cursor(s, before, pageSize, |pages|)
    requires e == CountBelow(s, At(cursor)) == Left(CountBelow(s, At(before)), |pages|, pageSize)
    requires size == if e < pageSize then e else pageSize
    ensures var depth := CountBelow(s, At(before)) - Left(CountBelow(s, At(before)), |pages| + 1, pageSize)
            + ind.Warmup();
            && Reaches(s, before, depth, LatestNRead(pageSize, At(cursor)))
            && (size > 0 ==>
                 && Reaches(s, before, depth, LatestNRead(ind.Warmup(), At(s[e - size].time)))
                 && Reaches(s, before, depth, RangeRead(s[e - size].time, s[e - 1].time + 1)))
  {
    var k := CountBelow(s, At(before));
    hide CountBelow, Indicator.Warmup, Cursor;
    PageReaches(s, before, pageSize, |pages|);
    if size > 0 {
      LeftDecreases(k, 0, |pages|, pageSize);
      CountBelowAt(s, e - size);
      BelowIsPrefix(s, At(before));
    }
  }

  ghost predicate AllReach(s: seq<Candle>, before: int, depth: int, log: seq<Read>) {
    forall r :: r in log ==> Reaches(s, before, depth, r)
  }

  lemma AllReachMore(s: seq<Candle>, before: int, depth: int, depth': int, log: seq<Read>, more: seq<Read>)
    requires AllReach(s, before, depth, log) && depth <= depth'
    requires AllReach(s, before, depth', more)
    ensures AllReach(s, before, depth', log + more)
  {
    hide Reaches;
    forall r | r in log ensures Reaches(s, before, depth', r) {
      ReachesDeeper(s, before, depth, depth', r);
    }
  }

  /** How far `pages` pages of an indicator walk read below the bound. */
  function DepthOf(ind: Indicator, s: seq<Candle>, before: int, pageSize: int, pages: nat): int {
    CountBelow(s, At(before)) - Left(CountBelow(s, At(before)), pages, pageSize) + ind.Warmup()
  }

  lemma NothingRead(s: seq<Candle>, before: int, depth: int)
    ensures AllReach(s, before, depth, [])
  {
  }

  lemma PagedPointsEnd(ind: Indicator, s: seq<Candle>, pageSize: int, stateKey: string, points: seq<SeriesPoint>,
                       stop: Consumer)
    requires ind.Warmup() >= 1 && pageSize > 0
    ensures PagedPoints(ind, s, 0, pageSize, stateKey) == []
    ensures Consume(points, [], stop) == points
  {
  }

  lemma PageDepth(ind: Indicator, s: seq<Candle>, walk: seq<SeriesPoint>, before: int, pageSize: int, stop: Consumer,
                  cursor: int, e: int, rest: seq<SeriesPoint>, points: seq<SeriesPoint>, pages: seq<Read>, size: int)
    requires Ascending(s) && pageSize > 0 && ind.Warmup() >= 1
    requires BetweenPages(s, walk, before, pageSize, stop, cursor, e, rest, points, pages)
    requires size == if e < pageSize then e else pageSize
    ensures DepthOf(ind, s, before, pageSize, |pages|) <= DepthOf(ind, s, before, pageSize, |pages| + 1)
    ensures 0 <= e <= |s|
    ensures AllReach(s, before, DepthOf(ind, s, before, pageSize, |pages| + 1),
                     PageReads(ind, s, cursor, e, size, pageSize))
  {
    hide Reaches, CountBelow, Indicator.Warmup, Cursor, PageLog, Pulled, Consume, Stopped;
    PageReadsReach(ind, s, before, pageSize, pages, cursor, e, size);
  }

  /**
   How an accepted walk ends: the consumer saw what it would pull out of the series the pages
   compute; the reads are exactly those of its pages, and it threw exactly if the last of them did;
   unless a page threw, the pages fetched are exactly those it needed; and no read reached deeper
   than those pages and one warm-up.
   */
  ghost predicate IndicatorWalked(ind: Indicator, s: seq<Candle>, stateKey: string, before: int, pageSize: int,
                                  stop: Consumer,
                                  points: seq<SeriesPoint>, log: seq<Read>, pages: seq<Read>, last: nat, threw: bool)
    requires ind.Warmup() >= 1 && pageSize > 0
  {
    var walk := PagedPoints(ind, s, CountBelow(s, At(before)), pageSize, stateKey);
    && points == Pulled(walk, stop)
    && (log, threw) == WalkTrace(ind, s, before, CountBelow(s, At(before)), pageSize, |pages|)
    && (threw ==> !Stopped(points, stop))
    && (!threw ==> Walked(s, walk, before, pageSize, stop, points, pages, last))
    && AllReach(s, before, DepthOf(ind, s, before, pageSize, |pages|), log)
  }

  /** A walk whose next page throws has given the consumer everything there is. */
  lemma DoneThrew(ind: Indicator, s: seq<Candle>, stateKey: string, before: int, pageSize: int, stop: Consumer,
                  cursor: int, e: int, points: seq<SeriesPoint>, wasPages: seq<Read>, log: seq<Read>, pages: seq<Read>)
    requires ind.Warmup() >= 1 && pageSize > 0
    requires BetweenPages(s, PagedPoints(ind, s, CountBelow(s, At(before)), pageSize, stateKey), before, pageSize, stop,
                          cursor, e, [], points, wasPages)
    requires AllReach(s, before, DepthOf(ind, s, before, pageSize, |pages|), log)
    requires WalkTrace(ind, s, before, CountBelow(s, At(before)), pageSize, |pages|) == (log, true)
    ensures IndicatorWalked(ind, s, stateKey, before, pageSize, stop, points, log, pages, 0, true)
  {
    hide AllReach, PagedPoints, CountBelow, Indicator.Warmup, WalkTrace;
  }

  lemma DoneWalked(ind: Indicator, s: seq<Candle>, stateKey: string, before: int, pageSize: int, stop: Consumer,
                   points: seq<SeriesPoint>, log: seq<Read>, pages: seq<Read>, last: nat)
    requires ind.Warmup() >= 1 && pageSize > 0
    requires Walked(s, PagedPoints(ind, s, CountBelow(s, At(before)), pageSize, stateKey), before, pageSize, stop,
                    points, pages, last)
    requires AllReach(s, before, DepthOf(ind, s, before, pageSize, |pages|), log)
    requires WalkTrace(ind, s, before, CountBelow(s, At(before)), pageSize, |pages|) == (log, false)
    ensures IndicatorWalked(ind, s, stateKey, before, pageSize, stop, points, log, pages, last, false)
  {
    hide AllReach, PagedPoints, CountBelow, Indicator.Warmup, WalkTrace;
  }

  /**
   `PagedIndicatorSeriesView.backwardWalk` driven by a consumer, with its repository reads.
   A rejected request yields nothing: it reads one page, whose compute throws unless it is empty.
   */
  method IndicatorBackwardWalk(repo: Repository, watched: Watchlist, key: SeriesKey, ind: Indicator, stateKey: string,
                               before: int, pageSize: int, stop: Consumer)
    returns (points: seq<SeriesPoint>, log: seq<Read>, ghost pages: seq<Read>, ghost last: nat, threw: bool)
    requires repo.Faithful() && pageSize > 0
    ensures !Accepts(watched, key.symbolId, ind) ==>
              && points == [] && log == [LatestNRead(pageSize, At(before))]
              && (threw <==> CountBelow(repo.Series(key), At(before)) > 0)
    ensures Accepts(watched, key.symbolId, ind) ==>
              ind.Warmup() >= 1
                  && IndicatorWalked(ind, repo.Series(key), stateKey, before, pageSize, stop, points, log, pages, last,
                                     threw)
  {
    points, log, pages, last, threw := [], [], [], 0, false;
    if !Accepts(watched, key.symbolId, ind) {
      var page := FetchPage(repo, key, pageSize, before);
      log := [LatestNRead(pageSize, At(before))];
      if |page| > 0 {
        var computed, _ := ServiceCompute(repo, watched, key, ind, page[|page| - 1].time, page[0].time + 1);
        threw := computed.Throws?;
      }
      return;
    }
    points, log, pages, last, threw := AcceptedWalk(repo, watched, key, ind, stateKey, before, pageSize, stop);
  }

  method AcceptedWalk(repo: Repository, watched: Watchlist, key: SeriesKey, ind: Indicator, stateKey: string,
                      before: int, pageSize: int, stop: Consumer)
    returns (points: seq<SeriesPoint>, log: seq<Read>, ghost pages: seq<Read>, ghost last: nat, threw: bool)
    requires repo.Faithful() && pageSize > 0 && Accepts(watched, key.symbolId, ind) && ind.Warmup() >= 1
    ensures IndicatorWalked(ind, repo.Series(key), stateKey, before, pageSize, stop, points, log, pages, last, threw)
  {
    hide *;
    points, log, pages, last, threw := [], [], [], 0, false;
    ghost var s := repo.Series(key);
    ghost var walk := PagedPoints(ind, s, CountBelow(s, At(before)), pageSize, stateKey);
    var cursor := before;
    ghost var e := CountBelow(s, At(before));
    SeriesAscending(repo, key);
    WalkStarts(s, walk, before, pageSize, stop);
    NothingRead(s, before, DepthOf(ind, s, before, pageSize, 0));
    TraceStarts(ind, s, before, e, pageSize);
    while true
      invariant 0 <= e <= |s| && e == CountBelow(s, At(cursor))
      invariant BetweenPages(s, walk, before, pageSize, stop, cursor, e, PagedPoints(ind, s, e, pageSize, stateKey),
                             points, pages)
      invariant AllReach(s, before, DepthOf(ind, s, before, pageSize, |pages|), log)
      invariant TraceSoFar(ind, s, before, CountBelow(s, At(before)), pageSize, cursor, e, |pages|, log)
      invariant !threw
      decreases e
    {
      ghost var was, rest, wasPages := points, PagedPoints(ind, s, e, pageSize, stateKey), pages;
      StillRunning(s, walk, before, pageSize, stop, cursor, e, rest, points, pages);
      var step, size, oldest, pageLog;
      ghost var at;
      step, points, size, oldest, pageLog, at :=
        NextPage(repo, watched, key, ind, stateKey, pageSize, cursor, points, stop);
      PageDepth(ind, s, walk, before, pageSize, stop, cursor, e, rest, was, pages, size);
      AllReachMore(s, before, DepthOf(ind, s, before, pageSize, |pages|),
                   DepthOf(ind, s, before, pageSize, |pages| + 1), log, pageLog);
      TraceEnds(ind, s, before, CountBelow(s, At(before)), pageSize, cursor, e, |pages|, log, size);
      ghost var wasLog := log;
      log := log + pageLog;
      pages := pages + [LatestNRead(pageSize, At(cursor))];
      if step.Threw? {
        DoneThrew(ind, s, stateKey, before, pageSize, stop, cursor, e, points, wasPages, log, pages);
        threw := true;
        return;
      }
      HandedMeans(s, e, size, was, rest, PagedPoints(ind, s, e - size, pageSize, stateKey), stop, points, at);
      if Stopped(points, stop) {
        last := CountBelow(s, At(before)) - e + at;
        WalkStops(s, walk, before, pageSize, stop, cursor, e, rest, was, wasPages, points, at);
        DoneWalked(ind, s, stateKey, before, pageSize, stop, points, log, pages, last);
        return;
      }
      if size < pageSize {
        PagedPointsEnd(ind, s, pageSize, stateKey, points, stop);
        WalkExhausts(s, walk, before, pageSize, stop, cursor, e, rest, was, wasPages, points);
        DoneWalked(ind, s, stateKey, before, pageSize, stop, points, log, pages, 0);
        return;
      }
      WalkContinues(s, walk, before, pageSize, stop, cursor, e, rest, was, wasPages, points,
                    PagedPoints(ind, s, e - size, pageSize, stateKey));
      TraceContinues(ind, s, before, CountBelow(s, At(before)), pageSize, cursor, e, |wasPages|, wasLog);
      CountBelowAt(s, e - size);
      cursor := oldest;
      e := e - size;
    }
  }
}
