/** The paged backward view over one bar axis. */
module BarSeries {
  import opened Candles
  import opened CandleStore
  import opened Repositories
  import opened Series
  import opened Paging

  datatype BarAxis = OpenAxis | HighAxis | LowAxis | CloseAxis | VolumeAxis

  const BAR_SERIES_PAGE_SIZE := 64

  function ReadAxis(c: Candle, axis: BarAxis): Option<real> {
    match axis
    case OpenAxis => Some(c.open)
    case HighAxis => Some(c.high)
    case LowAxis => Some(c.low)
    case CloseAxis => Some(c.close)
    case VolumeAxis => if c.FxCandle? then None else Some(c.volume)
  }

  /** The axis of each candle that carries it, in the order given. */
  function Project(candles: seq<Candle>, axis: BarAxis): seq<SeriesPoint> {
    if candles == [] then []
    else
      var v := ReadAxis(candles[0], axis);
      if v.Some? then [SeriesPoint(candles[0].time, NumberValue(v.value))] + Project(candles[1..], axis)
      else Project(candles[1..], axis)
  }

  /** The whole backward series of a bar axis: every stored candle below the bound that carries it, newest first. */
  function BarPoints(s: seq<Candle>, axis: BarAxis, before: int): seq<SeriesPoint> {
    Project(Reverse(Earlier(s, At(before))), axis)
  }

  lemma {:induction false} ProjectConcat(a: seq<Candle>, b: seq<Candle>, axis: BarAxis)
    ensures Project(a + b, axis) == Project(a, axis) + Project(b, axis)
  {
    hide ReadAxis;
    if a == [] {
      assert a + b == b;
    } else {
      ProjectConcat(a[1..], b, axis);
      var s := a + b;
      assert s[0] == a[0] && s[1..] == a[1..] + b;
      if ReadAxis(a[0], axis).Some? {
        var point := SeriesPoint(a[0].time, NumberValue(ReadAxis(a[0], axis).value));
        assert Project(s, axis) == [point] + (Project(a[1..], axis) + Project(b, axis));
      }
    }
  }

  /** The points of the oldest `e` candles of a series, newest first. */
  function PointsBelow(s: seq<Candle>, e: nat, axis: BarAxis): seq<SeriesPoint>
    requires e <= |s|
  {
    Project(Reverse(s[..e]), axis)
  }

  lemma BarPointsArePointsBelow(s: seq<Candle>, axis: BarAxis, before: int)
    requires Ascending(s)
    ensures BarPoints(s, axis, before) == PointsBelow(s, CountBelow(s, At(before)), axis)
  {
    EarlierIsPrefix(s, At(before));
  }

  /** Walking a page and then everything older is walking everything. */
  lemma PageThenOlder(s: seq<Candle>, lo: nat, e: nat, axis: BarAxis)
    requires lo <= e <= |s|
    ensures PointsBelow(s, e, axis) == Project(Reverse(s[lo..e]), axis) + PointsBelow(s, lo, axis)
  {
    ProjectConcat(Reverse(s[lo..e]), Reverse(s[..lo]), axis);
    assert Reverse(s[..e]) == Reverse(s[lo..e]) + Reverse(s[..lo]);
  }

  lemma {:induction false} ProjectBelow(candles: seq<Candle>, axis: BarAxis, bound: int)
    requires forall c :: c in candles ==> c.time < bound
    ensures forall p :: p in Project(candles, axis) ==> p.ts < bound
  {
    if candles != [] {
      assert candles[0] in candles;
      ProjectBelow(candles[1..], axis, bound);
    }
  }

  /** A walk is strictly newest first. */
  ghost predicate Descending(walk: seq<SeriesPoint>) {
    forall i, j :: 0 <= i < j < |walk| ==> walk[i].ts > walk[j].ts
  }

  lemma {:induction false} ProjectDescends(candles: seq<Candle>, axis: BarAxis)
    requires forall i, j :: 0 <= i < j < |candles| ==> candles[i].time > candles[j].time
    ensures Descending(Project(candles, axis))
  {
    if candles != [] {
      ProjectDescends(candles[1..], axis);
      ProjectBelow(candles[1..], axis, candles[0].time);
      var tail := Project(candles[1..], axis);
      assert forall i :: 0 <= i < |tail| ==> tail[i] in tail;
    }
  }

  /** The backward series of an axis is strictly newest first and stays below the bound. */
  lemma BarPointsDescend(s: seq<Candle>, axis: BarAxis, before: int)
    requires Ascending(s)
    ensures Descending(BarPoints(s, axis, before))
    ensures forall p :: p in BarPoints(s, axis, before) ==> p.ts < before
  {
    EarlierIsPrefix(s, At(before));
    BelowIsPrefix(s, At(before));
    var newestFirst := Reverse(s[..CountBelow(s, At(before))]);
    ProjectDescends(newestFirst, axis);
    ProjectBelow(newestFirst, axis, before);
  }

  /** When every candle carries the axis, points and candles correspond one to one. */
  lemma {:induction false} ProjectDense(candles: seq<Candle>, axis: BarAxis)
    requires forall c :: c in candles ==> ReadAxis(c, axis).Some?
    ensures |Project(candles, axis)| == |candles|
    ensures forall i :: 0 <= i < |candles| ==>
              Project(candles, axis)[i] == SeriesPoint(candles[i].time, NumberValue(ReadAxis(candles[i], axis).value))
  {
    if candles != [] {
      assert candles[0] in candles;
      ProjectDense(candles[1..], axis);
    }
  }

  /** Yield one page's points to the consumer; `at` is the candle it stopped on, if it stopped. */
  method YieldPage(page: seq<Candle>, axis: BarAxis, pulled: seq<SeriesPoint>, stop: Consumer,
                   ghost older: seq<SeriesPoint>)
    returns (points: seq<SeriesPoint>, ghost at: nat)
    requires !Stopped(pulled, stop)
    ensures Stopped(points, stop) ==>
              && at < |page| && page[at].time == points[|points| - 1].ts
              && Consume(pulled, Project(page, axis) + older, stop) == points
    ensures !Stopped(points, stop) ==>
              Consume(pulled, Project(page, axis) + older, stop) == Consume(points, older, stop)
  {
    points, at := pulled, 0;
    var j := 0;
    while j < |page|
      invariant 0 <= j <= |page|
      invariant Consume(pulled, Project(page, axis) + older, stop)
                == Consume(points, Project(page[j..], axis) + older, stop)
      invariant !Stopped(points, stop)
    {
      var v := ReadAxis(page[j], axis);
      assert page[j..][1..] == page[j + 1..];
      if v.Some? {
        var point := SeriesPoint(page[j].time, NumberValue(v.value));
        assert Project(page[j..], axis) + older == [point] + (Project(page[j + 1..], axis) + older);
        points := points + [point];
        if stop(points) {
          at := j;
          return;
        }
      }
      j := j + 1;
    }
    assert Project(page[j..], axis) + older == older;
  }

  /** Fetch the page below the cursor and yield its points; `size` candles of it, the oldest opening at `oldest`. */
  method NextPage(repo: Repository, key: SeriesKey, axis: BarAxis, pageSize: int, cursor: int, pulled: seq<SeriesPoint>,
                  stop: Consumer)
    returns (points: seq<SeriesPoint>, size: nat, oldest: int, ghost at: nat)
    requires repo.Faithful() && pageSize > 0 && !Stopped(pulled, stop)
    ensures var s, e := repo.Series(key), CountBelow(repo.Series(key), At(cursor));
            && size == (if e < pageSize then e else pageSize)
            && (size > 0 ==> oldest == s[e - size].time)
            && (if Stopped(points, stop)
                then at < size && s[e - 1 - at].time == points[|points| - 1].ts
                     && Consume(pulled, PointsBelow(s, e, axis), stop) == points
                else Consume(pulled, PointsBelow(s, e, axis), stop) ==
                     Consume(points, PointsBelow(s, e - size, axis), stop))
  {
    hide *;
    var page := FetchPage(repo, key, pageSize, cursor);
    ghost var s, e := repo.Series(key), CountBelow(repo.Series(key), At(cursor));
    size := |page|;
    PageIndex(s, e, page);
    PageThenOlder(s, e - size, e, axis);
    points, at := YieldPage(page, axis, pulled, stop, PointsBelow(s, e - size, axis));
    oldest := if size > 0 then page[size - 1].time else 0;
  }

  lemma NothingOlder(s: seq<Candle>, axis: BarAxis, points: seq<SeriesPoint>, stop: Consumer)
    ensures Consume(points, PointsBelow(s, 0, axis), stop) == points
  {
  }

  /**
   `PagedBarSeriesView.backwardWalk` driven by a consumer, with the log of repository reads
   it makes.  Whatever the page size and whatever windows are preloaded, the consumer sees
   exactly what it would pull out of the whole reversed series; `last` is the newest-first
   position of the candle a stopped walk stopped on.
   */
  method BackwardWalk(repo: Repository, key: SeriesKey, axis: BarAxis, before: int, pageSize: int, stop: Consumer)
    returns (points: seq<SeriesPoint>, log: seq<Read>, ghost last: nat)
    requires repo.Faithful() && pageSize > 0
    ensures points == Pulled(BarPoints(repo.Series(key), axis, before), stop)
    ensures PageLog(repo.Series(key), before, pageSize, log)
    ensures Walked(repo.Series(key), BarPoints(repo.Series(key), axis, before), before, pageSize, stop, points, log,
                   last)
  {
    hide *;
    ghost var s := repo.Series(key);
    ghost var walk := BarPoints(s, axis, before);
    points, log, last := [], [], 0;
    var cursor := before;
    ghost var e := CountBelow(s, At(before));
    SeriesAscending(repo, key);
    BarPointsArePointsBelow(s, axis, before);
    WalkStarts(s, walk, before, pageSize, stop);
    while true
      invariant 0 <= e <= |s| && e == CountBelow(s, At(cursor))
      invariant BetweenPages(s, walk, before, pageSize, stop, cursor, e, PointsBelow(s, e, axis), points, log)
      decreases e
    {
      ghost var wasLog, was, rest := log, points, PointsBelow(s, e, axis);
      StillRunning(s, walk, before, pageSize, stop, cursor, e, rest, points, log);
      log := log + [LatestNRead(pageSize, At(cursor))];
      var size, oldest;
      ghost var at;
      points, size, oldest, at := NextPage(repo, key, axis, pageSize, cursor, points, stop);
      if Stopped(points, stop) {
        WalkStops(s, walk, before, pageSize, stop, cursor, e, rest, was, wasLog, points, at);
        last := CountBelow(s, At(before)) - e + at;
        WalkedServes(s, walk, before, pageSize, stop, points, log, last);
        return;
      }
      if size < pageSize {
        NothingOlder(s, axis, points, stop);
        WalkExhausts(s, walk, before, pageSize, stop, cursor, e, rest, was, wasLog, points);
        WalkedServes(s, walk, before, pageSize, stop, points, log, last);
        return;
      }
      WalkContinues(s, walk, before, pageSize, stop, cursor, e, rest, was, wasLog, points,
                    PointsBelow(s, e - size, axis));
      CountBelowAt(s, e - size);
      cursor := oldest;
      e := e - size;
    }
  }

  /** `PagedBarSeriesView.asOf`: the walk consumed up to the first point at or before the query. */
  method AsOf(repo: Repository, key: SeriesKey, axis: BarAxis, before: int, pageSize: int, queryTs: int)
    returns (r: Option<SeriesPoint>, log: seq<Read>)
    requires repo.Faithful() && pageSize > 0
    ensures r == AsOfPoint(BarPoints(repo.Series(key), axis, before), queryTs)
  {
    var points;
    ghost var last;
    points, log, last := BackwardWalk(repo, key, axis, before, pageSize, UpTo(queryTs));
    ConsumeAsOf([], BarPoints(repo.Series(key), axis, before), queryTs);
    r := if points != [] && points[|points| - 1].ts <= queryTs then Some(points[|points| - 1]) else None;
  }

  /** A walk nobody stops over `n` candles makes `floor(n / pageSize) + 1` fetches. */
  lemma FullWalkFetches(s: seq<Candle>, axis: BarAxis, before: int, pageSize: int,
                        points: seq<SeriesPoint>, log: seq<Read>, last: nat)
    requires pageSize > 0 && Walked(s, BarPoints(s, axis, before), before, pageSize, Everything, points, log, last)
    ensures points == BarPoints(s, axis, before)
    ensures |log| == CountBelow(s, At(before)) / pageSize + 1
  {
    PulledMeaning(BarPoints(s, axis, before), Everything);
    PagesToIsDivision(CountBelow(s, At(before)), pageSize);
  }

  /** On an axis every candle carries, the `i`-th point is the `i`-th newest candle. */
  lemma DensePoint(s: seq<Candle>, axis: BarAxis, before: int, i: nat)
    requires Ascending(s)
    requires forall c :: c in s ==> ReadAxis(c, axis).Some?
    requires i < |BarPoints(s, axis, before)|
    ensures i < CountBelow(s, At(before))
            && BarPoints(s, axis, before)[i].ts == s[CountBelow(s, At(before)) - 1 - i].time
  {
    var k := CountBelow(s, At(before));
    EarlierIsPrefix(s, At(before));
    ProjectDense(Reverse(s[..k]), axis);
  }

  /** Stopping after `k` points of an axis every candle carries makes `ceil(k / pageSize)` fetches. */
  lemma StoppedWalkFetches(s: seq<Candle>, axis: BarAxis, before: int, pageSize: int, stop: Consumer,
                           points: seq<SeriesPoint>, log: seq<Read>, last: nat)
    requires Ascending(s) && pageSize > 0
             && Walked(s, BarPoints(s, axis, before), before, pageSize, stop, points, log, last)
    requires Stopped(points, stop)
    requires forall c :: c in s ==> ReadAxis(c, axis).Some?
    ensures last == |points| - 1
    ensures |log| == (|points| + pageSize - 1) / pageSize
  {
    hide CountBelow, PagesTo, BarPoints, Pulled, ReadAxis, PageLog;
    var k, n := CountBelow(s, At(before)), |points| - 1;
    PulledMeaning(BarPoints(s, axis, before), stop);
    DensePoint(s, axis, before, n);
    assert s[k - 1 - last].time == s[k - 1 - n].time;
    PagesToIsDivision(last, pageSize);
    OneMorePage(last, pageSize);
  }
}
