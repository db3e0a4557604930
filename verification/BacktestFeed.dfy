/** The replay feed: every period's candles merged in completion order, and what that order guarantees the run. */
module BacktestFeed {
  import opened Candles
  import opened CandleStore
  import opened Repositories
  import opened Executor
  import opened Money
  import TradeTimeline

  datatype PeriodCandles = PeriodCandles(period: Period, candles: seq<Candle>)

  datatype FeedCandle = FeedCandle(period: Period, candle: Candle)
  {
    /** The instant the bar closes. */
    function Completion(): int { candle.time + PeriodMillis(period) }
  }

  /** The comparator: earlier completion first, ties finest period first. */
  predicate Before(a: FeedCandle, b: FeedCandle) {
    || a.Completion() < b.Completion()
    || (a.Completion() == b.Completion() && PeriodMillis(a.period) < PeriodMillis(b.period))
  }

  function Tagged(p: PeriodCandles): (r: seq<FeedCandle>)
    ensures |r| == |p.candles|
    ensures forall i :: 0 <= i < |r| ==> r[i] == FeedCandle(p.period, p.candles[i])
  {
    seq(|p.candles|, i requires 0 <= i < |p.candles| => FeedCandle(p.period, p.candles[i]))
  }

  function FlatMap(perPeriod: seq<PeriodCandles>): seq<FeedCandle> {
    if perPeriod == [] then [] else Tagged(perPeriod[0]) + FlatMap(perPeriod[1..])
  }

  /** Insert before the first item that does not come earlier, so equal items keep their order. */
  function Insert(x: FeedCandle, s: seq<FeedCandle>): seq<FeedCandle> {
    if s != [] && Before(s[0], x) then [s[0]] + Insert(x, s[1..]) else [x] + s
  }

  /** A stable sort by the comparator. */
  function Sorted(items: seq<FeedCandle>): seq<FeedCandle> {
    if items == [] then [] else Insert(items[0], Sorted(items[1..]))
  }

  function OrderBacktestFeed(perPeriod: seq<PeriodCandles>): seq<FeedCandle> {
    Sorted(FlatMap(perPeriod))
  }

  ghost predicate Strict(s: seq<FeedCandle>) {
    forall i, j :: 0 <= i < j < |s| ==> Before(s[i], s[j])
  }

  /** Every two items are comparable, one way or the other. */
  ghost predicate Comparable(s: seq<FeedCandle>) {
    forall i, j :: 0 <= i < j < |s| ==> Before(s[i], s[j]) || Before(s[j], s[i])
  }

  ghost predicate DistinctPeriods(perPeriod: seq<PeriodCandles>) {
    forall i, j :: 0 <= i < j < |perPeriod| ==> perPeriod[i].period != perPeriod[j].period
  }

  /** What the store hands the feed: each active period once, its candles ascending. */
  ghost predicate WellListed(perPeriod: seq<PeriodCandles>) {
    DistinctPeriods(perPeriod) && forall i :: 0 <= i < |perPeriod| ==> Ascending(perPeriod[i].candles)
  }

  // ---- sorting ----

  lemma {:induction false} InsertPermutes(x: FeedCandle, s: seq<FeedCandle>)
    ensures multiset(Insert(x, s)) == multiset{x} + multiset(s)
  {
    if s != [] && Before(s[0], x) {
      InsertPermutes(x, s[1..]);
      assert s == [s[0]] + s[1..];
    }
  }

  lemma {:induction false} SortedPermutes(items: seq<FeedCandle>)
    ensures multiset(Sorted(items)) == multiset(items)
  {
    if items != [] {
      SortedPermutes(items[1..]);
      InsertPermutes(items[0], Sorted(items[1..]));
      assert items == [items[0]] + items[1..];
    }
  }

  lemma SortedMembers(items: seq<FeedCandle>)
    ensures forall x :: x in Sorted(items) <==> x in items
  {
    SortedPermutes(items);
    forall x ensures x in Sorted(items) <==> x in items {
      assert x in Sorted(items) <==> x in multiset(Sorted(items));
      assert x in items <==> x in multiset(items);
    }
  }

  lemma {:induction false} InsertStrict(x: FeedCandle, s: seq<FeedCandle>)
    requires Strict(s)
    requires forall i :: 0 <= i < |s| ==> Before(s[i], x) || Before(x, s[i])
    ensures Strict(Insert(x, s))
    ensures forall y :: y in Insert(x, s) ==> y == x || y in s
  {
    hide Before;
    BeforeTransitive();
    if s != [] && Before(s[0], x) {
      InsertStrict(x, s[1..]);
      var r := Insert(x, s[1..]);
      forall j | 0 <= j < |r| ensures Before(s[0], r[j]) {
        assert r[j] == x || r[j] in s[1..];
      }
    }
  }

  lemma BeforeTransitive()
    ensures forall a, b, c :: Before(a, b) && Before(b, c) ==> Before(a, c)
    ensures forall a, b :: Before(a, b) ==> !Before(b, a)
  {
  }

  lemma {:induction false} SortedStrict(items: seq<FeedCandle>)
    requires Comparable(items)
    ensures Strict(Sorted(items))
  {
    hide Before, Insert;
    if items != [] {
      SortedStrict(items[1..]);
      SortedMembers(items[1..]);
      var rest := Sorted(items[1..]);
      forall i | 0 <= i < |rest| ensures Before(rest[i], items[0]) || Before(items[0], rest[i]) {
        assert rest[i] in items[1..];
      }
      InsertStrict(items[0], rest);
    }
  }

  /** Two strictly ordered lists of the same items are the same list. */
  lemma {:induction false} StrictUnique(a: seq<FeedCandle>, b: seq<FeedCandle>)
    requires Strict(a) && Strict(b)
    requires forall x :: x in a <==> x in b
    ensures a == b
  {
    hide Before;
    BeforeTransitive();
    assert a != [] ==> a[0] in b;
    assert b != [] ==> b[0] in a;
    if a != [] {
      assert a[0] == b[0];
      forall x ensures x in a[1..] <==> x in b[1..] {
        if x in a[1..] {
          assert x in a && x != a[0];
          assert x in b;
        }
        if x in b[1..] {
          assert x in b && x != b[0];
          assert x in a;
        }
      }
      StrictUnique(a[1..], b[1..]);
      assert a == [a[0]] + a[1..] && b == [b[0]] + b[1..];
    }
  }

  // ---- the flattened listing ----

  lemma {:induction false} FlatMapMembers(perPeriod: seq<PeriodCandles>, x: FeedCandle)
    ensures x in FlatMap(perPeriod) <==> exists p :: p in perPeriod && p.period == x.period && x.candle in p.candles
  {
    if perPeriod != [] {
      FlatMapMembers(perPeriod[1..], x);
      var p := perPeriod[0];
      assert x in Tagged(p) <==> p.period == x.period && x.candle in p.candles by {
        if x.candle in p.candles && p.period == x.period {
          var i :| 0 <= i < |p.candles| && p.candles[i] == x.candle;
          assert Tagged(p)[i] == x;
        }
      }
      assert forall q :: q in perPeriod <==> q == p || q in perPeriod[1..];
    }
  }

  lemma DifferentPeriods(a: FeedCandle, b: FeedCandle)
    requires a.period != b.period
    ensures Before(a, b) || Before(b, a)
  {
  }

  lemma {:induction false} FlatMapComparable(perPeriod: seq<PeriodCandles>)
    requires WellListed(perPeriod)
    ensures Comparable(FlatMap(perPeriod))
  {
    if perPeriod != [] {
      FlatMapComparable(perPeriod[1..]);
      var p, rest := perPeriod[0], FlatMap(perPeriod[1..]);
      forall x | x in rest ensures x.period != p.period {
        FlatMapMembers(perPeriod[1..], x);
      }
      AppendComparable(p, rest);
    }
  }

  lemma AppendComparable(p: PeriodCandles, rest: seq<FeedCandle>)
    requires Ascending(p.candles) && Comparable(rest)
    requires forall x :: x in rest ==> x.period != p.period
    ensures Comparable(Tagged(p) + rest)
  {
    var all := Tagged(p) + rest;
    var n := |p.candles|;
    forall i, j | 0 <= i < j < |all| ensures Before(all[i], all[j]) || Before(all[j], all[i]) {
      if j < n {
        assert p.candles[i].time < p.candles[j].time;
      } else if i < n {
        assert all[j] in rest;
        DifferentPeriods(all[i], all[j]);
      } else {
        assert all[i] == rest[i - n] && all[j] == rest[j - n];
      }
    }
  }

  // ---- what the feed promises ----

  /** The feed holds every listed candle exactly as often as it was listed. */
  lemma FeedIsPermutation(perPeriod: seq<PeriodCandles>)
    ensures multiset(OrderBacktestFeed(perPeriod)) == multiset(FlatMap(perPeriod))
  {
    SortedPermutes(FlatMap(perPeriod));
  }

  /** With each period listed once, the feed is strictly ordered by completion time, then period length. */
  lemma FeedStrictlyOrdered(perPeriod: seq<PeriodCandles>)
    requires WellListed(perPeriod)
    ensures Strict(OrderBacktestFeed(perPeriod))
    ensures forall i, j :: 0 <= i < j < |OrderBacktestFeed(perPeriod)| ==>
              var a, b := OrderBacktestFeed(perPeriod)[i], OrderBacktestFeed(perPeriod)[j];
              var closeA, closeB := a.candle.time + PeriodMillis(a.period), b.candle.time + PeriodMillis(b.period);
              closeA < closeB || (closeA == closeB && PeriodMillis(a.period) < PeriodMillis(b.period))
  {
    FlatMapComparable(perPeriod);
    SortedStrict(FlatMap(perPeriod));
    StrictCloses(OrderBacktestFeed(perPeriod));
  }

  lemma StrictCloses(feed: seq<FeedCandle>)
    requires Strict(feed)
    ensures forall i, j :: 0 <= i < j < |feed| ==>
              var closeA := feed[i].candle.time + PeriodMillis(feed[i].period);
              var closeB := feed[j].candle.time + PeriodMillis(feed[j].period);
              closeA < closeB || (closeA == closeB && PeriodMillis(feed[i].period) < PeriodMillis(feed[j].period))
  {
    assert forall i, j :: 0 <= i < j < |feed| ==> Before(feed[i], feed[j]);
  }

  /** The order in which the periods are listed does not matter. */
  lemma FeedIgnoresListing(a: seq<PeriodCandles>, b: seq<PeriodCandles>)
    requires WellListed(a) && WellListed(b)
    requires forall p :: p in a <==> p in b
    ensures OrderBacktestFeed(a) == OrderBacktestFeed(b)
  {
    FeedStrictlyOrdered(a);
    FeedStrictlyOrdered(b);
    SortedMembers(FlatMap(a));
    SortedMembers(FlatMap(b));
    forall x ensures x in OrderBacktestFeed(a) <==> x in OrderBacktestFeed(b) {
      FlatMapMembers(a, x);
      FlatMapMembers(b, x);
    }
    StrictUnique(OrderBacktestFeed(a), OrderBacktestFeed(b));
  }

  /** Bar `fine` lies within bar `coarse`. */
  ghost predicate Within(fine: FeedCandle, coarse: FeedCandle) {
    && PeriodMillis(fine.period) < PeriodMillis(coarse.period)
    && coarse.candle.time <= fine.candle.time
    && fine.candle.time + PeriodMillis(fine.period) <= coarse.candle.time + PeriodMillis(coarse.period)
  }

  /** A coarse bar is fed only after every finer bar inside it. */
  lemma FinerBarsFirst(perPeriod: seq<PeriodCandles>, i: nat, j: nat)
    requires WellListed(perPeriod)
    requires i < |OrderBacktestFeed(perPeriod)| && j < |OrderBacktestFeed(perPeriod)|
    requires Within(OrderBacktestFeed(perPeriod)[i], OrderBacktestFeed(perPeriod)[j])
    ensures i < j
  {
    hide OrderBacktestFeed;
    FeedStrictlyOrdered(perPeriod);
    BeforeTransitive();
    assert Before(OrderBacktestFeed(perPeriod)[i], OrderBacktestFeed(perPeriod)[j]);
  }

  // ---- progress ----

  datatype Progress = Progress(elapsedDays: real, totalDays: real)

  function Days(ms: int): real {
    ms as real / 86_400_000.0
  }

  /** Elapsed replay days once `item` has been fed, clamped to the run's window. */
  function ProgressAt(item: FeedCandle, start: int, end: int): Progress {
    Progress(Days(Min(Max(item.Completion() - start, 0), end - start)), Days(end - start))
  }

  lemma DaysMonotone(a: int, b: int)
    requires a <= b
    ensures Days(a) <= Days(b)
  {
  }

  ghost predicate ProgressAscends(ps: seq<Progress>, total: real) {
    && (forall i :: 0 <= i < |ps| ==> 0.0 <= ps[i].elapsedDays <= total && ps[i].totalDays == total)
    && (forall i, j :: 0 <= i < j < |ps| ==> ps[i].elapsedDays <= ps[j].elapsedDays)
  }

  /** Feeding the next item of a strictly ordered feed never moves progress back, nor past the total. */
  lemma ProgressNeverGoesBack(feed: seq<FeedCandle>, start: int, end: int, i: nat, j: nat)
    requires Strict(feed) && start <= end && i <= j < |feed|
    ensures 0.0 <= ProgressAt(feed[i], start, end).elapsedDays <= ProgressAt(feed[j], start, end).elapsedDays
            <= Days(end - start)
  {
    assert i < j ==> Before(feed[i], feed[j]);
    assert feed[i].Completion() <= feed[j].Completion();
    DaysMonotone(0, Min(Max(feed[i].Completion() - start, 0), end - start));
    DaysMonotone(Min(Max(feed[i].Completion() - start, 0), end - start),
                 Min(Max(feed[j].Completion() - start, 0), end - start));
    DaysMonotone(Min(Max(feed[j].Completion() - start, 0), end - start), end - start);
  }

  // ---- the replay loop ----

  function LoadFeed(repo: Repository, symbolId: string, periods: seq<Period>, start: int,
                    end: int): (r: seq<PeriodCandles>)
    ensures |r| == |periods|
  {
    seq(|periods|, i requires 0 <= i < |periods| =>
      PeriodCandles(periods[i], repo.Range(SeriesKey(symbolId, periods[i]), start, end, None)))
  }

  lemma LoadedFeedWellListed(repo: Repository, symbolId: string, periods: seq<Period>, start: int, end: int)
    requires repo.Faithful()
    requires forall i, j :: 0 <= i < j < |periods| ==> periods[i] != periods[j]
    ensures WellListed(LoadFeed(repo, symbolId, periods, start, end))
  {
    forall i | 0 <= i < |periods| ensures Ascending(LoadFeed(repo, symbolId, periods, start, end)[i].candles) {
      var key := SeriesKey(symbolId, periods[i]);
      ReadThroughIsTransparent(repo, key);
      SeriesAscending(repo, key);
      RangeAscends(repo.Series(key), start, end);
    }
  }

  lemma RangeAscends(s: seq<Candle>, start: int, end: int)
    requires Ascending(s)
    ensures Ascending(StoredRange(s, start, end, None))
  {
    BetweenIsSlice(s, start, At(end));
  }

  /** The whole run's feed is the same at every preload depth. */
  lemma FeedIgnoresPreloadDepth(inner: Repository, symbolId: string, periods: seq<Period>, bars: int, bars': int,
                                start: int, end: int)
    requires inner.Faithful()
    ensures LoadFeed(PreloadedView(inner, symbolId, periods, bars, start, end), symbolId, periods, start, end)
         == LoadFeed(PreloadedView(inner, symbolId, periods, bars', start, end), symbolId, periods, start, end)
  {
    forall i | 0 <= i < |periods|
      ensures LoadFeed(PreloadedView(inner, symbolId, periods, bars, start, end), symbolId, periods, start, end)[i]
           == LoadFeed(PreloadedView(inner, symbolId, periods, bars', start, end), symbolId, periods, start, end)[i]
    {
      PreloadDepthIrrelevant(inner, symbolId, periods, bars, bars', start, end, SeriesKey(symbolId, periods[i]));
    }
  }

  /** The events the engine appends while processing the last candle of a fed prefix. */
  type Engine = seq<FeedCandle> -> seq<RuleEvent>

  function StepsOf(feed: seq<FeedCandle>, engine: Engine): (r: seq<Step>)
    ensures |r| == |feed|
  {
    seq(|feed|, i requires 0 <= i < |feed| => Step(feed[i].candle, engine(feed[..i + 1]), feed[i].Completion()))
  }

  /** An engine that reads candles as it goes: what it appends for a fed prefix, over the repository it was given. */
  type ReadingEngine = (Repository, seq<FeedCandle>) -> seq<RuleEvent>

  /** It learns of the repository only what reads answer. */
  ghost predicate LearnsByReading(engine: ReadingEngine) {
    forall a, b, prefix :: Alike(a, b) ==> engine(a, prefix) == engine(b, prefix)
  }

  function Over(engine: ReadingEngine, repo: Repository): Engine {
    (prefix: seq<FeedCandle>) => engine(repo, prefix)
  }

  /** The run of a symbol's periods over one repository: its feed, and the engine reading from that repository. */
  function RunOver(cfg: Config, engine: ReadingEngine, repo: Repository, symbolId: string, periods: seq<Period>,
                   start: int, end: int): State
  {
    Run(cfg, StepsOf(OrderBacktestFeed(LoadFeed(repo, symbolId, periods, start, end)), Over(engine, repo)))
  }

  lemma RunsAlike(cfg: Config, engine: ReadingEngine, a: Repository, b: Repository, symbolId: string,
                  periods: seq<Period>, start: int, end: int)
    requires Alike(a, b) && LearnsByReading(engine)
    ensures RunOver(cfg, engine, a, symbolId, periods, start, end)
            == RunOver(cfg, engine, b, symbolId, periods, start, end)
  {
    hide Run, OrderBacktestFeed;
    forall i | 0 <= i < |periods|
      ensures LoadFeed(a, symbolId, periods, start, end)[i] == LoadFeed(b, symbolId, periods, start, end)[i]
    {
      var key := SeriesKey(symbolId, periods[i]);
      assert AlikeAt(a, b, key);
      assert a.Range(key, start, end, None) == b.Range(key, start, end, None);
    }
    var feed := OrderBacktestFeed(LoadFeed(a, symbolId, periods, start, end));
    assert LoadFeed(a, symbolId, periods, start, end) == LoadFeed(b, symbolId, periods, start, end);
    forall i | 0 <= i < |feed| ensures StepsOf(feed, Over(engine, a))[i] == StepsOf(feed, Over(engine, b))[i] {
      assert engine(a, feed[..i + 1]) == engine(b, feed[..i + 1]);
    }
    assert StepsOf(feed, Over(engine, a)) == StepsOf(feed, Over(engine, b));
  }

  /** Preload depth never changes a backtest: at every depth the run is the run over the store itself. */
  lemma ReplayIgnoresPreloadDepth(cfg: Config, engine: ReadingEngine, inner: Repository, symbolId: string,
                                  periods: seq<Period>,
                                  bars: int, bars': int, start: int, end: int)
    requires inner.Faithful() && LearnsByReading(engine)
    ensures RunOver(cfg, engine, PreloadedView(inner, symbolId, periods, bars, start, end), symbolId, periods, start,
                    end)
         == RunOver(cfg, engine, PreloadedView(inner, symbolId, periods, bars', start, end), symbolId, periods, start,
                    end)
         == RunOver(cfg, engine, inner, symbolId, periods, start, end)
  {
    hide RunOver, Alike;
    PreloadingsAlike(inner, symbolId, periods, bars, bars', start, end);
    RunsAlike(cfg, engine, PreloadedView(inner, symbolId, periods, bars, start, end),
              PreloadedView(inner, symbolId, periods, bars', start, end), symbolId, periods, start, end);
    RunsAlike(cfg, engine, PreloadedView(inner, symbolId, periods, bars, start, end), inner, symbolId, periods, start,
              end);
  }

  /** What a replay reports: 0, one entry per candle fed, and the total at the end of a run that was not cancelled. */
  function Reported(feed: seq<FeedCandle>, start: int, end: int): (r: seq<Progress>)
    ensures |r| == |feed| + 1
  {
    [Progress(0.0, Days(end - start))] + seq(|feed|, i requires 0 <= i < |feed| => ProgressAt(feed[i], start, end))
  }

  /** The first item before which a cancellation is seen, or the feed's length. */
  function CancelledAt(cancelled: nat -> bool, n: nat, i: nat): (k: nat)
    requires i <= n
    ensures i <= k <= n && (k < n ==> cancelled(k)) && forall j :: i <= j < k ==> !cancelled(j)
    decreases n - i
  {
    if i == n || cancelled(i) then i else CancelledAt(cancelled, n, i + 1)
  }

  const EMPTY_OUTCOME := Outcome([], None, SummarizeTrades([], 0.0))

  /** Run the feed: stop at the first cancellation seen, otherwise process every candle and report the total. */
  method ReplayFeed(cfg: Config, perPeriod: seq<PeriodCandles>, start: int, end: int, engine: Engine,
                    cancelled: nat -> bool)
    returns (outcome: Outcome, wasCancelled: bool, progress: seq<Progress>)
    ensures var feed := OrderBacktestFeed(perPeriod);
            var k := CancelledAt(cancelled, |feed|, 0);
            && wasCancelled == (k < |feed|)
            && outcome == (if wasCancelled then EMPTY_OUTCOME else OutcomeOf(cfg, Run(cfg, StepsOf(feed, engine))))
            && progress == Reported(feed[..k], start, end)
               + (if wasCancelled then [] else [Progress(Days(end - start), Days(end - start))])
  {
    hide *;
    var feed := OrderBacktestFeed(perPeriod);
    var executor := new BacktestExecutor(cfg);
    ReplayStarts(cfg, feed, engine, start, end);
    progress := [Progress(0.0, Days(end - start))];
    var i := 0;
    while i < |feed|
      invariant 0 <= i <= CancelledAt(cancelled, |feed|, 0)
      invariant executor.cfg == cfg && Replayed(cfg, feed, engine, start, end, i, executor.Now(), progress)
    {
      if cancelled(i) {
        ReplayedProgress(cfg, feed, engine, start, end, i, executor.Now(), progress);
        return EMPTY_OUTCOME, true, progress + [];
      }
      ReplayContinues(cfg, feed, engine, start, end, i, executor.Now(), progress);
      executor.ProcessStep(feed[i].candle, engine(feed[..i + 1]), feed[i].Completion());
      progress := progress + [ProgressAt(feed[i], start, end)];
      i := i + 1;
    }
    ReplayEnds(cfg, feed, engine, start, end, executor.Now(), progress);
    ReplayedProgress(cfg, feed, engine, start, end, i, executor.Now(), progress);
    progress := progress + [Progress(Days(end - start), Days(end - start))];
    outcome := executor.Result();
    wasCancelled := false;
  }

  /** The first `i` items have been processed and reported. */
  ghost predicate Replayed(cfg: Config, feed: seq<FeedCandle>, engine: Engine, start: int, end: int, i: nat, st: State,
                           progress: seq<Progress>)
  {
    i <= |feed| && st == Run(cfg, StepsOf(feed[..i], engine)) && progress == Reported(feed[..i], start, end)
  }

  lemma ReplayStarts(cfg: Config, feed: seq<FeedCandle>, engine: Engine, start: int, end: int)
    ensures Replayed(cfg, feed, engine, start, end, 0, Initial(cfg), [Progress(0.0, Days(end - start))])
  {
    hide Days;
  }

  lemma ReplayedProgress(cfg: Config, feed: seq<FeedCandle>, engine: Engine, start: int, end: int, i: nat, st: State,
                         progress: seq<Progress>)
    requires Replayed(cfg, feed, engine, start, end, i, st, progress)
    ensures i <= |feed| && progress == Reported(feed[..i], start, end)
  {
  }

  lemma ReplayEnds(cfg: Config, feed: seq<FeedCandle>, engine: Engine, start: int, end: int, st: State,
                   progress: seq<Progress>)
    requires Replayed(cfg, feed, engine, start, end, |feed|, st, progress)
    ensures st == Run(cfg, StepsOf(feed, engine))
  {
    hide Run, Reported, StepsOf;
    assert feed[..|feed|] == feed;
  }

  lemma ReplayContinues(cfg: Config, feed: seq<FeedCandle>, engine: Engine, start: int, end: int, i: nat, st: State,
                        progress: seq<Progress>)
    requires i < |feed| && Replayed(cfg, feed, engine, start, end, i, st, progress)
    ensures Replayed(cfg, feed, engine, start, end, i + 1,
                     OnStep(cfg, st, Step(feed[i].candle, engine(feed[..i + 1]), feed[i].Completion())),
                     progress + [ProgressAt(feed[i], start, end)])
  {
    hide Run, StepsOf, OnStep, ProgressAt, Days;
    StepsGrow(cfg, feed, engine, i);
    assert Reported(feed[..i + 1], start, end) == Reported(feed[..i], start, end) + [ProgressAt(feed[i], start, end)];
  }

  lemma StepsGrow(cfg: Config, feed: seq<FeedCandle>, engine: Engine, i: nat)
    requires i < |feed|
    ensures Run(cfg, StepsOf(feed[..i + 1], engine))
         == OnStep(cfg, Run(cfg, StepsOf(feed[..i], engine)),
                   Step(feed[i].candle, engine(feed[..i + 1]), feed[i].Completion()))
  {
    hide OnStep;
    var next, before := StepsOf(feed[..i + 1], engine), StepsOf(feed[..i], engine);
    assert feed[..i + 1][..i + 1] == feed[..i + 1];
    forall j | 0 <= j < i ensures next[j] == before[j] {
      assert feed[..i + 1][..j + 1] == feed[..i][..j + 1];
    }
    assert next[..i] == before;
  }

  /** Every progress list a replay reports is nondecreasing and stays within `[0, totalDays]`. */
  lemma ReportedAscends(feed: seq<FeedCandle>, k: nat, start: int, end: int, last: seq<Progress>)
    requires Strict(feed) && start <= end && k <= |feed|
    requires last == [] || last == [Progress(Days(end - start), Days(end - start))]
    ensures ProgressAscends(Reported(feed[..k], start, end) + last, Days(end - start))
  {
    hide ProgressAt, Days, Before;
    var ps := Reported(feed[..k], start, end) + last;
    DaysMonotone(0, end - start);
    DaysZero();
    forall i | 0 <= i < k
      ensures ps[i + 1] == ProgressAt(feed[i], start, end)
      ensures 0.0 <= ps[i + 1].elapsedDays <= Days(end - start) && ps[i + 1].totalDays == Days(end - start)
    {
      ProgressNeverGoesBack(feed, start, end, i, i);
      ProgressTotal(feed[i], start, end);
    }
    forall i, j | 0 <= i < j < |ps| ensures ps[i].elapsedDays <= ps[j].elapsedDays {
      if 0 < i && j <= k { ProgressNeverGoesBack(feed, start, end, i - 1, j - 1); }
    }
  }

  /** Progress in milliseconds: the whole run, and as much of it as has passed when the item's bar closes. */
  lemma ProgressIsElapsed(item: FeedCandle, start: int, end: int)
    requires start <= end
    ensures var progress, close := ProgressAt(item, start, end), item.candle.time + PeriodMillis(item.period);
            && progress.totalDays * 24.0 * 3600.0 * 1000.0 == (end - start) as real
            && progress.elapsedDays * 24.0 * 3600.0 * 1000.0
               == if close <= start then 0.0 else if close >= end then (end - start) as real
                                                    else (close - start) as real
  {
  }

  lemma DaysZero()
    ensures Days(0) == 0.0
  {
  }

  lemma ProgressTotal(item: FeedCandle, start: int, end: int)
    ensures ProgressAt(item, start, end).totalDays == Days(end - start)
  {
  }

  /** Every trade of a replay is entered and left at the close of a fed candle, and filled at its price or a level. */
  lemma FeedTradesAtCloses(cfg: Config, feed: seq<FeedCandle>, engine: Engine, k: nat)
    requires k < |Run(cfg, StepsOf(feed, engine)).trades|
    ensures var t := Run(cfg, StepsOf(feed, engine)).trades[k];
            exists en, ex :: 0 <= en <= ex < |feed| && ClosedAt(feed[en], t.entryTs, t.entryPrice)
              && t.exitTs == feed[ex].candle.time + PeriodMillis(feed[ex].period)
              && (t.exitReason.BySignal? ==> ClosedAt(feed[ex], t.exitTs, t.exitPrice))
  {
    hide Run;
    var en, ex := TradeTimeline.TradesToldInSteps(cfg, StepsOf(feed, engine), k);
    assert ClosedAt(feed[en], Run(cfg, StepsOf(feed, engine)).trades[k].entryTs,
                    Run(cfg, StepsOf(feed, engine)).trades[k].entryPrice);
  }

  ghost predicate ClosedAt(item: FeedCandle, ts: int, price: real) {
    ts == item.candle.time + PeriodMillis(item.period) && price == item.candle.close
  }

  /** Over a strictly ordered feed the executor's clock never goes back, so its trades are ordered in time. */
  lemma FeedTradesInTimeOrder(cfg: Config, feed: seq<FeedCandle>, engine: Engine, k: nat)
    requires Strict(feed) && k < |Run(cfg, StepsOf(feed, engine)).trades|
    ensures var trades := Run(cfg, StepsOf(feed, engine)).trades;
            trades[k].entryTs <= trades[k].exitTs && (k + 1 < |trades| ==> trades[k].exitTs <= trades[k + 1].entryTs)
  {
    hide Run;
    var steps := StepsOf(feed, engine);
    forall i, j | 0 <= i < j < |steps| ensures steps[i].closeTime <= steps[j].closeTime {
      assert Before(feed[i], feed[j]);
    }
    TradeTimeline.TradesInTimeOrder(cfg, steps, k);
  }
}
