/**
 Page size and preloading never change what a walk yields: two walks over repositories that read alike, side by side.
 */
module WalkAgreement {
  import opened Candles
  import opened CandleStore
  import opened Repositories
  import opened Series
  import opened Paging
  import opened BarSeries
  import opened FormingBars
  import opened IndicatorSeries
  import opened IndicatorPaging

  /** Two walks of one bar axis, at any two page sizes and over any two repositories that read alike. */
  method BarWalks(a: Repository, b: Repository, key: SeriesKey, axis: BarAxis, before: int, pageSize: int, other: int,
                  stop: Consumer)
    returns (x: seq<SeriesPoint>, y: seq<SeriesPoint>)
    requires a.Faithful() && b.Faithful() && Alike(a, b) && pageSize > 0 && other > 0
    ensures x == y == Pulled(BarPoints(a.Series(key), axis, before), stop)
  {
    hide *;
    AlikeIsSameSeries(a, b);
    var log;
    ghost var last;
    x, log, last := BackwardWalk(a, key, axis, before, pageSize, stop);
    y, log, last := BackwardWalk(b, key, axis, before, other, stop);
  }

  /** Two walks of one forming bar series, at any two page sizes and over any two repositories that read alike. */
  method FormingWalks(a: Repository, b: Repository, key: SeriesKey, fineKey: SeriesKey, axis: BarAxis, before: int,
                      pageSize: int, other: int, stop: Consumer)
    returns (x: seq<SeriesPoint>, y: seq<SeriesPoint>)
    requires a.Faithful() && b.Faithful() && Alike(a, b) && pageSize > 0 && other > 0
    ensures x == y
         == Pulled(FormingPoints(a.Series(fineKey), a.Series(key), axis, before, PeriodMillis(key.period)), stop)
  {
    hide *;
    AlikeIsSameSeries(a, b);
    x := FormingBackwardWalk(a, key, fineKey, axis, before, pageSize, stop);
    y := FormingBackwardWalk(b, key, fineKey, axis, before, other, stop);
  }

  lemma WalkedSees(ind: Indicator, s: seq<Candle>, stateKey: string, before: int, pageSize: int, stop: Consumer,
                   points: seq<SeriesPoint>, log: seq<Read>, pages: seq<Read>, last: nat, threw: bool)
    requires ind.Warmup() >= 1 && pageSize > 0
    requires IndicatorWalked(ind, s, stateKey, before, pageSize, stop, points, log, pages, last, threw)
    ensures points == Pulled(PagedPoints(ind, s, CountBelow(s, At(before)), pageSize, stateKey), stop)
  {
    hide WalkTrace, Walked, AllReach, PagedPoints;
  }

  /**
   Two walks of one windowed indicator field, at any two page sizes and over any two repositories that read alike,
   whenever the candles below the bound all resolve.
   */
  method IndicatorWalks(a: Repository, b: Repository, watched: Watchlist, key: SeriesKey, ind: Indicator,
                        stateKey: string, before: int,
                        pageSize: int, other: int, stop: Consumer)
    returns (x: seq<SeriesPoint>, y: seq<SeriesPoint>)
    requires a.Faithful() && b.Faithful() && Alike(a, b) && pageSize > 0 && other > 0 && Windowed(ind)
    requires ind.Warmup() >= 1 ==> ind.Compute(Earlier(a.Series(key), At(before))).Rows?
    ensures !Accepts(watched, key.symbolId, ind) ==> x == y == []
    ensures Accepts(watched, key.symbolId, ind) ==>
              ind.Warmup() >= 1 && x == y == Pulled(IndicatorPoints(ind, a.Series(key), stateKey, before), stop)
  {
    hide *;
    AlikeIsSameSeries(a, b);
    SeriesAscending(a, key);
    var log, threw;
    ghost var pages, last;
    x, log, pages, last, threw := IndicatorBackwardWalk(a, watched, key, ind, stateKey, before, pageSize, stop);
    if Accepts(watched, key.symbolId, ind) {
      WalkedSees(ind, a.Series(key), stateKey, before, pageSize, stop, x, log, pages, last, threw);
    }
    y, log, pages, last, threw := IndicatorBackwardWalk(b, watched, key, ind, stateKey, before, other, stop);
    if Accepts(watched, key.symbolId, ind) {
      WalkedSees(ind, b.Series(key), stateKey, before, other, stop, y, log, pages, last, threw);
      PagedIsWholeHistory(ind, a.Series(key), before, pageSize, stateKey);
      PagedIsWholeHistory(ind, a.Series(key), before, other, stateKey);
    }
  }
}
