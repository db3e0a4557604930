/** Backfill: persisting a fetched history in chunks, and reading a stored one back one keyset page at a time. */
module Backfill {
  import opened Candles
  import opened CandleStore
  import opened Repositories

  const CHUNK_SIZE := 500

  // ---- keyset pages ----

  datatype CandlePage = CandlePage(candles: seq<Candle>, nextCursor: Option<int>, latestTime: Option<int>)

  function LatestTime(repo: Repository, key: SeriesKey): Option<int> {
    var s := repo.Series(key);
    if s == [] then None else Some(s[|s| - 1].time)
  }

  /** One page of `[from, to)`: `limit + 1` rows are read, and the extra one names the next page. */
  function ReadPage(repo: Repository, key: SeriesKey, from: int, to: int, limit: nat): CandlePage {
    PageOf(repo.Range(key, from, to, Some(limit + 1)), limit, LatestTime(repo, key))
  }

  function PageOf(rows: seq<Candle>, limit: nat, latest: Option<int>): CandlePage {
    if |rows| > limit then CandlePage(rows[..limit], Some(rows[limit].time), latest) else CandlePage(rows, None, latest)
  }

  lemma PageOfSlice(s: seq<Candle>, lo: nat, hi: nat, limit: nat, latest: Option<int>)
    requires lo <= |s| && hi <= |s|
    ensures var page := PageOf(if lo <= hi then s[lo..Min(lo + limit + 1, hi)] else [], limit, latest);
            if lo + limit < hi then page.candles == s[lo..lo + limit] && page.nextCursor == Some(s[lo + limit].time)
            else page.candles == (if lo <= hi then s[lo..hi] else []) && page.nextCursor == None
  {
  }

  lemma StoredRangeSlices(s: seq<Candle>, from: int, to: int, n: nat)
    requires Ascending(s)
    ensures var lo, hi := CountBelow(s, At(from)), CountBelow(s, At(to));
            && StoredRange(s, from, to, None) == (if lo <= hi then s[lo..hi] else [])
            && StoredRange(s, from, to, Some(n + 1)) == (if lo <= hi then s[lo..Min(lo + n + 1, hi)] else [])
  {
    hide Between, CountBelow, Ascending;
    BetweenIsSlice(s, from, At(to));
    var lo, hi := CountBelow(s, At(from)), CountBelow(s, At(to));
    if lo <= hi { assert s[lo..hi][..Min(n + 1, hi - lo)] == s[lo..Min(lo + n + 1, hi)]; }
  }

  /** What a range read returns, with and without a limit, as slices of the stored series. */
  lemma RangeSlices(repo: Repository, key: SeriesKey, from: int, to: int, n: nat)
    requires repo.Faithful()
    ensures Ascending(repo.Series(key))
    ensures var s := repo.Series(key);
            var lo, hi := CountBelow(s, At(from)), CountBelow(s, At(to));
            && lo <= |s| && hi <= |s|
            && repo.Range(key, from, to, None) == (if lo <= hi then s[lo..hi] else [])
            && repo.Range(key, from, to, Some(n + 1)) == (if lo <= hi then s[lo..Min(lo + n + 1, hi)] else [])
  {
    hide *;
    SeriesAscending(repo, key);
    ReadThroughIsTransparent(repo, key);
    StoredRangeSlices(repo.Series(key), from, to, n);
  }

  /** A page is the next `limit` stored candles of the range, and its cursor is the candle after them. */
  lemma PageIsSlice(repo: Repository, key: SeriesKey, from: int, to: int, limit: nat)
    requires repo.Faithful()
    ensures var s := repo.Series(key);
            var lo, hi := CountBelow(s, At(from)), CountBelow(s, At(to));
            var page := ReadPage(repo, key, from, to, limit);
            if lo + limit < hi then page.candles == s[lo..lo + limit] && page.nextCursor == Some(s[lo + limit].time)
            else page.candles == (if lo <= hi then s[lo..hi] else []) && page.nextCursor == None
  {
    hide CountBelow, Ascending, LatestTime, PageOf, Repository.Range, Repository.Series, Repository.Faithful;
    var s := repo.Series(key);
    RangeSlices(repo, key, from, to, limit);
    PageOfSlice(s, CountBelow(s, At(from)), CountBelow(s, At(to)), limit, LatestTime(repo, key));
  }

  /** Candles `[lo, k)` of the series have been read, and the cursor stands at candle `k`. */
  ghost predicate ReadUpTo(s: seq<Candle>, from: int, to: int, k: nat, cursor: int, all: seq<Candle>, cursors: seq<int>)
  {
    var lo, hi := CountBelow(s, At(from)), CountBelow(s, At(to));
    && CountBelow(s, At(cursor)) == k && from <= cursor
    && (cursor == from ==> k == lo) && (cursor != from ==> lo <= k < hi)
    && lo <= k && all == s[lo..k]
    && cursors != [] && cursors[0] == from && cursors[|cursors| - 1] == cursor
    && forall i :: 0 < i < |cursors| ==> cursors[i - 1] < cursors[i]
  }

  lemma ReadStart(s: seq<Candle>, from: int, to: int)
    ensures ReadUpTo(s, from, to, CountBelow(s, At(from)), from, [], [from])
  {
  }

  lemma NotBelow(s: seq<Candle>, cursor: int, i: nat)
    requires Ascending(s) && CountBelow(s, At(cursor)) <= i < |s|
    ensures cursor <= s[i].time
  {
    BelowIsPrefix(s, At(cursor));
    assert !Below(s[i].time, At(cursor));
  }

  /** A page with a cursor moves strictly forward and leaves no candle out. */
  lemma ReadNext(s: seq<Candle>, from: int, to: int, limit: nat, k: nat, cursor: int, all: seq<Candle>,
                 cursors: seq<int>)
    requires Ascending(s) && limit >= 1 && ReadUpTo(s, from, to, k, cursor, all, cursors)
    requires k + limit < CountBelow(s, At(to))
    ensures ReadUpTo(s, from, to, k + limit, s[k + limit].time, all + s[k..k + limit], cursors + [s[k + limit].time])
  {
    hide Ascending;
    var lo := CountBelow(s, At(from));
    CountBelowAt(s, k + limit);
    NotBelow(s, cursor, k + limit);
    assert s[lo..k] + s[k..k + limit] == s[lo..k + limit];
    CursorsGrow(cursors, s[k + limit].time);
  }

  lemma CursorsGrow(cursors: seq<int>, t: int)
    requires cursors != [] && cursors[|cursors| - 1] < t + 1
    requires forall i :: 0 < i < |cursors| ==> cursors[i - 1] < cursors[i]
    ensures cursors[|cursors| - 1] != t ==> forall i :: 0 < i < |cursors| + 1 ==>
                                              (cursors + [t])[i - 1] < (cursors + [t])[i]
  {
  }

  /** Follow `nextCursor` from `from`: with any limit of at least one, the pages are exactly `range(from, to)`. */
  method ReadAll(repo: Repository, key: SeriesKey, from: int, to: int, limit: nat)
    returns (all: seq<Candle>, cursors: seq<int>)
    requires repo.Faithful() && limit >= 1
    ensures all == repo.Range(key, from, to, None)
    ensures forall i :: 0 < i < |cursors| ==> cursors[i - 1] < cursors[i]
  {
    hide *;
    ghost var s := repo.Series(key);
    SeriesAscending(repo, key);
    var cursor := from;
    ghost var k: nat := CountBelow(s, At(from));
    all, cursors := [], [from];
    ReadStart(s, from, to);
    while true
      invariant ReadUpTo(s, from, to, k, cursor, all, cursors)
      decreases |s| - k
    {
      ReadBounds(s, from, to, k, cursor, all, cursors);
      var page := ReadPage(repo, key, cursor, to, limit);
      PageIsSlice(repo, key, cursor, to, limit);
      if page.nextCursor.None? {
        ReadEnds(repo, key, from, to, k, cursor, all, cursors, page.candles);
        return all + page.candles, cursors;
      }
      ReadNext(s, from, to, limit, k, cursor, all, cursors);
      all, cursors := all + page.candles, cursors + [page.nextCursor.value];
      cursor := page.nextCursor.value;
      k := k + limit;
    }
  }

  lemma ReadBounds(s: seq<Candle>, from: int, to: int, k: nat, cursor: int, all: seq<Candle>, cursors: seq<int>)
    requires ReadUpTo(s, from, to, k, cursor, all, cursors)
    ensures CountBelow(s, At(cursor)) == k <= |s| && CountBelow(s, At(to)) <= |s|
    ensures forall i :: 0 < i < |cursors| ==> cursors[i - 1] < cursors[i]
  {
  }

  lemma ReadEnds(repo: Repository, key: SeriesKey, from: int, to: int, k: nat, cursor: int, all: seq<Candle>,
                 cursors: seq<int>, last: seq<Candle>)
    requires repo.Faithful() && ReadUpTo(repo.Series(key), from, to, k, cursor, all, cursors)
    requires var s, hi := repo.Series(key), CountBelow(repo.Series(key), At(to));
             last == if k <= hi <= |s| then s[k..hi] else []
    ensures all + last == repo.Range(key, from, to, None)
  {
    hide CountBelow, Ascending, Repository.Range, Repository.Series, Repository.Faithful;
    RangeSlices(repo, key, from, to, 0);
  }

  /** With `limit` 0 the cursor never moves: a page of a nonempty range names its own first candle. */
  lemma ZeroLimitStalls(repo: Repository, key: SeriesKey, from: int, to: int)
    requires repo.Faithful() && repo.Range(key, from, to, None) != []
    ensures var page := ReadPage(repo, key, from, to, 0);
            && page.candles == [] && page.nextCursor.Some?
            && ReadPage(repo, key, page.nextCursor.value, to, 0).nextCursor == page.nextCursor
  {
    hide CountBelow, Ascending, ReadPage;
    var s := repo.Series(key);
    RangeSlices(repo, key, from, to, 0);
    PageIsSlice(repo, key, from, to, 0);
    var lo := CountBelow(s, At(from));
    CountBelowAt(s, lo);
    PageIsSlice(repo, key, s[lo].time, to, 0);
  }

  // ---- the chunked save loop ----

  datatype SaveProgress = SaveProgress(done: nat, total: nat)

  datatype BackfillSummary = BackfillSummary(from: Option<int>, to: Option<int>, fetched: nat, saved: nat)

  ghost predicate SavingFrames(frames: seq<SaveProgress>, saved: nat, total: nat) {
    && (forall i :: 0 <= i < |frames| ==> frames[i].total == total && frames[i].done <= saved)
    && (forall i :: 0 < i < |frames| ==> frames[i - 1].done < frames[i].done)
    && (if frames == [] then saved == 0 else frames[|frames| - 1].done == saved)
  }

  /** Persist a fetched batch in chunks: together they are one upsert of the whole batch. */
  method SaveInChunks(candles: InMemoryCandleRepository, key: SeriesKey, fetched: seq<Candle>)
    returns (summary: BackfillSummary, frames: seq<SaveProgress>)
    requires candles.Valid()
    modifies candles
    ensures candles.Valid()
    ensures candles.series == if fetched == [] then old(candles.series)
                              else old(candles.series)[key := SaveAll(old(candles.BucketOf(key)), fetched)]
    ensures summary.fetched == summary.saved == |fetched|
    ensures fetched == [] ==> summary.from.None? && summary.to.None?
    ensures fetched != [] ==> summary.from == Some(fetched[0].time) && summary.to == Some(fetched[|fetched| - 1].time)
    ensures SavingFrames(frames, |fetched|, |fetched|)
  {
    hide SaveAll, Keyed;
    var i := 0;
    var saved := 0;
    frames := [];
    ghost var before := candles.BucketOf(key);
    while i < |fetched|
      invariant saved == Min(i, |fetched|) && candles.Valid()
      invariant candles.series == if saved == 0 then old(candles.series)
                                    else old(candles.series)[key := SaveAll(before, fetched[..saved])]
      invariant SavingFrames(frames, saved, |fetched|)
      decreases |fetched| - i
    {
      var chunk := fetched[i..Min(i + CHUNK_SIZE, |fetched|)];
      ChunkExtends(before, fetched, i, Min(i + CHUNK_SIZE, |fetched|));
      candles.Save(key, chunk);
      saved := saved + |chunk|;
      frames := frames + [SaveProgress(saved, |fetched|)];
      i := i + CHUNK_SIZE;
    }
    assert fetched[..saved] == fetched;
    summary := BackfillSummary(if fetched == [] then None else Some(fetched[0].time),
                               if fetched == [] then None else Some(fetched[|fetched| - 1].time), |fetched|, saved);
  }

  lemma ChunkExtends(m: Bucket, fetched: seq<Candle>, i: nat, j: nat)
    requires i <= j <= |fetched|
    ensures SaveAll(SaveAll(m, fetched[..i]), fetched[i..j]) == SaveAll(m, fetched[..j])
    ensures i == 0 ==> SaveAll(m, fetched[..i]) == m
  {
    SaveAllConcat(m, fetched[..i], fetched[i..j]);
    assert fetched[..i] + fetched[i..j] == fetched[..j];
  }

  /** A history saved into an empty series is stored exactly as it was fetched. */
  lemma SavedIsStored(fetched: seq<Candle>)
    requires Ascending(fetched)
    ensures SortedByTime(SaveAll(map[], fetched)) == fetched
  {
    hide SaveAll, SortedByTime;
    var empty: Bucket := map[];
    var m := SaveAll(empty, fetched);
    SaveAscending(empty, fetched);
    SortedByTimeCorrect(m);
    forall c ensures c in SortedByTime(m) <==> c in fetched {
      assert (forall d :: d in fetched ==> d.time != c.time) ==> c.time !in m;
    }
    AscendingUnique(SortedByTime(m), fetched);
  }

  /**
   Backfilling an ascending history into an empty series and paging through it gives back the fetched candles of the
   range.
   */
  lemma BackfillRoundTrip(series: map<SeriesKey, Bucket>, key: SeriesKey, fetched: seq<Candle>, from: int, to: int)
    requires Ascending(fetched)
    ensures Store(series[key := SaveAll(map[], fetched)]).Range(key, from, to, None) == Between(fetched, from, At(to))
  {
    SavedIsStored(fetched);
  }
}
