/**
 Paged backward walks over a stored series, whatever they project out of its candles:
 the page cursors, how many pages a consumer costs, and what is left below the cursor.
 */
module Paging {
  import opened Candles
  import opened CandleStore
  import opened Repositories
  import opened Series

  /** How many pages a walk fetches to reach the candle at newest-first position `m`. */
  function PagesTo(m: nat, pageSize: int): nat
    requires pageSize > 0
  {
    if m < pageSize then 1 else 1 + PagesTo(m - pageSize, pageSize)
  }

  lemma {:induction false} PagesToIsDivision(m: nat, pageSize: int)
    requires pageSize > 0
    ensures PagesTo(m, pageSize) == m / pageSize + 1
  {
    if m < pageSize {
      DivisionIs(m, 0, pageSize);
    } else {
      PagesToIsDivision(m - pageSize, pageSize);
      DivisionIs(m, (m - pageSize) / pageSize + 1, pageSize);
    }
  }

  /** How many of `k` candles are left below the cursor after `pages` full pages. */
  function Left(k: int, pages: nat, pageSize: int): int {
    if pages == 0 then k else Left(k, pages - 1, pageSize) - pageSize
  }

  lemma {:induction false} LeftIs(k: int, pages: nat, pageSize: int)
    ensures Left(k, pages, pageSize) == k - pages * pageSize
  {
    if pages > 0 {
      LeftIs(k, pages - 1, pageSize);
      assert pages * pageSize == (pages - 1) * pageSize + pageSize;
    }
  }

  lemma {:induction false} PagesAfter(k: nat, pages: nat, pageSize: int, m: nat)
    requires pageSize > 0 && 0 <= Left(k, pages, pageSize)
    ensures Left(k, pages, pageSize) <= k
    ensures PagesTo(k - Left(k, pages, pageSize) + m, pageSize) == pages + PagesTo(m, pageSize)
  {
    if pages > 0 {
      PagesAfter(k, pages - 1, pageSize, pageSize + m);
    }
  }

  /** The cursor of the `i`-th page: the bound itself, then the oldest candle already seen. */
  function Cursor(s: seq<Candle>, before: int, pageSize: int, i: nat): int
    requires i > 0 ==> 0 <= Left(CountBelow(s, At(before)), i, pageSize) < |s|
  {
    if i == 0 then before else s[Left(CountBelow(s, At(before)), i, pageSize)].time
  }

  /** Every read of the log is the next page below the candles already seen. */
  ghost predicate PageLog(s: seq<Candle>, before: int, pageSize: int, log: seq<Read>) {
    forall i :: 0 <= i < |log| ==>
      && (i > 0 ==> 0 <= Left(CountBelow(s, At(before)), i, pageSize) < |s|)
      && log[i] == LatestNRead(pageSize, At(Cursor(s, before, pageSize, i)))
  }

  /** One page of a walk: the newest `pageSize` candles below the cursor. */
  method FetchPage(repo: Repository, key: SeriesKey, pageSize: int, cursor: int) returns (page: seq<Candle>)
    requires repo.Faithful() && pageSize > 0
    ensures var s, e := repo.Series(key), CountBelow(repo.Series(key), At(cursor));
            && |page| == (if e < pageSize then e else pageSize)
            && page == Reverse(s[e - |page|..e])
  {
    hide *;
    SeriesAscending(repo, key);
    ReadThroughIsTransparent(repo, key);
    LatestNPage(repo.Series(key), pageSize, At(cursor));
    page := repo.LatestN(key, pageSize, At(cursor));
  }

  /** A page holds the candles below the cursor, newest first. */
  lemma PageIndex(s: seq<Candle>, e: nat, page: seq<Candle>)
    requires |page| <= e <= |s| && page == Reverse(s[e - |page|..e])
    ensures forall i :: 0 <= i < |page| ==> page[i] == s[e - 1 - i]
  {
  }

  lemma OneMorePage(n: nat, pageSize: int)
    requires pageSize > 0
    ensures n / pageSize + 1 == (n + pageSize) / pageSize
  {
    var q := n / pageSize;
    assert q * pageSize <= n < (q + 1) * pageSize;
    assert (q + 1) * pageSize <= n + pageSize < (q + 2) * pageSize;
    DivisionIs(n + pageSize, q + 1, pageSize);
  }

  /** The state of a walk between two pages: `e` candles remain below the cursor. */
  ghost predicate BetweenPages(s: seq<Candle>, walk: seq<SeriesPoint>, before: int, pageSize: int, stop: Consumer,
                               cursor: int, e: int, rest: seq<SeriesPoint>, points: seq<SeriesPoint>, log: seq<Read>)
  {
    var k := CountBelow(s, At(before));
    && 0 <= e <= k
    && e == CountBelow(s, At(cursor)) == Left(k, |log|, pageSize)
    && Pulled(walk, stop) == Consume(points, rest, stop)
    && !Stopped(points, stop)
    && PageLog(s, before, pageSize, log)
    && (|log| > 0 ==> e < |s|)
    && cursor == Cursor(s, before, pageSize, |log|)
  }

  lemma StillRunning(s: seq<Candle>, walk: seq<SeriesPoint>, before: int, pageSize: int, stop: Consumer,
                     cursor: int, e: int, rest: seq<SeriesPoint>, points: seq<SeriesPoint>, log: seq<Read>)
    requires BetweenPages(s, walk, before, pageSize, stop, cursor, e, rest, points, log)
    ensures !Stopped(points, stop)
  {
  }

  lemma WalkStarts(s: seq<Candle>, walk: seq<SeriesPoint>, before: int, pageSize: int, stop: Consumer)
    ensures BetweenPages(s, walk, before, pageSize, stop, before, CountBelow(s, At(before)), walk, [], [])
  {
  }

  lemma NextRead(s: seq<Candle>, before: int, pageSize: int, cursor: int, log: seq<Read>)
    requires PageLog(s, before, pageSize, log)
    requires |log| > 0 ==> 0 <= Left(CountBelow(s, At(before)), |log|, pageSize) < |s|
    requires cursor == Cursor(s, before, pageSize, |log|)
    ensures PageLog(s, before, pageSize, log + [LatestNRead(pageSize, At(cursor))])
  {
    hide CountBelow, Left, Cursor;
  }

  /** After a full page the consumer ran through, the walk continues below that page's oldest candle. */
  lemma WalkContinues(s: seq<Candle>, walk: seq<SeriesPoint>, before: int, pageSize: int, stop: Consumer,
                      cursor: int, e: int, rest: seq<SeriesPoint>, points: seq<SeriesPoint>, log: seq<Read>,
                      points': seq<SeriesPoint>, rest': seq<SeriesPoint>)
    requires Ascending(s) && pageSize > 0
    requires BetweenPages(s, walk, before, pageSize, stop, cursor, e, rest, points, log)
    requires e >= pageSize && !Stopped(points', stop)
    requires Consume(points, rest, stop) == Consume(points', rest', stop)
    ensures BetweenPages(s, walk, before, pageSize, stop, s[e - pageSize].time, e - pageSize, rest', points',
                         log + [LatestNRead(pageSize, At(cursor))])
  {
    hide CountBelow, Consume, Pulled, PageLog, Ascending;
    CountBelowAt(s, e - pageSize);
    NextRead(s, before, pageSize, cursor, log);
  }

  /** How a walk ends: the consumer saw what it should, and the log is the pages it needed. */
  ghost predicate Walked(s: seq<Candle>, walk: seq<SeriesPoint>, before: int, pageSize: int, stop: Consumer,
                         points: seq<SeriesPoint>, log: seq<Read>, last: nat)
    requires pageSize > 0
  {
    var k := CountBelow(s, At(before));
    && points == Pulled(walk, stop)
    && PageLog(s, before, pageSize, log)
    // a walk nobody stops fetches until a short page; a stopped one, up to the page of its last point's candle
    && (!Stopped(points, stop) ==> |log| == PagesTo(k, pageSize))
    && (Stopped(points, stop) ==>
        last < k && s[k - 1 - last].time == points[|points| - 1].ts && |log| == PagesTo(last, pageSize))
  }

  lemma WalkedServes(s: seq<Candle>, walk: seq<SeriesPoint>, before: int, pageSize: int, stop: Consumer,
                     points: seq<SeriesPoint>, log: seq<Read>, last: nat)
    requires pageSize > 0 && Walked(s, walk, before, pageSize, stop, points, log, last)
    ensures points == Pulled(walk, stop) && PageLog(s, before, pageSize, log)
  {
  }

  lemma WalkStops(s: seq<Candle>, walk: seq<SeriesPoint>, before: int, pageSize: int, stop: Consumer,
                  cursor: int, e: int, rest: seq<SeriesPoint>, points: seq<SeriesPoint>, log: seq<Read>,
                  points': seq<SeriesPoint>, at: nat)
    requires pageSize > 0
    requires BetweenPages(s, walk, before, pageSize, stop, cursor, e, rest, points, log)
    requires at < e && at < pageSize && Stopped(points', stop)
    requires s[e - 1 - at].time == points'[|points'| - 1].ts
    requires Consume(points, rest, stop) == points'
    ensures Walked(s, walk, before, pageSize, stop, points', log + [LatestNRead(pageSize, At(cursor))],
                   CountBelow(s, At(before)) - e + at)
  {
    hide CountBelow, Consume, Pulled, PageLog, Left;
    PagesAfter(CountBelow(s, At(before)), |log|, pageSize, at);
    NextRead(s, before, pageSize, cursor, log);
  }

  lemma WalkExhausts(s: seq<Candle>, walk: seq<SeriesPoint>, before: int, pageSize: int, stop: Consumer,
                     cursor: int, e: int, rest: seq<SeriesPoint>, points: seq<SeriesPoint>, log: seq<Read>,
                     points': seq<SeriesPoint>)
    requires pageSize > 0
    requires BetweenPages(s, walk, before, pageSize, stop, cursor, e, rest, points, log)
    requires e < pageSize && !Stopped(points', stop)
    requires Consume(points, rest, stop) == points'
    ensures Walked(s, walk, before, pageSize, stop, points', log + [LatestNRead(pageSize, At(cursor))], 0)
  {
    hide CountBelow, Consume, Pulled, PageLog, Left;
    PagesAfter(CountBelow(s, At(before)), |log|, pageSize, e);
    NextRead(s, before, pageSize, cursor, log);
  }

  // ---- how deep a read reaches ----

  /** The read stays at or below the bound and asks for no candle more than `depth` candles below it. */
  ghost predicate Reaches(s: seq<Candle>, before: int, depth: int, read: Read) {
    var k := CountBelow(s, At(before));
    match read
    case LatestNRead(n, b) => b.At? && b.t <= before && CountBelow(s, b) - n >= k - depth
    case RangeRead(from, to) =>
      var a := CountBelow(s, At(from));
      to <= before && k - depth <= a < |s| && s[a].time == from
  }

  lemma ReachesDeeper(s: seq<Candle>, before: int, depth: int, depth': int, read: Read)
    requires Reaches(s, before, depth, read) && depth <= depth'
    ensures Reaches(s, before, depth', read)
  {
  }

  /** The page below a cursor reaches to the end of that page. */
  lemma PageReaches(s: seq<Candle>, before: int, pageSize: int, i: nat)
    requires Ascending(s) && pageSize > 0
    requires i > 0 ==> 0 <= Left(CountBelow(s, At(before)), i, pageSize) < |s|
    ensures Reaches(s, before, CountBelow(s, At(before)) - Left(CountBelow(s, At(before)), i + 1, pageSize),
                    LatestNRead(pageSize, At(Cursor(s, before, pageSize, i))))
  {
    if i > 0 {
      var k, e := CountBelow(s, At(before)), Left(CountBelow(s, At(before)), i, pageSize);
      LeftDecreases(k, 0, i, pageSize);
      CountBelowAt(s, e);
      BelowIsPrefix(s, At(before));
    }
  }

  lemma {:induction false} LeftDecreases(k: int, i: nat, j: nat, pageSize: int)
    requires i <= j && pageSize >= 0
    ensures Left(k, j, pageSize) <= Left(k, i, pageSize)
    ensures i < j ==> Left(k, j, pageSize) <= Left(k, i, pageSize) - pageSize
  {
    if i < j { LeftDecreases(k, i, j - 1, pageSize); }
  }

  /** A log of `n` pages reaches `n * pageSize` candles below the bound and no deeper. */
  lemma LogReaches(s: seq<Candle>, before: int, pageSize: int, log: seq<Read>)
    requires Ascending(s) && pageSize > 0 && PageLog(s, before, pageSize, log)
    ensures forall r :: r in log ==> Reaches(s, before, |log| * pageSize, r)
  {
    hide Reaches, CountBelow, Left, Cursor;
    var k := CountBelow(s, At(before));
    LeftIs(k, |log|, pageSize);
    forall r | r in log ensures Reaches(s, before, |log| * pageSize, r) {
      var i :| 0 <= i < |log| && log[i] == r;
      PageReaches(s, before, pageSize, i);
      LeftDecreases(k, i + 1, |log|, pageSize);
      ReachesDeeper(s, before, k - Left(k, i + 1, pageSize), |log| * pageSize, r);
    }
  }

  /** A consumer that stops at newest-first position `last` costs at most `last + pageSize` candles of reading. */
  lemma StoppedDepth(last: nat, pageSize: int)
    requires pageSize > 0
    ensures PagesTo(last, pageSize) * pageSize <= last + pageSize
  {
    PagesToIsDivision(last, pageSize);
    var q := last / pageSize;
    assert (q + 1) * pageSize == q * pageSize + pageSize;
  }
}
