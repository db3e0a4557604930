/**
 Candle repositories as the views read them: the store itself, or a read-through
 layer over another repository that holds one preloaded window per series.
 A view reads an unchanging store, so a repository is a value here.
 */
module Repositories {
  import opened Candles
  import opened CandleStore

  /** The window `[floor, end)` of one series held in memory. */
  datatype Resident = Resident(floor: int, end: int, candles: seq<Candle>, completeBelow: bool)

  datatype PreloadedSeriesEntry = PreloadedSeriesEntry(key: SeriesKey, window: Resident)

  /** One read a view issues. */
  datatype Read =
    | LatestNRead(n: int, before: Bound)
    | RangeRead(from: int, to: int)

  datatype Repository =
    | Store(series: map<SeriesKey, Bucket>)
    | Preloaded(inner: Repository, windows: map<SeriesKey, Resident>)
  {
    /** Whether a `range` reaches outside the resident window and is passed to the wrapped store whole. */
    predicate RangeDelegates(key: SeriesKey, from: int, to: int)
      requires Preloaded?
    {
      || key !in windows
      || (from < windows[key].floor && !windows[key].completeBelow)
      || to > windows[key].end
    }

    function Range(key: SeriesKey, from: int, to: int, limit: Option<int>): seq<Candle> {
      match this
      case Store(series) =>
        StoredRange(SortedByTime(if key in series then series[key] else map[]), from, to, limit)
      case Preloaded(inner, windows) =>
        if RangeDelegates(key, from, to) then inner.Range(key, from, to, limit)
        else if limit.Some? && limit.value <= 0 then []
        else
          var matched := Between(windows[key].candles, from, At(to));
          if limit.None? then matched else matched[..Min(limit.value, |matched|)]
    }

    /** Whether a `latestN` cannot be answered in full from the resident window. */
    predicate LatestNDelegates(key: SeriesKey, n: int, before: Bound)
      requires Preloaded?
    {
      || key !in windows
      || before.Unbounded?
      || before.t > windows[key].end
      || (n > 0 && !windows[key].completeBelow && |LastN(Earlier(windows[key].candles, before), n)| < n)
    }

    function LatestN(key: SeriesKey, n: int, before: Bound): seq<Candle> {
      match this
      case Store(series) =>
        StoredLatestN(SortedByTime(if key in series then series[key] else map[]), n, before)
      case Preloaded(inner, windows) =>
        if key !in windows || before.Unbounded? || before.t > windows[key].end then inner.LatestN(key, n, before)
        else if n <= 0 then []
        else
          var candidates := Reverse(LastN(Earlier(windows[key].candles, before), n));
          if |candidates| >= n || windows[key].completeBelow then candidates
          else inner.LatestN(key, n, before)
    }

    predicate Delegates(key: SeriesKey, read: Read)
      requires Preloaded?
    {
      match read
      case LatestNRead(n, before) => LatestNDelegates(key, n, before)
      case RangeRead(from, to) => RangeDelegates(key, from, to)
    }

    /** The series stored under `key` at the bottom of the stack. */
    function Series(key: SeriesKey): seq<Candle> {
      match this
      case Store(series) => SortedByTime(if key in series then series[key] else map[])
      case Preloaded(inner, windows) => inner.Series(key)
    }

    /** Buckets are keyed by open time, and every window holds what the wrapped store held when it was loaded. */
    ghost predicate Faithful() {
      match this
      case Store(series) => forall k :: k in series ==> Keyed(series[k])
      case Preloaded(inner, windows) =>
        && inner.Faithful()
        && forall k :: k in windows ==> Loaded(inner, k, windows[k])
    }
  }

  /** The window is exactly `inner`'s `[floor, end)`, and `completeBelow` is exactly "nothing older". */
  ghost predicate Loaded(inner: Repository, key: SeriesKey, w: Resident) {
    && w.candles == inner.Range(key, w.floor, w.end, None)
    && (w.completeBelow <==> inner.LatestN(key, 1, At(w.floor)) == [])
  }

  lemma SeriesAscending(repo: Repository, key: SeriesKey)
    requires repo.Faithful()
    ensures Ascending(repo.Series(key))
  {
    match repo
    case Store(series) => SortedByTimeCorrect(if key in series then series[key] else map[]);
    case Preloaded(inner, windows) => SeriesAscending(inner, key);
  }

  /** What loading a window over the series `s` leaves resident. */
  ghost predicate Resides(s: seq<Candle>, w: Resident) {
    && w.candles == StoredRange(s, w.floor, w.end, None)
    && (w.completeBelow <==> StoredLatestN(s, 1, At(w.floor)) == [])
  }

  /** A resident window is the slice of the series between its two bounds. */
  lemma WindowIsSlice(s: seq<Candle>, w: Resident)
    requires Ascending(s) && Resides(s, w)
    ensures w.completeBelow <==> CountBelow(s, At(w.floor)) == 0
    ensures var lo, hi := CountBelow(s, At(w.floor)), CountBelow(s, At(w.end));
            w.candles == if lo <= hi then s[lo..hi] else []
  {
    BetweenIsSlice(s, w.floor, At(w.end));
    LatestNIsSlice(s, 1, At(w.floor));
  }

  /** Below a bound inside the window, the window and the series hold the same newest candles. */
  lemma EarlierInWindow(s: seq<Candle>, w: Resident, before: int)
    requires Ascending(s) && Resides(s, w) && before <= w.end
    ensures var lo, k := CountBelow(s, At(w.floor)), CountBelow(s, At(before));
            Earlier(w.candles, At(before)) == if lo <= k then s[lo..k] else []
  {
    WindowIsSlice(s, w);
    var lo, hi, k := CountBelow(s, At(w.floor)), CountBelow(s, At(w.end)), CountBelow(s, At(before));
    CountBelowMonotone(s, before, w.end);
    if lo <= hi {
      AscendingSlice(s, lo, hi);
      CountBelowSlice(s, lo, hi, At(before));
      EarlierIsPrefix(s[lo..hi], At(before));
    }
  }

  lemma PreloadedLatestN(s: seq<Candle>, w: Resident, n: int, before: int)
    requires Ascending(s) && Resides(s, w) && before <= w.end && n > 0
    requires |LastN(Earlier(w.candles, At(before)), n)| >= n || w.completeBelow
    ensures Reverse(LastN(Earlier(w.candles, At(before)), n)) == StoredLatestN(s, n, At(before))
  {
    WindowIsSlice(s, w);
    EarlierInWindow(s, w, before);
    EarlierIsPrefix(s, At(before));
    LastOfSlice(s, CountBelow(s, At(w.floor)), CountBelow(s, At(before)), n);
  }

  lemma PreloadedRange(s: seq<Candle>, w: Resident, from: int, to: int)
    requires Ascending(s) && Resides(s, w) && to <= w.end
    requires from >= w.floor || w.completeBelow
    ensures Between(w.candles, from, At(to)) == Between(s, from, At(to))
  {
    WindowIsSlice(s, w);
    var lo, hi := CountBelow(s, At(w.floor)), CountBelow(s, At(w.end));
    CountBelowMonotone(s, to, w.end);
    if from >= w.floor { CountBelowMonotone(s, w.floor, from); }
    if lo <= hi {
      BetweenOfSlice(s, lo, hi, from, At(to));
    } else {
      BetweenIsSlice(s, from, At(to));
    }
  }

  /**
   The read-through law: over an unchanging store, a repository of any depth answers every
   `range` and every `latestN`, for all arguments, exactly as the bare series would.
   */
  lemma {:induction false} ReadThroughIsTransparent(repo: Repository, key: SeriesKey)
    requires repo.Faithful()
    ensures forall from, to, limit ::
              repo.Range(key, from, to, limit) == StoredRange(repo.Series(key), from, to, limit)
    ensures forall n, before :: repo.LatestN(key, n, before) == StoredLatestN(repo.Series(key), n, before)
  {
    if repo.Preloaded? {
      ReadThroughIsTransparent(repo.inner, key);
      SeriesAscending(repo, key);
      var s := repo.Series(key);
      if key in repo.windows {
        var w := repo.windows[key];
        assert Loaded(repo.inner, key, w);
        assert Resides(s, w);
        forall from, to, limit
          ensures repo.Range(key, from, to, limit) == StoredRange(s, from, to, limit)
        {
          if !repo.RangeDelegates(key, from, to) { PreloadedRange(s, w, from, to); }
        }
        forall n, before
          ensures repo.LatestN(key, n, before) == StoredLatestN(s, n, before)
        {
          if n > 0 && !repo.LatestNDelegates(key, n, before) { PreloadedLatestN(s, w, n, before.t); }
        }
      }
    }
  }

  /** Loading one period's window: `[start - bars * periodMillis, end)`, and one probe below the floor. */
  function LoadWindow(inner: Repository, key: SeriesKey, bars: int, start: int, end: int): (w: Resident)
    ensures Loaded(inner, key, w)
    ensures w.floor == start - bars * PeriodMillis(key.period) && w.end == end
  {
    var floor := start - bars * PeriodMillis(key.period);
    Resident(floor, end, inner.Range(key, floor, end, None), inner.LatestN(key, 1, At(floor)) == [])
  }

  function LoadEntry(inner: Repository, symbolId: string, period: Period, bars: int, start: int,
                     end: int): PreloadedSeriesEntry
  {
    PreloadedSeriesEntry(SeriesKey(symbolId, period), LoadWindow(inner, SeriesKey(symbolId, period), bars, start, end))
  }

  /** One window entry per active period. */
  function LoadEntries(inner: Repository, symbolId: string, periods: seq<Period>, bars: int, start: int,
                       end: int): seq<PreloadedSeriesEntry>
  {
    seq(|periods|, i requires 0 <= i < |periods| => LoadEntry(inner, symbolId, periods[i], bars, start, end))
  }

  /** The window map the entries fill: a later entry replaces an earlier one under the same key. */
  function WindowsOf(entries: seq<PreloadedSeriesEntry>): map<SeriesKey, Resident> {
    if entries == [] then map[]
    else WindowsOf(entries[..|entries| - 1])[entries[|entries| - 1].key := entries[|entries| - 1].window]
  }

  /** Every window in the map is one of the entries, and every entry's key has a window. */
  lemma {:induction false} WindowsFromEntries(entries: seq<PreloadedSeriesEntry>)
    ensures forall i :: 0 <= i < |entries| ==> entries[i].key in WindowsOf(entries)
    ensures forall k :: k in WindowsOf(entries) ==> PreloadedSeriesEntry(k, WindowsOf(entries)[k]) in entries
  {
    if entries != [] {
      var n := |entries| - 1;
      WindowsFromEntries(entries[..n]);
      assert entries == entries[..n] + [entries[n]];
    }
  }

  lemma WindowsLoaded(inner: Repository, entries: seq<PreloadedSeriesEntry>)
    requires inner.Faithful()
    requires forall e :: e in entries ==> Loaded(inner, e.key, e.window)
    ensures Preloaded(inner, WindowsOf(entries)).Faithful()
  {
    WindowsFromEntries(entries);
  }

  /** `preloadCandleRepository` as a value: the wrapped store plus one window per active period. */
  function PreloadedView(inner: Repository, symbolId: string, periods: seq<Period>, bars: int, start: int,
                         end: int): (r: Repository)
    requires inner.Faithful()
    ensures r.Faithful()
  {
    var entries := LoadEntries(inner, symbolId, periods, bars, start, end);
    WindowsLoaded(inner, entries);
    Preloaded(inner, WindowsOf(entries))
  }

  /** The window resident for an active period is the one loaded for it. */
  lemma {:induction false} PreloadedWindow(inner: Repository, symbolId: string, periods: seq<Period>, bars: int,
                                           start: int, end: int, p: Period)
    requires p in periods
    ensures var key := SeriesKey(symbolId, p);
            var windows := WindowsOf(LoadEntries(inner, symbolId, periods, bars, start, end));
            key in windows && windows[key] == LoadWindow(inner, key, bars, start, end)
  {
    var n := |periods| - 1;
    var entries := LoadEntries(inner, symbolId, periods, bars, start, end);
    assert entries[..n] == LoadEntries(inner, symbolId, periods[..n], bars, start, end);
    if periods[n] != p {
      assert p in periods[..n];
      PreloadedWindow(inner, symbolId, periods[..n], bars, start, end, p);
    }
  }

  /** Preload depth never changes an answer: two runs preloading different depths read the same candles. */
  lemma PreloadDepthIrrelevant(inner: Repository, symbolId: string, periods: seq<Period>,
                               bars: int, bars': int, start: int, end: int, key: SeriesKey)
    requires inner.Faithful()
    ensures var a := PreloadedView(inner, symbolId, periods, bars, start, end);
            var b := PreloadedView(inner, symbolId, periods, bars', start, end);
            && (forall from, to, limit :: a.Range(key, from, to, limit) == b.Range(key, from, to, limit))
            && (forall n, before :: a.LatestN(key, n, before) == b.LatestN(key, n, before))
  {
    ReadThroughIsTransparent(PreloadedView(inner, symbolId, periods, bars, start, end), key);
    ReadThroughIsTransparent(PreloadedView(inner, symbolId, periods, bars', start, end), key);
  }

  /**
   Which reads reach the wrapped store: a read that does not delegate is answered by the windows alone, whatever is
   wrapped; one that does is the wrapped store's own answer.
   */
  lemma ServedFromMemory(inner: Repository, other: Repository, windows: map<SeriesKey, Resident>, key: SeriesKey,
                         from: int, to: int, limit: Option<int>, n: int, before: Bound)
    ensures var a, b := Preloaded(inner, windows), Preloaded(other, windows);
            && (if a.Delegates(key, RangeRead(from, to))
                then a.Range(key, from, to, limit) == inner.Range(key, from, to, limit)
                else a.Range(key, from, to, limit) == b.Range(key, from, to, limit))
            && (if a.Delegates(key, LatestNRead(n, before))
                then a.LatestN(key, n, before) == inner.LatestN(key, n, before)
                else a.LatestN(key, n, before) == b.LatestN(key, n, before))
  {
  }

  // ---- repositories a reader cannot tell apart ----

  /** Two repositories that answer every read of one series alike. */
  ghost predicate AlikeAt(a: Repository, b: Repository, key: SeriesKey) {
    && (forall from, to, limit :: a.Range(key, from, to, limit) == b.Range(key, from, to, limit))
    && (forall n, before :: a.LatestN(key, n, before) == b.LatestN(key, n, before))
  }

  /** Two repositories that answer every read alike. */
  ghost predicate Alike(a: Repository, b: Repository) {
    forall key :: AlikeAt(a, b, key)
  }

  lemma WholeRange(s: seq<Candle>, from: int, to: int)
    requires forall i :: 0 <= i < |s| ==> from <= s[i].time < to
    ensures StoredRange(s, from, to, None) == s
  {
    FilterIsSlice(s, 0, |s|, (c: Candle) => from <= c.time && Below(c.time, At(to)));
  }

  lemma SameSeriesAlike(a: Repository, b: Repository, key: SeriesKey)
    requires a.Faithful() && b.Faithful() && a.Series(key) == b.Series(key)
    ensures AlikeAt(a, b, key)
  {
    hide Repository.Range, Repository.LatestN, Repository.Series, Repository.Faithful, StoredRange, StoredLatestN;
    ReadThroughIsTransparent(a, key);
    ReadThroughIsTransparent(b, key);
  }

  lemma RangeIsSeries(repo: Repository, key: SeriesKey, lo: int, hi: int)
    requires repo.Faithful() && forall i :: 0 <= i < |repo.Series(key)| ==> lo <= repo.Series(key)[i].time < hi
    ensures repo.Range(key, lo, hi, None) == repo.Series(key)
  {
    hide Repository.Range, Repository.LatestN, Repository.Series, Repository.Faithful, StoredRange, StoredLatestN;
    ReadThroughIsTransparent(repo, key);
    WholeRange(repo.Series(key), lo, hi);
  }

  lemma SpanOfBoth(s: seq<Candle>, t: seq<Candle>) returns (lo: int, hi: int)
    ensures forall i :: 0 <= i < |s| ==> lo <= s[i].time < hi
    ensures forall i :: 0 <= i < |t| ==> lo <= t[i].time < hi
  {
    lo, hi := SpanOf(s + t);
    assert forall i :: 0 <= i < |s| ==> (s + t)[i] == s[i];
    assert forall i :: 0 <= i < |t| ==> (s + t)[|s| + i] == t[i];
  }

  lemma AlikeSeries(a: Repository, b: Repository, key: SeriesKey)
    requires a.Faithful() && b.Faithful() && AlikeAt(a, b, key)
    ensures a.Series(key) == b.Series(key)
  {
    hide Repository.Range, Repository.LatestN, Repository.Series, Repository.Faithful;
    var lo, hi := SpanOfBoth(a.Series(key), b.Series(key));
    RangeIsSeries(a, key, lo, hi);
    RangeIsSeries(b, key, lo, hi);
  }

  /** Repositories that answer alike hold the same series, and repositories over the same series answer alike. */
  lemma AlikeIsSameSeries(a: Repository, b: Repository)
    requires a.Faithful() && b.Faithful()
    ensures Alike(a, b) <==> forall key :: a.Series(key) == b.Series(key)
  {
    hide AlikeAt, StoredRange, StoredLatestN, SortedByTime;
    if Alike(a, b) {
      forall key ensures a.Series(key) == b.Series(key) {
        assert AlikeAt(a, b, key);
        AlikeSeries(a, b, key);
      }
    } else {
      var key :| !AlikeAt(a, b, key);
      if a.Series(key) == b.Series(key) { SameSeriesAlike(a, b, key); }
      assert a.Series(key) != b.Series(key);
    }
  }

  lemma {:induction false} SpanOf(s: seq<Candle>) returns (lo: int, hi: int)
    ensures forall i :: 0 <= i < |s| ==> lo <= s[i].time < hi
  {
    if s == [] {
      lo, hi := 0, 0;
    } else {
      var n := |s| - 1;
      lo, hi := SpanOf(s[..n]);
      lo, hi := Min(lo, s[n].time), Max(hi, s[n].time + 1);
      assert forall i :: 0 <= i < n ==> s[..n][i] == s[i];
    }
  }

  /** Any two preloadings of one store answer every read alike. */
  lemma PreloadingsAlike(inner: Repository, symbolId: string, periods: seq<Period>, bars: int, bars': int, start: int,
                         end: int)
    requires inner.Faithful()
    ensures Alike(PreloadedView(inner, symbolId, periods, bars, start, end),
                  PreloadedView(inner, symbolId, periods, bars', start, end))
    ensures Alike(PreloadedView(inner, symbolId, periods, bars, start, end), inner)
  {
    AlikeIsSameSeries(PreloadedView(inner, symbolId, periods, bars, start, end),
                      PreloadedView(inner, symbolId, periods, bars', start, end));
    AlikeIsSameSeries(PreloadedView(inner, symbolId, periods, bars, start, end), inner);
  }

  /** The read-through layer as an object: the constructor fills the window map entry by entry. */
  class PreloadedCandleRepository {
    const inner: Repository
    var series: map<SeriesKey, Resident>

    function View(): Repository
      reads this
    {
      Preloaded(inner, series)
    }

    constructor (inner: Repository, entries: seq<PreloadedSeriesEntry>)
      ensures this.inner == inner && series == WindowsOf(entries)
    {
      this.inner := inner;
      series := map[];
      new;
      var i := 0;
      while i < |entries|
        invariant 0 <= i <= |entries|
        invariant this.inner == inner && series == WindowsOf(entries[..i])
      {
        assert entries[..i + 1][..i] == entries[..i];
        series := series[entries[i].key := entries[i].window];
        i := i + 1;
      }
      assert entries[..i] == entries;
    }
  }

  /** `preloadCandleRepository`: load one window per active period, then wrap the store with them. */
  method PreloadCandleRepository(inner: Repository, symbolId: string, periods: seq<Period>, bars: int, start: int,
                                 end: int)
    returns (repo: PreloadedCandleRepository)
    requires inner.Faithful()
    ensures fresh(repo) && repo.View() == PreloadedView(inner, symbolId, periods, bars, start, end)
  {
    var entries: seq<PreloadedSeriesEntry> := [];
    ghost var all := LoadEntries(inner, symbolId, periods, bars, start, end);
    for i := 0 to |periods|
      invariant entries == all[..i]
    {
      entries := entries + [LoadEntry(inner, symbolId, periods[i], bars, start, end)];
    }
    assert entries == all;
    repo := new PreloadedCandleRepository(inner, entries);
  }
}
