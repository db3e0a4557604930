/** The in-memory candle store: the reference every view is specified against. */
module CandleStore {
  import opened Candles

  datatype SeriesKey = SeriesKey(symbolId: string, period: Period)

  /** One bucket: open time to candle. */
  type Bucket = map<int, Candle>

  ghost predicate Keyed(m: Bucket) {
    forall t :: t in m ==> m[t].time == t
  }

  lemma {:induction false} HasEarliest(times: set<int>)
    requires times != {}
    ensures exists t :: t in times && forall u :: u in times ==> t <= u
  {
    if forall t :: t !in times { assert false; }
    var t :| t in times;
    if times != {t} {
      HasEarliest(times - {t});
      var r :| r in times - {t} && forall u :: u in times - {t} ==> r <= u;
      var least := if t < r then t else r;
      forall u | u in times ensures least <= u {
        assert u == t || u in times - {t};
      }
    }
  }

  function Earliest(m: Bucket): (t: int)
    requires m != map[]
    ensures t in m && forall u :: u in m ==> t <= u
  {
    HasEarliest(m.Keys);
    var t :| t in m.Keys && forall u :: u in m.Keys ==> t <= u;
    t
  }

  function Without(m: Bucket, t: int): (r: Bucket)
    requires t in m
    ensures r.Keys == m.Keys - {t} && |r| == |m| - 1
    ensures forall u :: u in r ==> r[u] == m[u]
  {
    assert (m - {t}).Keys == m.Keys - {t};
    m - {t}
  }

  /** `[...byTime.values()].sort((a, b) => a.time - b.time)`. */
  function SortedByTime(m: Bucket): seq<Candle>
    decreases |m|
  {
    if m == map[] then [] else [m[Earliest(m)]] + SortedByTime(Without(m, Earliest(m)))
  }

  lemma {:induction false} SortedHolds(m: Bucket, c: Candle)
    requires Keyed(m)
    ensures c in SortedByTime(m) <==> c.time in m && m[c.time] == c
    decreases |m|
  {
    if m != map[] {
      SortedHolds(Without(m, Earliest(m)), c);
    }
  }

  lemma {:induction false} SortedAscends(m: Bucket)
    requires Keyed(m)
    ensures Ascending(SortedByTime(m))
    decreases |m|
  {
    if m != map[] {
      var t, rest := Earliest(m), Without(m, Earliest(m));
      SortedAscends(rest);
      var tail := SortedByTime(rest);
      forall i | 0 <= i < |tail| ensures t < tail[i].time {
        SortedHolds(rest, tail[i]);
      }
    }
  }

  /** Sorting a bucket gives the one ascending series holding exactly its candles. */
  lemma SortedByTimeCorrect(m: Bucket)
    requires Keyed(m)
    ensures Ascending(SortedByTime(m))
    ensures forall c :: c in SortedByTime(m) <==> c.time in m && m[c.time] == c
  {
    SortedAscends(m);
    forall c ensures c in SortedByTime(m) <==> c.time in m && m[c.time] == c {
      SortedHolds(m, c);
    }
  }

  /** Upsert `candles` in order: a later candle replaces an earlier one at the same time. */
  function SaveAll(m: Bucket, candles: seq<Candle>): (r: Bucket)
    ensures Keyed(m) ==> Keyed(r)
  {
    if candles == [] then m
    else SaveAll(m, candles[..|candles| - 1])[candles[|candles| - 1].time := candles[|candles| - 1]]
  }

  /** What an upsert leaves behind: the last saved candle at each time, otherwise what was stored. */
  lemma {:induction false} SaveAllMeaning(m: Bucket, candles: seq<Candle>, t: int)
    ensures (exists i :: 0 <= i < |candles| && candles[i].time == t) ==>
              t in SaveAll(m, candles) &&
              exists i :: 0 <= i < |candles| && candles[i].time == t && SaveAll(m, candles)[t] == candles[i] &&
                          forall j :: i < j < |candles| ==> candles[j].time != t
    ensures (forall i :: 0 <= i < |candles| ==> candles[i].time != t) ==>
              (t in SaveAll(m, candles) <==> t in m) && (t in m ==> SaveAll(m, candles)[t] == m[t])
  {
    if candles != [] {
      var n := |candles| - 1;
      SaveAllMeaning(m, candles[..n], t);
      if candles[n].time != t {
        if i :| 0 <= i < |candles| && candles[i].time == t {
          assert candles[..n][i].time == t;
          var k :| 0 <= k < n && candles[..n][k].time == t && SaveAll(m, candles[..n])[t] == candles[..n][k] &&
            forall j :: k < j < n ==> candles[..n][j].time != t;
          assert forall j :: k < j < |candles| ==> candles[j].time != t by {
            forall j | k < j < n ensures candles[j].time != t { assert candles[..n][j].time != t; }
          }
          assert candles[k].time == t;
        }
      }
    }
  }

  lemma {:induction false} SaveAllConcat(m: Bucket, a: seq<Candle>, b: seq<Candle>)
    ensures SaveAll(m, a + b) == SaveAll(SaveAll(m, a), b)
  {
    if b == [] {
      assert a + b == a;
    } else {
      SaveAllConcat(m, a, b[..|b| - 1]);
      assert (a + b)[..|a + b| - 1] == a + b[..|b| - 1];
    }
  }

  /** Upserting an ascending batch: the batch's own candles, and the old ones at every other time. */
  lemma SaveAscending(m: Bucket, candles: seq<Candle>)
    requires Keyed(m) && Ascending(candles)
    ensures forall c :: c in candles ==> c.time in SaveAll(m, candles) && SaveAll(m, candles)[c.time] == c
    ensures forall t :: (forall c :: c in candles ==> c.time != t) ==>
              (t in SaveAll(m, candles) <==> t in m) && (t in m ==> SaveAll(m, candles)[t] == m[t])
  {
    forall c | c in candles
      ensures c.time in SaveAll(m, candles) && SaveAll(m, candles)[c.time] == c
    {
      SaveAllMeaning(m, candles, c.time);
      var k :| 0 <= k < |candles| && candles[k] == c;
      var i :| 0 <= i < |candles| && candles[i].time == c.time && SaveAll(m, candles)[c.time] == candles[i];
    }
    forall t | forall c :: c in candles ==> c.time != t
      ensures (t in SaveAll(m, candles) <==> t in m) && (t in m ==> SaveAll(m, candles)[t] == m[t])
    {
      SaveAllMeaning(m, candles, t);
      assert forall i :: 0 <= i < |candles| ==> candles[i] in candles;
    }
  }

  /** `range` over a stored series: ascending candles of `[from, to)`, at most `limit` of them. */
  function StoredRange(s: seq<Candle>, from: int, to: int, limit: Option<int>): seq<Candle> {
    if limit.Some? && limit.value <= 0 then []
    else
      var matched := Between(s, from, At(to));
      if limit.None? then matched else matched[..Min(limit.value, |matched|)]
  }

  /** `latestN` over a stored series: the newest `n` candles below `before`, newest first. */
  function StoredLatestN(s: seq<Candle>, n: int, before: Bound): seq<Candle> {
    if n <= 0 then [] else Reverse(LastN(Earlier(s, before), n))
  }

  lemma LastOfPrefix<T>(s: seq<T>, k: nat, n: int)
    requires k <= |s| && n > 0
    ensures LastN(s[..k], n) == s[Max(0, k - n)..k]
  {
  }

  /** A slice long enough, or starting at the start, has the same newest `n` elements as the whole prefix. */
  lemma LastOfSlice<T>(s: seq<T>, lo: nat, k: nat, n: int)
    requires lo <= k <= |s| && n > 0
    requires k - lo >= n || lo == 0
    ensures LastN(s[lo..k], n) == LastN(s[..k], n)
  {
    if k - lo >= n {
      assert s[lo..k][k - lo - n..] == s[k - n..k];
      assert s[..k][k - n..] == s[k - n..k];
    }
  }

  /** A `latestN` answer is the slice of the series ending at the bound, reversed. */
  lemma LatestNIsSlice(s: seq<Candle>, n: int, before: Bound)
    requires Ascending(s) && n > 0
    ensures StoredLatestN(s, n, before)
         == Reverse(s[Max(0, CountBelow(s, before) - n)..CountBelow(s, before)])
  {
    hide CountBelow, Ascending, LastN, Earlier, Reverse;
    EarlierIsPrefix(s, before);
    LastOfPrefix(s, CountBelow(s, before), n);
  }

  /** A `latestN` page holds `n` candles, or all there are below the bound. */
  lemma LatestNPage(s: seq<Candle>, n: int, before: Bound)
    requires Ascending(s) && n > 0
    ensures var k, page := CountBelow(s, before), StoredLatestN(s, n, before);
            && |page| == (if k < n then k else n)
            && page == Reverse(s[k - |page|..k])
  {
    hide StoredLatestN, CountBelow, Ascending;
    LatestNIsSlice(s, n, before);
  }

  /** `latest`: the last candle in time order, if any. */
  function LatestOf(m: Bucket): Option<Candle> {
    var sorted := SortedByTime(m);
    if sorted == [] then None else Some(sorted[|sorted| - 1])
  }

  /** The latest candle is stored, and no stored candle opens after it. */
  lemma LatestIsNewest(m: Bucket)
    requires Keyed(m)
    ensures LatestOf(m).None? <==> m == map[]
    ensures LatestOf(m).Some? ==>
              var c := LatestOf(m).value;
              c.time in m && m[c.time] == c && forall t :: t in m ==> t <= c.time
  {
    SortedByTimeCorrect(m);
    var sorted := SortedByTime(m);
    assert sorted != [] ==> sorted[|sorted| - 1] in sorted;
    forall t | t in m ensures sorted != [] && t <= sorted[|sorted| - 1].time {
      assert m[t] in sorted;
    }
  }

  class InMemoryCandleRepository {
    var series: map<SeriesKey, Bucket>

    ghost predicate Valid()
      reads this
    {
      forall k :: k in series ==> Keyed(series[k])
    }

    function BucketOf(key: SeriesKey): Bucket
      reads this
    {
      if key in series then series[key] else map[]
    }

    constructor ()
      ensures Valid() && series == map[]
    {
      series := map[];
    }

    /** Upsert a batch: exactly the bucket of `key` changes, and to `SaveAll` of what it held. */
    method Save(key: SeriesKey, candles: seq<Candle>)
      requires Valid()
      modifies this
      ensures Valid()
      ensures series == old(series)[key := SaveAll(old(BucketOf(key)), candles)]
    {
      var byTime := BucketOf(key);
      var i := 0;
      while i < |candles|
        invariant 0 <= i <= |candles|
        invariant byTime == SaveAll(BucketOf(key), candles[..i])
      {
        assert candles[..i + 1][..i] == candles[..i];
        byTime := byTime[candles[i].time := candles[i]];
        i := i + 1;
      }
      assert candles[..i] == candles;
      series := series[key := byTime];
    }

    method Latest(key: SeriesKey) returns (r: Option<Candle>)
      ensures r == LatestOf(BucketOf(key))
    {
      r := LatestOf(BucketOf(key));
    }
  }
}
