/** What a consumer sees of a lazily walked series. */
module Series {
  import opened Candles

  /** A consumer of a walk: after each point it decides, from the points seen so far, whether to stop. */
  type Consumer = seq<SeriesPoint> -> bool

  /** The points a consumer pulls out of `rest`, having already pulled `seen`. */
  function Consume(seen: seq<SeriesPoint>, rest: seq<SeriesPoint>, stop: Consumer): seq<SeriesPoint>
    decreases |rest|
  {
    if rest == [] then seen
    else
      var next := seen + [rest[0]];
      if stop(next) then next else Consume(next, rest[1..], stop)
  }

  /** The points a consumer pulls out of a whole walk. */
  function Pulled(walk: seq<SeriesPoint>, stop: Consumer): seq<SeriesPoint> {
    Consume([], walk, stop)
  }

  predicate Stopped(points: seq<SeriesPoint>, stop: Consumer) {
    points != [] && stop(points)
  }

  /** A consumer that never stops. */
  const Everything: Consumer := _ => false

  lemma {:induction false} ConsumeMeaning(seen: seq<SeriesPoint>, rest: seq<SeriesPoint>, stop: Consumer)
    ensures var r := Consume(seen, rest, stop);
            && seen <= r <= seen + rest
            && (forall i :: |seen| < i < |r| ==> !stop(r[..i]))
            && (r == seen + rest || (|seen| < |r| && stop(r)))
    decreases |rest|
  {
    if rest != [] {
      var next := seen + [rest[0]];
      assert next + rest[1..] == seen + rest;
      if !stop(next) {
        ConsumeMeaning(next, rest[1..], stop);
        var r := Consume(next, rest[1..], stop);
        assert r[..|next|] == next;
      }
    }
  }

  /** A consumer sees the shortest nonempty prefix at which it stops, or the whole walk. */
  lemma PulledMeaning(walk: seq<SeriesPoint>, stop: Consumer)
    ensures var r := Pulled(walk, stop);
            && r <= walk
            && (forall i :: 0 < i < |r| ==> !stop(r[..i]))
            && (r == walk || Stopped(r, stop))
  {
    ConsumeMeaning([], walk, stop);
  }

  /** The consumer `asOf` is: it stops at the first point at or before `queryTs`. */
  function UpTo(queryTs: int): Consumer {
    (points: seq<SeriesPoint>) => points != [] && points[|points| - 1].ts <= queryTs
  }

  /** The first point of a newest-first walk with `ts <= queryTs`. */
  function AsOfPoint(walk: seq<SeriesPoint>, queryTs: int): Option<SeriesPoint> {
    if walk == [] then None
    else if walk[0].ts <= queryTs then Some(walk[0])
    else AsOfPoint(walk[1..], queryTs)
  }

  lemma {:induction false} ConsumeAsOf(seen: seq<SeriesPoint>, rest: seq<SeriesPoint>, queryTs: int)
    ensures var r := Consume(seen, rest, UpTo(queryTs));
            AsOfPoint(rest, queryTs) ==
            if |r| > |seen| && r[|r| - 1].ts <= queryTs then Some(r[|r| - 1]) else None
    decreases |rest|
  {
    if rest != [] && rest[0].ts > queryTs {
      ConsumeAsOf(seen + [rest[0]], rest[1..], queryTs);
      ConsumeMeaning(seen + [rest[0]], rest[1..], UpTo(queryTs));
    }
  }

  /** In a strictly newest-first walk the `asOf` answer is the newest point not after the query. */
  lemma {:induction false} AsOfIsNewest(walk: seq<SeriesPoint>, queryTs: int)
    requires forall i, j :: 0 <= i < j < |walk| ==> walk[i].ts > walk[j].ts
    ensures var r := AsOfPoint(walk, queryTs);
            && (r.None? <==> forall p :: p in walk ==> p.ts > queryTs)
            && (r.Some? ==> r.value in walk && r.value.ts <= queryTs &&
                            forall p :: p in walk && p.ts <= queryTs ==> p.ts <= r.value.ts)
  {
    if walk != [] && walk[0].ts > queryTs {
      AsOfIsNewest(walk[1..], queryTs);
      assert walk == [walk[0]] + walk[1..];
    }
  }

  /** Fallback layering: the fallback stands in only when the primary walk is empty. */
  function FallbackWalk(primary: seq<SeriesPoint>, fallback: seq<SeriesPoint>): seq<SeriesPoint> {
    if primary == [] then fallback else primary
  }

  lemma ConsumeNext(seen: seq<SeriesPoint>, walk: seq<SeriesPoint>, i: nat, stop: Consumer)
    requires i < |walk|
    ensures var next := seen + [walk[i]];
            Consume(seen, walk[i..], stop) == if stop(next) then next else Consume(next, walk[i + 1..], stop)
  {
    assert walk[i..][1..] == walk[i + 1..];
  }

  /** Hand `walk` to the consumer point by point, after what it has `seen`. */
  method Yield(seen: seq<SeriesPoint>, walk: seq<SeriesPoint>, stop: Consumer) returns (points: seq<SeriesPoint>)
    ensures points == Consume(seen, walk, stop)
  {
    points := seen;
    var i := 0;
    while i < |walk|
      invariant 0 <= i <= |walk|
      invariant Consume(points, walk[i..], stop) == Consume(seen, walk, stop)
    {
      ConsumeNext(points, walk, i, stop);
      points := points + [walk[i]];
      if stop(points) { return; }
      i := i + 1;
    }
  }

  /**
   `FallbackSeriesView.backwardWalk`: the consumer is handed the primary's points as they come; the fallback is opened,
   and its points handed on, only once a drained primary has yielded none.
   */
  method FallbackBackwardWalk(primary: seq<SeriesPoint>, fallback: seq<SeriesPoint>, stop: Consumer)
    returns (points: seq<SeriesPoint>, consulted: bool)
    ensures points == Pulled(FallbackWalk(primary, fallback), stop)
    ensures consulted <==> primary == []
  {
    points, consulted := [], false;
    var any := false;
    var i := 0;
    while i < |primary|
      invariant 0 <= i <= |primary| && any == (i > 0)
      invariant Consume(points, primary[i..], stop) == Pulled(primary, stop)
    {
      ConsumeNext(points, primary, i, stop);
      any := true;
      points := points + [primary[i]];
      if stop(points) { return; }
      i := i + 1;
    }
    if !any {
      consulted := true;
      points := Yield([], fallback, stop);
    }
  }

  /** `FallbackSeriesView.asOf`: always the first point of the layered walk at or before the query. */
  method FallbackAsOf(primary: seq<SeriesPoint>, fallback: seq<SeriesPoint>, queryTs: int)
    returns (r: Option<SeriesPoint>, consulted: bool)
    ensures r == AsOfPoint(FallbackWalk(primary, fallback), queryTs)
    ensures consulted <==> primary == []
  {
    consulted := false;
    var any := false;
    var i := 0;
    while i < |primary|
      invariant 0 <= i <= |primary| && any == (i > 0)
      invariant AsOfPoint(primary, queryTs) == AsOfPoint(primary[i..], queryTs)
    {
      any := true;
      if primary[i].ts <= queryTs {
        return Some(primary[i]), false;
      }
      i := i + 1;
    }
    if any {
      return None, false;
    }
    consulted := true;
    i := 0;
    while i < |fallback|
      invariant 0 <= i <= |fallback|
      invariant AsOfPoint(fallback, queryTs) == AsOfPoint(fallback[i..], queryTs)
    {
      if fallback[i].ts <= queryTs {
        return Some(fallback[i]), true;
      }
      i := i + 1;
    }
    return None, true;
  }
}
