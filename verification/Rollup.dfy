/** Rolling fine candles up into one coarse bar: the backend's newest-first fold and the UI's oldest-first one. */
module Rollup {
  import opened Candles
  import opened BarSeries

  // ---- extremes and sums ----

  function MaxOf(vs: seq<real>): real
    requires vs != []
  {
    var n := |vs| - 1;
    if n == 0 then vs[0] else RealMax(MaxOf(vs[..n]), vs[n])
  }

  function MinOf(vs: seq<real>): real
    requires vs != []
  {
    var n := |vs| - 1;
    if n == 0 then vs[0] else RealMin(MinOf(vs[..n]), vs[n])
  }

  function SumOf(vs: seq<real>): real {
    if vs == [] then 0.0 else SumOf(vs[..|vs| - 1]) + vs[|vs| - 1]
  }

  lemma {:induction false} MaxOfMeaning(vs: seq<real>)
    requires vs != []
    ensures MaxOf(vs) in vs
    ensures forall v :: v in vs ==> v <= MaxOf(vs)
  {
    var n := |vs| - 1;
    if n > 0 {
      MaxOfMeaning(vs[..n]);
      forall v | v in vs ensures v <= MaxOf(vs) {
        assert v == vs[n] || v in vs[..n];
      }
    }
  }

  lemma {:induction false} MinOfMeaning(vs: seq<real>)
    requires vs != []
    ensures MinOf(vs) in vs
    ensures forall v :: v in vs ==> MinOf(vs) <= v
  {
    var n := |vs| - 1;
    if n > 0 {
      MinOfMeaning(vs[..n]);
      forall v | v in vs ensures MinOf(vs) <= v {
        assert v == vs[n] || v in vs[..n];
      }
    }
  }

  lemma {:induction false} SumOfFront(v: real, vs: seq<real>)
    ensures SumOf([v] + vs) == v + SumOf(vs)
  {
    if vs == [] {
      assert [v] + vs == [v];
    } else {
      SumOfFront(v, vs[..|vs| - 1]);
      assert ([v] + vs)[..|vs|] == [v] + vs[..|vs| - 1];
    }
  }

  /** The values of an axis, in candle order, skipping candles that do not carry it. */
  function AxisValues(candles: seq<Candle>, axis: BarAxis): seq<real> {
    if candles == [] then []
    else
      var n := |candles| - 1;
      var v := ReadAxis(candles[n], axis);
      if v.Some? then AxisValues(candles[..n], axis) + [v.value] else AxisValues(candles[..n], axis)
  }

  /**
   What a coarse bar says about an axis, from its fine values newest first; nothing when no candle carries the axis.
   */
  function RollUp(vs: seq<real>, axis: BarAxis): Option<real> {
    if vs == [] then None
    else match axis
      case OpenAxis => Some(vs[|vs| - 1])
      case CloseAxis => Some(vs[0])
      case HighAxis => Some(MaxOf(vs))
      case LowAxis => Some(MinOf(vs))
      case VolumeAxis => Some(SumOf(vs))
  }

  /** `aggregateAxis`: one pass over the window's candles, newest first. `None` in `acc` is the infinite start value. */
  method AggregateAxis(newestFirst: seq<Candle>, axis: BarAxis) returns (r: Option<real>)
    ensures r == RollUp(AxisValues(newestFirst, axis), axis)
  {
    var any := false;
    var acc: Option<real> := if axis.HighAxis? || axis.LowAxis? then None else Some(0.0);
    var open, close, closeSet := 0.0, 0.0, false;
    var i := 0;
    while i < |newestFirst|
      invariant 0 <= i <= |newestFirst|
      invariant any <==> AxisValues(newestFirst[..i], axis) != []
      invariant closeSet <==> any && axis.CloseAxis?
      invariant any && axis.HighAxis? ==> acc == Some(MaxOf(AxisValues(newestFirst[..i], axis)))
      invariant any && axis.LowAxis? ==> acc == Some(MinOf(AxisValues(newestFirst[..i], axis)))
      invariant !any && (axis.HighAxis? || axis.LowAxis?) ==> acc == None
      invariant axis.VolumeAxis? ==> acc == Some(SumOf(AxisValues(newestFirst[..i], axis)))
      invariant any && axis.CloseAxis? ==> close == AxisValues(newestFirst[..i], axis)[0]
      invariant any && axis.OpenAxis? ==>
                open == AxisValues(newestFirst[..i], axis)[|AxisValues(newestFirst[..i], axis)| - 1]
    {
      assert newestFirst[..i + 1][..i] == newestFirst[..i];
      ghost var vs := AxisValues(newestFirst[..i], axis);
      var v := ReadAxis(newestFirst[i], axis);
      i := i + 1;
      if v.None? {
        continue;
      }
      assert AxisValues(newestFirst[..i], axis) == vs + [v.value];
      assert (vs + [v.value])[..|vs|] == vs;
      any := true;
      match axis {
        case HighAxis => acc := if acc.None? then v else Some(RealMax(acc.value, v.value));
        case LowAxis => acc := if acc.None? then v else Some(RealMin(acc.value, v.value));
        case VolumeAxis => acc := Some(acc.value + v.value);
        case CloseAxis =>
          if !closeSet {
            close, closeSet := v.value, true;
          }
        case OpenAxis => open := v.value;
      }
    }
    assert newestFirst[..i] == newestFirst;
    if !any { return None; }
    if axis.CloseAxis? { return Some(close); }
    if axis.OpenAxis? { return Some(open); }
    return acc;
  }

  // ---- the UI's independent roll-up ----

  /** The open time of the bucket of width `ms` containing `t`: `Math.floor(t / ms) * ms`. */
  function WindowStart(t: int, ms: int): int
    requires ms > 0
  {
    t / ms * ms
  }

  /** A forming bar folded oldest first, in the shape of its first candle's asset class. */
  function FoldBucket(bucket: seq<Candle>, bucketStart: int): Candle
    requires bucket != []
  {
    var first := bucket[0];
    var high, low := MaxOf(AxisValues(bucket, HighAxis)), MinOf(AxisValues(bucket, LowAxis));
    var close := bucket[|bucket| - 1].close;
    match first
    case CryptoCandle(_, _, _, _, _, _, _, _) =>
      CryptoCandle(bucketStart, first.open, high, low, close,
                   SumOf(AxisValues(bucket, VolumeAxis)), QuoteVolume(bucket), Trades(bucket))
    case EquityCandle(fund, _, _, _, _, _, _) =>
      EquityCandle(fund, bucketStart, first.open, high, low, close, SumOf(AxisValues(bucket, VolumeAxis)))
    case FxCandle(_, _, _, _, _) => FxCandle(bucketStart, first.open, high, low, close)
  }

  function QuoteVolume(bucket: seq<Candle>): real {
    if bucket == [] then 0.0
    else
      var n := |bucket| - 1;
      QuoteVolume(bucket[..n]) + (if bucket[n].CryptoCandle? then bucket[n].quoteVolume else 0.0)
  }

  function Trades(bucket: seq<Candle>): int {
    if bucket == [] then 0
    else
      var n := |bucket| - 1;
      Trades(bucket[..n]) + (if bucket[n].CryptoCandle? then bucket[n].trades else 0)
  }

  /** Every candle carries the four price axes. */
  lemma {:induction false} PriceAxisDense(candles: seq<Candle>, axis: BarAxis)
    requires !axis.VolumeAxis?
    ensures |AxisValues(candles, axis)| == |candles|
    ensures forall i :: 0 <= i < |candles| ==> AxisValues(candles, axis)[i] == ReadAxis(candles[i], axis).value
  {
    if candles != [] {
      PriceAxisDense(candles[..|candles| - 1], axis);
    }
  }

  /** `sum` over a volume field, as the accumulating loop the UI runs. */
  method SumVolume(bucket: seq<Candle>) returns (total: real)
    ensures total == SumOf(AxisValues(bucket, VolumeAxis))
  {
    total := 0.0;
    for i := 0 to |bucket|
      invariant total == SumOf(AxisValues(bucket[..i], VolumeAxis))
    {
      assert bucket[..i + 1][..i] == bucket[..i];
      ghost var vs := AxisValues(bucket[..i], VolumeAxis);
      if !bucket[i].FxCandle? {
        assert (vs + [bucket[i].volume])[..|vs|] == vs;
        total := total + bucket[i].volume;
      }
    }
    assert bucket[..|bucket|] == bucket;
  }

  lemma LatestInBucket(candles: seq<Candle>, ms: int)
    requires candles != [] && ms > 0
    ensures LatestBucket(candles, ms) != []
  {
    var latest := candles[|candles| - 1];
    var p := (c: Candle) => c.time >= WindowStart(latest.time, ms);
    FilterConcat(candles[..|candles| - 1], [latest], p);
    assert candles == candles[..|candles| - 1] + [latest];
  }

  /** The candles at or after the latest candle's bucket start. */
  function LatestBucket(candles: seq<Candle>, ms: int): seq<Candle>
    requires candles != [] && ms > 0
  {
    var bucketStart := WindowStart(candles[|candles| - 1].time, ms);
    Filter(candles, (c: Candle) => c.time >= bucketStart)
  }

  /** The UI's forming candle: its loaded candles' latest bucket, folded. */
  function FormingCandle(candles: seq<Candle>, ms: int): (r: Option<Candle>)
    requires ms > 0
    ensures r.None? <==> candles == []
  {
    if candles == [] then None
    else
      LatestInBucket(candles, ms);
      Some(FoldBucket(LatestBucket(candles, ms), WindowStart(candles[|candles| - 1].time, ms)))
  }

  /** `formingBucketCandle`: fold the candles at or after the latest candle's bucket start. */
  method FormingBucketCandle(candles: seq<Candle>, ms: int) returns (r: Option<Candle>)
    requires ms > 0
    ensures r == FormingCandle(candles, ms)
  {
    if candles == [] {
      return None;
    }
    var latest := candles[|candles| - 1];
    var bucketStart := WindowStart(latest.time, ms);
    var bucket := Filter(candles, (c: Candle) => c.time >= bucketStart);
    LatestInBucket(candles, ms);
    PriceAxisDense(bucket, HighAxis);
    PriceAxisDense(bucket, LowAxis);
    var first := bucket[0];
    var high, low := MaxOf(AxisValues(bucket, HighAxis)), MinOf(AxisValues(bucket, LowAxis));
    var close := bucket[|bucket| - 1].close;
    var volume := SumVolume(bucket);
    match first {
      case CryptoCandle(_, _, _, _, _, _, _, _) =>
        r := Some(CryptoCandle(bucketStart, first.open, high, low, close, volume, QuoteVolume(bucket), Trades(bucket)));
      case EquityCandle(fund, _, _, _, _, _, _) =>
        r := Some(EquityCandle(fund, bucketStart, first.open, high, low, close, volume));
      case FxCandle(_, _, _, _, _) =>
        r := Some(FxCandle(bucketStart, first.open, high, low, close));
    }
  }

  lemma AxisOneMore(bucket: seq<Candle>, c: Candle, axis: BarAxis)
    ensures AxisValues(bucket + [c], axis)
         == AxisValues(bucket, axis) + (if ReadAxis(c, axis).Some? then [ReadAxis(c, axis).value] else [])
  {
    hide ReadAxis;
    assert (bucket + [c])[..|bucket|] == bucket;
  }

  lemma OneMoreOf(vs: seq<real>, v: real)
    ensures vs != [] ==> MaxOf(vs + [v]) == RealMax(MaxOf(vs), v) && MinOf(vs + [v]) == RealMin(MinOf(vs), v)
    ensures vs == [] ==> MaxOf(vs + [v]) == MinOf(vs + [v]) == v
    ensures SumOf(vs + [v]) == SumOf(vs) + v
  {
    assert (vs + [v])[..|vs|] == vs;
  }

  lemma TradedOneMore(bucket: seq<Candle>, c: Candle)
    ensures QuoteVolume(bucket + [c]) == QuoteVolume(bucket) + (if c.CryptoCandle? then c.quoteVolume else 0.0)
    ensures Trades(bucket + [c]) == Trades(bucket) + (if c.CryptoCandle? then c.trades else 0)
  {
    assert (bucket + [c])[..|bucket|] == bucket;
  }

  lemma NothingTraded()
    ensures QuoteVolume([]) == 0.0 && Trades([]) == 0 && forall axis :: AxisValues([], axis) == []
  {
  }

  /** A one-candle bucket is that candle at the bucket's start. */
  lemma FoldOne(c: Candle, bucketStart: int)
    ensures FoldBucket([c], bucketStart) == c.(time := bucketStart)
  {
    hide AxisValues, MaxOf, MinOf, SumOf, QuoteVolume, Trades;
    NothingTraded();
    EmptySum();
    TradedOneMore([], c);
    assert [] + [c] == [c];
    OneAxis(c, HighAxis);
    OneAxis(c, LowAxis);
    OneAxis(c, VolumeAxis);
    OneValue(c.high);
    OneValue(c.low);
    OneValue(if c.FxCandle? then 0.0 else c.volume);
  }

  lemma OneAxis(c: Candle, axis: BarAxis)
    ensures AxisValues([c], axis) == if ReadAxis(c, axis).Some? then [ReadAxis(c, axis).value] else []
  {
    hide ReadAxis;
    AxisOneMore([], c, axis);
    assert [] + [c] == [c];
  }

  lemma OneValue(v: real)
    ensures MaxOf([v]) == MinOf([v]) == SumOf([v]) == v
  {
    OneMoreOf([], v);
    EmptySum();
    assert [] + [v] == [v];
  }

  /** The prices of `now` are those of `was` moved on by a newer candle: the close, and the range if it is wider. */
  ghost predicate PricesMove(was: Candle, now: Candle, c: Candle) {
    && now.time == was.time && now.open == was.open && now.close == c.close
    && now.high == (if c.high > was.high then c.high else was.high)
    && now.low == (if c.low < was.low then c.low else was.low)
  }

  /** What `now` traded is what `was` did and the newer candle's volume, quote volume and trades, where it has them. */
  ghost predicate TradesAdd(was: Candle, now: Candle, c: Candle) {
    match was
    case FxCandle(_, _, _, _, _) => now.FxCandle?
    case EquityCandle(fund, _, _, _, _, _, _) =>
      now.EquityCandle? && now.fund == fund && now.volume == was.volume + if c.FxCandle? then 0.0 else c.volume
    case CryptoCandle(_, _, _, _, _, _, _, _) =>
      && now.CryptoCandle? && now.volume == was.volume + (if c.FxCandle? then 0.0 else c.volume)
      && now.quoteVolume == was.quoteVolume + (if c.CryptoCandle? then c.quoteVolume else 0.0)
      && now.trades == was.trades + if c.CryptoCandle? then c.trades else 0
  }

  /** A newer candle moves a bucket's prices and adds what it traded; start, open and shape stay. */
  lemma FoldNewer(bucket: seq<Candle>, c: Candle, bucketStart: int)
    requires bucket != []
    ensures FoldBucket(bucket, bucketStart).time == bucketStart
    ensures PricesMove(FoldBucket(bucket, bucketStart), FoldBucket(bucket + [c], bucketStart), c)
    ensures TradesAdd(FoldBucket(bucket, bucketStart), FoldBucket(bucket + [c], bucketStart), c)
  {
    hide AxisValues, MaxOf, MinOf, SumOf, QuoteVolume, Trades;
    TradedOneMore(bucket, c);
    AxisOneMore(bucket, c, HighAxis);
    AxisOneMore(bucket, c, LowAxis);
    AxisOneMore(bucket, c, VolumeAxis);
    PriceAxisDense(bucket, HighAxis);
    PriceAxisDense(bucket, LowAxis);
    OneMoreOf(AxisValues(bucket, HighAxis), c.high);
    OneMoreOf(AxisValues(bucket, LowAxis), c.low);
    OneMoreOf(AxisValues(bucket, VolumeAxis), if c.FxCandle? then 0.0 else c.volume);
    assert AxisValues(bucket, VolumeAxis) + [] == AxisValues(bucket, VolumeAxis);
  }

  // ---- the two roll-ups agree ----

  lemma {:induction false} AxisValuesFront(c: Candle, rest: seq<Candle>, axis: BarAxis)
    ensures AxisValues([c] + rest, axis)
         == (if ReadAxis(c, axis).Some? then [ReadAxis(c, axis).value] else []) + AxisValues(rest, axis)
  {
    hide ReadAxis;
    if rest == [] {
      assert [c] + rest == [c];
    } else {
      AxisValuesFront(c, rest[..|rest| - 1], axis);
      var all := [c] + rest;
      assert all[..|rest|] == [c] + rest[..|rest| - 1];
      assert all[|rest|] == rest[|rest| - 1];
    }
  }

  lemma {:induction false} AxisValuesReverse(b: seq<Candle>, axis: BarAxis)
    ensures AxisValues(Reverse(b), axis) == Reverse(AxisValues(b, axis))
  {
    hide ReadAxis;
    if b != [] {
      var n := |b| - 1;
      AxisValuesReverse(b[..n], axis);
      assert Reverse(b) == [b[n]] + Reverse(b[..n]);
      AxisValuesFront(b[n], Reverse(b[..n]), axis);
      assert AxisValues(Reverse(b), axis) == Reverse(AxisValues(b, axis));
    }
  }

  lemma {:induction false} SumOfReverse(vs: seq<real>)
    ensures SumOf(Reverse(vs)) == SumOf(vs)
  {
    if vs != [] {
      var n := |vs| - 1;
      SumOfReverse(vs[..n]);
      assert Reverse(vs) == [vs[n]] + Reverse(vs[..n]);
      SumOfFront(vs[n], Reverse(vs[..n]));
    }
  }

  lemma ExtremesOfReverse(vs: seq<real>)
    requires vs != []
    ensures MaxOf(Reverse(vs)) == MaxOf(vs) && MinOf(Reverse(vs)) == MinOf(vs)
  {
    hide MaxOf, MinOf;
    var r := Reverse(vs);
    forall v ensures v in vs <==> v in r {
      if v in vs { var i :| 0 <= i < |vs| && vs[i] == v; assert r[|vs| - 1 - i] == v; }
    }
    MaxOfMeaning(vs);
    MaxOfMeaning(r);
    MinOfMeaning(vs);
    MinOfMeaning(r);
  }

  /**
   The newest-first and the oldest-first roll-up of one bucket agree on every price axis;
   on volume they agree exactly when the first candle carries volume or no candle does.
   */
  lemma RollUpsAgree(bucket: seq<Candle>, bucketStart: int, axis: BarAxis)
    requires bucket != []
    ensures var backend := RollUp(AxisValues(Reverse(bucket), axis), axis);
            var ui := ReadAxis(FoldBucket(bucket, bucketStart), axis);
            if axis.VolumeAxis?
            then backend == ui <==> (!bucket[0].FxCandle? || forall c :: c in bucket ==> c.FxCandle?)
            else backend == ui
  {
    AxisValuesReverse(bucket, axis);
    var vs := AxisValues(bucket, axis);
    if axis.VolumeAxis? {
      VolumesMissing(bucket);
      if vs != [] { SumOfReverse(vs); }
      if !bucket[0].FxCandle? { assert bucket[0] in bucket; }
    } else {
      PriceAxisDense(bucket, axis);
      ExtremesOfReverse(vs);
    }
  }

  lemma {:induction false} VolumesMissing(bucket: seq<Candle>)
    ensures AxisValues(bucket, VolumeAxis) == [] <==> forall c :: c in bucket ==> c.FxCandle?
  {
    if bucket != [] {
      var n := |bucket| - 1;
      VolumesMissing(bucket[..n]);
      assert bucket == bucket[..n] + [bucket[n]];
    }
  }

  /** The newest candle below the cap lies in the cap's bucket, or no candle below the cap does. */
  lemma SameBucket(s: seq<Candle>, before: int, ms: int)
    requires Ascending(s) && ms > 0
    ensures var candles, start := Earlier(s, At(before)), WindowStart(before - 1, ms);
            if candles != [] && WindowStart(candles[|candles| - 1].time, ms) == start
            then LatestBucket(candles, ms) == Between(s, start, At(before))
            else Between(s, start, At(before)) == []
  {
    hide WindowStart;
    var start := WindowStart(before - 1, ms);
    EarlierIsPrefix(s, At(before));
    BetweenIsSlice(s, start, At(before));
    BelowIsPrefix(s, At(start));
    BelowIsPrefix(s, At(before));
    var lo, k := CountBelow(s, At(start)), CountBelow(s, At(before));
    if k > 0 {
      InWindow(s[k - 1].time, before - 1, ms);
      if WindowStart(s[k - 1].time, ms) == start {
        FilterIsSlice(s[..k], lo, k, (c: Candle) => c.time >= start);
        assert s[..k][lo..k] == s[lo..k];
      }
    }
  }

  lemma InWindow(t: int, u: int, ms: int)
    requires ms > 0 && t <= u
    ensures WindowStart(t, ms) == WindowStart(u, ms) <==> WindowStart(u, ms) <= t
  {
    var q := u / ms;
    assert u == q * ms + u % ms && t == t / ms * ms + t % ms;
    if q * ms <= t {
      ProductOrder(q + 1, q + 1, ms);
      DivisionIs(t, q, ms);
    }
  }

  lemma {:induction false} ExtremesOfFront(v: real, vs: seq<real>)
    requires vs != []
    ensures MaxOf([v] + vs) == RealMax(MaxOf(vs), v)
    ensures MinOf([v] + vs) == RealMin(MinOf(vs), v)
  {
    var n := |vs| - 1;
    var all := [v] + vs;
    assert all[..n + 1] == [v] + vs[..n];
    if n > 0 { ExtremesOfFront(v, vs[..n]); }
  }

  /** How a roll-up of an axis moves when one newer fine candle arrives. */
  ghost predicate Moves(was: Option<real>, now: Option<real>, c: Candle, axis: BarAxis) {
    match axis
    case OpenAxis => was.Some? && now == was
    case CloseAxis => now == Some(c.close)
    case HighAxis => was.Some? && now == Some(RealMax(was.value, c.high))
    case LowAxis => was.Some? && now == Some(RealMin(was.value, c.low))
    case VolumeAxis =>
      if c.FxCandle? then now == was else now == Some((if was.Some? then was.value else 0.0) + c.volume)
  }

  /** One newer fine candle keeps the open, moves the close to it, and only widens the range and adds its volume. */
  lemma NewerCandle(window: seq<Candle>, c: Candle, axis: BarAxis)
    requires window != []
    ensures Moves(RollUp(AxisValues(window, axis), axis), RollUp(AxisValues([c] + window, axis), axis), c, axis)
  {
    hide AxisValues, MaxOf, MinOf, SumOf;
    AxisValuesFront(c, window, axis);
    var vs := AxisValues(window, axis);
    if axis.VolumeAxis? {
      if c.FxCandle? {
        assert [] + vs == vs;
      } else {
        SumOfFront(c.volume, vs);
        EmptySum();
      }
    } else {
      PriceAxisDense(window, axis);
      ExtremesOfFront(ReadAxis(c, axis).value, vs);
    }
  }

  lemma EmptySum()
    ensures SumOf([]) == 0.0
  {
  }
}
