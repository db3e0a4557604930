/** Periods, candles, and the slice arithmetic every candle view rests on. */
module Candles {

  datatype Option<+T> = None | Some(value: T)

  datatype Period =
    | OneMinute
    | FiveMinutes
    | FifteenMinutes
    | ThirtyMinutes
    | OneHour
    | FourHours
    | OneDay
    | OneWeek

  /** The fixed duration of a period in milliseconds. */
  function PeriodMillis(p: Period): (ms: int)
    ensures ms > 0
  {
    match p
    case OneMinute => 60_000
    case FiveMinutes => 300_000
    case FifteenMinutes => 900_000
    case ThirtyMinutes => 1_800_000
    case OneHour => 3_600_000
    case FourHours => 14_400_000
    case OneDay => 86_400_000
    case OneWeek => 604_800_000
  }

  /**
   The periods in each other's terms: a minute is 60 seconds of 1000 milliseconds, an hour 60 minutes, a week 7 days.
   */
  lemma PeriodUnits()
    ensures PeriodMillis(OneMinute) == 60 * 1000
    ensures PeriodMillis(FiveMinutes) == 5 * PeriodMillis(OneMinute)
    ensures PeriodMillis(FifteenMinutes) == 3 * PeriodMillis(FiveMinutes)
    ensures PeriodMillis(ThirtyMinutes) == 2 * PeriodMillis(FifteenMinutes)
    ensures PeriodMillis(OneHour) == 60 * PeriodMillis(OneMinute) == 2 * PeriodMillis(ThirtyMinutes)
    ensures PeriodMillis(FourHours) == 4 * PeriodMillis(OneHour)
    ensures PeriodMillis(OneDay) == 24 * PeriodMillis(OneHour)
    ensures PeriodMillis(OneWeek) == 7 * PeriodMillis(OneDay)
  {
  }

  datatype SymbolType = Crypto | Stock | Fund | Fx

  /** The three candle shapes; only the first two carry a volume. */
  datatype Candle =
    | CryptoCandle(time: int, open: real, high: real, low: real, close: real,
                   volume: real, quoteVolume: real, trades: int)
    | EquityCandle(fund: bool, time: int, open: real, high: real, low: real, close: real, volume: real)
    | FxCandle(time: int, open: real, high: real, low: real, close: real)

  datatype StateValue = StringValue(s: string) | NumberValue(n: real) | BoolValue(b: bool)

  /** One observation of a series. */
  datatype SeriesPoint = SeriesPoint(ts: int, value: StateValue)

  /** An exclusive upper bound on a candle's time; `Unbounded` is JavaScript's positive infinity. */
  datatype Bound = At(t: int) | Unbounded

  predicate Below(time: int, before: Bound) {
    before.Unbounded? || time < before.t
  }

  /** A stored series: strictly ascending open times, so no time occurs twice. */
  ghost predicate Ascending(s: seq<Candle>) {
    forall i, j :: 0 <= i < j < |s| ==> s[i].time < s[j].time
  }

  function Filter<T>(s: seq<T>, p: T -> bool): seq<T> {
    if s == [] then [] else if p(s[0]) then [s[0]] + Filter(s[1..], p) else Filter(s[1..], p)
  }

  /** The candles with `from <= time < before`, in order: the filter both stores apply. */
  function Between(s: seq<Candle>, from: int, before: Bound): seq<Candle> {
    Filter(s, (c: Candle) => from <= c.time && Below(c.time, before))
  }

  /** The candles with `time < before`, in order. */
  function Earlier(s: seq<Candle>, before: Bound): seq<Candle> {
    Filter(s, (c: Candle) => Below(c.time, before))
  }

  /** How many candles open strictly below `t`. */
  function CountBelow(s: seq<Candle>, before: Bound): (k: nat)
    ensures k <= |s|
  {
    if s == [] then 0 else (if Below(s[0].time, before) then 1 else 0) + CountBelow(s[1..], before)
  }

  function Min(a: int, b: int): int { if a < b then a else b }
  function Max(a: int, b: int): int { if a > b then a else b }
  function RealMin(a: real, b: real): real { if a < b then a else b }
  function RealMax(a: real, b: real): real { if a > b then a else b }

  function Reverse<T>(s: seq<T>): (r: seq<T>)
    ensures |r| == |s|
    ensures forall i :: 0 <= i < |s| ==> r[i] == s[|s| - 1 - i]
  {
    seq(|s|, i requires 0 <= i < |s| => s[|s| - 1 - i])
  }

  /** The last `n` elements (all of them when there are fewer): `slice(-n)` for `n > 0`. */
  function LastN<T>(s: seq<T>, n: int): seq<T>
    requires n > 0
  {
    if |s| <= n then s else s[|s| - n..]
  }

  // ---- division ----

  lemma ProductOrder(a: int, b: int, n: int)
    requires a <= b && n >= 0
    ensures a * n <= b * n
    ensures (a - 1) * n == a * n - n
  {
  }

  lemma DivisionIs(m: int, q: int, n: int)
    requires n > 0 && q * n <= m < (q + 1) * n
    ensures m / n == q
  {
    var d := m / n;
    assert d * n <= m < d * n + n;
    if d < q { ProductOrder(d + 1, q, n); }
    if d > q { ProductOrder(q + 1, d, n); }
  }

  // ---- filters ----

  lemma {:induction false} FilterConcat<T>(a: seq<T>, b: seq<T>, p: T -> bool)
    ensures Filter(a + b, p) == Filter(a, p) + Filter(b, p)
  {
    if a == [] {
      assert a + b == b;
    } else {
      FilterConcat(a[1..], b, p);
      var s := a + b;
      assert s[0] == a[0] && s[1..] == a[1..] + b;
      if p(a[0]) {
        assert Filter(s, p) == [a[0]] + (Filter(a[1..], p) + Filter(b, p));
      }
    }
  }

  lemma {:induction false} FilterNone<T>(s: seq<T>, p: T -> bool)
    requires forall i :: 0 <= i < |s| ==> !p(s[i])
    ensures Filter(s, p) == []
  {
    if s != [] { FilterNone(s[1..], p); }
  }

  lemma SliceOfSlice<T>(s: seq<T>, lo: nat, hi: nat, a: nat, b: nat)
    requires lo <= a <= b <= hi <= |s|
    ensures s[lo..hi][a - lo..b - lo] == s[a..b]
  {
    var l, r := s[lo..hi][a - lo..b - lo], s[a..b];
    assert |l| == |r| && forall i :: 0 <= i < |r| ==> l[i] == r[i];
  }

  lemma HeadOfSlice<T>(s: seq<T>, hi: nat)
    requires 0 < hi <= |s|
    ensures s[0..hi] == [s[0]] + s[1..][0..hi - 1]
  {
    var l, r := s[0..hi], [s[0]] + s[1..][0..hi - 1];
    assert |l| == |r| && forall i :: 0 <= i < |r| ==> l[i] == r[i];
  }

  /** A filter satisfied exactly on `[lo, hi)` keeps exactly that slice. */
  lemma {:induction false} FilterIsSlice<T>(s: seq<T>, lo: nat, hi: nat, p: T -> bool)
    requires lo <= hi <= |s|
    requires forall i :: 0 <= i < |s| ==> (p(s[i]) <==> lo <= i < hi)
    ensures Filter(s, p) == s[lo..hi]
  {
    if hi == 0 {
      FilterNone(s, p);
    } else if lo == 0 {
      FilterIsSlice(s[1..], 0, hi - 1, p);
      HeadOfSlice(s, hi);
    } else {
      FilterIsSlice(s[1..], lo - 1, hi - 1, p);
      SliceOfSlice(s, 1, |s|, lo, hi);
      assert s[1..|s|] == s[1..];
    }
  }

  // ---- slices of an ascending series ----

  lemma {:induction false} CountIsPrefix(s: seq<Candle>, before: Bound, c: nat)
    requires c <= |s|
    requires forall i :: 0 <= i < |s| ==> (Below(s[i].time, before) <==> i < c)
    ensures CountBelow(s, before) == c
  {
    if s != [] { CountIsPrefix(s[1..], before, if c == 0 then 0 else c - 1); }
  }

  lemma PrefixExists(s: seq<Candle>, before: Bound) returns (c: nat)
    requires Ascending(s)
    ensures c <= |s|
    ensures forall i :: 0 <= i < |s| ==> (Below(s[i].time, before) <==> i < c)
  {
    c := 0;
    while c < |s| && Below(s[c].time, before)
      invariant c <= |s|
      invariant forall i :: 0 <= i < c ==> Below(s[i].time, before)
    {
      c := c + 1;
    }
    forall i | c < i < |s| ensures !Below(s[i].time, before) {
      assert s[c].time < s[i].time;
    }
  }

  /** In an ascending series the candles below a bound are exactly a prefix. */
  lemma BelowIsPrefix(s: seq<Candle>, before: Bound)
    requires Ascending(s)
    ensures forall i :: 0 <= i < |s| ==> (Below(s[i].time, before) <==> i < CountBelow(s, before))
  {
    var c := PrefixExists(s, before);
    CountIsPrefix(s, before, c);
  }

  lemma EarlierIsPrefix(s: seq<Candle>, before: Bound)
    requires Ascending(s)
    ensures Earlier(s, before) == s[..CountBelow(s, before)]
  {
    BelowIsPrefix(s, before);
    FilterIsSlice(s, 0, CountBelow(s, before), (c: Candle) => Below(c.time, before));
  }

  /** Filtering an ascending series by `[from, before)` is a slice. */
  lemma BetweenIsSlice(s: seq<Candle>, from: int, before: Bound)
    requires Ascending(s)
    ensures var lo, hi := CountBelow(s, At(from)), CountBelow(s, before);
            Between(s, from, before) == if lo <= hi then s[lo..hi] else []
  {
    BelowIsPrefix(s, before);
    BelowIsPrefix(s, At(from));
    var lo, hi := CountBelow(s, At(from)), CountBelow(s, before);
    FilterIsSlice(s, lo, Max(lo, hi), (c: Candle) => from <= c.time && Below(c.time, before));
  }

  lemma CountBelowMonotone(s: seq<Candle>, a: int, b: int)
    requires a <= b
    ensures CountBelow(s, At(a)) <= CountBelow(s, At(b))
  {
  }

  /** The candle at index `k` has exactly `k` candles below its own open time. */
  lemma CountBelowAt(s: seq<Candle>, k: nat)
    requires Ascending(s) && k < |s|
    ensures CountBelow(s, At(s[k].time)) == k
    ensures CountBelow(s, At(s[k].time + 1)) == k + 1
  {
    CountIsPrefix(s, At(s[k].time), k);
    CountIsPrefix(s, At(s[k].time + 1), k + 1);
  }

  lemma AscendingSlice(s: seq<Candle>, lo: nat, hi: nat)
    requires Ascending(s) && lo <= hi <= |s|
    ensures Ascending(s[lo..hi])
  {
  }

  /** Counting below a bound within a slice: the global count clamped to the slice. */
  lemma CountBelowSlice(s: seq<Candle>, lo: nat, hi: nat, b: Bound)
    requires Ascending(s) && lo <= hi <= |s|
    ensures CountBelow(s[lo..hi], b) == Max(lo, Min(hi, CountBelow(s, b))) - lo
  {
    BelowIsPrefix(s, b);
    CountIsPrefix(s[lo..hi], b, Max(lo, Min(hi, CountBelow(s, b))) - lo);
  }

  /** Filtering a slice that covers the whole answer gives the whole answer. */
  lemma BetweenOfSlice(s: seq<Candle>, lo: nat, hi: nat, from: int, b: Bound)
    requires Ascending(s) && lo <= hi <= |s|
    requires lo <= CountBelow(s, At(from)) && CountBelow(s, b) <= hi
    ensures Between(s[lo..hi], from, b) == Between(s, from, b)
  {
    var p := (c: Candle) => from <= c.time && Below(c.time, b);
    BelowIsPrefix(s, b);
    BelowIsPrefix(s, At(from));
    assert s == (s[..lo] + s[lo..hi]) + s[hi..];
    FilterConcat(s[..lo] + s[lo..hi], s[hi..], p);
    FilterConcat(s[..lo], s[lo..hi], p);
    FilterNone(s[..lo], p);
    FilterNone(s[hi..], p);
  }

  /** Two ascending series with the same candles are the same series. */
  lemma {:induction false} AscendingUnique(a: seq<Candle>, b: seq<Candle>)
    requires Ascending(a) && Ascending(b)
    requires forall c :: c in a <==> c in b
    ensures a == b
  {
    assert a != [] ==> a[0] in b;
    assert b != [] ==> b[0] in a;
    if a != [] {
      assert a[0] == b[0];
      forall c ensures c in a[1..] <==> c in b[1..] {
        if c in a[1..] {
          assert c in a && c.time > a[0].time;
          assert c in b && c != b[0];
        }
        if c in b[1..] {
          assert c in b && c.time > b[0].time;
          assert c in a && c != a[0];
        }
      }
      AscendingUnique(a[1..], b[1..]);
      assert a == [a[0]] + a[1..] && b == [b[0]] + b[1..];
    }
  }
}
