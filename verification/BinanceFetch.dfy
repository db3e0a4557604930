/**
 The windowed Binance fetch: a span is split into windows of one provider page each, up to eight are in flight
 at once and land in any order, and what landed is sorted at the end.
 */
module BinanceFetch {
  import opened Candles

  const KLINES_LIMIT := 1000
  const CONCURRENCY := 8

  /** The provider's history of one series: ascending bars at least one period apart. */
  ghost predicate Spaced(s: seq<Candle>, span: int) {
    forall i, j :: 0 <= i < j < |s| ==> s[i].time + span <= s[j].time
  }

  /** `klines`: the first `limit` bars with `startTime <= open time <= endTime`. */
  function Klines(history: seq<Candle>, startTime: int, endTime: int, limit: nat): seq<Candle> {
    var rows := Between(history, startTime, At(endTime + 1));
    rows[..Min(limit, |rows|)]
  }

  /** The rows of one window that lie in the requested span. */
  function Kept(history: seq<Candle>, start: int, span: int, earliest: int, end: int): seq<Candle> {
    Between(Klines(history, start, start + KLINES_LIMIT * span - 1, KLINES_LIMIT), earliest, At(end))
  }

  function InsertByTime(c: Candle, s: seq<Candle>): seq<Candle> {
    if s != [] && s[0].time < c.time then [s[0]] + InsertByTime(c, s[1..]) else [c] + s
  }

  /** A stable sort by open time. */
  function SortByTime(s: seq<Candle>): seq<Candle> {
    if s == [] then [] else InsertByTime(s[0], SortByTime(s[1..]))
  }

  /** `Math.max(1, Math.ceil((end - earliest) / span))`. */
  function TotalBars(earliest: int, end: int, span: int): nat
    requires span > 0
  {
    Max(1, (end - earliest + span - 1) / span)
  }

  // ---- window starts ----

  /** The starts tile `[earliest, end)`: each window begins where the one before it ends. */
  ghost predicate Tiles(starts: seq<int>, earliest: int, end: int, width: int) {
    && starts != [] && starts[0] == earliest
    && (forall i :: 0 < i < |starts| ==> starts[i] == starts[i - 1] + width)
    && (forall i :: 0 <= i < |starts| ==> starts[i] < end)
    && starts[|starts| - 1] + width >= end
  }

  method WindowStarts(earliest: int, end: int, width: int) returns (starts: seq<int>)
    requires earliest < end && width > 0
    ensures Tiles(starts, earliest, end, width)
  {
    starts := [];
    var w := earliest;
    while w < end
      invariant starts == [] ==> w == earliest
      invariant starts != [] ==> starts[0] == earliest && starts[|starts| - 1] + width == w
      invariant forall i :: 0 < i < |starts| ==> starts[i] == starts[i - 1] + width
      invariant forall i :: 0 <= i < |starts| ==> starts[i] < end
      decreases end - w
    {
      starts := starts + [w];
      w := w + width;
    }
  }

  lemma {:induction false} WindowsDisjoint(starts: seq<int>, earliest: int, end: int, width: int, i: nat, j: nat)
    requires Tiles(starts, earliest, end, width) && width > 0 && i < j < |starts|
    ensures starts[i] + width <= starts[j]
  {
    if i + 1 < j { WindowsDisjoint(starts, earliest, end, width, i, j - 1); }
  }

  lemma {:induction false} WindowOf(starts: seq<int>, earliest: int, end: int, width: int, t: int, n: nat)
    returns (i: nat)
    requires Tiles(starts, earliest, end, width) && earliest <= t && n < |starts| && t < starts[n] + width
    ensures i <= n && starts[i] <= t < starts[i] + width
  {
    if starts[n] <= t || n == 0 {
      i := n;
    } else {
      i := WindowOf(starts, earliest, end, width, t, n - 1);
    }
  }

  // ---- counting ----

  lemma {:induction false} SpacedFrom(s: seq<Candle>, span: int, i: nat)
    requires Spaced(s, span) && i < |s|
    ensures s[i].time >= s[0].time + i * span
  {
    if i > 0 {
      SpacedFrom(s, span, i - 1);
      assert i * span == (i - 1) * span + span;
    }
  }

  lemma SpacedAscends(s: seq<Candle>, span: int)
    requires Spaced(s, span) && span > 0
    ensures Ascending(s)
  {
  }

  /** No window holds more bars than one provider page. */
  lemma WindowFitsPage(s: seq<Candle>, span: int, start: int)
    requires Spaced(s, span) && span > 0
    requires forall c :: c in s ==> start <= c.time < start + KLINES_LIMIT * span
    ensures |s| <= KLINES_LIMIT
  {
    if s != [] {
      var n := Min(|s| - 1, KLINES_LIMIT);
      SpacedFrom(s, span, n);
      assert s[0] in s && s[n] in s;
      MulOrder(n, KLINES_LIMIT, span);
    }
  }

  lemma CeilIs(d: int, span: int)
    requires d > 0 && span > 0
    ensures d <= ((d + span - 1) / span) * span
  {
  }

  lemma MulOrder(a: int, b: int, span: int)
    requires a * span < b * span && span > 0
    ensures a < b
  {
  }

  /** The precomputed total is how many periods it takes to cover the span. */
  lemma TotalCoversSpan(earliest: int, end: int, span: int)
    requires span > 0 && earliest < end
    ensures var total := TotalBars(earliest, end, span);
            earliest + (total - 1) * span < end <= earliest + total * span
  {
    var d := end - earliest;
    var q, r := (d + span - 1) / span, (d + span - 1) % span;
    assert d + span - 1 == q * span + r;
    if q <= 0 { ProductOrder(q, 0, span); }
    ProductOrder(q, q, span);
  }

  /** Bars of the span never outnumber the precomputed total. */
  lemma WithinTotal(s: seq<Candle>, span: int, earliest: int, end: int)
    requires Spaced(s, span) && span > 0 && earliest < end
    requires forall c :: c in s ==> earliest <= c.time < end
    ensures |s| <= TotalBars(earliest, end, span)
  {
    if s != [] {
      SpacedFrom(s, span, |s| - 1);
      assert s[0] in s && s[|s| - 1] in s;
      CeilIs(end - earliest, span);
      MulOrder(|s| - 1, (end - earliest + span - 1) / span, span);
    }
  }

  // ---- one window ----

  lemma {:induction false} FilterMembers<T>(s: seq<T>, p: T -> bool, c: T)
    ensures c in Filter(s, p) <==> c in s && p(c)
  {
    if s != [] { FilterMembers(s[1..], p, c); }
  }

  lemma BetweenMembers(s: seq<Candle>, from: int, to: int)
    ensures forall c :: c in Between(s, from, At(to)) <==> c in s && from <= c.time < to
  {
    forall c ensures c in Between(s, from, At(to)) <==> c in s && from <= c.time < to {
      FilterMembers(s, (d: Candle) => from <= d.time && Below(d.time, At(to)), c);
    }
  }

  lemma BetweenSpaced(s: seq<Candle>, span: int, from: int, to: int)
    requires Spaced(s, span) && span > 0
    ensures Spaced(Between(s, from, At(to)), span)
  {
    SpacedAscends(s, span);
    BetweenIsSlice(s, from, At(to));
  }

  /** A window's kept rows: every history bar in the window and the span, ascending; the page limit cuts nothing off. */
  lemma WindowComplete(history: seq<Candle>, start: int, span: int, earliest: int, end: int)
    requires Spaced(history, span) && span > 0
    ensures Spaced(Kept(history, start, span, earliest, end), span)
    ensures forall c :: c in Kept(history, start, span, earliest, end) <==>
              c in history && start <= c.time < start + KLINES_LIMIT * span && earliest <= c.time < end
  {
    hide Between, Spaced;
    var stop := start + KLINES_LIMIT * span;
    var rows := Between(history, start, At(stop));
    BetweenMembers(history, start, stop);
    BetweenSpaced(history, span, start, stop);
    WindowFitsPage(rows, span, start);
    assert rows[..|rows|] == rows;
    assert Klines(history, start, stop - 1, KLINES_LIMIT) == rows;
    BetweenMembers(rows, earliest, end);
    BetweenSpaced(rows, span, earliest, end);
  }

  // ---- sorting what landed ----

  ghost predicate DistinctTimes(s: seq<Candle>) {
    forall i, j :: 0 <= i < j < |s| ==> s[i].time != s[j].time
  }

  lemma {:induction false} InsertAscends(c: Candle, s: seq<Candle>)
    requires Ascending(s) && forall d :: d in s ==> d.time != c.time
    ensures Ascending(InsertByTime(c, s)) && |InsertByTime(c, s)| == |s| + 1
    ensures forall d :: d in InsertByTime(c, s) <==> d == c || d in s
  {
    if s != [] && s[0].time < c.time {
      InsertAscends(c, s[1..]);
      var r := InsertByTime(c, s[1..]);
      forall j | 0 <= j < |r| ensures s[0].time < r[j].time {
        assert r[j] == c || r[j] in s[1..];
      }
    } else {
      assert s != [] ==> s[0] in s;
    }
  }

  lemma {:induction false} SortAscends(s: seq<Candle>)
    requires DistinctTimes(s)
    ensures Ascending(SortByTime(s)) && |SortByTime(s)| == |s|
    ensures forall d :: d in SortByTime(s) <==> d in s
  {
    if s != [] {
      SortAscends(s[1..]);
      forall d | d in SortByTime(s[1..]) ensures d.time != s[0].time {
        assert d in s[1..];
      }
      InsertAscends(s[0], SortByTime(s[1..]));
    }
  }

  /** Distinct bars of a spaced history, put in order, are spaced. */
  lemma SortedSpaced(s: seq<Candle>, history: seq<Candle>, span: int)
    requires Spaced(history, span) && DistinctTimes(s) && forall c :: c in s ==> c in history
    ensures Spaced(SortByTime(s), span)
  {
    SortAscends(s);
    var r := SortByTime(s);
    forall i, j | 0 <= i < j < |r| ensures r[i].time + span <= r[j].time {
      assert r[i] in s && r[j] in s;
      var a :| 0 <= a < |history| && history[a] == r[i];
      var b :| 0 <= b < |history| && history[b] == r[j];
      assert b < a ==> history[b].time + span <= history[a].time;
      assert a < b ==> history[a].time + span <= history[b].time;
    }
  }

  // ---- the worker pool ----

  /** `out` holds, once each, the history's bars of the span that lie in a landed window. */
  ghost predicate Landed(history: seq<Candle>, starts: seq<int>, span: int, earliest: int, end: int, landed: set<nat>,
                         out: seq<Candle>)
  {
    && DistinctTimes(out)
    && (forall i :: i in landed ==> i < |starts|)
    && (forall c :: c in out ==> c in history && earliest <= c.time < end && InWindows(starts, span, landed, c.time))
    && (forall c :: c in history && earliest <= c.time < end && InWindows(starts, span, landed, c.time) ==> c in out)
  }

  ghost predicate InWindows(starts: seq<int>, span: int, landed: set<nat>, t: int) {
    exists i :: i in landed && i < |starts| && starts[i] <= t < starts[i] + KLINES_LIMIT * span
  }

  lemma LandOne(history: seq<Candle>, starts: seq<int>, span: int, earliest: int, end: int, landed: set<nat>,
                out: seq<Candle>, i: nat)
    requires Spaced(history, span) && span > 0 && Tiles(starts, earliest, end, KLINES_LIMIT * span)
    requires Landed(history, starts, span, earliest, end, landed, out) && i < |starts| && i !in landed
    ensures Landed(history, starts, span, earliest, end, landed + {i},
                   out + Kept(history, starts[i], span, earliest, end))
  {
    hide Kept, Tiles, Spaced;
    var rows := Kept(history, starts[i], span, earliest, end);
    WindowComplete(history, starts[i], span, earliest, end);
    OtherWindow(starts, span, earliest, end, landed, i);
    SpacedAscends(rows, span);
    forall a, b | 0 <= a < b < |out + rows| ensures (out + rows)[a].time != (out + rows)[b].time {
      if a < |out| <= b {
        assert out[a] in out && rows[b - |out|] in rows;
      }
    }
    forall t
      ensures InWindows(starts, span, landed + {i}, t) <==>
                InWindows(starts, span, landed, t) || starts[i] <= t < starts[i] + KLINES_LIMIT * span
    {
    }
  }

  lemma OtherWindow(starts: seq<int>, span: int, earliest: int, end: int, landed: set<nat>, i: nat)
    requires span > 0 && Tiles(starts, earliest, end, KLINES_LIMIT * span) && i < |starts| && i !in landed
    ensures forall t :: starts[i] <= t < starts[i] + KLINES_LIMIT * span ==> !InWindows(starts, span, landed, t)
  {
    forall j | j in landed && j < |starts|
      ensures starts[j] + KLINES_LIMIT * span <= starts[i] || starts[i] + KLINES_LIMIT * span <= starts[j]
    {
      if j < i { WindowsDisjoint(starts, earliest, end, KLINES_LIMIT * span, j, i); }
      else { WindowsDisjoint(starts, earliest, end, KLINES_LIMIT * span, i, j); }
    }
  }

  /** What has landed never outnumbers the precomputed total. */
  lemma LandedWithinTotal(history: seq<Candle>, starts: seq<int>, span: int, earliest: int, end: int, landed: set<nat>,
                          out: seq<Candle>)
    requires Spaced(history, span) && span > 0 && earliest < end
             && Landed(history, starts, span, earliest, end, landed, out)
    ensures |out| <= TotalBars(earliest, end, span)
  {
    hide TotalBars, Spaced, InWindows;
    SortAscends(out);
    SortedSpaced(out, history, span);
    WithinTotal(SortByTime(out), span, earliest, end);
  }

  /** Once every window has landed, sorting gives exactly the history's bars of the span. */
  lemma AllLanded(history: seq<Candle>, starts: seq<int>, span: int, earliest: int, end: int, landed: set<nat>,
                  out: seq<Candle>)
    requires Spaced(history, span) && span > 0 && Tiles(starts, earliest, end, KLINES_LIMIT * span)
    requires Landed(history, starts, span, earliest, end, landed, out) && forall i: nat :: i < |starts| ==> i in landed
    ensures SortByTime(out) == Between(history, earliest, At(end))
  {
    hide Between, SortByTime;
    var all := Between(history, earliest, At(end));
    SortAscends(out);
    BetweenMembers(history, earliest, end);
    BetweenSpaced(history, span, earliest, end);
    SpacedAscends(all, span);
    forall c | c in all ensures c in out {
      var i := WindowOf(starts, earliest, end, KLINES_LIMIT * span, c.time, |starts| - 1);
      assert InWindows(starts, span, landed, c.time);
    }
    AscendingUnique(SortByTime(out), all);
  }

  // ---- the fetch ----

  datatype FetchProgress = FetchProgress(done: nat, total: nat)

  ghost predicate Reports(progress: seq<FetchProgress>, most: nat, total: nat) {
    && (forall i :: 0 <= i < |progress| ==> progress[i].done <= most && progress[i].total == total)
    && (forall i, j :: 0 <= i < j < |progress| ==> progress[i].done <= progress[j].done)
  }

  /**
   One runner of the pool: at the head of its loop, awaiting a window, out of windows, or rejected by the window it
   awaited.
   */
  datatype Runner = Ready | Busy(window: nat) | Finished | Failed(window: nat) {
    predicate Holds(i: nat) {
      (Busy? || Failed?) && window == i
    }

    predicate Active() {
      Ready? || Busy?
    }

    function Steps(): nat {
      match this
      case Ready => 1
      case Busy(_) => 2
      case Finished => 0
      case Failed(_) => 0
    }
  }

  /** How many runners await a window. */
  function InFlight(runners: seq<Runner>): (n: nat)
    ensures n <= |runners|
    ensures n == |runners| <==> forall k :: 0 <= k < |runners| ==> runners[k].Busy?
  {
    if runners == [] then 0 else (if runners[0].Busy? then 1 else 0) + InFlight(runners[1..])
  }

  ghost function StepsLeft(runners: seq<Runner>): nat {
    if runners == [] then 0 else runners[0].Steps() + StepsLeft(runners[1..])
  }

  lemma {:induction false} StepsFall(runners: seq<Runner>, k: nat, r: Runner)
    requires k < |runners|
    ensures StepsLeft(runners[k := r]) == StepsLeft(runners) - runners[k].Steps() + r.Steps()
  {
    if k > 0 {
      assert runners[k := r][1..] == runners[1..][k - 1 := r];
      StepsFall(runners[1..], k - 1, r);
    } else {
      assert runners[0 := r][1..] == runners[1..];
    }
  }

  /** The numbers below `n`, in order. */
  function UpTo(n: nat): seq<nat> {
    seq(n, i => i)
  }

  /** The runners share one index: each window below it landed, is awaited by one runner, or failed one. */
  ghost predicate Shared(runners: seq<Runner>, windows: nat, index: nat, landed: set<nat>, fails: nat -> bool) {
    && index <= windows
    && (forall i :: i in landed ==> i < index && !fails(i))
    && (forall k :: 0 <= k < |runners| ==> Sound(runners[k], windows, index, landed, fails))
    && (forall j, k :: 0 <= j < |runners| && 0 <= k < |runners| && j != k ==> Apart(runners[j], runners[k]))
    && (forall i: nat :: i < index && i !in landed ==> Held(runners, i))
  }

  ghost predicate Sound(r: Runner, windows: nat, index: nat, landed: set<nat>, fails: nat -> bool) {
    match r
    case Ready => true
    case Busy(i) => i < index && i !in landed
    case Finished => index == windows
    case Failed(i) => i < index && i !in landed && fails(i)
  }

  ghost predicate Apart(a: Runner, b: Runner) {
    forall i: nat :: !(a.Holds(i) && b.Holds(i))
  }

  ghost predicate Held(runners: seq<Runner>, i: nat) {
    exists k :: 0 <= k < |runners| && runners[k].Holds(i)
  }

  lemma HeldAfter(runners: seq<Runner>, k: nat, r: Runner, i: nat)
    requires k < |runners|
    ensures r.Holds(i) ==> Held(runners[k := r], i)
    ensures Held(runners, i) && !runners[k].Holds(i) ==> Held(runners[k := r], i)
  {
    if r.Holds(i) { assert runners[k := r][k].Holds(i); }
    if Held(runners, i) && !runners[k].Holds(i) {
      var j :| 0 <= j < |runners| && runners[j].Holds(i);
      assert runners[k := r][j].Holds(i);
    }
  }

  /** Runner `k` moves to `r`; nobody else holds what `r` holds, and what it held it still holds or has landed. */
  lemma RunnerMoves(runners: seq<Runner>, windows: nat, index: nat, landed: set<nat>, fails: nat -> bool,
                    k: nat, r: Runner, index': nat, landed': set<nat>)
    requires Shared(runners, windows, index, landed, fails) && k < |runners| && index <= index' <= windows
             && landed <= landed'
    requires forall i :: i in landed' && i !in landed ==> i < index' && !fails(i) && runners[k].Holds(i)
    requires Sound(r, windows, index', landed', fails)
    requires forall i: nat :: r.Holds(i) ==> index <= i || runners[k].Holds(i)
    requires forall i: nat :: i < index' && i !in landed' && (index <= i || runners[k].Holds(i)) ==> r.Holds(i)
    ensures Shared(runners[k := r], windows, index', landed', fails)
  {
    var after := runners[k := r];
    forall j | 0 <= j < |after| ensures Sound(after[j], windows, index', landed', fails) {
      if j != k {
        assert Sound(runners[j], windows, index, landed, fails);
        assert Apart(runners[j], runners[k]);
      }
    }
    forall i, j | 0 <= i < |after| && 0 <= j < |after| && i != j ensures Apart(after[i], after[j]) {
      assert Apart(runners[i], runners[j]);
      assert Sound(runners[i], windows, index, landed, fails) && Sound(runners[j], windows, index, landed, fails);
    }
    forall i: nat | i < index' && i !in landed' ensures Held(after, i) {
      assert i < index ==> Held(runners, i);
      HeldAfter(runners, k, r, i);
    }
  }

  /** The whole pool: its shared index, what landed, and what was reported, one report a landed window. */
  ghost predicate Pooled(history: seq<Candle>, starts: seq<int>, span: int, earliest: int, end: int, fails: nat -> bool,
                         runners: seq<Runner>, index: nat, landed: set<nat>, out: seq<Candle>,
                         progress: seq<FetchProgress>) {
    && Shared(runners, |starts|, index, landed, fails)
    && Landed(history, starts, span, earliest, end, landed, out)
    && Reports(progress, |out|, TotalBars(earliest, end, if span > 0 then span else 1))
    && |progress| == |landed|
    && (progress != [] ==> progress[|progress| - 1].done == |out|)
  }

  lemma PoolStart(history: seq<Candle>, starts: seq<int>, span: int, earliest: int, end: int, fails: nat -> bool,
                  n: nat)
    ensures Pooled(history, starts, span, earliest, end, fails, seq(n, _ => Ready), 0, {}, [], [])
  {
  }

  lemma PoolTake(history: seq<Candle>, starts: seq<int>, span: int, earliest: int, end: int, fails: nat -> bool,
                 runners: seq<Runner>, index: nat, landed: set<nat>, out: seq<Candle>, progress: seq<FetchProgress>,
                 k: nat)
    requires Pooled(history, starts, span, earliest, end, fails, runners, index, landed, out, progress)
    requires k < |runners| && runners[k].Ready? && index < |starts|
    ensures Pooled(history, starts, span, earliest, end, fails, runners[k := Busy(index)], index + 1, landed, out,
                   progress)
    ensures StepsLeft(runners[k := Busy(index)]) == StepsLeft(runners) + 1
  {
    hide Landed, Reports, TotalBars;
    hide Shared;
    SharedBelow(runners, |starts|, index, landed, fails);
    RunnerMoves(runners, |starts|, index, landed, fails, k, Busy(index), index + 1, landed);
    StepsFall(runners, k, Busy(index));
  }

  lemma SharedBelow(runners: seq<Runner>, windows: nat, index: nat, landed: set<nat>, fails: nat -> bool)
    requires Shared(runners, windows, index, landed, fails)
    ensures index <= windows && forall i :: i in landed ==> i < index
    ensures forall k :: 0 <= k < |runners| ==> Sound(runners[k], windows, index, landed, fails)
  {
  }

  lemma PoolLeave(history: seq<Candle>, starts: seq<int>, span: int, earliest: int, end: int, fails: nat -> bool,
                  runners: seq<Runner>, index: nat, landed: set<nat>, out: seq<Candle>, progress: seq<FetchProgress>,
                  k: nat)
    requires Pooled(history, starts, span, earliest, end, fails, runners, index, landed, out, progress)
    requires k < |runners| && runners[k].Ready? && index >= |starts|
    ensures Pooled(history, starts, span, earliest, end, fails, runners[k := Finished], index, landed, out, progress)
    ensures StepsLeft(runners[k := Finished]) == StepsLeft(runners) - 1
  {
    hide Landed, Reports, TotalBars, Shared;
    SharedBelow(runners, |starts|, index, landed, fails);
    RunnerMoves(runners, |starts|, index, landed, fails, k, Finished, index, landed);
    StepsFall(runners, k, Finished);
  }

  lemma PoolReject(history: seq<Candle>, starts: seq<int>, span: int, earliest: int, end: int, fails: nat -> bool,
                   runners: seq<Runner>, index: nat, landed: set<nat>, out: seq<Candle>, progress: seq<FetchProgress>,
                   k: nat)
    requires Pooled(history, starts, span, earliest, end, fails, runners, index, landed, out, progress)
    requires k < |runners| && runners[k].Busy? && fails(runners[k].window)
    ensures Pooled(history, starts, span, earliest, end, fails, runners[k := Failed(runners[k].window)], index, landed,
                   out, progress)
    ensures StepsLeft(runners[k := Failed(runners[k].window)]) == StepsLeft(runners) - 2
  {
    hide Landed, Reports, TotalBars, Shared;
    var i := runners[k].window;
    SharedBelow(runners, |starts|, index, landed, fails);
    assert Sound(runners[k], |starts|, index, landed, fails);
    RunnerMoves(runners, |starts|, index, landed, fails, k, Failed(i), index, landed);
    StepsFall(runners, k, Failed(i));
  }

  lemma PoolLand(history: seq<Candle>, starts: seq<int>, span: int, earliest: int, end: int, fails: nat -> bool,
                 runners: seq<Runner>, index: nat, landed: set<nat>, out: seq<Candle>, progress: seq<FetchProgress>,
                 k: nat)
    requires Spaced(history, span) && span > 0 && earliest < end && Tiles(starts, earliest, end, KLINES_LIMIT * span)
    requires Pooled(history, starts, span, earliest, end, fails, runners, index, landed, out, progress)
    requires k < |runners| && runners[k].Busy? && !fails(runners[k].window)
    ensures runners[k].window < |starts|
    ensures var out' := out + Kept(history, starts[runners[k].window], span, earliest, end);
            var total := TotalBars(earliest, end, span);
            && |out'| <= total
            && Pooled(history, starts, span, earliest, end, fails, runners[k := Ready], index,
                      landed + {runners[k].window}, out',
                      progress + [FetchProgress(|out'|, total)])
    ensures StepsLeft(runners[k := Ready]) == StepsLeft(runners) - 1
  {
    hide Landed, Tiles, TotalBars, Kept, Spaced, Shared;
    var i := runners[k].window;
    SharedBelow(runners, |starts|, index, landed, fails);
    assert Sound(runners[k], |starts|, index, landed, fails);
    var out' := out + Kept(history, starts[i], span, earliest, end);
    LandOne(history, starts, span, earliest, end, landed, out, i);
    LandedWithinTotal(history, starts, span, earliest, end, landed + {i}, out');
    RunnerMoves(runners, |starts|, index, landed, fails, k, Ready, index, landed + {i});
    StepsFall(runners, k, Ready);
  }

  /** Eight different windows taken, every one of which failed. */
  ghost predicate AllRejected(lost: seq<nat>, taken: nat, fails: nat -> bool) {
    && |lost| == CONCURRENCY
    && (forall j, k :: 0 <= j < k < |lost| ==> lost[j] != lost[k])
    && (forall k :: 0 <= k < |lost| ==> lost[k] < taken && fails(lost[k]))
  }

  /**
   Once every runner has stopped: all windows landed, or some failed; a window is left untaken only if every runner was
   rejected.
   */
  lemma RunnersStopped(runners: seq<Runner>, windows: nat, index: nat, landed: set<nat>, fails: nat -> bool)
    requires Shared(runners, windows, index, landed, fails) && runners != []
    requires forall k :: 0 <= k < |runners| ==> !runners[k].Active()
    ensures (exists k :: 0 <= k < |runners| && runners[k].Failed?) <==> (exists i :: 0 <= i < windows && fails(i))
    ensures (forall k :: 0 <= k < |runners| ==> !runners[k].Failed?) ==>
              index == windows && forall i: nat :: i in landed <==> i < windows
    ensures index < windows && |runners| == CONCURRENCY ==> exists lost :: AllRejected(lost, index, fails)
  {
    assert Sound(runners[0], windows, index, landed, fails);
    if k :| 0 <= k < |runners| && runners[k].Failed? {
      assert Sound(runners[k], windows, index, landed, fails);
      assert fails(runners[k].window);
    } else {
      forall i: nat | i < windows ensures i in landed && !fails(i) {
        assert !Held(runners, i);
      }
    }
    if index < windows && |runners| == CONCURRENCY {
      forall k | 0 <= k < |runners|
        ensures runners[k].Failed? && runners[k].window < index && fails(runners[k].window)
      {
        assert Sound(runners[k], windows, index, landed, fails);
      }
      var lost := seq(|runners|, k requires 0 <= k < |runners| => runners[k].window);
      forall j, k | 0 <= j < k < |lost| ensures lost[j] != lost[k] {
        assert Apart(runners[j], runners[k]);
        assert runners[j].Holds(lost[j]) && runners[k].Holds(lost[k]);
      }
      assert AllRejected(lost, index, fails);
    }
  }

  lemma BelowCardinality(s: set<nat>, n: nat)
    requires forall i: nat :: i in s <==> i < n
    ensures |s| == n
    decreases n
  {
    if n == 0 {
      assert s == {};
    } else {
      BelowCardinality(s - {n - 1}, n - 1);
    }
  }

  lemma PoolDone(history: seq<Candle>, starts: seq<int>, span: int, earliest: int, end: int, fails: nat -> bool,
                 runners: seq<Runner>, index: nat, landed: set<nat>, out: seq<Candle>, progress: seq<FetchProgress>)
    requires Spaced(history, span) && span > 0 && earliest < end && Tiles(starts, earliest, end, KLINES_LIMIT * span)
    requires Pooled(history, starts, span, earliest, end, fails, runners, index, landed, out, progress) && runners != []
    requires forall k :: 0 <= k < |runners| ==> !runners[k].Active()
    ensures (exists k :: 0 <= k < |runners| && runners[k].Failed?) <==> (exists i :: 0 <= i < |starts| && fails(i))
    ensures Reports(progress, TotalBars(earliest, end, span), TotalBars(earliest, end, span)) && index <= |starts|
    ensures index < |starts| && |runners| == CONCURRENCY ==> exists lost :: AllRejected(lost, index, fails)
    ensures (forall k :: 0 <= k < |runners| ==> !runners[k].Failed?) ==>
              && index == |starts| && SortByTime(out) == Between(history, earliest, At(end))
              && progress != [] && |progress| == |starts| && progress[|starts| - 1].done == |SortByTime(out)|
  {
    hide TotalBars, Spaced, Shared, Between, SortByTime, AllRejected, InWindows;
    SharedBelow(runners, |starts|, index, landed, fails);
    RunnersStopped(runners, |starts|, index, landed, fails);
    LandedWithinTotal(history, starts, span, earliest, end, landed, out);
    if forall k :: 0 <= k < |runners| ==> !runners[k].Failed? {
      AllLanded(history, starts, span, earliest, end, landed, out);
      BelowCardinality(landed, |starts|);
      SortAscends(out);
    }
  }

  /**
   Run every window on a pool of runners sharing one index, which take and land windows in any order; a rejected runner
   stops, the others go on, and any rejection fails the fetch. `taken` lists the windows asked for in the order they
   were asked for, `peak` is the most there ever were in flight.
   */
  method FetchWindows(history: seq<Candle>, starts: seq<int>, span: int, earliest: int, end: int, fails: nat -> bool)
    returns (r: Option<seq<Candle>>, progress: seq<FetchProgress>, taken: seq<nat>, peak: nat)
    requires Spaced(history, span) && span > 0 && earliest < end && Tiles(starts, earliest, end, KLINES_LIMIT * span)
    ensures r.None? <==> exists i :: 0 <= i < |starts| && fails(i)
    ensures r.Some? ==> r.value == Between(history, earliest, At(end))
    ensures Reports(progress, TotalBars(earliest, end, span), TotalBars(earliest, end, span))
    ensures r.Some? ==> |progress| == |starts| && progress != [] && progress[|progress| - 1].done == |r.value|
    ensures taken == UpTo(|taken|) && |taken| <= |starts| && (r.Some? ==> |taken| == |starts|)
    ensures |taken| < |starts| ==> exists lost :: AllRejected(lost, |taken|, fails)
    ensures peak == Min(CONCURRENCY, |starts|)
  {
    hide Pooled, Landed, Shared, Kept, Tiles, Spaced, TotalBars, Between, Filter, SortByTime, StepsLeft, UpTo, Reports,
         AllRejected;
    var index: nat, out: seq<Candle>, runners := 0, [], seq(Min(CONCURRENCY, |starts|), _ => Ready);
    ghost var landed: set<nat> := {};
    progress, taken := [], [];
    var total := TotalBars(earliest, end, span);
    PoolStart(history, starts, span, earliest, end, fails, |runners|);
    UpToNext(0);
    for k := 0 to |runners|
      invariant |runners| == Min(CONCURRENCY, |starts|) && index == k && taken == UpTo(k)
      invariant forall j :: 0 <= j < |runners| ==> if j < k then runners[j].Busy? else runners[j].Ready?
      invariant Pooled(history, starts, span, earliest, end, fails, runners, index, landed, out, progress)
    {
      PoolTake(history, starts, span, earliest, end, fails, runners, index, landed, out, progress, k);
      UpToNext(index);
      runners, taken, index := runners[k := Busy(index)], taken + [index], index + 1;
    }
    peak := InFlight(runners);
    while exists k :: 0 <= k < |runners| && runners[k].Active()
      invariant |runners| == Min(CONCURRENCY, |starts|) == peak && taken == UpTo(index) && index <= |starts|
      invariant Pooled(history, starts, span, earliest, end, fails, runners, index, landed, out, progress)
      decreases |starts| - index, StepsLeft(runners)
    {
      var k :| 0 <= k < |runners| && runners[k].Active();
      match runners[k]
      case Ready =>
        if index < |starts| {
          PoolTake(history, starts, span, earliest, end, fails, runners, index, landed, out, progress, k);
          UpToNext(index);
          runners, taken, index := runners[k := Busy(index)], taken + [index], index + 1;
        } else {
          PoolLeave(history, starts, span, earliest, end, fails, runners, index, landed, out, progress, k);
          runners := runners[k := Finished];
        }
      case Busy(i) =>
        if fails(i) {
          PoolReject(history, starts, span, earliest, end, fails, runners, index, landed, out, progress, k);
          runners := runners[k := Failed(i)];
        } else {
          PoolLand(history, starts, span, earliest, end, fails, runners, index, landed, out, progress, k);
          out, landed := out + Kept(history, starts[i], span, earliest, end), landed + {i};
          progress := progress + [FetchProgress(|out|, if total > |out| then total else |out|)];
          runners := runners[k := Ready];
        }
      peak := Max(peak, InFlight(runners));
    }
    UpToNext(index);
    TilesNonempty(starts, earliest, end, KLINES_LIMIT * span);
    PoolDone(history, starts, span, earliest, end, fails, runners, index, landed, out, progress);
    r := if exists k :: 0 <= k < |runners| && runners[k].Failed? then None else Some(SortByTime(out));
  }

  lemma UpToNext(n: nat)
    ensures |UpTo(n)| == n && UpTo(n) + [n] == UpTo(n + 1)
  {
  }

  lemma TilesNonempty(starts: seq<int>, earliest: int, end: int, width: int)
    requires Tiles(starts, earliest, end, width)
    ensures starts != []
  {
  }

  datatype BackfillRange = BackfillRange(from: int, to: int)

  /** `earliestOpen`: the open of the first bar at or after time 0, if there is one. */
  function EarliestOpen(history: seq<Candle>): Option<int> {
    var rows := Between(history, 0, Unbounded);
    if rows == [] then None else Some(rows[0].time)
  }

  /** Where a fetch starts: the range's start, or the provider's earliest bar. */
  function EarliestOf(history: seq<Candle>, range: Option<BackfillRange>, now: int): int {
    if range.Some? then range.value.from
    else if EarliestOpen(history).Some? then EarliestOpen(history).value
    else now
  }

  function EndOf(range: Option<BackfillRange>, now: int): int {
    if range.Some? then range.value.to else now
  }

  /** Some window the span needs fails: window `i` starts `i` windows after the earliest bar. */
  ghost predicate SomeWindowFails(earliest: int, end: int, width: int, fails: nat -> bool) {
    exists i: nat :: fails(i) && earliest + i * width < end
  }

  /**
   A ranged fetch returns exactly the provider's bars of `[from, to)`, a rangeless one all its bars from time 0 up to
   `now`: ascending, each once, whatever order the windows land in. It fails exactly when the probe it makes or a window
   it needs fails.
   */
  method FetchCandles(history: seq<Candle>, period: Period, range: Option<BackfillRange>, now: int, probeFails: bool,
                      fails: nat -> bool)
    returns (r: Option<seq<Candle>>, progress: seq<FetchProgress>)
    requires Spaced(history, PeriodMillis(period))
    ensures r.Some? ==> r.value == if range.Some? then Between(history, range.value.from, At(range.value.to))
                                     else Between(history, 0, At(now))
    ensures r.None? <==> (range.None? && probeFails)
                         || SomeWindowFails(EarliestOf(history, range, now), EndOf(range, now),
                                            KLINES_LIMIT * PeriodMillis(period), fails)
    ensures var total := TotalBars(EarliestOf(history, range, now), EndOf(range, now), PeriodMillis(period));
            Reports(progress, total, total)
    ensures r.Some? && progress != [] ==> progress[|progress| - 1].done == |r.value|
  {
    hide Spaced, Tiles, TotalBars, Reports, SomeWindowFails;
    var span := PeriodMillis(period);
    var end := EndOf(range, now);
    var earliest := EarliestOf(history, range, now);
    NoReports(TotalBars(earliest, end, span));
    SpanOfHistory(history, span, now);
    if range.None? && probeFails { return None, []; }
    EmptySpan(earliest, end, KLINES_LIMIT * span, fails);
    if range.None? && EarliestOpen(history).None? { return Some([]), []; }
    if earliest >= end {
      NothingBetween(history, earliest, end);
      return Some([]), [];
    }
    var starts := WindowStarts(earliest, end, KLINES_LIMIT * span);
    WindowsNeeded(starts, earliest, end, KLINES_LIMIT * span, fails);
    var taken, peak;
    r, progress, taken, peak := FetchWindows(history, starts, span, earliest, end, fails);
  }

  lemma EmptySpan(earliest: int, end: int, width: int, fails: nat -> bool)
    requires width > 0
    ensures earliest >= end ==> !SomeWindowFails(earliest, end, width, fails)
  {
    forall i: nat ensures i * width >= 0 {
      ProductOrder(0, i, width);
    }
  }

  lemma {:induction false} StartIs(starts: seq<int>, earliest: int, end: int, width: int, i: nat)
    requires Tiles(starts, earliest, end, width) && i < |starts|
    ensures starts[i] == earliest + i * width
  {
    if i > 0 { StartIs(starts, earliest, end, width, i - 1); }
  }

  /** The windows listed are exactly those the span needs. */
  lemma WindowsNeeded(starts: seq<int>, earliest: int, end: int, width: int, fails: nat -> bool)
    requires Tiles(starts, earliest, end, width) && width > 0
    ensures SomeWindowFails(earliest, end, width, fails) <==> exists i :: 0 <= i < |starts| && fails(i)
  {
    var n := |starts|;
    StartIs(starts, earliest, end, width, n - 1);
    forall i: nat ensures i < n <==> earliest + i * width < end {
      if i < n {
        StartIs(starts, earliest, end, width, i);
      } else {
        ProductOrder(n, i, width);
        ProductOrder(n, n, width);
      }
    }
  }

  lemma NoReports(total: nat)
    ensures Reports([], total, total)
  {
  }

  lemma NothingBetween(s: seq<Candle>, from: int, to: int)
    requires from >= to
    ensures Between(s, from, At(to)) == []
  {
    FilterNone(s, (c: Candle) => from <= c.time && Below(c.time, At(to)));
  }

  lemma SpanOfHistory(history: seq<Candle>, span: int, now: int)
    requires Spaced(history, span) && span > 0
    ensures EarliestOpen(history).None? ==> Between(history, 0, At(now)) == []
    ensures EarliestOpen(history).Some? ==>
            Between(history, EarliestOpen(history).value, At(now)) == Between(history, 0, At(now))
  {
    hide Between, CountBelow, Spaced;
    SpacedAscends(history, span);
    var n := |history|;
    BetweenIsSlice(history, 0, Unbounded);
    BetweenIsSlice(history, 0, At(now));
    AllBelow(history);
    var lo := CountBelow(history, At(0));
    BelowIsPrefix(history, At(0));
    if lo < n {
      CountBelowAt(history, lo);
      BetweenIsSlice(history, history[lo].time, At(now));
    }
  }

  lemma {:induction false} AllBelow(s: seq<Candle>)
    ensures CountBelow(s, Unbounded) == |s|
  {
    if s != [] { AllBelow(s[1..]); }
  }
}
