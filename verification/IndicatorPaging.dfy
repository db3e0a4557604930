/** When recomputing page by page gives the whole-history series, and when it does not. */
module IndicatorPaging {
  import opened Candles
  import opened Series
  import opened MovingAverages
  import opened IndicatorSeries
  import Supertrend

  /** The warm-up the service loads covers everything an in-page row looks back on. */
  predicate Windowed(ind: Indicator) {
    !ind.SupertrendOf?
  }

  /** No indicator looks ahead: over a prefix every row is the same row. */
  lemma RowOfPrefix(ind: Indicator, s: seq<Candle>, m: nat, i: nat)
    requires ind.Warmup() >= 1 && i < m <= |s|
    ensures ind.RowAt(s[..m], i) == ind.RowAt(s, i)
  {
    hide SmaRow, VwmaRow, Supertrend.SupertrendRow;
    assert s[0..m] == s[..m];
    match ind
    case Sma(length, source) => SmaLocal(s, 0, m, i, length, source);
    case Vwma(length, source, multiplier, direction) => VwmaLocal(s, 0, m, i, length, source, multiplier, direction);
    case SupertrendOf(inputs) => Supertrend.SupertrendPrefix(s, m, i, inputs);
  }

  /** A windowed indicator computed over a page and `Warmup()` earlier bars gives the page's whole-history rows. */
  lemma PageRowIsRow(ind: Indicator, s: seq<Candle>, a: nat, e: nat, j: nat)
    requires ind.Warmup() >= 1 && a <= j < e <= |s|
    requires Windowed(ind) || a <= ind.Warmup()
    ensures ind.RowAt(s[InputStart(ind, a)..e], j - InputStart(ind, a)) == ind.RowAt(s, j)
  {
    hide SmaRow, VwmaRow, Supertrend.SupertrendRow;
    var b := InputStart(ind, a);
    match ind
    case Sma(length, source) => SmaLocal(s, b, e, j, length, source);
    case Vwma(length, source, multiplier, direction) => VwmaLocal(s, b, e, j, length, source, multiplier, direction);
    case SupertrendOf(inputs) =>
      assert s[0..e] == s[..e];
      Supertrend.SupertrendPrefix(s, e, j, inputs);
  }

  lemma PageRowsAreRows(ind: Indicator, s: seq<Candle>, a: nat, e: nat)
    requires ind.Warmup() >= 1 && a <= e <= |s|
    requires Windowed(ind) || a <= ind.Warmup()
    ensures PageRows(ind, s, a, e) == RowsOf(ind, s)[a..e]
  {
    hide Indicator.RowAt;
    forall i | 0 <= i < e - a ensures PageRows(ind, s, a, e)[i] == RowsOf(ind, s)[a..e][i] {
      PageRowIsRow(ind, s, a, e, a + i);
    }
  }

  /** If the whole-history compute does not throw, no page's compute does. */
  lemma PagesNeverThrow(ind: Indicator, s: seq<Candle>, k: nat, b: nat, e: nat)
    requires ind.Warmup() >= 1 && b <= e <= k <= |s|
    requires ind.Compute(s[..k]).Rows?
    ensures ind.Compute(s[b..e]).Rows?
  {
    hide ResolveSource, SmaRow, VwmaRow, Supertrend.SupertrendRow;
    assert forall i :: 0 <= i < e - b ==> s[b..e][i] == s[..k][b + i];
  }

  /**
   Over the oldest `e` candles, the pages' series is the whole-history projection reversed:
   for every page size with a windowed indicator, and for any indicator whose history fits in
   one page and its warm-up.
   */
  lemma {:induction false} PagedIsWhole(ind: Indicator, s: seq<Candle>, k: nat, e: nat, pageSize: int, stateKey: string)
    requires ind.Warmup() >= 1 && pageSize > 0 && e <= k <= |s|
    requires Windowed(ind) || k <= pageSize + ind.Warmup()
    requires ind.Compute(s[..k]).Rows?
    ensures PagedPoints(ind, s, e, pageSize, stateKey) == Reverse(ProjectRows(RowsOf(ind, s)[..e], stateKey))
    decreases e
  {
    hide Indicator.Compute, Indicator.RowAt, PageRows, ProjectRows, RowsOf;
    if e == 0 {
      EmptyProjection(stateKey);
    } else {
      var a := Max(0, e - pageSize);
      PagesNeverThrow(ind, s, k, InputStart(ind, a), e);
      PageRowsAreRows(ind, s, a, e);
      PagedIsWhole(ind, s, k, a, pageSize, stateKey);
      var rows := RowsOf(ind, s);
      RowsOfLength(ind, s);
      assert rows[..e] == rows[..a] + rows[a..e];
      ProjectRowsConcat(rows[..a], rows[a..e], stateKey);
      ReverseConcat(ProjectRows(rows[..a], stateKey), ProjectRows(rows[a..e], stateKey));
    }
  }

  lemma RowsOfLength(ind: Indicator, s: seq<Candle>)
    requires ind.Warmup() >= 1
    ensures |RowsOf(ind, s)| == |s|
  {
  }

  lemma EmptyProjection(stateKey: string)
    ensures ProjectRows([], stateKey) == []
  {
  }

  lemma ReverseConcat<T>(a: seq<T>, b: seq<T>)
    ensures Reverse(a + b) == Reverse(b) + Reverse(a)
  {
  }

  /** The rows of the oldest `e` candles as the pages compute them. */
  function PagedRows(ind: Indicator, s: seq<Candle>, e: nat, pageSize: int): (r: seq<Row>)
    requires ind.Warmup() >= 1 && pageSize > 0 && e <= |s|
    ensures |r| == e
  {
    if e == 0 then []
    else
      var a := Max(0, e - pageSize);
      PagedRows(ind, s, a, pageSize) + PageRows(ind, s, a, e)
  }

  /** When nothing throws, a paged walk yields the paged rows, projected and reversed: for every indicator. */
  lemma {:induction false} PagedPointsProject(ind: Indicator, s: seq<Candle>, k: nat, e: nat, pageSize: int,
                                              stateKey: string)
    requires ind.Warmup() >= 1 && pageSize > 0 && e <= k <= |s|
    requires ind.Compute(s[..k]).Rows?
    ensures PagedPoints(ind, s, e, pageSize, stateKey) == Reverse(ProjectRows(PagedRows(ind, s, e, pageSize), stateKey))
    decreases e
  {
    hide Indicator.Compute, Indicator.RowAt, PageRows, ProjectRows;
    if e == 0 {
      EmptyProjection(stateKey);
    } else {
      var a := Max(0, e - pageSize);
      PagesNeverThrow(ind, s, k, InputStart(ind, a), e);
      PagedPointsProject(ind, s, k, a, pageSize, stateKey);
      var before, page := PagedRows(ind, s, a, pageSize), PageRows(ind, s, a, e);
      ProjectRowsConcat(before, page, stateKey);
      ReverseConcat(ProjectRows(before, stateKey), ProjectRows(page, stateKey));
    }
  }

  /** The page of a walk over the oldest `e` candles that candle `j` falls in: its first candle and the one after it. */
  ghost function PageOf(e: nat, pageSize: int, j: nat): (r: (nat, nat))
    requires pageSize > 0 && j < e
    ensures r.0 <= j < r.1 <= e
    decreases e
  {
    var a := Max(0, e - pageSize);
    if j < a then PageOf(a, pageSize, j) else (a, e)
  }

  /** A paged row is some candle's row over the history up to its page, from at most its own warm-up before the page. */
  lemma {:induction false} PagedRowIs(ind: Indicator, s: seq<Candle>, e: nat, pageSize: int, j: nat)
    returns (a: nat, stop: nat)
    requires ind.Warmup() >= 1 && pageSize > 0 && j < e <= |s|
    ensures (a, stop) == PageOf(e, pageSize, j)
    ensures PagedRows(ind, s, e, pageSize)[j] == ind.RowAt(s[InputStart(ind, a)..stop], j - InputStart(ind, a))
    ensures PagedRows(ind, s, e, pageSize)[j].time == s[j].time
    decreases e
  {
    hide Indicator.RowAt;
    a, stop := Max(0, e - pageSize), e;
    var rows, page := PagedRows(ind, s, a, pageSize), PageRows(ind, s, a, e);
    assert PagedRows(ind, s, e, pageSize) == rows + page;
    if j < a {
      assert (rows + page)[j] == rows[j];
      a, stop := PagedRowIs(ind, s, a, pageSize, j);
    } else {
      assert (rows + page)[j] == page[j - a];
      RowTime(ind, s[InputStart(ind, a)..e], j - InputStart(ind, a));
    }
  }

  /** The series a paged walk gives is the one whole-history compute, projected and reversed. */
  lemma PagedIsWholeHistory(ind: Indicator, s: seq<Candle>, before: int, pageSize: int, stateKey: string)
    requires Ascending(s) && ind.Warmup() >= 1 && pageSize > 0
    requires Windowed(ind) || CountBelow(s, At(before)) <= pageSize + ind.Warmup()
    requires ind.Compute(Earlier(s, At(before))).Rows?
    ensures PagedPoints(ind, s, CountBelow(s, At(before)), pageSize, stateKey)
            == IndicatorPoints(ind, s, stateKey, before)
  {
    hide Indicator.Compute, Indicator.RowAt, PagedPoints, ProjectRows;
    var k := CountBelow(s, At(before));
    EarlierIsPrefix(s, At(before));
    PagedIsWhole(ind, s, k, k, pageSize, stateKey);
    forall i | 0 <= i < k ensures RowsOf(ind, s)[..k][i] == RowsOf(ind, s[..k])[i] {
      RowOfPrefix(ind, s, k, i);
    }
    assert RowsOf(ind, s)[..k] == RowsOf(ind, s[..k]);
  }

  /**
   Over candles none of which resolves, a windowed walk yields nothing: warm-up rows are null, and then the first page
   throws.
   */
  lemma UnresolvableYieldsNothing(ind: Indicator, s: seq<Candle>, k: nat, pageSize: int, stateKey: string)
    requires Windowed(ind) && ind.Warmup() >= 1 && pageSize > 0 && k <= |s|
    requires forall c :: c in s ==> !ind.Resolves(c)
    ensures PagedPoints(ind, s, k, pageSize, stateKey) == []
  {
    hide ProjectRows, ResolveSource;
    if k >= ind.Warmup() {
      var input := s[InputStart(ind, Max(0, k - pageSize))..k];
      assert |input| >= ind.Warmup() && input[0] in s;
      assert ind.Compute(input).Throws?;
    } else {
      ColdPages(ind, s, k, pageSize, stateKey);
    }
  }

  lemma {:induction false} NullRowsProjectNothing(rows: seq<Row>, stateKey: string)
    requires forall i :: 0 <= i < |rows| ==> Projected(rows[i], stateKey).None?
    ensures ProjectRows(rows, stateKey) == []
  {
    if rows != [] { NullRowsProjectNothing(rows[..|rows| - 1], stateKey); }
  }

  lemma ColdRow(ind: Indicator, s: seq<Candle>, i: nat, stateKey: string)
    requires Windowed(ind) && i < |s| && i + 1 < ind.Warmup()
    ensures Projected(ind.RowAt(s, i), stateKey).None?
  {
  }

  /** Before a windowed indicator is warm, no page has a point. */
  lemma {:induction false} ColdPages(ind: Indicator, s: seq<Candle>, e: nat, pageSize: int, stateKey: string)
    requires Windowed(ind) && pageSize > 0 && e < ind.Warmup() && e <= |s|
    ensures PagedPoints(ind, s, e, pageSize, stateKey) == []
    decreases e
  {
    hide ProjectRows, ResolveSource, Indicator.RowAt;
    if e > 0 {
      var a := Max(0, e - pageSize);
      var b := InputStart(ind, a);
      forall i | 0 <= i < e - a ensures Projected(PageRows(ind, s, a, e)[i], stateKey).None? {
        ColdRow(ind, s[b..e], a + i - b, stateKey);
      }
      NullRowsProjectNothing(PageRows(ind, s, a, e), stateKey);
      ColdPages(ind, s, a, pageSize, stateKey);
    }
  }

  // ---- Supertrend's recursion reaches all history ----

  function FlatCandle(time: int, price: real): Candle {
    EquityCandle(false, time, price, price, price, price, price)
  }

  /** `n` bars at 10 and then bars at 5: the trend turns down on bar `n` and stays down. */
  function Drop(n: nat, k: nat): (s: seq<Candle>)
    ensures |s| == k
    ensures forall i :: 0 <= i < k ==> s[i] == FlatCandle(i, if i < n then 10.0 else 5.0)
  {
    seq(k, i => FlatCandle(i, if i < n then 10.0 else 5.0))
  }

  ghost predicate FlatAt(c: Candle, price: real) {
    c == FlatCandle(c.time, price)
  }

  lemma FlatSource(c: Candle, price: real, source: PriceSource)
    requires FlatAt(c, price)
    ensures ResolveSource(c, source) == Some(price) && SourceOf(c, source) == price
  {
  }

  /**
   Over bars flat at 5 or 10, the first `n` at `first`, the average range is never negative, and zero while only those
   count.
   */
  lemma FlatAtr(s: seq<Candle>, i: nat, inputs: Supertrend.Inputs)
    requires inputs.atrPeriod >= 1 && i < |s| && i + 1 >= inputs.atrPeriod
    requires forall j :: 0 <= j <= i ==> FlatAt(s[j], 5.0) || FlatAt(s[j], 10.0)
    ensures Supertrend.Atr(s, i, inputs.atrPeriod, inputs.atrMethod).Some?
    ensures Supertrend.Atr(s, i, inputs.atrPeriod, inputs.atrMethod).value >= 0.0
    ensures (forall j :: 0 <= j <= i ==> FlatAt(s[j], 10.0)) ==>
            Supertrend.Atr(s, i, inputs.atrPeriod, inputs.atrMethod) == Some(0.0)
  {
    hide Supertrend.SumRange, Supertrend.Mean, Supertrend.Wilder;
    Supertrend.AtrBetweenExtremes(s, i, inputs.atrPeriod, inputs.atrMethod, 0.0, 5.0);
    if forall j :: 0 <= j <= i ==> FlatAt(s[j], 10.0) {
      Supertrend.AtrBetweenExtremes(s, i, inputs.atrPeriod, inputs.atrMethod, 0.0, 0.0);
    }
  }

  lemma {:induction false} ColdCarry(s: seq<Candle>, i: nat, inputs: Supertrend.Inputs)
    requires i <= |s| && i < inputs.atrPeriod
    ensures Supertrend.CarryInto(s, i, inputs) == Supertrend.Carry(None, None, Supertrend.Up)
  {
    if i > 0 { ColdCarry(s, i - 1, inputs); }
  }

  /** The first average, zero over bars at 10, puts both bands on the price. */
  lemma SeedStep(inputs: Supertrend.Inputs, candle: Candle, prevClose: Option<real>)
    requires FlatAt(candle, 10.0) && (prevClose.Some? ==> prevClose.value == 10.0)
    ensures Supertrend.Step(inputs, candle, prevClose, Some(0.0), Supertrend.Carry(None, None, Supertrend.Up)).1
         == Supertrend.Carry(Some(10.0), Some(10.0), Supertrend.Up)
  {
    FlatSource(candle, 10.0, inputs.source);
    assert inputs.multiplier * 0.0 == 0.0;
  }

  lemma Bands(multiplier: real, atr: real)
    requires multiplier >= 0.0 && atr >= 0.0
    ensures 5.0 - multiplier * atr <= 5.0 <= 5.0 + multiplier * atr
  {
  }

  /** A bar at 5 whose lower band is not above it leaves an up trend up. */
  lemma UpStep(inputs: Supertrend.Inputs, candle: Candle, prevClose: Option<real>, atr: real, c: Supertrend.Carry)
    requires FlatAt(candle, 5.0) && atr >= 0.0 && inputs.multiplier >= 0.0
    requires c.trend.Up? && (c.up.Some? ==> c.up.value <= 5.0)
    ensures var r := Supertrend.Step(inputs, candle, prevClose, Some(atr), c);
            && r.1.trend.Up? && r.1.up.Some? && r.1.up.value <= 5.0
            && Projected(r.0, "trend") == Some(StringValue("up"))
  {
    FlatSource(candle, 5.0, inputs.source);
    Bands(inputs.multiplier, atr);
  }

  /**
   A bar at 5 turns down a trend whose bands were both at 10, and leaves it down while the upper band is not below 5.
   */
  lemma DownStep(inputs: Supertrend.Inputs, candle: Candle, prevClose: Option<real>, atr: real, c: Supertrend.Carry)
    requires FlatAt(candle, 5.0) && atr >= 0.0 && inputs.multiplier >= 0.0
    requires || (c.trend.Down? && c.dn.Some? && c.dn.value >= 5.0)
             || (c == Supertrend.Carry(Some(10.0), Some(10.0), Supertrend.Up) && prevClose == Some(10.0))
    ensures var r := Supertrend.Step(inputs, candle, prevClose, Some(atr), c);
            && r.1.trend.Down? && r.1.dn.Some? && r.1.dn.value >= 5.0
            && Projected(r.0, "trend") == Some(StringValue("down"))
  {
    FlatSource(candle, 5.0, inputs.source);
    Bands(inputs.multiplier, atr);
  }

  lemma StepAtIs(s: seq<Candle>, i: nat, inputs: Supertrend.Inputs, atr: real)
    requires i < |s| && inputs.atrPeriod >= 1
    requires Supertrend.Atr(s, i, inputs.atrPeriod, inputs.atrMethod) == Some(atr)
    ensures var r := Supertrend.Step(inputs, s[i], Supertrend.PrevClose(s, i), Some(atr),
                                     Supertrend.CarryInto(s, i, inputs));
            && Supertrend.CarryInto(s, i + 1, inputs) == r.1 && Supertrend.SupertrendRow(s, i, inputs) == r.0
  {
    hide Supertrend.Step, Supertrend.Atr;
  }

  /** Over the drop the whole-history trend is down on every bar at 5. */
  lemma {:induction false} DropGoesDown(k: nat, i: nat, inputs: Supertrend.Inputs)
    requires inputs.atrPeriod >= 1 && inputs.multiplier >= 0.0 && inputs.atrPeriod <= i < k
    ensures var s := Drop(inputs.atrPeriod, k);
            var c := Supertrend.CarryInto(s, i + 1, inputs);
            && c.trend.Down? && c.dn.Some? && c.dn.value >= 5.0
            && Projected(Supertrend.SupertrendRow(s, i, inputs), "trend") == Some(StringValue("down"))
  {
    hide Supertrend.CarryInto, Supertrend.SupertrendRow, Supertrend.Step, Supertrend.Atr, Projected;
    var s, n := Drop(inputs.atrPeriod, k), inputs.atrPeriod;
    if i == n {
      ColdCarry(s, n - 1, inputs);
      FlatAtr(s, n - 1, inputs);
      StepAtIs(s, n - 1, inputs, 0.0);
      SeedStep(inputs, s[n - 1], Supertrend.PrevClose(s, n - 1));
    } else {
      DropGoesDown(k, i - 1, inputs);
    }
    FlatAtr(s, i, inputs);
    var atr := Supertrend.Atr(s, i, n, inputs.atrMethod).value;
    StepAtIs(s, i, inputs, atr);
    DownStep(inputs, s[i], Supertrend.PrevClose(s, i), atr, Supertrend.CarryInto(s, i, inputs));
  }

  /** A page of the drop that misses its first bar sees its first average at 5, and so stays up. */
  lemma {:induction false} PageStaysUp(page: seq<Candle>, i: nat, inputs: Supertrend.Inputs)
    requires inputs.atrPeriod >= 1 && inputs.multiplier >= 0.0 && inputs.atrPeriod <= i + 1 <= |page|
    requires forall j :: 0 <= j < |page| ==> FlatAt(page[j], 5.0) || FlatAt(page[j], 10.0)
    requires forall j :: inputs.atrPeriod - 1 <= j < |page| ==> FlatAt(page[j], 5.0)
    ensures var c := Supertrend.CarryInto(page, i + 1, inputs);
            && c.trend.Up? && c.up.Some? && c.up.value <= 5.0
            && Projected(Supertrend.SupertrendRow(page, i, inputs), "trend") == Some(StringValue("up"))
  {
    hide Supertrend.CarryInto, Supertrend.SupertrendRow, Supertrend.Step, Supertrend.Atr, Projected;
    if i + 1 == inputs.atrPeriod {
      ColdCarry(page, i, inputs);
    } else {
      PageStaysUp(page, i - 1, inputs);
    }
    FlatAtr(page, i, inputs);
    var atr := Supertrend.Atr(page, i, inputs.atrPeriod, inputs.atrMethod).value;
    StepAtIs(page, i, inputs, atr);
    UpStep(inputs, page[i], Supertrend.PrevClose(page, i), atr, Supertrend.CarryInto(page, i, inputs));
  }

  lemma LastPoint(rows: seq<Row>, stateKey: string)
    requires rows != [] && Projected(rows[|rows| - 1], stateKey).Some?
    ensures var points := ProjectRows(rows, stateKey);
            points != [] && points[|points| - 1].value == Projected(rows[|rows| - 1], stateKey).value
  {
  }

  /** The newest trend of the whole history is down; the newest page recomputes it as up. */
  lemma NewestTrends(inputs: Supertrend.Inputs, k: nat, pageSize: int)
    requires inputs.atrPeriod >= 1 && inputs.multiplier >= 0.0 && pageSize > 0 && k > pageSize + inputs.atrPeriod
    ensures var ind, s := SupertrendOf(inputs), Drop(inputs.atrPeriod, k);
            && Projected(ind.RowAt(s, k - 1), "trend") == Some(StringValue("down"))
            && Projected(ind.RowAt(s[InputStart(ind, k - pageSize)..k], pageSize + inputs.atrPeriod - 1), "trend")
               == Some(StringValue("up"))
  {
    hide Supertrend.CarryInto, Supertrend.SupertrendRow, Projected;
    var ind, s := SupertrendOf(inputs), Drop(inputs.atrPeriod, k);
    DropGoesDown(k, k - 1, inputs);
    PageStaysUp(s[InputStart(ind, k - pageSize)..k], pageSize + inputs.atrPeriod - 1, inputs);
  }

  lemma DropResolves(n: nat, k: nat, inputs: Supertrend.Inputs)
    ensures forall c :: c in Drop(n, k) ==> SupertrendOf(inputs).Resolves(c)
  {
    forall c | c in Drop(n, k) ensures SupertrendOf(inputs).Resolves(c) {
      FlatSource(c, c.open, inputs.source);
    }
  }

  lemma LongHistoryDisagrees(inputs: Supertrend.Inputs, k: nat, pageSize: int)
    requires inputs.atrPeriod >= 1 && inputs.multiplier >= 0.0 && pageSize > 0 && k > pageSize + inputs.atrPeriod
    ensures var ind, s := SupertrendOf(inputs), Drop(inputs.atrPeriod, k);
            && Ascending(s) && CountBelow(s, At(k)) == k && ind.Compute(Earlier(s, At(k))).Rows?
            && PagedPoints(ind, s, k, pageSize, "trend") != IndicatorPoints(ind, s, "trend", k)
  {
    hide Supertrend.SupertrendRow, ProjectRows, Projected, ResolveSource;
    var ind, s := SupertrendOf(inputs), Drop(inputs.atrPeriod, k);
    NewestTrends(inputs, k, pageSize);
    DropResolves(inputs.atrPeriod, k, inputs);
    CountIsPrefix(s, At(k), k);
    EarlierIsPrefix(s, At(k));
    assert s[..k] == s;
    ResolvingNeverThrows(ind, s);
    LastPoint(RowsOf(ind, s), "trend");
    assert IndicatorPoints(ind, s, "trend", k)[0].value == StringValue("down");
    ResolvingNeverThrows(ind, s[InputStart(ind, k - pageSize)..k]);
    LastPoint(PageRows(ind, s, k - pageSize, k), "trend");
    assert PagedPoints(ind, s, k, pageSize, "trend")[0].value == StringValue("up");
  }

  /** Paging agrees with the whole-history compute on every history of `k` candles below the bound. */
  ghost predicate AgreesOn(ind: Indicator, k: nat, pageSize: int, stateKey: string)
    requires ind.Warmup() >= 1 && pageSize > 0
  {
    forall s: seq<Candle>, before: int {:trigger IndicatorPoints(ind, s, stateKey, before)} ::
      Ascending(s) && CountBelow(s, At(before)) == k && ind.Compute(Earlier(s, At(before))).Rows? ==>
        PagedPoints(ind, s, k, pageSize, stateKey) == IndicatorPoints(ind, s, stateKey, before)
  }

  /** A windowed indicator's paged walk agrees on every history, for every page size. */
  lemma WindowedAgrees(ind: Indicator, k: nat, pageSize: int, stateKey: string)
    requires Windowed(ind) && ind.Warmup() >= 1 && pageSize > 0
    ensures AgreesOn(ind, k, pageSize, stateKey)
  {
    hide PagedPoints, IndicatorPoints, Indicator.Compute;
    forall s: seq<Candle>, before: int | Ascending(s) && CountBelow(s, At(before)) == k
        && ind.Compute(Earlier(s, At(before))).Rows?
      ensures PagedPoints(ind, s, k, pageSize, stateKey) == IndicatorPoints(ind, s, stateKey, before)
    {
      PagedIsWholeHistory(ind, s, before, pageSize, stateKey);
    }
  }

  /**
   Supertrend's does not: for any inputs it agrees on all histories exactly when they fit in one page and its warm-up.
   */
  lemma SupertrendAgreesExactly(inputs: Supertrend.Inputs, k: nat, pageSize: int)
    requires inputs.atrPeriod >= 1 && inputs.multiplier >= 0.0 && pageSize > 0
    ensures AgreesOn(SupertrendOf(inputs), k, pageSize, "trend") <==> k <= pageSize + inputs.atrPeriod
  {
    hide PagedPoints, IndicatorPoints, Indicator.Compute;
    var ind := SupertrendOf(inputs);
    if k <= pageSize + inputs.atrPeriod {
      forall s: seq<Candle>, before: int | Ascending(s) && CountBelow(s, At(before)) == k
          && ind.Compute(Earlier(s, At(before))).Rows?
        ensures PagedPoints(ind, s, k, pageSize, "trend") == IndicatorPoints(ind, s, "trend", before)
      {
        PagedIsWholeHistory(ind, s, before, pageSize, "trend");
      }
    } else {
      LongHistoryDisagrees(inputs, k, pageSize);
    }
  }

  /** For a windowed indicator no page size changes what a walk yields. */
  lemma PageSizeIrrelevant(ind: Indicator, s: seq<Candle>, before: int, pageSize: int, other: int, stateKey: string)
    requires Ascending(s) && Windowed(ind) && ind.Warmup() >= 1 && pageSize > 0 && other > 0
    requires ind.Compute(Earlier(s, At(before))).Rows?
    ensures PagedPoints(ind, s, CountBelow(s, At(before)), pageSize, stateKey)
         == PagedPoints(ind, s, CountBelow(s, At(before)), other, stateKey)
  {
    hide PagedPoints, IndicatorPoints, Indicator.Compute;
    PagedIsWholeHistory(ind, s, before, pageSize, stateKey);
    PagedIsWholeHistory(ind, s, before, other, stateKey);
  }
}
