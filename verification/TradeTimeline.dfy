/**
 When trades open and close. A run is flattened into the atoms the executor reacts to, and its trades
 are shown to be exactly those of a declarative first-entry, first-exit reading of the atoms.
 */
module TradeTimeline {
  import opened Candles
  import opened Executor
  import opened Money

  /** What the executor reacts to: the level check that opens a step, or one symbol-scoped state write. */
  datatype Atom =
    | Check(step: nat, candle: Candle, ts: int)
    | Observe(step: nat, key: string, value: StateValue, price: real, ts: int)

  function Observations(step: nat, events: seq<RuleEvent>, price: real, ts: int): seq<Atom> {
    if events == [] then []
    else
      var before := Observations(step, events[..|events| - 1], price, ts);
      var e := events[|events| - 1];
      if e.StateSet? && e.scope.SymbolScope? then before + [Observe(step, e.key, e.value, price, ts)] else before
  }

  function StepAtoms(k: nat, step: Step): seq<Atom> {
    [Check(k, step.candle, step.closeTime)] + Observations(k, step.events, step.candle.close, step.closeTime)
  }

  /** Every atom of a run: each step's level check, then its symbol-scoped writes in emission order. */
  function AtomsOf(steps: seq<Step>): seq<Atom> {
    if steps == [] then [] else AtomsOf(steps[..|steps| - 1]) + StepAtoms(|steps| - 1, steps[|steps| - 1])
  }

  function OnAtom(cfg: Config, st: State, atom: Atom): State {
    match atom
    case Check(_, candle, ts) => OnCheck(cfg, st, candle, ts)
    case Observe(_, key, value, price, ts) => OnEvent(cfg, st, StateSet(SymbolScope, key, value), price, ts)
  }

  /** The executor's state before atom `i`. */
  function StateAt(cfg: Config, atoms: seq<Atom>, i: nat): State
    requires i <= |atoms|
  {
    if i == 0 then Initial(cfg) else OnAtom(cfg, StateAt(cfg, atoms, i - 1), atoms[i - 1])
  }

  lemma {:induction false} StateAtPrefix(cfg: Config, a: seq<Atom>, b: seq<Atom>, i: nat)
    requires i <= |a|
    ensures StateAt(cfg, a + b, i) == StateAt(cfg, a, i)
  {
    hide OnAtom;
    if i > 0 { StateAtPrefix(cfg, a, b, i - 1); }
  }

  lemma {:induction false} EventsAreAtoms(cfg: Config, before: seq<Atom>, step: nat, events: seq<RuleEvent>,
                                          price: real, ts: int)
    ensures var atoms := before + Observations(step, events, price, ts);
            StateAt(cfg, atoms, |atoms|) == OnEvents(cfg, StateAt(cfg, before, |before|), events, price, ts)
  {
    hide OnEvent, OnCheck;
    if events == [] {
      assert before + Observations(step, events, price, ts) == before;
    } else {
      var front := events[..|events| - 1];
      var e := events[|events| - 1];
      EventsAreAtoms(cfg, before, step, front, price, ts);
      var atoms := before + Observations(step, front, price, ts);
      SkippedEvent(cfg, StateAt(cfg, atoms, |atoms|), e, price, ts);
      if e.StateSet? && e.scope.SymbolScope? {
        var last := [Observe(step, e.key, e.value, price, ts)];
        assert before + Observations(step, events, price, ts) == atoms + last;
        StateAtPrefix(cfg, atoms, last, |atoms|);
      }
    }
  }

  lemma SkippedEvent(cfg: Config, st: State, e: RuleEvent, price: real, ts: int)
    ensures !(e.StateSet? && e.scope.SymbolScope?) ==> OnEvent(cfg, st, e, price, ts) == st
    ensures e.StateSet? && e.scope.SymbolScope? ==> e == StateSet(SymbolScope, e.key, e.value)
  {
  }

  /** Processing a run step by step is processing its atoms one by one. */
  lemma {:induction false} RunIsAtoms(cfg: Config, steps: seq<Step>)
    ensures Run(cfg, steps) == StateAt(cfg, AtomsOf(steps), |AtomsOf(steps)|)
  {
    hide OnStep, StepAtoms, OnAtom;
    if steps != [] {
      var k := |steps| - 1;
      RunIsAtoms(cfg, steps[..k]);
      StepIsAtoms(cfg, AtomsOf(steps[..k]), k, steps[k]);
    }
  }

  lemma StepIsAtoms(cfg: Config, before: seq<Atom>, k: nat, step: Step)
    ensures var atoms := before + StepAtoms(k, step);
            StateAt(cfg, atoms, |atoms|) == OnStep(cfg, StateAt(cfg, before, |before|), step)
  {
    hide OnEvents, OnEvent, OnCheck, Observations;
    var check := [Check(k, step.candle, step.closeTime)];
    StateAtPrefix(cfg, before, check, |before|);
    EventsAreAtoms(cfg, before + check, k, step.events, step.candle.close, step.closeTime);
    assert before + check + Observations(k, step.events, step.candle.close, step.closeTime)
        == before + StepAtoms(k, step);
  }

  // ---- the declarative reading ----

  /** The newest value written to `key` among atoms `[c, i)`. */
  ghost function LastSeen(atoms: seq<Atom>, c: nat, i: nat, key: string): Option<StateValue>
    requires c <= i <= |atoms|
    decreases i
  {
    if i == c then None
    else if atoms[i - 1].Observe? && atoms[i - 1].key == key then Some(atoms[i - 1].value)
    else LastSeen(atoms, c, i - 1, key)
  }

  /** Atom `i` writes a value that differs from the last one written to its key since atom `c`. */
  ghost predicate Changes(atoms: seq<Atom>, c: nat, i: nat)
    requires c <= i < |atoms|
  {
    atoms[i].Observe? && LastSeen(atoms, c, i, atoms[i].key) != Some(atoms[i].value)
  }

  /** Atom `i` is an entry opportunity, flat since atom `c`. */
  ghost predicate Enters(cfg: Config, atoms: seq<Atom>, c: nat, i: nat)
    requires c <= i < |atoms|
  {
    Changes(atoms, c, i) && atoms[i].key == cfg.entry.key && atoms[i].value == cfg.entry.value
  }

  /** What atom `i` offers a position entered at atom `e` after a close just before atom `c`: a fill, or nothing. */
  ghost function ExitAt(cfg: Config, atoms: seq<Atom>, c: nat, e: nat, i: nat): Option<(real, ExitReason)>
    requires c <= e < i < |atoms| && atoms[e].Observe?
  {
    match atoms[i]
    case Check(_, candle, _) => LevelExit(cfg.exit, atoms[e].price, candle)
    case Observe(_, key, value, price, _) =>
      if Changes(atoms, c, i) && cfg.exit.signal == Some(Signal(key, value))
      then Some((price, BySignal))
      else None
  }

  ghost predicate EntersFirst(cfg: Config, atoms: seq<Atom>, c: nat, e: nat) {
    && c <= e < |atoms| && Enters(cfg, atoms, c, e)
    && forall j :: c <= j < e ==> !Enters(cfg, atoms, c, j)
  }

  ghost predicate NoExit(cfg: Config, atoms: seq<Atom>, c: nat, e: nat, i: nat)
    requires c <= e < i <= |atoms| && atoms[e].Observe?
  {
    forall j :: e < j < i ==> ExitAt(cfg, atoms, c, e, j).None?
  }

  /** From a flat start at `c`: the first entry is at atom `e`, and the first exit after it at atom `x`. */
  ghost predicate RoundTrip(cfg: Config, atoms: seq<Atom>, c: nat, e: nat, x: nat) {
    && EntersFirst(cfg, atoms, c, e)
    && e < x < |atoms|
    && ExitAt(cfg, atoms, c, e, x).Some?
    && NoExit(cfg, atoms, c, e, x)
  }

  datatype Trip = Trip(entry: nat, exit: nat)

  /** The first atom after the first `k` round trips. */
  ghost function StartOf(trips: seq<Trip>, k: nat): nat
    requires k <= |trips|
  {
    if k == 0 then 0 else trips[k - 1].exit + 1
  }

  ghost predicate Timeline(cfg: Config, atoms: seq<Atom>, trips: seq<Trip>) {
    forall k :: 0 <= k < |trips| ==> RoundTrip(cfg, atoms, StartOf(trips, k), trips[k].entry, trips[k].exit)
  }

  /** The trade a round trip books, spending the whole `equity`. */
  ghost function TradeOf(cfg: Config, atoms: seq<Atom>, equity: real, c: nat, e: nat, x: nat): Trade
    requires RoundTrip(cfg, atoms, c, e, x)
  {
    var fill := ExitAt(cfg, atoms, c, e, x).value;
    TradeFor(cfg, LotFor(cfg, equity, atoms[e].ts, atoms[e].price), atoms[x].ts, fill.0, fill.1)
  }

  ghost predicate Recorded(cfg: Config, atoms: seq<Atom>, trips: seq<Trip>, trades: seq<Trade>) {
    && Timeline(cfg, atoms, trips)
    && |trades| == |trips|
    && forall k :: 0 <= k < |trips| ==>
         trades[k] == TradeOf(cfg, atoms, EquityBefore(cfg, trades, k), StartOf(trips, k), trips[k].entry,
                              trips[k].exit)
  }

  /** No further round trip completes after `trips`. */
  ghost predicate Complete(cfg: Config, atoms: seq<Atom>, trips: seq<Trip>) {
    forall e, x :: !RoundTrip(cfg, atoms, StartOf(trips, |trips|), e, x)
  }

  // ---- every run follows the reading ----

  ghost function ValueOf(values: map<string, StateValue>, key: string): Option<StateValue> {
    if key in values then Some(values[key]) else None
  }

  ghost predicate Remembers(values: map<string, StateValue>, atoms: seq<Atom>, c: nat, i: nat)
    requires c <= i <= |atoms|
  {
    forall key :: ValueOf(values, key) == LastSeen(atoms, c, i, key)
  }

  ghost predicate Flat(cfg: Config, atoms: seq<Atom>, c: nat, i: nat)
    requires c <= i <= |atoms|
  {
    forall j :: c <= j < i ==> !Enters(cfg, atoms, c, j)
  }

  /** The lot held since the first entry at `e`, bought with the whole `equity`. */
  ghost predicate Holds(cfg: Config, atoms: seq<Atom>, c: nat, e: nat, i: nat, st: State)
    requires c <= i <= |atoms|
  {
    && e < i && EntersFirst(cfg, atoms, c, e) && NoExit(cfg, atoms, c, e, i)
    && st.position == Some(LotFor(cfg, st.equity, atoms[e].ts, atoms[e].price))
  }

  /** Before atom `i` the executor is flat, or holds the first entry, since atom `c`. */
  ghost predicate Watching(cfg: Config, atoms: seq<Atom>, c: nat, open: Option<nat>, i: nat, st: State) {
    && c <= i <= |atoms|
    && Remembers(st.lastValues, atoms, c, i)
    && (if open.None? then st.position.None? && Flat(cfg, atoms, c, i) else Holds(cfg, atoms, c, open.value, i, st))
  }

  /** An observation changes a value exactly when the executor sees a transition; either way it is remembered. */
  lemma Observed(st: State, atoms: seq<Atom>, c: nat, i: nat)
    requires c <= i < |atoms| && Remembers(st.lastValues, atoms, c, i)
    ensures atoms[i].Observe? ==>
              && IsTransition(st, atoms[i].key, atoms[i].value) == Changes(atoms, c, i)
              && Remembers(st.lastValues[atoms[i].key := atoms[i].value], atoms, c, i + 1)
    ensures atoms[i].Check? ==> Remembers(st.lastValues, atoms, c, i + 1)
  {
    if atoms[i].Observe? {
      assert ValueOf(st.lastValues, atoms[i].key) == LastSeen(atoms, c, i, atoms[i].key);
      var values := st.lastValues[atoms[i].key := atoms[i].value];
      forall key ensures ValueOf(values, key) == LastSeen(atoms, c, i + 1, key) {
        assert ValueOf(st.lastValues, key) == LastSeen(atoms, c, i, key);
      }
    } else {
      forall key ensures ValueOf(st.lastValues, key) == LastSeen(atoms, c, i + 1, key) {
        assert ValueOf(st.lastValues, key) == LastSeen(atoms, c, i, key);
      }
    }
  }

  lemma FlatStep(cfg: Config, atoms: seq<Atom>, c: nat, i: nat, st: State)
    requires i < |atoms| && Watching(cfg, atoms, c, None, i, st)
    ensures var st' := OnAtom(cfg, st, atoms[i]);
            && st'.trades == st.trades && st'.equity == st.equity
            && Watching(cfg, atoms, c, if Enters(cfg, atoms, c, i) then Some(i) else None, i + 1, st')
  {
    hide LotFor, Remembers, Changes, IsTransition, LastSeen, LevelExit;
    Observed(st, atoms, c, i);
    var st' := OnAtom(cfg, st, atoms[i]);
    if Enters(cfg, atoms, c, i) {
      EntryObserves(cfg, atoms, c, i);
      assert Holds(cfg, atoms, c, i, i + 1, st');
    } else {
      assert Flat(cfg, atoms, c, i + 1);
    }
  }

  lemma HeldStep(cfg: Config, atoms: seq<Atom>, c: nat, e: nat, i: nat, st: State)
    requires i < |atoms| && Watching(cfg, atoms, c, Some(e), i, st)
    requires ExitAt(cfg, atoms, c, e, i).None?
    ensures var st' := OnAtom(cfg, st, atoms[i]);
            && st'.trades == st.trades && st'.equity == st.equity
            && Watching(cfg, atoms, c, Some(e), i + 1, st')
  {
    hide LotFor, Remembers, Changes, IsTransition, LastSeen, Enters, EntersFirst, LevelExit;
    Observed(st, atoms, c, i);
    EntryObserves(cfg, atoms, c, e);
    LotPrice(cfg, st.equity, atoms[e].ts, atoms[e].price);
  }

  lemma ClosedStep(cfg: Config, atoms: seq<Atom>, c: nat, e: nat, i: nat, st: State)
    requires i < |atoms| && Watching(cfg, atoms, c, Some(e), i, st)
    requires ExitAt(cfg, atoms, c, e, i).Some?
    ensures RoundTrip(cfg, atoms, c, e, i)
    ensures var st' := OnAtom(cfg, st, atoms[i]);
            var trade := TradeOf(cfg, atoms, st.equity, c, e, i);
            && st'.trades == st.trades + [trade] && st'.equity == st.equity + trade.pnl
            && Watching(cfg, atoms, i + 1, None, i + 1, st')
  {
    hide LotFor, TradeFor, Remembers, Changes, IsTransition, LastSeen, Enters, EntersFirst, LevelExit;
    Observed(st, atoms, c, i);
    EntryObserves(cfg, atoms, c, e);
    LotPrice(cfg, st.equity, atoms[e].ts, atoms[e].price);
    NothingRemembered(atoms, i + 1);
  }

  lemma EntryObserves(cfg: Config, atoms: seq<Atom>, c: nat, e: nat)
    requires EntersFirst(cfg, atoms, c, e)
    ensures c <= e < |atoms| && atoms[e].Observe?
  {
  }

  lemma LotPrice(cfg: Config, equity: real, ts: int, price: real)
    ensures LotFor(cfg, equity, ts, price).entryPrice == price
  {
  }

  lemma NothingRemembered(atoms: seq<Atom>, i: nat)
    requires i <= |atoms|
    ensures Remembers(map[], atoms, i, i)
  {
  }

  /** Booking one more round trip. */
  lemma RecordOne(cfg: Config, atoms: seq<Atom>, trips: seq<Trip>, trades: seq<Trade>, e: nat, x: nat)
    requires Recorded(cfg, atoms, trips, trades)
    requires RoundTrip(cfg, atoms, StartOf(trips, |trips|), e, x)
    ensures var trade := TradeOf(cfg, atoms, EquityBefore(cfg, trades, |trades|), StartOf(trips, |trips|), e, x);
            Recorded(cfg, atoms, trips + [Trip(e, x)], trades + [trade])
  {
    hide RoundTrip, TradeOf, SumPnl;
    var c := StartOf(trips, |trips|);
    var trades' := trades + [TradeOf(cfg, atoms, EquityBefore(cfg, trades, |trades|), c, e, x)];
    var trips' := trips + [Trip(e, x)];
    forall k | 0 <= k <= |trips|
      ensures StartOf(trips', k) == StartOf(trips, k) && EquityBefore(cfg, trades', k) == EquityBefore(cfg, trades, k)
    {
      assert trades'[..k] == trades[..k];
    }
  }

  /** The trades booked before atom `i` are those of `trips`, and the executor is watching from their end. */
  ghost predicate Follows(cfg: Config, atoms: seq<Atom>, trips: seq<Trip>, open: Option<nat>, i: nat, st: State) {
    && Recorded(cfg, atoms, trips, st.trades)
    && Watching(cfg, atoms, StartOf(trips, |trips|), open, i, st)
    && st.equity == EquityBefore(cfg, st.trades, |st.trades|)
  }

  lemma CloseFollows(cfg: Config, atoms: seq<Atom>, trips: seq<Trip>, e: nat, i: nat, st: State)
    requires i < |atoms| && Follows(cfg, atoms, trips, Some(e), i, st)
    requires StartOf(trips, |trips|) <= e < i && atoms[e].Observe?
    requires ExitAt(cfg, atoms, StartOf(trips, |trips|), e, i).Some?
    ensures Follows(cfg, atoms, trips + [Trip(e, i)], None, i + 1, OnAtom(cfg, st, atoms[i]))
  {
    hide OnAtom, Watching, Recorded, RoundTrip, EquityBefore, ExitAt, TradeOf;
    var c := StartOf(trips, |trips|);
    ClosedStep(cfg, atoms, c, e, i, st);
    var trade := TradeOf(cfg, atoms, st.equity, c, e, i);
    RecordedLengths(cfg, atoms, trips, st.trades);
    RecordOne(cfg, atoms, trips, st.trades, e, i);
    EquityAfter(cfg, st.trades, trade);
    assert StartOf(trips + [Trip(e, i)], |trips| + 1) == i + 1;
  }

  lemma QuietFollows(cfg: Config, atoms: seq<Atom>, trips: seq<Trip>, open: Option<nat>, open': Option<nat>, i: nat,
                     st: State, st': State)
    requires Follows(cfg, atoms, trips, open, i, st)
    requires st'.trades == st.trades && st'.equity == st.equity
    requires Watching(cfg, atoms, StartOf(trips, |trips|), open', i + 1, st')
    ensures Follows(cfg, atoms, trips, open', i + 1, st')
  {
    hide Watching, Recorded, EquityBefore, StartOf;
  }

  lemma FollowStep(cfg: Config, atoms: seq<Atom>, trips: seq<Trip>, open: Option<nat>, i: nat, st: State)
    returns (trips': seq<Trip>, open': Option<nat>)
    requires i < |atoms| && Follows(cfg, atoms, trips, open, i, st)
    ensures Follows(cfg, atoms, trips', open', i + 1, OnAtom(cfg, st, atoms[i]))
  {
    hide OnAtom, Watching, Recorded, RoundTrip, EquityBefore, Enters, ExitAt, StartOf;
    var c := StartOf(trips, |trips|);
    WatchingBounds(cfg, atoms, c, open, i, st);
    trips', open' := trips, open;
    var st' := OnAtom(cfg, st, atoms[i]);
    if open.None? {
      FlatStep(cfg, atoms, c, i, st);
      open' := if Enters(cfg, atoms, c, i) then Some(i) else None;
      QuietFollows(cfg, atoms, trips, open, open', i, st, st');
    } else if ExitAt(cfg, atoms, c, open.value, i).None? {
      HeldStep(cfg, atoms, c, open.value, i, st);
      QuietFollows(cfg, atoms, trips, open, open', i, st, st');
    } else {
      CloseFollows(cfg, atoms, trips, open.value, i, st);
      trips', open' := trips + [Trip(open.value, i)], None;
    }
  }

  /** Before every atom, the trades so far are those of the round trips completed so far. */
  lemma {:induction false} RunFollows(cfg: Config, atoms: seq<Atom>, i: nat)
    returns (trips: seq<Trip>, open: Option<nat>)
    requires i <= |atoms|
    ensures Follows(cfg, atoms, trips, open, i, StateAt(cfg, atoms, i))
  {
    hide OnAtom, Follows, Watching;
    if i == 0 {
      trips, open := [], None;
      FollowsFromStart(cfg, atoms);
    } else {
      trips, open := RunFollows(cfg, atoms, i - 1);
      trips, open := FollowStep(cfg, atoms, trips, open, i - 1, StateAt(cfg, atoms, i - 1));
    }
  }

  lemma FollowsFromStart(cfg: Config, atoms: seq<Atom>)
    ensures Follows(cfg, atoms, [], None, 0, Initial(cfg))
  {
    NothingRemembered(atoms, 0);
  }

  lemma WatchingBounds(cfg: Config, atoms: seq<Atom>, c: nat, open: Option<nat>, i: nat, st: State)
    requires Watching(cfg, atoms, c, open, i, st)
    ensures c <= i <= |atoms|
    ensures open.Some? ==> c <= open.value < i && atoms[open.value].Observe?
  {
  }

  lemma RecordedLengths(cfg: Config, atoms: seq<Atom>, trips: seq<Trip>, trades: seq<Trade>)
    requires Recorded(cfg, atoms, trips, trades)
    ensures |trades| == |trips|
  {
  }

  lemma EquityAfter(cfg: Config, trades: seq<Trade>, t: Trade)
    ensures EquityBefore(cfg, trades + [t], |trades| + 1) == EquityBefore(cfg, trades, |trades|) + t.pnl
  {
    SumPnlAppend(trades, t);
    assert (trades + [t])[..|trades| + 1] == trades + [t];
    assert trades[..|trades|] == trades;
  }

  // ---- the reading determines the run ----

  lemma RoundTripUnique(cfg: Config, atoms: seq<Atom>, c: nat, e: nat, x: nat, e': nat, x': nat)
    requires RoundTrip(cfg, atoms, c, e, x) && RoundTrip(cfg, atoms, c, e', x')
    ensures e == e' && x == x'
  {
    hide Enters, ExitAt;
    FirstEntryUnique(cfg, atoms, c, e, e');
  }

  lemma {:induction false} TimelinesAgree(cfg: Config, atoms: seq<Atom>, a: seq<Trip>, b: seq<Trip>, k: nat)
    requires Timeline(cfg, atoms, a) && Timeline(cfg, atoms, b)
    requires k <= |a| && k <= |b|
    ensures a[..k] == b[..k]
  {
    hide *;
    if k > 0 {
      TimelinesAgree(cfg, atoms, a, b, k - 1);
      TripAt(cfg, atoms, a, k - 1);
      TripAt(cfg, atoms, b, k - 1);
      SameStart(a, b, k - 1);
      RoundTripUnique(cfg, atoms, StartOf(a, k - 1), a[k - 1].entry, a[k - 1].exit, b[k - 1].entry, b[k - 1].exit);
      assert a[..k] == a[..k - 1] + [a[k - 1]];
      assert b[..k] == b[..k - 1] + [b[k - 1]];
    }
  }

  lemma TripAt(cfg: Config, atoms: seq<Atom>, trips: seq<Trip>, k: nat)
    requires Timeline(cfg, atoms, trips) && k < |trips|
    ensures RoundTrip(cfg, atoms, StartOf(trips, k), trips[k].entry, trips[k].exit)
  {
    hide RoundTrip, StartOf;
  }

  lemma SameStart(a: seq<Trip>, b: seq<Trip>, k: nat)
    requires k <= |a| && k <= |b| && a[..k] == b[..k]
    ensures StartOf(a, k) == StartOf(b, k)
  {
    assert k > 0 ==> a[..k][k - 1] == b[..k][k - 1];
  }

  lemma NoMoreTrips(cfg: Config, atoms: seq<Atom>, a: seq<Trip>, b: seq<Trip>)
    requires Timeline(cfg, atoms, a) && Timeline(cfg, atoms, b) && Complete(cfg, atoms, a)
    ensures |b| <= |a|
  {
    hide RoundTrip;
    if |a| < |b| {
      var next := b[|a|];
      assert RoundTrip(cfg, atoms, StartOf(b, |a|), next.entry, next.exit);
      TimelinesAgree(cfg, atoms, a, b, |a|);
      SameStart(a, b, |a|);
    }
  }

  /** There is only one complete sequence of round trips. */
  lemma CompleteTimelineUnique(cfg: Config, atoms: seq<Atom>, a: seq<Trip>, b: seq<Trip>)
    requires Timeline(cfg, atoms, a) && Complete(cfg, atoms, a)
    requires Timeline(cfg, atoms, b) && Complete(cfg, atoms, b)
    ensures a == b
  {
    hide *;
    NoMoreTrips(cfg, atoms, a, b);
    NoMoreTrips(cfg, atoms, b, a);
    TimelinesAgree(cfg, atoms, a, b, |a|);
    assert a == a[..|a|] && b == b[..|b|];
  }

  lemma {:induction false} TradesAgree(cfg: Config, atoms: seq<Atom>, trips: seq<Trip>, a: seq<Trade>, b: seq<Trade>,
                                       k: nat)
    requires Recorded(cfg, atoms, trips, a) && Recorded(cfg, atoms, trips, b) && k <= |trips|
    ensures |a| == |b| == |trips| && a[..k] == b[..k]
  {
    hide *;
    RecordedLengths(cfg, atoms, trips, a);
    RecordedLengths(cfg, atoms, trips, b);
    if k > 0 {
      TradesAgree(cfg, atoms, trips, a, b, k - 1);
      NextTradeAgrees(cfg, atoms, trips, a, b, k - 1);
      assert a[..k] == a[..k - 1] + [a[k - 1]];
      assert b[..k] == b[..k - 1] + [b[k - 1]];
    }
  }

  lemma NextTradeAgrees(cfg: Config, atoms: seq<Atom>, trips: seq<Trip>, a: seq<Trade>, b: seq<Trade>, k: nat)
    requires Recorded(cfg, atoms, trips, a) && Recorded(cfg, atoms, trips, b) && k < |trips|
    requires k <= |a| && k <= |b| && a[..k] == b[..k]
    ensures k < |a| && k < |b| && a[k] == b[k]
  {
    hide TradeOf, RoundTrip, SumPnl;
    assert EquityBefore(cfg, a, k) == EquityBefore(cfg, b, k);
  }

  lemma FinishedRun(cfg: Config, atoms: seq<Atom>, trips: seq<Trip>, open: Option<nat>, st: State)
    requires Follows(cfg, atoms, trips, open, |atoms|, st)
    ensures Complete(cfg, atoms, trips)
    ensures st.position.Some? <==> exists e :: EntersFirst(cfg, atoms, StartOf(trips, |trips|), e)
  {
    hide Recorded, Remembers, EquityBefore, StartOf, Enters, ExitAt, LotFor;
    var c := StartOf(trips, |trips|);
    forall e, x ensures !RoundTrip(cfg, atoms, c, e, x) {
      if open.Some? && RoundTrip(cfg, atoms, c, e, x) { FirstEntryUnique(cfg, atoms, c, open.value, e); }
    }
    if open.Some? { assert EntersFirst(cfg, atoms, c, open.value); }
  }

  lemma FirstEntryUnique(cfg: Config, atoms: seq<Atom>, c: nat, e: nat, e': nat)
    requires EntersFirst(cfg, atoms, c, e) && EntersFirst(cfg, atoms, c, e')
    ensures e == e'
  {
    hide Enters;
  }

  /** The declarative reading of a whole run: a complete timeline of round trips, booked one after the other. */
  ghost predicate FirstExits(cfg: Config, atoms: seq<Atom>, trips: seq<Trip>, trades: seq<Trade>) {
    Recorded(cfg, atoms, trips, trades) && Complete(cfg, atoms, trips)
  }

  /** A run's trades are exactly those of the first-entry, first-exit reading: no other list satisfies it. */
  lemma TradesAreFirstExits(cfg: Config, steps: seq<Step>, trades: seq<Trade>)
    ensures trades == Run(cfg, steps).trades <==> exists trips :: FirstExits(cfg, AtomsOf(steps), trips, trades)
  {
    hide Run, AtomsOf, StateAt, Timeline, TradeOf;
    var atoms := AtomsOf(steps);
    RunIsAtoms(cfg, steps);
    var trips, open := RunFollows(cfg, atoms, |atoms|);
    FinishedRun(cfg, atoms, trips, open, Run(cfg, steps));
    assert FirstExits(cfg, atoms, trips, Run(cfg, steps).trades);
    if other :| FirstExits(cfg, atoms, other, trades) {
      CompleteTimelineUnique(cfg, atoms, trips, other);
      TradesAgree(cfg, atoms, trips, trades, Run(cfg, steps).trades, |trips|);
      assert trades == trades[..|trips|];
    }
  }

  /** A run ends holding a position exactly when some atom after the last round trip enters. */
  lemma OpenAtEnd(cfg: Config, steps: seq<Step>, trips: seq<Trip>)
    requires FirstExits(cfg, AtomsOf(steps), trips, Run(cfg, steps).trades)
    ensures Run(cfg, steps).position.Some? <==> exists e :: EntersFirst(cfg, AtomsOf(steps), StartOf(trips, |trips|), e)
  {
    hide Run, AtomsOf, StateAt, Timeline, TradeOf;
    var atoms := AtomsOf(steps);
    RunIsAtoms(cfg, steps);
    var trips', open := RunFollows(cfg, atoms, |atoms|);
    FinishedRun(cfg, atoms, trips', open, Run(cfg, steps));
    CompleteTimelineUnique(cfg, atoms, trips, trips');
  }

  // ---- a prefix of a run ----

  lemma EventAppends(cfg: Config, st: State, event: RuleEvent, close: real, ts: int)
    ensures st.trades <= OnEvent(cfg, st, event, close, ts).trades
  {
    hide TradeFor, LotFor;
  }

  lemma {:induction false} EventsAppend(cfg: Config, st: State, events: seq<RuleEvent>, close: real, ts: int)
    ensures st.trades <= OnEvents(cfg, st, events, close, ts).trades
  {
    hide OnEvent;
    if events != [] {
      var front := events[..|events| - 1];
      EventsAppend(cfg, st, front, close, ts);
      EventAppends(cfg, OnEvents(cfg, st, front, close, ts), events[|events| - 1], close, ts);
    }
  }

  lemma StepAppends(cfg: Config, st: State, step: Step)
    ensures st.trades <= OnStep(cfg, st, step).trades
  {
    hide OnEvents, TradeFor, LevelExit;
    EventsAppend(cfg, OnCheck(cfg, st, step.candle, step.closeTime), step.events, step.candle.close, step.closeTime);
  }

  /** The trades of a prefix of the steps are a prefix of the whole run's trades. */
  lemma {:induction false} TradesOfPrefix(cfg: Config, steps: seq<Step>, n: nat)
    requires n <= |steps|
    ensures Run(cfg, steps[..n]).trades <= Run(cfg, steps).trades
    decreases |steps|
  {
    hide OnStep;
    if n == |steps| {
      assert steps[..n] == steps;
    } else {
      var front := steps[..|steps| - 1];
      TradesOfPrefix(cfg, front, n);
      assert front[..n] == steps[..n];
      StepAppends(cfg, Run(cfg, front), steps[|steps| - 1]);
    }
  }

  // ---- back to candles and times ----

  /** What the atoms say is what the steps say, in order; a level check opens each step. */
  ghost predicate FromSteps(atoms: seq<Atom>, steps: seq<Step>, n: nat) {
    && n <= |steps|
    && (forall i :: 0 <= i < |atoms| ==> IsAtomOf(atoms[i], steps, n))
    && (forall i, j :: 0 <= i < j < |atoms| ==>
          atoms[i].step <= atoms[j].step && (atoms[j].Check? ==> atoms[i].step < atoms[j].step))
    && (forall s :: 0 <= s < n ==> Checked(atoms, steps, s))
  }

  ghost predicate IsAtomOf(a: Atom, steps: seq<Step>, n: nat)
    requires n <= |steps|
  {
    && a.step < n && a.ts == steps[a.step].closeTime
    && (a.Check? ==> a.candle == steps[a.step].candle)
    && (a.Observe? ==> a.price == steps[a.step].candle.close)
    && (a.Observe? ==> StateSet(SymbolScope, a.key, a.value) in steps[a.step].events)
  }

  ghost predicate Checked(atoms: seq<Atom>, steps: seq<Step>, s: nat)
    requires s < |steps|
  {
    Check(s, steps[s].candle, steps[s].closeTime) in atoms
  }

  lemma {:induction false} ObservationsOfStep(steps: seq<Step>, k: nat, events: seq<RuleEvent>)
    requires k < |steps| && forall e :: e in events ==> e in steps[k].events
    ensures forall a :: a in Observations(k, events, steps[k].candle.close, steps[k].closeTime) ==>
              a.Observe? && a.step == k && IsAtomOf(a, steps, k + 1)
  {
    if events != [] { ObservationsOfStep(steps, k, events[..|events| - 1]); }
  }

  lemma AppendStep(atoms: seq<Atom>, rest: seq<Atom>, steps: seq<Step>, n: nat)
    requires n < |steps| && FromSteps(atoms, steps, n)
    requires forall a :: a in rest ==> a.Observe? && a.step == n && IsAtomOf(a, steps, n + 1)
    ensures FromSteps(atoms + ([Check(n, steps[n].candle, steps[n].closeTime)] + rest), steps, n + 1)
  {
    var check := Check(n, steps[n].candle, steps[n].closeTime);
    var all := atoms + ([check] + rest);
    assert all[|atoms|] == check;
    forall i | 0 <= i < |all| ensures IsAtomOf(all[i], steps, n + 1) && (i > |atoms| ==> all[i] in rest) {
      if i > |atoms| { assert all[i] == rest[i - |atoms| - 1]; }
    }
    forall s | 0 <= s < n + 1 ensures Checked(all, steps, s) {
      if s < n { assert Checked(atoms, steps, s); }
    }
  }

  lemma {:induction false} AtomsFromSteps(steps: seq<Step>, n: nat)
    requires n <= |steps|
    ensures FromSteps(AtomsOf(steps[..n]), steps, n)
  {
    hide Observations, IsAtomOf;
    if n > 0 {
      AtomsFromSteps(steps, n - 1);
      assert steps[..n][..n - 1] == steps[..n - 1];
      ObservationsOfStep(steps, n - 1, steps[n - 1].events);
      AppendStep(AtomsOf(steps[..n - 1]),
                 Observations(n - 1, steps[n - 1].events, steps[n - 1].candle.close, steps[n - 1].closeTime),
                 steps, n - 1);
    }
  }

  lemma RoundTripShape(cfg: Config, atoms: seq<Atom>, c: nat, e: nat, x: nat)
    requires RoundTrip(cfg, atoms, c, e, x)
    ensures c <= e < x < |atoms| && atoms[e].Observe? && Enters(cfg, atoms, c, e) && ExitAt(cfg, atoms, c, e, x).Some?
    ensures forall j :: e < j < x ==> ExitAt(cfg, atoms, c, e, j).None?
  {
    hide ExitAt;
    EntryObserves(cfg, atoms, c, e);
  }

  /** The times, prices and reason a trade takes from its entry and exit atoms. */
  ghost predicate BookedFields(t: Trade, entry: Atom, exit: Atom, fill: (real, ExitReason)) {
    && entry.Observe? && t.entryTs == entry.ts && t.entryPrice == entry.price
    && t.exitTs == exit.ts && t.exitPrice == fill.0 && t.exitReason == fill.1
  }

  lemma TradeFields(cfg: Config, atoms: seq<Atom>, equity: real, c: nat, e: nat, x: nat)
    requires RoundTrip(cfg, atoms, c, e, x)
    ensures atoms[e].Observe?
    ensures BookedFields(TradeOf(cfg, atoms, equity, c, e, x), atoms[e], atoms[x], ExitAt(cfg, atoms, c, e, x).value)
  {
    hide ExitAt, Enters, NotionalFor, Div, CommissionOn, Percent, Proceeds;
    EntryObserves(cfg, atoms, c, e);
  }

  ghost predicate CloseTimesAscend(steps: seq<Step>) {
    forall i, j :: 0 <= i < j < |steps| ==> steps[i].closeTime <= steps[j].closeTime
  }

  /**
   The k-th trade, told in steps: it enters on one step's close, where the entry signal's value was written to its key;
   no step strictly between entry and exit touches a level; and it leaves either at a level the exit step's candle
   touches, a later step than the entry's, or by signal at the exit step's close, where the exit signal's value was
   written to its key, that step's own level check having found nothing unless it is the entry step.
   */
  ghost predicate ToldInSteps(cfg: Config, steps: seq<Step>, t: Trade, en: nat, ex: nat) {
    && en <= ex < |steps|
    && t.entryTs == steps[en].closeTime && t.entryPrice == steps[en].candle.close
    && StateSet(SymbolScope, cfg.entry.key, cfg.entry.value) in steps[en].events
    && t.exitTs == steps[ex].closeTime
    && (forall s :: en < s < ex ==> LevelExit(cfg.exit, t.entryPrice, steps[s].candle).None?)
    && (if t.exitReason.BySignal?
        then t.exitPrice == steps[ex].candle.close
            && cfg.exit.signal.Some?
            && StateSet(SymbolScope, cfg.exit.signal.value.key, cfg.exit.signal.value.value) in steps[ex].events
            && (en < ex ==> LevelExit(cfg.exit, t.entryPrice, steps[ex].candle).None?)
        else en < ex && LevelExit(cfg.exit, t.entryPrice, steps[ex].candle) == Some((t.exitPrice, t.exitReason)))
  }

  /** A level check strictly after the entry atom and before the exit atom found nothing. */
  lemma UntouchedBetween(cfg: Config, atoms: seq<Atom>, steps: seq<Step>, c: nat, e: nat, x: nat, s: nat)
    requires FromSteps(atoms, steps, |steps|) && RoundTrip(cfg, atoms, c, e, x) && atoms[e].Observe? && s < |steps|
    requires atoms[e].step < s && (s < atoms[x].step || (s == atoms[x].step && atoms[x].Observe?))
    ensures LevelExit(cfg.exit, atoms[e].price, steps[s].candle).None?
  {
    hide LevelExit, IsAtomOf, EntersFirst, Enters;
    RoundTripShape(cfg, atoms, c, e, x);
    assert Checked(atoms, steps, s);
    var check := Check(s, steps[s].candle, steps[s].closeTime);
    var j :| 0 <= j < |atoms| && atoms[j] == check;
    assert e < j < x;
    assert ExitAt(cfg, atoms, c, e, j).None?;
  }

  lemma LevelReason(exit: ExitRules, entryPrice: real, candle: Candle)
    ensures LevelExit(exit, entryPrice, candle).Some? ==> !LevelExit(exit, entryPrice, candle).value.1.BySignal?
  {
  }

  /** A round trip's entry atom writes the entry signal, and the exit atom of a signal exit the exit signal. */
  lemma TripSignals(cfg: Config, atoms: seq<Atom>, c: nat, e: nat, x: nat)
    requires RoundTrip(cfg, atoms, c, e, x)
    ensures atoms[e].Observe? && cfg.entry == Signal(atoms[e].key, atoms[e].value)
    ensures atoms[x].Observe? ==>
              cfg.exit.signal == Some(Signal(atoms[x].key, atoms[x].value))
              && ExitAt(cfg, atoms, c, e, x) == Some((atoms[x].price, BySignal))
  {
    hide LevelExit, Changes;
    EntryObserves(cfg, atoms, c, e);
  }

  lemma TripToldInSteps(cfg: Config, steps: seq<Step>, atoms: seq<Atom>, equity: real, c: nat, e: nat, x: nat)
    requires FromSteps(atoms, steps, |steps|) && RoundTrip(cfg, atoms, c, e, x)
    ensures e < x < |atoms| && atoms[e].step < |steps| && atoms[x].step < |steps|
    ensures ToldInSteps(cfg, steps, TradeOf(cfg, atoms, equity, c, e, x), atoms[e].step, atoms[x].step)
  {
    hide LevelExit, RoundTrip, TradeOf, Enters, Changes;
    RoundTripShape(cfg, atoms, c, e, x);
    assert IsAtomOf(atoms[e], steps, |steps|) && IsAtomOf(atoms[x], steps, |steps|);
    var en, ex := atoms[e].step, atoms[x].step;
    forall s | en < s <= ex && (s < ex || atoms[x].Observe?)
      ensures LevelExit(cfg.exit, atoms[e].price, steps[s].candle).None?
    {
      UntouchedBetween(cfg, atoms, steps, c, e, x, s);
    }
    if atoms[x].Check? { LevelReason(cfg.exit, atoms[e].price, atoms[x].candle); }
    TripSignals(cfg, atoms, c, e, x);
    TradeFields(cfg, atoms, equity, c, e, x);
  }

  /** In every run each trade is closed at the earliest level or signal, and the entry candle is never level-checked. */
  lemma TradesToldInSteps(cfg: Config, steps: seq<Step>, k: nat) returns (en: nat, ex: nat)
    requires k < |Run(cfg, steps).trades|
    ensures ToldInSteps(cfg, steps, Run(cfg, steps).trades[k], en, ex)
  {
    hide Run, AtomsOf, ToldInSteps, RoundTrip, EquityBefore, Complete, FromSteps, TradeOf;
    var atoms := AtomsOf(steps);
    AtomsFromSteps(steps, |steps|);
    assert steps[..|steps|] == steps;
    TradesAreFirstExits(cfg, steps, Run(cfg, steps).trades);
    var trips: seq<Trip> :| FirstExits(cfg, atoms, trips, Run(cfg, steps).trades);
    var c := StartOf(trips, k);
    assert RoundTrip(cfg, atoms, c, trips[k].entry, trips[k].exit);
    var equity := EquityBefore(cfg, Run(cfg, steps).trades, k);
    TripToldInSteps(cfg, steps, atoms, equity, c, trips[k].entry, trips[k].exit);
    en, ex := atoms[trips[k].entry].step, atoms[trips[k].exit].step;
  }

  /** How far from its entry a threshold lies: an amount, or so many percent of the entry price. */
  ghost predicate Distance(t: Threshold, entryPrice: real, distance: real) {
    match t
    case Fixed(amount) => distance == amount
    case Percentage(amount) => distance * 100.0 == entryPrice * amount
  }

  /** A level exit of any run fills below its entry by the stop's distance, or above it by the target's. */
  lemma TradeFillsAtDistance(cfg: Config, steps: seq<Step>, k: nat)
    requires k < |Run(cfg, steps).trades|
    ensures var t := Run(cfg, steps).trades[k];
            match t.exitReason
            case BySignal => true
            case ByStopLoss =>
              cfg.exit.stopLoss.Some? && Distance(cfg.exit.stopLoss.value, t.entryPrice, t.entryPrice - t.exitPrice)
            case ByProfitTarget =>
              cfg.exit.profitTarget.Some?
                  && Distance(cfg.exit.profitTarget.value, t.entryPrice, t.exitPrice - t.entryPrice)
  {
    hide Run;
    var _, ex := TradesToldInSteps(cfg, steps, k);
    var t := Run(cfg, steps).trades[k];
    if !t.exitReason.BySignal? { LevelsAtDistance(cfg.exit, t.entryPrice, steps[ex].candle); }
  }

  lemma LevelsAtDistance(exit: ExitRules, entryPrice: real, candle: Candle)
    ensures var fill := LevelExit(exit, entryPrice, candle);
            fill.Some? ==>
              && (fill.value.1.ByStopLoss? ==>
                    exit.stopLoss.Some? && Distance(exit.stopLoss.value, entryPrice, entryPrice - fill.value.0))
              && (fill.value.1.ByProfitTarget? ==>
                    exit.profitTarget.Some? && Distance(exit.profitTarget.value, entryPrice, fill.value.0 - entryPrice))
  {
    ScaledBy(entryPrice, if exit.stopLoss.Some? then exit.stopLoss.value.amount else 0.0);
    ScaledBy(entryPrice, if exit.profitTarget.Some? then exit.profitTarget.value.amount else 0.0);
  }

  lemma ScaledBy(price: real, percent: real)
    ensures (price * (1.0 + percent / 100.0) - price) * 100.0 == price * percent
    ensures (price - price * (1.0 - percent / 100.0)) * 100.0 == price * percent
  {
    var part := percent / 100.0;
    assert price * (1.0 + part) == price + price * part && price * (1.0 - part) == price - price * part;
    assert price * part * 100.0 == price * (part * 100.0);
  }

  /**
   What one symbol-scoped write does. It opens, at the close, when flat exactly if it changes its key to the entry
   signal's value; it closes, at the close, a held position exactly if it changes its key to the exit signal's value.
   */
  lemma WriteTrades(cfg: Config, st: State, key: string, value: StateValue, close: real, ts: int)
    ensures var st' := OnEvent(cfg, st, StateSet(SymbolScope, key, value), close, ts);
            var changes := key !in st.lastValues || st.lastValues[key] != value;
            if st.position.None? then
              && st'.trades == st.trades
              && (st'.position.Some? <==> changes && key == cfg.entry.key && value == cfg.entry.value)
              && (st'.position.Some? ==> st'.position.value.entryPrice == close && st'.position.value.entryTs == ts)
            else
              && (st'.position.None? <==>
                    changes && cfg.exit.signal.Some? && key == cfg.exit.signal.value.key
                        && value == cfg.exit.signal.value.value)
              && (st'.position.Some? ==> st'.position == st.position && st'.trades == st.trades)
              && (st'.position.None? ==>
                    && |st'.trades| == |st.trades| + 1 && st.trades < st'.trades
                    && var t := st'.trades[|st.trades|];
                       t.exitPrice == close && t.exitTs == ts && t.exitReason == BySignal)
  {
    hide NotionalFor, Div, CommissionOn, Percent, Proceeds;
  }

  /** With closing times that never go back, trades are ordered in time: entry, exit, next entry. */
  lemma TradesInTimeOrder(cfg: Config, steps: seq<Step>, k: nat)
    requires CloseTimesAscend(steps) && k < |Run(cfg, steps).trades|
    ensures var trades := Run(cfg, steps).trades;
            trades[k].entryTs <= trades[k].exitTs && (k + 1 < |trades| ==> trades[k].exitTs <= trades[k + 1].entryTs)
  {
    hide Run, AtomsOf, RoundTrip, EquityBefore, Complete, FromSteps, TradeOf, ExitAt, CloseTimesAscend, Enters;
    var atoms := AtomsOf(steps);
    var trades := Run(cfg, steps).trades;
    AtomsFromSteps(steps, |steps|);
    assert steps[..|steps|] == steps;
    TradesAreFirstExits(cfg, steps, trades);
    var trips: seq<Trip> :| FirstExits(cfg, atoms, trips, trades);
    var c := StartOf(trips, k);
    RoundTripShape(cfg, atoms, c, trips[k].entry, trips[k].exit);
    LaterAtom(atoms, steps, trips[k].entry, trips[k].exit);
    TradeFields(cfg, atoms, EquityBefore(cfg, trades, k), c, trips[k].entry, trips[k].exit);
    if k + 1 < |trades| {
      var c' := StartOf(trips, k + 1);
      RoundTripShape(cfg, atoms, c', trips[k + 1].entry, trips[k + 1].exit);
      LaterAtom(atoms, steps, trips[k].exit, trips[k + 1].entry);
      TradeFields(cfg, atoms, EquityBefore(cfg, trades, k + 1), c', trips[k + 1].entry, trips[k + 1].exit);
    }
  }

  lemma LaterAtom(atoms: seq<Atom>, steps: seq<Step>, i: nat, j: nat)
    requires FromSteps(atoms, steps, |steps|) && CloseTimesAscend(steps) && i < j < |atoms|
    ensures atoms[i].ts <= atoms[j].ts
  {
    assert IsAtomOf(atoms[i], steps, |steps|) && IsAtomOf(atoms[j], steps, |steps|);
  }
}
