/** The in-memory state store: writes and removals, and the change events they emit. */
module StateStore {
  import opened Candles

  datatype Scope = OfSymbol(symbolId: string) | Global

  /** One stored value's address: state is partitioned by profile, then by scope. */
  datatype Cell = Cell(profileId: string, scope: Scope, key: string)

  datatype StateChanged = StateChanged(cell: Cell, prev: Option<StateValue>, current: Option<StateValue>, ts: int)

  datatype Op =
    | Write(cell: Cell, value: StateValue, ts: int)
    | Remove(cell: Cell, ts: int)

  type Store = map<Cell, StateValue>

  function Get(s: Store, cell: Cell): Option<StateValue> {
    if cell in s then Some(s[cell]) else None
  }

  function Put(s: Store, cell: Cell, v: Option<StateValue>): Store {
    if v.Some? then s[cell := v.value] else s - {cell}
  }

  /** The event an operation emits: none when nothing changes. */
  function Emitted(s: Store, op: Op): seq<StateChanged> {
    var prev := Get(s, op.cell);
    match op
    case Write(cell, value, ts) => if prev == Some(value) then [] else [StateChanged(cell, prev, Some(value), ts)]
    case Remove(cell, ts) => if prev.None? then [] else [StateChanged(cell, prev, None, ts)]
  }

  function After(s: Store, op: Op): Store {
    Put(s, op.cell, if op.Write? then Some(op.value) else None)
  }

  datatype History = History(store: Store, events: seq<StateChanged>)

  /** A fresh store after a run of operations, and every event emitted on the way. */
  function RunOps(ops: seq<Op>): History {
    if ops == [] then History(map[], [])
    else
      var before, op := RunOps(ops[..|ops| - 1]), ops[|ops| - 1];
      History(After(before.store, op), before.events + Emitted(before.store, op))
  }

  // ---- reading the events back ----

  /** A listener's own copy of the store, kept by applying each event's `current`. */
  function Fold(events: seq<StateChanged>): Store {
    if events == [] then map[]
    else
      var last := events[|events| - 1];
      Put(Fold(events[..|events| - 1]), last.cell, last.current)
  }

  /** The `current` of the newest event about a cell; absent when there was none. */
  function LastCurrent(events: seq<StateChanged>, cell: Cell): Option<StateValue> {
    if events == [] then None
    else if events[|events| - 1].cell == cell then events[|events| - 1].current
    else LastCurrent(events[..|events| - 1], cell)
  }

  /** Each event starts from the value the one before it left in its cell, and changes it. */
  ghost predicate Chained(events: seq<StateChanged>) {
    forall i :: 0 <= i < |events| ==>
      events[i].prev == LastCurrent(events[..i], events[i].cell) && events[i].prev != events[i].current
  }

  lemma {:induction false} FoldIsLastCurrent(events: seq<StateChanged>, cell: Cell)
    ensures Get(Fold(events), cell) == LastCurrent(events, cell)
  {
    if events != [] { FoldIsLastCurrent(events[..|events| - 1], cell); }
  }

  lemma FoldAppend(events: seq<StateChanged>, e: StateChanged)
    ensures Fold(events + [e]) == Put(Fold(events), e.cell, e.current)
  {
    assert (events + [e])[..|events|] == events;
  }

  /** An operation's event, folded in, has exactly the operation's effect; no event, no effect. */
  lemma EmittedFolds(s: Store, events: seq<StateChanged>, op: Op)
    requires Fold(events) == s
    ensures Fold(events + Emitted(s, op)) == After(s, op)
  {
    hide Fold;
    if Emitted(s, op) == [] {
      assert events + [] == events;
      assert After(s, op) == s;
    } else {
      FoldAppend(events, Emitted(s, op)[0]);
    }
  }

  /** Folding the emitted events reconstructs the store exactly, after every run. */
  lemma {:induction false} EventsReconstructStore(ops: seq<Op>)
    ensures Fold(RunOps(ops).events) == RunOps(ops).store
  {
    if ops != [] {
      hide Emitted, After;
      var before := RunOps(ops[..|ops| - 1]);
      EventsReconstructStore(ops[..|ops| - 1]);
      EmittedFolds(before.store, before.events, ops[|ops| - 1]);
    }
  }

  lemma EmittedShape(s: Store, op: Op)
    ensures |Emitted(s, op)| <= 1
    ensures Emitted(s, op) != [] ==>
              var e := Emitted(s, op)[0]; e.cell == op.cell && e.prev == Get(s, op.cell) && e.prev != e.current
    ensures Emitted(s, op) == [] <==> After(s, op) == s
  {
    assert op.cell in s ==> s[op.cell := s[op.cell]] == s;
  }

  /**
   In every run each event's `prev` is the preceding `current` of its cell, and no event leaves its cell unchanged.
   */
  lemma {:induction false} EventsChain(ops: seq<Op>)
    ensures Chained(RunOps(ops).events)
  {
    hide Emitted, After, LastCurrent;
    if ops != [] {
      var before, op := RunOps(ops[..|ops| - 1]), ops[|ops| - 1];
      EventsChain(ops[..|ops| - 1]);
      EventsReconstructStore(ops[..|ops| - 1]);
      EmittedShape(before.store, op);
      FoldIsLastCurrent(before.events, op.cell);
      var events := RunOps(ops).events;
      forall i | 0 <= i < |events|
        ensures events[i].prev == LastCurrent(events[..i], events[i].cell) && events[i].prev != events[i].current
      {
        assert i < |before.events| ==> events[..i] == before.events[..i] && events[i] == before.events[i];
        assert i == |before.events| ==> events[..i] == before.events && events[i] == Emitted(before.store, op)[0];
      }
    }
  }

  // ---- the object ----

  type Bucket = map<string, StateValue>

  class InMemoryStateRepository {
    var symbolStore: map<string, map<string, Bucket>>
    var globalStore: map<string, Bucket>
    /** Every event delivered to the listeners, in order. */
    var events: seq<StateChanged>

    function Lookup(cell: Cell): Option<StateValue>
      reads this
    {
      var bucket := BucketOf(cell.profileId, cell.scope);
      if cell.key in bucket then Some(bucket[cell.key]) else None
    }

    function BucketOf(profileId: string, scope: Scope): Bucket
      reads this
    {
      match scope
      case OfSymbol(symbolId) =>
        if profileId in symbolStore && symbolId in symbolStore[profileId] then symbolStore[profileId][symbolId]
            else map[]
      case Global =>
        if profileId in globalStore then globalStore[profileId] else map[]
    }

    /** The nested maps hold exactly `s`. */
    ghost predicate Holds(s: Store)
      reads this
    {
      forall cell :: Lookup(cell) == Get(s, cell)
    }

    constructor ()
      ensures Holds(map[]) && events == []
    {
      symbolStore, globalStore, events := map[], map[], [];
    }

    /** Replace one bucket; every other bucket stays. */
    method PutBucket(profileId: string, scope: Scope, bucket: Bucket)
      modifies this`symbolStore, this`globalStore
      ensures forall p, s :: BucketOf(p, s) == if p == profileId && s == scope then bucket else old(BucketOf(p, s))
    {
      match scope
      case OfSymbol(symbolId) =>
        var perProfile := if profileId in symbolStore then symbolStore[profileId] else map[];
        symbolStore := symbolStore[profileId := perProfile[symbolId := bucket]];
      case Global =>
        globalStore := globalStore[profileId := bucket];
    }

    method Set(cell: Cell, value: StateValue, ts: int, ghost s: Store)
      requires Holds(s)
      modifies this
      ensures Holds(After(s, Write(cell, value, ts)))
      ensures events == old(events) + Emitted(s, Write(cell, value, ts))
    {
      var bucket := BucketOf(cell.profileId, cell.scope);
      var prev := if cell.key in bucket then Some(bucket[cell.key]) else None;
      assert prev == Lookup(cell) == Get(s, cell);
      if prev == Some(value) {
        assert After(s, Write(cell, value, ts)) == s;
        return;
      }
      PutBucket(cell.profileId, cell.scope, bucket[cell.key := value]);
      events := events + [StateChanged(cell, prev, Some(value), ts)];
      forall c ensures Lookup(c) == if c == cell then Some(value) else old(Lookup(c)) {
      }
    }

    method Delete(cell: Cell, ts: int, ghost s: Store)
      requires Holds(s)
      modifies this
      ensures Holds(After(s, Remove(cell, ts)))
      ensures events == old(events) + Emitted(s, Remove(cell, ts))
    {
      var bucket := BucketOf(cell.profileId, cell.scope);
      var prev := if cell.key in bucket then Some(bucket[cell.key]) else None;
      assert prev == Lookup(cell) == Get(s, cell);
      if prev.None? {
        assert After(s, Remove(cell, ts)) == s;
        return;
      }
      PutBucket(cell.profileId, cell.scope, bucket - {cell.key});
      events := events + [StateChanged(cell, prev, None, ts)];
      forall c ensures Lookup(c) == if c == cell then None else old(Lookup(c)) {
      }
    }

    /** The current value of one cell. */
    method Read(cell: Cell, ghost s: Store) returns (r: Option<StateValue>)
      requires Holds(s)
      ensures r == Get(s, cell)
    {
      r := Lookup(cell);
    }

    /** Every key of one scope with its value. */
    method List(profileId: string, scope: Scope, ghost s: Store) returns (r: Bucket)
      requires Holds(s)
      ensures forall key :: (if key in r then Some(r[key]) else None) == Get(s, Cell(profileId, scope, key))
    {
      r := BucketOf(profileId, scope);
      forall key ensures (if key in r then Some(r[key]) else None) == Get(s, Cell(profileId, scope, key)) {
        assert Lookup(Cell(profileId, scope, key)) == Get(s, Cell(profileId, scope, key));
      }
    }
  }

  /** Apply a run of operations to a fresh repository: its events and its contents are the run's. */
  method Apply(ops: seq<Op>) returns (repo: InMemoryStateRepository)
    ensures fresh(repo) && repo.Holds(RunOps(ops).store) && repo.events == RunOps(ops).events
  {
    hide After, Emitted;
    repo := new InMemoryStateRepository();
    for i := 0 to |ops|
      invariant fresh(repo) && repo.Holds(RunOps(ops[..i]).store) && repo.events == RunOps(ops[..i]).events
    {
      assert ops[..i + 1][..i] == ops[..i];
      ghost var s := RunOps(ops[..i]).store;
      match ops[i]
      case Write(cell, value, ts) => repo.Set(cell, value, ts, s);
      case Remove(cell, ts) => repo.Delete(cell, ts, s);
    }
    assert ops[..|ops|] == ops;
  }
}
