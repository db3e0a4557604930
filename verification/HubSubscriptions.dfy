/**
 Many sockets over the shared hubs: every socket action with the hub operations it makes, and what is left in the hubs
 when a socket has closed. Each subscription kind has its own hub.
 */
module HubSubscriptions {
  import opened StreamHub
  import opened Subscriptions

  /** One action of one socket; `order` is the order in which a close calls the active handles. */
  datatype Event = Event(socket: nat, action: Action, order: seq<nat>)

  /** What socket `i` has done. */
  function ActionsOf(events: seq<Event>, i: nat): seq<Action> {
    if events == [] then []
    else
      var e := events[|events| - 1];
      ActionsOf(events[..|events| - 1], i) + if e.socket == i then [e.action] else []
  }

  function SocketOf(events: seq<Event>, i: nat): Socket {
    RunOf(ActionsOf(events, i)).socket
  }

  /** Whether an action subscribes to a hub. */
  predicate Subscribing(s: Socket, a: Action) {
    a.Resume? && Enabled(s, a) && !s.closed
  }

  /** The handles an event calls, in order. */
  function Calls(s: Socket, e: Event): seq<nat> {
    if e.action.Unsubscribe? && e.action.slot in s.active then [s.active[e.action.slot]]
    else if e.action.Close? && !s.closed then e.order
    else []
  }

  /** Calling, in order, those of the handles `hs` that belong to kind `k`. */
  function InvokesOf(s: Socket, given: seq<Handle>, hs: seq<nat>, k: Kind): seq<HubOp> {
    if hs == [] then []
    else
      var h := hs[|hs| - 1];
      InvokesOf(s, given, hs[..|hs| - 1], k) +
      if h < |given| && h < |s.handles| && s.handles[h].kind == k then [Invoke(given[h])] else []
  }

  /** What an event does to the hub of kind `k`. */
  function OpsOf(s: Socket, given: seq<Handle>, e: Event, k: Kind): seq<HubOp> {
    if Subscribing(s, e.action) then
      var slot := s.pending[e.action.token].slot;
      if slot.kind == k then [HubOp.Subscribe(slot.key, Subscriber(e.socket, |s.handles|))] else []
    else InvokesOf(s, given, Calls(s, e), k)
  }

  /** Everything done to the hub of kind `k`, by all sockets. */
  function TraceOf(events: seq<Event>, k: Kind): seq<HubOp>
    decreases |events|, 0
  {
    if events == [] then []
    else
      var front, e := events[..|events| - 1], events[|events| - 1];
      TraceOf(front, k) + OpsOf(SocketOf(front, e.socket), GivenTo(front, e.socket), e, k)
  }

  /** The hub handles socket `i` has been given, in order. */
  function GivenTo(events: seq<Event>, i: nat): seq<Handle>
    decreases |events|, 0
  {
    if events == [] then []
    else
      var front, e := events[..|events| - 1], events[|events| - 1];
      var s := SocketOf(front, i);
      if e.socket == i && Subscribing(s, e.action) then
        var slot := s.pending[e.action.token].slot;
        GivenTo(front, i)
            + [Handle(slot.key, RunOps(TraceOf(front, slot.kind)).hub.Joined(slot.key), Subscriber(i, |s.handles|))]
      else GivenTo(front, i)
  }

  function HubOf(events: seq<Event>, k: Kind): Traced {
    RunOps(TraceOf(events, k))
  }

  /** A close lists the active handles, each once, in whatever order. */
  ghost predicate Lists(s: Socket, order: seq<nat>) {
    && (forall h: nat :: h in order <==> Active(s, h))
    && (forall i, j :: 0 <= i < j < |order| ==> order[i] != order[j])
  }

  ghost predicate Orderly(events: seq<Event>) {
    events != [] ==>
      var front, e := events[..|events| - 1], events[|events| - 1];
      && Orderly(front)
      && (e.action.Close? && !SocketOf(front, e.socket).closed ==> Lists(SocketOf(front, e.socket), e.order))
  }

  // ---- what every run keeps ----

  /** A live handle of the hub of kind `k` is one that some socket was given there and has not called. */
  ghost predicate Uncalled(s: Socket, given: seq<Handle>, k: Kind, h: nat) {
    h < |s.handles| && h < |given| && s.handles[h].kind == k && s.invoked[h] == 0
  }

  ghost predicate Owned(s: Socket, given: seq<Handle>, k: Kind, g: Handle) {
    Uncalled(s, given, k, g.subscriber.index) && given[g.subscriber.index] == g
  }

  ghost predicate LiveIs(events: seq<Event>, k: Kind) {
    forall g :: g in HubOf(events, k).live <==>
        Owned(SocketOf(events, g.subscriber.socket), GivenTo(events, g.subscriber.socket), k, g)
  }

  ghost predicate GivenRight(s: Socket, given: seq<Handle>, i: nat) {
    && |given| == |s.handles|
    && forall h :: 0 <= h < |given| ==> given[h].key == s.handles[h].key && given[h].subscriber == Subscriber(i, h)
  }

  /** The hub of kind `k` is used as it should be, and holds exactly the uncalled handles. */
  ghost predicate HubKept(events: seq<Event>, k: Kind) {
    Disciplined(TraceOf(events, k)) && LiveIs(events, k)
  }

  // ---- traces grow ----

  function Invokes(gs: seq<Handle>): (r: seq<HubOp>)
    ensures |r| == |gs| && forall j :: 0 <= j < |r| ==> r[j] == Invoke(gs[j])
  {
    seq(|gs|, j requires 0 <= j < |gs| => Invoke(gs[j]))
  }

  lemma DisciplinedAppend(ops: seq<HubOp>, op: HubOp)
    requires Disciplined(ops)
    requires op.Subscribe? ==> forall h :: h in RunOps(ops).live && h.key == op.key ==> h.subscriber != op.subscriber
    requires op.Invoke? ==> op.handle in RunOps(ops).live
    ensures Disciplined(ops + [op])
  {
    hide RunOps;
    assert (ops + [op])[..|ops|] == ops;
  }

  /** Calling distinct live handles, one after the other, is disciplined and leaves exactly the others live. */
  lemma {:induction false} InvokeAll(ops: seq<HubOp>, gs: seq<Handle>)
    requires Disciplined(ops)
    requires forall j :: 0 <= j < |gs| ==> gs[j] in RunOps(ops).live
    requires forall i, j :: 0 <= i < j < |gs| ==> gs[i] != gs[j]
    ensures Disciplined(ops + Invokes(gs))
    ensures forall g :: g in RunOps(ops + Invokes(gs)).live <==> g in RunOps(ops).live && g !in gs
  {
    hide RunOps, Disciplined;
    if gs == [] {
      assert ops + Invokes(gs) == ops;
    } else {
      var front, last := gs[..|gs| - 1], gs[|gs| - 1];
      InvokeAll(ops, front);
      var all := ops + Invokes(front);
      assert ops + Invokes(gs) == all + [Invoke(last)];
      RunOpsAppend(all, Invoke(last));
      DisciplinedAppend(all, Invoke(last));
      assert gs == front + [last];
    }
  }

  /** The handles of kind `k` among `hs`. */
  function HandlesOfKind(s: Socket, given: seq<Handle>, hs: seq<nat>, k: Kind): seq<Handle> {
    if hs == [] then []
    else
      var h := hs[|hs| - 1];
      HandlesOfKind(s, given, hs[..|hs| - 1], k) + if h < |given| && h < |s.handles| && s.handles[h].kind == k
                                                     then [given[h]] else []
  }

  lemma {:induction false} InvokesAre(s: Socket, given: seq<Handle>, hs: seq<nat>, k: Kind, i: nat)
    requires GivenRight(s, given, i)
    requires forall x, y :: 0 <= x < y < |hs| ==> hs[x] != hs[y]
    ensures InvokesOf(s, given, hs, k) == Invokes(HandlesOfKind(s, given, hs, k))
    ensures forall g :: g in HandlesOfKind(s, given, hs, k) <==>
              var h := g.subscriber.index; h in hs && h < |given| && s.handles[h].kind == k && given[h] == g
    ensures var gs := HandlesOfKind(s, given, hs, k); forall x, y :: 0 <= x < y < |gs| ==> gs[x] != gs[y]
  {
    if hs != [] {
      var front, h := hs[..|hs| - 1], hs[|hs| - 1];
      InvokesAre(s, given, front, k, i);
      assert hs == front + [h];
      assert h !in front;
      if h < |given| && s.handles[h].kind == k {
        assert given[h] !in HandlesOfKind(s, given, front, k);
      }
    }
  }

  // ---- one event ----

  lemma SocketStep(events: seq<Event>, i: nat)
    requires events != []
    ensures var front, e := events[..|events| - 1], events[|events| - 1];
            SocketOf(events, i) == if e.socket == i then OnAction(SocketOf(front, i), e.action) else SocketOf(front, i)
  {
    var front, e := events[..|events| - 1], events[|events| - 1];
    hide OnAction, RunOf;
    RunAppend(ActionsOf(front, i), e.action);
    assert ActionsOf(front, i) + [] == ActionsOf(front, i);
  }

  /**
   What an event does to the handles: a subscribe appends one, the called ones are counted, and each of them was
   uncalled.
   */
  lemma HandlesStep(s: Socket, overwritten: set<nat>, e: Event)
    requires HandlesKept(s, overwritten)
    requires e.action.Close? && !s.closed ==> Lists(s, e.order)
    ensures var s' := OnAction(s, e.action);
            && s'.handles == (if Subscribing(s, e.action) then s.handles + [s.pending[e.action.token].slot]
                                else s.handles)
            && (Subscribing(s, e.action) ==> Calls(s, e) == [])
            && (forall h: nat :: s'.invoked[h] == s.invoked[h] + if h in Calls(s, e) then 1 else 0)
            && (forall h: nat :: h >= |s.handles| ==> s.invoked[h] == 0)
            && (forall h: nat :: h in Calls(s, e) ==> h < |s.handles| && s.invoked[h] == 0)
            && (forall x, y :: 0 <= x < y < |Calls(s, e)| ==> Calls(s, e)[x] != Calls(s, e)[y])
  {
    if e.action.Close? && !s.closed {
      forall h: nat ensures h in s.active.Values <==> h in e.order {
        if h in s.active.Values {
          var slot :| slot in s.active && s.active[slot] == h;
        }
      }
    }
  }

  /** An event appends the given handle of a subscribe, under the subscriber's own index. */
  lemma GivenStep(events: seq<Event>, i: nat, overwritten: set<nat>)
    requires events != []
    requires var front := events[..|events| - 1];
             GivenRight(SocketOf(front, i), GivenTo(front, i), i) && HandlesKept(SocketOf(front, i), overwritten)
    requires var front, e := events[..|events| - 1], events[|events| - 1];
             e.action.Close? && !SocketOf(front, e.socket).closed ==> Lists(SocketOf(front, e.socket), e.order)
    ensures GivenRight(SocketOf(events, i), GivenTo(events, i), i)
  {
    hide SocketOf, TraceOf, RunOps, HandlesKept, OnAction, Enabled, Lists;
    var front, e := events[..|events| - 1], events[|events| - 1];
    SocketStep(events, i);
    if e.socket == i { HandlesStep(SocketOf(front, i), overwritten, e); }
  }

  /** A subscribe at the hub of its kind: its handle joins the live ones. */
  lemma SubscribeStep(ops: seq<HubOp>, key: string, who: Subscriber)
    requires Disciplined(ops) && forall g :: g in RunOps(ops).live ==> g.subscriber != who
    ensures Disciplined(ops + [HubOp.Subscribe(key, who)])
    ensures RunOps(ops + [HubOp.Subscribe(key, who)]).live
            == RunOps(ops).live + {Handle(key, RunOps(ops).hub.Joined(key), who)}
  {
    hide RunOps, Disciplined;
    RunOpsAppend(ops, HubOp.Subscribe(key, who));
    DisciplinedAppend(ops, HubOp.Subscribe(key, who));
  }

  /** Subscribing keeps the hub: the new handle is owned and uncalled, and no other changes. */
  lemma SubscribingKeepsHub(events: seq<Event>, k: Kind, overwritten: set<nat>)
    requires events != []
    requires var front, e := events[..|events| - 1], events[|events| - 1];
             && HubKept(front, k) && HandlesKept(SocketOf(front, e.socket), overwritten)
             && GivenRight(SocketOf(front, e.socket), GivenTo(front, e.socket), e.socket)
             && Subscribing(SocketOf(front, e.socket), e.action)
    ensures HubKept(events, k)
  {
    hide SocketOf, RunOps, Disciplined, HandlesKept, OnAction;
    var front, e := events[..|events| - 1], events[|events| - 1];
    var i := e.socket;
    var s := SocketOf(front, i);
    var slot, given, n := s.pending[e.action.token].slot, GivenTo(front, i), |s.handles|;
    HandlesStep(s, overwritten, e);
    forall g | g in HubOf(front, k).live ensures g.subscriber != Subscriber(i, n) {
      assert Owned(SocketOf(front, g.subscriber.socket), GivenTo(front, g.subscriber.socket), k, g);
    }
    if slot.kind == k { SubscribeStep(TraceOf(front, k), slot.key, Subscriber(i, n)); }
    else { assert TraceOf(events, k) == TraceOf(front, k); }
    forall g
      ensures g in HubOf(events, k).live <==>
              Owned(SocketOf(events, g.subscriber.socket), GivenTo(events, g.subscriber.socket), k, g)
    {
      SocketStep(events, g.subscriber.socket);
      assert g in HubOf(front, k).live <==>
          Owned(SocketOf(front, g.subscriber.socket), GivenTo(front, g.subscriber.socket), k, g);
    }
  }

  /** Calling handles keeps the hub: exactly the called ones stop being live. */
  lemma CallingKeepsHub(events: seq<Event>, k: Kind, overwritten: set<nat>)
    requires events != []
    requires var front, e := events[..|events| - 1], events[|events| - 1];
             && HubKept(front, k) && HandlesKept(SocketOf(front, e.socket), overwritten)
             && GivenRight(SocketOf(front, e.socket), GivenTo(front, e.socket), e.socket)
             && !Subscribing(SocketOf(front, e.socket), e.action)
             && (e.action.Close? && !SocketOf(front, e.socket).closed ==> Lists(SocketOf(front, e.socket), e.order))
    ensures HubKept(events, k)
  {
    hide SocketOf, RunOps, Disciplined, HandlesKept, OnAction, Enabled, Lists, Calls, InvokesOf, HandlesOfKind;
    var front, e := events[..|events| - 1], events[|events| - 1];
    var i := e.socket;
    var s, given := SocketOf(front, i), GivenTo(front, i);
    var called := Calls(s, e);
    HandlesStep(s, overwritten, e);
    InvokesAre(s, given, called, k, i);
    var gs := HandlesOfKind(s, given, called, k);
    forall j | 0 <= j < |gs| ensures gs[j] in HubOf(front, k).live {
      assert gs[j] in gs;
      assert Owned(s, given, k, gs[j]);
    }
    InvokeAll(TraceOf(front, k), gs);
    forall g
      ensures g in HubOf(events, k).live <==>
              Owned(SocketOf(events, g.subscriber.socket), GivenTo(events, g.subscriber.socket), k, g)
    {
      SocketStep(events, g.subscriber.socket);
      assert g in HubOf(front, k).live <==>
          Owned(SocketOf(front, g.subscriber.socket), GivenTo(front, g.subscriber.socket), k, g);
    }
  }

  lemma {:induction false} HubsKept(events: seq<Event>, k: Kind)
    requires Orderly(events)
    ensures HubKept(events, k)
  {
    hide HubKept, SocketOf, HandlesKept;
    if events == [] {
      NothingSubscribed(k);
    } else {
      var front, e := events[..|events| - 1], events[|events| - 1];
      HubsKept(front, k);
      GivenAlwaysRight(front, e.socket);
      var overwritten := SocketKept(front, e.socket);
      if Subscribing(SocketOf(front, e.socket), e.action) {
        SubscribingKeepsHub(events, k, overwritten);
      } else {
        CallingKeepsHub(events, k, overwritten);
      }
    }
  }

  lemma SocketKept(events: seq<Event>, i: nat) returns (overwritten: set<nat>)
    ensures overwritten == RunOf(ActionsOf(events, i)).overwritten && HandlesKept(SocketOf(events, i), overwritten)
  {
    RunKeeps(ActionsOf(events, i));
    overwritten := RunOf(ActionsOf(events, i)).overwritten;
  }

  lemma NothingSubscribed(k: Kind)
    ensures HubKept([], k)
  {
  }

  lemma {:induction false} GivenAlwaysRight(events: seq<Event>, i: nat)
    requires Orderly(events)
    ensures GivenRight(SocketOf(events, i), GivenTo(events, i), i)
  {
    hide HandlesKept, RunOf, GivenRight;
    if events == [] {
      NothingGiven(i);
    } else {
      var front := events[..|events| - 1];
      GivenAlwaysRight(front, i);
      var overwritten := SocketKept(front, i);
      GivenStep(events, i, overwritten);
    }
  }

  lemma NothingGiven(i: nat)
    ensures GivenRight(SocketOf([], i), GivenTo([], i), i)
  {
  }

  // ---- what the hubs deliver to ----

  /**
   In every run, the sockets' hub operations are disciplined: each subscriber is new, each handle called only while
   live.
   */
  lemma TracesDisciplined(events: seq<Event>, k: Kind)
    requires Orderly(events)
    ensures Disciplined(TraceOf(events, k))
  {
    hide Orderly, TraceOf;
    HubsKept(events, k);
  }

  /** A publish reaches a socket's subscriber exactly while its handle, given for that slot, has not been called. */
  lemma DeliversExactly(events: seq<Event>, k: Kind, key: string, i: nat, h: nat)
    requires Orderly(events)
    ensures Subscriber(i, h) in HubOf(events, k).hub.Subscribers(key) <==>
              var s := SocketOf(events, i); h < |s.handles| && s.handles[h] == Slot(k, key) && s.invoked[h] == 0
  {
    hide Orderly, TraceOf, Disciplined, RunOps, GivenTo, SocketOf;
    HubsKept(events, k);
    GivenAlwaysRight(events, i);
    DeliversToLive(TraceOf(events, k), key);
    var given := GivenTo(events, i);
    if g :| g in HubOf(events, k).live && g.key == key && g.subscriber == Subscriber(i, h) {
      assert Owned(SocketOf(events, i), given, k, g);
    }
    if h < |given| {
      assert given[h] in HubOf(events, k).live <==> Owned(SocketOf(events, i), given, k, given[h]);
    }
  }

  /** Once a socket has closed and its acquires have settled, the hubs hold exactly its overwritten subscriptions. */
  lemma OnlyOverwrittenStayLive(events: seq<Event>, k: Kind, key: string, i: nat, h: nat)
    requires Orderly(events) && SocketOf(events, i).closed && SocketOf(events, i).pending == map[]
    ensures Subscriber(i, h) in HubOf(events, k).hub.Subscribers(key) <==>
              h in RunOf(ActionsOf(events, i)).overwritten && h < |SocketOf(events, i).handles|
                  && SocketOf(events, i).handles[h] == Slot(k, key)
  {
    hide Orderly, HubOf, RunOf;
    DeliversExactly(events, k, key, i, h);
    SettledAfterClose(ActionsOf(events, i));
    var overwritten := SocketKept(events, i);
  }

  /** With server-generated keys, a closed and settled socket has no subscription live in the indicator or quote hub. */
  lemma NoneLiveAfterClose(events: seq<Event>, k: Kind, key: string, i: nat)
    requires Orderly(events) && SocketOf(events, i).closed && SocketOf(events, i).pending == map[]
    requires FreshKeys(ActionsOf(events, i)) && (k == IndicatorKind || k == QuoteKind)
    ensures forall who :: who in HubOf(events, k).hub.Subscribers(key) ==> who.socket != i
  {
    hide Orderly, HubOf, RunOf, FreshKeys;
    forall who | who in HubOf(events, k).hub.Subscribers(key) ensures who.socket != i {
      if who.socket == i {
        OnlyOverwrittenStayLive(events, k, key, i, who.index);
        FreshKeysNeverOverwritten(ActionsOf(events, i));
      }
    }
  }

  /**
   Something of a closed, settled socket is left in some hub exactly when it once subscribed to a slot already active.
   */
  lemma LeftBehindExactly(events: seq<Event>, i: nat)
    requires Orderly(events) && SocketOf(events, i).closed && SocketOf(events, i).pending == map[]
    ensures (exists k, key, h :: Subscriber(i, h) in HubOf(events, k).hub.Subscribers(key)) <==>
              exists j :: 0 <= j < |ActionsOf(events, i)| && OverwritesAt(ActionsOf(events, i), j)
  {
    hide Orderly, HubOf, RunOf, OverwritesAt, ActionsOf;
    OverwrittenMeans(ActionsOf(events, i));
    var overwritten := SocketKept(events, i);
    if k, key, h :| Subscriber(i, h) in HubOf(events, k).hub.Subscribers(key) {
      OnlyOverwrittenStayLive(events, k, key, i, h);
    }
    if overwritten != {} {
      var h :| h in overwritten;
      var slot := SocketOf(events, i).handles[h];
      OnlyOverwrittenStayLive(events, slot.kind, slot.key, i, h);
    }
  }
}
