/**
 The in-process publish/subscribe hub. Subscriber sets are objects shared by the handles that captured them,
 so they are kept here by identity: `sets[id]` is the set object `id`, `subscribers` maps a key to its current one.
 */
module StreamHub {

  /** A subscriber is the function one socket passed in its `index`-th subscription. */
  datatype Subscriber = Subscriber(socket: nat, index: nat)

  datatype Handle = Handle(key: string, set_: nat, subscriber: Subscriber)

  datatype Hub = Hub(subscribers: map<string, nat>, sets: seq<set<Subscriber>>)
  {
    /** Everyone a publish to `key` reaches. */
    function Subscribers(key: string): set<Subscriber> {
      if key in subscribers && subscribers[key] < |sets| then sets[subscribers[key]] else {}
    }

    /** The set object a subscription to `key` joins: the current one, or a new one. */
    function Joined(key: string): nat {
      if key in subscribers then subscribers[key] else |sets|
    }

    function WithSet(key: string): seq<set<Subscriber>> {
      if key in subscribers then sets else sets + [{}]
    }

    function OnSubscribe(key: string, subscriber: Subscriber): Hub {
      var id, all := Joined(key), WithSet(key);
      if id < |all| then Hub(subscribers[key := id], all[id := all[id] + {subscriber}]) else this
    }

    /** Invoking a handle: leave the captured set, and drop the key when that set is empty. */
    function OnInvoke(h: Handle): Hub {
      if h.set_ >= |sets| then this
      else
        var left := sets[h.set_] - {h.subscriber};
        Hub(if left == {} then subscribers - {h.key} else subscribers, sets[h.set_ := left])
    }
  }

  /**
   The hub holds exactly the live handles: each sits in its key's current set, and every member there is a live handle.
   */
  ghost predicate Exact(hub: Hub, live: set<Handle>) {
    && (forall key :: key in hub.subscribers ==>
          hub.subscribers[key] < |hub.sets| && hub.sets[hub.subscribers[key]] != {})
    && (forall j, k :: j in hub.subscribers && k in hub.subscribers && hub.subscribers[j] == hub.subscribers[k] ==>
          j == k)
    && (forall h :: h in live ==>
          h.key in hub.subscribers && hub.subscribers[h.key] == h.set_ && h.subscriber in hub.Subscribers(h.key))
    && (forall key, s :: s in hub.Subscribers(key) ==> Handle(key, hub.subscribers[key], s) in live)
  }

  /** What exactness means: a publish reaches the subscribers of the live handles, and no one else. */
  lemma ExactMeaning(hub: Hub, live: set<Handle>, key: string)
    requires Exact(hub, live)
    ensures hub.Subscribers(key) == set h | h in live && h.key == key :: h.subscriber
  {
    forall s ensures s in hub.Subscribers(key) <==> exists h :: h in live && h.key == key && h.subscriber == s {
      if s in hub.Subscribers(key) {
        var h := Handle(key, hub.subscribers[key], s);
        assert h in live && h.key == key && h.subscriber == s;
      }
    }
  }

  lemma SubscribeExact(hub: Hub, live: set<Handle>, key: string, subscriber: Subscriber)
    requires Exact(hub, live) && subscriber !in hub.Subscribers(key)
    ensures var h := Handle(key, hub.Joined(key), subscriber);
            h !in live && Exact(hub.OnSubscribe(key, subscriber), live + {h})
  {
    var id := hub.Joined(key);
    var h := Handle(key, id, subscriber);
    var hub' := hub.OnSubscribe(key, subscriber);
    assert forall k :: k in hub.subscribers && k != key ==> hub.subscribers[k] != id;
    forall k ensures hub'.Subscribers(k) == if k == key then hub.Subscribers(k) + {subscriber} else hub.Subscribers(k) {
    }
    forall g | g in live + {h}
      ensures g.key in hub'.subscribers && hub'.subscribers[g.key] == g.set_ && g.subscriber in hub'.Subscribers(g.key)
    {
    }
    forall k, s | s in hub'.Subscribers(k) ensures Handle(k, hub'.subscribers[k], s) in live + {h} {
      assert (k == key && s == subscriber) || s in hub.Subscribers(k);
    }
  }

  lemma InvokeExact(hub: Hub, live: set<Handle>, h: Handle)
    requires Exact(hub, live) && h in live
    ensures Exact(hub.OnInvoke(h), live - {h})
  {
    var hub' := hub.OnInvoke(h);
    forall k ensures hub'.Subscribers(k) == if k == h.key then hub.Subscribers(k) - {h.subscriber}
                                              else hub.Subscribers(k) {
      var left := hub.sets[h.set_] - {h.subscriber};
      assert hub.Subscribers(h.key) == hub.sets[h.set_];
      if k == h.key {
        assert hub'.Subscribers(k) == left;
      } else {
        assert k in hub.subscribers ==> hub.subscribers[k] != h.set_;
      }
    }
    forall g | g in live - {h}
      ensures g.key in hub'.subscribers && hub'.subscribers[g.key] == g.set_ && g.subscriber in hub'.Subscribers(g.key)
    {
      assert g.key == h.key ==>
          g == Handle(h.key, h.set_, g.subscriber) && g.subscriber in hub.sets[h.set_] - {h.subscriber};
      assert g.subscriber in hub'.Subscribers(g.key);
    }
    forall k, s | s in hub'.Subscribers(k) ensures Handle(k, hub'.subscribers[k], s) in live - {h} {
      assert s in hub.Subscribers(k);
    }
  }

  /** Invoking a handle a second time is harmless exactly when its set is still in use or its key has no subscriber. */
  lemma StaleInvoke(hub: Hub, live: set<Handle>, h: Handle)
    requires Exact(hub, live) && h !in live && h.set_ < |hub.sets| && h.subscriber !in hub.sets[h.set_]
    ensures Exact(hub.OnInvoke(h), live) <==> hub.sets[h.set_] != {} || h.key !in hub.subscribers
  {
    var hub' := hub.OnInvoke(h);
    assert hub.sets[h.set_] - {h.subscriber} == hub.sets[h.set_];
    assert hub'.sets == hub.sets;
    if hub.sets[h.set_] != {} {
      assert hub' == hub;
    } else if h.key !in hub.subscribers {
      assert hub'.subscribers == hub.subscribers;
    } else {
      var members := hub.Subscribers(h.key);
      assert exists s :: s in members;
      var s :| s in members;
      assert Handle(h.key, hub.subscribers[h.key], s) in live;
      assert h.key !in hub'.subscribers;
    }
  }

  // ---- traces ----

  datatype HubOp = Subscribe(key: string, subscriber: Subscriber) | Invoke(handle: Handle)

  datatype Traced = Traced(hub: Hub, live: set<Handle>)

  const EMPTY_HUB := Hub(map[], [])

  function OnOp(t: Traced, op: HubOp): Traced {
    match op
    case Subscribe(key, s) => Traced(t.hub.OnSubscribe(key, s), t.live + {Handle(key, t.hub.Joined(key), s)})
    case Invoke(h) => Traced(t.hub.OnInvoke(h), t.live - {h})
  }

  function RunOps(ops: seq<HubOp>): Traced {
    if ops == [] then Traced(EMPTY_HUB, {}) else OnOp(RunOps(ops[..|ops| - 1]), ops[|ops| - 1])
  }

  /** Every subscriber is new to its key, and every handle is invoked only while live: at most once. */
  ghost predicate Disciplined(ops: seq<HubOp>) {
    ops != [] ==>
      var before, op := RunOps(ops[..|ops| - 1]), ops[|ops| - 1];
      && Disciplined(ops[..|ops| - 1])
      && (op.Subscribe? ==> forall h :: h in before.live && h.key == op.key ==> h.subscriber != op.subscriber)
      && (op.Invoke? ==> op.handle in before.live)
  }

  /** In every disciplined trace a publish reaches exactly the live subscribers. */
  lemma {:induction false} DeliversToLive(ops: seq<HubOp>, key: string)
    requires Disciplined(ops)
    ensures Exact(RunOps(ops).hub, RunOps(ops).live)
    ensures RunOps(ops).hub.Subscribers(key) == set h | h in RunOps(ops).live && h.key == key :: h.subscriber
  {
    hide Exact;
    if ops == [] {
      assert Exact(EMPTY_HUB, {}) by { EmptyExact(); }
    } else {
      var before, op := RunOps(ops[..|ops| - 1]), ops[|ops| - 1];
      if op.Subscribe? {
        DeliversToLive(ops[..|ops| - 1], op.key);
        SubscribeExact(before.hub, before.live, op.key, op.subscriber);
      } else {
        DeliversToLive(ops[..|ops| - 1], key);
        InvokeExact(before.hub, before.live, op.handle);
      }
    }
    ExactMeaning(RunOps(ops).hub, RunOps(ops).live, key);
  }

  lemma EmptyExact()
    ensures Exact(EMPTY_HUB, {})
  {
  }

  /** One handle called twice: the second call drops the key's new set, and with it a live subscriber. */
  lemma DoubleInvokeDropsOther(key: string, first: Subscriber, second: Subscriber)
    requires first != second
    ensures var h := Handle(key, 0, first);
            var t := RunOps([HubOp.Subscribe(key, first), Invoke(h), HubOp.Subscribe(key, second), Invoke(h)]);
            t.live == {Handle(key, 1, second)} && t.hub.Subscribers(key) == {}
  {
    hide RunOps;
    var h := Handle(key, 0, first);
    var a, b, c, d := HubOp.Subscribe(key, first), Invoke(h), HubOp.Subscribe(key, second), Invoke(h);
    NoOps();
    RunOpsAppend([], a);
    RunOpsAppend([a], b);
    RunOpsAppend([a, b], c);
    RunOpsAppend([a, b, c], d);
    assert [] + [a] == [a] && [a] + [b] == [a, b] && [a, b] + [c] == [a, b, c] && [a, b, c] + [d] == [a, b, c, d];
    var none: set<Subscriber> := {};
    var noSets: seq<set<Subscriber>> := [];
    assert none + {first} == {first} && none + {second} == {second};
    assert (noSets + [none])[0 := none + {first}] == [{first}];
    assert ([none] + [none])[1 := none + {second}] == [none, {second}];
    assert RunOps([a]) == Traced(Hub(map[key := 0], [{first}]), {h});
    assert RunOps([a, b]) == Traced(Hub(map[], [{}]), {});
    assert RunOps([a, b, c]) == Traced(Hub(map[key := 1], [{}, {second}]), {Handle(key, 1, second)});
  }

  lemma NoOps()
    ensures RunOps([]) == Traced(EMPTY_HUB, {})
  {
  }

  lemma RunOpsAppend(ops: seq<HubOp>, op: HubOp)
    ensures RunOps(ops + [op]) == OnOp(RunOps(ops), op)
  {
    hide OnOp;
    assert (ops + [op])[..|ops|] == ops;
  }

  // ---- the object ----

  class StreamHub {
    var subscribers: map<string, nat>
    var sets: seq<set<Subscriber>>

    function Now(): Hub
      reads this
    {
      Hub(subscribers, sets)
    }

    ghost predicate Valid()
      reads this
    {
      forall k :: k in subscribers ==> subscribers[k] < |sets|
    }

    constructor ()
      ensures Valid() && Now() == EMPTY_HUB
    {
      subscribers, sets := map[], [];
    }

    method Subscribe(key: string, subscriber: Subscriber) returns (h: Handle)
      requires Valid()
      modifies this
      ensures Valid() && h == Handle(key, old(Now()).Joined(key), subscriber)
      ensures Now() == old(Now()).OnSubscribe(key, subscriber)
    {
      if key !in subscribers {
        subscribers, sets := subscribers[key := |sets|], sets + [{}];
      }
      var id := subscribers[key];
      sets := sets[id := sets[id] + {subscriber}];
      h := Handle(key, id, subscriber);
      assert subscribers == old(subscribers)[key := id];
    }

    /** What calling the function returned by `Subscribe` does. */
    method Unsubscribe(h: Handle)
      requires Valid() && h.set_ < |sets|
      modifies this
      ensures Valid() && Now() == old(Now()).OnInvoke(h)
    {
      sets := sets[h.set_ := sets[h.set_] - {h.subscriber}];
      if sets[h.set_] == {} { subscribers := subscribers - {h.key}; }
    }

    /**
     Fan one payload out: every subscriber of the key runs once, and each one that throws is reported, not propagated.
     */
    method Publish(key: string, throws: Subscriber -> bool)
      returns (notified: multiset<Subscriber>, reported: set<Subscriber>)
      requires Valid()
      ensures notified == multiset(Now().Subscribers(key))
      ensures reported == set s | s in Now().Subscribers(key) && throws(s)
    {
      var todo := Now().Subscribers(key);
      notified, reported := multiset{}, {};
      while todo != {}
        invariant todo <= Now().Subscribers(key)
        invariant notified == multiset(Now().Subscribers(key) - todo)
        invariant reported == set s | s in Now().Subscribers(key) - todo && throws(s)
        decreases todo
      {
        var s :| s in todo;
        notified := notified + multiset{s};
        if throws(s) { reported := reported + {s}; }
        todo := todo - {s};
      }
    }
  }
}
