/**
 One socket's subscriptions: acquires that settle later race with unsubscribes and with the socket closing.
 A hub handle is the index at which it was handed out; an acquire in flight is a token.
 */
module Subscriptions {

  datatype Kind = CandleKind | IndicatorKind | QuoteKind | RuleEventKind
  {
    /** Whether the kind holds an upstream subscription under a key its service generates. */
    predicate Upstream() { IndicatorKind? || QuoteKind? }
  }

  datatype Slot = Slot(kind: Kind, key: string)

  datatype Stage = Acquiring(kind: Kind) | Acquired(slot: Slot)

  datatype Socket = Socket(
    active: map<Slot, nat>,     // slot to hub handle
    closed: bool,
    pending: map<nat, Stage>,   // subscribe messages whose acquire has not been resumed yet
    handles: seq<Slot>,         // every hub handle handed out, by the slot it was for
    invoked: multiset<nat>,     // how often each handle has been called
    held: set<Slot>             // upstream subscriptions acquired and not released
  )

  datatype Action =
    | Begin(token: nat, kind: Kind)        // a valid subscribe message arrives
    | Grant(token: nat, key: string)       // the kind's acquire takes effect upstream
    | Refuse(token: nat)                   // the kind's acquire throws
    | Resume(token: nat)                   // the awaited acquire resumes the pipeline
    | Unsubscribe(slot: Slot)              // a valid unsubscribe message arrives
    | Close                                // the socket closes

  predicate Enabled(s: Socket, a: Action) {
    match a
    case Begin(token, _) => token !in s.pending
    case Grant(token, _) => token in s.pending && s.pending[token].Acquiring?
    case Refuse(token) => token in s.pending && s.pending[token].Acquiring?
    case Resume(token) => token in s.pending && s.pending[token].Acquired?
    case Unsubscribe(_) => true
    case Close => true
  }

  function OnGrant(s: Socket, token: nat, key: string): Socket
    requires Enabled(s, Grant(token, key))
  {
    var slot := Slot(s.pending[token].kind, key);
    s.(pending := s.pending[token := Acquired(slot)], held := if slot.kind.Upstream() then s.held + {slot} else s.held)
  }

  /** Register the subscription, or release it when the socket has closed meanwhile. */
  function OnResume(s: Socket, token: nat): Socket
    requires Enabled(s, Resume(token))
  {
    var slot := s.pending[token].slot;
    var settled := s.(pending := s.pending - {token});
    if s.closed then settled.(held := s.held - {slot})
    else settled.(handles := s.handles + [slot], active := s.active[slot := |s.handles|])
  }

  function OnUnsubscribe(s: Socket, slot: Slot): Socket {
    s.(active := s.active - {slot}, held := s.held - {slot},
       invoked := if slot in s.active then s.invoked + multiset{s.active[slot]} else s.invoked)
  }

  function OnClose(s: Socket): Socket {
    if s.closed then s
    else s.(closed := true, active := map[], held := s.held - s.active.Keys,
            invoked := s.invoked + multiset(s.active.Values))
  }

  /** One action; an action that is not enabled cannot happen, and is ignored. */
  function OnAction(s: Socket, a: Action): Socket {
    if !Enabled(s, a) then s
    else
      match a
      case Begin(token, kind) => s.(pending := s.pending[token := Acquiring(kind)])
      case Grant(token, key) => OnGrant(s, token, key)
      case Refuse(token) => s.(pending := s.pending - {token})
      case Resume(token) => OnResume(s, token)
      case Unsubscribe(slot) => OnUnsubscribe(s, slot)
      case Close => OnClose(s)
  }

  const FRESH_SOCKET := Socket(map[], false, map[], [], multiset{}, {})

  /** The handle a resumed subscribe replaces in the active map without calling it, if any. */
  function Overwrites(s: Socket, a: Action): set<nat> {
    if a.Resume? && Enabled(s, a) && !s.closed && s.pending[a.token].slot in s.active
        then {s.active[s.pending[a.token].slot]} else {}
  }

  // ---- runs ----

  datatype Run = Run(socket: Socket, overwritten: set<nat>)

  function RunOf(actions: seq<Action>): Run {
    if actions == [] then Run(FRESH_SOCKET, {})
    else
      var before, a := RunOf(actions[..|actions| - 1]), actions[|actions| - 1];
      Run(OnAction(before.socket, a), before.overwritten + Overwrites(before.socket, a))
  }

  // ---- what every run keeps ----

  /** A handle stays uncalled while active, or once overwritten; every other handle has been called exactly once. */
  ghost predicate HandlesKept(s: Socket, overwritten: set<nat>) {
    && (forall slot :: slot in s.active ==>
          s.active[slot] < |s.handles| && s.handles[s.active[slot]] == slot && s.active[slot] !in overwritten)
    && (forall h :: h in overwritten ==> h < |s.handles|)
    && (forall h: nat :: s.invoked[h] == if h < |s.handles| && h !in overwritten && !Active(s, h) then 1 else 0)
  }

  predicate Active(s: Socket, h: nat) {
    h < |s.handles| && s.handles[h] in s.active && s.active[s.handles[h]] == h
  }

  /** An upstream subscription still held belongs to an active slot, or to an acquire waiting to be resumed. */
  ghost predicate HeldKept(s: Socket) {
    forall slot :: slot in s.held ==> slot in s.active || exists t :: t in s.pending && s.pending[t] == Acquired(slot)
  }

  ghost predicate Kept(s: Socket, overwritten: set<nat>) {
    && HandlesKept(s, overwritten)
    && HeldKept(s)
    && (s.closed ==> s.active == map[])
  }

  lemma ResumeKeepsHandles(s: Socket, overwritten: set<nat>, token: nat)
    requires HandlesKept(s, overwritten) && Enabled(s, Resume(token)) && !s.closed
    ensures HandlesKept(OnResume(s, token), overwritten + Overwrites(s, Resume(token)))
  {
    var slot, s' := s.pending[token].slot, OnResume(s, token);
    forall h: nat ensures Active(s', h) == (h == |s.handles| || (Active(s, h) && s.handles[h] != slot)) {
    }
    forall h: nat ensures h in Overwrites(s, Resume(token)) <==> Active(s, h) && s.handles[h] == slot {
    }
  }

  lemma UnsubscribeKeepsHandles(s: Socket, overwritten: set<nat>, slot: Slot)
    requires HandlesKept(s, overwritten)
    ensures HandlesKept(OnUnsubscribe(s, slot), overwritten)
  {
    var s' := OnUnsubscribe(s, slot);
    forall h: nat ensures Active(s', h) == (Active(s, h) && s.handles[h] != slot) {
    }
    forall h: nat ensures Active(s, h) && s.handles[h] == slot <==> slot in s.active && h == s.active[slot] {
    }
  }

  lemma CloseKeepsHandles(s: Socket, overwritten: set<nat>)
    requires HandlesKept(s, overwritten) && !s.closed
    ensures HandlesKept(OnClose(s), overwritten)
  {
    forall h: nat ensures h in s.active.Values <==> Active(s, h) {
      if h in s.active.Values {
        var slot :| slot in s.active && s.active[slot] == h;
      }
    }
  }

  lemma ActionKeepsHeld(s: Socket, a: Action)
    requires HeldKept(s) && (s.closed ==> s.active == map[])
    ensures HeldKept(OnAction(s, a))
  {
    var s' := OnAction(s, a);
    forall slot | slot in s'.held
      ensures slot in s'.active || exists t :: t in s'.pending && s'.pending[t] == Acquired(slot)
    {
      if slot in s.held {
        if slot !in s.active {
          var t :| t in s.pending && s.pending[t] == Acquired(slot);
          assert a != Resume(t) ==> t in s'.pending && s'.pending[t] == s.pending[t];
        }
      } else {
        assert a.Grant? && s'.pending[a.token] == Acquired(slot);
      }
    }
  }

  lemma ActionKeeps(s: Socket, overwritten: set<nat>, a: Action)
    requires Kept(s, overwritten)
    ensures Kept(OnAction(s, a), overwritten + Overwrites(s, a))
  {
    hide HandlesKept, HeldKept;
    ActionKeepsHeld(s, a);
    NoneOverwritten(s, overwritten, a);
    match a
    case Resume(token) => if !s.closed && Enabled(s, a) { ResumeKeepsHandles(s, overwritten, token); }
    case Unsubscribe(slot) => UnsubscribeKeepsHandles(s, overwritten, slot);
    case Close => if !s.closed { CloseKeepsHandles(s, overwritten); }
    case _ =>
  }

  /** Where no handle is handed out, called or forgotten, the handles are as they were. */
  lemma NoneOverwritten(s: Socket, overwritten: set<nat>, a: Action)
    requires HandlesKept(s, overwritten)
    ensures var s' := OnAction(s, a);
            s'.active == s.active && s'.handles == s.handles && s'.invoked == s.invoked ==> HandlesKept(s', overwritten)
    ensures !a.Resume? || s.closed || !Enabled(s, a) ==> overwritten + Overwrites(s, a) == overwritten
  {
    hide OnAction, Enabled;
  }

  lemma {:induction false} RunKeeps(actions: seq<Action>)
    ensures Kept(RunOf(actions).socket, RunOf(actions).overwritten)
  {
    hide OnAction, Overwrites, Enabled;
    if actions == [] {
    } else {
      var before := RunOf(actions[..|actions| - 1]);
      RunKeeps(actions[..|actions| - 1]);
      ActionKeeps(before.socket, before.overwritten, actions[|actions| - 1]);
    }
  }

  /**
   After the socket has closed and every acquire has settled: nothing is held upstream, every hub handle that was not
   overwritten has been called exactly once, and an overwritten one never.
   */
  lemma SettledAfterClose(actions: seq<Action>)
    requires RunOf(actions).socket.closed && RunOf(actions).socket.pending == map[]
    ensures var s := RunOf(actions).socket;
            && s.active == map[] && s.held == {}
            && forall h: nat :: s.invoked[h] == if h < |s.handles| && h !in RunOf(actions).overwritten then 1 else 0
  {
    hide RunOf;
    RunKeeps(actions);
    var s := RunOf(actions).socket;
    forall slot ensures slot !in s.held {
      assert slot !in s.active;
    }
  }

  /** Action `i` resumes a subscribe, on a socket still open, whose slot is already active. */
  predicate OverwritesAt(actions: seq<Action>, i: nat)
    requires i < |actions|
  {
    Overwrites(RunOf(actions[..i]).socket, actions[i]) != {}
  }

  lemma OverwritesAtFront(actions: seq<Action>, i: nat)
    requires i + 1 < |actions|
    ensures OverwritesAt(actions[..|actions| - 1], i) == OverwritesAt(actions, i)
  {
    assert actions[..|actions| - 1][..i] == actions[..i];
  }

  /** A handle is overwritten exactly when some subscribe resumed on an open socket whose slot was already active. */
  lemma {:induction false} OverwrittenMeans(actions: seq<Action>)
    ensures RunOf(actions).overwritten != {} <==> exists i :: 0 <= i < |actions| && OverwritesAt(actions, i)
  {
    if actions == [] {
      assert RunOf(actions).overwritten == {};
    } else {
      var n := |actions| - 1;
      OverwrittenMeans(actions[..n]);
      forall i | 0 <= i < n ensures OverwritesAt(actions[..n], i) == OverwritesAt(actions, i) {
        OverwritesAtFront(actions, i);
      }
      OverwrittenLast(actions);
    }
  }

  lemma OverwrittenLast(actions: seq<Action>)
    requires actions != []
    ensures RunOf(actions).overwritten != {} <==>
              RunOf(actions[..|actions| - 1]).overwritten != {} || OverwritesAt(actions, |actions| - 1)
  {
    hide Overwrites, OnAction;
  }

  /**
   An indicator or quote acquire holds its slot upstream from the moment it takes effect; other kinds hold nothing.
   */
  lemma GrantHolds(s: Socket, token: nat, key: string)
    requires Enabled(s, Grant(token, key))
    ensures var kind := s.pending[token].kind;
            OnAction(s, Grant(token, key)).held
            == if kind == IndicatorKind || kind == QuoteKind then s.held + {Slot(kind, key)} else s.held
  {
  }

  // ---- server-generated keys ----

  /** Every upstream slot an acquire has ever returned. */
  function Granted(actions: seq<Action>): set<Slot> {
    if actions == [] then {}
    else
      var front, a := actions[..|actions| - 1], actions[|actions| - 1];
      Granted(front) + if a.Grant? && Enabled(RunOf(front).socket, a)
                         then {Slot(RunOf(front).socket.pending[a.token].kind, a.key)} else {}
  }

  /** The upstream services never return the same key twice. */
  ghost predicate FreshKeys(actions: seq<Action>) {
    actions != [] ==>
      var front, a := actions[..|actions| - 1], actions[|actions| - 1];
      && FreshKeys(front)
      && (a.Grant? && Enabled(RunOf(front).socket, a) ==>
            var kind := RunOf(front).socket.pending[a.token].kind;
            kind == IndicatorKind || kind == QuoteKind ==> Slot(kind, a.key) !in Granted(front))
  }

  /** An upstream slot waits in at most one acquire, and is not active while it waits. */
  ghost predicate Separate(s: Socket, granted: set<Slot>) {
    && (forall slot :: slot in s.active ==> slot in granted)
    && (forall t :: t in s.pending && s.pending[t].Acquired? ==> s.pending[t].slot in granted)
    && (forall t :: t in s.pending && s.pending[t].Acquired? && s.pending[t].slot.kind.Upstream() ==>
          s.pending[t].slot !in s.active)
    && (forall t, u | t in s.pending && u in s.pending && s.pending[u] == s.pending[t] ::
          s.pending[t].Acquired? && s.pending[t].slot.kind.Upstream() ==> t == u)
  }

  lemma ActionKeepsSeparate(s: Socket, granted: set<Slot>, a: Action)
    requires Separate(s, granted)
    requires a.Grant? && Enabled(s, a) && s.pending[a.token].kind.Upstream() ==>
             Slot(s.pending[a.token].kind, a.key) !in granted
    ensures Separate(OnAction(s, a), granted + if a.Grant? && Enabled(s, a) then {Slot(s.pending[a.token].kind, a.key)}
                                                 else {})
  {
  }

  lemma {:induction false} RunSeparate(actions: seq<Action>)
    requires FreshKeys(actions)
    ensures Separate(RunOf(actions).socket, Granted(actions))
  {
    hide OnAction, Overwrites;
    if actions != [] {
      RunSeparate(actions[..|actions| - 1]);
      ActionKeepsSeparate(RunOf(actions[..|actions| - 1]).socket, Granted(actions[..|actions| - 1]),
                          actions[|actions| - 1]);
    }
  }

  lemma HandlesGrow(s: Socket, a: Action)
    ensures s.handles <= OnAction(s, a).handles
  {
  }

  /** With server-generated keys no indicator or quote handle is ever overwritten. */
  lemma {:induction false} FreshKeysNeverOverwritten(actions: seq<Action>)
    requires FreshKeys(actions)
    ensures var r := RunOf(actions);
            forall h :: h in r.overwritten ==>
              h < |r.socket.handles| && r.socket.handles[h].kind != IndicatorKind
                  && r.socket.handles[h].kind != QuoteKind
  {
    hide OnAction;
    if actions != [] {
      var front, a := actions[..|actions| - 1], actions[|actions| - 1];
      FreshKeysNeverOverwritten(front);
      RunSeparate(front);
      RunKeeps(front);
      HandlesGrow(RunOf(front).socket, a);
    }
  }

  /** Once the socket has closed and all acquires have settled, fresh keys leave no indicator or quote handle live. */
  lemma NothingLeaks(actions: seq<Action>, h: nat)
    requires FreshKeys(actions) && RunOf(actions).socket.closed && RunOf(actions).socket.pending == map[]
    requires h < |RunOf(actions).socket.handles|
    requires var kind := RunOf(actions).socket.handles[h].kind; kind == IndicatorKind || kind == QuoteKind
    ensures RunOf(actions).socket.invoked[h] == 1
  {
    hide RunOf, FreshKeys;
    SettledAfterClose(actions);
    FreshKeysNeverOverwritten(actions);
  }

  lemma RunAppend(front: seq<Action>, a: Action)
    ensures RunOf(front + [a])
            == Run(OnAction(RunOf(front).socket, a), RunOf(front).overwritten + Overwrites(RunOf(front).socket, a))
  {
    hide OnAction, Overwrites;
    assert (front + [a])[..|front|] == front;
  }

  /** A subscribe that runs to its end without interruption, on an open socket. */
  function Subscribing(token: nat, slot: Slot): seq<Action> {
    [Begin(token, slot.kind), Grant(token, slot.key), Resume(token)]
  }

  function Subscribed(r: Run, slot: Slot): Run {
    var s := r.socket;
    Run(s.(active := s.active[slot := |s.handles|], handles := s.handles + [slot],
           held := if slot.kind.Upstream() then s.held + {slot} else s.held),
        r.overwritten + if slot in s.active then {s.active[slot]} else {})
  }

  lemma SubscribeCompletes(front: seq<Action>, token: nat, slot: Slot)
    requires !RunOf(front).socket.closed && token !in RunOf(front).socket.pending
    ensures RunOf(front + Subscribing(token, slot)) == Subscribed(RunOf(front), slot)
  {
    hide RunOf;
    var s := RunOf(front).socket;
    var begin, grant, resume := Begin(token, slot.kind), Grant(token, slot.key), Resume(token);
    RunAppend(front, begin);
    RunAppend(front + [begin], grant);
    RunAppend(front + [begin] + [grant], resume);
    assert front + [begin] + [grant] + [resume] == front + Subscribing(token, slot);
    assert s.pending[token := Acquiring(slot.kind)][token := Acquired(slot)] - {token} == s.pending;
  }

  /** An overwritten handle is never called afterwards, whatever happens: not on unsubscribe, not on close. */
  lemma {:induction false} OverwrittenStaysLive(actions: seq<Action>, more: seq<Action>, h: nat)
    requires h in RunOf(actions).overwritten
    ensures h in RunOf(actions + more).overwritten
    ensures RunOf(actions + more).socket.invoked[h] == 0
  {
    hide RunOf, Overwrites, OnAction;
    if more == [] {
      assert actions + more == actions;
    } else {
      var front := more[..|more| - 1];
      OverwrittenStaysLive(actions, front, h);
      RunAppend(actions + front, more[|more| - 1]);
      assert actions + front + [more[|more| - 1]] == actions + more;
    }
    RunKeeps(actions + more);
  }

  /** Subscribing to a slot that is already active, then closing, leaves the first handle live. */
  lemma ResubscribeLeaks(front: seq<Action>, token: nat, slot: Slot)
    requires !RunOf(front).socket.closed && token !in RunOf(front).socket.pending && slot in RunOf(front).socket.active
    ensures var s, s' := RunOf(front).socket, RunOf(front + Subscribing(token, slot) + [Close]).socket;
            s'.closed && s'.pending == s.pending && s'.invoked[s.active[slot]] == 0
  {
    hide RunOf;
    SubscribeCompletes(front, token, slot);
    RunAppend(front + Subscribing(token, slot), Close);
    OverwrittenStaysLive(front + Subscribing(token, slot), [Close], RunOf(front).socket.active[slot]);
  }

  /**
   A client subscribing twice to the same symbol's candles leaves the first handle live after the socket has closed.
   */
  lemma CandleResubscribeLeaks(id: string) returns (actions: seq<Action>)
    ensures FreshKeys(actions) && RunOf(actions).socket.closed && RunOf(actions).socket.pending == map[]
    ensures RunOf(actions).socket.invoked[0] == 0
  {
    var slot := Slot(CandleKind, id);
    var once := [] + Subscribing(0, slot);
    actions := once + Subscribing(1, slot) + [Close];
    NoUpstreamGrants(actions);
    assert RunOf([]) == Run(FRESH_SOCKET, {});
    hide RunOf, FreshKeys, Subscribing;
    SubscribeCompletes([], 0, slot);
    ResubscribeLeaks(once, 1, slot);
  }

  /** No acquire in flight is for a kind with server-generated keys. */
  ghost predicate ClientKeyed(s: Socket) {
    forall t :: t in s.pending && s.pending[t].Acquiring? ==> !s.pending[t].kind.Upstream()
  }

  lemma ActionKeepsClientKeyed(s: Socket, a: Action)
    requires ClientKeyed(s) && (a.Begin? ==> !a.kind.Upstream())
    ensures ClientKeyed(OnAction(s, a))
    ensures a.Grant? && Enabled(s, a) ==> !s.pending[a.token].kind.Upstream()
  {
  }

  lemma {:induction false} NoUpstreamGrants(actions: seq<Action>)
    requires forall i :: 0 <= i < |actions| && actions[i].Begin? ==> !actions[i].kind.Upstream()
    ensures FreshKeys(actions)
    ensures ClientKeyed(RunOf(actions).socket)
  {
    hide OnAction, Overwrites, Enabled, ClientKeyed, Granted;
    if actions == [] {
      NothingPending();
    } else {
      NoUpstreamGrants(actions[..|actions| - 1]);
      ActionKeepsClientKeyed(RunOf(actions[..|actions| - 1]).socket, actions[|actions| - 1]);
    }
  }

  lemma NothingPending()
    ensures ClientKeyed(FRESH_SOCKET)
  {
  }

  // ---- the object ----

  ghost predicate Distinct(active: map<Slot, nat>) {
    forall a, b :: a in active && b in active && active[a] == active[b] ==> a == b
  }

  ghost function HandlesOf(active: map<Slot, nat>, slots: set<Slot>): set<nat>
    requires slots <= active.Keys
  {
    set slot | slot in slots :: active[slot]
  }

  /** Every active slot but those still to do has been released, and its handle called once more. */
  ghost predicate TornDown(before: Socket, todo: set<Slot>, held: set<Slot>, invoked: multiset<nat>) {
    var done := before.active.Keys - todo;
    held == before.held - done && invoked == before.invoked + multiset(HandlesOf(before.active, done))
  }

  lemma NoneTornDown(before: Socket)
    ensures TornDown(before, before.active.Keys, before.held, before.invoked)
  {
  }

  lemma TearDownOne(before: Socket, todo: set<Slot>, slot: Slot, held: set<Slot>, invoked: multiset<nat>)
    requires TornDown(before, todo, held, invoked) && Distinct(before.active) && todo <= before.active.Keys
             && slot in todo
    ensures TornDown(before, todo - {slot}, held - {slot}, invoked + multiset{before.active[slot]})
  {
    var active := before.active;
    var done := active.Keys - todo;
    assert active.Keys - (todo - {slot}) == done + {slot};
    assert HandlesOf(active, done + {slot}) == HandlesOf(active, done) + {active[slot]};
    assert active[slot] !in HandlesOf(active, done);
  }

  lemma AllTornDown(before: Socket, held: set<Slot>, invoked: multiset<nat>)
    requires TornDown(before, {}, held, invoked)
    ensures held == before.held - before.active.Keys && invoked == before.invoked + multiset(before.active.Values)
  {
    assert HandlesOf(before.active, before.active.Keys - {}) == before.active.Values;
  }

  class SocketSubscriptions {
    var active: map<Slot, nat>
    var closed: bool
    var pending: map<nat, Stage>
    var handles: seq<Slot>
    var invoked: multiset<nat>
    var held: set<Slot>

    function Now(): Socket
      reads this
    {
      Socket(active, closed, pending, handles, invoked, held)
    }

    constructor ()
      ensures Now() == FRESH_SOCKET
    {
      active, closed, pending, handles, invoked, held := map[], false, map[], [], multiset{}, {};
    }

    /** `subscribeHub`: a new handle for the slot. */
    method SubscribeHub(slot: Slot) returns (h: nat)
      modifies this`handles
      ensures h == |old(handles)| && handles == old(handles) + [slot]
    {
      h, handles := |handles|, handles + [slot];
    }

    /** Calling a hub handle. */
    method UnsubscribeHub(h: nat)
      modifies this`invoked
      ensures invoked == old(invoked) + multiset{h}
    {
      invoked := invoked + multiset{h};
    }

    /** `release`, where the kind defines it. */
    method Release(slot: Slot)
      modifies this`held
      ensures held == old(held) - {slot}
    {
      held := held - {slot};
    }

    /** The part of the pipeline after the awaited acquire: race check, hub subscription, bookkeeping. */
    method ResumeSubscribe(token: nat)
      requires Enabled(Now(), Resume(token))
      modifies this
      ensures Now() == OnAction(old(Now()), Resume(token))
    {
      var slot := pending[token].slot;
      pending := pending - {token};
      if closed {
        Release(slot);
        return;
      }
      var unsubscribeHub := SubscribeHub(slot);
      active := active[slot := unsubscribeHub];
    }

    method RunUnsubscribe(slot: Slot)
      modifies this
      ensures Now() == OnAction(old(Now()), Action.Unsubscribe(slot))
    {
      if slot in active { UnsubscribeHub(active[slot]); }
      active := active - {slot};
      Release(slot);
    }

    /** Call every active handle and release its slot, in any order. */
    method TearDownAll()
      requires Distinct(active)
      modifies this`held, this`invoked
      ensures held == old(held) - active.Keys && invoked == old(invoked) + multiset(active.Values)
    {
      hide *;
      ghost var before := Now();
      NowFields();
      var todo := active.Keys;
      NoneTornDown(before);
      while todo != {}
        invariant todo <= active.Keys
        invariant TornDown(before, todo, held, invoked)
        decreases todo
      {
        var slot :| slot in todo;
        TearDownOne(before, todo, slot, held, invoked);
        UnsubscribeHub(active[slot]);
        Release(slot);
        todo := todo - {slot};
      }
      AllTornDown(before, held, invoked);
    }

    lemma NowFields()
      ensures Now().active == active && Now().held == held && Now().invoked == invoked
    {
    }

    /** Tear down every active subscription; a second call does nothing. */
    method Cleanup()
      requires Distinct(active)
      modifies this
      ensures Now() == OnAction(old(Now()), Close)
    {
      if closed { return; }
      closed := true;
      TearDownAll();
      active := map[];
    }
  }

  /** The handles an active map holds are distinct in every run, as `Cleanup` needs. */
  lemma ActiveHandlesDistinct(actions: seq<Action>)
    ensures Distinct(RunOf(actions).socket.active)
  {
    hide RunOf;
    RunKeeps(actions);
  }
}
