/**
 Fan-out of execution output to subscribers (internal/events/execution_stream_hub.go).

 This module holds what the hub does under its lock and under one subscriber's guard, as
 functions on values, and the mutable hub whose methods are proved against them.  How the
 regions of concurrent calls interleave is the subject of ExecutionStreamRuns.
 */
module ExecutionStreamHub {
  import opened Listing
  import opened Wrappers

  const BUFFER := 128
  const DEFAULT_SUBSCRIPTIONS := 25000

  datatype Event = Event(execID: string, kind: string, delta: string, offset: int, status: string, error: string)

  // ---- One subscriber: its channel and the guard that serialises sends and the close ----

  /** `closed` is the guard's flag; `chanClosed` is the state of the Go channel itself. */
  datatype Chan = Chan(closed: bool, chanClosed: bool, buf: seq<Event>)

  const NEW_CHAN := Chan(false, false, [])

  /** Sending on, or closing, a channel that is already closed panics. */
  predicate Panics(ch: Chan) {
    !ch.closed && ch.chanClosed
  }

  /** The guarded region of Publish: deliver, or close a subscriber whose buffer is full. */
  function Offer(ch: Chan, ev: Event): Chan {
    if ch.closed then ch
    else if |ch.buf| < BUFFER then ch.(buf := ch.buf + [ev])
    else ch.(closed := true, chanClosed := true)
  }

  predicate Accepts(ch: Chan) {
    !ch.closed && |ch.buf| < BUFFER
  }

  /** The guarded region of Close: deliver the terminal event if it fits, then close. */
  function OfferTerminal(ch: Chan, ev: Event): Chan {
    if ch.closed then ch
    else Chan(true, true, if |ch.buf| < BUFFER then ch.buf + [ev] else ch.buf)
  }

  /** The guarded region of Unsubscribe. */
  function Shut(ch: Chan): Chan {
    if ch.closed then ch else ch.(closed := true, chanClosed := true)
  }

  // ---- The hub: groups of subscribers per execution ----

  datatype Group<C> = Group(members: set<C>, snapshot: seq<C>, dirty: bool)

  /** `groups` is the heap of group objects: it also keeps those Close has detached. */
  datatype Hub<G, C> = Hub(subs: map<string, G>, groups: map<G, Group<C>>, count: int, max: int)

  ghost predicate Linked<G, C>(h: Hub<G, C>) {
    forall e | e in h.subs :: h.subs[e] in h.groups
  }

  /** The members of the group now stored for an execution. */
  function Members<G, C>(h: Hub<G, C>, e: string): set<C>
    requires Linked(h)
  {
    if e in h.subs then h.groups[h.subs[e]].members else {}
  }

  function WithSubscriber<G(==), C>(h: Hub<G, C>, e: string, c: C, alloc: G): Hub<G, C>
    requires Linked(h)
  {
    if h.count >= h.max then h
    else
      var g := if e in h.subs then h.subs[e] else alloc;
      var group := if e in h.subs then h.groups[g] else Group({}, [], false);
      Hub(h.subs[e := g], h.groups[g := Group(group.members + {c}, group.snapshot, true)], h.count + 1, h.max)
  }

  function WithoutSubscriber<G(==), C(==)>(h: Hub<G, C>, e: string, c: C): Hub<G, C>
    requires Linked(h)
  {
    if c !in Members(h, e) then h
    else
      var g := h.subs[e];
      var left := h.groups[g].members - {c};
      if left == {} then
        Hub(h.subs - {e}, h.groups[g := h.groups[g].(members := left)], h.count - 1, h.max)
      else
        Hub(h.subs, h.groups[g := h.groups[g].(members := left, dirty := true)], h.count - 1, h.max)
  }

  /** What Publish sees under the read lock: a usable snapshot, or [] for Go's nil. */
  function ReadSnapshot<G, C>(h: Hub<G, C>, e: string): seq<C>
    requires Linked(h)
  {
    if e in h.subs && !h.groups[h.subs[e]].dirty then h.groups[h.subs[e]].snapshot else []
  }

  /** Publish under the write lock: rebuild a dirty snapshot in the given order. */
  function Rebuild<G(==), C>(h: Hub<G, C>, e: string, order: seq<C>): Hub<G, C>
    requires Linked(h)
  {
    if e in h.subs && h.groups[h.subs[e]].dirty then
      h.(groups := h.groups[h.subs[e] := h.groups[h.subs[e]].(snapshot := order, dirty := false)])
    else h
  }

  function CountAfterClose<G, C>(h: Hub<G, C>, e: string): int
    requires Linked(h)
  {
    h.count - |Members(h, e)|
  }

  /** Close under the write lock, with the clamp of a negative count. */
  function Detach<G, C>(h: Hub<G, C>, e: string): Hub<G, C>
    requires Linked(h)
  {
    var n := CountAfterClose(h, e);
    h.(subs := h.subs - {e}, count := if n < 0 then 0 else n)
  }

  // ---- What the hub keeps ----

  /** All (execution, subscriber) pairs: their number is the sum of the group sizes. */
  ghost function Memberships<G, C>(h: Hub<G, C>): set<(string, C)>
    requires Linked(h)
  {
    set e, c | e in h.subs && c in h.groups[h.subs[e]].members :: (e, c)
  }

  ghost predicate HubOK<G, C>(h: Hub<G, C>) {
    && Linked(h)
    && (forall e, f | e in h.subs && f in h.subs && h.subs[e] == h.subs[f] :: e == f)
    && (forall e | e in h.subs :: Members(h, e) != {})
    && (forall e | e in h.subs && !h.groups[h.subs[e]].dirty :: Lists(h.groups[h.subs[e]].snapshot, Members(h, e)))
    && h.count == |Memberships(h)| <= h.max
  }

  /** A group no longer stored is never changed and never stored again. */
  ghost predicate DetachedStay<G, C>(h: Hub<G, C>, h': Hub<G, C>) {
    forall g | g in h.groups && g !in h.subs.Values ::
      g in h'.groups && g !in h'.subs.Values && h'.groups[g] == h.groups[g]
  }

  lemma NothingMoved<G, C>(h: Hub<G, C>)
    ensures DetachedStay(h, h)
  {
  }

  /** A call on execution `e` leaves the budget, and the groups of all the others, and their lists, alone. */
  ghost predicate OnlyExec<G, C>(h: Hub<G, C>, h': Hub<G, C>, e: string)
    requires Linked(h) && Linked(h')
  {
    h'.max == h.max && forall f | f != e ::
      (f in h'.subs <==> f in h.subs) && (f in h.subs ==> h'.subs[f] == h.subs[f] && h'.groups[h'.subs[f]] == h.groups[h.subs[f]])
                         && Members(h', f) == Members(h, f)
  }

  lemma {:induction false} PairsOfOne<C>(e: string, s: set<C>)
    ensures |set c | c in s :: (e, c)| == |s|
    decreases |s|
  {
    if s != {} {
      var x :| x in s;
      PairsOfOne(e, s - {x});
      assert (set c | c in s :: (e, c)) == (set c | c in s - {x} :: (e, c)) + {(e, x)};
    }
  }

  ghost function Elsewhere<G, C>(h: Hub<G, C>, e: string): set<(string, C)>
    requires Linked(h)
  {
    set f, c | f in h.subs && f != e && c in h.groups[h.subs[f]].members :: (f, c)
  }

  lemma SplitTotal<G, C>(h: Hub<G, C>, e: string)
    requires Linked(h)
    ensures |Memberships(h)| == |Elsewhere(h, e)| + |Members(h, e)|
  {
    var here := set c | c in Members(h, e) :: (e, c);
    PairsOfOne(e, Members(h, e));
    assert Memberships(h) == Elsewhere(h, e) + here;
  }

  /** Outside `e` nothing moved, so the total moves with the members of `e`. */
  lemma TotalMovesWith<G, C>(h: Hub<G, C>, h': Hub<G, C>, e: string)
    requires Linked(h) && Linked(h') && OnlyExec(h, h', e)
    ensures |Memberships(h')| - |Members(h', e)| == |Memberships(h)| - |Members(h, e)|
  {
    SplitTotal(h, e);
    SplitTotal(h', e);
    assert Elsewhere(h', e) == Elsewhere(h, e);
  }

  lemma SubscribeKeeps<G, C>(h: Hub<G, C>, e: string, c: C, alloc: G)
    requires HubOK(h) && (e in h.subs || alloc !in h.groups) && c !in Members(h, e)
    ensures var h' := WithSubscriber(h, e, c, alloc);
            && Linked(h') && HubOK(h') && OnlyExec(h, h', e) && DetachedStay(h, h')
            && Members(h', e) == Members(h, e) + if h.count < h.max then {c} else {}
  {
    var h' := WithSubscriber(h, e, c, alloc);
    if h.count < h.max {
      SubscribeFrame(h, e, c, alloc);
      hide Memberships, Lists, DetachedStay, OnlyExec;
      TotalMovesWith(h, h', e);
      OthersKeep(h, h', e);
    }
  }

  lemma SubscribeFrame<G, C>(h: Hub<G, C>, e: string, c: C, alloc: G)
    requires HubOK(h) && (e in h.subs || alloc !in h.groups) && h.count < h.max
    ensures var h' := WithSubscriber(h, e, c, alloc);
            Linked(h') && OnlyExec(h, h', e) && DetachedStay(h, h') && Members(h', e) == Members(h, e) + {c}
            && forall f | f in h.subs && f != e :: h.subs[f] != h'.subs[e]
  {
    hide Memberships, Lists;
  }

  /** A change confined to one execution keeps the others' part of the hub invariant. */
  lemma OthersKeep<G, C>(h: Hub<G, C>, h': Hub<G, C>, e: string)
    requires HubOK(h) && Linked(h') && OnlyExec(h, h', e)
    requires e in h'.subs ==> Members(h', e) != {} && forall f | f in h.subs && f != e :: h.subs[f] != h'.subs[e]
    requires e in h'.subs && !h'.groups[h'.subs[e]].dirty ==> Lists(h'.groups[h'.subs[e]].snapshot, Members(h', e))
    requires h'.count == |Memberships(h')| <= h'.max
    ensures HubOK(h')
  {
    forall f | f in h'.subs
      ensures Members(h', f) != {}
      ensures !h'.groups[h'.subs[f]].dirty ==> Lists(h'.groups[h'.subs[f]].snapshot, Members(h', f))
    {
      assert f != e ==> Members(h', f) == Members(h, f);
    }
  }

  lemma SubscribeOK<G, C>(h: Hub<G, C>, e: string, c: C, alloc: G)
    requires Linked(h) && HubOK(h) && (e in h.subs || alloc !in h.groups)
    requires e in h.subs ==> c !in h.groups[h.subs[e]].members
    ensures var h' := WithSubscriber(h, e, c, alloc); Linked(h') && HubOK(h')
  {
    SubscribeKeeps(h, e, c, alloc);
  }

  lemma UnsubscribeOK<G, C>(h: Hub<G, C>, e: string, c: C)
    requires Linked(h) && HubOK(h)
    ensures var h' := WithoutSubscriber(h, e, c); Linked(h') && HubOK(h')
  {
    UnsubscribeKeeps(h, e, c);
  }

  lemma DetachOK<G, C>(h: Hub<G, C>, e: string)
    requires Linked(h) && HubOK(h)
    ensures CountAfterClose(h, e) >= 0
    ensures var h' := Detach(h, e); Linked(h') && HubOK(h')
  {
    DetachKeeps(h, e);
  }

  lemma UnsubscribeKeeps<G, C>(h: Hub<G, C>, e: string, c: C)
    requires HubOK(h)
    ensures var h' := WithoutSubscriber(h, e, c);
            Linked(h') && HubOK(h') && OnlyExec(h, h', e) && DetachedStay(h, h') && Members(h', e) == Members(h, e) - {c}
  {
    var h' := WithoutSubscriber(h, e, c);
    if c in Members(h, e) {
      assert Linked(h') && Members(h', e) == Members(h, e) - {c};
      TotalMovesWith(h, h', e);
      OthersKeep(h, h', e);
    }
  }

  lemma RebuildKeeps<G, C>(h: Hub<G, C>, e: string, order: seq<C>)
    requires HubOK(h) && Lists(order, Members(h, e))
    ensures var h' := Rebuild(h, e, order);
            && Linked(h') && HubOK(h') && OnlyExec(h, h', e) && DetachedStay(h, h') && Members(h', e) == Members(h, e)
            && h'.subs == h.subs && Lists(ReadSnapshot(h', e), Members(h, e))
            && forall f :: Members(h', f) == Members(h, f)
  {
    var h' := Rebuild(h, e, order);
    if h' != h {
      assert Linked(h') && Members(h', e) == Members(h, e);
      TotalMovesWith(h, h', e);
      OthersKeep(h, h', e);
    }
  }

  lemma CachedSnapshotLists<G, C>(h: Hub<G, C>, e: string)
    requires Linked(h) && HubOK(h) && (e in h.subs ==> !h.groups[h.subs[e]].dirty)
    ensures Lists(ReadSnapshot(h, e), Members(h, e))
  {
  }

  /** Close takes out exactly this execution's subscribers, and the clamp at zero is never needed. */
  lemma DetachKeeps<G, C>(h: Hub<G, C>, e: string)
    requires HubOK(h)
    ensures CountAfterClose(h, e) >= 0
    ensures var h' := Detach(h, e);
            && Linked(h') && HubOK(h') && OnlyExec(h, h', e) && DetachedStay(h, h') && Members(h', e) == {}
            && (e in h.subs ==> h.subs[e] !in h'.subs.Values)
  {
    var h' := Detach(h, e);
    assert Linked(h') && Members(h', e) == {};
    TotalMovesWith(h, h', e);
    OthersKeep(h, h', e);
  }

  // ---- The hub as the code keeps it ----

  /** A subscriber channel together with its guard: the two are created and stored as a pair. */
  class Subscriber {
    var closed: bool
    var chanClosed: bool
    var buf: seq<Event>

    constructor ()
      ensures State() == NEW_CHAN
    {
      closed, chanClosed, buf := false, false, [];
    }

    function State(): Chan
      reads this
    {
      Chan(closed, chanClosed, buf)
    }

    method Deliver(ev: Event)
      requires !Panics(State())
      modifies this
      ensures State() == Offer(old(State()), ev)
      ensures !Panics(State())
    {
      if !closed {
        if |buf| < BUFFER {
          buf := buf + [ev];
        } else {
          closed := true;
          CloseChannel();
        }
      }
    }

    method Terminate(ev: Event)
      requires !Panics(State())
      modifies this
      ensures State() == OfferTerminal(old(State()), ev)
      ensures !Panics(State())
    {
      if !closed {
        if |buf| < BUFFER {
          buf := buf + [ev];
        }
        closed := true;
        CloseChannel();
      }
    }

    method ShutDown()
      requires !Panics(State())
      modifies this
      ensures State() == Shut(old(State()))
      ensures !Panics(State())
    {
      if !closed {
        closed := true;
        CloseChannel();
      }
    }

    /** close(ch): a second close panics, so it must still be open. */
    method CloseChannel()
      requires !chanClosed
      modifies this`chanClosed
      ensures chanClosed
    {
      chanClosed := true;
    }
  }

  class StreamGroup {
    var members: set<Subscriber>
    var snapshot: seq<Subscriber>
    var dirty: bool

    constructor ()
      ensures members == {} && snapshot == [] && !dirty
    {
      members, snapshot, dirty := {}, [], false;
    }

    ghost function State(): Group<Subscriber>
      reads this
    {
      Group(members, snapshot, dirty)
    }

    method Add(s: Subscriber)
      modifies this
      ensures State() == Group(old(members) + {s}, old(snapshot), true)
    {
      members := members + {s};
      dirty := true;
    }

    method RebuildSnapshot()
      modifies this
      ensures !dirty && members == old(members)
      ensures |snapshot| == |members|
      ensures forall i, j | 0 <= i < j < |snapshot| :: snapshot[i] != snapshot[j]
      ensures forall s: Subscriber | s in members :: s in snapshot
      ensures forall i | 0 <= i < |snapshot| :: snapshot[i] in members
    {
      dirty := false;
      var rebuilt := [];
      var todo := members;
      while todo != {}
        invariant todo <= members
        invariant |rebuilt| + |todo| == |members|
        invariant forall i, j | 0 <= i < j < |rebuilt| :: rebuilt[i] != rebuilt[j]
        invariant forall s: Subscriber | s in members :: s in todo || s in rebuilt
        invariant forall i | 0 <= i < |rebuilt| :: rebuilt[i] in members && rebuilt[i] !in todo
        decreases |todo|
      {
        var s :| s in todo;
        rebuilt := rebuilt + [s];
        todo := todo - {s};
      }
      snapshot := rebuilt;
    }
  }

  class StreamHub {
    var subs: map<string, StreamGroup>
    var subscriberCount: int
    var maxSubscribers: int
    ghost var model: Hub<StreamGroup, Subscriber>    // the value these fields and their groups stand for
    ghost var subscribers: set<Subscriber>           // every subscriber ever made

    ghost predicate Represents()
      reads this, model.groups.Keys
    {
      && model.subs == subs && model.count == subscriberCount && model.max == maxSubscribers
      && (forall g: StreamGroup | g in model.groups :: g.State() == model.groups[g])
    }

    ghost predicate Valid()
      reads this, model.groups.Keys, subscribers
    {
      && Linked(model) && Represents()
      && HubOK(model)
      && (forall g: StreamGroup | g in model.groups :: model.groups[g].members <= subscribers)
      && (forall s: Subscriber | s in subscribers :: s.chanClosed ==> s.closed)
    }

    constructor (limit: int)
      ensures Valid()
      ensures subs == map[] && subscriberCount == 0
      ensures maxSubscribers == if limit <= 0 then DEFAULT_SUBSCRIPTIONS else limit
    {
      var max := if limit <= 0 then DEFAULT_SUBSCRIPTIONS else limit;
      subs, subscriberCount, maxSubscribers := map[], 0, max;
      model, subscribers := Hub(map[], map[], 0, max), {};
      new;
      assert Memberships(model) == {};
    }

    /** Registers a new, empty, open channel; at the budget it refuses and changes nothing. */
    method Subscribe(execID: string) returns (ok: bool, sub: Subscriber)
      requires Valid()
      modifies this, model.groups.Keys
      ensures Valid() && fresh(sub) && fresh(model.groups.Keys - old(model.groups.Keys))
      ensures ok <==> old(subscriberCount) < maxSubscribers
      ensures subscribers == old(subscribers) + if ok then {sub} else {}
      ensures ok ==> execID in subs && model == WithSubscriber(old(model), execID, sub, subs[execID])
      ensures !ok ==> model == old(model)
      ensures sub.State() == NEW_CHAN
    {
      hide HubOK, Memberships, DetachedStay, OnlyExec;
      sub := new Subscriber();
      ok := subscriberCount < maxSubscribers;
      if ok {
        if execID in subs {
          JoinGroup(execID, sub);
        } else {
          OpenGroup(execID, sub);
        }
      }
    }

    method JoinGroup(execID: string, sub: Subscriber)
      requires Valid() && subscriberCount < maxSubscribers && execID in subs
      requires sub !in subscribers && !Panics(sub.State())
      modifies this, subs[execID]
      ensures Valid() && model.groups.Keys == old(model.groups.Keys)
      ensures subscribers == old(subscribers) + {sub}
      ensures execID in subs && model == WithSubscriber(old(model), execID, sub, subs[execID])
    {
      hide HubOK, Memberships, DetachedStay, OnlyExec, Lists;
      var group := subs[execID];
      SubscribeOK(model, execID, sub, group);
      group.Add(sub);
      subscriberCount := subscriberCount + 1;
      subscribers := subscribers + {sub};
      model := WithSubscriber(model, execID, sub, group);
    }

    method OpenGroup(execID: string, sub: Subscriber)
      requires Valid() && subscriberCount < maxSubscribers && execID !in subs
      requires sub !in subscribers && !Panics(sub.State())
      modifies this
      ensures Valid() && fresh(model.groups.Keys - old(model.groups.Keys))
      ensures subscribers == old(subscribers) + {sub}
      ensures execID in subs && model == WithSubscriber(old(model), execID, sub, subs[execID])
    {
      hide HubOK, Memberships, DetachedStay, OnlyExec, Lists;
      var group := new StreamGroup();
      SubscribeOK(model, execID, sub, group);
      subs := subs[execID := group];
      group.Add(sub);
      subscriberCount := subscriberCount + 1;
      subscribers := subscribers + {sub};
      model := WithSubscriber(model, execID, sub, group);
    }

    /** Forgets the subscriber, if the execution's current group has it, and then closes its channel. */
    method Unsubscribe(execID: string, sub: Subscriber)
      requires Valid()
      modifies this, model.groups.Keys, sub
      ensures Valid() && subscribers == old(subscribers)
      ensures model == WithoutSubscriber(old(model), execID, sub)
      ensures sub.State() == if sub in Members(old(model), execID) then Shut(old(sub.State())) else old(sub.State())
    {
      hide HubOK, Memberships, DetachedStay, OnlyExec;
      var found := RemoveMember(execID, sub);
      if found {
        sub.ShutDown();
      }
    }

    method RemoveMember(execID: string, sub: Subscriber) returns (found: bool)
      requires Valid()
      modifies this, model.groups.Keys
      ensures Valid() && subscribers == old(subscribers)
      ensures model == WithoutSubscriber(old(model), execID, sub)
      ensures found <==> sub in Members(old(model), execID)
    {
      hide HubOK, Memberships, DetachedStay, OnlyExec;
      found := false;
      if execID in subs {
        var group := subs[execID];
        if sub in group.members {
          found := true;
          group.members := group.members - {sub};
          subscriberCount := subscriberCount - 1;
          if group.members == {} {
            subs := subs - {execID};
          } else {
            group.dirty := true;
          }
        }
      }
      UnsubscribeOK(model, execID, sub);
      model := WithoutSubscriber(model, execID, sub);
    }

    /** The two locked regions of Publish: a cached snapshot, or one rebuilt under the write lock. */
    method TakeSnapshot(execID: string) returns (snapshot: seq<Subscriber>)
      requires Valid()
      modifies this`model, model.groups.Keys
      ensures Valid() && Lists(snapshot, Members(old(model), execID))
      ensures model == Rebuild(old(model), execID, snapshot)
    {
      hide HubOK, Memberships, DetachedStay, OnlyExec;
      snapshot := [];
      if execID in subs {
        var group := subs[execID];
        assert model.groups[group] == group.State();
        if group.dirty {
          group.RebuildSnapshot();
        } else {
          CachedSnapshotLists(model, execID);
        }
        snapshot := group.snapshot;
      }
      RebuildKeeps(model, execID, snapshot);
      model := Rebuild(model, execID, snapshot);
    }

    /** Offers the event once to every subscriber of its execution and to nobody else. */
    method Publish(ev: Event)
      requires Valid()
      modifies this`model, model.groups.Keys, subscribers
      ensures Valid()
      ensures forall e :: Members(model, e) == Members(old(model), e)
      ensures forall s: Subscriber | s in subscribers ::
                s.State() == if ev.execID != "" && s in Members(old(model), ev.execID)
                             then Offer(old(s.State()), ev) else old(s.State())
    {
      if ev.execID == "" {
        return;
      }
      hide HubOK, Memberships, DetachedStay, OnlyExec;
      var snapshot := TakeSnapshot(ev.execID);
      RebuildKeeps(old(model), ev.execID, snapshot);
      FanOut(snapshot, ev);
    }

    method FanOut(snapshot: seq<Subscriber>, ev: Event)
      requires Valid() && Lists(snapshot, Members(model, ev.execID))
      modifies subscribers
      ensures Valid()
      ensures forall s: Subscriber | s in subscribers ::
                s.State() == if s in Members(model, ev.execID) then Offer(old(s.State()), ev) else old(s.State())
    {
      for i := 0 to |snapshot|
        invariant Represents()
        invariant forall s: Subscriber | s in subscribers ::
                    s.State() == if s in snapshot[..i] then Offer(old(s.State()), ev) else old(s.State())
      {
        assert snapshot[i] in Members(model, ev.execID) && snapshot[i] !in snapshot[..i];
        snapshot[i].Deliver(ev);
      }
      assert snapshot[..|snapshot|] == snapshot;
    }

    /** Detaches the execution's group, then gives each of its subscribers the terminal event and closes it. */
    method Close(execID: string, event: Event)
      requires Valid()
      modifies this, subscribers
      ensures Valid() && subscribers == old(subscribers)
      ensures model == if execID == "" then old(model) else Detach(old(model), execID)
      ensures var ev := if event.execID == "" then event.(execID := execID) else event;
              forall s: Subscriber | s in subscribers ::
                s.State() == if execID != "" && s in Members(old(model), execID)
                             then OfferTerminal(old(s.State()), ev) else old(s.State())
    {
      if execID == "" {
        return;
      }
      var ev := if event.execID == "" then event.(execID := execID) else event;
      hide HubOK, Memberships, DetachedStay, OnlyExec;
      var closing := DetachGroup(execID);
      TerminateAll(closing, ev);
    }

    method DetachGroup(execID: string) returns (closing: set<Subscriber>)
      requires Valid()
      modifies this
      ensures Valid() && subscribers == old(subscribers)
      ensures closing == Members(old(model), execID) && closing <= subscribers
      ensures model == Detach(old(model), execID)
    {
      hide HubOK, Memberships, DetachedStay, OnlyExec;
      closing := {};
      if execID in subs {
        var group := subs[execID];
        assert model.groups[group] == group.State();
        closing := group.members;
        subscriberCount := subscriberCount - |group.members|;
      }
      subs := subs - {execID};
      if subscriberCount < 0 {
        subscriberCount := 0;
      }
      DetachOK(model, execID);
      model := Detach(model, execID);
    }

    method TerminateAll(closing: set<Subscriber>, ev: Event)
      requires Valid() && closing <= subscribers
      modifies subscribers
      ensures Valid()
      ensures forall s: Subscriber | s in subscribers ::
                s.State() == if s in closing then OfferTerminal(old(s.State()), ev) else old(s.State())
    {
      var todo := closing;
      while todo != {}
        invariant Represents() && todo <= closing
        invariant forall s: Subscriber | s in subscribers ::
                    s.State() == if s in closing - todo then OfferTerminal(old(s.State()), ev) else old(s.State())
        decreases |todo|
      {
        var s :| s in todo;
        s.Terminate(ev);
        todo := todo - {s};
      }
    }

    /** Maps the execution's final status to its terminal event; other statuses close nothing. */
    method CloseTerminal(execID: string, status: string, errMsg: string)
      requires Valid()
      modifies this, subscribers
      ensures Valid() && subscribers == old(subscribers)
      ensures var closes := execID != "" && TerminalEvent(execID, status, errMsg).Some?;
              && model == (if closes then Detach(old(model), execID) else old(model))
              && forall s: Subscriber | s in subscribers ::
                   s.State() == if closes && s in Members(old(model), execID)
                                then OfferTerminal(old(s.State()), TerminalEvent(execID, status, errMsg).value)
                                else old(s.State())
    {
      if execID == "" {
        return;
      }
      var event := Event(execID, "", "", 0, "", "");
      if status == "completed" || status == "cancelled" {
        event := event.(kind := "done", status := status);
      } else if status == "failed" {
        event := event.(kind := "error", error := errMsg);
      } else {
        return;
      }
      Close(execID, event);
    }
  }

  /** The last event a subscriber gets, for the statuses that end an execution. */
  function TerminalEvent(execID: string, status: string, errMsg: string): Option<Event> {
    if status in {"completed", "cancelled"} then Some(Event(execID, "done", "", 0, status, ""))
    else if status == "failed" then Some(Event(execID, "error", "", 0, "", errMsg))
    else None
  }

  /** It names its own execution; a done event carries the status and no error, an error event the message and no status. */
  lemma TerminalEventIs(execID: string, status: string, errMsg: string, ev: Event)
    ensures TerminalEvent(execID, status, errMsg) == Some(ev) <==>
            && ev.execID == execID && ev.delta == "" && ev.offset == 0
            && (ev.kind == "done" || ev.kind == "error")
            && (ev.kind == "done" ==> ev.status == status && ev.error == "" && (status == "completed" || status == "cancelled"))
            && (ev.kind == "error" ==> ev.status == "" && ev.error == errMsg && status == "failed")
  {
  }
}
