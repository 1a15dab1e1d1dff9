/**
 The typed event broadcaster (internal/events/broadcaster_core.go): subscribers of everything
 and of one scope, snapshots rebuilt at every change, events dropped on a full buffer.

 This module holds the three maps as one value and the mutable broadcaster proved against it;
 BroadcasterRuns lets publishers overlap.
 */
module Broadcaster {
  import opened Listing

  const DEFAULT_LIVE_SUBSCRIPTIONS := 5000
  const UINT64 := 0x1_0000_0000_0000_0000

  // ---- One subscriber ----

  datatype Chan<T> = Chan(closed: bool, chanClosed: bool, buf: seq<T>)

  /** Sending on, or closing, a closed channel panics. */
  predicate Panics<T>(ch: Chan<T>) {
    !ch.closed && ch.chanClosed
  }

  /** A non-blocking send: a full buffer drops the event. */
  function Offer<T>(ch: Chan<T>, event: T, size: nat): Chan<T> {
    if !ch.closed && |ch.buf| < size then ch.(buf := ch.buf + [event]) else ch
  }

  // ---- The three maps ----

  datatype Table<C> = Table(subs: map<C, string>, scoped: map<string, set<C>>, snapshots: map<string, seq<C>>)

  function Bucket<C>(t: Table<C>, scope: string): set<C> {
    if scope in t.scoped then t.scoped[scope] else {}
  }

  function Snapshot<C>(t: Table<C>, scope: string): seq<C> {
    if scope in t.snapshots then t.snapshots[scope] else []
  }

  /** Who subscribed to a scope, by the first map. */
  function Subscribed<C>(t: Table<C>, scope: string): set<C> {
    set c | c in t.subs && t.subs[c] == scope
  }

  /** All three maps describe one relation: who subscribed to which scope. */
  ghost predicate Agree<C>(t: Table<C>) {
    && (forall s :: Bucket(t, s) == Subscribed(t, s))
    && (forall s | s in t.scoped :: t.scoped[s] != {})
    && t.snapshots.Keys == t.scoped.Keys
    && (forall s :: Lists(Snapshot(t, s), Bucket(t, s)))
  }

  function Rebuilt<C>(t: Table<C>, scope: string, order: seq<C>): Table<C> {
    if Bucket(t, scope) == {} then t.(snapshots := t.snapshots - {scope})
    else t.(snapshots := t.snapshots[scope := order])
  }

  function WithSub<C(==)>(t: Table<C>, c: C, scope: string, order: seq<C>): Table<C> {
    Rebuilt(t.(subs := t.subs[c := scope], scoped := t.scoped[scope := Bucket(t, scope) + {c}]), scope, order)
  }

  function WithoutSub<C(==)>(t: Table<C>, c: C, order: seq<C>): Table<C> {
    if c !in t.subs then t
    else
      var scope := t.subs[c];
      var left := Bucket(t, scope) - {c};
      Rebuilt(t.(subs := t.subs - {c},
                 scoped := if left == {} then t.scoped - {scope} else t.scoped[scope := left]), scope, order)
  }

  /** The live subscribers of an event published to a scope. */
  function Audience<C>(t: Table<C>, scope: string): set<C> {
    set c | c in t.subs && t.subs[c] in {"", scope}
  }

  /** The offers PublishScoped makes, in order. */
  function Targets<C>(t: Table<C>, scope: string): seq<C> {
    Snapshot(t, "") + if scope != "" then Snapshot(t, scope) else []
  }

  lemma WithSubKeeps<C>(t: Table<C>, c: C, scope: string, order: seq<C>)
    requires Agree(t) && c !in t.subs && Lists(order, Bucket(t, scope) + {c})
    ensures Agree(WithSub(t, c, scope, order))
  {
    hide Lists;
    var t' := WithSub(t, c, scope, order);
    forall s
      ensures Bucket(t', s) == Subscribed(t', s) && Lists(Snapshot(t', s), Bucket(t', s))
    {
      JoinedBucket(t, c, scope, order, s);
    }
  }

  lemma JoinedBucket<C>(t: Table<C>, c: C, scope: string, order: seq<C>, s: string)
    requires Agree(t) && c !in t.subs
    ensures var t' := WithSub(t, c, scope, order);
            && Bucket(t', s) == Bucket(t, s) + (if s == scope then {c} else {}) == Subscribed(t', s)
            && Snapshot(t', s) == if s == scope then order else Snapshot(t, s)
  {
    hide Lists;
  }

  lemma WithoutSubKeeps<C>(t: Table<C>, c: C, order: seq<C>)
    requires Agree(t) && (c in t.subs ==> Lists(order, Bucket(t, t.subs[c]) - {c}))
    ensures Agree(WithoutSub(t, c, order))
  {
    if c in t.subs {
      var t' := WithoutSub(t, c, order);
      forall s
        ensures Bucket(t', s) == Bucket(t, s) - {c}
        ensures Lists(Snapshot(t', s), Bucket(t', s))
      {
      }
    }
  }

  /** An event is offered exactly once to each live subscriber it concerns, and to nobody else. */
  lemma TargetsAreAudience<C>(t: Table<C>, scope: string)
    requires Agree(t)
    ensures Lists(Targets(t, scope), Audience(t, scope))
    ensures |Targets(t, scope)| == |Audience(t, scope)|
  {
    var all, mine := Snapshot(t, ""), if scope != "" then Snapshot(t, scope) else [];
    assert Audience(t, scope) == Subscribed(t, "") + Subscribed(t, scope);
    forall i, j | 0 <= i < |all| && 0 <= j < |mine|
      ensures all[i] != mine[j]
    {
      assert all[i] in Bucket(t, "") && mine[j] in Bucket(t, scope);
    }
    ListsHaveSize(Targets(t, scope), Audience(t, scope));
  }

  // ---- The broadcaster as the code keeps it ----

  /** A subscriber channel together with its guard. */
  class Subscription<T> {
    var closed: bool
    var chanClosed: bool
    var buf: seq<T>

    constructor ()
      ensures State() == Chan(false, false, [])
    {
      closed, chanClosed, buf := false, false, [];
    }

    function State(): Chan<T>
      reads this
    {
      Chan(closed, chanClosed, buf)
    }

    method Deliver(event: T, size: nat)
      requires !Panics(State())
      modifies this
      ensures State() == Offer(old(State()), event, size)
    {
      if !closed && |buf| < size {
        buf := buf + [event];
      }
    }

    method Close()
      requires !chanClosed
      modifies this
      ensures State() == Chan(true, true, old(buf))
    {
      closed := true;
      chanClosed := true;
    }
  }

  class Broadcaster<T> {
    var subscribers: map<Subscription<T>, string>
    var scopedSubscribers: map<string, set<Subscription<T>>>
    var scopedSnapshots: map<string, seq<Subscription<T>>>
    const bufferSize: nat
    const maxSubscribers: nat
    var deliveryAttempts: nat
    ghost var known: set<Subscription<T>>    // every subscriber ever made

    function Maps(): Table<Subscription<T>>
      reads this
    {
      Table(subscribers, scopedSubscribers, scopedSnapshots)
    }

    /** The maps agree, and a channel is closed exactly when its subscriber is gone. */
    ghost predicate Valid()
      reads this, known
    {
      && Agree(Maps()) && subscribers.Keys <= known
      && |subscribers| <= maxSubscribers && deliveryAttempts < UINT64
      && forall s: Subscription<T> | s in known :: s.closed == s.chanClosed == (s !in subscribers)
    }

    constructor (bufferSize: nat, limit: int)
      ensures Valid() && known == {} && subscribers == map[] && deliveryAttempts == 0
      ensures this.bufferSize == bufferSize
      ensures maxSubscribers == if limit > 0 then limit else DEFAULT_LIVE_SUBSCRIPTIONS
    {
      subscribers, scopedSubscribers, scopedSnapshots := map[], map[], map[];
      this.bufferSize := bufferSize;
      maxSubscribers := if limit > 0 then limit else DEFAULT_LIVE_SUBSCRIPTIONS;
      deliveryAttempts, known := 0, {};
    }

    /** At the limit it refuses and changes nothing; otherwise a new, open, empty channel joins its scope. */
    method SubscribeScoped(scope: string) returns (ok: bool, sub: Subscription<T>)
      requires Valid()
      modifies this
      ensures Valid() && fresh(sub) && sub.State() == Chan(false, false, [])
      ensures ok <==> old(|subscribers|) < maxSubscribers
      ensures known == old(known) + if ok then {sub} else {}
      ensures subscribers == if ok then old(subscribers)[sub := scope] else old(subscribers)
      ensures deliveryAttempts == old(deliveryAttempts)
      ensures !ok ==> Maps() == old(Maps())
    {
      hide Agree;
      sub := new Subscription();
      if |subscribers| >= maxSubscribers {
        return false, sub;
      }
      EnterMaps(sub, scope);
      known := known + {sub};
      ok := true;
    }

    method EnterMaps(sub: Subscription<T>, scope: string)
      requires Agree(Maps()) && sub !in subscribers
      modifies this`subscribers, this`scopedSubscribers, this`scopedSnapshots
      ensures Agree(Maps()) && subscribers == old(subscribers)[sub := scope]
    {
      hide Agree;
      ghost var before := Maps();
      subscribers := subscribers[sub := scope];
      if scope !in scopedSubscribers {
        scopedSubscribers := scopedSubscribers[scope := {}];
      }
      scopedSubscribers := scopedSubscribers[scope := scopedSubscribers[scope] + {sub}];
      assert scopedSubscribers == before.scoped[scope := Bucket(before, scope) + {sub}];
      ghost var order := RebuildScopedSnapshotLocked(scope);
      WithSubKeeps(before, sub, scope, order);
    }

    method LeaveMaps(sub: Subscription<T>)
      requires Agree(Maps()) && sub in subscribers
      modifies this`subscribers, this`scopedSubscribers, this`scopedSnapshots
      ensures Agree(Maps()) && subscribers == old(subscribers) - {sub}
    {
      hide Agree;
      ghost var before := Maps();
      BucketOf(before, sub);
      var scope := subscribers[sub];
      subscribers := subscribers - {sub};
      scopedSubscribers := scopedSubscribers[scope := scopedSubscribers[scope] - {sub}];
      if scopedSubscribers[scope] == {} {
        scopedSubscribers := scopedSubscribers - {scope};
      }
      assert scopedSubscribers == var left := Bucket(before, scope) - {sub};
                                  if left == {} then before.scoped - {scope} else before.scoped[scope := left];
      ghost var order := RebuildScopedSnapshotLocked(scope);
      WithoutSubKeeps(before, sub, order);
    }

    /** Replaces one scope's snapshot; snapshots handed out before are values and do not change. */
    method RebuildScopedSnapshotLocked(scope: string) returns (ghost order: seq<Subscription<T>>)
      modifies this`scopedSnapshots
      ensures Lists(order, Bucket(Maps(), scope))
      ensures Maps() == Rebuilt(old(Maps()), scope, order)
    {
      if scope !in scopedSubscribers || scopedSubscribers[scope] == {} {
        scopedSnapshots := scopedSnapshots - {scope};
        return [];
      }
      var members := scopedSubscribers[scope];
      var snapshot, todo := [], members;
      while todo != {}
        invariant todo <= members && scopedSnapshots == old(scopedSnapshots) && Lists(snapshot, members - todo)
        decreases |todo|
      {
        var s :| s in todo;
        snapshot := snapshot + [s];
        todo := todo - {s};
      }
      order := snapshot;
      scopedSnapshots := scopedSnapshots[scope := snapshot];
    }

    /** Forgets a subscriber and closes its channel; a second call does nothing. */
    method Unsubscribe(sub: Subscription<T>)
      requires Valid() && sub in known
      modifies this, sub
      ensures Valid() && known == old(known) && deliveryAttempts == old(deliveryAttempts)
      ensures subscribers == old(subscribers) - {sub}
      ensures sub.State() == Chan(true, true, old(sub.buf))
      ensures sub !in old(subscribers) ==> Maps() == old(Maps())
    {
      hide Agree;
      if sub in subscribers {
        LeaveMaps(sub);
        sub.Close();
      } else {
        assert subscribers - {sub} == subscribers;
      }
    }

    /** Offers the event once to every live subscriber of everything or of this scope, and counts the offers. */
    method PublishScoped(scope: string, event: T)
      requires Valid()
      modifies this`deliveryAttempts, known
      ensures Valid()
      ensures deliveryAttempts == (old(deliveryAttempts) + |Audience(Maps(), scope)|) % UINT64
      ensures forall s: Subscription<T> | s in known ::
                s.State() == if s in Audience(Maps(), scope) then Offer(old(s.State()), event, bufferSize) else old(s.State())
    {
      hide Agree;
      var global := if "" in scopedSnapshots then scopedSnapshots[""] else [];
      var scoped := if scope != "" && scope in scopedSnapshots then scopedSnapshots[scope] else [];
      TargetParts(Maps(), scope, global, scoped);
      deliveryAttempts := (deliveryAttempts + |global| + |scoped|) % UINT64;
      FanOut(global, event);
      FanOut(scoped, event);
    }

    method FanOut(snapshot: seq<Subscription<T>>, event: T)
      requires Valid() && NoRepeats(snapshot) && forall s | s in snapshot :: s in known
      modifies known
      ensures Valid()
      ensures forall s: Subscription<T> | s in known ::
                s.State() == if s in snapshot then Offer(old(s.State()), event, bufferSize) else old(s.State())
    {
      hide Agree;
      for i := 0 to |snapshot|
        invariant forall s: Subscription<T> | s in known ::
                    s.State() == if s in snapshot[..i] then Offer(old(s.State()), event, bufferSize) else old(s.State())
      {
        assert snapshot[i] in snapshot && snapshot[i] !in snapshot[..i];
        snapshot[i].Deliver(event, bufferSize);
      }
      assert snapshot[..|snapshot|] == snapshot;
    }
  }

  ghost predicate NoRepeats<C>(items: seq<C>) {
    forall i, j | 0 <= i < j < |items| :: items[i] != items[j]
  }

  lemma TargetParts<C>(t: Table<C>, scope: string, all: seq<C>, mine: seq<C>)
    requires Agree(t) && all == Snapshot(t, "") && mine == if scope != "" then Snapshot(t, scope) else []
    ensures NoRepeats(all) && NoRepeats(mine) && |all| + |mine| == |Audience(t, scope)|
    ensures forall c | c in all :: c !in mine
    ensures forall c | c in t.subs :: c in Audience(t, scope) <==> c in all || c in mine
    ensures forall c | c in all || c in mine :: c in t.subs
  {
    TargetsAreAudience(t, scope);
    assert Targets(t, scope) == all + mine;
    forall c | c in all
      ensures c !in mine
    {
      var i :| 0 <= i < |all| && all[i] == c;
      assert forall j | 0 <= j < |mine| :: (all + mine)[|all| + j] == mine[j] && (all + mine)[i] == c;
    }
    assert forall c | c in all || c in mine :: c in all + mine;
  }

  lemma BucketOf<C>(t: Table<C>, c: C)
    requires Agree(t) && c in t.subs
    ensures t.subs[c] in t.scoped && c in t.scoped[t.subs[c]]
  {
    assert c in Subscribed(t, t.subs[c]);
  }
}
