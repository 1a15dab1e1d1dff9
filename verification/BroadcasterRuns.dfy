/**
 Every interleaving of concurrent calls on the broadcaster
 (internal/events/broadcaster_core.go:55-153).

 Subscribe and Unsubscribe hold the write lock throughout, so each is one step and needs that
 no publisher is under way.  A publication holds the read lock from its snapshots to its last
 send; any number of them overlap, each send being a step of its own.  A publication is known
 by its number; the lists of numbers record history and influence no step.
 */
module BroadcasterRuns {
  import opened Broadcaster
  import opened Listing

  type SubRef = nat
  type PubRef = nat

  /** `audience` records whom the publication concerned when it began. */
  datatype Publication<E> = Publication(scope: string, event: E, audience: set<SubRef>)

  /** One subscriber: its channel, and the publications offered to it, put into its channel and taken out again. */
  datatype Track = Track(ch: Chan<PubRef>, offered: seq<PubRef>, accepted: seq<PubRef>, received: seq<PubRef>)

  datatype State<E> = State(table: Table<SubRef>, tracks: map<SubRef, Track>, pubs: seq<Publication<E>>,
                            todo: map<PubRef, seq<SubRef>>, attempts: nat, size: nat, max: nat)

  datatype Step<E> =
    | Subscribe(c: SubRef, scope: string, order: seq<SubRef>)
    | Unsubscribe(c: SubRef, order: seq<SubRef>)
    | Begin(scope: string, event: E)
    | Send(p: PubRef)
    | End(p: PubRef)
    | Receive(c: SubRef)

  function Init<E>(size: nat, max: nat): State<E> {
    State(Table(map[], map[], map[]), map[], [], map[], 0, size, max)
  }

  ghost predicate Enabled<E>(st: State<E>, step: Step<E>) {
    match step
    case Subscribe(c, scope, order) => st.todo == map[] && c !in st.tracks && Lists(order, Bucket(st.table, scope) + {c})
    case Unsubscribe(c, order) =>
      st.todo == map[] && c in st.tracks && (c in st.table.subs ==> Lists(order, Bucket(st.table, st.table.subs[c]) - {c}))
    case Begin(_, _) => true
    case Send(p) => p in st.todo && st.todo[p] != []
    case End(p) => p in st.todo && st.todo[p] == []
    case Receive(c) => c in st.tracks && st.tracks[c].ch.buf != []
  }

  /** A send on a closed channel, or closing one a second time. */
  predicate Crashes<E>(st: State<E>, step: Step<E>) {
    match step
    case Send(p) => p in st.todo && st.todo[p] != [] && (st.todo[p][0] !in st.tracks || Panics(st.tracks[st.todo[p][0]].ch))
    case Unsubscribe(c, _) => c in st.table.subs && (c !in st.tracks || st.tracks[c].ch.chanClosed)
    case _ => false
  }

  function Given(k: Track, p: PubRef, size: nat): Track {
    var accepts := !k.ch.closed && |k.ch.buf| < size;
    Track(Offer(k.ch, p, size), k.offered + [p], if accepts then k.accepted + [p] else k.accepted, k.received)
  }

  ghost function Apply<E>(st: State<E>, step: Step<E>): State<E>
    requires Enabled(st, step) && !Crashes(st, step)
  {
    match step
    case Subscribe(c, scope, order) =>
      if |st.table.subs| >= st.max then st
      else st.(table := WithSub(st.table, c, scope, order),
               tracks := st.tracks[c := Track(Chan(false, false, []), [], [], [])])
    case Unsubscribe(c, order) =>
      if c !in st.table.subs then st
      else st.(table := WithoutSub(st.table, c, order),
               tracks := st.tracks[c := st.tracks[c].(ch := Chan(true, true, st.tracks[c].ch.buf))])
    case Begin(scope, event) =>
      st.(pubs := st.pubs + [Publication(scope, event, Audience(st.table, scope))],
          todo := st.todo[|st.pubs| := Targets(st.table, scope)],
          attempts := st.attempts + |Targets(st.table, scope)|)
    case Send(p) =>
      var c := st.todo[p][0];
      st.(tracks := st.tracks[c := Given(st.tracks[c], p, st.size)], todo := st.todo[p := st.todo[p][1..]])
    case End(p) => st.(todo := st.todo - {p})
    case Receive(c) =>
      var k := st.tracks[c];
      st.(tracks := st.tracks[c := k.(ch := k.ch.(buf := k.ch.buf[1..]), received := k.received + [k.ch.buf[0]])])
  }

  // ---- What every state keeps ----

  predicate Subsequence<X(==)>(a: seq<X>, b: seq<X>) {
    if a == [] then true
    else if b == [] then false
    else if a[|a| - 1] == b[|b| - 1] && Subsequence(a[..|a| - 1], b[..|b| - 1]) then true
    else Subsequence(a, b[..|b| - 1])
  }

  /** Number of subscribers concerned, over all publications. */
  function Concerned<E>(pubs: seq<Publication<E>>): nat {
    if pubs == [] then 0 else Concerned(pubs[..|pubs| - 1]) + |pubs[|pubs| - 1].audience|
  }

  /** Publication `p` still has `c` before it. */
  predicate Pending(todo: map<PubRef, seq<SubRef>>, p: PubRef, c: SubRef) {
    p in todo && c in todo[p]
  }

  /** `c` got publication `p`'s offer, once, exactly if it was concerned and is not still to come. */
  ghost predicate OffersOK<E>(pubs: seq<Publication<E>>, todo: map<PubRef, seq<SubRef>>, c: SubRef, offered: seq<PubRef>) {
    && NoRepeats(offered)
    && (forall p | p in offered :: p < |pubs|)
    && (forall p | 0 <= p < |pubs| :: p in offered <==> c in pubs[p].audience && !Pending(todo, p, c))
  }

  ghost predicate TrackOK(k: Track, live: bool) {
    k.ch.closed == k.ch.chanClosed == !live && k.accepted == k.received + k.ch.buf && Subsequence(k.accepted, k.offered)
  }

  /** What a publication still has to do lies within its audience, and its audience is still subscribed. */
  ghost predicate UnderWay<E>(pubs: seq<Publication<E>>, table: Table<SubRef>, p: PubRef, rest: seq<SubRef>) {
    && p < |pubs| && NoRepeats(rest) && (forall c | c in rest :: c in pubs[p].audience)
    && pubs[p].audience == Audience(table, pubs[p].scope)
  }

  ghost predicate Inv<E>(st: State<E>) {
    && Agree(st.table) && st.table.subs.Keys <= st.tracks.Keys && |st.table.subs| <= st.max
    && (forall p | p in st.todo :: UnderWay(st.pubs, st.table, p, st.todo[p]))
    && (forall p, c | 0 <= p < |st.pubs| && c in st.pubs[p].audience :: c in st.tracks)
    && (forall c | c in st.tracks :: TrackOK(st.tracks[c], c in st.table.subs))
    && (forall c | c in st.tracks :: OffersOK(st.pubs, st.todo, c, st.tracks[c].offered))
    && st.attempts == Concerned(st.pubs)
  }

  lemma InitInv<E>(size: nat, max: nat)
    ensures Inv(Init<E>(size, max))
  {
  }

  /** No reachable step sends on a closed channel or closes one twice. */
  lemma NeverCrashes<E>(st: State<E>, step: Step<E>)
    requires Inv(st) && Enabled(st, step)
    ensures !Crashes(st, step)
  {
    hide Agree, OffersOK, Concerned;
    if step.Send? {
      var c := st.todo[step.p][0];
      assert UnderWay(st.pubs, st.table, step.p, st.todo[step.p]);
      assert c in Audience(st.table, st.pubs[step.p].scope);
    }
  }

  lemma SubscribeKeepsInv<E>(st: State<E>, c: SubRef, scope: string, order: seq<SubRef>)
    requires Inv(st) && Enabled(st, Subscribe(c, scope, order)) && |st.table.subs| < st.max
    ensures Inv(Apply(st, Subscribe(c, scope, order)))
  {
    hide Agree, Lists, Bucket, WithSub, Concerned, TrackOK, OffersOK, UnderWay;
    WithSubKeeps(st.table, c, scope, order);
    SubsAfterJoin(st.table, c, scope, order);
    NewTrackOK(st, c);
    assert Apply(st, Subscribe(c, scope, order)).todo == map[];
  }

  lemma SubsAfterJoin(t: Table<SubRef>, c: SubRef, scope: string, order: seq<SubRef>)
    requires c !in t.subs
    ensures WithSub(t, c, scope, order).subs == t.subs[c := scope] && |t.subs[c := scope]| == |t.subs| + 1
  {
  }

  lemma SubsAfterLeave(t: Table<SubRef>, c: SubRef, order: seq<SubRef>)
    requires c in t.subs
    ensures WithoutSub(t, c, order).subs == t.subs - {c} && |t.subs - {c}| == |t.subs| - 1
  {
    assert t.subs == (t.subs - {c})[c := t.subs[c]];
  }

  lemma NewTrackOK<E>(st: State<E>, c: SubRef)
    requires forall p, c | 0 <= p < |st.pubs| && c in st.pubs[p].audience :: c in st.tracks
    requires c !in st.tracks
    ensures OffersOK(st.pubs, st.todo, c, [])
    ensures TrackOK(Track(Chan(false, false, []), [], [], []), true)
  {
  }

  lemma UnsubscribeKeepsInv<E>(st: State<E>, c: SubRef, order: seq<SubRef>)
    requires Inv(st) && Enabled(st, Unsubscribe(c, order)) && c in st.table.subs && !Crashes(st, Unsubscribe(c, order))
    ensures Inv(Apply(st, Unsubscribe(c, order)))
  {
    hide Agree, Lists, Bucket, WithoutSub, Concerned, OffersOK, UnderWay, TrackOK;
    WithoutSubKeeps(st.table, c, order);
    SubsAfterLeave(st.table, c, order);
    ClosedTrackOK(st.tracks[c]);
    assert Apply(st, Unsubscribe(c, order)).todo == map[];
  }

  lemma ClosedTrackOK(k: Track)
    requires TrackOK(k, true)
    ensures TrackOK(k.(ch := Chan(true, true, k.ch.buf)), false)
  {
  }

  lemma BeginKeepsInv<E>(st: State<E>, scope: string, event: E)
    requires Inv(st)
    ensures Inv(Apply(st, Begin(scope, event)))
  {
    hide Agree, Lists, TrackOK, OffersOK, UnderWay, Subsequence, Targets, Concerned;
    var st' := Apply(st, Begin(scope, event));
    TargetsAreAudience(st.table, scope);
    ConcernedStep(st.pubs, st'.pubs[|st.pubs|]);
    forall p | p in st'.todo
      ensures UnderWay(st'.pubs, st'.table, p, st'.todo[p])
    {
      if p == |st.pubs| {
        JustBegun(st'.pubs, st'.table, p, st'.todo[p]);
      } else {
        StillUnderWay(st.pubs, st'.pubs[|st.pubs|], st.table, p, st.todo[p]);
      }
    }
    UnderWayBelow(st);
    forall c | c in st'.tracks
      ensures OffersOK(st'.pubs, st'.todo, c, st'.tracks[c].offered)
    {
      OffersAtBegin(st, st', c, st.tracks[c].offered, scope, event);
    }
  }

  lemma ConcernedStep<E>(pubs: seq<Publication<E>>, pub: Publication<E>)
    ensures Concerned(pubs + [pub]) == Concerned(pubs) + |pub.audience|
  {
    assert (pubs + [pub])[..|pubs|] == pubs;
  }

  lemma JustBegun<E>(pubs: seq<Publication<E>>, table: Table<SubRef>, p: PubRef, rest: seq<SubRef>)
    requires p < |pubs| && pubs[p].audience == Audience(table, pubs[p].scope) && Lists(rest, pubs[p].audience)
    ensures UnderWay(pubs, table, p, rest)
  {
  }

  lemma StillUnderWay<E>(pubs: seq<Publication<E>>, pub: Publication<E>, table: Table<SubRef>, p: PubRef, rest: seq<SubRef>)
    requires UnderWay(pubs, table, p, rest)
    ensures UnderWay(pubs + [pub], table, p, rest)
  {
  }

  lemma UnderWayBelow<E>(st: State<E>)
    requires forall p | p in st.todo :: UnderWay(st.pubs, st.table, p, st.todo[p])
    ensures forall p | p in st.todo :: p < |st.pubs|
  {
  }

  lemma OffersAtBegin<E>(st: State<E>, st': State<E>, c: SubRef, offered: seq<PubRef>, scope: string, event: E)
    requires OffersOK(st.pubs, st.todo, c, offered)
    requires st'.pubs == st.pubs + [Publication(scope, event, Audience(st.table, scope))]
    requires st'.todo == st.todo[|st.pubs| := Targets(st.table, scope)]
    requires Lists(Targets(st.table, scope), Audience(st.table, scope))
    requires forall p | p in st.todo :: p < |st.pubs|
    ensures OffersOK(st'.pubs, st'.todo, c, offered)
  {
    hide Targets;
  }

  lemma SendKeepsInv<E>(st: State<E>, p: PubRef)
    requires Inv(st) && Enabled(st, Send(p)) && !Crashes(st, Send(p))
    ensures Inv(Apply(st, Send(p)))
  {
    hide Agree, Lists, TrackOK, OffersOK, UnderWay, Subsequence, Concerned, Given;
    var st' := Apply(st, Send(p));
    var c := st.todo[p][0];
    OneSent(st.pubs, st.table, p, st.todo[p]);
    GivenIsOK(st.tracks[c], p, st.size, c in st.table.subs);
    forall d | d in st'.tracks
      ensures OffersOK(st'.pubs, st'.todo, d, st'.tracks[d].offered)
    {
      OffersAtSend(st, p, d, st.tracks[d].offered);
    }
  }

  lemma OneSent<E>(pubs: seq<Publication<E>>, table: Table<SubRef>, p: PubRef, rest: seq<SubRef>)
    requires UnderWay(pubs, table, p, rest) && rest != []
    ensures UnderWay(pubs, table, p, rest[1..]) && p < |pubs| && NoRepeats(rest) && rest[0] in pubs[p].audience
  {
  }

  lemma GivenIsOK(k: Track, p: PubRef, size: nat, live: bool)
    requires TrackOK(k, live)
    ensures TrackOK(Given(k, p, size), live)
    ensures Given(k, p, size).offered == k.offered + [p]
  {
    assert (k.offered + [p])[..|k.offered|] == k.offered;
    assert (k.accepted + [p])[..|k.accepted|] == k.accepted;
  }

  lemma OffersAtSend<E>(st: State<E>, p: PubRef, d: SubRef, offered: seq<PubRef>)
    requires p in st.todo && st.todo[p] != [] && NoRepeats(st.todo[p])
    requires p < |st.pubs| && st.todo[p][0] in st.pubs[p].audience
    requires OffersOK(st.pubs, st.todo, d, offered)
    ensures OffersOK(st.pubs, st.todo[p := st.todo[p][1..]], d, if d == st.todo[p][0] then offered + [p] else offered)
  {
    var c, rest, todo' := st.todo[p][0], st.todo[p][1..], st.todo[p := st.todo[p][1..]];
    assert st.todo[p] == [c] + rest;
    assert c !in rest;
    forall q | 0 <= q < |st.pubs|
      ensures Pending(todo', q, d) <==> Pending(st.todo, q, d) && !(q == p && d == c)
    {
    }
    assert d == c ==> Pending(st.todo, p, d);
  }

  lemma EndKeepsInv<E>(st: State<E>, p: PubRef)
    requires Inv(st) && Enabled(st, End(p))
    ensures Inv(Apply(st, End(p)))
  {
    hide Agree, Lists, TrackOK, UnderWay, Subsequence, Concerned;
    var st' := Apply(st, End(p));
    forall c, q | c in st.tracks
      ensures Pending(st'.todo, q, c) == Pending(st.todo, q, c)
    {
    }
  }

  lemma ReceiveKeepsInv<E>(st: State<E>, c: SubRef)
    requires Inv(st) && Enabled(st, Receive(c))
    ensures Inv(Apply(st, Receive(c)))
  {
    hide Agree, Lists, OffersOK, UnderWay, Subsequence, Concerned;
    var k := st.tracks[c];
    assert TrackOK(k, c in st.table.subs);
    assert k.received + k.ch.buf == k.received + [k.ch.buf[0]] + k.ch.buf[1..];
  }

  lemma StepKeepsInv<E>(st: State<E>, step: Step<E>)
    requires Inv(st) && Enabled(st, step)
    ensures !Crashes(st, step) && Inv(Apply(st, step))
  {
    hide Inv;
    NeverCrashes(st, step);
    match step
    case Subscribe(c, scope, order) => if |st.table.subs| < st.max { SubscribeKeepsInv(st, c, scope, order); }
    case Unsubscribe(c, order) => if c in st.table.subs { UnsubscribeKeepsInv(st, c, order); }
    case Begin(scope, event) => BeginKeepsInv(st, scope, event);
    case Send(p) => SendKeepsInv(st, p);
    case End(p) => EndKeepsInv(st, p);
    case Receive(c) => ReceiveKeepsInv(st, c);
  }

  /** A run: each step is enabled in the state before it. */
  ghost predicate IsRun<E>(size: nat, max: nat, steps: seq<Step<E>>, states: seq<State<E>>) {
    && |states| == |steps| + 1 && states[0] == Init(size, max)
    && forall i | 0 <= i < |steps| ::
      Enabled(states[i], steps[i]) && !Crashes(states[i], steps[i]) && states[i + 1] == Apply(states[i], steps[i])
  }

  lemma {:induction false} RunKeepsInv<E>(size: nat, max: nat, steps: seq<Step<E>>, states: seq<State<E>>, i: nat)
    requires IsRun(size, max, steps, states) && i <= |steps|
    ensures Inv(states[i])
    decreases i
  {
    hide Inv, Enabled, Crashes, Apply;
    if i == 0 {
      InitInv<E>(size, max);
    } else {
      RunKeepsInv(size, max, steps, states, i - 1);
      StepKeepsInv(states[i - 1], steps[i - 1]);
    }
  }

  /** A finished publication was offered exactly once to everyone it concerned, and to nobody else. */
  lemma FinishedPublicationReachedAudience<E>(st: State<E>, p: PubRef, c: SubRef)
    requires Inv(st) && p < |st.pubs| && p !in st.todo && c in st.tracks
    ensures p in st.tracks[c].offered <==> c in st.pubs[p].audience
    ensures multiset(st.tracks[c].offered)[p] == if c in st.pubs[p].audience then 1 else 0
  {
    hide Agree, UnderWay, Concerned, TrackOK;
    assert OffersOK(st.pubs, st.todo, c, st.tracks[c].offered);
    CountOfDistinct(st.tracks[c].offered, p);
  }

  lemma {:induction false} CountOfDistinct(items: seq<PubRef>, p: PubRef)
    requires NoRepeats(items)
    ensures multiset(items)[p] == if p in items then 1 else 0
    decreases |items|
  {
    if items != [] {
      var front, last := items[..|items| - 1], items[|items| - 1];
      assert items == front + [last];
      assert last !in front;
      CountOfDistinct(front, p);
    }
  }

  /** What a subscriber has in its channel or took out of it is a subsequence of its offers, all of publications that concerned it. */
  lemma HistoryIsSubsequence<E>(st: State<E>, c: SubRef)
    requires Inv(st) && c in st.tracks
    ensures Subsequence(st.tracks[c].received + st.tracks[c].ch.buf, st.tracks[c].offered)
    ensures forall p | p in st.tracks[c].offered :: p < |st.pubs| && c in st.pubs[p].audience
  {
    hide Agree, UnderWay, Concerned, Subsequence;
    assert TrackOK(st.tracks[c], c in st.table.subs);
    assert OffersOK(st.pubs, st.todo, c, st.tracks[c].offered);
  }

  /** The counter of delivery attempts is the number of subscribers concerned, summed over all publications. */
  lemma AttemptsAreExact<E>(size: nat, max: nat, steps: seq<Step<E>>, states: seq<State<E>>, i: nat)
    requires IsRun(size, max, steps, states) && i <= |steps|
    ensures states[i].attempts == Concerned(states[i].pubs)
    ensures |states[i].table.subs| <= max
  {
    RunKeepsInv(size, max, steps, states, i);
    MaxIsFixed(size, max, steps, states, i);
  }

  lemma {:induction false} MaxIsFixed<E>(size: nat, max: nat, steps: seq<Step<E>>, states: seq<State<E>>, i: nat)
    requires IsRun(size, max, steps, states) && i <= |steps|
    ensures states[i].max == max && states[i].size == size
    decreases i
  {
    hide Inv, Enabled, Crashes;
    if i > 0 {
      MaxIsFixed(size, max, steps, states, i - 1);
    }
  }

  // ---- Publications one at a time ----

  /** A publication begins only when none is under way. */
  ghost predicate OneAtATime<E>(st: State<E>, step: Step<E>) {
    step.Begin? ==> st.todo == map[]
  }

  ghost predicate Rising(numbers: seq<PubRef>) {
    forall i, j | 0 <= i < j < |numbers| :: numbers[i] < numbers[j]
  }

  /** Only the latest publication is under way, and every subscriber was offered publications in order. */
  ghost predicate InOrder<E>(st: State<E>) {
    && (forall p | p in st.todo :: p + 1 == |st.pubs|)
    && forall c | c in st.tracks :: Rising(st.tracks[c].offered)
  }

  lemma StepKeepsOrder<E>(st: State<E>, step: Step<E>)
    requires Inv(st) && InOrder(st) && Enabled(st, step) && OneAtATime(st, step)
    ensures !Crashes(st, step) && InOrder(Apply(st, step))
  {
    hide Inv, InOrder;
    NeverCrashes(st, step);
    match step
    case Send(p) => SendKeepsOrder(st, p);
    case Begin(scope, event) => BeginKeepsOrder(st, scope, event);
    case _ => OthersKeepOrder(st, step);
  }

  lemma SendKeepsOrder<E>(st: State<E>, p: PubRef)
    requires Inv(st) && InOrder(st) && Enabled(st, Send(p)) && !Crashes(st, Send(p))
    ensures InOrder(Apply(st, Send(p)))
  {
    hide Inv, Rising;
    LatestIsHighest(st, p, st.todo[p][0]);
  }

  lemma BeginKeepsOrder<E>(st: State<E>, scope: string, event: E)
    requires InOrder(st) && st.todo == map[]
    ensures InOrder(Apply(st, Begin(scope, event)))
  {
    hide Rising, Targets, Audience;
  }

  lemma OthersKeepOrder<E>(st: State<E>, step: Step<E>)
    requires InOrder(st) && Enabled(st, step) && !Crashes(st, step) && !step.Send? && !step.Begin?
    ensures InOrder(Apply(st, step))
  {
    hide WithSub, WithoutSub, Lists;
    assert Rising([]);
  }

  lemma LatestIsHighest<E>(st: State<E>, p: PubRef, c: SubRef)
    requires Inv(st) && InOrder(st) && c in st.tracks && Pending(st.todo, p, c)
    ensures Rising(st.tracks[c].offered + [p])
  {
    hide Agree, TrackOK, Concerned;
    assert UnderWay(st.pubs, st.table, p, st.todo[p]);
    assert OffersOK(st.pubs, st.todo, c, st.tracks[c].offered);
    var offered := st.tracks[c].offered;
    forall i | 0 <= i < |offered|
      ensures offered[i] < p
    {
      assert offered[i] in offered;
    }
  }

  /** With one publication at a time, every subscriber is offered publications in the order they were made. */
  lemma {:induction false} SequentialHistoryIsOrdered<E>(size: nat, max: nat, steps: seq<Step<E>>, states: seq<State<E>>, i: nat)
    requires IsRun(size, max, steps, states) && i <= |steps|
    requires forall k | 0 <= k < |steps| :: OneAtATime(states[k], steps[k])
    ensures InOrder(states[i])
    decreases i
  {
    hide Inv, Enabled, Crashes, Apply, OneAtATime;
    if i > 0 {
      SequentialHistoryIsOrdered(size, max, steps, states, i - 1);
      RunKeepsInv(size, max, steps, states, i - 1);
      StepKeepsOrder(states[i - 1], steps[i - 1]);
    }
  }

  /** The publications that concerned `c`, in the order they were made. */
  ghost function Concerning<E>(pubs: seq<Publication<E>>, c: SubRef): seq<PubRef> {
    if pubs == [] then []
    else
      var last := |pubs| - 1;
      Concerning(pubs[..last], c) + if c in pubs[last].audience then [last] else []
  }

  lemma {:induction false} ConcerningIs<E>(pubs: seq<Publication<E>>, c: SubRef)
    ensures Rising(Concerning(pubs, c))
    ensures forall p | p in Concerning(pubs, c) :: p < |pubs|
    ensures forall p | 0 <= p < |pubs| :: p in Concerning(pubs, c) <==> c in pubs[p].audience
    decreases |pubs|
  {
    if pubs != [] {
      var last := |pubs| - 1;
      ConcerningIs(pubs[..last], c);
      var before := Concerning(pubs[..last], c);
      if c in pubs[last].audience {
        RisingWithMore(before, last);
        assert Concerning(pubs, c) == before + [last];
      } else {
        assert Concerning(pubs, c) == before;
      }
      hide Rising, Concerning;
      forall p | 0 <= p < last
        ensures p in Concerning(pubs, c) <==> c in pubs[p].audience
      {
        assert pubs[..last][p] == pubs[p];
      }
    }
  }

  lemma RisingWithMore(a: seq<PubRef>, n: nat)
    requires Rising(a) && forall p | p in a :: p < n
    ensures Rising(a + [n])
  {
    forall i | 0 <= i < |a|
      ensures a[i] < n
    {
      assert a[i] in a;
    }
  }

  lemma {:induction false} RisingIsDetermined(a: seq<PubRef>, b: seq<PubRef>)
    requires Rising(a) && Rising(b) && forall p: PubRef :: p in a <==> p in b
    ensures a == b
    decreases |a|
  {
    if a == [] {
      SomeIn(b);
    } else {
      var x := a[|a| - 1];
      assert x in a;
      assert b != [];
      var y := b[|b| - 1];
      assert y in b;
      LastIsGreatest(a, y);
      LastIsGreatest(b, x);
      RisingWithoutLast(a);
      RisingWithoutLast(b);
      assert x == y;
      var front, back := a[..|a| - 1], b[..|b| - 1];
      forall p: PubRef
        ensures p in front <==> p in back
      {
        assert p in front <==> p in a && p != x;
      }
      RisingIsDetermined(a[..|a| - 1], b[..|b| - 1]);
      assert a == a[..|a| - 1] + [x] && b == b[..|b| - 1] + [y];
    }
  }

  lemma SomeIn(a: seq<PubRef>)
    ensures a == [] || exists p: PubRef :: p in a
  {
    if a != [] {
      assert a[0] in a;
    }
  }

  lemma LastIsGreatest(a: seq<PubRef>, p: PubRef)
    requires Rising(a) && p in a
    ensures p <= a[|a| - 1]
  {
  }

  lemma RisingWithoutLast(a: seq<PubRef>)
    requires Rising(a) && a != []
    ensures Rising(a[..|a| - 1])
    ensures forall p: PubRef :: p in a[..|a| - 1] <==> p in a && p != a[|a| - 1]
  {
    var front, last := a[..|a| - 1], a[|a| - 1];
    assert a == front + [last];
    forall p | p in front
      ensures p < last
    {
      var i :| 0 <= i < |front| && front[i] == p;
      assert a[i] < a[|a| - 1];
    }
  }

  /** In such a state a subscriber was offered all that concerned it but the one it may still be waiting for. */
  lemma OffersInOrder<E>(st: State<E>, c: SubRef)
    requires Inv(st) && InOrder(st) && c in st.tracks
    ensures var all, offered := Concerning(st.pubs, c), st.tracks[c].offered;
            offered == all || (all != [] && offered == all[..|all| - 1] && Pending(st.todo, all[|all| - 1], c))
  {
    hide Agree, TrackOK, Concerned, Rising, Concerning, UnderWay, OffersOK;
    var all, offered := Concerning(st.pubs, c), st.tracks[c].offered;
    ConcerningIs(st.pubs, c);
    OfferedIffConcerned(st, c, all);
    if p :| Pending(st.todo, p, c) {
      assert UnderWay(st.pubs, st.table, p, st.todo[p]);
      LatestConcerned(st, c, p);
      RisingWithoutLast(all);
      var front := all[..|all| - 1];
      forall q: PubRef
        ensures q in offered <==> q in front
      {
        assert q in front <==> q in all && q != p;
      }
      RisingIsDetermined(offered, front);
    } else {
      RisingIsDetermined(offered, all);
    }
  }

  lemma OfferedIffConcerned<E>(st: State<E>, c: SubRef, all: seq<PubRef>)
    requires c in st.tracks && OffersOK(st.pubs, st.todo, c, st.tracks[c].offered) && all == Concerning(st.pubs, c)
    ensures forall p: PubRef :: p in st.tracks[c].offered <==> p in all && !Pending(st.todo, p, c)
  {
    ConcerningIs(st.pubs, c);
    hide Concerning, Rising, Pending;
  }

  lemma LatestConcerned<E>(st: State<E>, c: SubRef, p: PubRef)
    requires InOrder(st) && Pending(st.todo, p, c) && UnderWay(st.pubs, st.table, p, st.todo[p])
    ensures Concerning(st.pubs, c) != [] && Concerning(st.pubs, c)[|Concerning(st.pubs, c)| - 1] == p
    ensures forall q :: Pending(st.todo, q, c) ==> q == p
  {
  }

  /**
   With one publication at a time, what a subscriber has in its channel or took out of it is a
   subsequence of the publications that concerned it, in the order they were made; and between
   publications each of these has been offered to it.
   */
  lemma SequentialHistoryIsSubsequence<E>(size: nat, max: nat, steps: seq<Step<E>>, states: seq<State<E>>, i: nat, c: SubRef)
    requires IsRun(size, max, steps, states) && i <= |steps| && c in states[i].tracks
    requires forall k | 0 <= k < |steps| :: OneAtATime(states[k], steps[k])
    ensures var st := states[i];
            && Subsequence(st.tracks[c].received + st.tracks[c].ch.buf, Concerning(st.pubs, c))
            && (st.todo == map[] ==> st.tracks[c].offered == Concerning(st.pubs, c))
  {
    var st := states[i];
    hide Inv, InOrder, IsRun, OneAtATime, Subsequence, Concerning;
    SequentialHistoryIsOrdered(size, max, steps, states, i);
    RunKeepsInv(size, max, steps, states, i);
    OffersInOrder(st, c);
    HistoryIsSubsequence(st, c);
    LongerStill(st.tracks[c].received + st.tracks[c].ch.buf, Concerning(st.pubs, c));
  }

  lemma LongerStill(a: seq<PubRef>, b: seq<PubRef>)
    ensures b != [] && Subsequence(a, b[..|b| - 1]) ==> Subsequence(a, b)
  {
  }

  // ---- What a step does to a channel ----

  /** An event is delivered exactly while the channel is open and has room, and dropped otherwise. */
  predicate OfferedTo(k: Track, k': Track, p: PubRef, size: nat) {
    && k'.offered == k.offered + [p] && k'.received == k.received
    && if !k.ch.closed && |k.ch.buf| < size then k'.ch == k.ch.(buf := k.ch.buf + [p]) && k'.accepted == k.accepted + [p]
       else k'.ch == k.ch && k'.accepted == k.accepted
  }

  /** The front of the buffer was taken out. */
  predicate TookOut(k: Track, k': Track) {
    && k.ch.buf != [] && k.ch.buf == [k.ch.buf[0]] + k'.ch.buf && k'.received == k.received + [k.ch.buf[0]]
    && k' == k.(ch := k.ch.(buf := k'.ch.buf), received := k'.received)
  }

  ghost predicate Moved<E>(st: State<E>, step: Step<E>, c: SubRef, k: Track, k': Track)
    requires Enabled(st, step)
  {
    match step
    case Send(p) => if st.todo[p][0] == c then OfferedTo(k, k', p, st.size) else k' == k
    case Unsubscribe(d, _) => if d == c && !k.ch.closed then k' == k.(ch := Chan(true, true, k.ch.buf)) else k' == k
    case Receive(d) => if d == c then TookOut(k, k') else k' == k
    case _ => k' == k
  }

  /** A subscriber's channel changes in three ways and no other; a new one is open and empty. */
  lemma ChannelMoves<E>(st: State<E>, step: Step<E>, c: SubRef)
    requires Inv(st) && Enabled(st, step)
    ensures !Crashes(st, step)
    ensures var st' := Apply(st, step);
            if c in st.tracks then c in st'.tracks && Moved(st, step, c, st.tracks[c], st'.tracks[c])
            else c in st'.tracks ==> step.Subscribe? && step.c == c && st'.tracks[c] == Track(Chan(false, false, []), [], [], [])
  {
    NeverCrashes(st, step);
    if c in st.tracks {
      GoneIsClosed(st, c);
    }
    hide Inv, Enabled, Crashes, OfferedTo, TookOut, Given;
    match step
    case Send(p) => SendMoves(st, p);
    case Receive(d) => TakesOut(st, d);
    case _ => OthersMove(st, step, c);
  }

  lemma SendMoves<E>(st: State<E>, p: PubRef)
    requires Enabled(st, Send(p)) && !Crashes(st, Send(p))
    ensures var c := st.todo[p][0];
            c in st.tracks && Apply(st, Send(p)).tracks == st.tracks[c := Given(st.tracks[c], p, st.size)]
            && OfferedTo(st.tracks[c], Given(st.tracks[c], p, st.size), p, st.size)
  {
  }

  lemma TakesOut<E>(st: State<E>, c: SubRef)
    requires Enabled(st, Receive(c))
    ensures var st' := Apply(st, Receive(c));
            c in st'.tracks && TookOut(st.tracks[c], st'.tracks[c]) && st'.tracks == st.tracks[c := st'.tracks[c]]
  {
  }

  lemma OthersMove<E>(st: State<E>, step: Step<E>, c: SubRef)
    requires Enabled(st, step) && !Crashes(st, step) && !step.Send? && !step.Receive?
    requires c in st.tracks ==> st.tracks[c].ch.closed == st.tracks[c].ch.chanClosed == (c !in st.table.subs)
    ensures var st' := Apply(st, step);
            if c in st.tracks then c in st'.tracks && Moved(st, step, c, st.tracks[c], st'.tracks[c])
            else c in st'.tracks ==> step.Subscribe? && step.c == c && st'.tracks[c] == Track(Chan(false, false, []), [], [], [])
  {
    hide WithSub, WithoutSub, Lists, Audience, Targets, Bucket;
  }

  lemma GoneIsClosed<E>(st: State<E>, c: SubRef)
    requires Inv(st) && c in st.tracks
    ensures st.tracks[c].ch.closed == st.tracks[c].ch.chanClosed == (c !in st.table.subs)
  {
    hide Agree, OffersOK, UnderWay, Concerned, Subsequence;
    assert TrackOK(st.tracks[c], c in st.table.subs);
  }
}
