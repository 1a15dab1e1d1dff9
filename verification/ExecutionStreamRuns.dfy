/**
 Every interleaving of concurrent calls on the execution stream hub
 (internal/events/execution_stream_hub.go:95-247).

 A call is cut at its lock releases: each region under the hub lock, and each region under
 one subscriber's guard, is one step.  Any number of threads take steps in any order, and
 consumers receive in between.  `Track` and `log` record history: they never influence a step.
 */
module ExecutionStreamRuns {
  import opened ExecutionStreamHub
  import opened Listing
  import opened Wrappers

  type Thread = nat
  type GroupRef = nat
  type SubRef = nat

  /** One publication: the event and its position among the publications of its execution. */
  datatype Item = Item(pos: nat, ev: Event)

  datatype Pc =
    | Idle
    | Closing(c: SubRef)                                        // Unsubscribe, before the guard
    | Rebuilding(item: Item)                                    // Publish, between read and write lock
    | Sending(item: Item, snapshot: seq<SubRef>, next: nat)     // Publish, fanning out
    | Terminating(g: GroupRef, ev: Event, done: set<SubRef>)    // Close, ranging over the detached group

  /**
   One subscriber: its channel, and what happened to it so far.  `since` is how many publications
   its execution had when it subscribed, `run` lists the publications
   put into the channel, `terminal` the event Close put there, `received` what was taken out.
   */
  datatype Track = Track(exec: string, since: nat, ch: Chan, run: seq<Item>, terminal: Option<Event>, received: seq<Event>)

  datatype State = State(hub: Hub<GroupRef, SubRef>, subs: map<SubRef, Track>, log: map<string, seq<Item>>, pcs: map<Thread, Pc>)

  datatype Step =
    | Subscribe(e: string, c: SubRef, alloc: GroupRef)
    | UnsubscribeHub(t: Thread, e: string, c: SubRef)
    | UnsubscribeGuard(t: Thread)
    | PublishRead(t: Thread, ev: Event)
    | PublishRebuild(t: Thread, order: seq<SubRef>)
    | PublishOffer(t: Thread)
    | PublishEnd(t: Thread)
    | CloseHub(t: Thread, e: string, ev: Event)
    | CloseOffer(t: Thread, c: SubRef)
    | CloseEnd(t: Thread)
    | Receive(c: SubRef)

  function Init(max: nat): State {
    State(Hub(map[], map[], 0, max), map[], map[], map[])
  }

  function PcOf(st: State, t: Thread): Pc {
    if t in st.pcs then st.pcs[t] else Idle
  }

  function Log(st: State, e: string): seq<Item> {
    if e in st.log then st.log[e] else []
  }

  ghost predicate Enabled(st: State, step: Step)
    requires Linked(st.hub)
  {
    match step
    case Subscribe(e, c, alloc) => c !in st.subs && alloc !in st.hub.groups
    case UnsubscribeHub(t, e, c) => PcOf(st, t).Idle? && c in st.subs
    case UnsubscribeGuard(t) => PcOf(st, t).Closing?
    case PublishRead(t, ev) => PcOf(st, t).Idle? && ev.execID != ""
    case PublishRebuild(t, order) =>
      PcOf(st, t).Rebuilding? && Lists(order, Members(st.hub, st.pcs[t].item.ev.execID))
    case PublishOffer(t) => PcOf(st, t).Sending? && st.pcs[t].next < |st.pcs[t].snapshot|
    case PublishEnd(t) => PcOf(st, t).Sending? && st.pcs[t].next >= |st.pcs[t].snapshot|
    case CloseHub(t, e, ev) => PcOf(st, t).Idle? && e != ""
    case CloseOffer(t, c) =>
      PcOf(st, t).Terminating? && st.pcs[t].g in st.hub.groups
      && c in st.hub.groups[st.pcs[t].g].members && c !in st.pcs[t].done
    case CloseEnd(t) =>
      PcOf(st, t).Terminating? && st.pcs[t].g in st.hub.groups && st.hub.groups[st.pcs[t].g].members <= st.pcs[t].done
    case Receive(c) => c in st.subs && st.subs[c].ch.buf != []
  }

  /** The subscriber whose guard a step takes, if any. */
  function Guarded(st: State, step: Step): Option<SubRef> {
    match step
    case UnsubscribeGuard(t) => if PcOf(st, t).Closing? then Some(st.pcs[t].c) else None
    case PublishOffer(t) =>
      if PcOf(st, t).Sending? && st.pcs[t].next < |st.pcs[t].snapshot| then Some(st.pcs[t].snapshot[st.pcs[t].next]) else None
    case CloseOffer(_, c) => Some(c)
    case _ => None
  }

  /** A send on, or a second close of, a closed channel, or a guard that is not there. */
  predicate Crashes(st: State, step: Step) {
    var c := Guarded(st, step);
    c.Some? && (c.value !in st.subs || Panics(st.subs[c.value].ch))
  }

  ghost function Apply(st: State, step: Step): State
    requires Linked(st.hub) && Enabled(st, step) && !Crashes(st, step)
  {
    match step
    case Subscribe(e, c, alloc) =>
      if st.hub.count >= st.hub.max then st
      else st.(hub := WithSubscriber(st.hub, e, c, alloc), subs := st.subs[c := Track(e, |Log(st, e)|, NEW_CHAN, [], None, [])])
    case UnsubscribeHub(t, e, c) =>
      st.(hub := WithoutSubscriber(st.hub, e, c),
          pcs := if c in Members(st.hub, e) then st.pcs[t := Closing(c)] else st.pcs)
    case UnsubscribeGuard(t) =>
      var c := st.pcs[t].c;
      st.(subs := st.subs[c := st.subs[c].(ch := Shut(st.subs[c].ch))], pcs := st.pcs[t := Idle])
    case PublishRead(t, ev) =>
      var item := Item(|Log(st, ev.execID)|, ev);
      st.(log := st.log[ev.execID := Log(st, ev.execID) + [item]],
          pcs := st.pcs[t := if ev.execID !in st.hub.subs then Idle
                             else if ReadSnapshot(st.hub, ev.execID) == [] then Rebuilding(item)
                             else Sending(item, ReadSnapshot(st.hub, ev.execID), 0)])
    case PublishRebuild(t, order) =>
      var item := st.pcs[t].item;
      var hub := Rebuild(st.hub, item.ev.execID, order);
      st.(hub := hub, pcs := st.pcs[t := Sending(item, ReadSnapshot(hub, item.ev.execID), 0)])
    case PublishOffer(t) =>
      var pc := st.pcs[t];
      var c := pc.snapshot[pc.next];
      st.(subs := st.subs[c := Offered(st.subs[c], pc.item)], pcs := st.pcs[t := pc.(next := pc.next + 1)])
    case PublishEnd(t) => st.(pcs := st.pcs[t := Idle])
    case CloseHub(t, e, ev) =>
      var event := if ev.execID == "" then ev.(execID := e) else ev;
      st.(hub := Detach(st.hub, e),
          pcs := if e in st.hub.subs then st.pcs[t := Terminating(st.hub.subs[e], event, {})] else st.pcs)
    case CloseOffer(t, c) =>
      st.(subs := st.subs[c := Terminated(st.subs[c], st.pcs[t].ev)],
          pcs := st.pcs[t := st.pcs[t].(done := st.pcs[t].done + {c})])
    case CloseEnd(t) => st.(pcs := st.pcs[t := Idle])
    case Receive(c) =>
      var ch := st.subs[c].ch;
      st.(subs := st.subs[c := st.subs[c].(ch := ch.(buf := ch.buf[1..]), received := st.subs[c].received + [ch.buf[0]])])
  }

  function Offered(k: Track, item: Item): Track {
    k.(ch := Offer(k.ch, item.ev), run := if Accepts(k.ch) then k.run + [item] else k.run)
  }

  function Terminated(k: Track, ev: Event): Track {
    k.(ch := OfferTerminal(k.ch, ev), terminal := if Accepts(k.ch) then Some(ev) else k.terminal)
  }

  // ---- The invariant of all interleavings ----

  function Events(run: seq<Item>): seq<Event> {
    seq(|run|, i requires 0 <= i < |run| => run[i].ev)
  }

  /** Everything ever sent to a subscriber, in order. */
  function Sent(k: Track): seq<Event> {
    Events(k.run) + if k.terminal.Some? then [k.terminal.value] else []
  }

  /** The guard's flag is the channel's state; the channel is a queue; the terminal event closes it. */
  ghost predicate TrackOK(log: map<string, seq<Item>>, k: Track) {
    && (k.ch.closed <==> k.ch.chanClosed)
    && |k.ch.buf| <= BUFFER
    && k.received + k.ch.buf == Sent(k)
    && (k.terminal.Some? ==> k.ch.closed)
    && forall i | 0 <= i < |k.run| :: Published(log, k.exec, k.run[i])
  }

  ghost predicate Published(log: map<string, seq<Item>>, e: string, item: Item) {
    e in log && item.ev.execID == e && item.pos < |log[e]| && log[e][item.pos] == item
  }

  ghost predicate Distinct(s: seq<SubRef>) {
    forall i, j | 0 <= i < j < |s| :: s[i] != s[j]
  }

  /** The publication is in the subscriber's channel, or the subscriber is closed. */
  ghost predicate Settled(k: Track, item: Item) {
    k.ch.closed || item in k.run
  }

  ghost predicate PcOK(st: State, pc: Pc)
    requires Linked(st.hub)
  {
    match pc
    case Idle => true
    case Closing(c) => c in st.subs
    case Rebuilding(item) => Published(st.log, item.ev.execID, item)
    case Sending(item, snapshot, next) =>
      && Published(st.log, item.ev.execID, item)
      && next <= |snapshot| && Distinct(snapshot)
      && (forall c | c in snapshot :: c in st.subs && st.subs[c].exec == item.ev.execID)
      && (forall i | 0 <= i < next :: Settled(st.subs[snapshot[i]], item))
    case Terminating(g, ev, done) =>
      g in st.hub.groups && g !in st.hub.subs.Values && forall c | c in done :: c in st.subs && st.subs[c].ch.closed
  }

  ghost predicate GroupsKnown(st: State) {
    forall g, c | g in st.hub.groups && c in st.hub.groups[g].members :: c in st.subs
  }

  ghost predicate MembersOwn(st: State)
    requires Linked(st.hub)
  {
    forall e, c | c in Members(st.hub, e) :: c in st.subs && st.subs[c].exec == e
  }

  ghost predicate Inv(st: State) {
    && Linked(st.hub) && HubOK(st.hub)
    && GroupsKnown(st) && MembersOwn(st)
    && (forall c | c in st.subs :: TrackOK(st.log, st.subs[c]))
    && (forall t | t in st.pcs :: PcOK(st, st.pcs[t]))
  }

  /** Subscribed: still in the group its execution has now. */
  ghost predicate Live(st: State, c: SubRef)
    requires Linked(st.hub)
  {
    c in st.subs && c in Members(st.hub, st.subs[c].exec)
  }

  /** What one step may do to a subscriber it already knows. */
  ghost predicate Later(k: Track, k': Track) {
    && k'.exec == k.exec && k'.since == k.since && k.run <= k'.run && k.received <= k'.received
    && (k.ch.closed ==> k'.ch.closed && k'.run == k.run && k'.terminal == k.terminal)
  }

  /**
   What holds between the states before and after any step, and so along any run: histories
   only grow, a closed channel gets nothing more, whoever left its group never comes back,
   and a detached group is never touched again, so ranging over it without the lock is safe.
   */
  ghost predicate Progress(st: State, st': State) {
    && Linked(st.hub) && Linked(st'.hub) && st'.hub.max == st.hub.max
    && (forall c | c in st.subs :: c in st'.subs && Later(st.subs[c], st'.subs[c]))
    && (forall e | e in st.log :: e in st'.log && st.log[e] <= st'.log[e])
    && (forall c | c in st.subs && !Live(st, c) :: !Live(st', c))
    && DetachedStay(st.hub, st'.hub)
  }

  // ---- One step keeps the invariant ----

  lemma PcKept(st: State, st': State, pc: Pc)
    requires Progress(st, st') && PcOK(st, pc)
    ensures PcOK(st', pc)
  {
    if pc.Sending? {
      forall i | 0 <= i < pc.next
        ensures Settled(st'.subs[pc.snapshot[i]], pc.item)
      {
        assert Settled(st.subs[pc.snapshot[i]], pc.item);
        assert Later(st.subs[pc.snapshot[i]], st'.subs[pc.snapshot[i]]);
      }
    }
  }

  lemma TrackKept(log: map<string, seq<Item>>, log': map<string, seq<Item>>, k: Track)
    requires forall e | e in log :: e in log' && log[e] <= log'[e]
    requires TrackOK(log, k)
    ensures TrackOK(log', k)
  {
    forall i | 0 <= i < |k.run|
      ensures Published(log', k.exec, k.run[i])
    {
      assert Published(log, k.exec, k.run[i]);
    }
  }

  const NO_THREAD: int := -1

  /** A step of thread `t` that left the hub well linked: everything not touched is still in order. */
  lemma OthersKept(st: State, st': State, t: int)
    requires Inv(st) && Progress(st, st') && HubOK(st'.hub) && GroupsKnown(st') && MembersOwn(st')
    requires forall c | c in st'.subs :: (c in st.subs && st'.subs[c] == st.subs[c]) || TrackOK(st'.log, st'.subs[c])
    requires forall u | u in st'.pcs && u != t :: u in st.pcs && st'.pcs[u] == st.pcs[u]
    requires t in st'.pcs ==> PcOK(st', st'.pcs[t])
    ensures Inv(st')
  {
    forall u | u in st'.pcs
      ensures PcOK(st', st'.pcs[u])
    {
      if u != t {
        PcKept(st, st', st.pcs[u]);
      }
    }
    forall c | c in st'.subs
      ensures TrackOK(st'.log, st'.subs[c])
    {
      if c in st.subs && st'.subs[c] == st.subs[c] {
        TrackKept(st.log, st'.log, st.subs[c]);
      }
    }
  }

  lemma SubscribedIsKnown(st: State, step: Step)
    requires Inv(st) && step.Subscribe? && Enabled(st, step) && st.hub.count < st.hub.max
    ensures GroupsKnown(Apply(st, step))
  {
    hide HubOK, Memberships;
  }

  lemma SubscribeProgress(st: State, step: Step)
    requires Inv(st) && step.Subscribe? && Enabled(st, step) && st.hub.count < st.hub.max
    ensures Linked(Apply(st, step).hub) && HubOK(Apply(st, step).hub)
    ensures Progress(st, Apply(st, step)) && MembersOwn(Apply(st, step))
  {
    hide HubOK, Memberships, Lists, TrackOK, PcOK, GroupsKnown, WithSubscriber, Published, DetachedStay;
    assert step.c !in Members(st.hub, step.e);
    SubscribeKeeps(st.hub, step.e, step.c, step.alloc);
  }

  lemma SubscribeStep(st: State, step: Step)
    requires Inv(st) && step.Subscribe? && Enabled(st, step)
    ensures Inv(Apply(st, step)) && Progress(st, Apply(st, step))
  {
    hide HubOK, Memberships, Lists, DetachedStay, GroupsKnown, MembersOwn, WithSubscriber, Published, PcOK;
    NothingMoved(st.hub);
    var st' := Apply(st, step);
    if st.hub.count < st.hub.max {
      SubscribeProgress(st, step);
      SubscribedIsKnown(st, step);
      assert st'.subs[step.c].ch == NEW_CHAN && Sent(st'.subs[step.c]) == [];
      forall t | t in st.pcs
        ensures PcOK(st', st.pcs[t])
      {
        PcKept(st, st', st.pcs[t]);
      }
      forall c | c in st.subs
        ensures TrackOK(st'.log, st'.subs[c])
      {
        assert st'.subs[c] == st.subs[c] && st'.log == st.log;
      }
    }
  }

  lemma UnsubscribeHubStep(st: State, step: Step)
    requires Inv(st) && step.UnsubscribeHub? && Enabled(st, step)
    ensures Inv(Apply(st, step)) && Progress(st, Apply(st, step))
  {
    hide HubOK, Memberships, TrackOK, Lists, DetachedStay, Published;
    var st' := Apply(st, step);
    UnsubscribeKeeps(st.hub, step.e, step.c);
    OthersKept(st, st', step.t);
  }

  lemma CloseHubStep(st: State, step: Step)
    requires Inv(st) && step.CloseHub? && Enabled(st, step)
    ensures Inv(Apply(st, step)) && Progress(st, Apply(st, step))
  {
    hide HubOK, Memberships, TrackOK, Lists, DetachedStay, Published;
    var st' := Apply(st, step);
    DetachKeeps(st.hub, step.e);
    OthersKept(st, st', step.t);
  }

  /** Where memberships stay and histories only grow, a step makes progress and changes nobody's liveness. */
  lemma QuietProgress(st: State, st': State)
    requires Inv(st) && Linked(st'.hub) && DetachedStay(st.hub, st'.hub) && st'.hub.max == st.hub.max
    requires forall e :: Members(st'.hub, e) == Members(st.hub, e)
    requires st'.subs.Keys == st.subs.Keys && forall c | c in st.subs :: Later(st.subs[c], st'.subs[c])
    requires forall e | e in st.log :: e in st'.log && st.log[e] <= st'.log[e]
    ensures Progress(st, st') && MembersOwn(st') && forall c | c in st.subs :: Live(st', c) == Live(st, c)
  {
    hide HubOK, Memberships, TrackOK, PcOK, DetachedStay, GroupsKnown, Members, Published;
  }

  /** A step of thread `t` that leaves the hub alone. */
  lemma SameHubKept(st: State, st': State, t: int)
    requires Inv(st) && st'.hub == st.hub && st'.subs.Keys == st.subs.Keys
    requires forall c | c in st.subs :: Later(st.subs[c], st'.subs[c]) && (st'.subs[c] == st.subs[c] || TrackOK(st'.log, st'.subs[c]))
    requires forall e | e in st.log :: e in st'.log && st.log[e] <= st'.log[e]
    requires forall u | u in st'.pcs && u != t :: u in st.pcs && st'.pcs[u] == st.pcs[u]
    requires t in st'.pcs ==> PcOK(st', st'.pcs[t])
    ensures Inv(st') && Progress(st, st') && forall c | c in st.subs :: Live(st', c) == Live(st, c)
  {
    hide HubOK, Memberships, TrackOK, PcOK, DetachedStay, Progress, Later, Live, MembersOwn, Members;
    NothingMoved(st.hub);
    QuietProgress(st, st');
    OthersKept(st, st', t);
  }

  /** What the first region of Publish finds to do is in order. */
  lemma ReadPcOK(st: State, step: Step)
    requires Inv(st) && step.PublishRead? && Enabled(st, step)
    ensures var st' := Apply(st, step); step.t in st'.pcs ==> PcOK(st', st'.pcs[step.t])
  {
    hide HubOK, Memberships, TrackOK, Apply;
    var e := step.ev.execID;
    ReadEffect(st, step);
    if e in st.hub.subs && ReadSnapshot(st.hub, e) != [] {
      CachedSnapshotLists(st.hub, e);
    }
    hide ReadSnapshot, Members, Live;
  }

  lemma ReadEffect(st: State, step: Step)
    requires Linked(st.hub) && step.PublishRead? && Enabled(st, step)
    ensures var st', e := Apply(st, step), step.ev.execID;
            var item := Item(|Log(st, e)|, step.ev);
            && st'.hub == st.hub && st'.subs == st.subs && st'.log == st.log[e := Log(st, e) + [item]]
            && st'.pcs == st.pcs[step.t := if e !in st.hub.subs then Idle
                                           else if ReadSnapshot(st.hub, e) == [] then Rebuilding(item)
                                           else Sending(item, ReadSnapshot(st.hub, e), 0)]
            && Published(st'.log, e, item) && (forall f | f in st.log :: f in st'.log && st.log[f] <= st'.log[f])
  {
  }

  lemma PublishReadStep(st: State, step: Step)
    requires Inv(st) && step.PublishRead? && Enabled(st, step)
    ensures Inv(Apply(st, step)) && Progress(st, Apply(st, step))
    ensures forall c | c in st.subs :: Live(Apply(st, step), c) == Live(st, c)
  {
    hide Inv, Apply, PcOK, Published, ReadSnapshot, Progress, Live;
    InvLinked(st);
    ReadEffect(st, step);
    ReadPcOK(st, step);
    SameHubKept(st, Apply(st, step), step.t);
  }

  lemma InvLinked(st: State)
    requires Inv(st)
    ensures Linked(st.hub) && HubOK(st.hub)
  {
    hide HubOK, GroupsKnown, MembersOwn, TrackOK, PcOK;
  }

  lemma RebuildEffect(st: State, step: Step)
    requires Linked(st.hub) && step.PublishRebuild? && Enabled(st, step)
    ensures var st', item := Apply(st, step), st.pcs[step.t].item;
            var hub := Rebuild(st.hub, item.ev.execID, step.order);
            && st' == st.(hub := hub, pcs := st.pcs[step.t := Sending(item, ReadSnapshot(hub, item.ev.execID), 0)])
            && (forall g | g in hub.groups :: g in st.hub.groups && hub.groups[g].members == st.hub.groups[g].members)
  {
  }

  lemma RebuildPcOK(st: State, hub: Hub<GroupRef, SubRef>, item: Item)
    requires Inv(st) && Published(st.log, item.ev.execID, item) && Linked(hub)
    requires Lists(ReadSnapshot(hub, item.ev.execID), Members(st.hub, item.ev.execID))
    ensures PcOK(st.(hub := hub), Sending(item, ReadSnapshot(hub, item.ev.execID), 0))
  {
    hide HubOK, Memberships, TrackOK, Published, ReadSnapshot, Members, GroupsKnown;
  }

  lemma PublishRebuildStep(st: State, step: Step)
    requires Inv(st) && step.PublishRebuild? && Enabled(st, step)
    ensures Inv(Apply(st, step)) && Progress(st, Apply(st, step))
    ensures forall c | c in st.subs :: Live(Apply(st, step), c) == Live(st, c)
  {
    hide HubOK, Memberships, TrackOK, DetachedStay, Published, Apply, Rebuild, ReadSnapshot, Lists, Members, Progress, Live, MembersOwn;
    var st' := Apply(st, step);
    var item := st.pcs[step.t].item;
    RebuildEffect(st, step);
    RebuildKeeps(st.hub, item.ev.execID, step.order);
    assert PcOK(st, st.pcs[step.t]);
    RebuildPcOK(st, st'.hub, item);
    QuietProgress(st, st');
    OthersKept(st, st', step.t);
  }

  lemma SentGrows(k: Track, item: Item)
    ensures k.terminal.None? ==> Sent(k.(run := k.run + [item])) == Sent(k) + [item.ev]
  {
    assert Events(k.run + [item]) == Events(k.run) + [item.ev];
  }

  lemma OfferedOK(log: map<string, seq<Item>>, k: Track, item: Item)
    requires TrackOK(log, k) && Published(log, k.exec, item)
    ensures TrackOK(log, Offered(k, item)) && Later(k, Offered(k, item)) && Settled(Offered(k, item), item)
  {
    SentGrows(k, item);
  }

  lemma PublishOfferStep(st: State, step: Step)
    requires Inv(st) && step.PublishOffer? && Enabled(st, step)
    ensures !Crashes(st, step) && Inv(Apply(st, step)) && Progress(st, Apply(st, step))
    ensures forall c | c in st.subs :: Live(Apply(st, step), c) == Live(st, c)
  {
    hide HubOK, Memberships, TrackOK, Published, Apply, Offered, Progress, Live, Members, MembersOwn, GroupsKnown, Settled, Distinct;
    var pc := st.pcs[step.t];
    assert PcOK(st, pc);
    var c := pc.snapshot[pc.next];
    assert c in pc.snapshot;
    OpenIsOpen(st.log, st.subs[c]);
    OfferedOK(st.log, st.subs[c], pc.item);
    OfferEffect(st, step);
    OfferPcOK(st, pc);
    SameHubKept(st, Apply(st, step), step.t);
  }

  lemma OfferEffect(st: State, step: Step)
    requires Linked(st.hub) && step.PublishOffer? && Enabled(st, step) && !Crashes(st, step)
    ensures var pc := st.pcs[step.t];
            var c := pc.snapshot[pc.next];
            && c in st.subs
            && Apply(st, step) == st.(subs := st.subs[c := Offered(st.subs[c], pc.item)],
                                      pcs := st.pcs[step.t := pc.(next := pc.next + 1)])
  {
  }

  lemma OfferPcOK(st: State, pc: Pc)
    requires Linked(st.hub) && PcOK(st, pc) && pc.Sending? && pc.next < |pc.snapshot|
    requires var c := pc.snapshot[pc.next]; Later(st.subs[c], Offered(st.subs[c], pc.item)) && Settled(Offered(st.subs[c], pc.item), pc.item)
    ensures var c := pc.snapshot[pc.next];
            PcOK(st.(subs := st.subs[c := Offered(st.subs[c], pc.item)]), pc.(next := pc.next + 1))
  {
    hide Published, Offered;
  }

  lemma ClosedOK(log: map<string, seq<Item>>, k: Track, ev: Event)
    requires TrackOK(log, k)
    ensures TrackOK(log, Terminated(k, ev)) && Later(k, Terminated(k, ev)) && Terminated(k, ev).ch.closed
    ensures TrackOK(log, k.(ch := Shut(k.ch))) && Later(k, k.(ch := Shut(k.ch)))
  {
    if Accepts(k.ch) {
      assert k.terminal.None? && Sent(k) == Events(k.run);
      assert Sent(Terminated(k, ev)) == Sent(k) + [ev];
    }
  }

  lemma UnsubscribeGuardStep(st: State, step: Step)
    requires Inv(st) && step.UnsubscribeGuard? && Enabled(st, step)
    ensures !Crashes(st, step) && Inv(Apply(st, step)) && Progress(st, Apply(st, step))
  {
    hide HubOK, Memberships, TrackOK, Lists, Published, Apply;
    var c := st.pcs[step.t].c;
    assert PcOK(st, st.pcs[step.t]);
    OpenIsOpen(st.log, st.subs[c]);
    ClosedOK(st.log, st.subs[c], NO_EVENT);
    ShutEffect(st, step);
    OthersKept(st, Apply(st, step), step.t);
  }

  lemma ShutEffect(st: State, step: Step)
    requires Linked(st.hub) && step.UnsubscribeGuard? && Enabled(st, step) && !Crashes(st, step)
    ensures var c := st.pcs[step.t].c;
            Apply(st, step) == st.(subs := st.subs[c := st.subs[c].(ch := Shut(st.subs[c].ch))], pcs := st.pcs[step.t := Idle])
  {
  }

  lemma CloseOfferStep(st: State, step: Step)
    requires Inv(st) && step.CloseOffer? && Enabled(st, step)
    ensures !Crashes(st, step) && Inv(Apply(st, step)) && Progress(st, Apply(st, step))
  {
    hide HubOK, Memberships, TrackOK, Lists, Published, Terminated, Apply;
    var pc := st.pcs[step.t];
    assert PcOK(st, pc);
    OpenIsOpen(st.log, st.subs[step.c]);
    ClosedOK(st.log, st.subs[step.c], pc.ev);
    CloseOfferEffect(st, step);
    EndPcOK(st, pc, step.c);
    hide PcOK;
    SameHubKept(st, Apply(st, step), step.t);
  }

  lemma EndPcOK(st: State, pc: Pc, c: SubRef)
    requires Linked(st.hub) && PcOK(st, pc) && pc.Terminating? && c in st.subs
    requires Terminated(st.subs[c], pc.ev).ch.closed
    ensures PcOK(st.(subs := st.subs[c := Terminated(st.subs[c], pc.ev)]), pc.(done := pc.done + {c}))
  {
    hide Terminated;
  }

  lemma CloseOfferEffect(st: State, step: Step)
    requires Linked(st.hub) && step.CloseOffer? && Enabled(st, step) && !Crashes(st, step)
    ensures var pc := st.pcs[step.t];
            Apply(st, step) == st.(subs := st.subs[step.c := Terminated(st.subs[step.c], pc.ev)],
                                   pcs := st.pcs[step.t := pc.(done := pc.done + {step.c})])
  {
  }

  const NO_EVENT := Event("", "", "", 0, "", "")

  lemma OpenIsOpen(log: map<string, seq<Item>>, k: Track)
    requires TrackOK(log, k)
    ensures !Panics(k.ch)
  {
  }

  lemma ReceiveStep(st: State, step: Step)
    requires Inv(st) && step.Receive? && Enabled(st, step)
    ensures Inv(Apply(st, step)) && Progress(st, Apply(st, step))
  {
    hide HubOK, Memberships, DetachedStay, Published, Lists;
    NothingMoved(st.hub);
    var st' := Apply(st, step);
    var k, k' := st.subs[step.c], st'.subs[step.c];
    assert TrackOK(st.log, k);
    assert k'.received + k'.ch.buf == k.received + k.ch.buf;
    OthersKept(st, st', NO_THREAD);
  }

  lemma EndStep(st: State, step: Step)
    requires Inv(st) && (step.PublishEnd? || step.CloseEnd?) && Enabled(st, step)
    ensures Inv(Apply(st, step)) && Progress(st, Apply(st, step))
    ensures forall c | c in st.subs :: Live(Apply(st, step), c) == Live(st, c)
  {
    hide HubOK, Memberships, TrackOK, Published, Lists, DetachedStay, Progress, Live, Members, MembersOwn, GroupsKnown;
    SameHubKept(st, Apply(st, step), step.t);
  }

  lemma OthersTakeNoGuard(st: State, step: Step)
    requires Linked(st.hub)
    ensures !step.UnsubscribeGuard? && !step.PublishOffer? && !step.CloseOffer? ==> !Crashes(st, step)
  {
  }

  lemma StepKeepsInv(st: State, step: Step)
    requires Inv(st) && Enabled(st, step)
    ensures !Crashes(st, step) && Inv(Apply(st, step)) && Progress(st, Apply(st, step))
  {
    hide Inv, Apply, Progress, Live, Crashes;
    InvLinked(st);
    OthersTakeNoGuard(st, step);
    match step
    case Subscribe(_, _, _) => SubscribeStep(st, step);
    case UnsubscribeHub(_, _, _) => UnsubscribeHubStep(st, step);
    case UnsubscribeGuard(_) => UnsubscribeGuardStep(st, step);
    case PublishRead(_, _) => PublishReadStep(st, step);
    case PublishRebuild(_, _) => PublishRebuildStep(st, step);
    case PublishOffer(_) => PublishOfferStep(st, step);
    case PublishEnd(_) => EndStep(st, step);
    case CloseHub(_, _, _) => CloseHubStep(st, step);
    case CloseOffer(_, _) => CloseOfferStep(st, step);
    case CloseEnd(_) => EndStep(st, step);
    case Receive(_) => ReceiveStep(st, step);
  }

  // ---- Whole runs ----

  ghost predicate CanRun(st: State, steps: seq<Step>)
    requires Linked(st.hub)
    decreases |steps|
  {
    steps == [] || (&& Enabled(st, steps[0]) && !Crashes(st, steps[0])
                    && Linked(Apply(st, steps[0]).hub) && CanRun(Apply(st, steps[0]), steps[1..]))
  }

  ghost function After(st: State, steps: seq<Step>): (last: State)
    requires Linked(st.hub) && CanRun(st, steps)
    ensures Linked(last.hub)
    decreases |steps|
  {
    if steps == [] then st else After(Apply(st, steps[0]), steps[1..])
  }

  lemma InitOK(max: nat)
    ensures Inv(Init(max))
  {
    assert Memberships(Init(max).hub) == {};
  }

  lemma ProgressTransitive(a: State, b: State, c: State)
    requires Progress(a, b) && Progress(b, c)
    ensures Progress(a, c)
  {
    forall s | s in a.subs
      ensures s in c.subs && Later(a.subs[s], c.subs[s])
    {
      assert Later(a.subs[s], b.subs[s]) && Later(b.subs[s], c.subs[s]);
    }
  }

  lemma {:induction false} RunKeepsInv(st: State, steps: seq<Step>)
    requires Inv(st) && CanRun(st, steps)
    ensures Inv(After(st, steps)) && Progress(st, After(st, steps))
    decreases |steps|
  {
    hide HubOK, Memberships, TrackOK, PcOK, Apply;
    NothingMoved(st.hub);
    if steps != [] {
      StepKeepsInv(st, steps[0]);
      RunKeepsInv(Apply(st, steps[0]), steps[1..]);
      ProgressTransitive(st, Apply(st, steps[0]), After(st, steps));
    }
  }

  /** In every reachable state no enabled step sends on, or closes, a channel already closed. */
  lemma NeverCrashes(max: nat, steps: seq<Step>, step: Step)
    requires CanRun(Init(max), steps) && Enabled(After(Init(max), steps), step)
    ensures !Crashes(After(Init(max), steps), step)
  {
    InitOK(max);
    RunKeepsInv(Init(max), steps);
    StepKeepsInv(After(Init(max), steps), step);
  }

  /**
   The budget is exact in every reachable state: the count is the number of live subscribers,
   never above the limit; no stored group is empty; a clean snapshot lists its group once over.
   */
  lemma BudgetIsExact(max: nat, steps: seq<Step>)
    requires CanRun(Init(max), steps)
    ensures var h := After(Init(max), steps).hub;
            && h.count == |Memberships(h)| <= max
            && (forall e | e in h.subs :: Members(h, e) != {})
            && (forall e | e in h.subs && !h.groups[h.subs[e]].dirty :: Lists(h.groups[h.subs[e]].snapshot, Members(h, e)))
            && (forall e :: CountAfterClose(h, e) >= 0)
  {
    InitOK(max);
    RunKeepsInv(Init(max), steps);
    var h := After(Init(max), steps).hub;
    forall e
      ensures CountAfterClose(h, e) >= 0
    {
      DetachKeeps(h, e);
    }
  }

  /** When a Publish finishes, each subscriber of its snapshot has the event or is closed. */
  lemma FinishedPublishReachedAll(max: nat, steps: seq<Step>, t: Thread)
    requires CanRun(Init(max), steps) && Enabled(After(Init(max), steps), PublishEnd(t))
    ensures var st := After(Init(max), steps);
            forall c | c in st.pcs[t].snapshot :: c in st.subs && Settled(st.subs[c], st.pcs[t].item)
  {
    InitOK(max);
    RunKeepsInv(Init(max), steps);
    assert PcOK(After(Init(max), steps), After(Init(max), steps).pcs[t]);
  }

  /** When a Close finishes, each member of the group it took out is closed. */
  lemma FinishedCloseClosedAll(max: nat, steps: seq<Step>, t: Thread)
    requires CanRun(Init(max), steps) && Enabled(After(Init(max), steps), CloseEnd(t))
    ensures var st := After(Init(max), steps);
            forall c | c in st.hub.groups[st.pcs[t].g].members :: c in st.subs && st.subs[c].ch.closed
  {
    InitOK(max);
    RunKeepsInv(Init(max), steps);
    assert PcOK(After(Init(max), steps), After(Init(max), steps).pcs[t]);
  }

  /** Once closed, a channel is never sent to again and what it was sent never changes. */
  lemma NothingAfterClose(max: nat, before: seq<Step>, more: seq<Step>, c: SubRef)
    requires CanRun(Init(max), before) && CanRun(After(Init(max), before), more)
    requires c in After(Init(max), before).subs && After(Init(max), before).subs[c].ch.closed
    ensures var st, st' := After(Init(max), before), After(After(Init(max), before), more);
            && c in st'.subs && st'.subs[c].ch.closed
            && Sent(st'.subs[c]) == Sent(st.subs[c])
  {
    InitOK(max);
    RunKeepsInv(Init(max), before);
    RunKeepsInv(After(Init(max), before), more);
    assert Later(After(Init(max), before).subs[c], After(After(Init(max), before), more).subs[c]);
  }

  /**
   Whoever has left its group, by Unsubscribe or by Close, is out for good: whatever is
   subscribed later, also under the same execution, another Unsubscribe changes nothing.
   */
  lemma UnsubscribeIsIdempotent(max: nat, before: seq<Step>, more: seq<Step>, e: string, c: SubRef)
    requires CanRun(Init(max), before) && CanRun(After(Init(max), before), more)
    requires c in After(Init(max), before).subs && !Live(After(Init(max), before), c)
    ensures var st' := After(After(Init(max), before), more);
            !Live(st', c) && WithoutSubscriber(st'.hub, e, c) == st'.hub
  {
    InitOK(max);
    RunKeepsInv(Init(max), before);
    RunKeepsInv(After(Init(max), before), more);
  }

  /** Close ranges over a detached group without the hub lock: no later step changes that group. */
  lemma DetachedGroupIsFrozen(max: nat, before: seq<Step>, more: seq<Step>, t: Thread)
    requires CanRun(Init(max), before) && CanRun(After(Init(max), before), more)
    requires PcOf(After(Init(max), before), t).Terminating?
    ensures var st, st' := After(Init(max), before), After(After(Init(max), before), more);
            var g := st.pcs[t].g;
            g in st.hub.groups && g in st'.hub.groups && st'.hub.groups[g] == st.hub.groups[g]
  {
    InitOK(max);
    RunKeepsInv(Init(max), before);
    RunKeepsInv(After(Init(max), before), more);
    assert PcOK(After(Init(max), before), After(Init(max), before).pcs[t]);
  }

  // ---- One publisher per execution: what a subscriber sees has no gap ----

  predicate Publishes(pc: Pc, e: string) {
    (pc.Rebuilding? || pc.Sending?) && pc.item.ev.execID == e
  }

  /** Thread `t` is in the middle of publishing on execution `e`. */
  predicate At(st: State, t: Thread, e: string) {
    t in st.pcs && Publishes(st.pcs[t], e)
  }

  /** A Publish starts only when no other is under way for the same execution. */
  ghost predicate Solo(st: State, step: Step) {
    step.PublishRead? ==> forall t :: !At(st, t, step.ev.execID)
  }

  ghost predicate OnePublisher(st: State) {
    && (forall t, u, e :: At(st, t, e) && At(st, u, e) ==> t == u)
    && (forall t, e :: At(st, t, e) ==> st.pcs[t].item.pos + 1 == |Log(st, e)|)
  }

  /** How far the publication under way for an execution has come; Idle if there is none. */
  ghost function Stage(st: State, e: string): Pc {
    if t :| At(st, t, e) then st.pcs[t] else Idle
  }

  /** The fan-out under way has yet to offer its event to this subscriber. */
  ghost predicate Owes(stage: Pc, c: SubRef) {
    stage.Sending? && stage.next <= |stage.snapshot| && c in stage.snapshot[stage.next..]
  }

  ghost predicate Contiguous(run: seq<Item>) {
    forall i | 0 <= i < |run| :: run[i].pos == run[0].pos + i
  }

  /** `n` is the length of the execution's log; the stream begins at `since`, or with the publication then under way. */
  ghost predicate Stream(c: SubRef, k: Track, live: bool, stage: Pc, n: nat) {
    && Contiguous(k.run) && k.since <= n
    && (k.run != [] ==> k.since - 1 <= k.run[0].pos <= k.since)
    && (!k.ch.closed && k.run == [] && (Owes(stage, c) || (live && stage.Rebuilding?)) ==> n <= k.since + 1)
    && (!k.ch.closed && k.run == [] && live && !Owes(stage, c) && !stage.Rebuilding? ==> n <= k.since)
    && (!k.ch.closed && k.run != [] && (Owes(stage, c) || (live && stage.Rebuilding?)) ==> k.run[|k.run| - 1].pos + 2 == n)
    && (!k.ch.closed && k.run != [] && live && !Owes(stage, c) && !stage.Rebuilding? ==> k.run[|k.run| - 1].pos + 1 == n)
    && (!k.ch.closed && live && stage.Sending? && c !in stage.snapshot ==> k.run == [])
  }

  ghost predicate StreamOK(st: State, c: SubRef)
    requires Linked(st.hub) && c in st.subs
  {
    Stream(c, st.subs[c], Live(st, c), Stage(st, st.subs[c].exec), |Log(st, st.subs[c].exec)|)
  }

  ghost predicate SoloInv(st: State) {
    Inv(st) && OnePublisher(st) && forall c | c in st.subs :: StreamOK(st, c)
  }

  lemma StageOf(st: State, t: Thread, e: string)
    requires OnePublisher(st) && At(st, t, e)
    ensures Stage(st, e) == st.pcs[t]
  {
  }

  lemma StageSame(st: State, st': State, e: string)
    requires OnePublisher(st) && OnePublisher(st')
    requires forall t :: At(st, t, e) || At(st', t, e) ==> At(st, t, e) && At(st', t, e) && st'.pcs[t] == st.pcs[t]
    ensures Stage(st', e) == Stage(st, e)
  {
  }

  /** Thread `t` may move its own publication on, or end it, but starts none. */
  lemma OnePublisherKept(st: State, st': State, t: Thread)
    requires OnePublisher(st) && st'.log == st.log
    requires forall u, e :: u != t && At(st', u, e) ==> At(st, u, e) && st'.pcs[u] == st.pcs[u]
    requires forall e :: At(st', t, e) ==> At(st, t, e) && st'.pcs[t].item == st.pcs[t].item
    ensures OnePublisher(st')
  {
    assert forall u, e :: At(st', u, e) ==> At(st, u, e) && st'.pcs[u].item == st.pcs[u].item;
  }

  /** What the first region of Publish does to the program counters and the log. */
  lemma PublishReadEffect(st: State, step: Step)
    requires Linked(st.hub) && step.PublishRead? && Enabled(st, step)
    ensures var st', e := Apply(st, step), step.ev.execID;
            && (forall u, f | u != step.t :: At(st', u, f) == At(st, u, f))
            && (forall u | u != step.t && u in st.pcs :: u in st'.pcs && st'.pcs[u] == st.pcs[u])
            && (forall f | f != e :: !At(st', step.t, f) && Log(st', f) == Log(st, f))
            && |Log(st', e)| == |Log(st, e)| + 1
            && (At(st', step.t, e) ==> st'.pcs[step.t].item.pos == |Log(st, e)|)
  {
    hide ReadSnapshot;
  }

  lemma PublishReadKeepsOne(st: State, step: Step)
    requires Linked(st.hub) && OnePublisher(st) && step.PublishRead? && Enabled(st, step) && Solo(st, step)
    ensures OnePublisher(Apply(st, step))
  {
    hide Enabled, Apply, Log;
    PublishReadEffect(st, step);
    hide At;
  }

  /** A step that publishes nothing. */
  ghost predicate Silent(st: State, st': State) {
    && Progress(st, st') && st'.log == st.log
    && (forall t, e :: At(st, t, e) || At(st', t, e) ==> At(st, t, e) && At(st', t, e) && st'.pcs[t] == st.pcs[t])
    && (forall c | c in st'.subs :: if c in st.subs then st'.subs[c].run == st.subs[c].run
                                       else st'.subs[c].run == [] && st'.subs[c].since == |Log(st', st'.subs[c].exec)|)
  }

  lemma SilentSteps(st: State, step: Step)
    requires Inv(st) && Enabled(st, step)
    requires !step.PublishRead? && !step.PublishRebuild? && !step.PublishOffer? && !step.PublishEnd?
    ensures !Crashes(st, step) && Silent(st, Apply(st, step))
  {
    hide Inv, Apply, Enabled, Crashes, Progress, At, Log;
    InvLinked(st);
    StepKeepsInv(st, step);
    SilentEffect(st, step);
  }

  lemma SilentEffect(st: State, step: Step)
    requires Linked(st.hub) && Enabled(st, step) && !Crashes(st, step)
    requires !step.PublishRead? && !step.PublishRebuild? && !step.PublishOffer? && !step.PublishEnd?
    ensures var st' := Apply(st, step);
            && st'.log == st.log
            && (forall t, e :: At(st, t, e) || At(st', t, e) ==> At(st, t, e) && At(st', t, e) && st'.pcs[t] == st.pcs[t])
            && (forall c | c in st'.subs :: if c in st.subs then st'.subs[c].run == st.subs[c].run
                                            else st'.subs[c].run == [] && st'.subs[c].since == |Log(st', st'.subs[c].exec)|)
  {
    hide WithSubscriber, WithoutSubscriber, Detach, Members, Offer, OfferTerminal, Shut;
  }

  lemma SilenceKeepsStreams(st: State, st': State)
    requires SoloInv(st) && Inv(st') && Silent(st, st')
    ensures SoloInv(st')
  {
    hide Inv;
    assert OnePublisher(st') by {
      OnePublisherKept(st, st', 0);
    }
    forall c | c in st'.subs
      ensures StreamOK(st', c)
    {
      StageSame(st, st', st'.subs[c].exec);
      if c in st.subs {
        assert StreamOK(st, c) && Later(st.subs[c], st'.subs[c]);
      }
    }
  }

  /** A publication step of thread `t` on execution `e`: the other executions do not notice. */
  ghost predicate OnlyOn(st: State, st': State, t: Thread, e: string) {
    && Progress(st, st') && st'.subs.Keys == st.subs.Keys
    && (forall f | f != e :: Log(st', f) == Log(st, f) && !At(st', t, f) && !At(st, t, f))
    && (forall u | u != t :: PcOf(st', u) == PcOf(st, u) && (u in st'.pcs <==> u in st.pcs))
    && (forall c | c in st.subs && st.subs[c].exec != e :: st'.subs[c] == st.subs[c])
    && (forall c | c in st.subs :: Live(st', c) == Live(st, c))
  }

  lemma OthersStream(st: State, st': State, t: Thread, e: string, c: SubRef)
    requires SoloInv(st) && OnePublisher(st') && OnlyOn(st, st', t, e) && c in st.subs && st.subs[c].exec != e
    ensures StreamOK(st', c)
  {
    hide Inv;
    assert StreamOK(st, c);
    assert forall u :: u != t && (At(st, u, st.subs[c].exec) || At(st', u, st.subs[c].exec)) ==> PcOf(st', u) == PcOf(st, u);
    StageSame(st, st', st.subs[c].exec);
  }

  lemma PublishReadOnlyOn(st: State, step: Step)
    requires Inv(st) && step.PublishRead? && Enabled(st, step) && Solo(st, step)
    ensures OnlyOn(st, Apply(st, step), step.t, step.ev.execID)
  {
    hide Inv, Apply, Progress, Live, ReadSnapshot, Published;
    InvLinked(st);
    PublishReadStep(st, step);
    PublishReadEffect(st, step);
    ReadEffect(st, step);
  }

  lemma PublishReadKeepsStreams(st: State, step: Step)
    requires SoloInv(st) && step.PublishRead? && Enabled(st, step) && Solo(st, step)
    ensures SoloInv(Apply(st, step))
  {
    hide HubOK, Memberships, TrackOK, PcOK, DetachedStay, Published, Stream, OnlyOn;
    StepKeepsInv(st, step);
    PublishReadKeepsOne(st, step);
    var st' := Apply(st, step);
    var e := step.ev.execID;
    PublishReadOnlyOn(st, step);
    if e in st.hub.subs && ReadSnapshot(st.hub, e) != [] {
      CachedSnapshotLists(st.hub, e);
    }
    assert Stage(st, e) == Idle;
    if At(st', step.t, e) {
      StageOf(st', step.t, e);
    } else {
      assert Stage(st', e) == Idle;
    }
    forall c | c in st'.subs
      ensures StreamOK(st', c)
    {
      if st.subs[c].exec != e {
        OthersStream(st, st', step.t, e, c);
      } else {
        assert StreamOK(st, c);
        BeginStream(c, st.subs[c], Live(st, c), Stage(st', e), |Log(st, e)|);
      }
    }
  }

  /** A fresh publication is owed to every live subscriber: rebuilt later, or listed in the snapshot taken. */
  lemma BeginStream(c: SubRef, k: Track, live: bool, stage: Pc, n: nat)
    requires Stream(c, k, live, Idle, n)
    requires match stage
             case Idle => !live
             case Rebuilding(_) => true
             case Sending(_, snapshot, next) => next == 0 && (c in snapshot <==> live)
             case _ => false
    ensures Stream(c, k, live, stage, n + 1)
  {
  }

  lemma PublishRebuildOnlyOn(st: State, step: Step)
    requires Inv(st) && step.PublishRebuild? && Enabled(st, step)
    ensures OnlyOn(st, Apply(st, step), step.t, st.pcs[step.t].item.ev.execID)
  {
    hide Inv, Apply, Progress, Live, ReadSnapshot, Rebuild, Members;
    InvLinked(st);
    PublishRebuildStep(st, step);
    RebuildEffect(st, step);
  }

  lemma PublishOfferOnlyOn(st: State, step: Step)
    requires Inv(st) && step.PublishOffer? && Enabled(st, step)
    ensures !Crashes(st, step) && OnlyOn(st, Apply(st, step), step.t, st.pcs[step.t].item.ev.execID)
  {
    hide Inv, Apply, Progress, Live, Offered, Crashes, Log;
    InvLinked(st);
    PublishOfferStep(st, step);
    OfferedHasExec(st, step.t);
    OfferEffect(st, step);
    SameLog(st, Apply(st, step));
  }

  lemma SameLog(st: State, st': State)
    requires st'.log == st.log
    ensures forall e :: Log(st', e) == Log(st, e)
  {
  }

  lemma OfferedHasExec(st: State, t: Thread)
    requires Inv(st) && t in st.pcs && st.pcs[t].Sending? && st.pcs[t].next < |st.pcs[t].snapshot|
    ensures var pc := st.pcs[t]; st.subs[pc.snapshot[pc.next]].exec == pc.item.ev.execID
  {
    hide HubOK, TrackOK, GroupsKnown, MembersOwn, Published;
    assert PcOK(st, st.pcs[t]);
    assert st.pcs[t].snapshot[st.pcs[t].next] in st.pcs[t].snapshot;
  }

  lemma PublishRebuildKeepsStreams(st: State, step: Step)
    requires SoloInv(st) && step.PublishRebuild? && Enabled(st, step)
    ensures SoloInv(Apply(st, step))
  {
    hide HubOK, Memberships, TrackOK, PcOK, DetachedStay, Published, OnlyOn;
    StepKeepsInv(st, step);
    var st' := Apply(st, step);
    var e := st.pcs[step.t].item.ev.execID;
    RebuildKeeps(st.hub, e, step.order);
    OnePublisherKept(st, st', step.t);
    assert At(st, step.t, e) && At(st', step.t, e);
    StageOf(st, step.t, e);
    StageOf(st', step.t, e);
    PublishRebuildOnlyOn(st, step);
    forall c | c in st'.subs
      ensures StreamOK(st', c)
    {
      if st.subs[c].exec != e {
        OthersStream(st, st', step.t, e, c);
      } else {
        assert StreamOK(st, c);
      }
    }
  }

  lemma OfferedStream(c: SubRef, k: Track, live: bool, pc: Pc, n: nat)
    requires pc.Sending? && pc.next < |pc.snapshot| && Distinct(pc.snapshot)
    requires Stream(c, k, live, pc, n) && pc.item.pos + 1 == n
    ensures var pc' := pc.(next := pc.next + 1);
            Stream(c, if c == pc.snapshot[pc.next] then Offered(k, pc.item) else k, live, pc', n)
  {
    assert pc.snapshot[pc.next..] == [pc.snapshot[pc.next]] + pc.snapshot[pc.next + 1..];
    if c == pc.snapshot[pc.next] {
      assert Owes(pc, c);
      assert !Owes(pc.(next := pc.next + 1), c);
    }
  }

  lemma PublishOfferKeepsStreams(st: State, step: Step)
    requires SoloInv(st) && step.PublishOffer? && Enabled(st, step)
    ensures !Crashes(st, step) && SoloInv(Apply(st, step))
  {
    hide HubOK, Memberships, TrackOK, DetachedStay, Lists, Published, Stream, Offered, Apply, OnlyOn, Progress, Settled, Crashes;
    hide GroupsKnown, MembersOwn, Live;
    PublishOfferStep(st, step);
    PublishOfferOnlyOn(st, step);
    OfferEffect(st, step);
    var st' := Apply(st, step);
    var pc := st.pcs[step.t];
    assert PcOK(st, pc);
    var e := pc.item.ev.execID;
    OnePublisherKept(st, st', step.t);
    assert At(st, step.t, e) && At(st', step.t, e);
    StageOf(st, step.t, e);
    StageOf(st', step.t, e);
    forall c | c in st'.subs
      ensures StreamOK(st', c)
    {
      if st.subs[c].exec != e {
        OthersStream(st, st', step.t, e, c);
      } else {
        assert StreamOK(st, c);
        OfferedStream(c, st.subs[c], Live(st, c), pc, |Log(st, e)|);
        OfferedExec(st.subs[c], pc.item);
      }
    }
  }

  lemma OfferedExec(k: Track, item: Item)
    ensures Offered(k, item).exec == k.exec
  {
  }

  lemma PublishEndKeepsStreams(st: State, step: Step)
    requires SoloInv(st) && step.PublishEnd? && Enabled(st, step)
    ensures SoloInv(Apply(st, step))
  {
    hide HubOK, Memberships, TrackOK, DetachedStay, Lists, Published, Progress, Live, GroupsKnown, MembersOwn;
    EndStep(st, step);
    var st' := Apply(st, step);
    var pc := st.pcs[step.t];
    assert PcOK(st, pc);
    var e := pc.item.ev.execID;
    OnePublisherKept(st, st', step.t);
    assert At(st, step.t, e);
    StageOf(st, step.t, e);
    assert OnlyOn(st, st', step.t, e);
    forall c | c in st'.subs
      ensures StreamOK(st', c)
    {
      if st.subs[c].exec != e {
        OthersStream(st, st', step.t, e, c);
      } else {
        assert StreamOK(st, c);
        assert Stage(st', e) == Idle;
      }
    }
  }

  ghost predicate SoloRun(st: State, steps: seq<Step>)
    requires Linked(st.hub) && CanRun(st, steps)
    decreases |steps|
  {
    steps == [] || (Solo(st, steps[0]) && SoloRun(Apply(st, steps[0]), steps[1..]))
  }

  lemma {:induction false} SoloRunKeepsInv(st: State, steps: seq<Step>)
    requires SoloInv(st) && CanRun(st, steps) && SoloRun(st, steps)
    ensures SoloInv(After(st, steps))
    decreases |steps|
  {
    hide HubOK, Memberships, TrackOK, PcOK, Apply, StreamOK;
    if steps != [] {
      match steps[0] {
        case PublishRead(_, _) => PublishReadKeepsStreams(st, steps[0]);
        case PublishRebuild(_, _) => PublishRebuildKeepsStreams(st, steps[0]);
        case PublishOffer(_) => PublishOfferKeepsStreams(st, steps[0]);
        case PublishEnd(_) => PublishEndKeepsStreams(st, steps[0]);
        case _ =>
          SilentSteps(st, steps[0]);
          StepKeepsInv(st, steps[0]);
          SilenceKeepsStreams(st, Apply(st, steps[0]));
      }
      SoloRunKeepsInv(Apply(st, steps[0]), steps[1..]);
    }
  }

  lemma RunIsStretch(st: State, k: Track)
    requires TrackOK(st.log, k) && Contiguous(k.run)
    ensures k.run != [] ==>
              var lo := k.run[0].pos;
              lo + |k.run| <= |Log(st, k.exec)| && k.run == Log(st, k.exec)[lo..lo + |k.run|]
  {
    if k.run != [] {
      var lo, n := k.run[0].pos, |k.run|;
      assert forall i | 0 <= i < n :: Published(st.log, k.exec, k.run[i]);
      assert k.run[n - 1].pos == lo + n - 1;
      assert Log(st, k.exec)[lo..lo + n] == k.run;
    }
  }

  /** What the stream invariant says of one subscriber of a reachable state. */
  lemma SubscriberOfRun(max: nat, steps: seq<Step>, c: SubRef)
    requires CanRun(Init(max), steps) && SoloRun(Init(max), steps) && c in After(Init(max), steps).subs
    ensures var st := After(Init(max), steps); StreamOK(st, c) && TrackOK(st.log, st.subs[c])
  {
    hide HubOK, Memberships, PcOK, Lists, Progress, CanRun, SoloRun, After, Stream, TrackOK, Published, OnePublisher, GroupsKnown, MembersOwn;
    InitSolo(max);
    SoloRunKeepsInv(Init(max), steps);
  }

  lemma InitSolo(max: nat)
    ensures SoloInv(Init(max))
  {
    hide Inv;
    InitOK(max);
  }

  /**
   With one publisher per execution, what a subscriber is sent is one unbroken stretch of its
   execution's publications, from the first after it subscribed or the one then under way, and
   then at most a terminal event, which is the last; and what it received so far, followed by
   what is buffered, is exactly that.
   */
  lemma StreamsHaveNoGap(max: nat, steps: seq<Step>, c: SubRef) returns (lo: nat)
    requires CanRun(Init(max), steps) && SoloRun(Init(max), steps) && c in After(Init(max), steps).subs
    ensures var st := After(Init(max), steps);
            var k := st.subs[c];
            && k.since - 1 <= lo <= k.since
            && lo + |k.run| <= |Log(st, k.exec)|
            && k.run == Log(st, k.exec)[lo..lo + |k.run|]
            && k.received + k.ch.buf == Events(k.run) + (if k.terminal.Some? then [k.terminal.value] else [])
            && (k.terminal.Some? ==> k.ch.closed)
  {
    hide HubOK, Memberships, CanRun, SoloRun, After, Published, Contiguous;
    SubscriberOfRun(max, steps, c);
    var st := After(Init(max), steps);
    var k := st.subs[c];
    lo := if k.run == [] then k.since else k.run[0].pos;
    RunIsStretch(st, k);
  }

  /**
   An open, still subscribed channel with no publication under way was sent everything since it
   subscribed, nothing having been published yet included.
   */
  lemma OpenStreamsAreComplete(max: nat, steps: seq<Step>, c: SubRef) returns (lo: nat)
    requires CanRun(Init(max), steps) && SoloRun(Init(max), steps)
    requires Live(After(Init(max), steps), c)
    requires var st := After(Init(max), steps); !st.subs[c].ch.closed && Stage(st, st.subs[c].exec).Idle?
    ensures var st := After(Init(max), steps);
            var k, log := st.subs[c], Log(st, st.subs[c].exec);
            && k.since - 1 <= lo <= k.since && lo <= |log|
            && k.run == log[lo..] && k.received + k.ch.buf == Events(log[lo..])
  {
    hide HubOK, Memberships, CanRun, SoloRun, After, Published;
    SubscriberOfRun(max, steps, c);
    var st := After(Init(max), steps);
    var k := st.subs[c];
    lo := if k.run == [] then k.since else k.run[0].pos;
    RunIsStretch(st, k);
    assert Events(k.run) + [] == Events(k.run);
  }

  // ---- What a step does to a channel ----

  /** The offer of an event: it goes in while fewer than 128 wait, and a subscriber without room is closed. */
  predicate OfferedTo(k: Track, k': Track, item: Item) {
    if k.ch.closed then k' == k
    else if |k.ch.buf| < 128 then k' == k.(ch := k.ch.(buf := k.ch.buf + [item.ev]), run := k.run + [item])
    else k' == k.(ch := Chan(true, true, k.ch.buf))
  }

  /** The end of the execution: its event goes in if there is room, and the channel is closed in any case. */
  predicate EndedWith(k: Track, k': Track, ev: Event) {
    if k.ch.closed then k' == k
    else if |k.ch.buf| < 128 then k' == k.(ch := Chan(true, true, k.ch.buf + [ev]), terminal := Some(ev))
    else k' == k.(ch := Chan(true, true, k.ch.buf))
  }

  /** The front of the buffer was taken out. */
  predicate TookOut(k: Track, k': Track) {
    && k.ch.buf != [] && k.ch.buf == [k.ch.buf[0]] + k'.ch.buf && k'.received == k.received + [k.ch.buf[0]]
    && k' == k.(ch := k.ch.(buf := k'.ch.buf), received := k'.received)
  }

  ghost predicate Moved(st: State, step: Step, c: SubRef, k: Track, k': Track)
    requires Linked(st.hub) && Enabled(st, step)
  {
    match step
    case PublishOffer(t) => if st.pcs[t].snapshot[st.pcs[t].next] == c then OfferedTo(k, k', st.pcs[t].item) else k' == k
    case CloseOffer(t, d) => if d == c then EndedWith(k, k', st.pcs[t].ev) else k' == k
    case UnsubscribeGuard(t) => if st.pcs[t].c == c then k' == k.(ch := Chan(true, true, k.ch.buf)) else k' == k
    case Receive(d) => if d == c then TookOut(k, k') else k' == k
    case _ => k' == k
  }

  /** The subscriber's channel changes in no other way; a new one is open and empty. */
  ghost predicate MovesOnly(st: State, step: Step, c: SubRef)
    requires Linked(st.hub) && Enabled(st, step) && !Crashes(st, step)
  {
    var st' := Apply(st, step);
    if c in st.subs then c in st'.subs && Moved(st, step, c, st.subs[c], st'.subs[c])
    else c in st'.subs ==> step.Subscribe? && step.c == c && step.e == st'.subs[c].exec && st'.subs[c].ch == Chan(false, false, [])
  }

  /** A subscriber's channel changes in four ways and no other. */
  lemma ChannelMoves(st: State, step: Step, c: SubRef)
    requires Inv(st) && Enabled(st, step)
    ensures !Crashes(st, step) && MovesOnly(st, step, c)
  {
    InvLinked(st);
    StepKeepsInv(st, step);
    GuardIsTrue(st);
    hide Inv, Enabled, Crashes, MovesOnly, Apply, Progress, Linked;
    match step
    case PublishOffer(t) => OfferMoves(st, t, c);
    case CloseOffer(t, d) => EndMoves(st, t, d, c);
    case UnsubscribeGuard(t) => ShutMoves(st, t, c);
    case Receive(d) => TakesOut(st, d, c);
    case _ => OthersMove(st, step, c);
  }

  lemma GuardIsTrue(st: State)
    requires Inv(st)
    ensures forall c | c in st.subs :: st.subs[c].ch.closed == st.subs[c].ch.chanClosed
  {
    hide HubOK, Memberships, PcOK, Published, Contiguous;
  }

  lemma OfferMoves(st: State, t: Thread, c: SubRef)
    requires Linked(st.hub) && Enabled(st, PublishOffer(t)) && !Crashes(st, PublishOffer(t))
    ensures MovesOnly(st, PublishOffer(t), c)
  {
  }

  lemma EndMoves(st: State, t: Thread, d: SubRef, c: SubRef)
    requires Linked(st.hub) && Enabled(st, CloseOffer(t, d)) && !Crashes(st, CloseOffer(t, d))
    ensures MovesOnly(st, CloseOffer(t, d), c)
  {
  }

  lemma ShutMoves(st: State, t: Thread, c: SubRef)
    requires Linked(st.hub) && Enabled(st, UnsubscribeGuard(t)) && !Crashes(st, UnsubscribeGuard(t))
    requires forall c | c in st.subs :: st.subs[c].ch.closed == st.subs[c].ch.chanClosed
    ensures MovesOnly(st, UnsubscribeGuard(t), c)
  {
  }

  lemma TakesOut(st: State, d: SubRef, c: SubRef)
    requires Linked(st.hub) && Enabled(st, Receive(d)) && !Crashes(st, Receive(d))
    ensures MovesOnly(st, Receive(d), c)
  {
  }

  lemma OthersMove(st: State, step: Step, c: SubRef)
    requires Linked(st.hub) && Enabled(st, step) && !Crashes(st, step)
    requires !step.PublishOffer? && !step.CloseOffer? && !step.UnsubscribeGuard? && !step.Receive?
    ensures MovesOnly(st, step, c)
  {
    hide Lists, WithSubscriber, WithoutSubscriber, Rebuild, Detach, ReadSnapshot, Members, CountAfterClose;
  }

  /**
   So a channel is closed for one of three reasons: its own unsubscription, the end of its
   execution, or 128 events that nobody took out when the next was offered.
   */
  lemma ClosedForAReason(st: State, step: Step, c: SubRef)
    requires Inv(st) && Enabled(st, step) && !Crashes(st, step)
    requires c in st.subs && !st.subs[c].ch.closed && c in Apply(st, step).subs && Apply(st, step).subs[c].ch.closed
    ensures match step
            case UnsubscribeGuard(t) => PcOf(st, t) == Closing(c)
            case CloseOffer(t, d) => d == c && PcOf(st, t).Terminating?
            case PublishOffer(t) => PcOf(st, t).Sending? && st.pcs[t].snapshot[st.pcs[t].next] == c && |st.subs[c].ch.buf| >= 128
            case _ => false
  {
    ChannelMoves(st, step, c);
    hide Inv, Apply, Crashes;
  }
}
