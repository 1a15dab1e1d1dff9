/**
 No subscriber of the execution stream hub is left behind: a channel that is still open belongs
 to a member of its execution's group, or some caller is on its way to close it
 (internal/events/execution_stream_hub.go:95-144, 212-247).
 */
module ExecutionStreamEnds {
  import opened ExecutionStreamHub
  import opened ExecutionStreamRuns
  import opened Listing
  import opened Wrappers

  /** This thread has yet to close the subscriber: by unsubscribing it, or by ending its execution. */
  ghost predicate Ending(st: State, t: Thread, c: SubRef) {
    t in st.pcs &&
    match st.pcs[t]
    case Closing(d) => d == c
    case Terminating(g, _, done) => g in st.hub.groups && c in st.hub.groups[g].members && c !in done
    case _ => false
  }

  ghost predicate Attended(st: State, c: SubRef)
    requires Linked(st.hub) && c in st.subs
  {
    st.subs[c].ch.closed || Live(st, c) || exists t :: Ending(st, t, c)
  }

  lemma OtherThreadStays(st: State, st': State, u: Thread, c: SubRef)
    requires Inv(st) && Progress(st, st') && Ending(st, u, c) && u in st'.pcs && st'.pcs[u] == st.pcs[u]
    ensures Ending(st', u, c)
  {
    hide HubOK, Memberships, TrackOK, GroupsKnown, MembersOwn, Published;
    assert PcOK(st, st.pcs[u]);
  }

  /** What thread `t` does keeps a subscriber attended if it hands on or does itself what it had to do. */
  lemma Carry(st: State, st': State, t: int, c: SubRef)
    requires Inv(st) && Progress(st, st') && c in st.subs && c in st'.subs && Attended(st, c)
    requires st.subs[c].ch.closed ==> st'.subs[c].ch.closed
    requires forall u | u in st.pcs && u != t :: u in st'.pcs && st'.pcs[u] == st.pcs[u]
    requires Live(st, c) ==> st'.subs[c].ch.closed || Live(st', c) || exists u :: Ending(st', u, c)
    requires t >= 0 && Ending(st, t, c) ==> st'.subs[c].ch.closed || Ending(st', t, c)
    ensures Attended(st', c)
  {
    hide Inv, Progress, Live, Ending;
    if u :| Ending(st, u, c) {
      HasThread(st, u, c);
      if u != t {
        OtherThreadStays(st, st', u, c);
      }
    }
  }

  lemma HasThread(st: State, u: Thread, c: SubRef)
    requires Ending(st, u, c)
    ensures u in st.pcs
  {
  }

  lemma SubscribeAttends(st: State, step: Step, c: SubRef)
    requires Inv(st) && step.Subscribe? && Enabled(st, step) && c in Apply(st, step).subs && Progress(st, Apply(st, step))
    requires c in st.subs ==> Attended(st, c)
    ensures Attended(Apply(st, step), c)
  {
    hide HubOK, Memberships, TrackOK, PcOK, WithSubscriber, DetachedStay, Published, Lists;
    SubscribeKeeps(st.hub, step.e, step.c, step.alloc);
    if c in st.subs {
      hide Inv, Progress;
      Carry(st, Apply(st, step), -1, c);
    }
  }

  lemma UnsubscribeAttends(st: State, step: Step, c: SubRef)
    requires Inv(st) && step.UnsubscribeHub? && Enabled(st, step) && Progress(st, Apply(st, step))
    requires c in st.subs && Attended(st, c)
    ensures Attended(Apply(st, step), c)
  {
    hide HubOK, Memberships, TrackOK, PcOK, WithoutSubscriber, DetachedStay, Published, Lists;
    UnsubscribeKeeps(st.hub, step.e, step.c);
    var st' := Apply(st, step);
    if c == step.c && c in Members(st.hub, step.e) {
      assert Ending(st', step.t, c);
    }
    hide Inv, Progress;
    Carry(st, st', step.t, c);
  }

  lemma CloseAttends(st: State, step: Step, c: SubRef)
    requires Inv(st) && step.CloseHub? && Enabled(st, step) && Progress(st, Apply(st, step))
    requires c in st.subs && Attended(st, c)
    ensures Attended(Apply(st, step), c)
  {
    hide HubOK, Memberships, TrackOK, PcOK, DetachedStay, Published, Lists;
    DetachKeeps(st.hub, step.e);
    var st' := Apply(st, step);
    if Live(st, c) && st.subs[c].exec == step.e {
      assert Ending(st', step.t, c);
    }
    hide Inv, Progress;
    Carry(st, st', step.t, c);
  }

  lemma RebuildAttends(st: State, step: Step, c: SubRef)
    requires Inv(st) && step.PublishRebuild? && Enabled(st, step) && Progress(st, Apply(st, step))
    requires c in st.subs && Attended(st, c)
    ensures Attended(Apply(st, step), c)
  {
    hide HubOK, Memberships, TrackOK, PcOK, Rebuild, DetachedStay, Published, Lists;
    RebuildKeeps(st.hub, st.pcs[step.t].item.ev.execID, step.order);
    hide Inv, Progress;
    Carry(st, Apply(st, step), step.t, c);
  }

  /** All other steps leave the hub as it is. */
  lemma SameHubAttends(st: State, step: Step, c: SubRef)
    requires Inv(st) && Enabled(st, step) && !Crashes(st, step) && Progress(st, Apply(st, step))
    requires !step.Subscribe? && !step.UnsubscribeHub? && !step.CloseHub? && !step.PublishRebuild?
    requires c in st.subs && Attended(st, c) && c in Apply(st, step).subs && MovesOnly(st, step, c)
    ensures Attended(Apply(st, step), c)
  {
    hide HubOK, Memberships, TrackOK, PcOK, DetachedStay, Published, Lists, Offered, Terminated;
    var t: int := if step.Receive? then -1 else step.t;
    var st' := Apply(st, step);
    assert st'.hub == st.hub && st'.subs[c].exec == st.subs[c].exec && (Live(st, c) ==> Live(st', c));
    hide Inv, Progress, Live;
    Carry(st, st', t, c);
  }

  lemma StepAttends(st: State, step: Step, c: SubRef)
    requires Inv(st) && Enabled(st, step) && !Crashes(st, step) && Inv(Apply(st, step)) && c in Apply(st, step).subs
    requires c in st.subs ==> Attended(st, c)
    ensures Attended(Apply(st, step), c)
  {
    StepKeepsInv(st, step);
    ChannelMoves(st, step, c);
    hide Inv, Apply, Progress, Attended, Enabled, Crashes;
    match step
    case Subscribe(_, _, _) => SubscribeAttends(st, step, c);
    case UnsubscribeHub(_, _, _) => UnsubscribeAttends(st, step, c);
    case CloseHub(_, _, _) => CloseAttends(st, step, c);
    case PublishRebuild(_, _) => RebuildAttends(st, step, c);
    case _ => SameHubAttends(st, step, c);
  }

  lemma {:induction false} RunAttends(st: State, steps: seq<Step>, c: SubRef)
    requires Inv(st) && CanRun(st, steps) && c in After(st, steps).subs
    requires c in st.subs ==> Attended(st, c)
    ensures Attended(After(st, steps), c)
    decreases |steps|
  {
    hide Inv, Apply, Progress, Attended;
    if steps != [] {
      InvLinked(st);
      StepKeepsInv(st, steps[0]);
      if c in Apply(st, steps[0]).subs {
        StepAttends(st, steps[0], c);
      }
      RunAttends(Apply(st, steps[0]), steps[1..], c);
    }
  }

  /**
   In every reachable state an open channel belongs to a member of its execution's group, or some
   thread inside Unsubscribe or Close has yet to close it and can do so in its next step.  So once
   all such calls have returned, whoever is no member is closed.
   */
  lemma NobodyIsLeftBehind(max: nat, steps: seq<Step>, c: SubRef)
    requires CanRun(Init(max), steps) && c in After(Init(max), steps).subs
    ensures var st := After(Init(max), steps);
            && (st.subs[c].ch.closed || Live(st, c)
                || exists t :: Ending(st, t, c) && (Enabled(st, UnsubscribeGuard(t)) || Enabled(st, CloseOffer(t, c))))
            && ((forall t | t in st.pcs :: !st.pcs[t].Closing? && !st.pcs[t].Terminating?) ==> st.subs[c].ch.closed || Live(st, c))
  {
    InitOK(max);
    RunAttends(Init(max), steps, c);
    var st := After(Init(max), steps);
    hide Inv, CanRun, After, Live;
    if t :| Ending(st, t, c) {
      CanEnd(st, t, c);
    }
  }

  lemma CanEnd(st: State, t: Thread, c: SubRef)
    requires Linked(st.hub) && Ending(st, t, c)
    ensures Enabled(st, UnsubscribeGuard(t)) || Enabled(st, CloseOffer(t, c))
    ensures t in st.pcs && (st.pcs[t].Closing? || st.pcs[t].Terminating?)
  {
  }

  /** A terminal event names the execution it ends even where the caller left that out. */
  lemma CloseNamesExecution(st: State, t: Thread, e: string, ev: Event)
    requires Linked(st.hub) && Enabled(st, CloseHub(t, e, ev)) && e in st.hub.subs
    ensures PcOf(Apply(st, CloseHub(t, e, ev)), t) ==
            Terminating(st.hub.subs[e], if ev.execID != "" then ev else Event(e, ev.kind, ev.delta, ev.offset, ev.status, ev.error), {})
  {
  }
}
