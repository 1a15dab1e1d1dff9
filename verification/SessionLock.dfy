/**
 Per-session mutual exclusion with reference-counted lock entries
 (internal/attachmentsession/lock.go).

 `Lock` and the release closure it returns touch two mutexes.  Each region that runs
 under the registry mutex is one atomic step, and so are the acquisition and the release
 of an entry's own mutex.  A caller is one activation of `Lock`, from the call up to the
 end of its release closure; any number of callers interleave.
 */
module SessionLock {
  type Caller = nat

  /** The heap part of a lock entry: its mutex and its reference count. */
  datatype Entry = Entry(locked: bool, refs: int)

  /** Where one activation of `Lock` stands, and which entry it captured. */
  datatype Phase<+E> =
    | Idle
    | Waiting(sid: string, entry: E)    // registered, blocked in entry.mu.Lock
    | Holding(sid: string, entry: E)    // between acquire and release
    | Leaving(sid: string, entry: E)    // released the mutex, still counted in refs

  /** `heap` keeps every entry ever allocated, also those no longer in the registry. */
  datatype State<E> = State(byID: map<string, E>, heap: map<E, Entry>, callers: map<Caller, Phase<E>>)

  datatype Step<+E> =
    | Register(c: Caller, sid: string, alloc: E)
    | Acquire(c: Caller)
    | Unlock(c: Caller)
    | Deregister(c: Caller)

  function Init<E>(): State<E> {
    State(map[], map[], map[])
  }

  function PhaseOf<E>(st: State<E>, c: Caller): Phase<E> {
    if c in st.callers then st.callers[c] else Idle
  }

  /** When the code can take a step.  A new entry is allocated only when none is registered; acquire blocks while the entry's mutex is held. */
  predicate Enabled<E(==)>(st: State<E>, step: Step<E>) {
    match step
    case Register(c, sid, alloc) => PhaseOf(st, c).Idle? && (sid in st.byID || alloc !in st.heap)
    case Acquire(c) =>
      var p := PhaseOf(st, c);
      p.Waiting? && p.entry in st.heap && !st.heap[p.entry].locked
    case Unlock(c) => PhaseOf(st, c).Holding?
    case Deregister(c) => PhaseOf(st, c).Leaving?
  }

  /** Unlocking a mutex that is not locked, or using an entry that does not exist, is fatal. */
  predicate Crashes<E(==)>(st: State<E>, step: Step<E>)
    requires Enabled(st, step)
  {
    match step
    case Register(_, sid, _) => sid in st.byID && st.byID[sid] !in st.heap
    case Acquire(_) => false
    case Unlock(c) => var e := st.callers[c].entry; e !in st.heap || !st.heap[e].locked
    case Deregister(c) => st.callers[c].entry !in st.heap
  }

  function RegisterAt<E>(st: State<E>, c: Caller, sid: string, e: E, refs: int, locked: bool): State<E> {
    State(st.byID[sid := e], st.heap[e := Entry(locked, refs)], st.callers[c := Waiting(sid, e)])
  }

  function Apply<E(==)>(st: State<E>, step: Step<E>): State<E>
    requires Enabled(st, step) && !Crashes(st, step)
  {
    match step
    case Register(c, sid, alloc) =>
      if sid in st.byID then
        var e := st.byID[sid];
        RegisterAt(st, c, sid, e, st.heap[e].refs + 1, st.heap[e].locked)
      else
        RegisterAt(st, c, sid, alloc, 1, false)
    case Acquire(c) =>
      var p := st.callers[c];
      st.(heap := st.heap[p.entry := st.heap[p.entry].(locked := true)],
          callers := st.callers[c := Holding(p.sid, p.entry)])
    case Unlock(c) =>
      var p := st.callers[c];
      st.(heap := st.heap[p.entry := st.heap[p.entry].(locked := false)],
          callers := st.callers[c := Leaving(p.sid, p.entry)])
    case Deregister(c) =>
      var p := st.callers[c];
      var refs := st.heap[p.entry].refs - 1;
      // The code deletes whatever the registry holds for the session, without comparing it to `entry`.
      State(if refs == 0 then st.byID - {p.sid} else st.byID,
            st.heap[p.entry := st.heap[p.entry].(refs := refs)],
            st.callers[c := Idle])
  }

  // ---- The invariant ----

  ghost function ActiveOn<E(!new)>(st: State<E>, sid: string): set<Caller> {
    set c | c in st.callers && !st.callers[c].Idle? && st.callers[c].sid == sid
  }

  /** The registry maps distinct sessions to distinct entries of the heap. */
  ghost predicate RegistryOK<E(!new)>(st: State<E>) {
    && (forall s | s in st.byID :: st.byID[s] in st.heap)
    && (forall s, t | s in st.byID && t in st.byID && st.byID[s] == st.byID[t] :: s == t)
  }

  ghost predicate Holds<E(!new)>(st: State<E>, c: Caller, sid: string) {
    c in st.callers && st.callers[c].Holding? && st.callers[c].sid == sid
  }

  /**
   One session: its active callers all hold on to the registry's entry, refs counts them,
   the entry is registered only while there are some, and its mutex is locked exactly
   while one of them holds it, never two.
   */
  ghost predicate SessionOK<E(!new)>(st: State<E>, sid: string)
    requires RegistryOK(st)
  {
    && (forall c | c in ActiveOn(st, sid) :: sid in st.byID && st.byID[sid] == st.callers[c].entry)
    && (sid in st.byID ==>
          && st.heap[st.byID[sid]].refs == |ActiveOn(st, sid)| > 0
          && (st.heap[st.byID[sid]].locked <==> exists c :: Holds(st, c, sid)))
    && (forall c, d :: Holds(st, c, sid) && Holds(st, d, sid) ==> c == d)
  }

  ghost predicate Inv<E(!new)>(st: State<E>) {
    RegistryOK(st) && forall sid :: SessionOK(st, sid)
  }

  /** A step of caller `c` on the entry of one session keeps every other session as it was. */
  lemma OtherSessions<E(!new)>(st: State<E>, st': State<E>, c: Caller, sid: string, e: E)
    requires Inv(st) && RegistryOK(st')
    requires forall s | s in st.byID && s != sid :: st.byID[s] != e
    requires forall s | s != sid :: (s in st'.byID <==> s in st.byID) && (s in st.byID ==> st'.byID[s] == st.byID[s])
    requires e in st'.heap && st'.heap == st.heap[e := st'.heap[e]]
    requires c in st'.callers && st'.callers == st.callers[c := st'.callers[c]]
    requires PhaseOf(st, c).Idle? || PhaseOf(st, c).sid == sid
    requires st'.callers[c].Idle? || st'.callers[c].sid == sid
    requires SessionOK(st', sid)
    ensures Inv(st')
  {
    forall s | s != sid
      ensures SessionOK(st', s)
    {
      assert SessionOK(st, s);
      assert ActiveOn(st', s) == ActiveOn(st, s);
      assert forall d :: Holds(st', d, s) <==> Holds(st, d, s);
    }
  }

  lemma RegisterKeepsInv<E(!new)>(st: State<E>, c: Caller, sid: string, alloc: E)
    requires Inv(st) && Enabled(st, Register(c, sid, alloc))
    ensures !Crashes(st, Register(c, sid, alloc)) && Inv(Apply(st, Register(c, sid, alloc)))
  {
    var st' := Apply(st, Register(c, sid, alloc));
    assert SessionOK(st, sid);
    assert ActiveOn(st', sid) == ActiveOn(st, sid) + {c};
    assert c !in ActiveOn(st, sid);
    assert sid !in st.byID ==> ActiveOn(st, sid) == {};
    assert forall d :: Holds(st, d, sid) ==> d in ActiveOn(st, sid);
    assert forall d :: Holds(st', d, sid) <==> Holds(st, d, sid);
    OtherSessions(st, st', c, sid, st'.byID[sid]);
  }

  lemma AcquireKeepsInv<E(!new)>(st: State<E>, c: Caller)
    requires Inv(st) && Enabled(st, Acquire(c))
    ensures Inv(Apply(st, Acquire(c)))
  {
    var st' := Apply(st, Acquire(c));
    var sid := st.callers[c].sid;
    assert SessionOK(st, sid) && c in ActiveOn(st, sid);
    assert ActiveOn(st', sid) == ActiveOn(st, sid);
    assert Holds(st', c, sid);
    assert forall d :: Holds(st', d, sid) ==> d == c || Holds(st, d, sid);
    OtherSessions(st, st', c, sid, st.callers[c].entry);
  }

  lemma UnlockKeepsInv<E(!new)>(st: State<E>, c: Caller)
    requires Inv(st) && Enabled(st, Unlock(c))
    ensures !Crashes(st, Unlock(c)) && Inv(Apply(st, Unlock(c)))
  {
    var sid := st.callers[c].sid;
    assert SessionOK(st, sid) && c in ActiveOn(st, sid) && Holds(st, c, sid);
    var st' := Apply(st, Unlock(c));
    assert ActiveOn(st', sid) == ActiveOn(st, sid);
    assert forall d :: Holds(st', d, sid) ==> Holds(st, d, sid);
    OtherSessions(st, st', c, sid, st.callers[c].entry);
  }

  lemma DeregisterKeepsInv<E(!new)>(st: State<E>, c: Caller)
    requires Inv(st) && Enabled(st, Deregister(c))
    ensures !Crashes(st, Deregister(c)) && Inv(Apply(st, Deregister(c)))
  {
    var p := st.callers[c];
    assert SessionOK(st, p.sid) && c in ActiveOn(st, p.sid);
    var st' := Apply(st, Deregister(c));
    assert ActiveOn(st', p.sid) == ActiveOn(st, p.sid) - {c};
    assert |ActiveOn(st', p.sid)| == |ActiveOn(st, p.sid)| - 1;
    assert forall d :: Holds(st', d, p.sid) <==> Holds(st, d, p.sid);
    OtherSessions(st, st', c, p.sid, p.entry);
  }

  lemma StepKeepsInv<E(!new)>(st: State<E>, step: Step<E>)
    requires Inv(st) && Enabled(st, step)
    ensures !Crashes(st, step) && Inv(Apply(st, step))
  {
    match step
    case Register(c, sid, alloc) => RegisterKeepsInv(st, c, sid, alloc);
    case Acquire(c) => AcquireKeepsInv(st, c);
    case Unlock(c) => UnlockKeepsInv(st, c);
    case Deregister(c) => DeregisterKeepsInv(st, c);
  }

  // ---- Whole runs ----

  /** The steps can be taken one after the other, from `st` on. */
  predicate CanRun<E(==)>(st: State<E>, steps: seq<Step<E>>)
    decreases |steps|
  {
    steps == [] || (Enabled(st, steps[0]) && !Crashes(st, steps[0]) && CanRun(Apply(st, steps[0]), steps[1..]))
  }

  function After<E(==)>(st: State<E>, steps: seq<Step<E>>): State<E>
    requires CanRun(st, steps)
    decreases |steps|
  {
    if steps == [] then st else After(Apply(st, steps[0]), steps[1..])
  }

  lemma {:induction false} RunKeepsInv<E(!new)>(st: State<E>, steps: seq<Step<E>>)
    requires Inv(st) && CanRun(st, steps)
    ensures Inv(After(st, steps))
    decreases |steps|
  {
    if steps != [] {
      StepKeepsInv(st, steps[0]);
      RunKeepsInv(Apply(st, steps[0]), steps[1..]);
    }
  }

  /** At most one caller is between acquire and release of one session, in every reachable state. */
  lemma MutualExclusion<E(!new)>(steps: seq<Step<E>>, c: Caller, d: Caller, sid: string)
    requires CanRun(Init(), steps)
    requires Holds(After(Init(), steps), c, sid) && Holds(After(Init(), steps), d, sid)
    ensures c == d
  {
    RunKeepsInv(Init(), steps);
    assert SessionOK(After(Init(), steps), sid);
  }

  /** All callers of a session, waiting or not, share the registry's entry, and refs counts exactly them. */
  lemma OneEntryPerSession<E(!new)>(steps: seq<Step<E>>, sid: string)
    requires CanRun(Init(), steps)
    ensures var st := After(Init(), steps);
            && (forall c | c in ActiveOn(st, sid) :: sid in st.byID && st.callers[c].entry == st.byID[sid])
            && (sid in st.byID ==> st.byID[sid] in st.heap && st.heap[st.byID[sid]].refs == |ActiveOn(st, sid)|)
            && (sid in st.byID <==> ActiveOn(st, sid) != {})
  {
    RunKeepsInv(Init(), steps);
    assert SessionOK(After(Init(), steps), sid);
  }

  /** The registry is empty exactly when every caller has finished its release. */
  lemma RegistryEmptyIffAllReleased<E(!new)>(steps: seq<Step<E>>)
    requires CanRun(Init(), steps)
    ensures var st := After(Init(), steps);
            st.byID == map[] <==> forall c | c in st.callers :: st.callers[c].Idle?
  {
    var st := After(Init(), steps);
    forall sid
      ensures sid in st.byID <==> ActiveOn(st, sid) != {}
    {
      OneEntryPerSession(steps, sid);
    }
    if s :| s in st.byID {
      var c :| c in ActiveOn(st, s);
      assert !st.callers[c].Idle?;
    } else {
      assert forall c | c in st.callers :: !st.callers[c].Idle? ==> c in ActiveOn(st, st.callers[c].sid);
    }
  }

  /** No interleaving unlocks an unlocked mutex or follows a dangling entry. */
  lemma NeverCrashes<E(!new)>(steps: seq<Step<E>>, step: Step<E>)
    requires CanRun(Init(), steps) && Enabled(After(Init(), steps), step)
    ensures !Crashes(After(Init(), steps), step)
  {
    RunKeepsInv(Init(), steps);
    StepKeepsInv(After(Init(), steps), step);
  }

  /** No reachable state is stuck on a session: some active caller of it can take a step. */
  lemma SessionNeverStuck<E(!new)>(steps: seq<Step<E>>, sid: string) returns (step: Step<E>)
    requires CanRun(Init(), steps) && ActiveOn(After(Init(), steps), sid) != {}
    ensures Enabled(After(Init(), steps), step) && !step.Register?
    ensures step.c in ActiveOn(After(Init(), steps), sid)
  {
    RunKeepsInv(Init(), steps);
    var st := After(Init(), steps);
    assert SessionOK(st, sid);
    var c :| c in ActiveOn(st, sid);
    match st.callers[c]
    case Holding(_, _) => step := Unlock(c);
    case Leaving(_, _) => step := Deregister(c);
    case Waiting(_, e) =>
      if st.heap[e].locked {
        var d :| Holds(st, d, sid);
        step := Unlock(d);
      } else {
        step := Acquire(c);
      }
  }

  // ---- The registry as the code keeps it: mutable entries behind a mutable map ----

  class LockEntry {
    var locked: bool
    var refs: int

    constructor ()
      ensures !locked && refs == 0
    {
      locked, refs := false, 0;
    }
  }

  class Registry {
    var byID: map<string, LockEntry>
    ghost var entries: set<LockEntry>
    ghost var callers: map<Caller, Phase<LockEntry>>

    /** The value-level state this object and its entries stand for. */
    ghost function Model(): State<LockEntry>
      reads this, entries
    {
      State(byID, map e | e in entries :: Entry(e.locked, e.refs), callers)
    }

    constructor ()
      ensures Model() == Init()
    {
      byID, entries, callers := map[], {}, map[];
    }

    /** First half of Lock: find or create the entry and count this caller. */
    method Register(ghost c: Caller, sid: string) returns (entry: LockEntry)
      requires sid in byID ==> byID[sid] in entries
      requires PhaseOf(Model(), c).Idle?
      modifies this, entries
      ensures old(entries) <= entries && fresh(entries - old(entries))
      ensures entry in entries && (sid !in old(byID) ==> fresh(entry))
      ensures var step := Step.Register(c, sid, entry);
              Enabled(old(Model()), step) && !Crashes(old(Model()), step) && Model() == Apply(old(Model()), step)
      ensures callers[c] == Waiting(sid, entry)
    {
      if sid in byID {
        entry := byID[sid];
      } else {
        entry := new LockEntry();
        byID := byID[sid := entry];
        entries := entries + {entry};
      }
      entry.refs := entry.refs + 1;
      callers := callers[c := Waiting(sid, entry)];
    }

    /** Second half of Lock: entry.mu.Lock returns only when the mutex was free. */
    method Acquire(ghost c: Caller, entry: LockEntry)
      requires entry in entries && c in callers && callers[c].Waiting? && callers[c].entry == entry
      requires !entry.locked
      modifies this`callers, entry`locked
      ensures Model() == Apply(old(Model()), Step.Acquire(c))
    {
      entry.locked := true;
      callers := callers[c := Holding(callers[c].sid, entry)];
    }

    /** First half of the release closure. */
    method Unlock(ghost c: Caller, entry: LockEntry)
      requires entry in entries && c in callers && callers[c].Holding? && callers[c].entry == entry
      requires entry.locked
      modifies this`callers, entry`locked
      ensures Model() == Apply(old(Model()), Step.Unlock(c))
    {
      entry.locked := false;
      callers := callers[c := Leaving(callers[c].sid, entry)];
    }

    /** Second half of the release closure. */
    method Deregister(ghost c: Caller, sid: string, entry: LockEntry)
      requires entry in entries && c in callers && callers[c] == Leaving(sid, entry)
      modifies this`callers, this`byID, entry`refs
      ensures Model() == Apply(old(Model()), Step.Deregister(c))
    {
      entry.refs := entry.refs - 1;
      if entry.refs == 0 {
        byID := byID - {sid};
      }
      callers := callers[c := Idle];
    }
  }
}
