/**
 The pending sign-in store as a plain queue (internal/auth/hosted_sso.go:463-541, 602-634):
 with a clock that never goes back, the maps, the derived counts and the search for the
 oldest transaction come to the same thing as one list in order of arrival.
 */
module PendingQueue {
  import opened Base64Url
  import opened PendingStore
  import opened PendingRuns
  import opened Wrappers

  /** The simple store: pending transactions in the order they came, and nothing else to look up. */
  datatype Queue = Queue(pending: seq<Tx>, starts: seq<int>, nextSequence: nat, closed: bool)

  /** Transactions expire in the order they came. */
  function Unexpiring(q: seq<Tx>, now: int): seq<Tx> {
    if q != [] && q[0].expiresAt <= now then Unexpiring(q[1..], now) else q
  }

  /** One browser's queue. */
  function Of(q: seq<Tx>, browser: string): seq<Tx> {
    if q == [] then []
    else (if q[0].browser == browser then [q[0]] else []) + Of(q[1..], browser)
  }

  function DropFirst(q: seq<Tx>, browser: string): seq<Tx> {
    if q == [] then [] else if q[0].browser == browser then q[1..] else [q[0]] + DropFirst(q[1..], browser)
  }

  function Drop(q: seq<Tx>, state: string): seq<Tx> {
    if q == [] then [] else if q[0].state == state then q[1..] else [q[0]] + Drop(q[1..], state)
  }

  function Find(q: seq<Tx>, state: string): Option<Tx> {
    if q == [] then None else if q[0].state == state then Some(q[0]) else Find(q[1..], state)
  }

  function QueueRefusal(q: seq<Tx>, starts: seq<int>, browser: string, g: Generator): Option<Outcome> {
    if |starts| >= STARTS_PER_WINDOW then Some(RateLimited)
    else if |q| >= GLOBAL && |Of(q, browser)| < PER_BROWSER then Some(StoreFull)
    else if !g.Gives? then Some(GeneratorFailed)
    else if !IsCanonical32(g.state) || !IsCanonical32(g.verifier) then Some(BadGenerated)
    else if Find(q, g.state).Some? then Some(DuplicateState)
    else None
  }

  function QueueAdmit(q: Queue, now: int, browser: string, destination: string, g: Generator): (Queue, Outcome) {
    if !IsCanonical32(browser) || g.Nil? then (q, BadInput)
    else if q.closed then (q, StoreClosed)
    else
      var live, starts := Unexpiring(q.pending, now), RecentStarts(q.starts, now);
      var refusal := QueueRefusal(live, starts, browser, g);
      if refusal.Some? then (q.(pending := live, starts := starts), refusal.value)
      else
        var tx := NewTx(q.nextSequence + 1, now, browser, destination, g);
        var kept := if |Of(live, browser)| >= PER_BROWSER then DropFirst(live, browser) else live;
        (Queue(kept + [tx], starts + [now], tx.sequence, q.closed), Admitted(tx))
  }

  function QueueConsume(q: Queue, now: int, state: string, browser: string): (Queue, Option<Tx>) {
    var live := Unexpiring(q.pending, now);
    var found := Find(live, state);
    if found.Some? && found.value.browser == browser then (q.(pending := Drop(live, state)), found)
    else (q.(pending := live), None)
  }

  function QueueStep(q: Queue, op: Op): Queue {
    match op
    case Admit(now, browser, destination, g) => QueueAdmit(q, now, browser, destination, g).0
    case Consume(now, state, browser) => QueueConsume(q, now, state, browser).0
    case Discard(state) => q.(pending := Drop(q.pending, state))
    case Prune(now) => q.(pending := Unexpiring(q.pending, now), starts := RecentStarts(q.starts, now))
    case Close => q.(pending := [], closed := true)
  }

  /** In order of arrival, each with the lifetime it was given; what is in `entries` is what is in `q`. */
  ghost predicate Queued(entries: Entries, q: seq<Tx>) {
    && (forall tx | tx in q :: tx.state in entries && entries[tx.state] == tx)
    && (forall s | s in entries :: entries[s].state == s && entries[s] in q)
    && InOrder(q)
  }

  ghost predicate InOrder(q: seq<Tx>) {
    && (forall i, j | 0 <= i < j < |q| :: q[i].sequence < q[j].sequence && q[i].createdAt <= q[j].createdAt && q[i].state != q[j].state)
    && (forall tx | tx in q :: tx.expiresAt == tx.createdAt + LIFETIME)
  }

  ghost predicate Abstracts(st: State, clock: int, q: Queue) {
    && Queued(st.entries, q.pending)
    && (forall tx | tx in q.pending :: tx.createdAt <= clock && tx.sequence <= st.nextSequence)
    && q.starts == st.starts && q.nextSequence == st.nextSequence && q.closed == st.closed
  }

  function RemoveAt(q: seq<Tx>, i: nat): seq<Tx>
    requires i < |q|
  {
    q[..i] + q[i + 1..]
  }

  lemma RemoveAtMembers(q: seq<Tx>, i: nat)
    requires InOrder(q) && i < |q|
    ensures InOrder(RemoveAt(q, i))
    ensures forall tx :: tx in RemoveAt(q, i) <==> tx in q && tx != q[i]
  {
    var r := RemoveAt(q, i);
    assert forall j | 0 <= j < |r| :: r[j] == q[if j < i then j else j + 1];
    forall tx
      ensures tx in r <==> tx in q && tx != q[i]
    {
      if tx in q && tx != q[i] {
        var j :| 0 <= j < |q| && q[j] == tx;
        assert r[if j < i then j else j - 1] == tx;
      }
    }
  }

  lemma QueuedWithout(entries: Entries, q: seq<Tx>, i: nat)
    requires Queued(entries, q) && i < |q|
    ensures q[i].state in entries && entries[q[i].state] == q[i]
    ensures Queued(entries - {q[i].state}, RemoveAt(q, i))
  {
    hide InOrder;
    RemoveAtMembers(q, i);
    assert q[i] in q;
  }

  lemma QueuedWith(entries: Entries, q: seq<Tx>, tx: Tx)
    requires Queued(entries, q) && tx.state !in entries && tx.expiresAt == tx.createdAt + LIFETIME
    requires forall t | t in q :: t.sequence < tx.sequence && t.createdAt <= tx.createdAt
    ensures Queued(entries[tx.state := tx], q + [tx])
  {
    var r := q + [tx];
    forall i, j | 0 <= i < j < |r|
      ensures r[i].sequence < r[j].sequence && r[i].createdAt <= r[j].createdAt && r[i].state != r[j].state
    {
      assert q[i] in q;
    }
    assert forall s | s in entries :: entries[s] in q;
  }

  lemma EntryIsQueued(entries: Entries, q: seq<Tx>, state: string) returns (i: nat)
    requires Queued(entries, q) && state in entries
    ensures i < |q| && q[i] == entries[state] && q[i].state == state
  {
    i :| 0 <= i < |q| && q[i] == entries[state];
  }

  lemma FindIsLookup(entries: Entries, q: seq<Tx>, state: string)
    requires Queued(entries, q)
    ensures Find(q, state) == if state in entries then Some(entries[state]) else None
    ensures Queued(entries - {state}, Drop(q, state))
  {
    hide Queued, InOrder, Find, Drop;
    if state in entries {
      var i := EntryIsQueued(entries, q, state);
      QueuedInOrder(entries, q);
      FindAt(q, state, i);
      QueuedWithout(entries, q, i);
    } else {
      NotQueued(entries, q, state);
      FindNowhere(q, state);
      assert entries - {state} == entries;
    }
  }

  lemma QueuedInOrder(entries: Entries, q: seq<Tx>)
    requires Queued(entries, q)
    ensures InOrder(q)
  {
  }

  lemma NotQueued(entries: Entries, q: seq<Tx>, state: string)
    requires Queued(entries, q) && state !in entries
    ensures forall i | 0 <= i < |q| :: q[i].state != state
  {
    assert forall i | 0 <= i < |q| :: q[i] in q;
  }

  lemma {:induction false} FindAt(q: seq<Tx>, state: string, i: nat)
    requires InOrder(q) && i < |q| && q[i].state == state
    ensures Find(q, state) == Some(q[i]) && Drop(q, state) == RemoveAt(q, i)
    decreases |q|
  {
    if i > 0 {
      InOrderTail(q);
      FindAt(q[1..], state, i - 1);
    }
  }

  lemma {:induction false} FindNowhere(q: seq<Tx>, state: string)
    requires forall i | 0 <= i < |q| :: q[i].state != state
    ensures Find(q, state) == None && Drop(q, state) == q
    decreases |q|
  {
    if q != [] {
      FindNowhere(q[1..], state);
    }
  }

  lemma InOrderTail(q: seq<Tx>)
    requires InOrder(q) && q != []
    ensures InOrder(q[1..])
  {
    assert forall tx | tx in q[1..] :: tx in q;
  }

  /** The derived counts are the lengths of the browsers' queues. */
  lemma {:induction false} CountsAreLengths(entries: Entries, q: seq<Tx>, b: string)
    requires Queued(entries, q)
    ensures |StatesOf(entries, b)| == |Of(q, b)| && |entries| == |q|
    decreases |q|
  {
    if q == [] {
      assert entries == map[] && StatesOf(entries, b) == {};
    } else {
      hide Queued, StatesOf;
      QueuedWithout(entries, q, 0);
      assert RemoveAt(q, 0) == q[1..];
      CountsAreLengths(entries - {q[0].state}, q[1..], b);
      RemovedCounts(entries, q[0].state, b);
      OneFewer(entries, q[0].state);
    }
  }

  lemma OneFewer(entries: Entries, state: string)
    requires state in entries
    ensures |entries - {state}| == |entries| - 1
  {
    assert entries.Keys == (entries - {state}).Keys + {state};
  }

  lemma {:induction false} FirstOf(q: seq<Tx>, b: string) returns (i: nat)
    requires Of(q, b) != []
    ensures i < |q| && q[i].browser == b && q[i] == Of(q, b)[0] && DropFirst(q, b) == RemoveAt(q, i)
    ensures forall j | 0 <= j < i :: q[j].browser != b
    decreases |q|
  {
    if q[0].browser == b {
      i := 0;
    } else {
      var j := FirstOf(q[1..], b);
      i := j + 1;
    }
  }

  /** Evicting the browser's oldest transaction is dropping the head of its queue. */
  lemma EvictionDropsHead(entries: Entries, q: seq<Tx>, b: string)
    requires Queued(entries, q) && Of(q, b) != []
    ensures Queued(WithoutOldest(entries, b), DropFirst(q, b))
  {
    var i := FirstOf(q, b);
    var s := q[i].state;
    QueuedWithout(entries, q, i);
    forall r | r in StatesOf(entries, b) && r != s
      ensures Earlier(entries[s], entries[r])
    {
      var j :| 0 <= j < |q| && q[j] == entries[r];
      assert i < j;
    }
    OldestIsUnique(entries, b, s);
  }

  lemma {:induction false} UnexpiringIsSuffix(q: seq<Tx>, now: int)
    requires InOrder(q)
    ensures InOrder(Unexpiring(q, now))
    ensures forall tx :: tx in Unexpiring(q, now) <==> tx in q && now < tx.expiresAt
    decreases |q|
  {
    if q != [] && q[0].expiresAt <= now {
      InOrderTail(q);
      UnexpiringIsSuffix(q[1..], now);
      assert forall tx :: tx in q <==> tx == q[0] || tx in q[1..];
    } else {
      forall tx | tx in q
        ensures now < tx.expiresAt
      {
        var i :| 0 <= i < |q| && q[i] == tx;
        assert q[0] in q;
      }
    }
  }

  lemma QueuedUnexpired(entries: Entries, q: seq<Tx>, now: int)
    requires Queued(entries, q)
    ensures Queued(Unexpired(entries, now), Unexpiring(q, now))
  {
    UnexpiringIsSuffix(q, now);
  }

  lemma EnterRefines(st: State, clock: int, q: Queue, tx: Tx)
    requires StateOK(st) && Abstracts(st, clock, q) && clock <= tx.createdAt
    requires tx.state !in st.entries && tx.sequence == st.nextSequence + 1 && tx.expiresAt == tx.createdAt + LIFETIME
    ensures var kept := if |Of(q.pending, tx.browser)| >= PER_BROWSER then DropFirst(q.pending, tx.browser) else q.pending;
            Abstracts(Enter(st, tx), tx.createdAt, Queue(kept + [tx], q.starts + [tx.createdAt], tx.sequence, q.closed))
  {
    hide StateOK;
    CountsAreLengths(st.entries, q.pending, tx.browser);
    var entries := KeptFor(st.entries, tx.browser);
    var kept := if |Of(q.pending, tx.browser)| >= PER_BROWSER then DropFirst(q.pending, tx.browser) else q.pending;
    if |Of(q.pending, tx.browser)| >= PER_BROWSER {
      var i := FirstOf(q.pending, tx.browser);
      EvictionDropsHead(st.entries, q.pending, tx.browser);
    }
    assert tx.state !in entries;
    assert forall t | t in kept :: t in q.pending;
    QueuedWith(entries, kept, tx);
  }

  /**
   Under a clock that never goes back the store is the queue: every operation gives the same
   answer on both and leaves them holding the same transactions.
   */
  lemma StoreIsQueue(st: State, clock: int, q: Queue, op: Op)
    requires StateOK(st) && Abstracts(st, clock, q) && OnTime(Timed(st, clock, []), op)
    ensures Abstracts(Step(st, op), Tick(Timed(st, clock, []), op).clock, QueueStep(q, op))
    ensures op.Admit? ==> Admission(st, op.now, op.browser, op.destination, op.g).1 ==
                          QueueAdmit(q, op.now, op.browser, op.destination, op.g).1
    ensures op.Consume? ==> Consumption(st, op.now, op.state, op.browser).1 == QueueConsume(q, op.now, op.state, op.browser).1
  {
    hide StateOK, Queued, IsCanonical32, Unexpired, Unexpiring, RecentStarts, Enter;
    match op
    case Admit(now, browser, destination, g) =>
      AdmitRefines(st, clock, q, op);
    case Consume(now, state, browser) =>
      PruneRefines(st, clock, q, now);
      FindIsLookup(Unexpired(st.entries, now), Unexpiring(q.pending, now), state);
      DropKeepsMembers(Unexpiring(q.pending, now), state);
    case Discard(state) =>
      FindIsLookup(st.entries, q.pending, state);
      DropKeepsMembers(q.pending, state);
    case Prune(now) => PruneRefines(st, clock, q, now);
    case Close => NothingQueued();
  }

  lemma NothingQueued()
    ensures Queued(map[], [])
  {
  }

  lemma {:induction false} DropKeepsMembers(q: seq<Tx>, state: string)
    ensures forall tx | tx in Drop(q, state) :: tx in q
    decreases |q|
  {
    if q != [] {
      DropKeepsMembers(q[1..], state);
      assert forall tx | tx in q[1..] :: tx in q;
    }
  }

  lemma PruneRefines(st: State, clock: int, q: Queue, now: int)
    requires Abstracts(st, clock, q) && clock <= now
    ensures Abstracts(Pruned(st, now), now, q.(pending := Unexpiring(q.pending, now), starts := RecentStarts(q.starts, now)))
  {
    QueuedUnexpired(st.entries, q.pending, now);
    UnexpiringIsSuffix(q.pending, now);
  }

  lemma AdmitRefines(st: State, clock: int, q: Queue, op: Op)
    requires StateOK(st) && Abstracts(st, clock, q) && op.Admit? && clock <= op.now
    ensures Abstracts(Step(st, op), op.now, QueueStep(q, op))
    ensures Admission(st, op.now, op.browser, op.destination, op.g).1 == QueueAdmit(q, op.now, op.browser, op.destination, op.g).1
  {
    hide StateOK, Queued, IsCanonical32, Unexpired, Unexpiring, RecentStarts, Enter;
    var pruned := Pruned(st, op.now);
    var live := q.(pending := Unexpiring(q.pending, op.now), starts := RecentStarts(q.starts, op.now));
    PrunedOK(st, op.now);
    PruneRefines(st, clock, q, op.now);
    CountsAreLengths(pruned.entries, live.pending, op.browser);
    if op.g.Gives? {
      FindIsLookup(pruned.entries, live.pending, op.g.state);
      if op.g.state !in pruned.entries {
        EnterRefines(pruned, op.now, live, NewTx(st.nextSequence + 1, op.now, op.browser, op.destination, op.g));
      }
    }
  }

  function QueueRun(q: Queue, ops: seq<Op>): Queue
    decreases |ops|
  {
    if ops == [] then q else QueueRun(QueueStep(q, ops[0]), ops[1..])
  }

  /** So over a whole run the store holds exactly the queue's transactions, and its caps hold. */
  lemma {:induction false} RunIsQueue(w: Timed, q: Queue, ops: seq<Op>)
    requires StateOK(w.st) && Abstracts(w.st, w.clock, q) && OnTimeRun(w, ops)
    ensures StateOK(AfterRun(w, ops).st) && Abstracts(AfterRun(w, ops).st, AfterRun(w, ops).clock, QueueRun(q, ops))
    decreases |ops|
  {
    hide StateOK, Abstracts, Step, QueueStep, OnTime;
    if ops != [] {
      StepOK(w.st, ops[0]);
      StepIsQueue(w, q, ops[0]);
      RunIsQueue(Tick(w, ops[0]), QueueStep(q, ops[0]), ops[1..]);
    }
  }

  lemma StepIsQueue(w: Timed, q: Queue, op: Op)
    requires StateOK(w.st) && Abstracts(w.st, w.clock, q) && OnTime(w, op)
    ensures Abstracts(Tick(w, op).st, Tick(w, op).clock, QueueStep(q, op))
  {
    hide StateOK, Abstracts, Step, QueueStep;
    StoreIsQueue(w.st, w.clock, q, op);
  }

  /**
   What an accepted Admit does to the queues of the browsers: its own drops its head if it was
   full and takes the newcomer at the end; every other queue only loses what had expired.
   */
  lemma AdmitIsFirstInFirstOut(q: Queue, now: int, browser: string, destination: string, g: Generator, b: string)
    requires QueueAdmit(q, now, browser, destination, g).1.Admitted?
    ensures var (q', outcome) := QueueAdmit(q, now, browser, destination, g);
            var mine := Of(Unexpiring(q.pending, now), b);
            Of(q'.pending, b) == if b != browser then mine
                                 else (if |mine| >= PER_BROWSER then mine[1..] else mine) + [outcome.tx]
  {
    hide IsCanonical32, Unexpiring, RecentStarts, Of, DropFirst, Find;
    var live := Unexpiring(q.pending, now);
    var tx := NewTx(q.nextSequence + 1, now, browser, destination, g);
    if |Of(live, browser)| >= PER_BROWSER {
      OfDropFirst(live, browser, b);
      OfAppend(DropFirst(live, browser), tx, b);
    } else {
      OfAppend(live, tx, b);
    }
  }

  lemma {:induction false} OfAppend(q: seq<Tx>, tx: Tx, b: string)
    ensures Of(q + [tx], b) == Of(q, b) + if tx.browser == b then [tx] else []
    decreases |q|
  {
    if q != [] {
      OfAppend(q[1..], tx, b);
      assert (q + [tx])[1..] == q[1..] + [tx];
    } else {
      assert [tx][1..] == [];
    }
  }

  lemma {:induction false} OfDropFirst(q: seq<Tx>, browser: string, b: string)
    requires Of(q, browser) != []
    ensures Of(DropFirst(q, browser), b) == if b == browser then Of(q, b)[1..] else Of(q, b)
    decreases |q|
  {
    if q[0].browser != browser {
      OfDropFirst(q[1..], browser, b);
      assert ([q[0]] + DropFirst(q[1..], browser))[1..] == DropFirst(q[1..], browser);
    }
  }
}
