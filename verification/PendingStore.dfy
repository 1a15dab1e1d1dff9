/**
 The bounded store of pending hosted sign-ins (internal/auth/hosted_sso.go:416-634).

 Moments are nanoseconds.  The clock and the generator of states are inputs: `now` is what
 the clock returned, and `Generator` what the callback did.  Each exported method holds the
 store's mutex throughout, so it is one step.
 */
module PendingStore {
  import opened Base64Url
  import opened Wrappers

  const SECOND := 1_000_000_000
  const LIFETIME := 600 * SECOND
  const RATE_WINDOW := 60 * SECOND
  const PER_BROWSER := 4
  const GLOBAL := 256
  const STARTS_PER_WINDOW := 60

  datatype Tx = Tx(state: string, browser: string, verifier: string, destination: string,
                   createdAt: int, expiresAt: int, sequence: nat)

  datatype Generator = Nil | Fails | Gives(state: string, verifier: string)

  datatype Outcome =
    | Admitted(tx: Tx)
    | BadInput
    | StoreClosed
    | RateLimited
    | StoreFull
    | GeneratorFailed
    | BadGenerated
    | DuplicateState

  type Entries = map<string, Tx>

  datatype State = State(entries: Entries, starts: seq<int>, nextSequence: nat, closed: bool)

  // ---- What the operations mean ----

  function Unexpired(entries: Entries, now: int): Entries {
    map s | s in entries && now < entries[s].expiresAt :: entries[s]
  }

  /** Drops the accepted starts that are a minute or more old, from the front. */
  function RecentStarts(starts: seq<int>, now: int): seq<int> {
    if starts != [] && starts[0] <= now - RATE_WINDOW then RecentStarts(starts[1..], now) else starts
  }

  function StatesOf(entries: Entries, browser: string): set<string> {
    set s | s in entries && entries[s].browser == browser
  }

  predicate Earlier(a: Tx, b: Tx) {
    a.createdAt < b.createdAt || (a.createdAt == b.createdAt && a.sequence < b.sequence)
  }

  ghost predicate IsOldest(entries: Entries, browser: string, s: string) {
    && s in StatesOf(entries, browser)
    && forall r | r in StatesOf(entries, browser) && r != s :: Earlier(entries[s], entries[r])
  }

  ghost function WithoutOldest(entries: Entries, browser: string): Entries {
    if s :| IsOldest(entries, browser, s) then entries - {s} else entries
  }

  function Pruned(st: State, now: int): State {
    st.(entries := Unexpired(st.entries, now), starts := RecentStarts(st.starts, now))
  }

  function NewTx(sequence: nat, now: int, browser: string, destination: string, g: Generator): Tx
    requires g.Gives?
  {
    Tx(g.state, browser, g.verifier, destination, now, now + LIFETIME, sequence)
  }

  /** Why Admit refuses, in the order the code asks; `st` is already pruned. */
  function Refusal(st: State, browser: string, g: Generator): Option<Outcome> {
    var evicts := |StatesOf(st.entries, browser)| >= PER_BROWSER;
    if |st.starts| >= STARTS_PER_WINDOW then Some(RateLimited)
    else if |st.entries| >= GLOBAL && !evicts then Some(StoreFull)
    else if !g.Gives? then Some(GeneratorFailed)
    else if !IsCanonical32(g.state) || !IsCanonical32(g.verifier) then Some(BadGenerated)
    else if g.state in st.entries then Some(DuplicateState)
    else None
  }

  ghost function Enter(st: State, tx: Tx): State {
    State(KeptFor(st.entries, tx.browser)[tx.state := tx], st.starts + [tx.createdAt], tx.sequence, st.closed)
  }

  ghost function Admission(st: State, now: int, browser: string, destination: string, g: Generator): (r: (State, Outcome)) {
    if !IsCanonical32(browser) || g.Nil? then (st, BadInput)
    else if st.closed then (st, StoreClosed)
    else
      var pruned := Pruned(st, now);
      var refusal := Refusal(pruned, browser, g);
      if refusal.Some? then (pruned, refusal.value)
      else
        var tx := NewTx(st.nextSequence + 1, now, browser, destination, g);
        (Enter(pruned, tx), Admitted(tx))
  }

  function Consumption(st: State, now: int, state: string, browser: string): (State, Option<Tx>) {
    var live := Unexpired(st.entries, now);
    if state in live && live[state].browser == browser then
      (st.(entries := live - {state}), Some(live[state]))
    else (st.(entries := live), None)
  }

  function Discarded(st: State, state: string): State {
    st.(entries := st.entries - {state})
  }

  function Closed(st: State): State {
    st.(entries := map[], closed := true)
  }

  // ---- What every operation keeps ----

  /** Keys are the transactions' states; sequence numbers are unique and were given out. */
  ghost predicate SequencesOK(entries: Entries, last: nat) {
    && (forall s | s in entries :: entries[s].state == s && entries[s].sequence <= last)
    && (forall s, r | s in entries && r in entries && entries[s].sequence == entries[r].sequence :: s == r)
  }

  ghost predicate CapsOK(entries: Entries) {
    |entries| <= GLOBAL && forall b :: |StatesOf(entries, b)| <= PER_BROWSER
  }

  ghost predicate StateOK(st: State) {
    SequencesOK(st.entries, st.nextSequence) && CapsOK(st.entries) && |st.starts| <= STARTS_PER_WINDOW
  }

  lemma FewerEntries(entries: Entries, kept: Entries)
    requires kept.Keys <= entries.Keys && forall s | s in kept :: kept[s] == entries[s]
    ensures |kept| <= |entries| && forall b :: StatesOf(kept, b) <= StatesOf(entries, b) && |StatesOf(kept, b)| <= |StatesOf(entries, b)|
  {
    SubsetIsSmaller(kept.Keys, entries.Keys);
    forall b
      ensures |StatesOf(kept, b)| <= |StatesOf(entries, b)|
    {
      SubsetIsSmaller(StatesOf(kept, b), StatesOf(entries, b));
    }
  }

  lemma SubsetIsSmaller<T>(a: set<T>, b: set<T>)
    requires a <= b
    ensures |a| <= |b|
    ensures a != b ==> |a| < |b|
  {
    assert b == a + (b - a);
  }

  lemma {:induction false} RecentStartsIsSuffix(starts: seq<int>, now: int) returns (n: nat)
    ensures n <= |starts| && RecentStarts(starts, now) == starts[n..]
    ensures forall i | 0 <= i < n :: starts[i] <= now - RATE_WINDOW
    ensures n < |starts| ==> starts[n] > now - RATE_WINDOW
    decreases |starts|
  {
    n := 0;
    if starts != [] && starts[0] <= now - RATE_WINDOW {
      var m := RecentStartsIsSuffix(starts[1..], now);
      n := m + 1;
    }
  }

  lemma {:induction false} OldestExists(entries: Entries, browser: string, states: set<string>) returns (s: string)
    requires states != {} && states <= StatesOf(entries, browser)
    requires forall a, b | a in entries && b in entries && entries[a].sequence == entries[b].sequence :: a == b
    ensures s in states && forall r | r in states && r != s :: Earlier(entries[s], entries[r])
    decreases |states|
  {
    s :| s in states;
    if states != {s} {
      var t := OldestExists(entries, browser, states - {s});
      s := if Earlier(entries[t], entries[s]) then t else s;
    }
  }

  lemma OldestIsUnique(entries: Entries, browser: string, s: string)
    requires IsOldest(entries, browser, s)
    ensures WithoutOldest(entries, browser) == entries - {s}
  {
  }

  lemma {:induction false} EvictionMakesRoom(entries: Entries, browser: string)
    requires StatesOf(entries, browser) != {}
    requires forall a, b | a in entries && b in entries && entries[a].sequence == entries[b].sequence :: a == b
    ensures var kept := WithoutOldest(entries, browser);
            && kept.Keys < entries.Keys && (forall s | s in kept :: kept[s] == entries[s])
            && |kept| == |entries| - 1
            && |StatesOf(kept, browser)| == |StatesOf(entries, browser)| - 1
  {
    var s := OldestExists(entries, browser, StatesOf(entries, browser));
    OldestIsUnique(entries, browser, s);
    var kept := entries - {s};
    assert kept.Keys == entries.Keys - {s};
    assert StatesOf(kept, browser) == StatesOf(entries, browser) - {s};
  }

  lemma PrunedOK(st: State, now: int)
    requires StateOK(st)
    ensures StateOK(Pruned(st, now))
  {
    FewerEntries(st.entries, Unexpired(st.entries, now));
    var n := RecentStartsIsSuffix(st.starts, now);
  }

  ghost function KeptFor(entries: Entries, browser: string): Entries {
    if |StatesOf(entries, browser)| >= PER_BROWSER then WithoutOldest(entries, browser) else entries
  }

  lemma KeptHasRoom(st: State, browser: string)
    requires StateOK(st)
    requires |st.entries| < GLOBAL || |StatesOf(st.entries, browser)| >= PER_BROWSER
    ensures var kept := KeptFor(st.entries, browser);
            && StateOK(st.(entries := kept)) && kept.Keys <= st.entries.Keys
            && |kept| < GLOBAL && |StatesOf(kept, browser)| < PER_BROWSER
  {
    if |StatesOf(st.entries, browser)| >= PER_BROWSER {
      EvictionMakesRoom(st.entries, browser);
      RemovalOK(st, WithoutOldest(st.entries, browser));
    }
  }

  lemma InsertCaps(entries: Entries, tx: Tx)
    requires CapsOK(entries) && tx.state !in entries
    requires |entries| < GLOBAL && |StatesOf(entries, tx.browser)| < PER_BROWSER
    ensures CapsOK(entries[tx.state := tx])
  {
    var more := entries[tx.state := tx];
    assert more.Keys == entries.Keys + {tx.state};
    forall b
      ensures |StatesOf(more, b)| <= PER_BROWSER
    {
      AddedCounts(entries, tx, b);
    }
  }

  lemma InsertSequences(entries: Entries, last: nat, tx: Tx)
    requires SequencesOK(entries, last) && tx.state !in entries && tx.sequence == last + 1
    ensures SequencesOK(entries[tx.state := tx], tx.sequence)
  {
  }

  lemma InsertOK(st: State, tx: Tx)
    requires StateOK(st) && tx.state !in st.entries && tx.sequence == st.nextSequence + 1
    requires |st.starts| < STARTS_PER_WINDOW && |st.entries| < GLOBAL && |StatesOf(st.entries, tx.browser)| < PER_BROWSER
    ensures StateOK(State(st.entries[tx.state := tx], st.starts + [tx.createdAt], tx.sequence, st.closed))
  {
    hide SequencesOK, CapsOK;
    InsertCaps(st.entries, tx);
    InsertSequences(st.entries, st.nextSequence, tx);
  }

  lemma EnterOK(st: State, tx: Tx)
    requires StateOK(st) && tx.state !in st.entries && tx.sequence == st.nextSequence + 1
    requires |st.starts| < STARTS_PER_WINDOW
    requires |st.entries| < GLOBAL || |StatesOf(st.entries, tx.browser)| >= PER_BROWSER
    ensures StateOK(Enter(st, tx))
  {
    KeptHasRoom(st, tx.browser);
    InsertOK(st.(entries := KeptFor(st.entries, tx.browser)), tx);
  }

  /** No operation breaks the caps, whatever the clock does. */
  lemma AdmitOK(st: State, now: int, browser: string, destination: string, g: Generator)
    requires StateOK(st)
    ensures StateOK(Admission(st, now, browser, destination, g).0)
  {
    hide StateOK, IsCanonical32, Enter, StatesOf, Unexpired, RecentStarts;
    PrunedOK(st, now);
    var pruned := Pruned(st, now);
    if IsCanonical32(browser) && !g.Nil? && !st.closed && Refusal(pruned, browser, g).None? {
      EnterOK(pruned, NewTx(st.nextSequence + 1, now, browser, destination, g));
    }
  }

  lemma RemovalOK(st: State, entries: Entries)
    requires StateOK(st)
    requires entries.Keys <= st.entries.Keys && forall s | s in entries :: entries[s] == st.entries[s]
    ensures StateOK(st.(entries := entries))
  {
    FewerEntries(st.entries, entries);
  }

  lemma OneRemovalOK(st: State, s: string)
    requires StateOK(st)
    ensures StateOK(st.(entries := st.entries - {s}))
  {
    RemovalOK(st, st.entries - {s});
  }

  // ---- The count per browser, as the code keeps it beside the entries ----

  /** The index holds exactly the browsers with pending transactions, each with its number of them. */
  ghost predicate CountsExact(entries: Entries, counts: map<string, int>) {
    forall b :: (b in counts <==> StatesOf(entries, b) != {}) && (b in counts ==> counts[b] == |StatesOf(entries, b)|)
  }

  function CountAt(counts: map<string, int>, b: string): int {
    if b in counts then counts[b] else 0
  }

  lemma RemovedCounts(entries: Entries, s: string, b: string)
    requires s in entries
    ensures StatesOf(entries - {s}, b) == StatesOf(entries, b) - {s}
    ensures |StatesOf(entries - {s}, b)| == |StatesOf(entries, b)| - if entries[s].browser == b then 1 else 0
  {
    assert StatesOf(entries - {s}, b) == StatesOf(entries, b) - {s};
  }

  lemma AddedCounts(entries: Entries, tx: Tx, b: string)
    requires tx.state !in entries
    ensures StatesOf(entries[tx.state := tx], b) == StatesOf(entries, b) + if tx.browser == b then {tx.state} else {}
    ensures |StatesOf(entries[tx.state := tx], b)| == |StatesOf(entries, b)| + if tx.browser == b then 1 else 0
  {
    assert StatesOf(entries[tx.state := tx], b) == StatesOf(entries, b) + if tx.browser == b then {tx.state} else {};
  }

  function CountedOut(counts: map<string, int>, b: string): map<string, int> {
    if CountAt(counts, b) - 1 <= 0 then counts - {b} else counts[b := CountAt(counts, b) - 1]
  }

  lemma CountsAfterRemoval(entries: Entries, counts: map<string, int>, s: string)
    requires CountsExact(entries, counts) && s in entries
    ensures CountsExact(entries - {s}, CountedOut(counts, entries[s].browser))
  {
    var browser, counts' := entries[s].browser, CountedOut(counts, entries[s].browser);
    assert s in StatesOf(entries, browser);
    forall b
      ensures b in counts' <==> StatesOf(entries - {s}, b) != {}
      ensures b in counts' ==> counts'[b] == |StatesOf(entries - {s}, b)|
    {
      RemovedCounts(entries, s, b);
    }
  }

  lemma CountsAfterEntry(entries: Entries, counts: map<string, int>, tx: Tx)
    requires CountsExact(entries, counts) && tx.state !in entries
    ensures CountsExact(entries[tx.state := tx], counts[tx.browser := CountAt(counts, tx.browser) + 1])
  {
    var counts' := counts[tx.browser := CountAt(counts, tx.browser) + 1];
    forall b
      ensures b in counts' <==> StatesOf(entries[tx.state := tx], b) != {}
      ensures b in counts' ==> counts'[b] == |StatesOf(entries[tx.state := tx], b)|
    {
      AddedCounts(entries, tx, b);
    }
  }

  lemma CountIsNumber(entries: Entries, counts: map<string, int>, b: string)
    requires CountsExact(entries, counts)
    ensures CountAt(counts, b) == |StatesOf(entries, b)|
  {
  }

  class Store {
    var entries: Entries
    var browserCounts: map<string, int>
    var acceptedStarts: seq<int>
    var nextSequence: nat
    var closed: bool

    ghost function View(): State
      reads this
    {
      State(entries, acceptedStarts, nextSequence, closed)
    }

    ghost predicate Valid()
      reads this
    {
      StateOK(View()) && CountsExact(entries, browserCounts)
    }

    constructor ()
      ensures Valid() && View() == State(map[], [], 0, false)
    {
      entries, browserCounts, acceptedStarts, nextSequence, closed := map[], map[], [], 0, false;
      new;
      assert forall b :: StatesOf(entries, b) == {};
    }

    method RemoveLocked(state: string) returns (removed: bool)
      requires Valid()
      modifies this`entries, this`browserCounts
      ensures Valid() && entries == old(entries) - {state}
      ensures removed <==> state in old(entries)
    {
      hide StateOK, CountsExact, StatesOf;
      if state !in entries {
        assert entries - {state} == entries;
        return false;
      }
      var tx := entries[state];
      CountsAfterRemoval(entries, browserCounts, state);
      OneRemovalOK(View(), state);
      entries := entries - {state};
      var count := CountAt(browserCounts, tx.browser) - 1;
      if count <= 0 {
        browserCounts := browserCounts - {tx.browser};
      } else {
        browserCounts := browserCounts[tx.browser := count];
      }
      removed := true;
    }

    method PruneLocked(now: int)
      requires Valid()
      modifies this`entries, this`browserCounts
      ensures Valid() && entries == Unexpired(old(entries), now)
    {
      hide StateOK, CountsExact;
      var todo := entries.Keys;
      while todo != {}
        invariant Valid() && todo <= old(entries).Keys
        invariant entries == map s | s in old(entries) && (s in todo || now < old(entries)[s].expiresAt) :: old(entries)[s]
        decreases |todo|
      {
        var state :| state in todo;
        if now >= entries[state].expiresAt {
          var _ := RemoveLocked(state);
        }
        todo := todo - {state};
      }
    }

    method PruneRateLocked(now: int)
      requires Valid()
      modifies this`acceptedStarts
      ensures Valid() && acceptedStarts == RecentStarts(old(acceptedStarts), now)
    {
      var cutoff := now - RATE_WINDOW;
      var idx := 0;
      while idx < |acceptedStarts| && acceptedStarts[idx] <= cutoff
        invariant 0 <= idx <= |acceptedStarts|
        invariant RecentStarts(acceptedStarts[idx..], now) == RecentStarts(acceptedStarts, now)
      {
        idx := idx + 1;
      }
      if idx > 0 {
        acceptedStarts := acceptedStarts[idx..];
      }
    }

    /** The scan for the browser's oldest transaction, by creation time and then sequence number. */
    method FindOldest(browser: string) returns (oldest: string)
      requires Valid() && StatesOf(entries, browser) != {}
      ensures IsOldest(entries, browser, oldest)
    {
      var found := false;
      oldest := "";
      var todo := entries.Keys;
      while todo != {}
        invariant todo <= entries.Keys
        invariant found <==> exists s :: s in StatesOf(entries, browser) && s !in todo
        invariant found ==> oldest in StatesOf(entries, browser) && oldest !in todo
        invariant found ==> forall r | r in StatesOf(entries, browser) && r !in todo && r != oldest :: Earlier(entries[oldest], entries[r])
        decreases |todo|
      {
        var state :| state in todo;
        var existing := entries[state];
        todo := todo - {state};
        if existing.browser == browser && (!found || Earlier(existing, entries[oldest])) {
          assert state in StatesOf(entries, browser);
          oldest := state;
          found := true;
        }
      }
    }

    method Admit(now: int, browser: string, destination: string, generate: Generator) returns (outcome: Outcome)
      requires Valid()
      modifies this
      ensures Valid()
      ensures (View(), outcome) == Admission(old(View()), now, browser, destination, generate)
    {
      hide StateOK, CountsExact, Unexpired, RecentStarts, IsCanonical32, Enter, StatesOf;
      AdmitOK(View(), now, browser, destination, generate);
      if !IsCanonical32(browser) || generate.Nil? {
        return BadInput;
      }
      if closed {
        return StoreClosed;
      }
      PruneLocked(now);
      PruneRateLocked(now);
      if |acceptedStarts| >= STARTS_PER_WINDOW {
        return RateLimited;
      }
      CountIsNumber(entries, browserCounts, browser);
      var willEvict := CountAt(browserCounts, browser) >= PER_BROWSER;
      if |entries| >= GLOBAL && !willEvict {
        return StoreFull;
      }
      if !generate.Gives? {
        return GeneratorFailed;
      }
      if !IsCanonical32(generate.state) || !IsCanonical32(generate.verifier) {
        return BadGenerated;
      }
      if generate.state in entries {
        return DuplicateState;
      }
      var tx := EnterLocked(now, browser, destination, generate.state, generate.verifier, willEvict);
      outcome := Admitted(tx);
    }

    /** The accepting half of Admit: make room among the browser's own transactions, then insert. */
    method EnterLocked(now: int, browser: string, destination: string, state: string, verifier: string, willEvict: bool)
      returns (tx: Tx)
      requires Valid() && state !in entries
      requires willEvict <==> |StatesOf(entries, browser)| >= PER_BROWSER
      requires |acceptedStarts| < STARTS_PER_WINDOW && (|entries| < GLOBAL || willEvict)
      modifies this
      ensures Valid()
      ensures tx == NewTx(old(nextSequence) + 1, now, browser, destination, Gives(state, verifier))
      ensures View() == Enter(old(View()), tx)
    {
      hide StateOK, CountsExact, WithoutOldest, IsOldest;
      ghost var before := View();
      tx := NewTx(nextSequence + 1, now, browser, destination, Gives(state, verifier));
      EnterOK(View(), tx);
      if willEvict {
        var oldest := FindOldest(browser);
        OldestIsUnique(entries, browser, oldest);
        var _ := RemoveLocked(oldest);
      }
      assert entries == KeptFor(before.entries, browser);
      CountsAfterEntry(entries, browserCounts, tx);
      nextSequence := nextSequence + 1;
      entries := entries[tx.state := tx];
      browserCounts := browserCounts[browser := CountAt(browserCounts, browser) + 1];
      acceptedStarts := acceptedStarts + [now];
      assert View() == Enter(before, tx);
    }

    /** The last result says whether the browser that was asked about still has a pending transaction. */
    method Consume(now: int, state: string, browser: string) returns (tx: Option<Tx>, remaining: bool)
      requires Valid()
      modifies this`entries, this`browserCounts
      ensures Valid()
      ensures (View(), tx) == Consumption(old(View()), now, state, browser)
      ensures var asked := if state in entries then entries[state].browser else browser;
              remaining <==> StatesOf(entries, asked) != {}
    {
      PruneLocked(now);
      if state !in entries || entries[state].browser != browser {
        if state in entries {
          return None, CountAt(browserCounts, entries[state].browser) > 0;
        }
        return None, CountAt(browserCounts, browser) > 0;
      }
      tx := Some(entries[state]);
      var _ := RemoveLocked(state);
      remaining := CountAt(browserCounts, browser) > 0;
    }

    method Discard(state: string) returns (removed: bool)
      requires Valid()
      modifies this`entries, this`browserCounts
      ensures Valid() && View() == Discarded(old(View()), state)
      ensures removed <==> state in old(entries)
    {
      removed := RemoveLocked(state);
    }

    method Prune(now: int)
      requires Valid()
      modifies this`entries, this`browserCounts, this`acceptedStarts
      ensures Valid() && View() == Pruned(old(View()), now)
    {
      PruneLocked(now);
      PruneRateLocked(now);
    }

    /** What the cleanup goroutine does when the store is closed. */
    method Shutdown()
      requires Valid()
      modifies this
      ensures Valid() && View() == Closed(old(View()))
    {
      hide CountsExact;
      closed := true;
      var todo := entries.Keys;
      while todo != {}
        invariant Valid() && closed && acceptedStarts == old(acceptedStarts) && nextSequence == old(nextSequence)
        invariant entries.Keys == todo
        decreases |todo|
      {
        var state :| state in todo;
        var _ := RemoveLocked(state);
        todo := todo - {state};
      }
    }
  }
}
