/**
 Whole runs of the pending sign-in store under a clock that never goes back
 (internal/auth/hosted_sso.go:463-634): the start-rate limit over any minute, the store as
 a plain queue, and the life of one transaction.
 */
module PendingRuns {
  import opened Base64Url
  import opened PendingStore
  import opened Wrappers

  datatype Op =
    | Admit(now: int, browser: string, destination: string, g: Generator)
    | Consume(now: int, state: string, browser: string)
    | Discard(state: string)
    | Prune(now: int)
    | Close

  ghost function Step(st: State, op: Op): State {
    match op
    case Admit(now, browser, destination, g) => Admission(st, now, browser, destination, g).0
    case Consume(now, state, browser) => Consumption(st, now, state, browser).0
    case Discard(state) => Discarded(st, state)
    case Prune(now) => Pruned(st, now)
    case Close => Closed(st)
  }

  ghost function Accepts(st: State, op: Op): bool {
    op.Admit? && Admission(st, op.now, op.browser, op.destination, op.g).1.Admitted?
  }

  lemma StepOK(st: State, op: Op)
    requires StateOK(st)
    ensures StateOK(Step(st, op))
  {
    match op
    case Admit(now, browser, destination, g) => AdmitOK(st, now, browser, destination, g);
    case Consume(now, state, browser) => RemovalOK(st, Step(st, op).entries);
    case Discard(state) => RemovalOK(st, Step(st, op).entries);
    case Prune(now) => PrunedOK(st, now);
    case Close => RemovalOK(st, map[]);
  }

  // ---- Accepted starts over time ----

  /** The store with the time it last saw and every start it ever accepted. */
  datatype Timed = Timed(st: State, clock: int, accepted: seq<int>)

  predicate OnTime(w: Timed, op: Op) {
    match op
    case Admit(now, _, _, _) => w.clock <= now
    case Consume(now, _, _) => w.clock <= now
    case Prune(now) => w.clock <= now
    case _ => true
  }

  ghost function Tick(w: Timed, op: Op): Timed {
    Timed(Step(w.st, op),
          if op.Admit? || op.Consume? || op.Prune? then op.now else w.clock,
          if Accepts(w.st, op) then w.accepted + [op.now] else w.accepted)
  }

  predicate Ordered(times: seq<int>) {
    forall i, j | 0 <= i <= j < |times| :: times[i] <= times[j]
  }

  /** Any 61 accepted starts in a row take a full minute or more. */
  ghost predicate Spread(times: seq<int>) {
    forall i | 0 <= i && i + STARTS_PER_WINDOW < |times| :: times[i + STARTS_PER_WINDOW] - times[i] >= RATE_WINDOW
  }

  /** The store remembers a tail of the accepted starts, and what it forgot is a minute old. */
  ghost predicate RateOK(starts: seq<int>, clock: int, accepted: seq<int>) {
    && |starts| <= STARTS_PER_WINDOW && |starts| <= |accepted|
    && starts == accepted[|accepted| - |starts|..]
    && (forall i | 0 <= i < |accepted| - |starts| :: accepted[i] <= clock - RATE_WINDOW)
    && (forall t | t in accepted :: t <= clock)
    && Ordered(accepted) && Spread(accepted)
  }

  lemma ForgetKeepsRate(starts: seq<int>, clock: int, accepted: seq<int>, now: int)
    requires RateOK(starts, clock, accepted) && clock <= now
    ensures RateOK(starts, now, accepted) && RateOK(RecentStarts(starts, now), now, accepted)
  {
    hide Ordered, Spread;
    var n := RecentStartsIsSuffix(starts, now);
    var k := |accepted| - |starts|;
    assert starts[n..] == accepted[k + n..];
    forall i | 0 <= i < k + n
      ensures accepted[i] <= now - RATE_WINDOW
    {
      if i >= k {
        assert accepted[i] == starts[i - k];
      }
    }
  }

  lemma OrderedGrows(times: seq<int>, t: int)
    requires Ordered(times) && forall u | u in times :: u <= t
    ensures Ordered(times + [t])
  {
    var more := times + [t];
    forall i, j | 0 <= i <= j < |more|
      ensures more[i] <= more[j]
    {
      if i < |times| {
        assert times[i] in times;
      }
    }
  }

  lemma SpreadGrows(times: seq<int>, t: int, kept: nat)
    requires Spread(times) && kept < STARTS_PER_WINDOW && kept <= |times|
    requires forall i | 0 <= i < |times| - kept :: times[i] <= t - RATE_WINDOW
    ensures Spread(times + [t])
  {
  }

  lemma AcceptKeepsRate(starts: seq<int>, clock: int, accepted: seq<int>)
    requires RateOK(starts, clock, accepted) && |starts| < STARTS_PER_WINDOW
    ensures RateOK(starts + [clock], clock, accepted + [clock])
  {
    hide Ordered, Spread;
    OrderedGrows(accepted, clock);
    SpreadGrows(accepted, clock, |starts|);
    var k := |accepted| - |starts|;
    assert (accepted + [clock])[k..] == accepted[k..] + [clock];
  }

  lemma EffectOnStarts(st: State, op: Op)
    ensures !op.Admit? && !op.Prune? ==> Step(st, op).starts == st.starts
    ensures op.Prune? ==> Step(st, op).starts == RecentStarts(st.starts, op.now)
    ensures op.Admit? ==>
              var recent := RecentStarts(st.starts, op.now);
              if Accepts(st, op) then |recent| < STARTS_PER_WINDOW && Step(st, op).starts == recent + [op.now]
              else Step(st, op).starts == recent || Step(st, op).starts == st.starts
  {
  }

  lemma TickKeepsRate(w: Timed, op: Op)
    requires RateOK(w.st.starts, w.clock, w.accepted) && OnTime(w, op)
    ensures var w' := Tick(w, op); RateOK(w'.st.starts, w'.clock, w'.accepted)
  {
    hide RateOK, RecentStarts, Step, Admission;
    EffectOnStarts(w.st, op);
    if op.Admit? || op.Consume? || op.Prune? {
      ForgetKeepsRate(w.st.starts, w.clock, w.accepted, op.now);
      if Accepts(w.st, op) {
        AcceptKeepsRate(RecentStarts(w.st.starts, op.now), op.now, w.accepted);
      }
    }
  }

  ghost predicate OnTimeRun(w: Timed, ops: seq<Op>)
    decreases |ops|
  {
    ops == [] || (OnTime(w, ops[0]) && OnTimeRun(Tick(w, ops[0]), ops[1..]))
  }

  ghost function AfterRun(w: Timed, ops: seq<Op>): Timed
    decreases |ops|
  {
    if ops == [] then w else AfterRun(Tick(w, ops[0]), ops[1..])
  }

  lemma {:induction false} RunKeepsRate(w: Timed, ops: seq<Op>)
    requires RateOK(w.st.starts, w.clock, w.accepted) && OnTimeRun(w, ops)
    ensures var w' := AfterRun(w, ops); RateOK(w'.st.starts, w'.clock, w'.accepted)
    decreases |ops|
  {
    if ops != [] {
      TickKeepsRate(w, ops[0]);
      RunKeepsRate(Tick(w, ops[0]), ops[1..]);
    }
  }

  ghost function Start(clock: int): Timed {
    Timed(State(map[], [], 0, false), clock, [])
  }

  /** Which accepted starts fall into the minute from `from` on. */
  ghost function InWindow(times: seq<int>, from: int): set<nat> {
    set i: nat | i < |times| && from <= times[i] < from + 60 * SECOND
  }

  lemma WindowIsBounded(times: seq<int>, from: int)
    requires Ordered(times) && Spread(times)
    ensures |InWindow(times, from)| <= STARTS_PER_WINDOW
  {
    hide Ordered, Spread;
    var hits := InWindow(times, from);
    if hits != {} {
      var lo := Least(hits);
      forall i | i in hits
        ensures i in Range(lo, STARTS_PER_WINDOW)
      {
        FarApart(times, lo, i);
      }
      SubsetIsSmaller(hits, Range(lo, STARTS_PER_WINDOW));
    }
  }

  /**
   Over a whole run, every half-open minute holds at most 60 accepted starts, whether or not
   their transactions are still pending.
   */
  lemma AtMostSixtyPerMinute(clock: int, ops: seq<Op>, from: int)
    requires OnTimeRun(Start(clock), ops)
    ensures |InWindow(AfterRun(Start(clock), ops).accepted, from)| <= 60
  {
    RunKeepsRate(Start(clock), ops);
    WindowIsBounded(AfterRun(Start(clock), ops).accepted, from);
  }

  lemma FarApart(times: seq<int>, i: nat, j: nat)
    requires Ordered(times) && Spread(times) && i < |times| && j < |times|
    ensures j >= i + STARTS_PER_WINDOW ==> times[j] - times[i] >= RATE_WINDOW
  {
    if j >= i + STARTS_PER_WINDOW {
      assert times[i + STARTS_PER_WINDOW] <= times[j];
    }
  }

  lemma {:induction false} Least(s: set<nat>) returns (lo: nat)
    requires s != {}
    ensures lo in s && forall i | i in s :: lo <= i
    decreases |s|
  {
    var some: nat :| some in s;
    var rest := s - {some};
    lo := some;
    if rest != {} {
      var other := Least(rest);
      lo := if other < some then other else some;
    }
    assert forall i | i in s :: i == some || i in rest;
  }

  function Range(lo: nat, n: nat): (r: set<nat>)
    ensures |r| == n && forall i: nat :: i in r <==> lo <= i < lo + n
  {
    if n == 0 then {} else Range(lo, n - 1) + {lo + n - 1}
  }

  // ---- The life of one transaction ----

  datatype Reason = Expired | Evicted | Consumed | Withdrawn | ClosedOut

  predicate Pending(st: State, tx: Tx) {
    tx.state in st.entries && st.entries[tx.state] == tx
  }

  /** Why an operation ends a pending transaction, if it does. */
  ghost function Ends(st: State, op: Op, tx: Tx): Option<Reason> {
    match op
    case Admit(now, browser, destination, g) =>
      if !IsCanonical32(browser) || g.Nil? || st.closed then None
      else if tx.expiresAt <= now then Some(Expired)
      else if && Accepts(st, op) && tx.browser == browser
              && |StatesOf(Unexpired(st.entries, now), browser)| >= PER_BROWSER
              && IsOldest(Unexpired(st.entries, now), browser, tx.state) then Some(Evicted)
      else None
    case Consume(now, state, browser) =>
      if tx.expiresAt <= now then Some(Expired)
      else if state == tx.state && browser == tx.browser then Some(Consumed)
      else None
    case Discard(state) => if state == tx.state then Some(Withdrawn) else None
    case Prune(now) => if tx.expiresAt <= now then Some(Expired) else None
    case Close => Some(ClosedOut)
  }

  /** A pending transaction stays exactly if no reason ends it, and it ends for one reason only. */
  lemma EndsForOneReason(st: State, op: Op, tx: Tx)
    requires StateOK(st) && Pending(st, tx)
    ensures Pending(Step(st, op), tx) <==> Ends(st, op, tx).None?
  {
    hide IsCanonical32, RecentStarts, CapsOK;
    if op.Admit? && Accepts(st, op) {
      AdmitEnds(st, op, tx);
    }
  }

  lemma AdmitEnds(st: State, op: Op, tx: Tx)
    requires StateOK(st) && Pending(st, tx) && op.Admit? && Accepts(st, op)
    ensures Pending(Step(st, op), tx) <==> Ends(st, op, tx).None?
  {
    hide IsCanonical32, RecentStarts, CapsOK;
    var live := Unexpired(st.entries, op.now);
    if |StatesOf(live, op.browser)| >= PER_BROWSER {
      var oldest := OldestExists(live, op.browser, StatesOf(live, op.browser));
      OldestIsUnique(live, op.browser, oldest);
      assert IsOldest(live, op.browser, tx.state) ==> tx.state == oldest;
    }
  }

  /** Sequence numbers are never handed out twice, so what is gone stays gone. */
  lemma NeverReturns(st: State, op: Op, tx: Tx)
    requires StateOK(st) && !Pending(st, tx) && tx.sequence <= st.nextSequence
    ensures !Pending(Step(st, op), tx) && tx.sequence <= Step(st, op).nextSequence
  {
    hide IsCanonical32, RecentStarts, CapsOK;
    if op.Admit? && Accepts(st, op) {
      var live := Unexpired(st.entries, op.now);
      if |StatesOf(live, op.browser)| >= PER_BROWSER {
        var oldest := OldestExists(live, op.browser, StatesOf(live, op.browser));
        OldestIsUnique(live, op.browser, oldest);
      }
    }
  }

  ghost function Run(st: State, ops: seq<Op>): State
    decreases |ops|
  {
    if ops == [] then st else Run(Step(st, ops[0]), ops[1..])
  }

  /** How often a transaction is ended along a run. */
  ghost function Endings(st: State, ops: seq<Op>, tx: Tx): nat
    decreases |ops|
  {
    if ops == [] then 0
    else (if Pending(st, tx) && Ends(st, ops[0], tx).Some? then 1 else 0) + Endings(Step(st, ops[0]), ops[1..], tx)
  }

  /** Along any run a pending transaction is either still pending at the end or was ended exactly once. */
  lemma {:induction false} LeavesExactlyOnce(st: State, ops: seq<Op>, tx: Tx)
    requires StateOK(st) && tx.sequence <= st.nextSequence
    ensures Pending(st, tx) ==> Endings(st, ops, tx) + (if Pending(Run(st, ops), tx) then 1 else 0) == 1
    ensures !Pending(st, tx) ==> Endings(st, ops, tx) == 0 && !Pending(Run(st, ops), tx)
    decreases |ops|
  {
    if ops != [] {
      StepOK(st, ops[0]);
      StepCounts(st, ops[0], tx);
      if Pending(st, tx) {
        EndsForOneReason(st, ops[0], tx);
      } else {
        NeverReturns(st, ops[0], tx);
      }
      LeavesExactlyOnce(Step(st, ops[0]), ops[1..], tx);
    }
  }

  lemma StepCounts(st: State, op: Op, tx: Tx)
    requires tx.sequence <= st.nextSequence
    ensures tx.sequence <= Step(st, op).nextSequence
  {
  }

  /** Consume hands out a transaction exactly when this consumption is what ends it. */
  lemma ConsumeHandsOutWhatItEnds(st: State, now: int, state: string, browser: string, tx: Tx)
    requires StateOK(st) && Pending(st, tx)
    ensures Consumption(st, now, state, browser).1 == Some(tx) <==> Ends(st, Op.Consume(now, state, browser), tx) == Some(Consumed)
  {
  }
}
