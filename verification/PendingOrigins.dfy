/**
 What an admission puts into the pending sign-in store, and that this is what a later
 consumption hands out (internal/auth/hosted_sso.go:463-535).
 */
module PendingOrigins {
  import opened Base64Url
  import opened PendingStore
  import opened PendingRuns
  import opened Wrappers

  // ---- One admission ----

  /** The states of the transactions still pending at `now`, of one browser or of all. */
  function LiveStates(st: State, now: int): set<string> {
    set s | s in st.entries && now < st.entries[s].expiresAt
  }

  function LiveStatesOf(st: State, now: int, browser: string): set<string> {
    set s | s in st.entries && now < st.entries[s].expiresAt && st.entries[s].browser == browser
  }

  lemma LiveAre(st: State, now: int, browser: string)
    ensures Unexpired(st.entries, now).Keys == LiveStates(st, now)
    ensures StatesOf(Unexpired(st.entries, now), browser) == LiveStatesOf(st, now, browser)
    ensures |Unexpired(st.entries, now)| == |LiveStates(st, now)|
  {
    var live := Unexpired(st.entries, now);
    assert live.Keys == LiveStates(st, now);
    assert |live| == |live.Keys|;
    assert StatesOf(live, browser) == LiveStatesOf(st, now, browser);
  }

  /** The starts that count are those of the last minute. */
  lemma RecentStartsAre(starts: seq<int>, now: int)
    requires Ordered(starts)
    ensures |RecentStarts(starts, now)| == |set i: nat | i < |starts| && now - 60 * 1_000_000_000 < starts[i]|
  {
    var n := RecentStartsIsSuffix(starts, now);
    assert (set i: nat | i < |starts| && now - 60 * 1_000_000_000 < starts[i]) == Range(n, |starts| - n);
  }

  /** A start is accepted exactly when the input is well-formed and every limit leaves room. */
  lemma AdmittedIff(st: State, now: int, browser: string, destination: string, g: Generator)
    ensures Admission(st, now, browser, destination, g).1.Admitted? <==>
            && IsCanonical32(browser) && !st.closed
            && |RecentStarts(st.starts, now)| < 60
            && (|LiveStates(st, now)| < 256 || |LiveStatesOf(st, now, browser)| >= 4)
            && g.Gives? && IsCanonical32(g.state) && IsCanonical32(g.verifier) && g.state !in LiveStates(st, now)
  {
    hide IsCanonical32, RecentStarts, Unexpired, StatesOf, LiveStates, LiveStatesOf, Enter;
    LiveAre(st, now, browser);
  }

  /** This transaction was made at `now` for these arguments, to last ten minutes. */
  predicate Carries(tx: Tx, now: int, browser: string, destination: string, g: Generator) {
    && g.Gives? && tx.state == g.state && tx.verifier == g.verifier
    && tx.browser == browser && tx.destination == destination
    && tx.createdAt == now && tx.expiresAt == now + 600 * 1_000_000_000
  }

  /**
   What is admitted carries the arguments of the call and is pending afterwards; apart from it
   nothing comes in, and of the browser's own transactions only its oldest may go before its time.
   */
  lemma AdmittedCarries(st: State, now: int, browser: string, destination: string, g: Generator)
    requires StateOK(st)
    ensures var (st', outcome) := Admission(st, now, browser, destination, g);
            outcome.Admitted? ==>
              && Carries(outcome.tx, now, browser, destination, g)
              && Pending(st', outcome.tx) && outcome.tx.sequence > st.nextSequence
              && (forall tx | Pending(st', tx) :: tx == outcome.tx || Pending(st, tx))
              && (forall tx | Pending(st, tx) && now < tx.expiresAt && tx.browser != browser :: Pending(st', tx))
  {
    hide IsCanonical32, RecentStarts, StateOK, Enter;
    var (st', outcome) := Admission(st, now, browser, destination, g);
    if outcome.Admitted? {
      PrunedOK(st, now);
      EnteredAre(Pruned(st, now), outcome.tx);
    }
  }

  lemma EnteredAre(st: State, newest: Tx)
    requires StateOK(st)
    ensures var st' := Enter(st, newest);
            && Pending(st', newest)
            && (forall tx | Pending(st', tx) :: tx == newest || Pending(st, tx))
            && (forall tx | Pending(st, tx) && tx.browser != newest.browser && tx.state != newest.state :: Pending(st', tx))
  {
    hide CapsOK;
    if |StatesOf(st.entries, newest.browser)| >= PER_BROWSER {
      var oldest := OldestExists(st.entries, newest.browser, StatesOf(st.entries, newest.browser));
      OldestIsUnique(st.entries, newest.browser, oldest);
    }
  }

  // ---- Over a whole run ----

  ghost function At(ops: seq<Op>, i: nat): State
    requires i <= |ops|
  {
    Run(State(map[], [], 0, false), ops[..i])
  }

  lemma {:induction false} RunOneMore(st: State, ops: seq<Op>, op: Op)
    ensures Run(st, ops + [op]) == Step(Run(st, ops), op)
    decreases |ops|
  {
    hide Step;
    if ops == [] {
      assert Run(st, [op]) == Run(Step(st, op), []);
    } else {
      RunOneMore(Step(st, ops[0]), ops[1..], op);
      assert (ops + [op])[1..] == ops[1..] + [op];
    }
  }

  lemma AtNext(ops: seq<Op>, i: nat)
    requires i < |ops|
    ensures At(ops, i + 1) == Step(At(ops, i), ops[i])
  {
    hide Step, Run;
    RunOneMore(State(map[], [], 0, false), ops[..i], ops[i]);
    assert ops[..i + 1] == ops[..i] + [ops[i]];
  }

  lemma {:induction false} AtOK(ops: seq<Op>, i: nat)
    requires i <= |ops|
    ensures StateOK(At(ops, i))
    decreases i
  {
    hide Step;
    if i > 0 {
      AtOK(ops, i - 1);
      AtNext(ops, i - 1);
      hide StateOK, At;
      StepOK(At(ops, i - 1), ops[i - 1]);
    }
  }

  /** A transaction is new after an operation only if that admitted it. */
  lemma NewIsAdmitted(st: State, op: Op, tx: Tx)
    requires StateOK(st) && Pending(Step(st, op), tx)
    ensures Pending(st, tx) || (op.Admit? && Accepts(st, op) && Carries(tx, op.now, op.browser, op.destination, op.g))
  {
    hide IsCanonical32, RecentStarts, CapsOK, Enter;
    if op.Admit? && Accepts(st, op) {
      hide Admission, Step, StateOK;
      AdmittedCarries(st, op.now, op.browser, op.destination, op.g);
      StepIsAdmission(st, op);
    }
  }

  lemma StepIsAdmission(st: State, op: Op)
    requires op.Admit?
    ensures Step(st, op) == Admission(st, op.now, op.browser, op.destination, op.g).0
    ensures Accepts(st, op) <==> Admission(st, op.now, op.browser, op.destination, op.g).1.Admitted?
  {
    hide Admission;
  }

  /** What is pending was admitted by an earlier operation with these very arguments, and has been pending since. */
  lemma {:induction false} PendingWasAdmitted(ops: seq<Op>, i: nat, tx: Tx) returns (j: nat)
    requires i <= |ops| && Pending(At(ops, i), tx)
    ensures j < i && ops[j].Admit? && Accepts(At(ops, j), ops[j])
    ensures Carries(tx, ops[j].now, ops[j].browser, ops[j].destination, ops[j].g)
    ensures forall k | j < k <= i :: Pending(At(ops, k), tx)
    decreases i
  {
    hide Step, Accepts, Carries, Run;
    if i == 0 {
      NothingAtFirst(ops, tx);
    } else {
      AtOK(ops, i - 1);
      AtNext(ops, i - 1);
      hide At, StateOK;
      NewIsAdmitted(At(ops, i - 1), ops[i - 1], tx);
      if Pending(At(ops, i - 1), tx) {
        j := PendingWasAdmitted(ops, i - 1, tx);
      } else {
        j := i - 1;
      }
    }
  }

  lemma NothingAtFirst(ops: seq<Op>, tx: Tx)
    ensures !Pending(At(ops, 0), tx)
  {
  }

  /**
   What a consumption hands out was admitted by an earlier Admit of that browser which generated
   that state, with that Admit's own verifier and destination, less than ten minutes before, and
   it was pending from then until now.
   */
  lemma ConsumedWasAdmitted(ops: seq<Op>, i: nat) returns (j: nat)
    requires i < |ops| && ops[i].Consume? && Consumption(At(ops, i), ops[i].now, ops[i].state, ops[i].browser).1.Some?
    ensures var tx := Consumption(At(ops, i), ops[i].now, ops[i].state, ops[i].browser).1.value;
            && j < i && ops[j].Admit? && Accepts(At(ops, j), ops[j]) && ops[j].g.Gives?
            && ops[j].browser == ops[i].browser && ops[j].g.state == ops[i].state
            && tx.state == ops[i].state && tx.browser == ops[i].browser
            && tx.verifier == ops[j].g.verifier && tx.destination == ops[j].destination
            && ops[i].now < ops[j].now + 600 * 1_000_000_000
            && (forall k | j < k <= i :: Pending(At(ops, k), tx)) && !Pending(At(ops, i + 1), tx)
  {
    hide Run, Accepts;
    var st := At(ops, i);
    AtOK(ops, i);
    AtNext(ops, i);
    hide At;
    var tx := Consumption(st, ops[i].now, ops[i].state, ops[i].browser).1.value;
    HandedOut(st, ops[i], tx);
    j := PendingWasAdmitted(ops, i, tx);
  }

  lemma HandedOut(st: State, op: Op, tx: Tx)
    requires StateOK(st) && op.Consume? && Consumption(st, op.now, op.state, op.browser).1 == Some(tx)
    ensures Pending(st, tx) && tx.state == op.state && tx.browser == op.browser && op.now < tx.expiresAt
    ensures !Pending(Step(st, op), tx)
  {
  }
}
