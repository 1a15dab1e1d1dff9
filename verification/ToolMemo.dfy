/**
 The memo of empty task searches in the chat tool executor
 (internal/chatcontrol/executor.go:58-177), and the search handler it stands in for
 (internal/service/task_discovery.go:132-213).

 JSON reading and writing and lower-casing are parameters.
 */
module ToolMemo {
  import opened Text
  import opened Slugs
  import opened Wrappers

  // ---- Requests ----

  datatype Query = Query(query: string, category: string, status: string, mergeStatus: string, limit: int, offset: int)

  datatype Request = Request(projectID: string, query: Query)

  const EMPTY_QUERY := Query("", "", "", "", 0, 0)
  const DEFAULT_LIMIT := 20
  const MAX_LIMIT := 50

  function Clamped(limit: int): int {
    if limit <= 0 then DEFAULT_LIMIT else if limit > MAX_LIMIT then MAX_LIMIT else limit
  }

  function Folded(s: string, lower: char -> char): string {
    Lowered(TrimSpace(s), lower)
  }

  function CanonicalQuery(q: Query, lower: char -> char): Query {
    Query(TrimSpace(q.query), Folded(q.category, lower), Folded(q.status, lower), Folded(q.mergeStatus, lower),
          Clamped(q.limit), if q.offset < 0 then 0 else q.offset)
  }

  function Canonical(r: Request, lower: char -> char): Request {
    Request(TrimSpace(r.projectID), CanonicalQuery(r.query, lower))
  }

  /** Lower-casing twice is lower-casing once, and it makes or unmakes no white space. */
  ghost predicate LowersWell(lower: char -> char) {
    forall c :: lower(lower(c)) == lower(c) && IsSpace(lower(c)) == IsSpace(c)
  }

  lemma FoldedIsFixed(s: string, lower: char -> char)
    requires LowersWell(lower)
    ensures Folded(Folded(s, lower), lower) == Folded(s, lower)
  {
    var t := TrimSpace(s);
    TrimIsTight(s, IsSpace);
    var l := Lowered(t, lower);
    assert Tight(l, IsSpace);
    TrimOfTight(l, IsSpace);
    assert Lowered(l, lower) == l;
  }

  /** Texts are trimmed, filters lower-cased too; the limit is 20 where none is given and at most 50, the offset never negative. */
  lemma CanonicalIs(r: Request, lower: char -> char)
    ensures var c := Canonical(r, lower);
            && c.projectID == TrimSpace(r.projectID) && c.query.query == TrimSpace(r.query.query)
            && c.query.category == Lowered(TrimSpace(r.query.category), lower)
            && c.query.status == Lowered(TrimSpace(r.query.status), lower)
            && c.query.mergeStatus == Lowered(TrimSpace(r.query.mergeStatus), lower)
            && 1 <= c.query.limit <= 50
            && (1 <= r.query.limit <= 50 ==> c.query.limit == r.query.limit)
            && (r.query.limit < 1 ==> c.query.limit == 20) && (r.query.limit > 50 ==> c.query.limit == 50)
            && c.query.offset >= 0 && (c.query.offset == r.query.offset || (c.query.offset == 0 && r.query.offset < 0))
  {
    hide TrimSpace, Lowered;
  }

  lemma CanonicalIsIdempotent(r: Request, lower: char -> char)
    requires LowersWell(lower)
    ensures Canonical(Canonical(r, lower), lower) == Canonical(r, lower)
  {
    hide Folded, TrimSpace;
    TrimSpaceTwice(r.projectID);
    TrimSpaceTwice(r.query.query);
    FoldedIsFixed(r.query.category, lower);
    FoldedIsFixed(r.query.status, lower);
    FoldedIsFixed(r.query.mergeStatus, lower);
  }

  lemma TrimSpaceTwice(s: string)
    ensures TrimSpace(TrimSpace(s)) == TrimSpace(s)
  {
    TrimIsTight(s, IsSpace);
  }

  // ---- Reading and writing JSON ----

  datatype TaskSummary = TaskSummary(taskID: string, title: string, category: string, status: string)

  datatype Tasks = Missing | Null | NotAnArray | Array(items: seq<TaskSummary>)

  datatype Page = Page(ok: bool, tasks: Tasks, total: int, hasMore: bool)

  /**
   `decode` and `decodeQuery` read a request with and without its project, `encode` writes one;
   `page` reads the fields of an answer the executor looks at, and `mark` adds two fields to it.
   */
  datatype Codec = Codec(decode: string -> Option<Request>, decodeQuery: string -> Option<Query>,
                            encode: Request -> string, page: string -> Option<Page>, mark: string -> string)

  /** Go's int holds the numbers of the request. */
  predicate InRange(r: Request) {
    InInt64(r.query.limit) && InInt64(r.query.offset)
  }

  predicate IsEmptyExhausted(codec: Codec, output: string) {
    var p := codec.page(output);
    p.Some? && p.value.ok && p.value.total == 0 && !p.value.hasMore && (p.value.tasks.Null? || p.value.tasks == Array([]))
  }

  /** Such an answer is in order and says that there are no tasks, in all and on this page. */
  lemma IsEmptyExhaustedIff(codec: Codec, output: string)
    ensures IsEmptyExhausted(codec, output) <==>
            codec.page(output) == Some(Page(true, Null, 0, false)) || codec.page(output) == Some(Page(true, Array([]), 0, false))
  {
  }

  /**
   Requests within range are read as written, and only such are read.  Marking keeps what it must
   of the answers that get marked; of others it can change the total, which goes through a float.
   */
  ghost predicate Lawful(codec: Codec) {
    && (forall r | InRange(r) :: codec.decode(codec.encode(r)) == Some(r))
    && (forall r | InRange(r) :: codec.encode(r) != "" && TrimSpace(codec.encode(r)) == codec.encode(r))
    && (forall s :: codec.decode(s).Some? ==> InRange(codec.decode(s).value))
    && (forall s :: codec.decode(s).Some? ==> codec.decodeQuery(s) == Some(codec.decode(s).value.query))
    && (forall s | IsEmptyExhausted(codec, s) :: codec.page(codec.mark(s)) == codec.page(s))
  }

  lemma CanonicalIsInRange(r: Request, lower: char -> char)
    requires InRange(r)
    ensures InRange(Canonical(r, lower))
  {
    hide Folded, TrimSpace;
  }

  function Payload(input: string): string {
    if TrimSpace(input) == "" then "{}" else TrimSpace(input)
  }

  /** The memo's key for an input. */
  function CanonicalKey(codec: Codec, lower: char -> char, input: string): string {
    var r := codec.decode(Payload(input));
    if r.None? then Payload(input) else codec.encode(Canonical(r.value, lower))
  }

  lemma KeyIsIdempotent(codec: Codec, lower: char -> char, input: string)
    requires Lawful(codec) && LowersWell(lower)
    ensures CanonicalKey(codec, lower, CanonicalKey(codec, lower, input)) == CanonicalKey(codec, lower, input)
  {
    TrimSpaceTwice(input);
    TrimOfTight("{}", IsSpace);
    var r := codec.decode(Payload(input));
    if r.Some? {
      CanonicalIsIdempotent(r.value, lower);
      CanonicalIsInRange(r.value, lower);
    }
  }

  /** Inputs share a key exactly when they ask for the same, or neither can be read and both are the same text. */
  lemma SameKeyIff(codec: Codec, lower: char -> char, a: string, b: string)
    requires Lawful(codec)
    ensures var p, q := codec.decode(Payload(a)), codec.decode(Payload(b));
            CanonicalKey(codec, lower, a) == CanonicalKey(codec, lower, b) <==>
            if p.Some? && q.Some? then Canonical(p.value, lower) == Canonical(q.value, lower)
            else p.None? && q.None? && Payload(a) == Payload(b)
  {
    hide TrimSpace;
    var p, q := codec.decode(Payload(a)), codec.decode(Payload(b));
    if p.Some? {
      CanonicalIsInRange(p.value, lower);
      assert codec.decode(CanonicalKey(codec, lower, a)) == Some(Canonical(p.value, lower));
    }
    if q.Some? {
      CanonicalIsInRange(q.value, lower);
      assert codec.decode(CanonicalKey(codec, lower, b)) == Some(Canonical(q.value, lower));
    }
  }

  // ---- The search handler ----

  const CATEGORIES := {"active", "backlog", "scheduled", "completed"}
  const STATUSES := {"pending", "queued", "running", "completed", "failed", "cancelled", "blocked"}
  const MERGE_STATUSES := {"unmerged", "pending", "merged", "failed", "conflict"}

  datatype Found = Rows(tasks: seq<TaskSummary>, total: int) | StoreFailed

  /** The page the store gives for a query, or none where the handler returns an error. */
  function ListTasks<S>(find: (S, Query) -> Found, store: S, q: Query, lower: char -> char): Option<Page> {
    var category, status, mergeStatus := Folded(q.category, lower), Folded(q.status, lower), Folded(q.mergeStatus, lower);
    if category != "" && category !in CATEGORIES then None
    else if status != "" && status !in STATUSES then None
    else if mergeStatus != "" && mergeStatus !in MERGE_STATUSES then None
    else
      var limit := if q.limit <= 0 then DEFAULT_LIMIT else q.limit;
      var offset := if q.offset < 0 then 0 else q.offset;
      var found := find(store, Query(TrimSpace(q.query), category, status, mergeStatus,
                                     if limit > MAX_LIMIT then MAX_LIMIT else limit, offset));
      if found.StoreFailed? then None
      else Some(Page(true, Array(found.tasks), found.total, offset + |found.tasks| < found.total))
  }

  /**
   The search asks the store for what the request names, a page of at most 50, and reports more
   to come exactly while the page does not reach the total; an unknown filter is refused.
   */
  lemma ListTasksIs<S>(find: (S, Query) -> Found, store: S, q: Query, lower: char -> char, page: Page)
    ensures var asked := CanonicalQuery(q, lower);
            ListTasks(find, store, q, lower) == Some(page) <==>
            && asked.category in {"", "active", "backlog", "scheduled", "completed"}
            && asked.status in {"", "pending", "queued", "running", "completed", "failed", "cancelled", "blocked"}
            && asked.mergeStatus in {"", "unmerged", "pending", "merged", "failed", "conflict"}
            && var found := find(store, asked);
               && found.Rows? && page.ok && page.tasks == Array(found.tasks) && page.total == found.total
               && (page.hasMore <==> asked.offset + |found.tasks| < found.total)
  {
    hide TrimSpace, Lowered;
  }

  /** JSON's own white space. */
  predicate JsonSpace(c: char) {
    c in {' ', '\t', '\n', '\r'}
  }

  /** Nothing but JSON's white space stands around the input. */
  predicate JsonPadded(input: string) {
    Trim(input, JsonSpace) == TrimSpace(input)
  }

  /** A space, a tab and the two line-end characters are all that may stand around it (section 2 of RFC 8259). */
  lemma JsonPaddedIff(input: string)
    requires TrimSpace(input) != ""
    ensures JsonPadded(input) <==>
            exists lo, hi :: && 0 <= lo <= hi <= |input| && input[lo..hi] == TrimSpace(input)
                             && forall i | 0 <= i < lo || hi <= i < |input| :: input[i] in " \t\n\r"
  {
    var lo, hi := TrimSplits(input, JsonSpace);
    if JsonPadded(input) {
      assert input[lo..hi] == TrimSpace(input);
    }
    if a, b :| && 0 <= a <= b <= |input| && input[a..b] == TrimSpace(input)
               && forall i | 0 <= i < a || b <= i < |input| :: input[i] in " \t\n\r" {
      TrimIsTight(input, IsSpace);
      SameCore(input, lo, hi, a, b);
    }
  }

  /** Trimming stops at the first character from either end that is no JSON white space. */
  lemma SameCore(input: string, lo: nat, hi: nat, a: nat, b: nat)
    requires lo <= hi <= |input| && Tight(input[lo..hi], JsonSpace)
    requires forall i | 0 <= i < lo || hi <= i < |input| :: JsonSpace(input[i])
    requires a < b <= |input| && Tight(input[a..b], IsSpace)
    requires forall i | 0 <= i < a || b <= i < |input| :: JsonSpace(input[i])
    ensures lo == a && hi == b
  {
    assert input[a] == input[a..b][0] && input[b - 1] == input[a..b][b - a - 1];
    assert lo < hi ==> input[lo] == input[lo..hi][0] && input[hi - 1] == input[lo..hi][hi - lo - 1];
  }

  /** A direct call of the handler: an input that is not blank is read as it is. */
  function HandlerPage<S>(codec: Codec, find: (S, Query) -> Found, store: S, lower: char -> char, input: string): Option<Page> {
    if TrimSpace(input) == "" then
      var q := codec.decodeQuery("{}");
      if q.None? then None else ListTasks(find, store, q.value, lower)
    else if !JsonPadded(input) then None
    else
      var q := codec.decodeQuery(TrimSpace(input));
      if q.None? then None else ListTasks(find, store, q.value, lower)
  }

  /** The handler looks at a query only in its canonical form. */
  lemma HandlerReadsCanonical<S>(find: (S, Query) -> Found, store: S, q: Query, lower: char -> char)
    requires LowersWell(lower)
    ensures ListTasks(find, store, q, lower) == ListTasks(find, store, CanonicalQuery(q, lower), lower)
  {
    hide Folded, TrimSpace;
    TrimSpaceTwice(q.query);
    FoldedIsFixed(q.category, lower);
    FoldedIsFixed(q.status, lower);
    FoldedIsFixed(q.mergeStatus, lower);
  }

  /** Inputs with one key get one page, as far as the handler can read them. */
  lemma SameKeySamePage<S>(codec: Codec, find: (S, Query) -> Found, store: S, lower: char -> char, a: string, b: string)
    requires Lawful(codec) && LowersWell(lower)
    requires CanonicalKey(codec, lower, a) == CanonicalKey(codec, lower, b)
    requires (TrimSpace(a) == "" || JsonPadded(a)) && (TrimSpace(b) == "" || JsonPadded(b))
    ensures HandlerPage(codec, find, store, lower, a) == HandlerPage(codec, find, store, lower, b)
  {
    hide TrimSpace, ListTasks, CanonicalQuery, JsonPadded;
    SameKeyIff(codec, lower, a, b);
    var p, q := codec.decode(Payload(a)), codec.decode(Payload(b));
    if p.Some? {
      HandlerReadsCanonical(find, store, p.value.query, lower);
      HandlerReadsCanonical(find, store, q.value.query, lower);
    }
  }

  // ---- The executor ----

  datatype Action = Action(writes: bool, allowedHere: bool)

  /** What a handler comes back with, and what the executor replies. */
  datatype Outcome = Ok(output: string) | Error

  datatype Reply = NotHandled | Refused | HandlerMissing | HandlerFailed | Answered(output: string)

  const LIST_TASKS := "list_tasks"

  /** One run of a handler: the tool, the memo key of its input, and how it ended. */
  datatype Run = Run(tool: string, key: string, outcome: Outcome)

  predicate SuccessfulWrite(registry: map<string, Action>, run: Run) {
    run.outcome.Ok? && run.tool != LIST_TASKS && run.tool in registry && registry[run.tool].writes
  }

  predicate SuccessfulSearch(run: Run, key: string) {
    run.outcome.Ok? && run.tool == LIST_TASKS && run.key == key
  }

  /** What the memo is after these handler runs. */
  function MemoAfter(codec: Codec, registry: map<string, Action>, log: seq<Run>): map<string, string> {
    if log == [] then map[]
    else
      var memo, run := MemoAfter(codec, registry, log[..|log| - 1]), log[|log| - 1];
      if run.outcome.Error? then memo
      else if run.tool == LIST_TASKS then
        if IsEmptyExhausted(codec, run.outcome.output) then memo[run.key := run.outcome.output] else memo - {run.key}
      else if SuccessfulWrite(registry, run) then map[]
      else memo
  }

  /** Run number `i` found nothing, and since then no write succeeded and the search was not answered again. */
  ghost predicate LastWord(codec: Codec, registry: map<string, Action>, log: seq<Run>, key: string, i: nat) {
    && i < |log| && SuccessfulSearch(log[i], key) && IsEmptyExhausted(codec, log[i].outcome.output)
    && forall j | i < j < |log| :: !SuccessfulWrite(registry, log[j]) && !SuccessfulSearch(log[j], key)
  }

  /** The memo answers for a key exactly when the last word on it was an exhausted empty page. */
  lemma {:induction false} MemoHoldsLastWord(codec: Codec, registry: map<string, Action>, log: seq<Run>, key: string)
    ensures key in MemoAfter(codec, registry, log) <==> exists i: nat :: LastWord(codec, registry, log, key, i)
    ensures forall i: nat | LastWord(codec, registry, log, key, i) :: MemoAfter(codec, registry, log)[key] == log[i].outcome.output
    decreases |log|
  {
    hide IsEmptyExhausted;
    if log != [] {
      var front, run := log[..|log| - 1], log[|log| - 1];
      MemoHoldsLastWord(codec, registry, front, key);
      if SuccessfulSearch(run, key) {
        assert IsEmptyExhausted(codec, run.outcome.output) ==> LastWord(codec, registry, log, key, |log| - 1);
      }
      forall i: nat | i < |front|
        ensures LastWord(codec, registry, log, key, i) <==>
                LastWord(codec, registry, front, key, i) && !SuccessfulWrite(registry, run) && !SuccessfulSearch(run, key)
      {
        assert log[i] == front[i];
        assert forall j | i < j < |front| :: front[j] == log[j];
      }
    }
  }

  // ---- One call ----

  /** What an executor is set up with. */
  datatype Setup = Setup(registry: map<string, Action>, handlers: set<string>, allowed: Option<set<string>>,
                         codec: Codec, lower: char -> char)

  /** The reply that gating alone decides, if any. */
  function Gated(setup: Setup, tool: string): Option<Reply> {
    if tool == "" || (setup.allowed.Some? && tool !in setup.allowed.value) || tool !in setup.registry then Some(NotHandled)
    else if !setup.registry[tool].allowedHere then Some(Refused)
    else if tool !in setup.handlers then Some(HandlerMissing)
    else None
  }

  /** The memo's answer, where it has one. */
  function Remembered(setup: Setup, memo: map<string, string>, tool: string, input: string): Option<string> {
    var key := CanonicalKey(setup.codec, setup.lower, input);
    if tool == LIST_TASKS && key in memo then Some(memo[key]) else None
  }

  predicate RunsHandler(setup: Setup, memo: map<string, string>, tool: string, input: string) {
    Gated(setup, tool).None? && Remembered(setup, memo, tool, input).None?
  }

  function ReplyTo(setup: Setup, memo: map<string, string>, tool: string, input: string, outcome: Outcome): Reply {
    if Gated(setup, tool).Some? then Gated(setup, tool).value
    else if Remembered(setup, memo, tool, input).Some? then Answered(setup.codec.mark(Remembered(setup, memo, tool, input).value))
    else if outcome.Error? then HandlerFailed
    else Answered(outcome.output)
  }

  /** A run of another tool records no key. */
  function RunOf(setup: Setup, tool: string, input: string, outcome: Outcome): Run {
    Run(tool, if tool == LIST_TASKS then CanonicalKey(setup.codec, setup.lower, input) else "", outcome)
  }

  /** Why a tool name is passed on unhandled. */
  predicate Unknown(setup: Setup, tool: string) {
    tool == "" || tool !in setup.registry || (setup.allowed.Some? && tool !in setup.allowed.value)
  }

  /** A name is handled, refused here or without a handler for one reason each; else a search already answered is not run again, and whatever runs is answered as it ends. */
  lemma ReplyIs(setup: Setup, log: seq<Run>, tool: string, input: string, outcome: Outcome)
    ensures var memo := MemoAfter(setup.codec, setup.registry, log);
            var reply, runs := ReplyTo(setup, memo, tool, input, outcome), RunsHandler(setup, memo, tool, input);
            && (reply == NotHandled <==> Unknown(setup, tool))
            && (reply == Refused <==> !Unknown(setup, tool) && !setup.registry[tool].allowedHere)
            && (reply == HandlerMissing <==> !Unknown(setup, tool) && setup.registry[tool].allowedHere && tool !in setup.handlers)
            && (runs ==> reply == if outcome.Ok? then Answered(outcome.output) else HandlerFailed)
            && RunOf(setup, tool, input, outcome)
               == Run(tool, if tool == "list_tasks" then CanonicalKey(setup.codec, setup.lower, input) else "", outcome)
            && (runs <==> && !Unknown(setup, tool) && setup.registry[tool].allowedHere && tool in setup.handlers
                          && !(tool == "list_tasks" && HasLastWord(setup, log, CanonicalKey(setup.codec, setup.lower, input))))
            && forall i: nat | LastWord(setup.codec, setup.registry, log, CanonicalKey(setup.codec, setup.lower, input), i) ::
                 tool == "list_tasks" && !Unknown(setup, tool) && setup.registry[tool].allowedHere && tool in setup.handlers ==>
                   reply == Answered(setup.codec.mark(log[i].outcome.output))
  {
    hide CanonicalKey, IsEmptyExhausted, MemoAfter;
    MemoHoldsLastWord(setup.codec, setup.registry, log, CanonicalKey(setup.codec, setup.lower, input));
  }

  /** The last word on this key was an exhausted empty page. */
  ghost predicate HasLastWord(setup: Setup, log: seq<Run>, key: string) {
    exists i: nat :: LastWord(setup.codec, setup.registry, log, key, i)
  }

  class RuntimeExecutor {
    const setup: Setup
    var emptyListTasks: map<string, string>
    ghost var log: seq<Run>    // every run of a handler so far

    ghost predicate Valid()
      reads this
    {
      emptyListTasks == MemoAfter(setup.codec, setup.registry, log)
    }

    constructor (setup: Setup)
      ensures Valid() && this.setup == setup && log == []
    {
      this.setup, emptyListTasks, log := setup, map[], [];
    }

    /** `outcome` is what the handler comes back with, should it be run. */
    method Call(name: string, input: string, outcome: Outcome) returns (reply: Reply)
      requires Valid()
      modifies this
      ensures Valid()
      ensures var tool := Folded(name, setup.lower);
              && reply == ReplyTo(setup, old(emptyListTasks), tool, input, outcome)
              && log == old(log) + if RunsHandler(setup, old(emptyListTasks), tool, input) then [RunOf(setup, tool, input, outcome)] else []
    {
      hide Folded, CanonicalKey, IsEmptyExhausted;
      var toolName := Folded(name, setup.lower);
      if toolName == "" {
        return NotHandled;
      }
      if setup.allowed.Some? && toolName !in setup.allowed.value {
        return NotHandled;
      }
      if toolName !in setup.registry {
        return NotHandled;
      }
      if !setup.registry[toolName].allowedHere {
        return Refused;
      }
      if toolName !in setup.handlers {
        return HandlerMissing;
      }
      var listTasksInputKey := "";
      if toolName == LIST_TASKS {
        listTasksInputKey := CanonicalKey(setup.codec, setup.lower, input);
        if listTasksInputKey in emptyListTasks {
          return Answered(setup.codec.mark(emptyListTasks[listTasksInputKey]));
        }
      }
      log := log + [Run(toolName, listTasksInputKey, outcome)];
      assert log[..|log| - 1] == old(log);
      if outcome.Error? {
        return HandlerFailed;
      }
      if toolName == LIST_TASKS {
        if IsEmptyExhausted(setup.codec, outcome.output) {
          emptyListTasks := emptyListTasks[listTasksInputKey := outcome.output];
        } else {
          emptyListTasks := emptyListTasks - {listTasksInputKey};
        }
      } else if setup.registry[toolName].writes {
        emptyListTasks := map[];
      }
      reply := Answered(outcome.output);
    }
  }

  // ---- Whole runs, with a task store that the tools act on ----

  datatype Turn<S> = Turn(tool: string, input: string, before: S, outcome: Outcome, after: S)

  /** An input the handler gets to read. */
  predicate Readable(input: string) {
    TrimSpace(input) == "" || JsonPadded(input)
  }

  /** The handlers that ran up to turn `n`. */
  function LogOf<S>(setup: Setup, turns: seq<Turn<S>>): seq<Run> {
    if turns == [] then []
    else
      var log, turn := LogOf(setup, turns[..|turns| - 1]), turns[|turns| - 1];
      log + if RunsHandler(setup, MemoAfter(setup.codec, setup.registry, log), turn.tool, turn.input)
            then [RunOf(setup, turn.tool, turn.input, turn.outcome)] else []
  }

  function MemoOf<S>(setup: Setup, turns: seq<Turn<S>>): map<string, string> {
    MemoAfter(setup.codec, setup.registry, LogOf(setup, turns))
  }

  /** The list_tasks handler searches the store it finds, and only a write that succeeds changes the store. */
  ghost predicate WorldMoves<S>(setup: Setup, find: (S, Query) -> Found, memo: map<string, string>, turn: Turn<S>) {
    var ran := RunsHandler(setup, memo, turn.tool, turn.input);
    && (ran && turn.tool == LIST_TASKS ==>
          var page := HandlerPage(setup.codec, find, turn.before, setup.lower, turn.input);
          if page.Some? then turn.outcome.Ok? && setup.codec.page(turn.outcome.output) == page else turn.outcome.Error?)
    && (turn.before == turn.after || (ran && SuccessfulWrite(setup.registry, RunOf(setup, turn.tool, turn.input, turn.outcome))))
  }

  ghost predicate IsHistory<S>(setup: Setup, find: (S, Query) -> Found, turns: seq<Turn<S>>) {
    && (forall i | 0 < i < |turns| :: turns[i].before == turns[i - 1].after)
    && (forall i | 0 <= i < |turns| :: WorldMoves(setup, find, MemoOf(setup, turns[..i]), turns[i]))
  }

  /** Every remembered answer is the one a handler would give now, for every readable input with its key. */
  ghost predicate MemoSound<S>(setup: Setup, find: (S, Query) -> Found, memo: map<string, string>, store: S) {
    forall input | CanonicalKey(setup.codec, setup.lower, input) in memo && Readable(input) ::
      && setup.codec.page(memo[CanonicalKey(setup.codec, setup.lower, input)]).Some?
      && HandlerPage(setup.codec, find, store, setup.lower, input) == setup.codec.page(memo[CanonicalKey(setup.codec, setup.lower, input)])
  }

  lemma TurnKeepsSound<S>(setup: Setup, find: (S, Query) -> Found, log: seq<Run>, turn: Turn<S>)
    requires Lawful(setup.codec) && LowersWell(setup.lower)
    requires var memo := MemoAfter(setup.codec, setup.registry, log);
             MemoSound(setup, find, memo, turn.before) && WorldMoves(setup, find, memo, turn)
    ensures var memo := MemoAfter(setup.codec, setup.registry, log);
            var log' := log + if RunsHandler(setup, memo, turn.tool, turn.input) then [RunOf(setup, turn.tool, turn.input, turn.outcome)] else [];
            MemoSound(setup, find, MemoAfter(setup.codec, setup.registry, log'), turn.after)
  {
    hide CanonicalKey, HandlerPage, IsEmptyExhausted, Gated, Readable, Lawful, LowersWell;
    var memo := MemoAfter(setup.codec, setup.registry, log);
    if RunsHandler(setup, memo, turn.tool, turn.input) {
      var run := RunOf(setup, turn.tool, turn.input, turn.outcome);
      assert (log + [run])[..|log|] == log;
      if turn.tool == LIST_TASKS && turn.outcome.Ok? {
        SearchKeepsSound(setup, find, memo, turn);
      }
    } else {
      assert log + [] == log;
    }
  }

  lemma SearchKeepsSound<S>(setup: Setup, find: (S, Query) -> Found, memo: map<string, string>, turn: Turn<S>)
    requires Lawful(setup.codec) && LowersWell(setup.lower) && MemoSound(setup, find, memo, turn.before)
    requires turn.outcome.Ok? && HandlerPage(setup.codec, find, turn.before, setup.lower, turn.input).Some?
    requires setup.codec.page(turn.outcome.output) == HandlerPage(setup.codec, find, turn.before, setup.lower, turn.input)
    ensures var key := CanonicalKey(setup.codec, setup.lower, turn.input);
            && MemoSound(setup, find, memo[key := turn.outcome.output], turn.before)
            && MemoSound(setup, find, memo - {key}, turn.before)
  {
    hide CanonicalKey, Lawful, LowersWell, ListTasks;
    var key := CanonicalKey(setup.codec, setup.lower, turn.input);
    forall input | CanonicalKey(setup.codec, setup.lower, input) == key && Readable(input)
      ensures HandlerPage(setup.codec, find, turn.before, setup.lower, input) == setup.codec.page(turn.outcome.output)
    {
      SameKeySamePage(setup.codec, find, turn.before, setup.lower, input, turn.input);
    }
    hide HandlerPage, Readable;
  }

  lemma {:induction false} HistoryKeepsSound<S>(setup: Setup, find: (S, Query) -> Found, turns: seq<Turn<S>>, i: nat)
    requires Lawful(setup.codec) && LowersWell(setup.lower) && IsHistory(setup, find, turns) && i < |turns|
    ensures MemoSound(setup, find, MemoOf(setup, turns[..i]), turns[i].before)
    decreases i
  {
    hide Lawful, LowersWell, MemoAfter, RunsHandler, WorldMoves, CanonicalKey;
    if i == 0 {
      NothingRemembered(setup);
    } else {
      HistoryKeepsSound(setup, find, turns, i - 1);
      TurnKeepsSound(setup, find, LogOf(setup, turns[..i - 1]), turns[i - 1]);
      assert turns[..i][..i - 1] == turns[..i - 1];
    }
  }

  lemma NothingRemembered(setup: Setup)
    ensures MemoAfter(setup.codec, setup.registry, []) == map[]
  {
  }

  /**
   In any history in which only successful writes change the store, a search answered from the
   memo carries the page a direct call would give, exactly when the handler could read its input.
   */
  lemma RememberedAnswersAreTrue<S>(setup: Setup, find: (S, Query) -> Found, turns: seq<Turn<S>>, i: nat)
    requires Lawful(setup.codec) && LowersWell(setup.lower) && IsHistory(setup, find, turns) && i < |turns|
    requires Gated(setup, turns[i].tool).None?
    requires Remembered(setup, MemoOf(setup, turns[..i]), turns[i].tool, turns[i].input).Some?
    ensures var reply := ReplyTo(setup, MemoOf(setup, turns[..i]), turns[i].tool, turns[i].input, turns[i].outcome);
            && reply.Answered? && setup.codec.page(reply.output).Some?
            && (setup.codec.page(reply.output) == HandlerPage(setup.codec, find, turns[i].before, setup.lower, turns[i].input)
                <==> Readable(turns[i].input))
  {
    hide Gated, CanonicalKey, ListTasks, MemoSound, LogOf;
    var memo := MemoOf(setup, turns[..i]);
    var key := CanonicalKey(setup.codec, setup.lower, turns[i].input);
    HistoryKeepsSound(setup, find, turns, i);
    MemoHoldsLastWord(setup.codec, setup.registry, LogOf(setup, turns[..i]), key);
    if Readable(turns[i].input) {
      SoundFor(setup, find, memo, turns[i].before, turns[i].input);
    }
  }

  lemma SoundFor<S>(setup: Setup, find: (S, Query) -> Found, memo: map<string, string>, store: S, input: string)
    requires MemoSound(setup, find, memo, store) && CanonicalKey(setup.codec, setup.lower, input) in memo && Readable(input)
    ensures HandlerPage(setup.codec, find, store, setup.lower, input) == setup.codec.page(memo[CanonicalKey(setup.codec, setup.lower, input)])
  {
  }
}
