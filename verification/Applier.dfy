/**
 Reconciling the agent and hook stores with a declaration
 (internal/agentlibrary/applier.go:54-142, 379-430).

 The stores keep what they are given: an agent per key, and per agent its hooks in the order
 in which they were created.  Store errors are not modelled.
 */
module Applier {
  import opened AgentDeclarations
  import opened Listing
  import opened Wrappers

  // ---- The hooks a declaration asks for ----

  datatype HookConfig = HookConfig(when: string, skillKey: string, promptOverride: string, outputContract: string, blocking: bool,
                                   enabled: bool, permissionsJSON: string, runPolicyJSON: string, scheduleJSON: string, payloadJSON: string)

  datatype Hook = Hook(id: nat, config: HookConfig)

  /** The JSON texts of a hook's parts. */
  datatype Marshal = Marshal(permissions: map<string, bool> -> string, runPolicy: string -> string,
                             schedule: string -> string, payload: seq<string> -> string)

  function Wanted(d: Declaration, when: string, m: Marshal): HookConfig
    requires when in d.hooks
  {
    var h := d.hooks[when];
    var cron := FirstNonEmpty(h.scheduleCron, h.schedule);
    HookConfig(when, FirstNonEmpty(h.skill, d.skill.key), h.promptOverride, h.outputContract, h.blocking,
               if h.enabled.Some? then h.enabled.value else true,
               m.permissions(h.permissions), m.runPolicy(FirstNonEmpty(h.runPolicy, "always")),
               if cron != "" then m.schedule(cron) else "", if h.payload != [] then m.payload(h.payload) else "")
  }

  /** All of them, in the order in which the slots are visited. */
  function WantedHooks(d: Declaration, order: seq<string>, m: Marshal): seq<HookConfig>
    requires forall when | when in order :: when in d.hooks
  {
    if order == [] then []
    else WantedHooks(d, order[..|order| - 1], m) + [Wanted(d, order[|order| - 1], m)]
  }

  /** The slots visited, in some order: none for a skill declaration. */
  ghost predicate Visits(order: seq<string>, d: Declaration) {
    Lists(order, if IsRoot(d) then d.hooks.Keys else {})
  }

  method ImportHooks(d: Declaration, m: Marshal) returns (hooks: seq<HookConfig>, ghost order: seq<string>)
    ensures Visits(order, d) && (forall when | when in order :: when in d.hooks) && hooks == WantedHooks(d, order, m)
    ensures |hooks| == if IsRoot(d) then |d.hooks| else 0
    ensures forall i | 0 <= i < |hooks| :: hooks[i].when in d.hooks && hooks[i] == Wanted(d, hooks[i].when, m)
    ensures DistinctSlots(hooks)
  {
    hide IsRoot, WantedHooks, DistinctSlots;
    hooks, order := [], [];
    if !IsRoot(d) {
      NothingWanted(d, m);
      return;
    }
    NothingWanted(d, m);
    var todo := d.hooks.Keys;
    while todo != {}
      invariant todo <= d.hooks.Keys && Lists(order, d.hooks.Keys - todo)
      invariant (forall when | when in order :: when in d.hooks) && hooks == WantedHooks(d, order, m)
      decreases |todo|
    {
      var when :| when in todo;
      WantedStep(d, order, when, m);
      hooks := hooks + [Wanted(d, when, m)];
      order := order + [when];
      todo := todo - {when};
    }
    ListsHaveSize(order, d.hooks.Keys);
    WantsAre(d, order, m);
    WantsHaveDistinctSlots(d, order, m);
  }

  lemma NothingWanted(d: Declaration, m: Marshal)
    ensures WantedHooks(d, [], m) == [] && DistinctSlots([])
  {
  }

  lemma WantedStep(d: Declaration, order: seq<string>, when: string, m: Marshal)
    requires (forall w | w in order :: w in d.hooks) && when in d.hooks
    ensures (forall w | w in order + [when] :: w in d.hooks)
    ensures WantedHooks(d, order + [when], m) == WantedHooks(d, order, m) + [Wanted(d, when, m)]
  {
    assert (order + [when])[..|order|] == order;
  }

  // ---- Hooks of one agent ----

  datatype Change =
    | AgentCreated(key: string) | AgentUpdated(key: string)
    | HookCreated(when: string, skill: string) | HookUpdated(when: string, skill: string)

  predicate For(h: Hook, when: string, skill: string) {
    h.config.when == when && h.config.skillKey == skill
  }

  /** findHookByWhenAndSkill: the first, or the length when there is none. */
  function FindHook(rows: seq<Hook>, when: string, skill: string): (i: nat)
    ensures i <= |rows| && (i < |rows| ==> For(rows[i], when, skill))
    ensures forall k | 0 <= k < i :: !For(rows[k], when, skill)
  {
    if rows == [] || For(rows[0], when, skill) then 0 else 1 + FindHook(rows[1..], when, skill)
  }

  lemma FindIs(rows: seq<Hook>, when: string, skill: string, i: nat)
    requires i <= |rows| && (i < |rows| ==> For(rows[i], when, skill))
    requires forall k | 0 <= k < i :: !For(rows[k], when, skill)
    ensures FindHook(rows, when, skill) == i
  {
  }

  datatype HookTable = HookTable(rows: seq<Hook>, next: nat)

  function Upserted(t: HookTable, want: HookConfig): HookTable {
    var i := FindHook(t.rows, want.when, want.skillKey);
    if i == |t.rows| then HookTable(t.rows + [Hook(t.next, want)], t.next + 1)
    else t.(rows := t.rows[i := t.rows[i].(config := want)])
  }

  function UpsertedAll(t: HookTable, wants: seq<HookConfig>): HookTable {
    if wants == [] then t else Upserted(UpsertedAll(t, wants[..|wants| - 1]), wants[|wants| - 1])
  }

  /** The change a wanted hook makes to these rows. */
  function ChangeFor(rows: seq<Hook>, want: HookConfig): seq<Change> {
    var i := FindHook(rows, want.when, want.skillKey);
    if i == |rows| then [HookCreated(want.when, want.skillKey)]
    else if rows[i].config == want then []
    else [HookUpdated(want.when, want.skillKey)]
  }

  function ChangesFor(rows: seq<Hook>, wants: seq<HookConfig>): seq<Change> {
    if wants == [] then [] else ChangesFor(rows, wants[..|wants| - 1]) + ChangeFor(rows, wants[|wants| - 1])
  }

  /** No slot is wanted twice. */
  ghost predicate DistinctSlots(wants: seq<HookConfig>) {
    forall i, j | 0 <= i < j < |wants| :: wants[i].when != wants[j].when
  }

  predicate Declared(wants: seq<HookConfig>, h: Hook) {
    exists i :: 0 <= i < |wants| && For(h, wants[i].when, wants[i].skillKey)
  }

  /** IDs and pairs stay; a hook whose pair is not declared, or that is not the first of its pair, stays altogether; what is new is wanted. */
  ghost predicate RowsKept(before: seq<Hook>, after: seq<Hook>, wants: seq<HookConfig>) {
    && |before| <= |after|
    && (forall k | 0 <= k < |before| :: after[k].id == before[k].id && SamePair(after[k], before[k]))
    && (forall k | 0 <= k < |before| && !Declared(wants, before[k]) :: after[k] == before[k])
    && (forall j, k | 0 <= j < k < |before| && SamePair(before[j], before[k]) :: after[k] == before[k])
    && (forall k | |before| <= k < |after| :: after[k].config in wants)
  }

  predicate SamePair(a: Hook, b: Hook) {
    a.config.when == b.config.when && a.config.skillKey == b.config.skillKey
  }

  /** A step for another slot moves no first match. */
  lemma FindAfterOther(t: HookTable, want: HookConfig, when: string, skill: string)
    requires want.when != when
    ensures var after := Upserted(t, want).rows;
            var i, j := FindHook(t.rows, when, skill), FindHook(after, when, skill);
            |t.rows| <= |after| && if i < |t.rows| then j == i && after[j] == t.rows[i] else j == |after|
  {
    var after := Upserted(t, want).rows;
    var i := FindHook(t.rows, when, skill);
    if i < |t.rows| {
      FindIs(after, when, skill, i);
    } else {
      FindIs(after, when, skill, |after|);
    }
  }

  lemma FindAfterSelf(t: HookTable, want: HookConfig)
    ensures var after := Upserted(t, want).rows;
            var i, j := FindHook(t.rows, want.when, want.skillKey), FindHook(after, want.when, want.skillKey);
            j == i && j < |after| && after[j].config == want
  {
    var i := FindHook(t.rows, want.when, want.skillKey);
    FindIs(Upserted(t, want).rows, want.when, want.skillKey, i);
  }

  /** Slots being distinct, a wanted hook finds what it would have found at the start. */
  lemma {:induction false} FindAfterAll(t: HookTable, wants: seq<HookConfig>, when: string, skill: string)
    requires forall w | w in wants :: w.when != when
    ensures var after := UpsertedAll(t, wants).rows;
            var i, j := FindHook(t.rows, when, skill), FindHook(after, when, skill);
            if i < |t.rows| then j == i && j < |after| && after[j] == t.rows[i] else j == |after|
    decreases |wants|
  {
    if wants != [] {
      var front, last := wants[..|wants| - 1], wants[|wants| - 1];
      assert last in wants;
      FindAfterAll(t, front, when, skill);
      FindAfterOther(UpsertedAll(t, front), last, when, skill);
    }
  }

  /** After all, the first hook of every wanted pair is the wanted one. */
  lemma {:induction false} WantedAreThere(t: HookTable, wants: seq<HookConfig>)
    requires DistinctSlots(wants)
    ensures var after := UpsertedAll(t, wants).rows;
            forall w | w in wants :: FindHook(after, w.when, w.skillKey) < |after| && after[FindHook(after, w.when, w.skillKey)].config == w
    decreases |wants|
  {
    hide Upserted, FindHook;
    if wants != [] {
      var front, last := wants[..|wants| - 1], wants[|wants| - 1];
      WantedAreThere(t, front);
      FindAfterSelf(UpsertedAll(t, front), last);
      forall w | w in front
        ensures var after := UpsertedAll(t, wants).rows;
                FindHook(after, w.when, w.skillKey) < |after| && after[FindHook(after, w.when, w.skillKey)].config == w
      {
        var i :| 0 <= i < |front| && front[i] == w;
        assert wants[i] == w;
        FindAfterOther(UpsertedAll(t, front), last, w.when, w.skillKey);
      }
      assert wants == front + [last];
    }
  }

  lemma {:induction false} RowsAfterAll(t: HookTable, wants: seq<HookConfig>)
    ensures RowsKept(t.rows, UpsertedAll(t, wants).rows, wants)
    decreases |wants|
  {
    hide Upserted, RowsKept;
    if wants == [] {
      NothingUpserted(t.rows);
    } else {
      var front, last := wants[..|wants| - 1], wants[|wants| - 1];
      RowsAfterAll(t, front);
      RowsAfterOne(t.rows, UpsertedAll(t, front), front, last);
      assert wants == front + [last];
    }
  }

  lemma NothingUpserted(rows: seq<Hook>)
    ensures RowsKept(rows, rows, [])
  {
  }

  lemma RowsAfterOne(before: seq<Hook>, t: HookTable, front: seq<HookConfig>, last: HookConfig)
    requires RowsKept(before, t.rows, front)
    ensures RowsKept(before, Upserted(t, last).rows, front + [last])
  {
    var wants, after := front + [last], Upserted(t, last).rows;
    var i := FindHook(t.rows, last.when, last.skillKey);
    assert wants[|front|] == last && forall j | 0 <= j < |front| :: wants[j] == front[j];
    forall k | 0 <= k < |before| && !Declared(wants, before[k])
      ensures after[k] == before[k]
    {
      assert !For(before[k], wants[|front|].when, wants[|front|].skillKey);
      assert Declared(front, before[k]) ==> Declared(wants, before[k]);
    }
    forall j, k | 0 <= j < k < |before| && SamePair(before[j], before[k])
      ensures after[k] == before[k]
    {
      assert SamePair(t.rows[j], t.rows[k]);
    }
  }

  // ---- Both stores ----

  /** Agents by key; `next` is the next free ID. */
  datatype AgentTable = AgentTable(rows: map<string, Agent>, next: nat)

  /** Hooks by agent ID; one counter gives out the IDs of all. */
  datatype HookStoreValue = HookStoreValue(rows: map<nat, seq<Hook>>, next: nat)

  datatype Stores = Stores(agents: AgentTable, hooks: Option<HookStoreValue>)

  datatype Outcome = Changed(changes: seq<Change>) | Invalid | Protected

  function Existing(agents: AgentTable, key: string): Option<AgentConfig> {
    if key in agents.rows then Some(agents.rows[key].config) else None
  }

  predicate IsProtected(agents: AgentTable, key: string) {
    key in agents.rows && agents.rows[key].config.generatedStatus == "protected"
  }

  function AgentsAfter(agents: AgentTable, d: Declaration, fold: string -> string, now: int): AgentTable {
    var key, target := d.agent.key, Target(d, Existing(agents, d.agent.key), fold);
    if key !in agents.rows then AgentTable(agents.rows[key := Agent(agents.next, now, target)], agents.next + 1)
    else if SameConfig(agents.rows[key].config, target) then agents
    else agents.(rows := agents.rows[key := agents.rows[key].(config := target)])
  }

  function AgentChange(agents: AgentTable, d: Declaration, fold: string -> string): seq<Change> {
    var key, target := d.agent.key, Target(d, Existing(agents, d.agent.key), fold);
    if key !in agents.rows then [AgentCreated(target.key)]
    else if SameConfig(agents.rows[key].config, target) then []
    else [AgentUpdated(target.key)]
  }

  function RowsOf(hooks: HookStoreValue, agent: nat): seq<Hook> {
    if agent in hooks.rows then hooks.rows[agent] else []
  }

  function HooksAfter(hooks: HookStoreValue, agent: nat, wants: seq<HookConfig>): HookStoreValue {
    if wants == [] then hooks
    else
      var t := UpsertedAll(HookTable(RowsOf(hooks, agent), hooks.next), wants);
      HookStoreValue(hooks.rows[agent := t.rows], t.next)
  }

  /** The record's ID after the agent part of the call. */
  function AgentID(agents: AgentTable, key: string): nat {
    if key in agents.rows then agents.rows[key].id else agents.next
  }

  function Reconciled(st: Stores, d: Declaration, order: seq<string>, fold: string -> string, m: Marshal, now: int): (Stores, Outcome)
    requires forall when | when in order :: when in d.hooks
  {
    if !Valid(d) then (st, Invalid)
    else if IsProtected(st.agents, d.agent.key) then (st, Protected)
    else
      var wants, id := WantedHooks(d, order, m), AgentID(st.agents, d.agent.key);
      var changes := AgentChange(st.agents, d, fold);
      var agents := AgentsAfter(st.agents, d, fold, now);
      if st.hooks.None? then (Stores(agents, None), Changed(changes))
      else (Stores(agents, Some(HooksAfter(st.hooks.value, id, wants))),
            Changed(changes + ChangesFor(RowsOf(st.hooks.value, id), wants)))
  }

  // ---- What one call promises ----

  /** Nothing is written for a protected agent, or by a declaration that is not valid. */
  lemma ProtectedIsNeverWritten(st: Stores, d: Declaration, order: seq<string>, fold: string -> string, m: Marshal, now: int)
    requires forall when | when in order :: when in d.hooks
    ensures var (st', outcome) := Reconciled(st, d, order, fold, m, now);
            && (IsProtected(st.agents, d.agent.key) ==> st' == st && !outcome.Changed?)
            && (outcome.Changed? <==> Valid(d) && !IsProtected(st.agents, d.agent.key))
            && (forall key | IsProtected(st.agents, key) :: key in st'.agents.rows && st'.agents.rows[key] == st.agents.rows[key])
  {
    hide Target, Valid;
  }

  lemma {:induction false} WantsAre(d: Declaration, order: seq<string>, m: Marshal)
    requires forall when | when in order :: when in d.hooks
    ensures |WantedHooks(d, order, m)| == |order|
    ensures forall i | 0 <= i < |order| :: WantedHooks(d, order, m)[i] == Wanted(d, order[i], m)
    decreases |order|
  {
    hide Wanted;
    if order != [] {
      assert forall when | when in order[..|order| - 1] :: when in order;
      WantsAre(d, order[..|order| - 1], m);
    }
  }

  lemma WantsHaveDistinctSlots(d: Declaration, order: seq<string>, m: Marshal)
    requires Visits(order, d) && forall when | when in order :: when in d.hooks
    ensures DistinctSlots(WantedHooks(d, order, m))
  {
    WantsAre(d, order, m);
  }

  /** Two orders of visiting the slots ask for the same hooks. */
  lemma OrdersWantTheSame(d: Declaration, order: seq<string>, other: seq<string>, m: Marshal, w: HookConfig)
    requires Visits(order, d) && Visits(other, d)
    requires (forall when | when in order :: when in d.hooks) && forall when | when in other :: when in d.hooks
    ensures w in WantedHooks(d, order, m) ==> w in WantedHooks(d, other, m)
  {
    hide Wanted, WantedHooks, IsRoot;
    WantsAre(d, order, m);
    WantsAre(d, other, m);
    if w in WantedHooks(d, order, m) {
      var i :| 0 <= i < |order| && WantedHooks(d, order, m)[i] == w;
      assert order[i] in order && order[i] in other;
      var j :| 0 <= j < |other| && other[j] == order[i];
      assert WantedHooks(d, other, m)[j] == w;
    }
  }

  /** Hooks that the declaration does not name, and hooks of other agents, stay as they are. */
  lemma UndeclaredHooksStay(st: Stores, d: Declaration, order: seq<string>, fold: string -> string, m: Marshal, now: int)
    requires st.hooks.Some? && Visits(order, d) && forall when | when in order :: when in d.hooks
    ensures var (st', _) := Reconciled(st, d, order, fold, m, now);
            var id, wants := AgentID(st.agents, d.agent.key), WantedHooks(d, order, m);
            && st'.hooks.Some?
            && (forall a | a != id :: RowsOf(st'.hooks.value, a) == RowsOf(st.hooks.value, a))
            && RowsKept(RowsOf(st.hooks.value, id), RowsOf(st'.hooks.value, id), wants)
            && (forall key | key != d.agent.key :: key in st.agents.rows ==> key in st'.agents.rows && st'.agents.rows[key] == st.agents.rows[key])
  {
    hide Target, Valid, WantedHooks, IsRoot, SameConfig;
    var id, wants := AgentID(st.agents, d.agent.key), WantedHooks(d, order, m);
    RowsAfterAll(HookTable(RowsOf(st.hooks.value, id), st.hooks.value.next), wants);
    SameRowsKept(RowsOf(st.hooks.value, id), wants);
  }

  lemma SameRowsKept(rows: seq<Hook>, wants: seq<HookConfig>)
    ensures RowsKept(rows, rows, wants)
  {
  }

  // ---- Idempotence and independence of the order ----

  /** Where every wanted hook already stands, nothing is asked for. */
  lemma {:induction false} NothingToDo(t: HookTable, wants: seq<HookConfig>)
    requires forall w | w in wants :: FindHook(t.rows, w.when, w.skillKey) < |t.rows| && t.rows[FindHook(t.rows, w.when, w.skillKey)].config == w
    ensures UpsertedAll(t, wants) == t && ChangesFor(t.rows, wants) == []
    decreases |wants|
  {
    hide FindHook;
    if wants != [] {
      var front, last := wants[..|wants| - 1], wants[|wants| - 1];
      assert last in wants;
      NothingToDo(t, front);
      var i := FindHook(t.rows, last.when, last.skillKey);
      assert t.rows[i := t.rows[i].(config := last)] == t.rows;
    }
  }

  lemma HooksAreFixed(hooks: HookStoreValue, agent: nat, wants: seq<HookConfig>, others: seq<HookConfig>)
    requires DistinctSlots(wants) && forall w | w in others :: w in wants
    ensures var after := HooksAfter(hooks, agent, wants);
            HooksAfter(after, agent, others) == after && ChangesFor(RowsOf(after, agent), others) == []
  {
    hide FindHook, UpsertedAll, ChangesFor, DistinctSlots;
    var after := HooksAfter(hooks, agent, wants);
    if wants != [] {
      WantedAreThere(HookTable(RowsOf(hooks, agent), hooks.next), wants);
    }
    NothingToDo(HookTable(RowsOf(after, agent), after.next), others);
    if others != [] {
      assert others[0] in wants;
      assert after.rows[agent := RowsOf(after, agent)] == after.rows;
    }
  }

  /** Each key's record carries that key. */
  ghost predicate KeysMatch(agents: AgentTable) {
    forall key | key in agents.rows :: agents.rows[key].config.key == key
  }

  /** A second call asks nothing of the agent store exactly when the temperature is a number. */
  lemma AgentsAreFixedIff(agents: AgentTable, d: Declaration, fold: string -> string, now: int, later: int)
    ensures var after := AgentsAfter(agents, d, fold, now);
            && AgentID(after, d.agent.key) == AgentID(agents, d.agent.key)
            && (AgentChange(after, d, fold) == [] <==> !TargetTemperature(d, Existing(agents, d.agent.key)).NaN?)
            && (AgentChange(after, d, fold) == [] ==> AgentsAfter(after, d, fold, later) == after)
  {
    hide Target;
    var key := d.agent.key;
    StoredTargetIsUnchangedIff(d, Existing(agents, key), fold);
  }

  lemma TargetKeepsStatus(d: Declaration, existing: Option<AgentConfig>, fold: string -> string)
    ensures Target(d, existing, fold).generatedStatus == "protected" ==> existing.Some? && existing.value.generatedStatus == "protected"
  {
  }

  /**
   Applying a declaration a second time, in whatever order its hooks are visited, changes
   nothing and writes nothing exactly when the record's temperature is a number.
   */
  lemma SecondApplicationIsIdleIff(st: Stores, d: Declaration, order: seq<string>, other: seq<string>, fold: string -> string,
                                   m: Marshal, now: int, later: int)
    requires Visits(order, d) && Visits(other, d)
    requires (forall when | when in order :: when in d.hooks) && forall when | when in other :: when in d.hooks
    requires Reconciled(st, d, order, fold, m, now).1.Changed?
    ensures var st' := Reconciled(st, d, order, fold, m, now).0;
            (Reconciled(st', d, other, fold, m, later) == (st', Changed([]))
             <==> !TargetTemperature(d, Existing(st.agents, d.agent.key)).NaN?)
  {
    hide Target, Valid, WantedHooks, IsRoot, SameConfig, AgentsAfter, AgentChange, HooksAfter, ChangesFor, TargetTemperature, Visits;
    var st' := Reconciled(st, d, order, fold, m, now).0;
    AgentsAreFixedIff(st.agents, d, fold, now, later);
    NotProtectedAfter(st.agents, d, fold, now);
    if st.hooks.Some? {
      var wants, others := WantedHooks(d, order, m), WantedHooks(d, other, m);
      WantsHaveDistinctSlots(d, order, m);
      forall w | w in others
        ensures w in wants
      {
        OrdersWantTheSame(d, other, order, m, w);
      }
      HooksAreFixed(st.hooks.value, AgentID(st.agents, d.agent.key), wants, others);
    }
  }

  lemma NotProtectedAfter(agents: AgentTable, d: Declaration, fold: string -> string, now: int)
    requires !IsProtected(agents, d.agent.key)
    ensures !IsProtected(AgentsAfter(agents, d, fold, now), d.agent.key)
  {
    hide Target;
    TargetKeepsStatus(d, Existing(agents, d.agent.key), fold);
  }

  lemma {:induction false} ChangesAre(rows: seq<Hook>, wants: seq<HookConfig>, c: Change)
    ensures c in ChangesFor(rows, wants) <==> exists i :: 0 <= i < |wants| && ChangeFor(rows, wants[i]) == [c]
    decreases |wants|
  {
    hide FindHook;
    if wants != [] {
      var front, last := wants[..|wants| - 1], wants[|wants| - 1];
      ChangesAre(rows, front, c);
      assert forall i | 0 <= i < |front| :: wants[i] == front[i];
      if i :| 0 <= i < |wants| && ChangeFor(rows, wants[i]) == [c] {
        assert i < |front| ==> ChangeFor(rows, front[i]) == [c];
      }
    }
  }

  /** The configuration the store gives for a pair. */
  function LookedUp(rows: seq<Hook>, when: string, skill: string): Option<HookConfig> {
    var i := FindHook(rows, when, skill);
    if i < |rows| then Some(rows[i].config) else None
  }

  lemma LookedUpAfter(t: HookTable, wants: seq<HookConfig>, w: HookConfig)
    requires DistinctSlots(wants) && w in wants
    ensures LookedUp(UpsertedAll(t, wants).rows, w.when, w.skillKey) == Some(w)
  {
    hide FindHook;
    WantedAreThere(t, wants);
  }

  /** The order of visiting the slots decides neither what a lookup finds nor which changes are made. */
  lemma OrderDoesNotMatter(d: Declaration, order: seq<string>, other: seq<string>, m: Marshal, t: HookTable)
    requires Visits(order, d) && Visits(other, d)
    requires (forall when | when in order :: when in d.hooks) && forall when | when in other :: when in d.hooks
    ensures var wants, others := WantedHooks(d, order, m), WantedHooks(d, other, m);
            && (forall when, skill :: LookedUp(UpsertedAll(t, wants).rows, when, skill) == LookedUp(UpsertedAll(t, others).rows, when, skill))
            && (forall c :: c in ChangesFor(t.rows, wants) <==> c in ChangesFor(t.rows, others))
  {
    hide WantedHooks, IsRoot, FindHook, UpsertedAll, ChangesFor, LookedUp, DistinctSlots, Visits;
    var wants, others := WantedHooks(d, order, m), WantedHooks(d, other, m);
    forall w
      ensures w in wants <==> w in others
    {
      OrdersWantTheSame(d, order, other, m, w);
      OrdersWantTheSame(d, other, order, m, w);
    }
    WantsHaveDistinctSlots(d, order, m);
    WantsHaveDistinctSlots(d, other, m);
    forall when, skill
      ensures LookedUp(UpsertedAll(t, wants).rows, when, skill) == LookedUp(UpsertedAll(t, others).rows, when, skill)
    {
      LookupAgrees(t, wants, others, when, skill);
    }
    forall c
      ensures c in ChangesFor(t.rows, wants) <==> c in ChangesFor(t.rows, others)
    {
      ChangesAgree(t.rows, wants, others, c);
    }
  }

  lemma ChangesAgree(rows: seq<Hook>, wants: seq<HookConfig>, others: seq<HookConfig>, c: Change)
    requires forall w :: w in wants <==> w in others
    ensures c in ChangesFor(rows, wants) <==> c in ChangesFor(rows, others)
  {
    hide ChangesFor, ChangeFor;
    ChangesAre(rows, wants, c);
    ChangesAre(rows, others, c);
    if i :| 0 <= i < |wants| && ChangeFor(rows, wants[i]) == [c] {
      assert wants[i] in others;
      var j :| 0 <= j < |others| && others[j] == wants[i];
    }
    if i :| 0 <= i < |others| && ChangeFor(rows, others[i]) == [c] {
      assert others[i] in wants;
      var j :| 0 <= j < |wants| && wants[j] == others[i];
    }
  }

  /** A pair is looked up as wanted, or else as the store had it, if its slot is wanted with another skill. */
  lemma LookupAgrees(t: HookTable, wants: seq<HookConfig>, others: seq<HookConfig>, when: string, skill: string)
    requires DistinctSlots(wants) && DistinctSlots(others) && forall w :: w in wants <==> w in others
    ensures LookedUp(UpsertedAll(t, wants).rows, when, skill) == LookedUp(UpsertedAll(t, others).rows, when, skill)
  {
    hide FindHook, UpsertedAll, LookedUp, DistinctSlots;
    if w :| w in wants && w.when == when && w.skillKey == skill {
      LookedUpAfter(t, wants, w);
      LookedUpAfter(t, others, w);
    } else {
      OtherPairLookedUp(t, wants, when, skill);
      OtherPairLookedUp(t, others, when, skill);
    }
  }

  lemma {:induction false} OtherPairLookedUp(t: HookTable, wants: seq<HookConfig>, when: string, skill: string)
    requires forall w | w in wants :: w.when != when || w.skillKey != skill
    ensures LookedUp(UpsertedAll(t, wants).rows, when, skill) == LookedUp(t.rows, when, skill)
    decreases |wants|
  {
    if wants != [] {
      var front, last := wants[..|wants| - 1], wants[|wants| - 1];
      assert last in wants;
      OtherPairLookedUp(t, front, when, skill);
      LookedUpAfterOther(UpsertedAll(t, front), last, when, skill);
    }
  }

  lemma LookedUpAfterOther(t: HookTable, want: HookConfig, when: string, skill: string)
    requires want.when != when || want.skillKey != skill
    ensures LookedUp(Upserted(t, want).rows, when, skill) == LookedUp(t.rows, when, skill)
  {
    var after := Upserted(t, want).rows;
    var i := FindHook(t.rows, when, skill);
    FindIs(after, when, skill, if i < |t.rows| then i else |after|);
  }

  // ---- The stores and the applier as the code keeps them ----

  class AgentStore {
    var rows: map<string, Agent>
    var next: nat

    constructor ()
      ensures KeysMatch(Value()) && rows == map[]
    {
      rows, next := map[], 0;
    }

    function Value(): AgentTable
      reads this
    {
      AgentTable(rows, next)
    }

    method GetByKey(key: string) returns (agent: Option<Agent>)
      ensures agent == if key in rows then Some(rows[key]) else None
    {
      agent := if key in rows then Some(rows[key]) else None;
    }

    method Create(config: AgentConfig, now: int) returns (id: nat)
      modifies this
      ensures id == old(next) && Value() == AgentTable(old(rows)[config.key := Agent(id, now, config)], id + 1)
    {
      id := next;
      rows := rows[config.key := Agent(id, now, config)];
      next := next + 1;
    }

    method Update(agent: Agent)
      modifies this
      ensures Value() == AgentTable(old(rows)[agent.config.key := agent], old(next))
    {
      rows := rows[agent.config.key := agent];
    }
  }

  ghost predicate DistinctIDs(rows: seq<Hook>, next: nat) {
    && (forall i, j | 0 <= i < j < |rows| :: rows[i].id != rows[j].id)
    && forall i | 0 <= i < |rows| :: rows[i].id < next
  }

  class HookStore {
    var rows: map<nat, seq<Hook>>
    var next: nat

    ghost predicate Valid()
      reads this
    {
      forall agent | agent in rows :: DistinctIDs(rows[agent], next)
    }

    constructor ()
      ensures Valid() && rows == map[]
    {
      rows, next := map[], 0;
    }

    function Value(): HookStoreValue
      reads this
    {
      HookStoreValue(rows, next)
    }

    method HooksByAgent(agent: nat) returns (hooks: seq<Hook>)
      ensures hooks == RowsOf(Value(), agent)
    {
      hooks := if agent in rows then rows[agent] else [];
    }

    method CreateHook(agent: nat, config: HookConfig)
      requires Valid()
      modifies this
      ensures Valid()
      ensures Value() == HookStoreValue(old(rows)[agent := RowsOf(old(Value()), agent) + [Hook(old(next), config)]], old(next) + 1)
    {
      rows := rows[agent := (if agent in rows then rows[agent] else []) + [Hook(next, config)]];
      next := next + 1;
    }

    /** The row with this ID gets the configuration. */
    method UpdateHook(agent: nat, id: nat, config: HookConfig, ghost at: nat)
      requires Valid() && agent in rows && at < |rows[agent]| && rows[agent][at].id == id
      modifies this
      ensures Valid()
      ensures Value() == HookStoreValue(old(rows)[agent := old(rows)[agent][at := Hook(id, config)]], old(next))
    {
      var updated := rows[agent];
      for i := 0 to |updated|
        invariant |updated| == |rows[agent]| && rows == old(rows) && next == old(next)
        invariant updated == if at < i then rows[agent][at := Hook(id, config)] else rows[agent]
      {
        assert DistinctIDs(rows[agent], next);
        if updated[i].id == id {
          updated := updated[i := Hook(id, config)];
        }
      }
      rows := rows[agent := updated];
    }
  }

  class RepoApplier {
    const agents: AgentStore
    const hooks: HookStore?

    constructor (agents: AgentStore, hooks: HookStore?)
      ensures this.agents == agents && this.hooks == hooks
    {
      this.agents, this.hooks := agents, hooks;
    }

    ghost function Footprint(): set<object>
    {
      {agents} + if hooks == null then {} else {hooks}
    }

    ghost predicate Inv()
      reads Footprint()
    {
      KeysMatch(agents.Value()) && (hooks != null ==> hooks.Valid())
    }

    ghost function Value(): Stores
      reads Footprint()
    {
      Stores(agents.Value(), if hooks == null then None else Some(hooks.Value()))
    }

    /** `order` is the order in which the hooks happen to be visited. */
    method ApplyDeclaration(d: Declaration, fold: string -> string, m: Marshal, now: int) returns (outcome: Outcome, ghost order: seq<string>)
      requires Inv()
      modifies Footprint()
      ensures Inv()
      ensures Visits(order, d) && forall when | when in order :: when in d.hooks
      ensures (Value(), outcome) == Reconciled(old(Value()), d, order, fold, m, now)
    {
      hide Target, AgentDeclarations.Valid, WantedHooks, Visits, SameConfig, HooksAfter, ChangesFor, KeysMatch, DistinctSlots;
      var wantHooks;
      wantHooks, order := ImportHooks(d, m);
      if !AgentDeclarations.Valid(d) {
        return Invalid, order;
      }
      var existing := agents.GetByKey(d.agent.key);
      if existing.Some? && existing.value.config.generatedStatus == "protected" {
        return Protected, order;
      }
      var id, changes := SaveAgent(existing, d, fold, now);
      if hooks != null {
        WantsHaveDistinctSlots(d, order, m);
        var hookChanges := SaveHooks(id, wantHooks);
        changes := changes + hookChanges;
      }
      outcome := Changed(changes);
    }

    method SaveAgent(existing: Option<Agent>, d: Declaration, fold: string -> string, now: int) returns (id: nat, changes: seq<Change>)
      requires KeysMatch(agents.Value())
      requires existing == if d.agent.key in agents.rows then Some(agents.rows[d.agent.key]) else None
      modifies agents
      ensures KeysMatch(agents.Value()) && agents.Value() == AgentsAfter(old(agents.Value()), d, fold, now)
      ensures id == AgentID(old(agents.Value()), d.agent.key) && changes == AgentChange(old(agents.Value()), d, fold)
    {
      hide Target;
      TargetKey(agents.Value(), d, fold);
      if existing.None? {
        var target := Target(d, None, fold);
        id := agents.Create(target, now);
        changes := [AgentCreated(target.key)];
      } else {
        var target := existing.value.(config := Target(d, Some(existing.value.config), fold));
        id, changes := target.id, [];
        if !SameConfig(existing.value.config, target.config) {
          agents.Update(target);
          changes := [AgentUpdated(target.config.key)];
        }
      }
    }

    method SaveHooks(id: nat, wantHooks: seq<HookConfig>) returns (changes: seq<Change>)
      requires hooks != null && hooks.Valid() && DistinctSlots(wantHooks)
      modifies hooks
      ensures hooks.Valid() && hooks.Value() == HooksAfter(old(hooks.Value()), id, wantHooks)
      ensures changes == ChangesFor(RowsOf(old(hooks.Value()), id), wantHooks)
    {
      hide DistinctSlots, DistinctIDs;
      changes := [];
      if |wantHooks| == 0 {
        return;
      }
      var existingHooks := hooks.HooksByAgent(id);
      for i := 0 to |wantHooks|
        invariant hooks.Valid() && hooks.Value() == HooksAfter(old(hooks.Value()), id, wantHooks[..i])
        invariant changes == ChangesFor(existingHooks, wantHooks[..i])
      {
        var change := SaveHook(id, existingHooks, wantHooks[i], old(hooks.Value()), wantHooks, i);
        assert wantHooks[..i + 1][..i] == wantHooks[..i];
        changes := changes + change;
      }
      assert wantHooks[..|wantHooks|] == wantHooks;
    }

    /** One wanted hook, matched against the hooks as they were before the first was saved. */
    method SaveHook(id: nat, existingHooks: seq<Hook>, want: HookConfig, ghost start: HookStoreValue, ghost wants: seq<HookConfig>, ghost n: nat)
      returns (change: seq<Change>)
      requires hooks != null && hooks.Valid() && DistinctSlots(wants) && n < |wants| && wants[n] == want
      requires existingHooks == RowsOf(start, id) && hooks.Value() == HooksAfter(start, id, wants[..n])
      modifies hooks
      ensures hooks.Valid() && hooks.Value() == HooksAfter(start, id, wants[..n + 1])
      ensures change == ChangeFor(existingHooks, want)
    {
      hide DistinctIDs, FindHook, UpsertedAll;
      MatchIsCurrent(start, id, wants, n);
      HooksStep(start, id, wants, n);
      var at := FindHook(existingHooks, want.when, want.skillKey);
      if at == |existingHooks| {
        hooks.CreateHook(id, want);
        change := [HookCreated(want.when, want.skillKey)];
      } else if existingHooks[at].config == want {
        assert hooks.rows[id][at := hooks.rows[id][at]] == hooks.rows[id];
        assert hooks.rows[id := hooks.rows[id]] == hooks.rows;
        change := [];
      } else {
        hooks.UpdateHook(id, existingHooks[at].id, want, at);
        change := [HookUpdated(want.when, want.skillKey)];
      }
    }
  }

  lemma TargetKey(agents: AgentTable, d: Declaration, fold: string -> string)
    requires KeysMatch(agents)
    ensures Target(d, Existing(agents, d.agent.key), fold).key == d.agent.key
  {
  }

  /** A match found among the hooks of the start is the match now, and unchanged. */
  lemma MatchIsCurrent(start: HookStoreValue, id: nat, wants: seq<HookConfig>, n: nat)
    requires DistinctSlots(wants) && n < |wants|
    ensures var was, now, w := RowsOf(start, id), RowsOf(HooksAfter(start, id, wants[..n]), id), wants[n];
            var i, j := FindHook(was, w.when, w.skillKey), FindHook(now, w.when, w.skillKey);
            if i < |was| then j == i && j < |now| && now[j] == was[i] && id in HooksAfter(start, id, wants[..n]).rows else j == |now|
  {
    hide FindHook, UpsertedAll;
    FindAfterAll(HookTable(RowsOf(start, id), start.next), wants[..n], wants[n].when, wants[n].skillKey);
  }

  lemma HooksStep(start: HookStoreValue, id: nat, wants: seq<HookConfig>, n: nat)
    requires n < |wants|
    ensures var before, after := HooksAfter(start, id, wants[..n]), HooksAfter(start, id, wants[..n + 1]);
            var t := Upserted(HookTable(RowsOf(before, id), before.next), wants[n]);
            after == HookStoreValue(before.rows[id := t.rows], t.next)
  {
    hide FindHook, Upserted;
    assert wants[..n + 1][..n] == wants[..n];
    var t0 := HookTable(RowsOf(start, id), start.next);
    assert UpsertedAll(t0, wants[..n + 1]) == Upserted(UpsertedAll(t0, wants[..n]), wants[n]);
  }
}
