/**
 What a declaration that is applied leaves in the stores, field by field
 (internal/agentlibrary/applier.go:68-139, 280-377, 379-463).
 */
module AppliedRecords {
  import opened AgentDeclarations
  import opened Applier
  import opened Floats
  import opened Listing
  import opened Slugs
  import opened Text
  import opened Wrappers

  /** The configuration under a key, if there is one. */
  function ConfigAt(st: Stores, key: string): Option<AgentConfig> {
    if key in st.agents.rows then Some(st.agents.rows[key].config) else None
  }

  /** The stores after the call. */
  function StoresAfter(st: Stores, d: Declaration, order: seq<string>, fold: string -> string, m: Marshal, now: int): Stores
    requires forall when | when in order :: when in d.hooks
  {
    Reconciled(st, d, order, fold, m, now).0
  }

  predicate GoesThrough(st: Stores, d: Declaration, order: seq<string>, fold: string -> string, m: Marshal, now: int)
    requires forall when | when in order :: when in d.hooks
  {
    Reconciled(st, d, order, fold, m, now).1.Changed?
  }

  lemma RecordIsTarget(st: Stores, d: Declaration, order: seq<string>, fold: string -> string, m: Marshal, now: int)
    requires forall when | when in order :: when in d.hooks
    requires GoesThrough(st, d, order, fold, m, now)
    ensures ConfigAt(StoresAfter(st, d, order, fold, m, now), d.agent.key) == Some(Target(d, ConfigAt(st, d.agent.key), fold))
  {
    hide Target, AgentDeclarations.Valid, WantedHooks, HooksAfter, ChangesFor;
  }

  /** A new record gets the next ID and the time of the call; an old one keeps its own. */
  lemma RecordIdentity(st: Stores, d: Declaration, order: seq<string>, fold: string -> string, m: Marshal, now: int)
    requires forall when | when in order :: when in d.hooks
    requires GoesThrough(st, d, order, fold, m, now)
    ensures var agents, key := StoresAfter(st, d, order, fold, m, now).agents, d.agent.key;
            && agents.rows.Keys == st.agents.rows.Keys + {key}
            && (forall other | other in st.agents.rows && other != key :: agents.rows[other] == st.agents.rows[other])
            && (if key in st.agents.rows
                then agents.rows[key].id == st.agents.rows[key].id && agents.rows[key].createdAt == st.agents.rows[key].createdAt
                     && agents.next == st.agents.next
                else agents.rows[key].id == st.agents.next && agents.rows[key].createdAt == now && agents.next == st.agents.next + 1)
  {
    hide Target, AgentDeclarations.Valid, WantedHooks, HooksAfter, ChangesFor;
  }

  /** Why a call does not go through: one of eight faults in the declaration, or else a protected record. */
  lemma RefusedIff(st: Stores, d: Declaration, order: seq<string>, fold: string -> string, m: Marshal, now: int)
    requires forall when | when in order :: when in d.hooks
    ensures var outcome := Reconciled(st, d, order, fold, m, now).1;
            && (outcome.Invalid? <==>
                || !d.dependenciesValid || d.version < 1 || TrimSpace(d.kind) != "openvibely.agent_skill"
                || (!IsSlug(d.agent.key) && (TrimSpace(d.agent.key) != "" || TrimSpace(d.skill.key) == ""))
                || (TrimSpace(d.skill.key) != "" && !IsSlug(d.skill.key))
                || d.skill.scope !in {"", "global", "project"}
                || (exists when :: when in d.hooks && when !in {"primary", "route_task", "before_run", "after_complete", "scheduled"})
                || (exists when :: when in d.hooks && when != "primary" && d.hooks[when].outputContract !in
                      {"", "selected_mode", "selected_skills", "selected_memories", "context_block", "activity_summary",
                       "learning_summary", "library_update_summary"}))
            && (outcome.Protected? ==> ConfigAt(st, d.agent.key).Some? && ConfigAt(st, d.agent.key).value.generatedStatus == "protected")
            && (outcome.Changed? ==> ConfigAt(st, d.agent.key).None? || ConfigAt(st, d.agent.key).value.generatedStatus != "protected")
            && (!outcome.Changed? ==> StoresAfter(st, d, order, fold, m, now) == st)
  {
    hide Target, IsSlug, TrimSpace, WantedHooks, HooksAfter, ChangesFor, AgentsAfter, AgentChange;
  }

  // ---- The record after a root declaration ----

  /** Names and texts: an empty one is kept from the old record where there is one. */
  lemma RootTexts(st: Stores, d: Declaration, order: seq<string>, fold: string -> string, m: Marshal, now: int)
    requires forall when | when in order :: when in d.hooks
    requires GoesThrough(st, d, order, fold, m, now) && TrimSpace(d.skill.key) == ""
    ensures var (before, after) := (ConfigAt(st, d.agent.key), ConfigAt(StoresAfter(st, d, order, fold, m, now), d.agent.key));
            && after.Some? && after.value.key == d.agent.key
            && after.value.name == (if d.agent.displayName != "" then d.agent.displayName else d.agent.name)
            && after.value.description == (if d.agent.description != "" then d.agent.description
                                        else if before.Some? then before.value.description else "")
            && after.value.systemPrompt == (if d.agent.systemPrompt != "" then d.agent.systemPrompt
                                         else if before.Some? then before.value.systemPrompt else "")
            && after.value.model == (if d.modelDefaults.model != "" && d.modelDefaults.model != "inherit" then d.modelDefaults.model
                                  else if before.Some? && before.value.model != "" then before.value.model else "inherit")
            && after.value.scope == (if d.agent.scope != "" then d.agent.scope else "global")
            && after.value.projectID == d.agent.projectID
  {
    hide Reconciled, TrimSpace, NonBlank, ServersNamed, TrimmedToolConfig;
    RecordIsTarget(st, d, order, fold, m, now);
  }

  /** Lists and settings: what the declaration leaves out is kept from the old record where there is one. */
  lemma RootSettings(st: Stores, d: Declaration, order: seq<string>, fold: string -> string, m: Marshal, now: int)
    requires forall when | when in order :: when in d.hooks
    requires GoesThrough(st, d, order, fold, m, now) && TrimSpace(d.skill.key) == ""
    ensures var (before, after) := (ConfigAt(st, d.agent.key), ConfigAt(StoresAfter(st, d, order, fold, m, now), d.agent.key));
            && after.Some?
            && after.value.tools == (if d.tools == [] && before.Some? then before.value.tools else NonBlank(d.tools))
            && after.value.plugins == (if d.plugins == [] && before.Some? then before.value.plugins else NonBlank(d.plugins))
            && after.value.permissions == (if d.permissions == {} && before.Some? then before.value.permissions else d.permissions)
            && after.value.sourceRefs == (if d.evidenceRefs == [] && before.Some? then before.value.sourceRefs else d.evidenceRefs)
            && after.value.modelDefaults == (if d.modelDefaults.model == "" && d.modelDefaults.maxTokens == 0
                                             && d.modelDefaults.temperature == Finite(0.0) && before.Some?
                                          then before.value.modelDefaults else d.modelDefaults)
  {
    hide Reconciled, TrimSpace, NonBlank, ServersNamed, TrimmedToolConfig;
    RecordIsTarget(st, d, order, fold, m, now);
  }

  /** Each server is known by its trimmed name alone, and directories are trimmed. */
  lemma RootServersAndTools(st: Stores, d: Declaration, order: seq<string>, fold: string -> string, m: Marshal, now: int)
    requires forall when | when in order :: when in d.hooks
    requires GoesThrough(st, d, order, fold, m, now) && TrimSpace(d.skill.key) == ""
    ensures var (before, after) := (ConfigAt(st, d.agent.key), ConfigAt(StoresAfter(st, d, order, fold, m, now), d.agent.key));
            && after.Some?
            && (if d.mcpServers == [] && before.Some? then after.value.mcpServers == before.value.mcpServers
                else |after.value.mcpServers| == |NonBlank(d.mcpServers)|
                     && forall i | 0 <= i < |after.value.mcpServers| ::
                          after.value.mcpServers[i] == MCPServer(NonBlank(d.mcpServers)[i], "", [], "", map[], map[]))
            && var tools := after.value.toolConfig;
               if d.toolConfig == ToolConfig([], false, false) && before.Some? then tools == before.value.toolConfig
               else && tools.skipDefaultTools == d.toolConfig.skipDefaultTools
                    && tools.disableRuntimeWorktree == d.toolConfig.disableRuntimeWorktree
                    && |tools.scopedFiles| == |d.toolConfig.scopedFiles|
                    && forall i | 0 <= i < |tools.scopedFiles| ::
                         && tools.scopedFiles[i].directory == TrimSpace(d.toolConfig.scopedFiles[i].directory)
                         && tools.scopedFiles[i].permissions == d.toolConfig.scopedFiles[i].permissions
  {
    hide Reconciled, TrimSpace, NonBlank;
    RecordIsTarget(st, d, order, fold, m, now);
  }

  /**
   The state of the record: enabled unless the declaration says no or the agent was archived; the
   skills, the owner and the status of the old record stay; what no declaration expresses is cleared.
   */
  lemma RootState(st: Stores, d: Declaration, order: seq<string>, fold: string -> string, m: Marshal, now: int)
    requires forall when | when in order :: when in d.hooks
    requires GoesThrough(st, d, order, fold, m, now) && TrimSpace(d.skill.key) == ""
    ensures var (before, after) := (ConfigAt(st, d.agent.key), ConfigAt(StoresAfter(st, d, order, fold, m, now), d.agent.key));
            && after.Some?
            && (after.value.enabled <==> d.agent.enabled != Some(false) && !(before.Some? && before.value.generatedStatus == "archived"))
            && after.value.selectableAsPrimary == d.agent.selectableAsPrimary
            && after.value.skills == (if before.Some? then before.value.skills else [])
            && after.value.createdBy == (if before.Some? && before.value.createdBy != "" then before.value.createdBy else "agent")
            && after.value.generatedStatus == (if before.Some? then before.value.generatedStatus else "generated")
            && after.value.systemKind == "" && after.value.absorbedInto == "" && after.value.archivedAt == None
  {
    hide Reconciled, TrimSpace, NonBlank, ServersNamed, TrimmedToolConfig;
    RecordIsTarget(st, d, order, fold, m, now);
  }

  // ---- The record after a skill declaration ----

  /** An existing record changes in its skills only, and an owner is filled in. */
  lemma SkillKeepsRecord(st: Stores, d: Declaration, order: seq<string>, fold: string -> string, m: Marshal, now: int)
    requires forall when | when in order :: when in d.hooks
    requires GoesThrough(st, d, order, fold, m, now) && TrimSpace(d.skill.key) != "" && d.agent.key in st.agents.rows
    ensures var before, after := st.agents.rows[d.agent.key].config, ConfigAt(StoresAfter(st, d, order, fold, m, now), d.agent.key);
            after == Some(before.(skills := MergedSkill(before.skills, d, fold),
                            createdBy := if before.createdBy != "" then before.createdBy else "agent"))
  {
    hide Reconciled, TrimSpace, MergedSkill;
    RecordIsTarget(st, d, order, fold, m, now);
  }

  /** A new record holds the agent's texts, the one skill and nothing else. */
  lemma SkillMakesRecord(st: Stores, d: Declaration, order: seq<string>, fold: string -> string, m: Marshal, now: int)
    requires forall when | when in order :: when in d.hooks
    requires GoesThrough(st, d, order, fold, m, now) && TrimSpace(d.skill.key) != "" && d.agent.key !in st.agents.rows
    ensures var after := ConfigAt(StoresAfter(st, d, order, fold, m, now), d.agent.key);
            && after.Some? && after.value.key == d.agent.key
            && after.value.name == (if d.agent.displayName != "" then d.agent.displayName
                                 else if d.agent.name != "" then d.agent.name else d.agent.key)
            && after.value.description == d.agent.description && after.value.systemPrompt == d.agent.systemPrompt
            && after.value.model == "inherit" && after.value.scope == (if d.agent.scope != "" then d.agent.scope else "global")
            && after.value.projectID == d.agent.projectID && after.value.selectableAsPrimary == d.agent.selectableAsPrimary
            && after.value.enabled && after.value.createdBy == "agent" && after.value.generatedStatus == "generated"
            && after.value.tools == [] && after.value.plugins == [] && after.value.mcpServers == [] && after.value.permissions == {}
            && after.value.toolConfig == ToolConfig([], false, false) && after.value.modelDefaults == ModelDefaults("", Finite(0.0), 0)
            && after.value.sourceRefs == [] && after.value.systemKind == "" && after.value.absorbedInto == "" && after.value.archivedAt == None
            && after.value.skills == [SkillConfig(d.skill.key, d.skill.description, Join(d.tools, ','), "")]
  {
    hide Reconciled, TrimSpace, Join;
    assert d.skill.key != "" by { BlankIsBlank(); }
    RecordIsTarget(st, d, order, fold, m, now);
  }

  lemma BlankIsBlank()
    ensures TrimSpace("") == ""
  {
  }

  // ---- The hooks ----

  function HooksOf(st: Stores, agent: nat): seq<Hook> {
    if st.hooks.Some? && agent in st.hooks.value.rows then st.hooks.value.rows[agent] else []
  }

  predicate ForPair(h: Hook, when: string, skill: string) {
    h.config.when == when && h.config.skillKey == skill
  }

  /** The skill a declared hook runs: its own, or that of the declaration. */
  function SkillOf(d: Declaration, when: string): string
    requires when in d.hooks
  {
    if d.hooks[when].skill != "" then d.hooks[when].skill else d.skill.key
  }

  /** This hook is configured as the declaration says for the slot. */
  predicate Configured(c: HookConfig, d: Declaration, when: string, m: Marshal)
    requires when in d.hooks
  {
    var h := d.hooks[when];
    && c.when == when && c.skillKey == SkillOf(d, when)
    && c.promptOverride == h.promptOverride && c.outputContract == h.outputContract && c.blocking == h.blocking
    && (c.enabled <==> h.enabled != Some(false))
    && c.permissionsJSON == m.permissions(h.permissions)
    && c.runPolicyJSON == m.runPolicy(if h.runPolicy != "" then h.runPolicy else "always")
    && c.scheduleJSON == (if h.scheduleCron != "" then m.schedule(h.scheduleCron)
                          else if h.schedule != "" then m.schedule(h.schedule) else "")
    && c.payloadJSON == (if h.payload == [] then "" else m.payload(h.payload))
  }

  lemma ConfiguredIff(c: HookConfig, d: Declaration, when: string, m: Marshal)
    requires when in d.hooks
    ensures Configured(c, d, when, m) <==> c == Wanted(d, when, m)
  {
  }

  lemma WantedStands(t: HookTable, d: Declaration, order: seq<string>, m: Marshal, when: string) returns (k: nat)
    requires Visits(order, d) && (forall w | w in order :: w in d.hooks) && when in order
    ensures WantedHooks(d, order, m) != []
    ensures var rows := UpsertedAll(t, WantedHooks(d, order, m)).rows;
            && k < |rows| && Configured(rows[k].config, d, when, m)
            && forall j | 0 <= j < k :: !ForPair(rows[j], when, SkillOf(d, when))
  {
    hide Visits, Wanted, Configured, FindHook, UpsertedAll, WantedHooks;
    var wants := WantedHooks(d, order, m);
    var i :| 0 <= i < |order| && order[i] == when;
    WantsAre(d, order, m);
    WantsHaveDistinctSlots(d, order, m);
    WantedAreThere(t, wants);
    k := FindHook(UpsertedAll(t, wants).rows, wants[i].when, wants[i].skillKey);
    ConfiguredIff(wants[i], d, when, m);
    ConfiguredPair(wants[i], d, when, m);
  }

  lemma ConfiguredPair(c: HookConfig, d: Declaration, when: string, m: Marshal)
    requires when in d.hooks && Configured(c, d, when, m)
    ensures c.when == when && c.skillKey == SkillOf(d, when)
  {
  }

  /** Every declared hook then stands with the agent's record, first of its slot and skill, configured as declared. */
  lemma DeclaredHookStands(st: Stores, d: Declaration, order: seq<string>, fold: string -> string, m: Marshal, now: int, when: string)
    returns (k: nat)
    requires Visits(order, d) && forall when | when in order :: when in d.hooks
    requires GoesThrough(st, d, order, fold, m, now) && st.hooks.Some?
    requires TrimSpace(d.skill.key) == "" && when in d.hooks
    ensures var after := StoresAfter(st, d, order, fold, m, now);
            && d.agent.key in after.agents.rows
            && var rows := HooksOf(after, after.agents.rows[d.agent.key].id);
               && k < |rows| && Configured(rows[k].config, d, when, m)
               && forall j | 0 <= j < k :: !ForPair(rows[j], when, SkillOf(d, when))
  {
    assert when in order;
    RecordIdentity(st, d, order, fold, m, now);
    hide Visits, StoresAfter, GoesThrough, UpsertedAll, WantedHooks, Configured, ForPair, AgentID;
    var id := AgentID(st.agents, d.agent.key);
    var t := HookTable(RowsOf(st.hooks.value, id), st.hooks.value.next);
    k := WantedStands(t, d, order, m, when);
    HooksAre(st, d, order, fold, m, now);
  }

  lemma HooksAre(st: Stores, d: Declaration, order: seq<string>, fold: string -> string, m: Marshal, now: int)
    requires (forall when | when in order :: when in d.hooks) && st.hooks.Some?
    requires GoesThrough(st, d, order, fold, m, now) && WantedHooks(d, order, m) != []
    ensures var id := AgentID(st.agents, d.agent.key);
            var t := HookTable(RowsOf(st.hooks.value, id), st.hooks.value.next);
            var after := StoresAfter(st, d, order, fold, m, now);
            && d.agent.key in after.agents.rows && after.agents.rows[d.agent.key].id == id
            && HooksOf(after, id) == UpsertedAll(t, WantedHooks(d, order, m)).rows
  {
    RecordIdentity(st, d, order, fold, m, now);
    hide Target, AgentDeclarations.Valid, WantedHooks, UpsertedAll, ChangesFor, AgentsAfter, AgentChange;
  }

  /** A skill declaration touches no hook. */
  lemma SkillTouchesNoHook(st: Stores, d: Declaration, order: seq<string>, fold: string -> string, m: Marshal, now: int)
    requires Visits(order, d) && forall when | when in order :: when in d.hooks
    requires TrimSpace(d.skill.key) != ""
    ensures StoresAfter(st, d, order, fold, m, now).hooks == st.hooks
  {
    hide Target, AgentDeclarations.Valid, SameConfig;
    ListsHaveSize(order, {});
  }

  // ---- The changes reported ----

  /** This declared pair has no hook among these. */
  predicate Absent(rows: seq<Hook>, when: string, skill: string) {
    forall j | 0 <= j < |rows| :: !ForPair(rows[j], when, skill)
  }

  /** The first hook of this pair is configured otherwise. */
  predicate Differs(rows: seq<Hook>, d: Declaration, when: string, m: Marshal)
    requires when in d.hooks
  {
    exists i :: && 0 <= i < |rows| && ForPair(rows[i], when, SkillOf(d, when)) && !Configured(rows[i].config, d, when, m)
                && forall j | 0 <= j < i :: !ForPair(rows[j], when, SkillOf(d, when))
  }

  lemma ChangeForIs(rows: seq<Hook>, d: Declaration, when: string, m: Marshal)
    requires when in d.hooks
    ensures ChangeFor(rows, Wanted(d, when, m)) ==
            if Absent(rows, when, SkillOf(d, when)) then [HookCreated(when, SkillOf(d, when))]
            else if Differs(rows, d, when, m) then [HookUpdated(when, SkillOf(d, when))] else []
  {
    var i := FindHook(rows, when, SkillOf(d, when));
    assert Wanted(d, when, m).when == when && Wanted(d, when, m).skillKey == SkillOf(d, when);
    hide FindHook, Wanted, Configured;
    if i < |rows| {
      assert For(rows[i], when, SkillOf(d, when)) && ForPair(rows[i], when, SkillOf(d, when));
      ConfiguredIff(rows[i].config, d, when, m);
      assert forall j | 0 <= j < i :: !For(rows[j], when, SkillOf(d, when));
    } else {
      assert forall j | 0 <= j < |rows| :: !For(rows[j], when, SkillOf(d, when));
    }
  }

  lemma ChangesForAre(rows: seq<Hook>, d: Declaration, order: seq<string>, m: Marshal, when: string, skill: string)
    requires forall w | w in order :: w in d.hooks
    ensures var changes := ChangesFor(rows, WantedHooks(d, order, m));
            && (HookCreated(when, skill) in changes <==> when in order && skill == SkillOf(d, when) && Absent(rows, when, skill))
            && (HookUpdated(when, skill) in changes <==> when in order && skill == SkillOf(d, when) && Differs(rows, d, when, m))
  {
    hide Absent, Differs, SkillOf, Wanted, ChangeFor, ChangesFor, WantedHooks;
    var wants := WantedHooks(d, order, m);
    WantsAre(d, order, m);
    ChangesAre(rows, wants, HookCreated(when, skill));
    ChangesAre(rows, wants, HookUpdated(when, skill));
    forall i | 0 <= i < |order|
      ensures ChangeFor(rows, wants[i]) ==
              if Absent(rows, order[i], SkillOf(d, order[i])) then [HookCreated(order[i], SkillOf(d, order[i]))]
              else if Differs(rows, d, order[i], m) then [HookUpdated(order[i], SkillOf(d, order[i]))] else []
    {
      ChangeForIs(rows, d, order[i], m);
    }
    if when in order {
      var i :| 0 <= i < |order| && order[i] == when;
      AbsentDoesNotDiffer(rows, d, when, m);
      assert ChangeFor(rows, wants[i]) == [HookCreated(when, SkillOf(d, when))] <==> Absent(rows, when, SkillOf(d, when));
    }
  }

  /** Hooks are reported created where their slot and skill had none, and updated where the first was configured otherwise. */
  lemma HookChangesAre(st: Stores, d: Declaration, order: seq<string>, fold: string -> string, m: Marshal, now: int, when: string, skill: string)
    requires Visits(order, d) && (forall when | when in order :: when in d.hooks)
    requires GoesThrough(st, d, order, fold, m, now) && st.hooks.Some?
    ensures var changes := Reconciled(st, d, order, fold, m, now).1.changes;
            var rows := if d.agent.key in st.agents.rows then HooksOf(st, st.agents.rows[d.agent.key].id) else HooksOf(st, st.agents.next);
            var declared := TrimSpace(d.skill.key) == "" && when in d.hooks && skill == SkillOf(d, when);
            && (HookCreated(when, skill) in changes <==> declared && Absent(rows, when, skill))
            && (HookUpdated(when, skill) in changes <==> declared && Differs(rows, d, when, m))
  {
    hide Target, AgentDeclarations.Valid, AgentsAfter, HooksAfter, Absent, Differs, SkillOf, TrimSpace, ChangesFor, WantedHooks, SameConfig;
    var rows := RowsOf(st.hooks.value, AgentID(st.agents, d.agent.key));
    ChangesForAre(rows, d, order, m, when, skill);
    assert when in order <==> TrimSpace(d.skill.key) == "" && when in d.hooks;
  }

  lemma AbsentDoesNotDiffer(rows: seq<Hook>, d: Declaration, when: string, m: Marshal)
    ensures when in d.hooks && Absent(rows, when, SkillOf(d, when)) ==> !Differs(rows, d, when, m)
  {
  }

  /** The agent is reported created where it had no record, and updated where its record changes or its temperature is no number. */
  lemma AgentChangesAre(st: Stores, d: Declaration, order: seq<string>, fold: string -> string, m: Marshal, now: int, key: string)
    requires KeysMatch(st.agents) && forall when | when in order :: when in d.hooks
    requires GoesThrough(st, d, order, fold, m, now)
    ensures var changes := Reconciled(st, d, order, fold, m, now).1.changes;
            var (before, after) := (ConfigAt(st, d.agent.key), ConfigAt(StoresAfter(st, d, order, fold, m, now), d.agent.key));
            && after.Some?
            && (AgentCreated(key) in changes <==> key == d.agent.key && before.None?)
            && (AgentUpdated(key) in changes <==>
                (key == d.agent.key && before.Some? && (before != after || after.value.modelDefaults.temperature.NaN?)))
  {
    hide Target, AgentDeclarations.Valid, HooksAfter, ChangesFor, ChangeFor, WantedHooks;
    RecordIsTarget(st, d, order, fold, m, now);
    TargetKey(st.agents, d, fold);
    if st.hooks.Some? {
      var rows, wants := RowsOf(st.hooks.value, AgentID(st.agents, d.agent.key)), WantedHooks(d, order, m);
      ChangesAre(rows, wants, AgentCreated(key));
      ChangesAre(rows, wants, AgentUpdated(key));
      OnlyHookChanges(rows, wants);
    }
  }

  lemma OnlyHookChanges(rows: seq<Hook>, wants: seq<HookConfig>)
    ensures forall i, key | 0 <= i < |wants| :: ChangeFor(rows, wants[i]) != [AgentCreated(key)] && ChangeFor(rows, wants[i]) != [AgentUpdated(key)]
  {
    hide FindHook;
  }
}
