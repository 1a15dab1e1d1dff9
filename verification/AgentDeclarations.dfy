/**
 From a declaration to the agent record and the hooks it asks for
 (internal/agentlibrary/applier.go:144-188, 280-525).

 A nil slice and an empty one are one empty sequence here: the code evens out the fields where
 its comparison would tell them apart.  JSON texts come from functions.
 */
module AgentDeclarations {
  import opened Floats
  import opened Slugs
  import opened Text
  import opened Wrappers

  // ---- Declarations ----

  datatype AgentBlock = AgentBlock(key: string, name: string, displayName: string, description: string, enabled: Option<bool>,
                                   selectableAsPrimary: bool, scope: string, projectID: string, systemPrompt: string)

  datatype SkillBlock = SkillBlock(key: string, scope: string, description: string)

  datatype ScopedFiles = ScopedFiles(directory: string, permissions: seq<string>)

  datatype ToolConfig = ToolConfig(scopedFiles: seq<ScopedFiles>, skipDefaultTools: bool, disableRuntimeWorktree: bool)

  datatype ModelDefaults = ModelDefaults(model: string, temperature: Float, maxTokens: int)

  datatype Permission =
    | ReadTaskPrompt | ReadTaskExecution | ReadProjectMemory | WriteProjectMemory | ReadAgents | WriteAgents
    | ReadSkills | WriteSkills | ReadRepositoryFiles | WriteRepositoryFiles | UseShellOrTools

  datatype HookBlock = HookBlock(enabled: Option<bool>, skill: string, blocking: bool, outputContract: string, promptOverride: string,
                                 scheduleCron: string, schedule: string, runPolicy: string, permissions: map<string, bool>, payload: seq<string>)

  datatype Declaration = Declaration(dependenciesValid: bool, kind: string, version: int, agent: AgentBlock, skill: SkillBlock,
                                     tools: seq<string>, toolConfig: ToolConfig, plugins: seq<string>, mcpServers: seq<string>,
                                     permissions: set<Permission>, modelDefaults: ModelDefaults,
                                     hooks: map<string, HookBlock>, evidenceRefs: seq<string>)

  predicate IsRoot(d: Declaration) {
    TrimSpace(d.skill.key) == ""
  }

  const SLOTS := {"primary", "route_task", "before_run", "after_complete", "scheduled"}
  const CONTRACTS := {"", "selected_mode", "selected_skills", "selected_memories", "context_block", "activity_summary",
                      "learning_summary", "library_update_summary"}

  predicate Valid(d: Declaration) {
    && d.dependenciesValid
    && TrimSpace(d.kind) == "openvibely.agent_skill" && d.version > 0
    && (TrimSpace(d.agent.key) != "" ==> IsSlug(d.agent.key))
    && (IsRoot(d) ==> IsSlug(d.agent.key))
    && (TrimSpace(d.skill.key) != "" ==> IsSlug(d.skill.key))
    && d.skill.scope in {"", "global", "project"}
    && d.hooks.Keys <= SLOTS
    && forall when | when in d.hooks && when != "primary" :: d.hooks[when].outputContract in CONTRACTS
  }

  // ---- Agent records ----

  datatype MCPServer = MCPServer(name: string, kind: string, command: seq<string>, url: string,
                                 env: map<string, string>, headers: map<string, string>)

  datatype SkillConfig = SkillConfig(name: string, description: string, tools: string, content: string)

  /** All of a record that counts as its configuration: not its ID and not its times. */
  datatype AgentConfig = AgentConfig(name: string, description: string, systemPrompt: string, model: string, tools: seq<string>,
                                     toolConfig: ToolConfig, plugins: seq<string>, mcpServers: seq<MCPServer>, systemKind: string,
                                     skills: seq<SkillConfig>, key: string, scope: string, projectID: string,
                                     selectableAsPrimary: bool, enabled: bool, permissions: set<Permission>,
                                     modelDefaults: ModelDefaults, createdBy: string, generatedStatus: string,
                                     absorbedInto: string, sourceRefs: seq<string>, archivedAt: Option<int>)

  datatype Agent = Agent(id: nat, createdAt: int, config: AgentConfig)

  /** agentConfigurationEqual: reflect.DeepEqual compares the temperature as a float. */
  predicate SameConfig(a: AgentConfig, b: AgentConfig) {
    a == b && Same(a.modelDefaults.temperature, b.modelDefaults.temperature)
  }

  function FirstNonEmpty(a: string, b: string): string {
    if a != "" then a else b
  }

  function DisplayName(a: AgentBlock): string {
    FirstNonEmpty(a.displayName, a.name)
  }

  /** Entries trimmed, blank ones dropped. */
  function NonBlank(items: seq<string>): seq<string> {
    if items == [] then []
    else (if TrimSpace(items[0]) == "" then [] else [TrimSpace(items[0])]) + NonBlank(items[1..])
  }

  /** The list is read entry by entry; a blank entry gives nothing, any other its trimmed text. */
  lemma {:induction false} NonBlankAre(before: seq<string>, item: string, after: seq<string>)
    ensures NonBlank(before + [item] + after) == NonBlank(before) + (if TrimSpace(item) != "" then [TrimSpace(item)] else []) + NonBlank(after)
    ensures NonBlank([]) == []
    decreases |before|
  {
    hide TrimSpace;
    var all := before + [item] + after;
    if before == [] {
      assert all[1..] == after;
    } else {
      NonBlankAre(before[1..], item, after);
      assert all[1..] == before[1..] + [item] + after;
    }
  }

  function ServersNamed(names: seq<string>): seq<MCPServer> {
    seq(|names|, i requires 0 <= i < |names| => MCPServer(names[i], "", [], "", map[], map[]))
  }

  function TrimmedToolConfig(c: ToolConfig): ToolConfig {
    c.(scopedFiles := seq(|c.scopedFiles|, i requires 0 <= i < |c.scopedFiles| =>
      ScopedFiles(TrimSpace(c.scopedFiles[i].directory), c.scopedFiles[i].permissions)))
  }

  predicate NoDefaults(m: ModelDefaults) {
    m.model == "" && Same(m.temperature, Finite(0.0)) && m.maxTokens == 0
  }

  predicate NoToolConfig(c: ToolConfig) {
    c.scopedFiles == [] && !c.skipDefaultTools && !c.disableRuntimeWorktree
  }

  /** The record a root declaration asks for; what it leaves out is kept from the existing one. */
  function FromRoot(d: Declaration, existing: Option<AgentConfig>): AgentConfig {
    var bare := AgentConfig(
      DisplayName(d.agent), d.agent.description, d.agent.systemPrompt, FirstNonEmpty(d.modelDefaults.model, "inherit"),
      NonBlank(d.tools), TrimmedToolConfig(d.toolConfig), NonBlank(d.plugins), ServersNamed(NonBlank(d.mcpServers)), "",
      if existing.Some? then existing.value.skills else [],
      d.agent.key, FirstNonEmpty(d.agent.scope, "global"), d.agent.projectID, d.agent.selectableAsPrimary,
      if d.agent.enabled.Some? then d.agent.enabled.value else true,
      d.permissions, d.modelDefaults, "", "", "", d.evidenceRefs, None);
    if existing.None? then bare
    else
      var kept := existing.value;
      bare.(systemPrompt := FirstNonEmpty(bare.systemPrompt, kept.systemPrompt),
            description := FirstNonEmpty(bare.description, kept.description),
            model := if bare.model == "inherit" && kept.model != "" then kept.model else bare.model,
            tools := if d.tools == [] then kept.tools else bare.tools,
            plugins := if d.plugins == [] then kept.plugins else bare.plugins,
            mcpServers := if d.mcpServers == [] then kept.mcpServers else bare.mcpServers,
            toolConfig := if NoToolConfig(d.toolConfig) then kept.toolConfig else bare.toolConfig,
            permissions := if d.permissions == {} then kept.permissions else bare.permissions,
            modelDefaults := if NoDefaults(d.modelDefaults) then kept.modelDefaults else bare.modelDefaults,
            sourceRefs := if d.evidenceRefs == [] then kept.sourceRefs else bare.sourceRefs,
            enabled := bare.enabled && kept.generatedStatus != "archived")
  }

  // ---- Skills named in a record ----

  /** `fold` maps strings that strings.EqualFold calls equal to one. */
  function IndexNamed(skills: seq<SkillConfig>, name: string, fold: string -> string): (i: nat)
    ensures i <= |skills| && (i < |skills| ==> fold(skills[i].name) == fold(name))
    ensures forall k | 0 <= k < i :: fold(skills[k].name) != fold(name)
  {
    if skills == [] || fold(skills[0].name) == fold(name) then 0
    else 1 + IndexNamed(skills[1..], name, fold)
  }

  function JoinedTools(tools: seq<string>): string {
    Join(tools, ',')
  }

  /** The declared skill in place of the one with its name, or at the end. */
  function MergedSkill(skills: seq<SkillConfig>, d: Declaration, fold: string -> string): seq<SkillConfig> {
    if d.skill.key == "" then skills
    else
      var i := IndexNamed(skills, d.skill.key, fold);
      if i < |skills| then
        skills[i := SkillConfig(d.skill.key, FirstNonEmpty(d.skill.description, skills[i].description),
                                FirstNonEmpty(JoinedTools(d.tools), skills[i].tools), skills[i].content)]
      else skills + [SkillConfig(d.skill.key, d.skill.description, JoinedTools(d.tools), "")]
  }

  lemma IndexIs(skills: seq<SkillConfig>, name: string, fold: string -> string, i: nat)
    requires i <= |skills| && (i < |skills| ==> fold(skills[i].name) == fold(name))
    requires forall k | 0 <= k < i :: fold(skills[k].name) != fold(name)
    ensures IndexNamed(skills, name, fold) == i
  {
  }

  /** Merging a skill twice is merging it once, and the other skills stay where they were. */
  lemma MergeIsIdempotent(skills: seq<SkillConfig>, d: Declaration, fold: string -> string)
    ensures MergedSkill(MergedSkill(skills, d, fold), d, fold) == MergedSkill(skills, d, fold)
    ensures forall k | 0 <= k < |skills| && fold(skills[k].name) != fold(d.skill.key) ::
              k < |MergedSkill(skills, d, fold)| && MergedSkill(skills, d, fold)[k] == skills[k]
  {
    if d.skill.key != "" {
      var i := IndexNamed(skills, d.skill.key, fold);
      var merged := MergedSkill(skills, d, fold);
      assert forall k | 0 <= k < i :: merged[k] == skills[k];
      IndexIs(merged, d.skill.key, fold, i);
      assert merged[i := merged[i]] == merged;
    }
  }

  /** The declared skill stands where the first of its name stood, or at the end, and takes over what the declaration leaves out. */
  lemma MergedSkillIs(skills: seq<SkillConfig>, d: Declaration, fold: string -> string, i: nat)
    requires d.skill.key != "" && i <= |skills| && (i < |skills| ==> fold(skills[i].name) == fold(d.skill.key))
    requires forall k | 0 <= k < i :: fold(skills[k].name) != fold(d.skill.key)
    ensures var merged, was := MergedSkill(skills, d, fold), if i < |skills| then Some(skills[i]) else None;
            && |merged| == (if i < |skills| then |skills| else |skills| + 1) && i < |merged|
            && merged[i].name == d.skill.key
            && merged[i].description == (if d.skill.description != "" then d.skill.description
                                         else if was.Some? then was.value.description else "")
            && merged[i].tools == (if Join(d.tools, ',') != "" then Join(d.tools, ',') else if was.Some? then was.value.tools else "")
            && merged[i].content == (if was.Some? then was.value.content else "")
            && forall k | 0 <= k < |skills| && k != i :: merged[k] == skills[k]
  {
    hide Join;
    IndexIs(skills, d.skill.key, fold, i);
  }

  function FromSkill(d: Declaration, existing: Option<AgentConfig>, fold: string -> string): AgentConfig {
    if existing.Some? then existing.value.(skills := MergedSkill(existing.value.skills, d, fold))
    else AgentConfig(
      FirstNonEmpty(DisplayName(d.agent), d.agent.key), d.agent.description, d.agent.systemPrompt, "inherit", [],
      ToolConfig([], false, false), [], [], "", MergedSkill([], d, fold), d.agent.key, FirstNonEmpty(d.agent.scope, "global"),
      d.agent.projectID, d.agent.selectableAsPrimary, true, {}, ModelDefaults("", Finite(0.0), 0), "agent", "generated", "", [], None)
  }

  function AgentFromDeclaration(d: Declaration, existing: Option<AgentConfig>, fold: string -> string): AgentConfig {
    if IsRoot(d) then FromRoot(d, existing) else FromSkill(d, existing, fold)
  }

  /** The record that is created, or that the existing one is compared with: whose it is, and its status, are kept. */
  function Target(d: Declaration, existing: Option<AgentConfig>, fold: string -> string): AgentConfig {
    var target := AgentFromDeclaration(d, existing, fold);
    if existing.None? then target.(createdBy := "agent", generatedStatus := FirstNonEmpty(target.generatedStatus, "generated"))
    else target.(createdBy := FirstNonEmpty(existing.value.createdBy, "agent"),
                 generatedStatus := FirstNonEmpty(existing.value.generatedStatus, target.generatedStatus))
  }

  /** A target is its own target: the same declaration asks nothing more of it. */
  lemma TargetIsFixed(d: Declaration, existing: Option<AgentConfig>, fold: string -> string)
    ensures Target(d, Some(Target(d, existing, fold)), fold) == Target(d, existing, fold)
  {
    hide TrimSpace, NonBlank, ServersNamed, TrimmedToolConfig, JoinedTools;
    if IsRoot(d) {
      RootIsFixed(d, existing);
    } else {
      MergeIsIdempotent(if existing.Some? then existing.value.skills else [], d, fold);
    }
  }

  /** Whatever status and owner the record then gets, what a root declaration left out is already there. */
  lemma RootIsFixed(d: Declaration, existing: Option<AgentConfig>)
    ensures var first := FromRoot(d, existing);
            forall createdBy, status ::
              (status == "archived" <==> existing.Some? && existing.value.generatedStatus == "archived") ==>
              FromRoot(d, Some(first.(createdBy := createdBy, generatedStatus := status))) == first
  {
    hide NonBlank, ServersNamed, TrimmedToolConfig;
    NothingKept(d);
  }

  lemma NothingKept(d: Declaration)
    ensures d.tools == [] ==> NonBlank(d.tools) == []
    ensures d.plugins == [] ==> NonBlank(d.plugins) == []
    ensures d.mcpServers == [] ==> ServersNamed(NonBlank(d.mcpServers)) == []
    ensures NoToolConfig(d.toolConfig) ==> TrimmedToolConfig(d.toolConfig) == d.toolConfig
  {
  }

  /** The declaration leaves every part out that a record may already have. */
  predicate IsSilent(d: Declaration) {
    && d.agent.description == "" && d.agent.systemPrompt == "" && d.tools == [] && d.plugins == [] && d.mcpServers == []
    && NoToolConfig(d.toolConfig) && d.permissions == {} && NoDefaults(d.modelDefaults) && d.evidenceRefs == []
  }

  /** The declaration sets every one of them. */
  predicate IsComplete(d: Declaration) {
    && d.agent.description != "" && d.agent.systemPrompt != "" && d.tools != [] && d.plugins != [] && d.mcpServers != []
    && !NoToolConfig(d.toolConfig) && d.permissions != {} && d.modelDefaults.model !in {"", "inherit"} && d.evidenceRefs != []
  }

  /**
   A silent root declaration moves only what it cannot leave out: name, key, scope, project,
   selectability and whether the agent is enabled.  It also clears the system kind, the note
   of absorption and the time of archiving, which no declaration can express.
   */
  lemma SilentDeclarationKeepsRecord(d: Declaration, existing: AgentConfig, fold: string -> string)
    requires IsRoot(d) && IsSilent(d)
    ensures Target(d, Some(existing), fold) == existing.(
              name := DisplayName(d.agent), key := d.agent.key, scope := FirstNonEmpty(d.agent.scope, "global"),
              projectID := d.agent.projectID, selectableAsPrimary := d.agent.selectableAsPrimary,
              enabled := (d.agent.enabled.None? || d.agent.enabled.value) && existing.generatedStatus != "archived",
              model := FirstNonEmpty(existing.model, "inherit"), createdBy := FirstNonEmpty(existing.createdBy, "agent"),
              systemKind := "", absorbedInto := "", archivedAt := None)
  {
    hide NonBlank, ServersNamed, TrimmedToolConfig, TrimSpace;
    NothingKept(d);
  }

  /** A complete root declaration decides the record whatever was there, but for the skills and an archived agent staying disabled. */
  lemma CompleteDeclarationDecides(d: Declaration, a: Option<AgentConfig>, b: Option<AgentConfig>)
    requires IsComplete(d)
    ensures FromRoot(d, a).(skills := [], enabled := true) == FromRoot(d, b).(skills := [], enabled := true)
  {
    hide NonBlank, ServersNamed, TrimmedToolConfig;
  }

  /** The temperature the target ends up with. */
  function TargetTemperature(d: Declaration, existing: Option<AgentConfig>): Float {
    if IsRoot(d) && (existing.None? || !NoDefaults(d.modelDefaults)) then d.modelDefaults.temperature
    else if existing.Some? then existing.value.modelDefaults.temperature
    else Finite(0.0)
  }

  /** Once stored, the target counts as unchanged exactly when its temperature is a number. */
  lemma StoredTargetIsUnchangedIff(d: Declaration, existing: Option<AgentConfig>, fold: string -> string)
    ensures var stored := Target(d, existing, fold);
            SameConfig(stored, Target(d, Some(stored), fold)) <==> !TargetTemperature(d, existing).NaN?
  {
    hide MergedSkill;
    TargetIsFixed(d, existing, fold);
  }
}
