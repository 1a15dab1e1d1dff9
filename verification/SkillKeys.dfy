/**
 Fresh skill keys, and the migration of an agent's legacy skills into its skill directory
 (internal/handler/agent_skills_handler.go:604-713), with the guard that blocks a skill's write
 (internal/agentlibrary/applier.go:217-275).
 */
module SkillKeys {
  import opened Text
  import opened Slugs
  import opened Wrappers

  // ---- The first unused key ----

  function Candidate(base: string, n: nat): string {
    base + "_" + Digits(n)
  }

  function Stem(base: string): string {
    if base == "" then "skill" else base
  }

  /** The stem itself when it is free, otherwise the stem with the least free number from 2 on. */
  ghost predicate IsFreshKey(base: string, used: set<string>, key: string) {
    if Stem(base) !in used then key == Stem(base)
    else key !in used && exists n: nat :: n >= 2 && key == Candidate(Stem(base), n) && AllUsed(Stem(base), used, n)
  }

  /** Every candidate numbered below `n` is taken. */
  ghost predicate AllUsed(stem: string, used: set<string>, n: nat) {
    forall m: nat | 2 <= m < n :: Candidate(stem, m) in used
  }

  lemma CandidatesDiffer(stem: string, m: nat, n: nat)
    requires Candidate(stem, m) == Candidate(stem, n)
    ensures m == n
  {
    ParseDigitsOfDigits(m);
    ParseDigitsOfDigits(n);
    assert Candidate(stem, m)[|stem| + 1..] == Digits(m) && Candidate(stem, n)[|stem| + 1..] == Digits(n);
  }

  /** Distinct numbers give distinct candidates, so `used` holds at least as many keys as numbers tried. */
  lemma {:induction false} Pigeonhole(stem: string, used: set<string>, n: nat) returns (tried: set<string>)
    requires n >= 2 && AllUsed(stem, used, n)
    ensures tried <= used && |tried| == n - 2 && n - 2 <= |used|
    ensures forall k | k in tried :: exists m: nat :: 2 <= m < n && k == Candidate(stem, m)
    decreases n
  {
    if n == 2 {
      tried := {};
    } else {
      var fewer := Pigeonhole(stem, used, n - 1);
      var last := Candidate(stem, n - 1);
      if last in fewer {
        var m: nat :| 2 <= m < n - 1 && last == Candidate(stem, m);
        CandidatesDiffer(stem, m, n - 1);
      }
      tried := fewer + {last};
    }
    Smaller(tried, used);
  }

  lemma Smaller(a: set<string>, b: set<string>)
    requires a <= b
    ensures |a| <= |b|
  {
    assert b == a + (b - a);
  }

  method UniqueAgentSkillKey(base: string, used: set<string>) returns (key: string)
    ensures IsFreshKey(base, used, key)
  {
    var stem := Stem(base);
    if stem !in used {
      return stem;
    }
    var i := 2;
    ghost var _ := Pigeonhole(stem, used, 2);
    while Candidate(stem, i) in used
      invariant i >= 2 && AllUsed(stem, used, i) && i - 2 <= |used|
      decreases |used| + 2 - i
    {
      ghost var _ := Pigeonhole(stem, used, i + 1);
      i := i + 1;
    }
    key := Candidate(stem, i);
  }

  lemma FreshKeyIsUnique(base: string, used: set<string>, key: string, other: string)
    requires IsFreshKey(base, used, key) && IsFreshKey(base, used, other)
    ensures key == other && key !in used
  {
    if Stem(base) in used {
      var n: nat :| n >= 2 && key == Candidate(Stem(base), n) && AllUsed(Stem(base), used, n);
      var m: nat :| m >= 2 && other == Candidate(Stem(base), m) && AllUsed(Stem(base), used, m);
      assert n <= m && m <= n;
    }
  }

  /** The name itself where it is free, else the name with the least number from two on that is. */
  lemma FreshKeyIff(base: string, used: set<string>, key: string)
    ensures var stem := if base == "" then "skill" else base;
            IsFreshKey(base, used, key) <==>
            && key !in used
            && (key == stem || (stem in used && exists n: nat :: n >= 2 && key == stem + "_" + FormatInt(n)
                                                              && forall m | 2 <= m < n :: stem + "_" + FormatInt(m) in used))
  {
    var stem := if base == "" then "skill" else base;
    assert forall n: nat :: Candidate(stem, n) == stem + "_" + FormatInt(n);
    forall n: nat
      ensures AllUsed(stem, used, n) <==> forall m | 2 <= m < n :: stem + "_" + FormatInt(m) in used
    {
      assert AllUsed(stem, used, n) ==> forall m: nat | 2 <= m < n :: Candidate(stem, m) in used;
    }
  }

  lemma FreshKeyIsSlug(base: string, used: set<string>, key: string)
    requires IsSlug(base) && IsFreshKey(base, used, key)
    ensures IsSlug(key)
  {
    if base in used {
      var n: nat :| n >= 2 && key == Candidate(base, n) && AllUsed(base, used, n);
      ParseDigitsOfDigits(n);
    }
  }

  // ---- Migrating legacy skills ----

  datatype LegacySkill = LegacySkill(name: string, description: string, tools: string, content: string)

  datatype Package = Package(name: string, description: string, body: string)

  // ---- The guard on the agent's record ----

  datatype AgentRecord = AgentRecord(generatedStatus: string, enabled: bool, archivedAt: Option<int>)

  const BUILT_IN_AGENTS := {"skill_curator", "memory_curator", "goal"}

  predicate IsBuiltIn(agentKey: string) {
    TrimSpace(agentKey) in BUILT_IN_AGENTS
  }

  /** IsProtected for a skill: one owned by an agent is protected with it; `agents` are the stored records, archived ones too. */
  predicate SkillIsProtected(agents: map<string, AgentRecord>, handle: string) {
    var parts := Split(TrimSpace(handle), '/');
    if |parts| != 2 || TrimSpace(parts[0]) == "" || TrimSpace(parts[1]) == "" then false
    else if parts[0] !in agents then IsBuiltIn(parts[0])
    else
      var a := agents[parts[0]];
      || a.generatedStatus == "protected" || IsBuiltIn(parts[0])
      || !a.enabled || a.generatedStatus == "archived" || a.archivedAt.Some?
  }

  /** The agent takes no skills: it is built in, protected, disabled or archived. */
  predicate Guarded(agents: map<string, AgentRecord>, agentKey: string) {
    || agentKey in {"skill_curator", "memory_curator", "goal"}
    || (agentKey in agents && (!agents[agentKey].enabled || agents[agentKey].archivedAt.Some?
                               || agents[agentKey].generatedStatus in {"protected", "archived"}))
  }

  /** Whether a skill's write is blocked depends on its agent alone. */
  lemma OwnedSkillIsProtectedIff(agents: map<string, AgentRecord>, agentKey: string, key: string)
    requires IsSlug(agentKey) && IsSlug(key)
    ensures SkillIsProtected(agents, agentKey + "/" + key) <==> Guarded(agents, agentKey)
  {
    hide TrimLeft, TrimRight, Split;
    SlugHasNoSpace(agentKey);
    SlugHasNoSpace(key);
    var handle := agentKey + "/" + key;
    assert handle[0] == agentKey[0] && agentKey[0] in agentKey;
    assert handle[|handle| - 1] == key[|key| - 1] && key[|key| - 1] in key;
    TrimOfTight(handle, IsSpace);
    assert '/' !in agentKey && '/' !in key;
    SplitWithout(agentKey, '/');
    SplitWithout(key, '/');
    SplitConcat(agentKey, key, '/');
    assert agentKey + ['/'] + key == handle;
  }

  /** A skill that no agent owns is never protected. */
  lemma StandaloneIsNotProtected(agents: map<string, AgentRecord>, handle: string)
    requires '/' !in handle
    ensures !SkillIsProtected(agents, handle)
  {
    hide Split;
    TrimIsTight(handle, IsSpace);
    SplitWithout(TrimSpace(handle), '/');
  }

  // ---- Writing one package ----

  /** Where a write runs into an error: before the guard is asked, or after, leaving something of its own package or not. */
  datatype Fault = NoFault | BeforeGuard | AfterGuard(residue: Option<Package>)

  /** How a write ends. */
  datatype Fate = Written | Blocked | Failed(residue: Option<Package>)

  function FateOf(agents: map<string, AgentRecord>, agentKey: string, key: string, fault: Fault): Fate {
    if !IsSlug(agentKey) || fault.BeforeGuard? then Failed(None)
    else if SkillIsProtected(agents, agentKey + "/" + key) then Blocked
    else if fault.AfterGuard? then Failed(fault.residue)
    else Written
  }

  /** The fate of every key's write. */
  function Fates(agents: map<string, AgentRecord>, agentKey: string, faults: string -> Fault): string -> Fate {
    key => FateOf(agents, agentKey, key, faults(key))
  }

  predicate Convertible(s: LegacySkill) {
    TrimSpace(s.name) != "" && TrimSpace(s.content) != ""
  }

  /** There is something to read in the skill's name and in its content. */
  lemma ConvertibleIff(s: LegacySkill)
    ensures Convertible(s) <==> (exists c :: c in s.name && !IsSpace(c)) && (exists c :: c in s.content && !IsSpace(c))
  {
    NotBlankIff(s.name);
    NotBlankIff(s.content);
  }

  lemma NotBlankIff(s: string)
    ensures TrimSpace(s) != "" <==> exists c :: c in s && !IsSpace(c)
  {
    var lo, hi := TrimSplits(s, IsSpace);
    if lo < hi {
      assert s[lo] == s[lo..hi][0] && s[lo] in s;
    }
    if c :| c in s && !IsSpace(c) {
      var i :| 0 <= i < |s| && s[i] == c;
    }
  }

  function Converted(s: LegacySkill): Package {
    var body := TrimSpace(s.content);
    var tools := TrimSpace(s.tools);
    Package(TrimSpace(s.name), TrimSpace(s.description),
            if tools != "" then "Allowed legacy tools: " + tools + "\n\n" + body else body)
  }

  /** The package has the skill's own name, description and content, and names its tools before the content where it has any. */
  lemma ConvertedIs(s: LegacySkill)
    ensures var package := Converted(s);
            && package.name == TrimSpace(s.name) && package.description == TrimSpace(s.description)
            && package.body == (if TrimSpace(s.tools) == "" then "" else "Allowed legacy tools: " + TrimSpace(s.tools) + "\n\n")
                               + TrimSpace(s.content)
  {
    hide TrimSpace;
  }

  predicate SomeConvertible(skills: seq<LegacySkill>) {
    exists s :: s in skills && Convertible(s)
  }

  /** The skills that stay in the agent's record. */
  function Kept(skills: seq<LegacySkill>): seq<LegacySkill> {
    if skills == [] then []
    else Kept(skills[..|skills| - 1]) + if Convertible(skills[|skills| - 1]) then [] else [skills[|skills| - 1]]
  }

  lemma {:induction false} KeptAre(skills: seq<LegacySkill>)
    ensures forall s :: s in Kept(skills) <==> s in skills && !Convertible(s)
    decreases |skills|
  {
    if skills != [] {
      KeptAre(skills[..|skills| - 1]);
      assert skills == skills[..|skills| - 1] + [skills[|skills| - 1]];
    }
  }

  function FolderAfter(packages: map<string, Package>, key: string, package: Package, fate: Fate): map<string, Package> {
    match fate
    case Written => packages[key := package]
    case Blocked => packages
    case Failed(residue) => if residue.None? then packages else packages[key := residue.value]
  }

  /** The agent's skill directories, each with the package it holds. */
  class SkillFolder {
    var packages: map<string, Package>

    constructor (packages: map<string, Package>)
      ensures this.packages == packages
    {
      this.packages := packages;
    }

    /** A blocked write returns no error either. */
    method WriteAgentOwnedSkill(agents: map<string, AgentRecord>, agentKey: string, key: string, package: Package, fault: Fault)
      returns (ok: bool)
      modifies this
      ensures var fate := FateOf(agents, agentKey, key, fault);
              ok == !fate.Failed? && packages == FolderAfter(old(packages), key, package, fate)
    {
      hide IsSlug, SkillIsProtected;
      if !IsSlug(agentKey) || fault.BeforeGuard? {
        return false;
      }
      if SkillIsProtected(agents, agentKey + "/" + key) {
        return true;
      }
      if fault.AfterGuard? {
        if fault.residue.Some? {
          packages := packages[key := fault.residue.value];
        }
        return false;
      }
      packages := packages[key := package];
      ok := true;
    }
  }

  class Agent {
    const generatedStatus: string
    var skills: seq<LegacySkill>
    var selectableAsPrimary: bool

    constructor (generatedStatus: string, skills: seq<LegacySkill>)
      ensures this.generatedStatus == generatedStatus && this.skills == skills
    {
      this.generatedStatus, this.skills, selectableAsPrimary := generatedStatus, skills, false;
    }
  }

  function KeySet(keys: seq<Option<string>>): (used: set<string>)
    ensures forall k :: k in used <==> Some(k) in keys
  {
    if keys == [] then {}
    else
      var last := keys[|keys| - 1];
      KeySet(keys[..|keys| - 1]) + if last.Some? then {last.value} else {}
  }

  function BaseKey(s: LegacySkill, lower: char -> char): string {
    SlugOf(Words(Lowered(TrimSpace(TrimSpace(s.name)), lower)))
  }

  /** Key number i was given to skill number i: the first key for its name that is neither listed nor given out before. */
  ghost predicate KeysFit(skills: seq<LegacySkill>, keys: seq<Option<string>>, listed: set<string>, lower: char -> char) {
    |keys| <= |skills| && forall i | 0 <= i < |keys| :: KeyFits(skills[i], keys[..i], keys[i], listed, lower)
  }

  ghost predicate KeyFits(s: LegacySkill, earlier: seq<Option<string>>, key: Option<string>, listed: set<string>, lower: char -> char) {
    if Convertible(s) then key.Some? && IsFreshKey(BaseKey(s, lower), listed + KeySet(earlier), key.value) else key.None?
  }

  /** The keys are slugs, no two are the same, and none of them was listed. */
  lemma KeysAreNew(skills: seq<LegacySkill>, keys: seq<Option<string>>, listed: set<string>, lower: char -> char)
    requires KeysFit(skills, keys, listed, lower)
    ensures forall i | 0 <= i < |keys| && keys[i].Some? :: IsSlug(keys[i].value)
    ensures forall i, j | 0 <= i < j < |keys| && keys[i].Some? :: keys[i] != keys[j]
    ensures Avoids(keys, listed)
  {
    hide Convertible, IsSlug, IsFreshKey, BaseKey;
    forall i | 0 <= i < |keys| && keys[i].Some?
      ensures IsSlug(keys[i].value) && keys[i].value !in listed && keys[i] !in keys[..i]
    {
      KeyIsNew(skills[i], listed + KeySet(keys[..i]), keys[i].value, lower);
    }
    forall i, j | 0 <= i < j < |keys| && keys[i].Some?
      ensures keys[i] != keys[j]
    {
      assert keys[..j][i] == keys[i];
    }
  }

  lemma KeyIsNew(s: LegacySkill, used: set<string>, key: string, lower: char -> char)
    requires IsFreshKey(BaseKey(s, lower), used, key)
    ensures IsSlug(key) && key !in used
  {
    DerivedKeyIsSlug(Lowered(TrimSpace(TrimSpace(s.name)), lower));
    FreshKeyIsSlug(BaseKey(s, lower), used, key);
    FreshKeyIsUnique(BaseKey(s, lower), used, key, key);
  }

  ghost predicate Avoids(keys: seq<Option<string>>, names: set<string>) {
    forall i | 0 <= i < |keys| && keys[i].Some? :: keys[i].value !in names
  }

  /** Skill `s` is still in the record or stands, converted, under its key. */
  predicate Saved(s: LegacySkill, key: Option<string>, kept: seq<LegacySkill>, packages: map<string, Package>) {
    s in kept || (key.Some? && key.value in packages && packages[key.value] == Converted(s))
  }

  /** What the folder holds after the skills got these keys: every written package, and the rest as it was. */
  ghost predicate FolderIs(skills: seq<LegacySkill>, keys: seq<Option<string>>, fate: string -> Fate,
                           before: map<string, Package>, after: map<string, Package>)
    requires |keys| <= |skills|
  {
    && (forall i | 0 <= i < |keys| && keys[i].Some? && fate(keys[i].value).Written? ::
          keys[i].value in after && after[keys[i].value] == Converted(skills[i]))
    && (forall k | Untouched(k, keys, fate) :: k in before <==> k in after)
    && (forall k | Untouched(k, keys, fate) && k in before :: after[k] == before[k])
  }

  ghost predicate Untouched(k: string, keys: seq<Option<string>>, fate: string -> Fate) {
    Some(k) !in keys || fate(k).Blocked?
  }

  /** The keys handed out so far, all of them used up and, so far, none of their writes failed. */
  ghost predicate Progress(skills: seq<LegacySkill>, keys: seq<Option<string>>, listed: set<string>, lower: char -> char,
                           fate: string -> Fate, before: map<string, Package>, after: map<string, Package>)
  {
    && KeysFit(skills, keys, listed, lower)
    && FolderIs(skills, keys, fate, before, after)
    && !SomeWriteFailed(keys, fate)
  }

  ghost predicate SomeWriteFailed(keys: seq<Option<string>>, fate: string -> Fate) {
    exists i :: 0 <= i < |keys| && keys[i].Some? && fate(keys[i].value).Failed?
  }

  lemma GiveKey(skills: seq<LegacySkill>, keys: seq<Option<string>>, listed: set<string>, lower: char -> char, key: Option<string>)
    requires KeysFit(skills, keys, listed, lower)
    requires |keys| < |skills| && KeyFits(skills[|keys|], keys, key, listed, lower)
    ensures KeysFit(skills, keys + [key], listed, lower)
  {
    hide KeyFits;
    var keys' := keys + [key];
    forall i | 0 <= i < |keys'|
      ensures KeyFits(skills[i], keys'[..i], keys'[i], listed, lower)
    {
      assert keys'[..i] == keys[..i];
      assert keys[..|keys|] == keys;
    }
  }

  lemma FailuresStep(keys: seq<Option<string>>, key: Option<string>, fate: string -> Fate)
    ensures SomeWriteFailed(keys + [key], fate) == (SomeWriteFailed(keys, fate) || (key.Some? && fate(key.value).Failed?))
  {
    var keys' := keys + [key];
    assert keys'[|keys|] == key;
    if i :| 0 <= i < |keys| && keys[i].Some? && fate(keys[i].value).Failed? {
      assert keys'[i] == keys[i];
    }
  }

  lemma KeepOne(skills: seq<LegacySkill>, keys: seq<Option<string>>, listed: set<string>, lower: char -> char,
                fate: string -> Fate, before: map<string, Package>, after: map<string, Package>)
    requires Progress(skills, keys, listed, lower, fate, before, after)
    requires |keys| < |skills| && !Convertible(skills[|keys|])
    ensures Progress(skills, keys + [None], listed, lower, fate, before, after)
  {
    hide KeysFit, FolderIs, SomeWriteFailed, Convertible;
    GiveKey(skills, keys, listed, lower, None);
    FailuresStep(keys, None, fate);
    KeepOneFolder(skills, keys, fate, before, after);
  }

  lemma KeepOneFolder(skills: seq<LegacySkill>, keys: seq<Option<string>>, fate: string -> Fate,
                      before: map<string, Package>, after: map<string, Package>)
    requires |keys| < |skills| && FolderIs(skills, keys, fate, before, after)
    ensures FolderIs(skills, keys + [None], fate, before, after)
  {
    hide Converted;
    forall k | Untouched(k, keys + [None], fate)
      ensures Untouched(k, keys, fate)
    {
      assert Some(k) in keys ==> Some(k) in keys + [None];
    }
  }

  lemma WriteOne(skills: seq<LegacySkill>, keys: seq<Option<string>>, listed: set<string>, lower: char -> char,
                 fate: string -> Fate, before: map<string, Package>, after: map<string, Package>, key: string)
    requires Progress(skills, keys, listed, lower, fate, before, after)
    requires |keys| < |skills| && Convertible(skills[|keys|])
    requires IsFreshKey(BaseKey(skills[|keys|], lower), listed + KeySet(keys), key)
    ensures var keys', after' := keys + [Some(key)], FolderAfter(after, key, Converted(skills[|keys|]), fate(key));
            if fate(key).Failed?
            then KeysFit(skills, keys', listed, lower) && FolderIs(skills, keys', fate, before, after') && SomeWriteFailed(keys', fate)
            else Progress(skills, keys', listed, lower, fate, before, after')
  {
    hide KeysFit, FolderIs, SomeWriteFailed, Convertible, Converted, BaseKey, IsFreshKey;
    GiveKey(skills, keys, listed, lower, Some(key));
    FailuresStep(keys, Some(key), fate);
    KeyIsNew(skills[|keys|], listed + KeySet(keys), key, lower);
    KeysFitLength(skills, keys, listed, lower);
    WriteOneFolder(skills, keys, fate, before, after, key);
  }

  lemma KeysFitLength(skills: seq<LegacySkill>, keys: seq<Option<string>>, listed: set<string>, lower: char -> char)
    requires KeysFit(skills, keys, listed, lower)
    ensures |keys| <= |skills|
  {
  }

  lemma WriteOneFolder(skills: seq<LegacySkill>, keys: seq<Option<string>>, fate: string -> Fate,
                       before: map<string, Package>, after: map<string, Package>, key: string)
    requires |keys| < |skills| && FolderIs(skills, keys, fate, before, after) && Some(key) !in keys
    ensures FolderIs(skills, keys + [Some(key)], fate, before, FolderAfter(after, key, Converted(skills[|keys|]), fate(key)))
  {
    hide Converted;
    var keys' := keys + [Some(key)];
    forall k | Untouched(k, keys', fate)
      ensures Untouched(k, keys, fate) && (k == key ==> fate(key).Blocked?)
    {
      assert Some(k) in keys ==> Some(k) in keys';
      assert keys'[|keys|] == Some(key);
    }
  }

  datatype Outcome = Skipped | Done | WriteFailed | UpdateFailed

  /**
   `listing` is what reading the skill directory gave: None when it cannot be read, in which
   case no name counts as used.  `agents` are the stored records, `faults` where a key's write
   runs into an error, and `updates` says whether the record can be stored.
   */
  method MigrateLegacyAgentSkills(agent: Agent, agentKey: string, agents: map<string, AgentRecord>, folder: SkillFolder,
                                  listing: Option<set<string>>, faults: string -> Fault, updates: bool, lower: char -> char)
    returns (outcome: Outcome, ghost keys: seq<Option<string>>)
    modifies agent, folder
    ensures outcome.Skipped? <==> agent.generatedStatus == "protected"
    ensures outcome.Skipped? || outcome.WriteFailed? ==>
              agent.skills == old(agent.skills) && agent.selectableAsPrimary == old(agent.selectableAsPrimary)
    ensures outcome.Skipped? ==> keys == [] && folder.packages == old(folder.packages)
    ensures KeysFit(old(agent.skills), keys, Listed(listing), lower)
    ensures FolderIs(old(agent.skills), keys, Fates(agents, agentKey, faults), old(folder.packages), folder.packages)
    ensures outcome.WriteFailed? <==> SomeWriteFailed(keys, Fates(agents, agentKey, faults))
    ensures outcome.Done? || outcome.UpdateFailed? ==> |keys| == |old(agent.skills)| && agent.skills == Kept(old(agent.skills))
    ensures outcome.UpdateFailed? <==>
              !updates && !outcome.Skipped? && !outcome.WriteFailed? && SomeConvertible(old(agent.skills))
    ensures outcome.Done? || outcome.UpdateFailed? ==>
              agent.selectableAsPrimary == (old(agent.selectableAsPrimary) || SomeConvertible(old(agent.skills)))
  {
    hide Progress, KeysFit, FolderIs, SomeWriteFailed, IsSlug, Convertible, Converted, FolderAfter, IsFreshKey;
    hide Kept, SlugOf, Words, TrimSpace, BaseKey, KeySet, FateOf, SomeConvertible;
    ghost var fate := Fates(agents, agentKey, faults);
    keys := [];
    NothingYet(agent.skills, Listed(listing), lower, fate, folder.packages);
    ProgressMeans(agent.skills, keys, Listed(listing), lower, fate, folder.packages, folder.packages);
    if agent.generatedStatus == "protected" {
      return Skipped, keys;
    }
    var used := Listed(listing);
    var skills := agent.skills;
    var remaining := [];
    var converted := false;
    for i := 0 to |skills|
      invariant agent.skills == skills == old(agent.skills) && agent.selectableAsPrimary == old(agent.selectableAsPrimary)
      invariant |keys| == i && Progress(skills, keys, Listed(listing), lower, fate, old(folder.packages), folder.packages)
      invariant used == Listed(listing) + KeySet(keys)
      invariant remaining == Kept(skills[..i]) && (!converted ==> remaining == skills[..i])
      invariant converted == SomeConvertible(skills[..i])
    {
      KeptStep(skills, i);
      var s := skills[i];
      if !Convertible(s) {
        KeepOne(skills, keys, Listed(listing), lower, fate, old(folder.packages), folder.packages);
        KeySetStep(keys, None);
        remaining := remaining + [s];
        keys := keys + [None];
      } else {
        var base := SlugifySkillName(TrimSpace(s.name), lower);
        BaseKeyIs(s, lower);
        var handle := UniqueAgentSkillKey(base, used);
        WriteOne(skills, keys, Listed(listing), lower, fate, old(folder.packages), folder.packages, handle);
        KeySetStep(keys, Some(handle));
        used := used + {handle};
        keys := keys + [Some(handle)];
        var ok := folder.WriteAgentOwnedSkill(agents, agentKey, handle, Converted(s), faults(handle));
        ProgressMeans(skills, keys, Listed(listing), lower, fate, old(folder.packages), folder.packages);
        if !ok {
          return WriteFailed, keys;
        }
        converted := true;
      }
    }
    assert skills[..|skills|] == skills;
    ProgressMeans(skills, keys, Listed(listing), lower, fate, old(folder.packages), folder.packages);
    if !converted {
      return Done, keys;
    }
    agent.skills := remaining;
    agent.selectableAsPrimary := true;
    outcome := if updates then Done else UpdateFailed;
  }

  function Listed(listing: Option<set<string>>): set<string> {
    if listing.Some? then listing.value else {}
  }

  lemma BaseKeyIs(s: LegacySkill, lower: char -> char)
    ensures BaseKey(s, lower) == SlugOf(Words(Lowered(TrimSpace(TrimSpace(s.name)), lower)))
  {
  }

  lemma NothingYet(skills: seq<LegacySkill>, listed: set<string>, lower: char -> char, fate: string -> Fate,
                   packages: map<string, Package>)
    ensures Progress(skills, [], listed, lower, fate, packages, packages) && Kept([]) == [] && KeySet([]) == {}
    ensures !SomeConvertible([])
  {
  }

  lemma KeySetStep(keys: seq<Option<string>>, key: Option<string>)
    ensures KeySet(keys + [key]) == KeySet(keys) + if key.Some? then {key.value} else {}
  {
    assert (keys + [key])[..|keys|] == keys;
  }

  lemma KeptStep(skills: seq<LegacySkill>, i: nat)
    requires i < |skills|
    ensures Kept(skills[..i + 1]) == Kept(skills[..i]) + if Convertible(skills[i]) then [] else [skills[i]]
    ensures skills[..i + 1] == skills[..i] + [skills[i]]
    ensures SomeConvertible(skills[..i + 1]) == (SomeConvertible(skills[..i]) || Convertible(skills[i]))
  {
    assert skills[..i + 1][..i] == skills[..i];
  }

  lemma ProgressMeans(skills: seq<LegacySkill>, keys: seq<Option<string>>, listed: set<string>, lower: char -> char,
                      fate: string -> Fate, before: map<string, Package>, after: map<string, Package>)
    ensures Progress(skills, keys, listed, lower, fate, before, after) ==>
              KeysFit(skills, keys, listed, lower) && FolderIs(skills, keys, fate, before, after) && !SomeWriteFailed(keys, fate)
  {
  }

  // ---- What is lost ----

  /** Without a failed write, the writes are all blocked or all done, as the guard says. */
  lemma FatesFollowGuard(skills: seq<LegacySkill>, keys: seq<Option<string>>, listed: set<string>, lower: char -> char,
                         agents: map<string, AgentRecord>, agentKey: string, faults: string -> Fault)
    requires KeysFit(skills, keys, listed, lower) && !SomeWriteFailed(keys, Fates(agents, agentKey, faults))
    ensures forall i | 0 <= i < |keys| && keys[i].Some? ::
              Fates(agents, agentKey, faults)(keys[i].value) == if Guarded(agents, agentKey) then Blocked else Written
  {
    hide KeysFit, Guarded, SkillIsProtected, IsSlug;
    KeysAreNew(skills, keys, listed, lower);
    forall i | 0 <= i < |keys| && keys[i].Some?
      ensures Fates(agents, agentKey, faults)(keys[i].value) == if Guarded(agents, agentKey) then Blocked else Written
    {
      assert !Fates(agents, agentKey, faults)(keys[i].value).Failed?;
      OwnedSkillIsProtectedIff(agents, agentKey, keys[i].value);
    }
  }

  lemma KeysAreGiven(skills: seq<LegacySkill>, keys: seq<Option<string>>, listed: set<string>, lower: char -> char)
    requires KeysFit(skills, keys, listed, lower)
    ensures forall i | 0 <= i < |keys| :: keys[i].Some? <==> Convertible(skills[i])
  {
    hide Convertible, IsFreshKey, BaseKey, KeySet;
  }

  /**
   What a migration comes to whose writes run into no error, given that the directory could be
   read: every legacy skill is saved exactly when there is none to convert or the agent's
   record takes skills.  Under the guard every skill to convert is lost, and nothing is written.
   */
  lemma NothingLostIffUnguarded(skills: seq<LegacySkill>, keys: seq<Option<string>>, lower: char -> char,
                                agents: map<string, AgentRecord>, agentKey: string, faults: string -> Fault,
                                before: map<string, Package>, after: map<string, Package>)
    requires KeysFit(skills, keys, before.Keys, lower) && |keys| == |skills|
    requires FolderIs(skills, keys, Fates(agents, agentKey, faults), before, after)
    requires !SomeWriteFailed(keys, Fates(agents, agentKey, faults))
    ensures (forall i | 0 <= i < |skills| :: Saved(skills[i], keys[i], Kept(skills), after))
       <==> !Guarded(agents, agentKey) || forall s | s in skills :: !Convertible(s)
    ensures Guarded(agents, agentKey) ==> after == before && forall i | 0 <= i < |skills| ::
              Saved(skills[i], keys[i], Kept(skills), after) <==> !Convertible(skills[i])
  {
    hide Convertible, Converted, IsFreshKey, BaseKey, IsSlug, KeySet, Guarded, KeysFit, SomeWriteFailed, Fates;
    var fate := Fates(agents, agentKey, faults);
    KeptAre(skills);
    KeysAreNew(skills, keys, before.Keys, lower);
    KeysAreGiven(skills, keys, before.Keys, lower);
    FatesFollowGuard(skills, keys, before.Keys, lower, agents, agentKey, faults);
    forall i | 0 <= i < |skills|
      ensures Saved(skills[i], keys[i], Kept(skills), after) <==> (Convertible(skills[i]) ==> !Guarded(agents, agentKey))
    {
      if keys[i].Some? && Guarded(agents, agentKey) {
        assert Untouched(keys[i].value, keys, fate);
      }
    }
    if Guarded(agents, agentKey) {
      AllBlocked(skills, keys, fate, before, after);
    }
  }

  lemma AllBlocked(skills: seq<LegacySkill>, keys: seq<Option<string>>, fate: string -> Fate,
                   before: map<string, Package>, after: map<string, Package>)
    requires |keys| <= |skills| && FolderIs(skills, keys, fate, before, after)
    requires forall i | 0 <= i < |keys| && keys[i].Some? :: fate(keys[i].value).Blocked?
    ensures after == before
  {
    hide Converted;
    forall k: string
      ensures Untouched(k, keys, fate)
    {
      if Some(k) in keys {
        var i :| 0 <= i < |keys| && keys[i] == Some(k);
      }
    }
    assert after.Keys == before.Keys;
  }

  /** A disabled agent that is not marked protected loses every skill there is to convert. */
  lemma DisabledAgentLosesItsSkills(skills: seq<LegacySkill>, keys: seq<Option<string>>, lower: char -> char,
                                    agents: map<string, AgentRecord>, agentKey: string, faults: string -> Fault,
                                    before: map<string, Package>, after: map<string, Package>)
    requires KeysFit(skills, keys, before.Keys, lower) && |keys| == |skills|
    requires FolderIs(skills, keys, Fates(agents, agentKey, faults), before, after)
    requires !SomeWriteFailed(keys, Fates(agents, agentKey, faults))
    requires agentKey in agents && !agents[agentKey].enabled
    ensures after == before && forall s | s in skills && Convertible(s) :: s !in Kept(skills)
    ensures forall i | 0 <= i < |skills| && Convertible(skills[i]) :: !Saved(skills[i], keys[i], Kept(skills), after)
  {
    hide Convertible, Converted, KeysFit, FolderIs, SomeWriteFailed, Fates;
    KeptAre(skills);
    NothingLostIffUnguarded(skills, keys, lower, agents, agentKey, faults, before, after);
  }

  // ---- What is overwritten ----

  /** This key was given out although a package has it, and its write lands. */
  ghost predicate Overwrites(skills: seq<LegacySkill>, keys: seq<Option<string>>, fate: string -> Fate,
                             before: map<string, Package>, i: nat)
    requires i < |keys| <= |skills|
  {
    keys[i].Some? && keys[i].value in before && fate(keys[i].value).Written? && before[keys[i].value] != Converted(skills[i])
  }

  /**
   The packages from before are all still there and unchanged exactly when no key given out
   is that of a different package with a write that lands; a directory that could be read rules
   that out.
   */
  lemma EarlierPackagesStayIff(skills: seq<LegacySkill>, keys: seq<Option<string>>, listed: set<string>, lower: char -> char,
                               fate: string -> Fate, before: map<string, Package>, after: map<string, Package>)
    requires KeysFit(skills, keys, listed, lower) && FolderIs(skills, keys, fate, before, after) && !SomeWriteFailed(keys, fate)
    ensures (forall k | k in before :: k in after && after[k] == before[k])
       <==> forall i | 0 <= i < |keys| :: !Overwrites(skills, keys, fate, before, i)
    ensures before.Keys <= listed ==> forall k | k in before :: k in after && after[k] == before[k]
  {
    hide Convertible, Converted, KeyFits, KeySet, IsSlug;
    KeysAreNew(skills, keys, listed, lower);
    if forall i | 0 <= i < |keys| :: !Overwrites(skills, keys, fate, before, i) {
      forall k | k in before
        ensures k in after && after[k] == before[k]
      {
        if !Untouched(k, keys, fate) {
          var i :| 0 <= i < |keys| && keys[i] == Some(k);
          assert !Overwrites(skills, keys, fate, before, i);
        }
      }
    }
  }

  /** When the directory cannot be read no name counts as taken: a package with the first skill's name is overwritten. */
  lemma UnreadableFolderIsOverwritten(skills: seq<LegacySkill>, keys: seq<Option<string>>, lower: char -> char,
                                      agents: map<string, AgentRecord>, agentKey: string, faults: string -> Fault,
                                      before: map<string, Package>, after: map<string, Package>)
    requires KeysFit(skills, keys, Listed(None), lower) && keys != [] && Convertible(skills[0])
    requires FolderIs(skills, keys, Fates(agents, agentKey, faults), before, after)
    requires !SomeWriteFailed(keys, Fates(agents, agentKey, faults)) && !Guarded(agents, agentKey)
    requires BaseKey(skills[0], lower) in before && before[BaseKey(skills[0], lower)] != Converted(skills[0])
    ensures var base := BaseKey(skills[0], lower);
            Overwrites(skills, keys, Fates(agents, agentKey, faults), before, 0)
            && base in after && after[base] == Converted(skills[0]) != before[base]
  {
    hide Convertible, Converted, Words, Guarded, SomeWriteFailed, Fates;
    var base := BaseKey(skills[0], lower);
    DerivedKeyIsSlug(Lowered(TrimSpace(TrimSpace(skills[0].name)), lower));
    FatesFollowGuard(skills, keys, {}, lower, agents, agentKey, faults);
    assert KeyFits(skills[0], keys[..0], keys[0], {}, lower);
    assert keys[..0] == [] && Stem(base) == base;
  }
}
