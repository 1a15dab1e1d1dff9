/**
 Importing a skill package as a transaction over the library's "skills" directory
 (internal/agentlibrary/importer.go:168-360, 706-743, 960-987, 1486-1514).

 Every step that writes may fail, wherever it has got to; what it then leaves behind is any
 tree inside the package or, from the index's atomic write, a temporary file beside the index.
 */
module SkillImport {
  import opened FileTree
  import opened SkillIndexEntry
  import opened Text
  import opened Wrappers

  const INDEX := "SKILLS.md"
  const MAIN := "SKILL.md"
  const SCRIPTS := "scripts"

  /** A support file's path within the package starts with its kind. */
  datatype SupportFile = SupportFile(kind: string, rest: seq<string>, content: string)

  datatype Request = Request(entry: Entry, main: string, files: seq<SupportFile>)

  /** How a step ends, and what a failing one leaves: of the package, if it touched it, and of temporary files. */
  datatype Fate = Succeeds | Fails(residue: Option<Node>, leftover: map<string, Node>)

  function PathOf(f: SupportFile): seq<string> {
    [f.kind] + f.rest
  }

  // ---- The "skills" directory: nothing, or a node ----

  predicate IsDirectory(skills: Option<Node>) {
    skills.None? || skills.value.Dir?
  }

  function Entries(skills: Option<Node>): map<string, Node> {
    if skills.Some? && skills.value.Dir? then skills.value.entries else map[]
  }

  /** Everything there but the package and the index. */
  function Others(skills: Option<Node>, key: string): map<string, Node> {
    Entries(skills) - {key, INDEX}
  }

  function With(skills: Option<Node>, name: string, n: Node): Option<Node> {
    if skills.Some? && skills.value.Dir? then Some(skills.value.(entries := skills.value.entries[name := n])) else skills
  }

  function Without(skills: Option<Node>, name: string): Option<Node> {
    if skills.Some? && skills.value.Dir? then Some(skills.value.(entries := skills.value.entries - {name})) else skills
  }

  /** So far only the package, the index and some new temporary files have been touched. */
  ghost predicate Touched(before: Option<Node>, now: Option<Node>, key: string, left: map<string, Node>) {
    && IsDirectory(before) && IsDirectory(now)
    && left.Keys !! Entries(before).Keys + {key, INDEX}
    && (now.None? ==> before.None?)
    && (before.Some? ==> now.Some? && now.value.mode == before.value.mode)
    && Others(now, key) == Others(before, key) + left
  }

  // ---- Snapshots ----

  /** What the snapshot refuses: a link or a file for a directory, an index that is no regular file, types it cannot copy. */
  predicate Snapshotable(skills: Option<Node>, key: string) {
    && IsDirectory(skills)
    && (key in Entries(skills) ==> Entries(skills)[key].Dir? && Copyable(Entries(skills)[key]))
    && (INDEX in Entries(skills) ==> Entries(skills)[INDEX].File?)
  }

  function Backup(skills: Option<Node>, name: string): Option<Node>
    requires name in Entries(skills) ==> Copyable(Entries(skills)[name])
  {
    if name in Entries(skills) then Some(Copied(Entries(skills)[name])) else None
  }

  function Single(name: string, n: Option<Node>): map<string, Node> {
    if n.Some? then map[name := n.value] else map[]
  }

  /** What a rollback leads to. */
  function RolledBackTo(before: Option<Node>, key: string, left: map<string, Node>): Option<Node>
    requires Snapshotable(before, key)
  {
    if before.None? then None
    else Some(Dir(before.value.mode, Others(before, key) + left + Single(key, Backup(before, key)) + Single(INDEX, Backup(before, INDEX))))
  }

  /**
   A rollback leads back to where the import began exactly when neither the package nor the
   index had a special mode bit, and no temporary file was left.
   */
  lemma RollbackIsExactIff(before: Option<Node>, key: string, left: map<string, Node>)
    requires Snapshotable(before, key) && left.Keys !! Entries(before).Keys + {key, INDEX}
    requires before.None? ==> left == map[]
    ensures RolledBackTo(before, key, left) == before <==>
            left == map[] && forall name | name in {key, INDEX} && name in Entries(before) :: Ordinary(Entries(before)[name])
  {
    hide Ordinary, Snapshotable, RolledBackTo;
    if before.Some? {
      var entries, after := Entries(before), Entries(RolledBackTo(before, key, left));
      RolledBackEntries(before, key, left);
      forall name | name in {key, INDEX} && name in entries
        ensures after[name] == entries[name] <==> Ordinary(entries[name])
      {
        RolledBackEntry(before, key, left, name);
      }
      SameEntriesIff(entries, after, left, {key, INDEX});
    } else {
      assert RolledBackTo(before, key, left) == before by { RolledBackFromNothing(before, key, left); }
    }
  }

  lemma RolledBackFromNothing(before: Option<Node>, key: string, left: map<string, Node>)
    requires Snapshotable(before, key) && before.None?
    ensures RolledBackTo(before, key, left) == before
  {
  }

  lemma RolledBackEntries(before: Option<Node>, key: string, left: map<string, Node>)
    requires Snapshotable(before, key) && left.Keys !! Entries(before).Keys + {key, INDEX} && before.Some?
    ensures var entries, after := Entries(before), RolledBackTo(before, key, left);
            && after.Some? && after.value.Dir? && before.value.Dir?
            && after.value.mode == before.value.mode
            && Entries(after).Keys == entries.Keys + left.Keys
            && forall name | name in entries && name !in {key, INDEX} :: Entries(after)[name] == entries[name]
  {
    hide Copyable, Copied;
  }

  lemma RolledBackEntry(before: Option<Node>, key: string, left: map<string, Node>, name: string)
    requires Snapshotable(before, key) && left.Keys !! Entries(before).Keys + {key, INDEX}
    requires name in {key, INDEX} && name in Entries(before)
    ensures var after := Entries(RolledBackTo(before, key, left));
            name in after && (after[name] == Entries(before)[name] <==> Ordinary(Entries(before)[name]))
  {
    CopyIsIdentityIff(Entries(before)[name]);
  }

  lemma SameEntriesIff(entries: map<string, Node>, after: map<string, Node>, left: map<string, Node>, names: set<string>)
    requires left.Keys !! entries.Keys + names && after.Keys == entries.Keys + left.Keys
    requires forall name | name in entries && name !in names :: after[name] == entries[name]
    ensures after == entries <==> left == map[] && forall name | name in names && name in entries :: after[name] == entries[name]
  {
    if left != map[] {
      var name :| name in left;
      assert name in after && name !in entries;
    }
  }

  /** Whatever happens, a rollback keeps every other entry as it was. */
  lemma RollbackKeepsOthers(before: Option<Node>, key: string, left: map<string, Node>, name: string)
    requires Snapshotable(before, key) && left.Keys !! Entries(before).Keys + {key, INDEX} && name !in {key, INDEX}
    requires before.None? ==> left == map[]
    ensures name in Entries(before) ==>
              name in Entries(RolledBackTo(before, key, left)) && Entries(RolledBackTo(before, key, left))[name] == Entries(before)[name]
    ensures name !in Entries(before) && name in Entries(RolledBackTo(before, key, left)) ==> name in left
  {
  }

  // ---- What a successful import writes ----

  function SupportWritten(n: Node, f: SupportFile): Option<Node> {
    var after := Written(n, PathOf(f), f.content, if f.kind == SCRIPTS then DIR_PERM else FILE_PERM);
    if after.Some? && f.kind == SCRIPTS then Some(WithPerm(after.value, PathOf(f), DIR_PERM)) else after
  }

  /** The package after SKILL.md and these support files. */
  function PackageAfter(n: Node, main: string, files: seq<SupportFile>): Option<Node>
    decreases |files|
  {
    if files == [] then Written(n, [MAIN], main, FILE_PERM)
    else
      var before := PackageAfter(n, main, files[..|files| - 1]);
      if before.None? then None else SupportWritten(before.value, files[|files| - 1])
  }

  /** What the files say about a path: the content of the last that names it. */
  function LastContent(files: seq<SupportFile>, path: seq<string>): Option<string> {
    if files == [] then None
    else if PathOf(files[|files| - 1]) == path then Some(files[|files| - 1].content)
    else LastContent(files[..|files| - 1], path)
  }

  /** After a successful import each file reads as the request says, and all others as before. */
  lemma {:induction false} ImportedPackageReads(n: Node, main: string, files: seq<SupportFile>, path: seq<string>)
    requires PackageAfter(n, main, files).Some?
    ensures Read(PackageAfter(n, main, files).value, path) ==
            if LastContent(files, path).Some? then LastContent(files, path)
            else if path == [MAIN] then Some(main)
            else Read(n, path)
    decreases |files|
  {
    hide Written, Read, WithPerm;
    if files == [] {
      ReadWritten(n, [MAIN], main, FILE_PERM, path);
    } else {
      var f := files[|files| - 1];
      var before := PackageAfter(n, main, files[..|files| - 1]).value;
      var perm := if f.kind == SCRIPTS then DIR_PERM else FILE_PERM;
      ImportedPackageReads(n, main, files[..|files| - 1], path);
      ReadWritten(before, PathOf(f), f.content, perm, path);
      ReadWithPerm(Written(before, PathOf(f), f.content, perm).value, PathOf(f), DIR_PERM, path);
    }
  }

  /** Whether a support file has this path, and whether such a file is a script. */
  predicate IsNamed(files: seq<SupportFile>, path: seq<string>) {
    exists i :: 0 <= i < |files| && PathOf(files[i]) == path
  }

  /** Scripts can be executed afterwards; every other file written keeps its permission bits, or gets 0644 where it is new. */
  lemma {:induction false} ImportedModes(n: Node, main: string, files: seq<SupportFile>, path: seq<string>)
    requires PackageAfter(n, main, files).Some?
    ensures ModeAt(PackageAfter(n, main, files).value, path) ==
            if IsNamed(files, path) && path[0] == "scripts" then Some(Mode(0x1ed, 0))
            else if IsNamed(files, path) || path == ["SKILL.md"] then
              Some(Mode(if ModeAt(n, path).Some? then ModeAt(n, path).value.perm else 0x1a4, 0))
            else ModeAt(n, path)
    decreases |files|
  {
    hide Written, ModeAt, WithPerm, IsNamed;
    if files == [] {
      NoneNamed(path);
      ModeWritten(n, [MAIN], main, FILE_PERM, path);
    } else {
      var f := files[|files| - 1];
      var before := PackageAfter(n, main, files[..|files| - 1]).value;
      var perm := if f.kind == SCRIPTS then DIR_PERM else FILE_PERM;
      ImportedModes(n, main, files[..|files| - 1], path);
      OneMoreNamed(files, path);
      ModeWritten(before, PathOf(f), f.content, perm, path);
      ModeWithPerm(Written(before, PathOf(f), f.content, perm).value, PathOf(f), DIR_PERM, path);
    }
  }

  lemma NoneNamed(path: seq<string>)
    ensures !IsNamed([], path)
  {
  }

  lemma OneMoreNamed(files: seq<SupportFile>, path: seq<string>)
    requires files != []
    ensures IsNamed(files, path) <==> IsNamed(files[..|files| - 1], path) || PathOf(files[|files| - 1]) == path
    ensures IsNamed(files, path) ==> path != []
  {
    var front := files[..|files| - 1];
    if IsNamed(front, path) {
      var i :| 0 <= i < |front| && PathOf(front[i]) == path;
      assert PathOf(files[i]) == path;
    }
    if i :| 0 <= i < |files| && PathOf(files[i]) == path {
      assert i < |front| ==> PathOf(front[i]) == path;
    }
  }

  /** The index text, where it can be read. */
  function IndexText(skills: Option<Node>): Option<string> {
    if INDEX !in Entries(skills) then Some("")
    else if Entries(skills)[INDEX].File? then Some(Entries(skills)[INDEX].content)
    else None
  }

  /** The index with the entry; one that would change in white space only is left alone. */
  function IndexNode(skills: Option<Node>, e: Entry): Node
    requires IndexText(skills).Some?
  {
    var body := IndexText(skills).value;
    var merged := Appended(body, e);
    if INDEX in Entries(skills) && TrimSpace(merged) == TrimSpace(body) then Entries(skills)[INDEX]
    else Replaced(Entries(skills), INDEX, merged, FILE_PERM)
  }

  /** Afterwards the index reads with the entry, as adding it says; where that changes white space only, the file is not touched. */
  lemma IndexNodeIs(skills: Option<Node>, e: Entry)
    requires IndexText(skills).Some?
    ensures "SKILLS.md" in Entries(skills) ==> Entries(skills)["SKILLS.md"].File?
    ensures var body := if "SKILLS.md" in Entries(skills) then Entries(skills)["SKILLS.md"].content else "";
            var node := IndexNode(skills, e);
            && node.File?
            && (if "SKILLS.md" in Entries(skills) && TrimSpace(Appended(body, e)) == TrimSpace(body)
                then node == Entries(skills)["SKILLS.md"]
                else && node.content == Appended(body, e) && node.mode.special == 0
                     && node.mode.perm == (if "SKILLS.md" in Entries(skills) then Entries(skills)["SKILLS.md"].mode.perm else 0x1a4))
  {
    hide Appended, TrimSpace;
  }

  /** The index has the entry already, but for white space. */
  predicate IndexStays(skills: Option<Node>, e: Entry) {
    && INDEX in Entries(skills) && IndexText(skills).Some?
    && TrimSpace(Appended(IndexText(skills).value, e)) == TrimSpace(IndexText(skills).value)
  }

  // ---- The transaction ----

  datatype Outcome = Imported | Refused | RolledBack | RollbackFailed

  const MKDIR_STEP := 0
  const MAIN_STEP := 1
  const INDEX_STEP := 2
  const FILE_STEP := 3

  /** A temporary file gets a name that is not taken. */
  function NewNames(skills: Option<Node>, key: string, leftover: map<string, Node>): map<string, Node> {
    leftover - (Entries(skills).Keys + {key, INDEX})
  }

  /** The package entry, as a write step starts from it. */
  function Package(skills: Option<Node>, key: string): Node {
    if key in Entries(skills) then Entries(skills)[key] else NEW_DIR
  }

  lemma TouchedByWith(before: Option<Node>, now: Option<Node>, key: string, name: string, n: Node)
    requires Touched(before, now, key, map[]) && name in {key, INDEX}
    ensures Touched(before, With(now, name, n), key, map[])
    ensures Touched(before, Without(now, name), key, map[])
  {
    assert Others(With(now, name, n), key) == Others(now, key);
    assert Others(Without(now, name), key) == Others(now, key);
  }

  class Library {
    var skills: Option<Node>

    constructor (skills: Option<Node>)
      ensures this.skills == skills
    {
      this.skills := skills;
    }

    /** os.MkdirAll of the package: "skills" first, then the package in it. */
    method MakePackageDir(key: string, fate: Fate) returns (ok: bool)
      requires IsDirectory(skills)
      modifies this
      ensures Touched(old(skills), skills, key, map[])
      ensures ok <==> fate.Succeeds? && (key in Entries(old(skills)) ==> Entries(old(skills))[key].Dir?)
      ensures skills.None? <==> old(skills).None? && fate.Fails? && fate.residue.None?
      ensures ok ==> skills.Some? && key in Entries(skills) && Entries(skills)[key].Dir?
                     && Entries(skills)[key] == Package(old(skills), key)
                     && (key != INDEX ==> SameIndex(old(skills), skills))
    {
      if skills.None? {
        if fate.Fails? && fate.residue.None? {
          return false;
        }
        skills := Some(NEW_DIR);
      }
      if fate.Fails? {
        return false;
      }
      if key in Entries(skills) {
        return Entries(skills)[key].Dir?;
      }
      TouchedByWith(skills, skills, key, key, NEW_DIR);
      skills := With(skills, key, NEW_DIR);
      ok := true;
    }

    /** A write inside the package: `after` is the package it leads to, if nothing is in the way. */
    method WriteInPackage(key: string, after: Option<Node>, fate: Fate) returns (ok: bool)
      requires skills.Some? && skills.value.Dir?
      modifies this
      ensures Touched(old(skills), skills, key, map[])
      ensures skills.Some? && (ok <==> fate.Succeeds? && after.Some?)
      ensures ok ==> skills == With(old(skills), key, after.value)
    {
      TouchedByWith(skills, skills, key, key, if after.Some? then after.value else NEW_DIR);
      if fate.Fails? {
        if fate.residue.Some? {
          TouchedByWith(skills, skills, key, key, fate.residue.value);
          skills := With(skills, key, fate.residue.value);
        }
        return false;
      }
      if after.None? {
        return false;
      }
      skills := With(skills, key, after.value);
      ok := true;
    }

    method EnsureIndexEntry(key: string, e: Entry, fate: Fate) returns (ok: bool, ghost left: map<string, Node>)
      requires skills.Some? && skills.value.Dir?
      modifies this
      ensures Touched(old(skills), skills, key, left)
      ensures left.Keys <= (if fate.Fails? then fate.leftover.Keys else {})
      ensures skills.Some?
      ensures ok <==> IndexText(old(skills)).Some? && (IndexStays(old(skills), e) || fate.Succeeds?)
      ensures ok ==> left == map[] && IndexText(old(skills)).Some? && skills == With(old(skills), INDEX, IndexNode(old(skills), e))
    {
      hide Appended, TrimSpace;
      left := map[];
      var body := IndexText(skills);
      if body.None? {
        return false, left;
      }
      var index := IndexNode(skills, e);
      if INDEX in Entries(skills) && TrimSpace(Appended(body.value, e)) == TrimSpace(body.value) {
        assert skills.value.entries[INDEX := index] == skills.value.entries;
        return true, left;
      }
      if fate.Fails? {
        left := NewNames(skills, key, fate.leftover);
        LeftBeside(skills, key, left);
        skills := Some(Dir(skills.value.mode, skills.value.entries + NewNames(skills, key, fate.leftover)));
        return false, left;
      }
      TouchedByWith(skills, skills, key, INDEX, index);
      skills := With(skills, INDEX, index);
      ok := true;
    }

    /** Removes the path and, if it was there, copies its backup back. */
    method RestorePath(name: string, backup: Option<Node>, undo: Fate) returns (ok: bool)
      requires IsDirectory(skills) && (backup.Some? ==> skills.Some? && Copyable(backup.value))
      modifies this
      ensures IsDirectory(skills) && skills.Some? == old(skills).Some?
      ensures Entries(skills) - {name} == Entries(old(skills)) - {name}
      ensures ok <==> undo.Succeeds?
      ensures ok ==> skills == if backup.Some? then With(old(skills), name, Copied(backup.value)) else Without(old(skills), name)
    {
      if undo.Fails? {
        skills := if undo.residue.Some? then With(skills, name, undo.residue.value) else Without(skills, name);
        return false;
      }
      skills := Without(skills, name);
      if backup.Some? {
        assert With(Without(old(skills), name), name, Copied(backup.value)) == With(old(skills), name, Copied(backup.value)) by {
          WithAfterWithout(old(skills), name, Copied(backup.value));
        }
        skills := With(skills, name, Copied(backup.value));
      }
      ok := true;
    }

    /** os.Remove of the directory itself: only an empty one goes. */
    method RemoveSkillsDir(undo: Fate) returns (ok: bool)
      requires IsDirectory(skills)
      modifies this
      ensures ok <==> old(skills).None? || (undo.Succeeds? && Entries(old(skills)) == map[])
      ensures ok ==> skills == None && Entries(old(skills)) == map[]
      ensures !ok ==> skills == old(skills)
    {
      if skills.None? {
        return true;
      }
      if undo.Fails? || skills.value.entries != map[] {
        return false;
      }
      skills := None;
      ok := true;
    }

    method Restore(ghost before: Option<Node>, key: string, package: Option<Node>, index: Option<Node>, existed: bool,
                   undo: nat -> Fate, ghost left: map<string, Node>)
      returns (ok: bool)
      requires Snapshotable(before, key) && Touched(before, skills, key, left)
      requires package == Backup(before, key) && index == Backup(before, INDEX) && existed == before.Some?
      modifies this
      ensures ok <==> undo(0).Succeeds? && undo(1).Succeeds?
                      && (existed || old(skills).None? || (undo(2).Succeeds? && left == map[]))
      ensures ok ==> skills == RolledBackTo(before, key, left) && (before.None? ==> left == map[])
      ensures Others(skills, key) == Others(before, key) + left
    {
      hide Snapshotable, RolledBackTo, Touched, Copyable, Copied;
      TouchedMeans(before, skills, key, left);
      BackupsCopy(before, key);
      var first := RestorePath(key, package, undo(0));
      ghost var half := skills;
      var second := RestorePath(INDEX, index, undo(1));
      OthersStay(old(skills), half, skills, key);
      var third := true;
      if !existed {
        assert first && second ==> Entries(skills) == left by { NothingButLeft(before, old(skills), half, skills, key, left, package, index, first, second); }
        third := RemoveSkillsDir(undo(2));
      }
      ok := first && second && third;
      if ok {
        RestoredAll(before, old(skills), skills, key, left, package, index);
      }
    }

    /**
     `backs` says whether the backups can be made; `fate` and `undo` how each step of the
     import, and of a rollback, ends.
     */
    method ImportSkillPackage(req: Request, backs: bool, fate: nat -> Fate, undo: nat -> Fate)
      returns (outcome: Outcome, ghost left: map<string, Node>)
      modifies this
      ensures outcome.Refused? <==> !backs || !Snapshotable(old(skills), req.entry.key)
      ensures outcome.Refused? ==> skills == old(skills)
      ensures outcome.RolledBack? ==> LeftoverOf(old(skills), req.entry.key, left, fate(INDEX_STEP))
                                      && skills == RolledBackTo(old(skills), req.entry.key, left)
      ensures outcome.Imported? <==> !outcome.Refused? && NothingInTheWay(old(skills), req) && WritesSucceed(old(skills), req, fate)
      ensures outcome.Imported? ==> ImportedAs(old(skills), skills, req)
      ensures outcome.RolledBack? <==>
                && !outcome.Refused? && !outcome.Imported? && undo(0).Succeeds? && undo(1).Succeeds?
                && (old(skills).Some? || NeverMade(fate) || (undo(2).Succeeds? && left == map[]))
      ensures !outcome.Refused? ==> Others(skills, req.entry.key) == Others(old(skills), req.entry.key) + left
    {
      var key := req.entry.key;
      left := map[];
      if !backs || !Snapshotable(skills, key) {
        return Refused, left;
      }
      ghost var before := skills;
      BackupsCopy(skills, key);
      var package, index, existed := Backup(skills, key), Backup(skills, INDEX), skills.Some?;
      var ok;
      ok, left := WriteAll(req, fate);
      if ok {
        return Imported, left;
      }
      hide Snapshotable, RolledBackTo, Touched;
      LeftoverMeans(before, skills, key, left, fate(INDEX_STEP));
      var restored := Restore(before, key, package, index, existed, undo, left);
      outcome := if restored then RolledBack else RollbackFailed;
    }

    /** Every writing step in turn, up to the first that fails. */
    method WriteAll(req: Request, fate: nat -> Fate) returns (ok: bool, ghost left: map<string, Node>)
      requires Snapshotable(skills, req.entry.key)
      modifies this
      ensures Touched(old(skills), skills, req.entry.key, left)
      ensures left.Keys <= (if fate(INDEX_STEP).Fails? then fate(INDEX_STEP).leftover.Keys else {})
      ensures ok <==> NothingInTheWay(old(skills), req) && WritesSucceed(old(skills), req, fate)
      ensures ok ==> ImportedAs(old(skills), skills, req)
      ensures old(skills).None? ==> (skills.None? <==> NeverMade(fate))
    {
      hide Touched, Written, IndexNode, SupportWritten, IndexStays;
      var key := req.entry.key;
      ghost var before := skills;
      left := map[];
      ok := MakePackageDir(key, fate(MKDIR_STEP));
      if !ok {
        return;
      }
      ghost var made := skills;
      ok := WriteInPackage(key, Written(Entries(skills)[key], [MAIN], req.main, FILE_PERM), fate(MAIN_STEP));
      TouchedTwice(before, made, skills, key, map[]);
      if !ok {
        InTheWay(Package(before, key), req, 0);
        return;
      }
      ghost var main := skills;
      IndexAsBefore(before, made, main, req);
      ok, left := EnsureIndexEntry(key, req.entry, fate(INDEX_STEP));
      TouchedTwice(before, main, skills, key, left);
      if !ok {
        return;
      }
      WrittenIsDir(Entries(made)[key], [MAIN], req.main, FILE_PERM);
      IndexStepMeans(before, made, main, skills, req);
      for i := 0 to |req.files|
        invariant left == map[] && Touched(before, skills, key, map[])
        invariant Progress(before, skills, req, i)
        invariant skills.Some? && fate(MKDIR_STEP).Succeeds? && fate(MAIN_STEP).Succeeds?
        invariant IndexStays(before, req.entry) || fate(INDEX_STEP).Succeeds?
        invariant forall k | FILE_STEP <= k < FILE_STEP + i :: fate(k).Succeeds?
      {
        ghost var was := skills;
        PackageStep(before, skills, req, i);
        PackageGrows(before, skills, req, i);
        ok := WriteInPackage(key, SupportWritten(Entries(skills)[key], req.files[i]), fate(FILE_STEP + i));
        TouchedTwice(before, was, skills, key, map[]);
        if !ok {
          InTheWay(Package(before, key), req, i + 1);
          return;
        }
      }
      assert req.files[..|req.files|] == req.files;
      TouchedMeans(before, skills, key, map[]);
    }
  }

  /** No file or directory of the old tree stands where a directory or file must go. */
  predicate NothingInTheWay(before: Option<Node>, req: Request) {
    req.entry.key != INDEX && PackageAfter(Package(before, req.entry.key), req.main, req.files).Some?
  }

  /** Every step that gets to write succeeds; the index is written only where the entry is new to it. */
  predicate WritesSucceed(before: Option<Node>, req: Request, fate: nat -> Fate) {
    && fate(MKDIR_STEP).Succeeds? && fate(MAIN_STEP).Succeeds?
    && (IndexStays(before, req.entry) || fate(INDEX_STEP).Succeeds?)
    && forall i | FILE_STEP <= i < FILE_STEP + |req.files| :: fate(i).Succeeds?
  }

  /** Not even the "skills" directory was made. */
  predicate NeverMade(fate: nat -> Fate) {
    fate(MKDIR_STEP).Fails? && fate(MKDIR_STEP).residue.None?
  }

  lemma {:induction false} PackageAfterPrefix(n: Node, main: string, files: seq<SupportFile>, i: nat)
    requires i <= |files| && PackageAfter(n, main, files).Some?
    ensures PackageAfter(n, main, files[..i]).Some?
    decreases |files|
  {
    hide SupportWritten;
    if i < |files| {
      PackageAfterPrefix(n, main, files[..|files| - 1], i);
      assert files[..|files| - 1][..i] == files[..i];
    } else {
      assert files[..i] == files;
    }
  }

  lemma InTheWay(n: Node, req: Request, i: nat)
    requires i <= |req.files|
    ensures PackageAfter(n, req.main, req.files[..i]).None? ==> PackageAfter(n, req.main, req.files).None?
    ensures PackageAfter(n, req.main, req.files[..0]) == Written(n, [MAIN], req.main, FILE_PERM)
  {
    hide SupportWritten, Written;
    assert req.files[..0] == [];
    if PackageAfter(n, req.main, req.files).Some? {
      PackageAfterPrefix(n, req.main, req.files, i);
    }
  }

  /** The package after one more support file, seen from what there is now. */
  lemma PackageGrows(before: Option<Node>, now: Option<Node>, req: Request, i: nat)
    requires Progress(before, now, req, i) && i < |req.files|
    ensures PackageAfter(Package(before, req.entry.key), req.main, req.files[..i + 1])
            == SupportWritten(Entries(now)[req.entry.key], req.files[i])
  {
    hide SupportWritten, IndexNode, Written;
    assert req.files[..i + 1][..i] == req.files[..i];
  }

  /** Making the package leaves the index as it was, unless the package has its name. */
  lemma IndexAsBefore(before: Option<Node>, made: Option<Node>, main: Option<Node>, req: Request)
    requires var key := req.entry.key;
             && made.Some? && made.value.Dir? && key in Entries(made) && Entries(made)[key] == Package(before, key)
             && (key != INDEX ==> SameIndex(before, made))
             && var written := Written(Entries(made)[key], [MAIN], req.main, FILE_PERM);
                written.Some? && main == With(made, key, written.value)
    ensures var key, e := req.entry.key, req.entry;
            if key == INDEX then IndexText(main).None?
            else IndexText(main) == IndexText(before) && (IndexStays(main, e) <==> IndexStays(before, e))
  {
    hide Appended, TrimSpace;
    WrittenIsDir(Entries(made)[req.entry.key], [MAIN], req.main, FILE_PERM);
  }

  lemma OthersStay(a: Option<Node>, b: Option<Node>, c: Option<Node>, key: string)
    requires Entries(b) - {key} == Entries(a) - {key} && Entries(c) - {INDEX} == Entries(b) - {INDEX}
    ensures Others(c, key) == Others(a, key)
  {
    assert Others(c, key) == Entries(c) - {INDEX} - {key};
    assert Others(b, key) == Entries(b) - {INDEX} - {key};
    assert Others(b, key) == Entries(b) - {key} - {INDEX};
    assert Others(a, key) == Entries(a) - {key} - {INDEX};
  }

  /** Where there was nothing before, undoing package and index leaves the leftover only. */
  lemma NothingButLeft(before: Option<Node>, touched: Option<Node>, half: Option<Node>, now: Option<Node>, key: string,
                       left: map<string, Node>, package: Option<Node>, index: Option<Node>, first: bool, second: bool)
    requires before.None? && package == Backup(before, key) && index == Backup(before, INDEX)
    requires Others(touched, key) == Others(before, key) + left
    requires first ==> half == Without(touched, key)
    requires second ==> now == Without(half, INDEX)
    requires IsDirectory(touched)
    ensures first && second ==> Entries(now) == left
  {
    if first && second {
      assert Entries(now) == Others(touched, key);
      assert Others(before, key) + left == left;
    }
  }

  predicate SameIndex(a: Option<Node>, b: Option<Node>) {
    (INDEX in Entries(a) <==> INDEX in Entries(b)) && (INDEX in Entries(a) ==> Entries(a)[INDEX] == Entries(b)[INDEX])
  }

  /** Only a failed write of the index leaves temporary files, under names that were free. */
  ghost predicate LeftoverOf(before: Option<Node>, key: string, left: map<string, Node>, indexFate: Fate) {
    && left.Keys !! Entries(before).Keys + {key, INDEX}
    && left.Keys <= (if indexFate.Fails? then indexFate.leftover.Keys else {})
    && (before.None? ==> left == map[])
  }

  /** What a successful import comes to: the package and the index as the request says, all else as before. */
  ghost predicate ImportedAs(before: Option<Node>, after: Option<Node>, req: Request) {
    var key := req.entry.key;
    && key != INDEX && after.Some? && key in Entries(after) && INDEX in Entries(after)
    && PackageAfter(Package(before, key), req.main, req.files) == Some(Entries(after)[key])
    && IndexText(before).Some? && Entries(after)[INDEX] == IndexNode(before, req.entry)
    && Others(after, key) == Others(before, key)
  }

  /** The same, with the first `n` support files written. */
  ghost predicate Progress(before: Option<Node>, now: Option<Node>, req: Request, n: nat) {
    var key := req.entry.key;
    && n <= |req.files| && now.Some? && now.value.Dir?
    && key != INDEX && key in Entries(now) && INDEX in Entries(now)
    && PackageAfter(Package(before, key), req.main, req.files[..n]) == Some(Entries(now)[key])
    && IndexText(before).Some? && Entries(now)[INDEX] == IndexNode(before, req.entry)
  }

  lemma LeftBeside(skills: Option<Node>, key: string, left: map<string, Node>)
    requires skills.Some? && skills.value.Dir? && left.Keys !! Entries(skills).Keys + {key, INDEX}
    ensures Touched(skills, Some(Dir(skills.value.mode, skills.value.entries + left)), key, left)
  {
    var after := Some(Dir(skills.value.mode, skills.value.entries + left));
    assert Others(after, key) == Others(skills, key) + left;
  }

  lemma WithAfterWithout(skills: Option<Node>, name: string, n: Node)
    ensures With(Without(skills, name), name, n) == With(skills, name, n)
  {
    if skills.Some? && skills.value.Dir? {
      assert (skills.value.entries - {name})[name := n] == skills.value.entries[name := n];
    }
  }

  lemma TouchedMeans(before: Option<Node>, now: Option<Node>, key: string, left: map<string, Node>)
    requires Touched(before, now, key, left)
    ensures IsDirectory(before) && IsDirectory(now) && left.Keys !! Entries(before).Keys + {key, INDEX}
    ensures (now.None? ==> before.None?) && (before.Some? ==> now.Some? && now.value.mode == before.value.mode)
    ensures Others(now, key) == Others(before, key) + left
  {
  }

  lemma TouchedTwice(a: Option<Node>, b: Option<Node>, c: Option<Node>, key: string, left: map<string, Node>)
    requires Touched(a, b, key, map[]) && Touched(b, c, key, left)
    ensures Touched(a, c, key, left)
  {
    assert Others(b, key) == Others(a, key);
    forall name | name in Entries(a) && name !in {key, INDEX}
      ensures name in Entries(b)
    {
      assert name in Others(a, key);
    }
  }

  lemma BackupsCopy(before: Option<Node>, key: string)
    requires Snapshotable(before, key)
    ensures forall name | name in {key, INDEX} && name in Entries(before) :: Copyable(Entries(before)[name])
    ensures forall name | name in {key, INDEX} && Backup(before, name).Some? ::
              before.Some? && Copyable(Backup(before, name).value) && Copied(Backup(before, name).value) == Backup(before, name).value
  {
    forall name | name in {key, INDEX} && name in Entries(before)
      ensures Copyable(Entries(before)[name]) && Copyable(Copied(Entries(before)[name]))
              && Copied(Copied(Entries(before)[name])) == Copied(Entries(before)[name])
    {
      CopyOfCopy(Entries(before)[name]);
    }
  }

  lemma LeftoverMeans(before: Option<Node>, now: Option<Node>, key: string, left: map<string, Node>, indexFate: Fate)
    requires Touched(before, now, key, left) && left.Keys <= (if indexFate.Fails? then indexFate.leftover.Keys else {})
    ensures left.Keys !! Entries(before).Keys + {key, INDEX}
    ensures (before.None? ==> left == map[]) ==> LeftoverOf(before, key, left, indexFate)
  {
  }

  lemma RestoredAll(before: Option<Node>, touched: Option<Node>, after: Option<Node>, key: string, left: map<string, Node>,
                    package: Option<Node>, index: Option<Node>)
    requires Snapshotable(before, key) && Touched(before, touched, key, left)
    requires package == Backup(before, key) && index == Backup(before, INDEX)
    requires package.Some? ==> Copyable(package.value) && Copied(package.value) == package.value
    requires index.Some? ==> Copyable(index.value) && Copied(index.value) == index.value
    requires var first := if package.Some? then With(touched, key, package.value) else Without(touched, key);
             var second := if index.Some? then With(first, INDEX, index.value) else Without(first, INDEX);
             if before.Some? then after == second else after == None && Entries(second) == map[]
    ensures after == RolledBackTo(before, key, left) && (before.None? ==> left == map[])
  {
    hide Copyable, Copied, Snapshotable, Touched, RolledBackTo;
    TouchedMeans(before, touched, key, left);
    if before.Some? {
      RestoredOver(before, touched, after, key, left);
    } else {
      RestoredToNothing(before, touched, key, left);
      RolledBackFromNothing(before, key, left);
    }
  }

  lemma RestoredOver(before: Option<Node>, touched: Option<Node>, after: Option<Node>, key: string, left: map<string, Node>)
    requires Snapshotable(before, key) && before.Some? && touched.Some? && touched.value.Dir?
    requires touched.value.mode == before.value.mode && Others(touched, key) == Others(before, key) + left
    requires var (package, index) := (Backup(before, key), Backup(before, INDEX));
             var first := if package.Some? then With(touched, key, package.value) else Without(touched, key);
             after == if index.Some? then With(first, INDEX, index.value) else Without(first, INDEX)
    ensures after == RolledBackTo(before, key, left)
  {
    hide Copyable, Copied;
    BackupsCopy(before, key);
    assert after.value.entries == Others(touched, key) + Single(key, Backup(before, key)) + Single(INDEX, Backup(before, INDEX));
  }

  lemma RestoredToNothing(before: Option<Node>, touched: Option<Node>, key: string, left: map<string, Node>)
    requires before.None? && Others(touched, key) == Others(before, key) + left
    requires Entries(Without(Without(touched, key), INDEX)) == map[]
    ensures left == map[]
  {
    assert Others(before, key) + left == left;
    assert Entries(Without(Without(touched, key), INDEX)) == Others(touched, key);
  }

  lemma WrittenIsDir(n: Node, path: seq<string>, content: string, perm: nat)
    requires Written(n, path, content, perm).Some?
    ensures Written(n, path, content, perm).value.Dir?
  {
  }

  lemma IndexStepMeans(before: Option<Node>, made: Option<Node>, main: Option<Node>, now: Option<Node>, req: Request)
    requires var key := req.entry.key;
             && made.Some? && made.value.Dir? && key in Entries(made) && Entries(made)[key] == Package(before, key)
             && (key != INDEX ==> SameIndex(before, made))
             && var written := Written(Entries(made)[key], [MAIN], req.main, FILE_PERM);
             && written.Some? && written.value.Dir? && main == With(made, key, written.value)
             && IndexText(main).Some? && now == With(main, INDEX, IndexNode(main, req.entry))
    ensures Progress(before, now, req, 0)
  {
    hide Written, Appended;
    var key := req.entry.key;
    assert key != INDEX;
    assert SameIndex(before, main);
  }

  lemma PackageStep(before: Option<Node>, now: Option<Node>, req: Request, i: nat)
    requires Progress(before, now, req, i) && i < |req.files|
    ensures var after := SupportWritten(Entries(now)[req.entry.key], req.files[i]);
            after.Some? ==> Progress(before, With(now, req.entry.key, after.value), req, i + 1)
  {
    hide SupportWritten, IndexNode, Written;
    assert req.files[..i + 1][..i] == req.files[..i];
  }
}
