/**
 A finite directory tree, with what copying and writing do to it
 (internal/agentlibrary/importer.go:367-415, 960-987, internal/util/atomic_write.go:13-50).

 A mode is the nine permission bits and, apart, the setuid, setgid and sticky bits.  The
 process umask is taken to be clear.
 */
module FileTree {
  import opened Wrappers

  datatype Mode = Mode(perm: nat, special: nat)

  datatype Node =
    | File(mode: Mode, content: string)
    | Dir(mode: Mode, entries: map<string, Node>)
    | Link(target: string)
    | Device

  const DIR_PERM := 0x1ed     // 0o755
  const FILE_PERM := 0x1a4    // 0o644

  const NEW_DIR := Dir(Mode(DIR_PERM, 0), map[])

  // ---- Copying ----

  /** Nothing in the tree is of a type that cannot be copied. */
  predicate Copyable(n: Node)
    decreases n
  {
    match n
    case Dir(_, entries) => forall name | name in entries :: Copyable(entries[name])
    case Device => false
    case _ => true
  }

  /** What stands at the path. */
  function NodeAt(n: Node, path: seq<string>): Option<Node>
    decreases |path|
  {
    if path == [] then Some(n)
    else if n.Dir? && path[0] in n.entries then NodeAt(n.entries[path[0]], path[1..])
    else None
  }

  lemma {:induction false} NoDeviceIn(n: Node, path: seq<string>)
    requires Copyable(n)
    ensures NodeAt(n, path) != Some(Device)
    decreases |path|
  {
    if path != [] && n.Dir? && path[0] in n.entries {
      NoDeviceIn(n.entries[path[0]], path[1..]);
    }
  }

  lemma {:induction false} SomeDeviceIn(n: Node) returns (path: seq<string>)
    requires !Copyable(n)
    ensures NodeAt(n, path) == Some(Device)
    decreases n
  {
    path := [];
    if n.Dir? {
      var name :| name in n.entries && !Copyable(n.entries[name]);
      var rest := SomeDeviceIn(n.entries[name]);
      path := [name] + rest;
      assert path[1..] == rest;
    }
  }

  /** A tree cannot be copied exactly when a device stands somewhere in it. */
  lemma CopyableIff(n: Node)
    ensures Copyable(n) <==> forall path :: NodeAt(n, path) != Some(Device)
  {
    if Copyable(n) {
      forall path
        ensures NodeAt(n, path) != Some(Device)
      {
        NoDeviceIn(n, path);
      }
    } else {
      var path := SomeDeviceIn(n);
    }
  }

  /** A copy takes over permission bits only. */
  function Copied(n: Node): Node
    requires Copyable(n)
    decreases n
  {
    match n
    case File(mode, content) => File(mode.(special := 0), content)
    case Dir(mode, entries) => Dir(mode.(special := 0), map name | name in entries :: Copied(entries[name]))
    case _ => n
  }

  /** No file or directory of the tree has a special bit. */
  predicate Ordinary(n: Node)
    decreases n
  {
    match n
    case File(mode, _) => mode.special == 0
    case Dir(mode, entries) => mode.special == 0 && forall name | name in entries :: Ordinary(entries[name])
    case _ => true
  }

  /** A copy is the tree itself exactly when nothing in it has a special bit. */
  lemma {:induction false} CopyIsIdentityIff(n: Node)
    requires Copyable(n)
    ensures Copied(n) == n <==> Ordinary(n)
    decreases n
  {
    if n.Dir? {
      forall name | name in n.entries
        ensures Copied(n.entries[name]) == n.entries[name] <==> Ordinary(n.entries[name])
      {
        CopyIsIdentityIff(n.entries[name]);
      }
      var copies := map name | name in n.entries :: Copied(n.entries[name]);
      assert copies == n.entries <==> forall name | name in n.entries :: copies[name] == n.entries[name];
    }
  }

  /** A copy can be copied, and then stays the same. */
  lemma {:induction false} CopyOfCopy(n: Node)
    requires Copyable(n)
    ensures Copyable(Copied(n)) && Ordinary(Copied(n)) && Copied(Copied(n)) == Copied(n)
    decreases n
  {
    if n.Dir? {
      forall name | name in n.entries
        ensures Copyable(Copied(n.entries[name])) && Ordinary(Copied(n.entries[name]))
      {
        CopyOfCopy(n.entries[name]);
      }
    }
    assert Copyable(Copied(n)) && Ordinary(Copied(n));
    CopyIsIdentityIff(Copied(n));
  }

  // ---- Writing one file ----

  /** An existing regular file keeps its permission bits. */
  function Replaced(entries: map<string, Node>, name: string, content: string, perm: nat): Node {
    File(Mode(if name in entries && entries[name].File? then entries[name].mode.perm else perm, 0), content)
  }

  /** Making the directories on the way and replacing the file atomically; none when something is in the way. */
  function Written(n: Node, path: seq<string>, content: string, perm: nat): Option<Node>
    decreases |path|
  {
    if path == [] || !n.Dir? then None
    else if |path| == 1 then
      if path[0] in n.entries && n.entries[path[0]].Dir? then None
      else Some(n.(entries := n.entries[path[0] := Replaced(n.entries, path[0], content, perm)]))
    else
      var child := Written(if path[0] in n.entries then n.entries[path[0]] else NEW_DIR, path[1..], content, perm);
      if child.None? then None else Some(n.(entries := n.entries[path[0] := child.value]))
  }

  function Read(n: Node, path: seq<string>): Option<string>
    decreases |path|
  {
    if path == [] then if n.File? then Some(n.content) else None
    else if n.Dir? && path[0] in n.entries then Read(n.entries[path[0]], path[1..])
    else None
  }

  /** Reading back gives what was written, and every other file reads as before. */
  lemma {:induction false} ReadWritten(n: Node, path: seq<string>, content: string, perm: nat, other: seq<string>)
    requires Written(n, path, content, perm).Some?
    ensures Read(Written(n, path, content, perm).value, path) == Some(content)
    ensures other != path ==> Read(Written(n, path, content, perm).value, other) == Read(n, other)
    decreases |path|
  {
    var after := Written(n, path, content, perm).value;
    if |path| == 1 {
      assert path == [path[0]] && path[1..] == [];
      if other != [] && other[0] == path[0] && other != path {
        assert other[1..] != [];
      }
    } else {
      var child := if path[0] in n.entries then n.entries[path[0]] else NEW_DIR;
      ReadWritten(child, path[1..], content, perm, if other == [] then [] else other[1..]);
      if other != [] && other[0] == path[0] {
        assert path == [path[0]] + path[1..] && other == [other[0]] + other[1..];
      }
    }
  }

  /** The mode of the file at the path. */
  function ModeAt(n: Node, path: seq<string>): Option<Mode>
    decreases |path|
  {
    if path == [] then if n.File? then Some(n.mode) else None
    else if n.Dir? && path[0] in n.entries then ModeAt(n.entries[path[0]], path[1..])
    else None
  }

  /** A file written over keeps its permission bits, a new one gets those asked for, and neither has special bits. */
  lemma {:induction false} ModeWritten(n: Node, path: seq<string>, content: string, perm: nat, other: seq<string>)
    requires Written(n, path, content, perm).Some?
    ensures ModeAt(Written(n, path, content, perm).value, path)
            == Some(Mode(if ModeAt(n, path).Some? then ModeAt(n, path).value.perm else perm, 0))
    ensures other != path ==> ModeAt(Written(n, path, content, perm).value, other) == ModeAt(n, other)
    decreases |path|
  {
    if |path| == 1 {
      assert path == [path[0]] && path[1..] == [];
      if other != [] && other[0] == path[0] && other != path {
        assert other[1..] != [];
      }
    } else {
      var child := if path[0] in n.entries then n.entries[path[0]] else NEW_DIR;
      ModeWritten(child, path[1..], content, perm, if other == [] then [] else other[1..]);
      if other != [] && other[0] == path[0] {
        assert path == [path[0]] + path[1..] && other == [other[0]] + other[1..];
      }
    }
  }

  lemma {:induction false} ModeWithPerm(n: Node, path: seq<string>, perm: nat, other: seq<string>)
    ensures ModeAt(WithPerm(n, path, perm), path) == if ModeAt(n, path).Some? then Some(Mode(perm, 0)) else None
    ensures other != path ==> ModeAt(WithPerm(n, path, perm), other) == ModeAt(n, other)
    decreases |path|
  {
    if path != [] && n.Dir? && path[0] in n.entries {
      ModeWithPerm(n.entries[path[0]], path[1..], perm, if other == [] then [] else other[1..]);
      if other != [] && other[0] == path[0] && other != path {
        assert path == [path[0]] + path[1..] && other == [other[0]] + other[1..];
      }
    }
  }

  /** os.Chmod of the file at the path. */
  function WithPerm(n: Node, path: seq<string>, perm: nat): Node
    decreases |path|
  {
    if path == [] then if n.File? then File(Mode(perm, 0), n.content) else n
    else if n.Dir? && path[0] in n.entries then
      n.(entries := n.entries[path[0] := WithPerm(n.entries[path[0]], path[1..], perm)])
    else n
  }

  lemma {:induction false} ReadWithPerm(n: Node, path: seq<string>, perm: nat, other: seq<string>)
    ensures Read(WithPerm(n, path, perm), other) == Read(n, other)
    decreases |path|
  {
    if path != [] && n.Dir? && path[0] in n.entries {
      ReadWithPerm(n.entries[path[0]], path[1..], perm, if other == [] then [] else other[1..]);
    }
  }
}
