/**
 The Markdown index of standalone skills: cutting it into sections and removing one
 (internal/agentlibrary/importer.go:1626-1662, 1757-1783).

 A section runs from a header line up to the next.  The code searches for the section's text
 again among the lines before it cuts; the specification says which lines that must be.
 */
module SkillIndex {
  import opened Text

  // ---- Lines and headers ----

  predicate IsHeader(line: string) {
    "## " <= TrimSpace(line)
  }

  function HandleOf(line: string): string
    requires IsHeader(line)
  {
    TrimSpace(TrimSpace(line)[3..])
  }

  predicate Blank(line: string) {
    TrimSpace(line) == ""
  }

  predicate HasHandle(line: string, handle: string) {
    IsHeader(line) && HandleOf(line) == handle
  }

  /** The handles of all sections, in order. */
  function Handles(lines: seq<string>): seq<string> {
    if lines == [] then []
    else (if IsHeader(lines[0]) then [HandleOf(lines[0])] else []) + Handles(lines[1..])
  }

  /** The first header line from `i` on, or the end. */
  function NextHeader(lines: seq<string>, i: nat): (j: nat)
    requires i <= |lines|
    ensures i <= j <= |lines|
    ensures j < |lines| ==> IsHeader(lines[j])
    ensures forall k | i <= k < j :: !IsHeader(lines[k])
    decreases |lines| - i
  {
    if i == |lines| || IsHeader(lines[i]) then i else NextHeader(lines, i + 1)
  }

  /** The first section with a handle, or the end. */
  function FirstWith(lines: seq<string>, handle: string, i: nat): (j: nat)
    requires i <= |lines|
    ensures i <= j <= |lines|
    ensures j < |lines| ==> HasHandle(lines[j], handle)
    ensures forall k | i <= k < j :: !HasHandle(lines[k], handle)
    decreases |lines| - i
  {
    if i == |lines| || HasHandle(lines[i], handle) then i else FirstWith(lines, handle, i + 1)
  }

  function WithoutNewlines(s: string): string {
    TrimRight(s, c => c == '\n')
  }

  /** What removal means: the first section with the handle goes, and one blank line before it. */
  function Removed(body: string, handle: string): string {
    var lines := Split(body, '\n');
    var first := FirstWith(lines, handle, 0);
    if first == |lines| then body
    else
      var start := if first > 0 && Blank(lines[first - 1]) then first - 1 else first;
      WithoutNewlines(Join(lines[..start] + lines[NextHeader(lines, first + 1)..], '\n')) + "\n"
  }

  /** The texts of the sections that begin at line `i` or later. */
  function SectionsFrom(lines: seq<string>, i: nat): seq<string>
    requires i <= |lines|
    decreases |lines| - i
  {
    var start := NextHeader(lines, i);
    if start == |lines| then []
    else [Join(lines[start..NextHeader(lines, start + 1)], '\n')] + SectionsFrom(lines, start + 1)
  }

  lemma SectionsSkip(lines: seq<string>, i: nat, j: nat)
    requires i <= j <= |lines| && forall k | i <= k < j :: !IsHeader(lines[k])
    ensures SectionsFrom(lines, i) == SectionsFrom(lines, j)
  {
    NextHeaderIs(lines, i, NextHeader(lines, j));
  }

  /** The section that begins at `start` reaches to the next header line, or the end. */
  lemma SectionsStep(lines: seq<string>, start: nat, end: nat)
    requires start < end <= |lines| && IsHeader(lines[start]) && (end < |lines| ==> IsHeader(lines[end]))
    requires forall k | start < k < end :: !IsHeader(lines[k])
    ensures SectionsFrom(lines, start) == [Join(lines[start..end], '\n')] + SectionsFrom(lines, end)
  {
    NextHeaderIs(lines, start, start);
    NextHeaderIs(lines, start + 1, end);
    SectionsSkip(lines, start + 1, end);
  }

  /** The sections, joined again, are the text from the first header line on: nothing is lost between them. */
  lemma {:induction false} SectionsCoverText(lines: seq<string>, i: nat)
    requires i <= |lines|
    ensures Join(SectionsFrom(lines, i), '\n') == Join(lines[NextHeader(lines, i)..], '\n')
    ensures SectionsFrom(lines, i) == [] <==> NextHeader(lines, i) == |lines|
    decreases |lines| - i
  {
    hide IsHeader, NextHeader, Join;
    var start := NextHeader(lines, i);
    if start < |lines| {
      SectionsCoverText(lines, start + 1);
      CoverStep(lines, start, NextHeader(lines, start + 1), SectionsFrom(lines, start + 1));
    } else {
      assert lines[start..] == [];
    }
  }

  lemma CoverStep(lines: seq<string>, start: nat, end: nat, rest: seq<string>)
    requires start < end <= |lines| && Join(rest, '\n') == Join(lines[end..], '\n') && (rest == [] <==> end == |lines|)
    ensures Join([Join(lines[start..end], '\n')] + rest, '\n') == Join(lines[start..], '\n')
  {
    if rest == [] {
      assert lines[start..end] == lines[start..];
    } else {
      JoinConcat(lines[start..end], lines[end..], '\n');
      JoinConcat([Join(lines[start..end], '\n')], rest, '\n');
      assert lines[start..] == lines[start..end] + lines[end..];
    }
  }

  // ---- The code ----

  method SplitSkillIndexSections(body: string) returns (sections: seq<string>)
    ensures sections == SectionsFrom(Split(body, '\n'), 0)
  {
    hide IsHeader, SectionsFrom, Join, Split;
    var lines := Split(body, '\n');
    sections := [];
    var start := -1;
    for i := 0 to |lines|
      invariant -1 <= start < i && (start >= 0 ==> IsHeader(lines[start]))
      invariant forall k | start < k < i :: !IsHeader(lines[k])
      invariant SectionsFrom(lines, 0) == sections + SectionsFrom(lines, if start < 0 then 0 else start)
    {
      if IsHeader(lines[i]) {
        if start >= 0 {
          SectionsStep(lines, start, i);
          sections := sections + [Join(lines[start..i], '\n')];
        } else {
          SectionsSkip(lines, 0, i);
        }
        start := i;
      }
    }
    NoSections(lines);
    if start >= 0 {
      SectionsStep(lines, start, |lines|);
      assert lines[start..] == lines[start..|lines|];
      sections := sections + [Join(lines[start..], '\n')];
    } else {
      SectionsSkip(lines, 0, |lines|);
    }
  }

  lemma NoSections(lines: seq<string>)
    ensures SectionsFrom(lines, |lines|) == []
  {
  }

  lemma NextHeaderIs(lines: seq<string>, i: nat, j: nat)
    requires i <= j <= |lines| && (j < |lines| ==> IsHeader(lines[j]))
    requires forall k | i <= k < j :: !IsHeader(lines[k])
    ensures NextHeader(lines, i) == j
  {
  }

  method SectionHandle(section: string) returns (handle: string)
    ensures var lines := Split(section, '\n');
            var first := NextHeader(lines, 0);
            handle == if first < |lines| then HandleOf(lines[first]) else ""
  {
    var lines := Split(section, '\n');
    for i := 0 to |lines|
      invariant forall k | 0 <= k < i :: !IsHeader(lines[k])
    {
      var line := TrimSpace(lines[i]);
      if "## " <= line {
        NextHeaderIs(lines, 0, i);
        return TrimSpace(line[3..]);
      }
    }
    NextHeaderIs(lines, 0, |lines|);
    handle := "";
  }

  /** A stretch of lines is recovered from its text. */
  lemma StretchText(lines: seq<string>, i: nat, j: nat)
    requires i < j <= |lines| && forall p | p in lines :: '\n' !in p
    ensures Split(Join(lines[i..j], '\n'), '\n') == lines[i..j]
  {
    assert forall p | p in lines[i..j] :: p in lines;
    SplitJoin(lines[i..j], '\n');
  }

  lemma HeadersAreNotBlank(lines: seq<string>)
    ensures forall line | line in lines && IsHeader(line) :: !Blank(line)
  {
  }

  method RemoveSkillIndexSection(body: string, handle: string) returns (updated: string)
    ensures updated == Removed(body, handle)
  {
    hide IsHeader, HandleOf, Join, Split;
    var lines := Split(body, '\n');
    var sections := SplitSkillIndexSections(body);
    if |sections| == 0 {
      FirstWithIs(lines, handle, |lines|);
      return body;
    }
    var removeStart, removeEnd := FindSection(body, lines, sections, handle);
    if removeStart < 0 {
      return body;
    }
    if removeStart > 0 && Blank(lines[removeStart - 1]) {
      removeStart := removeStart - 1;
    }
    assert removeEnd < |lines| ==> !Blank(lines[removeEnd]) by { HeadersAreNotBlank(lines); }
    if removeEnd < |lines| && Blank(lines[removeEnd]) {
      removeEnd := removeEnd + 1;
    }
    updated := WithoutNewlines(Join(lines[..removeStart] + lines[removeEnd..], '\n')) + "\n";
  }

  /** The first section with the handle, if any, and where its lines are. */
  method FindSection(ghost body: string, lines: seq<string>, sections: seq<string>, handle: string)
    returns (start: int, end: int)
    requires lines == Split(body, '\n') && sections == SectionsFrom(lines, 0)
    ensures var first := FirstWith(lines, handle, 0);
            if first == |lines| then start == -1 else start == first && end == NextHeader(lines, first + 1)
  {
    hide HasHandle, NextHeader, SectionsFrom, FirstWith, Join, Split;
    PartsHaveNoSeparator(body, '\n');
    ghost var p: nat := 0;
    for n := 0 to |sections|
      invariant p <= |lines| && sections[n..] == SectionsFrom(lines, p)
      invariant forall k | 0 <= k < p :: !HasHandle(lines[k], handle)
    {
      ghost var s := NextSection(lines, p, handle);
      assert sections[n] == sections[n..][0];
      assert sections[n + 1..] == sections[n..][1..];
      var found := TestSection(lines, sections[n], s, handle);
      if found {
        start, end := FindWindow(lines, sections[n], s, NextHeader(lines, s + 1), handle);
        FirstWithIs(lines, handle, s);
        return;
      }
      p := s + 1;
    }
    NoSectionLeft(lines, p, handle);
    FirstWithIs(lines, handle, |lines|);
    start, end := -1, -1;
  }

  lemma NextSection(lines: seq<string>, p: nat, handle: string) returns (s: nat)
    requires p <= |lines| && SectionsFrom(lines, p) != []
    ensures p <= s < |lines| && IsHeader(lines[s])
    ensures SectionsFrom(lines, p)[0] == Join(lines[s..NextHeader(lines, s + 1)], '\n')
    ensures SectionsFrom(lines, p)[1..] == SectionsFrom(lines, s + 1)
    ensures forall k | p <= k < s :: !HasHandle(lines[k], handle)
  {
    s := NextHeader(lines, p);
  }

  lemma NoSectionLeft(lines: seq<string>, p: nat, handle: string)
    requires p <= |lines| && SectionsFrom(lines, p) == []
    ensures forall k | p <= k < |lines| :: !HasHandle(lines[k], handle)
  {
    assert NextHeader(lines, p) == |lines|;
  }

  lemma FirstWithIs(lines: seq<string>, handle: string, j: nat)
    requires j <= |lines| && (j < |lines| ==> HasHandle(lines[j], handle))
    requires forall k | 0 <= k < j :: !HasHandle(lines[k], handle)
    ensures FirstWith(lines, handle, 0) == j
  {
  }

  /** Whether the section that begins at line `s` has the handle. */
  method TestSection(ghost lines: seq<string>, section: string, ghost s: nat, handle: string) returns (found: bool)
    requires s < |lines| && IsHeader(lines[s]) && section == Join(lines[s..NextHeader(lines, s + 1)], '\n')
    requires forall p | p in lines :: '\n' !in p
    ensures found == HasHandle(lines[s], handle)
  {
    StretchText(lines, s, NextHeader(lines, s + 1));
    var h := SectionHandle(section);
    assert lines[s..NextHeader(lines, s + 1)][0] == lines[s];
    found := h == handle;
  }

  /** The search for the section's text among all lines lands on the section itself. */
  method FindWindow(lines: seq<string>, section: string, ghost s: nat, ghost e: nat, ghost handle: string)
    returns (start: int, end: int)
    requires s < e <= |lines| && section == Join(lines[s..e], '\n') && forall p | p in lines :: '\n' !in p
    requires HasHandle(lines[s], handle) && forall k | 0 <= k < s :: !HasHandle(lines[k], handle)
    ensures start == s && end == e
  {
    StretchText(lines, s, e);
    var sectionLines := Split(section, '\n');
    var i := 0;
    while i <= |lines| - |sectionLines|
      invariant 0 <= i <= s
    {
      if Join(lines[i..i + |sectionLines|], '\n') == section {
        StretchText(lines, i, i + |sectionLines|);
        assert lines[i..i + |sectionLines|][0] == lines[s..e][0];
        return i, i + |sectionLines|;
      }
      i := i + 1;
    }
    assert false;
  }

  // ---- What removal does to the list of handles ----

  function WithoutFirst(handles: seq<string>, handle: string): seq<string> {
    if handles == [] then []
    else if handles[0] == handle then handles[1..]
    else [handles[0]] + WithoutFirst(handles[1..], handle)
  }

  lemma {:induction false} HandlesConcat(p: seq<string>, q: seq<string>)
    ensures Handles(p + q) == Handles(p) + Handles(q)
    decreases |p|
  {
    hide IsHeader, HandleOf;
    if p == [] {
      assert p + q == q;
    } else {
      HandlesConcat(p[1..], q);
      assert (p + q)[1..] == p[1..] + q;
    }
  }

  lemma {:induction false} NoHandles(lines: seq<string>)
    requires forall line | line in lines :: !IsHeader(line)
    ensures Handles(lines) == []
    decreases |lines|
  {
    if lines != [] {
      NoHandles(lines[1..]);
    }
  }

  lemma {:induction false} HandlesAre(lines: seq<string>, handle: string)
    ensures handle in Handles(lines) <==> exists k :: 0 <= k < |lines| && HasHandle(lines[k], handle)
    decreases |lines|
  {
    hide IsHeader, HandleOf;
    if lines != [] {
      HandlesAre(lines[1..], handle);
      if handle in Handles(lines[1..]) {
        var k :| 0 <= k < |lines[1..]| && HasHandle(lines[1..][k], handle);
        assert HasHandle(lines[k + 1], handle);
      }
      if k :| 0 <= k < |lines| && HasHandle(lines[k], handle) {
        assert k > 0 ==> HasHandle(lines[1..][k - 1], handle);
      }
    }
  }

  lemma {:induction false} WithoutFirstOf(p: seq<string>, q: seq<string>, handle: string)
    requires handle !in p
    ensures WithoutFirst(p + [handle] + q, handle) == p + q
    decreases |p|
  {
    if p == [] {
      assert ([handle] + q)[1..] == q;
    } else {
      assert p[0] in p;
      WithoutFirstOf(p[1..], q, handle);
      assert (p + [handle] + q)[1..] == p[1..] + [handle] + q;
    }
  }

  /** Trailing newlines hold no section. */
  lemma {:induction false} HandlesOfTrimmed(s: string)
    ensures Handles(Split(WithoutNewlines(s) + "\n", '\n')) == Handles(Split(s, '\n'))
    ensures Handles(Split(WithoutNewlines(s), '\n')) == Handles(Split(s, '\n'))
    decreases |s|
  {
    var t := WithoutNewlines(s);
    var n := TrimRightSplits(s, c => c == '\n');
    HandlesOfNewlines(t, s[n..]);
    HandlesOfNewlines(t, "\n");
    assert s == t + s[n..];
  }

  lemma {:induction false} HandlesOfNewlines(s: string, newlines: string)
    requires forall i | 0 <= i < |newlines| :: newlines[i] == '\n'
    ensures Handles(Split(s + newlines, '\n')) == Handles(Split(s, '\n'))
    decreases |newlines|
  {
    if newlines == "" {
      assert s + newlines == s;
    } else {
      var t := s + newlines[..|newlines| - 1];
      HandlesOfNewlines(s, newlines[..|newlines| - 1]);
      assert s + newlines == t + ['\n'] + "";
      SplitConcat(t, "", '\n');
      HandlesConcat(Split(t, '\n'), [""]);
      NoHandles([""]);
    }
  }

  /** Cutting out a section: what stands before, its handle, what stands after. */
  lemma HandlesAround(lines: seq<string>, start: nat, end: nat)
    requires start < end <= |lines| && IsHeader(lines[start])
    requires forall k | start < k < end :: !IsHeader(lines[k])
    ensures Handles(lines) == Handles(lines[..start]) + [HandleOf(lines[start])] + Handles(lines[end..])
  {
    hide IsHeader, HandleOf, Handles;
    HandlesOfSection(lines[start..end]);
    HandlesConcat(lines[..start], lines[start..end]);
    HandlesConcat(lines[..end], lines[end..]);
    assert lines[..end] == lines[..start] + lines[start..end] && lines == lines[..end] + lines[end..];
  }

  lemma HandlesOfSection(lines: seq<string>)
    requires lines != [] && IsHeader(lines[0]) && forall k | 0 < k < |lines| :: !IsHeader(lines[k])
    ensures Handles(lines) == [HandleOf(lines[0])]
  {
    hide IsHeader, HandleOf;
    NoHandles(lines[1..]);
  }

  lemma HandlesOfJoined(lines: seq<string>)
    requires forall p | p in lines :: '\n' !in p
    ensures Handles(Split(Join(lines, '\n'), '\n')) == Handles(lines)
  {
    if lines == [] {
      NoHandles([[]]);
    } else {
      SplitJoin(lines, '\n');
    }
  }

  /** Removal takes exactly the first section with the handle, and without one leaves the text alone. */
  lemma RemovalDropsFirstSection(body: string, handle: string)
    ensures var before := Handles(Split(body, '\n'));
            if handle in before
            then Handles(Split(Removed(body, handle), '\n')) == WithoutFirst(before, handle)
            else Removed(body, handle) == body
  {
    hide IsHeader, HandleOf, Handles, Join, Split, WithoutNewlines;
    var lines := Split(body, '\n');
    var first := FirstWith(lines, handle, 0);
    HandlesAre(lines, handle);
    if first < |lines| {
      assert HasHandle(lines[first], handle);
      var next := NextHeader(lines, first + 1);
      var start := if first > 0 && Blank(lines[first - 1]) then first - 1 else first;
      PartsHaveNoSeparator(body, '\n');
      HandlesAround(lines, first, next);
      HandlesAre(lines[..first], handle);
      assert forall k | 0 <= k < first :: lines[..first][k] == lines[k];
      WithoutFirstOf(Handles(lines[..first]), Handles(lines[next..]), handle);
      BlankBefore(lines, start, first);
      HandlesConcat(lines[..start], lines[next..]);
      HandlesOfJoined(lines[..start] + lines[next..]);
      HandlesOfTrimmed(Join(lines[..start] + lines[next..], '\n'));
    }
  }

  lemma BlankBefore(lines: seq<string>, start: nat, first: nat)
    requires start <= first <= start + 1 && first < |lines| && (start < first ==> Blank(lines[start]))
    ensures Handles(lines[..start]) == Handles(lines[..first])
  {
    HeadersAreNotBlank(lines);
    assert lines[..first] == lines[..start] + lines[start..first];
    HandlesConcat(lines[..start], lines[start..first]);
    NoHandles(lines[start..first]);
  }
}
