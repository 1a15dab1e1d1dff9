/**
 Adding a skill to the standalone index, and taking it out again
 (internal/agentlibrary/importer.go:1724-1755).
 */
module SkillIndexEntry {
  import opened Text
  import opened SkillIndex
  import opened Slugs

  datatype Entry = Entry(key: string, name: string, description: string)

  /** The text a section shows under its header. */
  function EntryText(e: Entry): string {
    var name := if e.name != "" then e.name else TitleFromSlug(e.key);
    var desc := TrimSpace(e.description);
    "[" + name + "](" + e.key + "/SKILL.md)" + if desc != "" then " \U{2014} " + desc else ""
  }

  function Header(e: Entry): string {
    "## " + e.key
  }

  function RenderSection(e: Entry): string {
    Header(e) + "\n\n" + EntryText(e) + "\n"
  }

  /** The text the new section is put after. */
  function Base(body: string): string {
    var trimmed := WithoutNewlines(body);
    if Blank(trimmed) then "# Standalone Skills" else trimmed
  }

  function SectionText(lines: seq<string>, first: nat): string
    requires first < |lines|
  {
    Join(lines[first..NextHeader(lines, first + 1)], '\n')
  }

  /** The index after an import of `e`: a section already there is rewritten, otherwise one is added. */
  function Appended(body: string, e: Entry): string {
    if Blank(e.key) then body
    else
      var trimmed := WithoutNewlines(body);
      var lines := Split(trimmed, '\n');
      var first := FirstWith(lines, e.key, 0);
      if first < |lines| then
        WithoutNewlines(ReplaceFirst(trimmed, WithoutNewlines(SectionText(lines, first)), WithoutNewlines(RenderSection(e)))) + "\n"
      else Base(body) + "\n\n" + RenderSection(e)
  }

  /** No line of the entry would be taken for a header. */
  predicate HeaderFree(e: Entry) {
    forall line | line in Split(EntryText(e), '\n') :: !IsHeader(line)
  }

  /** The lines of an index to which a section has just been added. */
  function AppendedLines(body: string, e: Entry): seq<string> {
    UpToHeader(body, e) + Shown(Split(EntryText(e), '\n'))
  }

  function Shown(text: seq<string>): seq<string> {
    [""] + (text + [""])
  }

  function UpToHeader(body: string, e: Entry): seq<string> {
    Split(Base(body), '\n') + [""] + [Header(e)]
  }

  lemma SplitAppended(body: string, e: Entry)
    requires IsSlug(e.key)
    ensures Split(Base(body) + "\n\n" + RenderSection(e), '\n') == AppendedLines(body, e)
  {
    hide Split, Base, EntryText, IsSlug;
    SlugHasNoSpace(e.key);
    var base, header, text := Base(body), Header(e), EntryText(e);
    var t3 := text + ['\n'] + "";
    var t2 := "" + ['\n'] + t3;
    var t1 := header + ['\n'] + t2;
    var t0 := "" + ['\n'] + t1;
    SplitConcat(text, "", '\n');
    SplitConcat("", t3, '\n');
    SplitConcat(header, t2, '\n');
    SplitConcat("", t1, '\n');
    SplitConcat(base, t0, '\n');
    SplitWithout("", '\n');
    SplitWithout(header, '\n');
    assert base + "\n\n" + RenderSection(e) == base + ['\n'] + t0;
  }

  lemma HeaderNamesKey(e: Entry)
    requires IsSlug(e.key)
    ensures HasHandle(Header(e), e.key)
  {
    SlugHasNoSpace(e.key);
    assert e.key[|e.key| - 1] in e.key;
    TrimOfTight(Header(e), IsSpace);
    assert Header(e)[3..] == e.key;
  }

  /** The new section is the first with its handle. */
  lemma WhereAppended(body: string, e: Entry) returns (at: nat)
    requires IsSlug(e.key) && e.key !in Handles(Split(body, '\n'))
    ensures at == |Split(Base(body), '\n')| + 1 && at + 2 <= |AppendedLines(body, e)|
    ensures FirstWith(AppendedLines(body, e), e.key, 0) == at
    ensures FirstWith(Split(WithoutNewlines(body), '\n'), e.key, 0) == |Split(WithoutNewlines(body), '\n')|
  {
    hide Split, IsHeader, HandleOf, EntryText, Header, WithoutNewlines, FirstWith, Handles;
    var trimmed := Split(WithoutNewlines(body), '\n');
    HandlesOfTrimmed(body);
    AbsentFrom(trimmed, e.key);
    TitleHasNoHandle();
    var base := Split(Base(body), '\n');
    AbsentFrom(base, e.key);
    var all := AppendedLines(body, e);
    HeaderNamesKey(e);
    EmptyLineIsNoHeader();
    at := |base| + 1;
    assert all[at] == Header(e) && all[at - 1] == "";
    assert forall k | 0 <= k < |base| :: all[k] == base[k];
    FirstWithIs(all, e.key, at);
  }

  lemma AbsentFrom(lines: seq<string>, handle: string)
    requires handle !in Handles(lines)
    ensures forall k | 0 <= k < |lines| :: !HasHandle(lines[k], handle)
    ensures FirstWith(lines, handle, 0) == |lines|
  {
    HandlesAre(lines, handle);
    FirstWithIs(lines, handle, |lines|);
  }

  lemma EmptyLineIsNoHeader()
    ensures !IsHeader("")
  {
  }

  lemma TitleHasNoHandle()
    ensures Handles(Split("# Standalone Skills", '\n')) == []
  {
    hide Split, Handles, IsHeader;
    RootTitleIsOneLine();
    SplitWithout("# Standalone Skills", '\n');
    NoHandles(["# Standalone Skills"]);
  }

  lemma RootTitleIsOneLine()
    ensures !IsHeader("# Standalone Skills") && '\n' !in "# Standalone Skills"
  {
    hide TrimLeft, TrimRight;
    var title := "# Standalone Skills";
    assert title[|title| - 1] == 's' && title[0] == '#' && title[1] == ' ';
    TrimOfTight(title, IsSpace);
  }

  lemma BaseHasNoTrailingNewline(body: string)
    ensures Base(body) != "" && WithoutNewlines(Base(body)) == Base(body)
  {
    var n := TrimRightSplits(body, c => c == '\n');
  }

  /** What is left of the entry's own lines once its section is gone. */
  function Leftover(e: Entry): seq<string> {
    var lines := Split(EntryText(e), '\n');
    lines[NextHeader(lines, 0)..]
  }

  lemma AfterSection(body: string, e: Entry)
    requires IsSlug(e.key)
    ensures var at := |Split(Base(body), '\n')| + 1;
            AppendedLines(body, e)[NextHeader(AppendedLines(body, e), at + 1)..] ==
            if HeaderFree(e) then [] else Leftover(e) + [""]
  {
    hide Split, IsHeader, EntryText, Base, Header, NextHeader, Shown;
    var text := Split(EntryText(e), '\n');
    AfterFront(UpToHeader(body, e), text);
    AfterBlanks(text);
    HeaderFreeIff(e);
  }

  lemma HeaderFreeIff(e: Entry)
    ensures var text := Split(EntryText(e), '\n'); HeaderFree(e) == (NextHeader(text, 0) == |text|)
  {
    hide Split, IsHeader, EntryText, NextHeader;
    var text := Split(EntryText(e), '\n');
    assert NextHeader(text, 0) < |text| ==> text[NextHeader(text, 0)] in text;
  }

  lemma AfterFront(front: seq<string>, text: seq<string>)
    ensures var all := front + Shown(text);
            all[NextHeader(all, |front|)..] == Shown(text)[NextHeader(Shown(text), 0)..]
  {
    hide NextHeader, Shown;
    NextHeaderShift(front, Shown(text));
    DropConcat(front, Shown(text), NextHeader(front + Shown(text), |front|), NextHeader(Shown(text), 0));
  }

  lemma AfterBlanks(text: seq<string>)
    ensures Shown(text)[NextHeader(Shown(text), 0)..] ==
            if NextHeader(text, 0) == |text| then [] else text[NextHeader(text, 0)..] + [""]
  {
    hide NextHeader, Shown;
    NextHeaderInBlanks(text);
    if NextHeader(text, 0) < |text| {
      DropInner(text, NextHeader(text, 0));
    }
  }

  lemma DropConcat(p: seq<string>, q: seq<string>, i: nat, j: nat)
    requires j <= |q| && i == |p| + j
    ensures (p + q)[i..] == q[j..]
  {
  }

  lemma DropInner(text: seq<string>, n: nat)
    requires n <= |text|
    ensures Shown(text)[1 + n..] == text[n..] + [""]
  {
  }

  lemma NextHeaderShift(p: seq<string>, q: seq<string>)
    ensures NextHeader(p + q, |p|) == |p| + NextHeader(q, 0)
  {
    hide IsHeader, NextHeader;
    var n := NextHeader(q, 0);
    assert forall k | 0 <= k < |q| :: (p + q)[|p| + k] == q[k];
    forall k | |p| <= k < |p| + n
      ensures !IsHeader((p + q)[k])
    {
      assert (p + q)[k] == q[k - |p|];
    }
    NextHeaderIs(p + q, |p|, |p| + n);
  }

  lemma NextHeaderInBlanks(text: seq<string>)
    ensures NextHeader(Shown(text), 0) ==
            if NextHeader(text, 0) == |text| then |Shown(text)| else 1 + NextHeader(text, 0)
  {
    hide IsHeader, NextHeader;
    var rest := [""] + (text + [""]);
    var n := NextHeader(text, 0);
    EmptyLineIsNoHeader();
    assert forall k | 0 < k <= |text| :: rest[k] == text[k - 1];
    NextHeaderIs(rest, 0, if n == |text| then |rest| else 1 + n);
  }

  /** Removing what was just added leaves the text before it, and the entry's lines from its first header-like line on. */
  lemma RemoveAfterAppend(body: string, e: Entry)
    requires IsSlug(e.key) && e.key !in Handles(Split(body, '\n'))
    ensures Removed(Appended(body, e), e.key) ==
            if HeaderFree(e) then Base(body) + "\n"
            else WithoutNewlines(Base(body) + "\n" + Join(Leftover(e) + [""], '\n')) + "\n"
  {
    hide Split, IsHeader, HandleOf, EntryText, Header, WithoutNewlines, FirstWith, NextHeader, Handles, Base, Leftover, Join;
    hide HeaderFree;
    SlugHasNoSpace(e.key);
    var all := AppendedLines(body, e);
    var at := WhereAppended(body, e);
    SplitAppended(body, e);
    AfterSection(body, e);
    EmptyLineIsBlank();
    var base := Split(Base(body), '\n');
    assert all[at - 1] == "";
    assert all[..at - 1] == base;
    JoinSplit(Base(body), '\n');
    BaseHasNoTrailingNewline(body);
    if HeaderFree(e) {
      assert base + [] == base;
    } else {
      JoinConcat(base, Leftover(e) + [""], '\n');
    }
  }

  lemma EmptyLineIsBlank()
    ensures Blank("")
  {
  }

  lemma {:induction false} KeepsUpTo(s: string, drop: char -> bool, i: nat)
    requires i < |s| && !drop(s[i])
    ensures |TrimRight(s, drop)| > i
  {
    var n := TrimRightSplits(s, drop);
  }

  lemma HeaderHasHash(line: string) returns (i: nat)
    requires IsHeader(line)
    ensures i < |line| && line[i] == '#'
  {
    var lo, hi := TrimSplits(line, IsSpace);
    assert line[lo..hi][0] == '#';
    i := lo;
  }

  lemma LeftoverStarts(e: Entry)
    requires !HeaderFree(e)
    ensures Leftover(e) != [] && IsHeader(Leftover(e)[0])
    ensures Leftover(e)[0] <= Join(Leftover(e) + [""], '\n')
  {
    hide Split, IsHeader, EntryText;
    HeaderFreeIff(e);
  }

  /** Removal undoes the addition, up to trailing newlines, exactly when no line of the entry looks like a header. */
  lemma AppendThenRemove(body: string, e: Entry)
    requires IsSlug(e.key) && e.key !in Handles(Split(body, '\n'))
    ensures Removed(Appended(body, e), e.key) == Base(body) + "\n" <==> HeaderFree(e)
  {
    hide Split, IsHeader, EntryText, Base, HeaderFree, Leftover, Removed, Appended;
    RemoveAfterAppend(body, e);
    if !HeaderFree(e) {
      LeftoverStarts(e);
      var i := HeaderHasHash(Leftover(e)[0]);
      var rest := Join(Leftover(e) + [""], '\n');
      assert rest[i] == '#';
      KeepsUpTo(Base(body) + "\n" + rest, c => c == '\n', |Base(body)| + 1 + i);
    }
  }

  lemma EntryEndsTight(e: Entry)
    ensures EntryText(e) != "" && !IsSpace(EntryText(e)[|EntryText(e)| - 1])
  {
    TrimIsTight(e.description, IsSpace);
  }

  /** With a one-line name and description the entry is one line, and it is no header. */
  lemma OneLineIsHeaderFree(e: Entry)
    requires IsSlug(e.key) && '\n' !in e.name && '\n' !in e.description
    ensures HeaderFree(e)
  {
    hide Split, TitleFrom;
    var text := EntryText(e);
    SlugHasNoSpace(e.key);
    TitleIsOneLine(e.key, false, false);
    TrimIsTight(e.description, IsSpace);
    var name := if e.name != "" then e.name else TitleFromSlug(e.key);
    assert '\n' !in name && '\n' !in e.key && '\n' !in TrimSpace(e.description);
    assert '\n' !in "[" + name + "](" + e.key;
    assert '\n' !in "/SKILL.md)";
    assert '\n' !in " \U{2014} ";
    SplitWithout(text, '\n');
    EntryEndsTight(e);
    var lo, hi := TrimSplits(text, IsSpace);
    assert text[0] == '[' && lo == 0;
    assert lo < hi ==> text[lo..hi][0] == '[';
  }

  lemma ReplaceBySame(s: string, from: string)
    ensures ReplaceFirst(s, from, from) == s
  {
    hide IndexOf;
    var i := IndexOf(s, from, 0);
    if from <= s[i..] {
      var after := s[i + |from|..];
      assert s[i..i + |from|] == from;
      assert s == s[..i] + s[i..i + |from|] + after;
    }
  }

  lemma SameFront<T>(p: seq<T>, q: seq<T>, r: seq<T>)
    ensures p + r == q + r ==> p == q
  {
    if |p| == |q| {
      assert (p + r)[..|p|] == p && (q + r)[..|q|] == q;
    }
  }

  /** The lines of the same index without its last newline. */
  function TrimmedLines(body: string, e: Entry): seq<string> {
    UpToHeader(body, e) + ([""] + Split(EntryText(e), '\n'))
  }

  lemma TrimmedLinesAre(body: string, e: Entry)
    requires IsSlug(e.key)
    ensures Split(Base(body) + "\n\n" + (Header(e) + "\n\n" + EntryText(e)), '\n') == TrimmedLines(body, e)
  {
    hide Split, Base, EntryText, Header;
    var before := Base(body) + "\n\n" + (Header(e) + "\n\n" + EntryText(e));
    SplitAppended(body, e);
    SplitConcat(before, "", '\n');
    SplitWithout("", '\n');
    assert Base(body) + "\n\n" + RenderSection(e) == before + ['\n'] + "";
    assert AppendedLines(body, e) == TrimmedLines(body, e) + [""];
    SameFront(Split(before, '\n'), TrimmedLines(body, e), [""]);
  }

  lemma SectionFound(body: string, e: Entry, at: nat)
    requires IsSlug(e.key) && HeaderFree(e)
    requires at == |Split(Base(body), '\n')| + 1 && FirstWith(AppendedLines(body, e), e.key, 0) == at
    ensures var lines := TrimmedLines(body, e);
            at < |lines| && FirstWith(lines, e.key, 0) == at
            && SectionText(lines, at) == Header(e) + "\n\n" + EntryText(e)
  {
    hide Split, Join, IsHeader, HandleOf, EntryText, Header, Base, FirstWith, NextHeader;
    var lines, all := TrimmedLines(body, e), AppendedLines(body, e);
    var text := Split(EntryText(e), '\n');
    assert forall k | 0 <= k < |lines| :: lines[k] == all[k];
    FirstWithIs(lines, e.key, at);
    EmptyLineIsNoHeader();
    forall k | at + 1 <= k < |lines|
      ensures !IsHeader(lines[k])
    {
      assert lines[k] == if k == at + 1 then "" else text[k - at - 2];
    }
    NextHeaderIs(lines, at + 1, |lines|);
    assert lines[at..|lines|] == [Header(e)] + ([""] + text);
    JoinEntry(e);
  }

  lemma JoinEntry(e: Entry)
    ensures Join([Header(e)] + ([""] + Split(EntryText(e), '\n')), '\n') == Header(e) + "\n\n" + EntryText(e)
  {
    hide Split, EntryText, Header;
    var text := Split(EntryText(e), '\n');
    JoinSplit(EntryText(e), '\n');
    JoinConcat([""], text, '\n');
    JoinConcat([Header(e)], [""] + text, '\n');
  }

  /** A section's text without its last newline. */
  function Section(e: Entry): string {
    Header(e) + "\n\n" + EntryText(e)
  }

  /** Importing again under the same key rewrites the first occurrence of the old section's text. */
  lemma AppendAgain(body: string, e: Entry, newer: Entry)
    requires IsSlug(e.key) && e.key !in Handles(Split(body, '\n')) && HeaderFree(e) && newer.key == e.key
    ensures Appended(body, e) == Base(body) + "\n\n" + Section(e) + "\n"
    ensures Appended(Appended(body, e), newer) ==
            WithoutNewlines(ReplaceFirst(Base(body) + "\n\n" + Section(e), Section(e), Section(newer))) + "\n"
  {
    hide Split, Join, IsHeader, HandleOf, EntryText, Base, HeaderFree, Header, FirstWith, NextHeader, Handles, IsSlug, WithoutNewlines, ReplaceFirst;
    SlugHasNoSpace(e.key);
    var at := WhereAppended(body, e);
    assert Base(body) + "\n\n" + RenderSection(e) == Base(body) + "\n\n" + Section(e) + "\n";
    SectionTrims(Base(body) + "\n\n", e);
    SectionTrims("", e);
    SectionTrims("", newer);
    assert "" + Section(e) == Section(e) && "" + Section(newer) == Section(newer);
    assert RenderSection(newer) == Section(newer) + "\n";
    TrimmedLinesAre(body, e);
    SplitAppended(body, e);
    SectionFound(body, e, at);
  }

  // ---- The same entry again ----

  /** The text of the first section with a key, without trailing newlines; empty if there is none. */
  function SectionOf(body: string, key: string): string {
    var lines := Split(WithoutNewlines(body), '\n');
    var first := FirstWith(lines, key, 0);
    if first < |lines| then WithoutNewlines(SectionText(lines, first)) else ""
  }

  /**
   A second import of the same entry changes nothing exactly when the first one left the entry
   standing under its key, whatever was in the index before.
   */
  lemma SecondImportIsIdleIff(body: string, e: Entry)
    requires IsSlug(e.key)
    ensures var once := Appended(body, e);
            Appended(once, e) == once <==> SectionOf(once, e.key) == Section(e)
  {
    hide Split, Join, IsHeader, HandleOf, EntryText, Header, FirstWith, NextHeader, IsSlug, WithoutNewlines, ReplaceFirst, SectionText, Appended;
    SlugHasNoSpace(e.key);
    var once := Appended(body, e);
    var text := WithoutNewlines(once);
    AppendedEnds(body, e);
    SectionTrims("", e);
    assert "" + Section(e) == Section(e) && RenderSection(e) == Section(e) + "\n";
    var lines := Split(text, '\n');
    var first := FirstWith(lines, e.key, 0);
    AppendedIs(once, e);
    if first < |lines| {
      SectionOccurs(text, first);
      StartsAlike(e, e);
      ReplacedIsSame(text, SectionOf(once, e.key), Section(e));
      SameFront(ReplaceFirst(text, SectionOf(once, e.key), Section(e)), text, "\n");
    } else {
      AddedIsLonger(once, e);
    }
  }

  lemma AppendedIs(body: string, e: Entry)
    requires IsSlug(e.key)
    ensures var text := WithoutNewlines(body);
            Appended(body, e) ==
            if FirstWith(Split(text, '\n'), e.key, 0) < |Split(text, '\n')|
            then WithoutNewlines(ReplaceFirst(text, SectionOf(body, e.key), Section(e))) + "\n"
            else Base(body) + "\n\n" + Section(e) + "\n"
  {
    hide Split, IsHeader, HandleOf, EntryText, Header, FirstWith, NextHeader, IsSlug, WithoutNewlines, ReplaceFirst, SectionText, Base;
    SlugHasNoSpace(e.key);
    SectionTrims("", e);
    assert "" + Section(e) == Section(e) && RenderSection(e) == Section(e) + "\n";
    assert Base(body) + "\n\n" + RenderSection(e) == Base(body) + "\n\n" + Section(e) + "\n";
  }

  lemma NewlinesGoOnce(s: string)
    ensures WithoutNewlines(WithoutNewlines(s) + "\n") == WithoutNewlines(s)
    ensures WithoutNewlines(s) != "" ==> WithoutNewlines(s)[|WithoutNewlines(s)| - 1] != '\n'
  {
    var n := TrimRightSplits(s, c => c == '\n');
    var t := WithoutNewlines(s);
    var m := TrimRightSplits(t + "\n", c => c == '\n');
    assert (t + "\n")[..|t|] == t;
  }

  /** What an import writes ends in exactly one newline. */
  lemma AppendedEnds(body: string, e: Entry)
    requires IsSlug(e.key)
    ensures Appended(body, e) == WithoutNewlines(Appended(body, e)) + "\n"
    ensures WithoutNewlines(WithoutNewlines(Appended(body, e))) == WithoutNewlines(Appended(body, e))
  {
    hide Split, FirstWith, IsSlug, WithoutNewlines, ReplaceFirst, SectionOf, Section, Base, Appended;
    AppendedIs(body, e);
    SectionEnds(Base(body) + "\n\n", e);
    NewlinesGoOnce(Base(body) + "\n\n" + Section(e));
    var text := WithoutNewlines(body);
    NewlinesGoOnce(ReplaceFirst(text, SectionOf(body, e.key), Section(e)));
    TrimRightTwice(Appended(body, e));
  }

  lemma TrimRightTwice(s: string)
    ensures WithoutNewlines(WithoutNewlines(s)) == WithoutNewlines(s)
  {
    var n := TrimRightSplits(s, c => c == '\n');
  }

  lemma SectionOccurs(text: string, first: nat)
    requires first < |Split(text, '\n')|
    ensures var section := WithoutNewlines(SectionText(Split(text, '\n'), first));
            exists j :: 0 <= j <= |text| && section <= text[j..]
  {
    hide Split, Join, IsHeader, NextHeader;
    var lines := Split(text, '\n');
    var next := NextHeader(lines, first + 1);
    var whole := Join(lines[first..next], '\n');
    var n := TrimRightSplits(whole, c => c == '\n');
    JoinSplit(text, '\n');
    var rest := if next < |lines| then "\n" + Join(lines[next..], '\n') else "";
    if next < |lines| {
      JoinConcat(lines[first..next], lines[next..], '\n');
      assert lines[first..] == lines[first..next] + lines[next..];
    } else {
      assert lines[first..] == lines[first..next];
    }
    assert Join(lines[first..], '\n') == whole + rest;
    var before := if first > 0 then Join(lines[..first], '\n') + "\n" else "";
    if first > 0 {
      JoinConcat(lines[..first], lines[first..], '\n');
      assert lines == lines[..first] + lines[first..];
    } else {
      assert lines[first..] == lines;
    }
    assert text == before + (whole + rest);
    assert text[|before|..] == whole + rest;
    assert whole[..n] <= text[|before|..];
  }

  /** Replacing one text by another is idle only if they are the same. */
  lemma ReplacedIsSame(s: string, from: string, to: string)
    requires exists j :: 0 <= j <= |s| && from <= s[j..]
    requires WithoutNewlines(s) == s && to != "" && to[|to| - 1] != '\n'
    ensures WithoutNewlines(ReplaceFirst(s, from, to)) == ReplaceFirst(s, from, to)
    ensures ReplaceFirst(s, from, to) == s <==> from == to
  {
    hide IndexOf, WithoutNewlines;
    var i := IndexOf(s, from, 0);
    OccursAtIndex(s, from);
    var after := s[i + |from|..];
    assert s[i..][..|from|] == from;
    assert s == s[..i] + from + after;
    assert ReplaceFirst(s, from, to) == s[..i] + to + after;
    PutIsTight(s[..i], from, to, after);
    if s[..i] + to + after == s[..i] + from + after {
      SameMiddle(s[..i], to, from, after);
    }
  }

  lemma OccursAtIndex(s: string, sub: string)
    requires exists j :: 0 <= j <= |s| && sub <= s[j..]
    ensures sub <= s[IndexOf(s, sub, 0)..]
  {
    hide IndexOf;
    var j :| 0 <= j <= |s| && sub <= s[j..];
    if IndexOf(s, sub, 0) == |s| {
      assert j == |s|;
    }
  }

  lemma PutIsTight(before: string, from: string, to: string, after: string)
    requires WithoutNewlines(before + from + after) == before + from + after && to != "" && to[|to| - 1] != '\n'
    ensures WithoutNewlines(before + to + after) == before + to + after
  {
    var s, t := before + from + after, before + to + after;
    var n := TrimRightSplits(s, c => c == '\n');
    assert after != "" ==> after[|after| - 1] == s[|s| - 1] == t[|t| - 1];
    assert after == "" ==> to[|to| - 1] == t[|t| - 1];
    TightIsKept(t);
  }

  lemma SameMiddle(p: string, x: string, y: string, q: string)
    requires p + x + q == p + y + q
    ensures x == y
  {
    assert (p + x + q)[|p|..|p| + |x|] == x && (p + y + q)[|p|..|p| + |y|] == y;
  }

  lemma AddedIsLonger(body: string, e: Entry)
    ensures Base(body) + "\n\n" + Section(e) + "\n" != WithoutNewlines(body) + "\n"
  {
    hide Section, WithoutNewlines;
    var text := WithoutNewlines(body);
    StartsAlike(e, e);
    if Blank(text) {
      var added := Base(body) + "\n\n" + Section(e) + "\n";
      assert added[0] == '#';
      var lo, hi := TrimSplits(text, IsSpace);
      assert text == "" || IsSpace(text[0]);
    }
  }

  /** Where there was no section under the key, that is so exactly for an entry without header-like lines. */
  lemma AppendIsIdempotent(body: string, e: Entry)
    requires IsSlug(e.key) && e.key !in Handles(Split(body, '\n'))
    ensures Appended(Appended(body, e), e) == Appended(body, e) <==> HeaderFree(e)
  {
    hide Split, Base, HeaderFree, Section, Handles, IsSlug, WithoutNewlines, Appended, SectionOf;
    SecondImportIsIdleIff(body, e);
    AppendedNew(body, e);
    SectionOfAppended(body, e);
  }

  lemma SectionOfAppended(body: string, e: Entry)
    requires IsSlug(e.key) && e.key !in Handles(Split(body, '\n'))
    ensures SectionOf(Base(body) + "\n\n" + Section(e) + "\n", e.key) == Section(e) <==> HeaderFree(e)
  {
    hide Split, Join, IsHeader, HandleOf, EntryText, Base, HeaderFree, Header, FirstWith, NextHeader, Handles, IsSlug, WithoutNewlines;
    var at := WhereAppended(body, e);
    SectionTrims(Base(body) + "\n\n", e);
    SectionTrims("", e);
    assert "" + Section(e) == Section(e);
    TrimmedLinesAre(body, e);
    FirstOfTrimmed(body, e, at);
    if HeaderFree(e) {
      SectionFound(body, e, at);
    } else {
      SectionIsCut(body, e, at);
    }
  }

  lemma FirstOfTrimmed(body: string, e: Entry, at: nat)
    requires IsSlug(e.key) && at == |Split(Base(body), '\n')| + 1 && FirstWith(AppendedLines(body, e), e.key, 0) == at
    ensures at < |TrimmedLines(body, e)| && FirstWith(TrimmedLines(body, e), e.key, 0) == at
  {
    hide Split, IsHeader, HandleOf, EntryText, Header, Base, FirstWith;
    var lines, all := TrimmedLines(body, e), AppendedLines(body, e);
    assert forall k | 0 <= k < |lines| :: lines[k] == all[k];
    FirstWithIs(lines, e.key, at);
  }

  lemma FromHeaderOn(body: string, e: Entry, at: nat)
    requires at == |Split(Base(body), '\n')| + 1 && at <= |TrimmedLines(body, e)|
    ensures TrimmedLines(body, e)[at..] == [Header(e)] + ([""] + Split(EntryText(e), '\n'))
  {
    hide Split, EntryText, Base, Header;
    var before := Split(Base(body), '\n') + [""];
    assert TrimmedLines(body, e) == before + ([Header(e)] + ([""] + Split(EntryText(e), '\n')));
  }

  lemma SectionIsCut(body: string, e: Entry, at: nat)
    requires at == |Split(Base(body), '\n')| + 1 && at < |TrimmedLines(body, e)| && !HeaderFree(e)
    ensures WithoutNewlines(SectionText(TrimmedLines(body, e), at)) != Section(e)
  {
    hide Split, IsHeader, EntryText, Base, Header, NextHeader, TrimmedLines, SectionText, WithoutNewlines;
    var lines := TrimmedLines(body, e);
    var text := Split(EntryText(e), '\n');
    HeaderFreeIff(e);
    FromHeaderOn(body, e, at);
    JoinEntry(e);
    var k := NextHeader(text, 0);
    assert lines[at + 2 + k] == lines[at..][2 + k] == text[k];
    SectionEndsEarly(lines, at, at + 2 + k);
  }

  lemma SectionEndsEarly(lines: seq<string>, at: nat, later: nat)
    requires at < later < |lines| && IsHeader(lines[later])
    ensures |WithoutNewlines(SectionText(lines, at))| < |Join(lines[at..], '\n')|
  {
    hide Join, IsHeader, NextHeader;
    var next := NextHeader(lines, at + 1);
    JoinConcat(lines[at..next], lines[next..], '\n');
    assert lines[at..] == lines[at..next] + lines[next..];
    var n := TrimRightSplits(Join(lines[at..next], '\n'), c => c == '\n');
  }

  lemma SectionEnds(before: string, e: Entry)
    ensures WithoutNewlines(before + Section(e)) == before + Section(e)
  {
    SectionTrims(before, e);
  }

  // ---- A new version of an entry ----

  /** Behind its first line an entry's section has no header. */
  lemma InnerLineIsNoHeader(e: Entry, g: string, t: string)
    requires IsSlug(e.key) && HeaderFree(e) && Section(e) == g + "\n" + t
    ensures !IsHeader(Split(t, '\n')[0])
  {
    hide Split, IsHeader, EntryText, Header, IsSlug;
    SectionLines(e);
    EmptyLineIsNoHeader();
    SplitConcat(g, t, '\n');
    var n := |Split(g, '\n')|;
    assert Split(Section(e), '\n')[n] == Split(t, '\n')[0];
    assert ([Header(e)] + ([""] + Split(EntryText(e), '\n')))[n] == ([""] + Split(EntryText(e), '\n'))[n - 1];
  }

  lemma SectionLines(e: Entry)
    requires IsSlug(e.key)
    ensures Split(Section(e), '\n') == [Header(e)] + ([""] + Split(EntryText(e), '\n'))
  {
    hide Split, EntryText;
    SlugHasNoSpace(e.key);
    var text := EntryText(e);
    SplitConcat("", text, '\n');
    SplitConcat(Header(e), "" + ['\n'] + text, '\n');
    SplitWithout("", '\n');
    SplitWithout(Header(e), '\n');
    assert Section(e) == Header(e) + ['\n'] + ("" + ['\n'] + text);
  }

  /** More than the three characters of a header's mark make a header line. */
  lemma PrefixStartsWithHeader(e: Entry, n: nat)
    requires IsSlug(e.key) && 3 < n <= |Section(e)|
    ensures IsHeader(Split(Section(e)[..n], '\n')[0])
  {
    hide Split, EntryText;
    var h := Section(e)[..n];
    SlugHasNoSpace(e.key);
    if n <= |Header(e)| {
      assert h == Header(e)[..n];
      SplitWithout(h, '\n');
      assert h[n - 1] in e.key;
      TrimOfTight(h, IsSpace);
    } else {
      assert h == Header(e) + ['\n'] + h[|Header(e)| + 1..];
      SplitConcat(Header(e), h[|Header(e)| + 1..], '\n');
      SplitWithout(Header(e), '\n');
      HeaderNamesKey(e);
    }
  }

  /** A section that ends in its own beginning, after a line end, ends in no more than the two signs of a header. */
  lemma OverlapIsShort(e: Entry, g: string, n: nat)
    requires IsSlug(e.key) && HeaderFree(e) && n <= |Section(e)| && Section(e) == g + "\n" + Section(e)[..n]
    ensures n <= 2
  {
    hide HeaderFree, EntryText, IsSlug, Split, IsHeader, Section;
    var s := Section(e);
    StartsAlike(e, e);
    assert n > 0 ==> s[|s| - 1] == s[..n][n - 1];
    assert s[..3][2] == ' ';
    if n > 3 {
      PrefixStartsWithHeader(e, n);
      InnerLineIsNoHeader(e, g, s[..n]);
    }
  }

  /** Texts that end in a section have the same one. */
  lemma SameLastSection(g: string, h: string, e: Entry, f: Entry)
    requires IsSlug(e.key) && HeaderFree(e) && IsSlug(f.key) && HeaderFree(f)
    requires g + "\n" + Section(e) == h + "\n" + Section(f)
    ensures Section(e) == Section(f)
  {
    hide Split, IsHeader, EntryText, Header, IsSlug, Section;
    SplitConcat(g, Section(e), '\n');
    SplitConcat(h, Section(f), '\n');
    SectionLines(e);
    SectionLines(f);
    EmptyLineIsNoHeader();
    HeaderNamesKey(e);
    HeaderNamesKey(f);
    OneHeader(e);
    OneHeader(f);
    SameSuffix(Split(g, '\n'), Split(Section(e), '\n'), Split(h, '\n'), Split(Section(f), '\n'));
    JoinSplit(Section(e), '\n');
    JoinSplit(Section(f), '\n');
  }

  lemma OneHeader(e: Entry)
    requires IsSlug(e.key) && HeaderFree(e)
    ensures var lines := Split(Section(e), '\n');
            IsHeader(lines[0]) && forall k | 0 < k < |lines| :: !IsHeader(lines[k])
  {
    hide Split, IsHeader, EntryText, Header, IsSlug, Section;
    SectionLines(e);
    EmptyLineIsNoHeader();
    HeaderNamesKey(e);
    var rest := [""] + Split(EntryText(e), '\n');
    assert forall k | 0 < k <= |rest| :: ([Header(e)] + rest)[k] == rest[k - 1];
  }

  lemma SameSuffix(p: seq<string>, q: seq<string>, p': seq<string>, q': seq<string>)
    requires p + q == p' + q' && q != [] && q' != [] && IsHeader(q[0]) && IsHeader(q'[0])
    requires forall k | 0 < k < |q| :: !IsHeader(q[k])
    requires forall k | 0 < k < |q'| :: !IsHeader(q'[k])
    ensures q == q'
  {
    hide IsHeader;
    LastHeaderIsAt(p, q);
    LastHeaderIsAt(p', q');
    assert (p + q)[|p|..] == q && (p' + q')[|p'|..] == q';
  }

  lemma LastHeaderIsAt(p: seq<string>, q: seq<string>)
    requires q != [] && IsHeader(q[0]) && forall k | 0 < k < |q| :: !IsHeader(q[k])
    ensures IsHeader((p + q)[|p|]) && forall k | |p| < k < |p + q| :: !IsHeader((p + q)[k])
  {
    hide IsHeader;
    assert forall k | |p| <= k < |p + q| :: (p + q)[k] == q[k - |p|];
  }

  /**
   Where the old section's text also occurs across the end `x` of what stands before it,
   replacing it there differs from replacing it at the end.
   */
  lemma EarlierOverlapDiffers(x: string, e: Entry, f: Entry)
    requires IsSlug(e.key) && HeaderFree(e) && HeaderFree(f) && f.key == e.key && Section(e) != Section(f)
    requires x != "" && x[|x| - 1] == '\n' && |x| < |Section(e)| && Section(e) <= x + Section(e)
    ensures Section(f) + Section(e)[|Section(e)| - |x|..] != x + Section(f)
  {
    hide HeaderFree, EntryText, IsSlug, Section;
    var s, t := Section(e), Section(f);
    var n := |s| - |x|;
    assert s == x + s[..n] by { assert s == (x + s)[..|s|]; }
    EndInBeginning(x, e, n);
    if t + s[n..] == x + t {
      TailOf(x, s, t, n);
      if |t| > |x| {
        EndInBeginning(x, f, |t| - |x|);
        BothOverlap(x, e, f, n, |t| - |x|);
      } else {
        InnerOccurrence(x, e, f, n);
      }
    }
  }

  lemma EndInBeginning(x: string, e: Entry, n: nat)
    requires IsSlug(e.key) && HeaderFree(e) && n <= |Section(e)| && Section(e) == x + Section(e)[..n]
    requires x != "" && x[|x| - 1] == '\n'
    ensures n <= 2
  {
    hide HeaderFree, EntryText, IsSlug, Section;
    assert x == x[..|x| - 1] + "\n";
    OverlapIsShort(e, x[..|x| - 1], n);
  }

  lemma BothOverlap(x: string, e: Entry, f: Entry, n: nat, m: nat)
    requires f.key == e.key && 0 < n <= 2 && 0 < m <= 2
    requires n <= |Section(e)| && m <= |Section(f)| && Section(e) == x + Section(e)[..n] && Section(f) == x + Section(f)[..m]
    requires Section(f) + Section(e)[n..] == x + Section(f)
    ensures Section(e) == Section(f)
  {
    hide Section;
    var s, t := Section(e), Section(f);
    StartsAlike(e, f);
    assert s[..n] == s[..3][..n] && t[..m] == t[..3][..m];
    assert (t + s[n..])[|x|..] == t[..m] + s[n..];
    assert (x + t)[|x|..] == t;
    assert t == t[..m] + s[n..];
    assert t[2] == s[n + 2 - m];
    assert t[2] == t[..3][2] && forall k | 0 <= k < 3 :: s[k] == s[..3][k];
  }

  lemma TailOf(x: string, s: string, t: string, n: nat)
    requires n <= |s| && |x| == |s| - n && t + s[n..] == x + t
    ensures |t| > |x| ==> t == x + t[..|t| - |x|]
    ensures |t| <= |x| ==> x == t + x[|t|..] && s[n..] == x[|t|..] + t
  {
    var z := x + t;
    assert z[..|t|] == t && z[|t|..] == s[n..];
    if |t| <= |x| {
      assert z[..|t|] == x[..|t|];
      assert z[|t|..] == x[|t|..] + t;
    }
  }

  lemma StartsAlike(e: Entry, f: Entry)
    requires f.key == e.key
    ensures |Section(e)| > 5 && |Section(f)| > 5
    ensures Section(e)[..3] == Section(f)[..3] == "## "
    ensures !IsSpace(Section(f)[|Section(f)| - 1])
  {
    EntryEndsTight(e);
    EntryEndsTight(f);
  }

  /** The old section does not hold the new one, header and all. */
  lemma InnerOccurrence(x: string, e: Entry, f: Entry, n: nat)
    requires IsSlug(e.key) && HeaderFree(e) && f.key == e.key && n <= |Section(e)|
    requires x != "" && x[|x| - 1] == '\n' && |Section(f)| <= |x| && x == Section(f) + x[|Section(f)|..]
    ensures Section(e)[n..] != x[|Section(f)|..] + Section(f)
  {
    hide HeaderFree, EntryText, IsSlug, Section, Split, IsHeader;
    var s, t := Section(e), Section(f);
    var q := x[|t|..];
    StartsAlike(e, f);
    assert q != "" && q[|q| - 1] == '\n' by { assert q == "" ==> x == t; }
    assert t[..|t|] == t;
    PrefixStartsWithHeader(f, |t|);
    if s[n..] == q + t {
      var g := s[..n] + q[..|q| - 1];
      assert s == s[..n] + s[n..];
      assert s == g + "\n" + t;
      InnerLineIsNoHeader(e, g, t);
    }
  }

  /** An earlier replacement, wherever it is, gives another text. */
  lemma EarlierReplacementDiffers(base: string, e: Entry, f: Entry, i: nat)
    requires IsSlug(e.key) && HeaderFree(e) && HeaderFree(f) && f.key == e.key && Section(e) != Section(f)
    requires var s := base + "\n\n" + Section(e); i < |base| + 2 && Section(e) <= s[i..]
    ensures var s := base + "\n\n" + Section(e);
            s[..i] + Section(f) + s[i + |Section(e)|..] != base + "\n\n" + Section(f)
  {
    hide HeaderFree, IsSlug, Section, EntryText;
    var front, was, now := base + "\n\n", Section(e), Section(f);
    var before, x := front[..i], front[i..];
    CutAt(front, was, i);
    assert x[|x| - 1] == '\n' by { assert x[|x| - 1] == front[|front| - 1]; }
    if |x| < |was| {
      EarlierOverlapDiffers(x, e, f);
      DifferentAround(before, x, now, was[|was| - |x|..]);
    } else {
      EarlierWholeDiffers(before, base, x, e, f);
    }
  }

  lemma DifferentAround(before: string, x: string, now: string, after: string)
    requires now + after != x + now
    ensures before + now + after != before + x + now
  {
    DifferentTails(before, now + after, x + now);
    assert before + now + after == before + (now + after) && before + x + now == before + (x + now);
  }

  lemma CutAt(front: string, was: string, i: nat)
    requires i < |front| && was <= (front + was)[i..]
    ensures var x, s := front[i..], front + was;
            && s[..i] == front[..i] && front == front[..i] + x && was <= x + was
            && s[i + |was|..] == if |x| < |was| then was[|was| - |x|..] else x[|was|..] + was
  {
    var x, s := front[i..], front + was;
    assert s[i..] == x + was;
  }

  lemma EarlierWholeDiffers(before: string, base: string, x: string, e: Entry, f: Entry)
    requires IsSlug(e.key) && HeaderFree(e) && HeaderFree(f) && f.key == e.key && Section(e) != Section(f)
    requires x != "" && x[|x| - 1] == '\n' && |Section(e)| <= |x| && Section(e) <= x + Section(e)
    ensures before + Section(f) + (x[|Section(e)|..] + Section(e)) != base + "\n\n" + Section(f)
  {
    hide HeaderFree, IsSlug, Section;
    var was, now := Section(e), Section(f);
    StartsAlike(e, e);
    var y := x[|was|..];
    assert x[..|was|] == (x + was)[..|was|] == was;
    assert y == "" ==> x == was;
    assert y[|y| - 1] == '\n';
    var g := before + now + y[..|y| - 1];
    assert before + now + (y + was) == g + "\n" + was;
    assert base + "\n\n" + now == (base + "\n") + "\n" + now;
    if g + "\n" + was == (base + "\n") + "\n" + now {
      SameLastSection(g, base + "\n", e, f);
    }
  }

  lemma DifferentTails(p: string, q: string, r: string)
    requires q != r
    ensures p + q != p + r
  {
    assert (p + q)[|p|..] == q && (p + r)[|p|..] == r;
  }

  /**
   A new version leaves the index as if only it had ever been imported, unless the was
   section's text occurs earlier.  That condition is exact: for a new version without
   header-like lines it fails only where it makes no difference, both sections being the same.
   */
  lemma NewVersionReplacesOld(body: string, e: Entry, newer: Entry)
    requires IsSlug(e.key) && e.key !in Handles(Split(body, '\n')) && HeaderFree(e) && newer.key == e.key
    ensures var first := IndexOf(Base(body) + "\n\n" + Section(e), Section(e), 0);
            var same := Appended(Appended(body, e), newer) == Appended(body, newer);
            && (first == |Base(body)| + 2 || Section(newer) == Section(e) ==> same)
            && (HeaderFree(newer) && same ==> first == |Base(body)| + 2 || Section(newer) == Section(e))
  {
    hide Split, Base, HeaderFree, Section, Handles, IsSlug, WithoutNewlines, Appended, IndexOf;
    var front, was, now := Base(body) + "\n\n", Section(e), Section(newer);
    var s := front + was;
    AppendAgain(body, e, newer);
    AppendedNew(body, newer);
    assert s[|front|..] == was && s[..|front|] == front && s[|front| + |was|..] == "";
    var first := IndexOf(s, was, 0);
    StartsAlike(e, e);
    if first == |front| {
      assert ReplaceFirst(s, was, now) == front + now;
      SectionEnds(front, newer);
    } else if was == now {
      ReplaceBySame(s, was);
      SectionEnds(front, e);
    } else {
      var result := s[..first] + now + s[first + |was|..];
      assert result[|result| - 1] == was[|was| - 1];
      TightIsKept(result);
      assert ReplaceFirst(s, was, now) == result;
      if HeaderFree(newer) {
        EarlierReplacementDiffers(Base(body), e, newer, first);
        SameFront(result, front + now, "\n");
      }
    }
  }

  lemma TightIsKept(s: string)
    requires s != "" && s[|s| - 1] != '\n'
    ensures WithoutNewlines(s) == s
  {
  }

  lemma AppendedNew(body: string, e: Entry)
    requires IsSlug(e.key) && e.key !in Handles(Split(body, '\n'))
    ensures Appended(body, e) == Base(body) + "\n\n" + Section(e) + "\n"
  {
    hide Split, Base, EntryText, Header, FirstWith, NextHeader, Handles, IsSlug, WithoutNewlines, ReplaceFirst;
    SlugHasNoSpace(e.key);
    var at := WhereAppended(body, e);
    assert Base(body) + "\n\n" + RenderSection(e) == Base(body) + "\n\n" + Section(e) + "\n";
  }

  /** What the first import of an entry adds: its key as header, and under it a link with the name, and the description where there is one. */
  lemma AddedText(body: string, e: Entry)
    requires IsSlug(e.key) && e.key !in Handles(Split(body, '\n'))
    ensures var before := if Blank(WithoutNewlines(body)) then "# Standalone Skills" else WithoutNewlines(body);
            var name := if e.name == "" then TitleFromSlug(e.key) else e.name;
            var description := if Blank(e.description) then "" else " \U{2014} " + TrimSpace(e.description);
            Appended(body, e) == before + "\n\n" + "## " + e.key + "\n\n" + "[" + name + "](" + e.key + "/SKILL.md)" + description + "\n"
  {
    AppendedNew(body, e);
    var name := if e.name == "" then TitleFromSlug(e.key) else e.name;
    var description := if Blank(e.description) then "" else " \U{2014} " + TrimSpace(e.description);
    hide WithoutNewlines, TrimSpace, Handles, Split, Appended, TitleFromSlug;
    assert Section(e) == ("## " + e.key) + "\n\n" + (("[" + name + "](" + e.key + "/SKILL.md)") + description);
    Regrouped(Base(body), e.key, name, description);
  }

  lemma Regrouped(before: string, key: string, name: string, description: string)
    ensures before + "\n\n" + (("## " + key) + "\n\n" + (("[" + name + "](" + key + "/SKILL.md)") + description)) + "\n"
            == before + "\n\n" + "## " + key + "\n\n" + "[" + name + "](" + key + "/SKILL.md)" + description + "\n"
  {
    var link, tail := "[" + name + "](" + key + "/SKILL.md)", description + "\n";
    FourParts(before + "\n\n", "## " + key, "\n\n", link + description);
    LinkParts(before + "\n\n" + "## " + key + "\n\n", name, key, description);
    FourParts(before, "\n\n", "## ", key);
  }

  lemma FourParts(a: string, b: string, c: string, d: string)
    ensures a + (b + c + d) == a + b + c + d
  {
  }

  lemma LinkParts(before: string, name: string, key: string, description: string)
    ensures before + (("[" + name + "](" + key + "/SKILL.md)") + description)
            == before + "[" + name + "](" + key + "/SKILL.md)" + description
  {
    var open, mid, close := "[", "](", "/SKILL.md)";
    FourParts(before, open + name + mid, key, close);
    FourParts(before, open, name, mid);
    assert before + ((open + name + mid + key + close) + description) == before + (open + name + mid + key + close) + description;
  }

  /** Under a deeper heading the same text is no section, but it is what gets rewritten. */
  lemma DeeperHeadingIsRewritten(e: Entry, newer: Entry)
    requires IsSlug(e.key) && HeaderFree(e) && newer.key == e.key
    ensures var body := "#" + Section(e);
            && e.key !in Handles(Split(body, '\n'))
            && Appended(Appended(body, e), newer) == "#" + Section(newer) + "\n\n" + Section(e) + "\n"
  {
    hide Split, HeaderFree, Section, Handles, IsSlug, WithoutNewlines, Appended, EntryText, ReplaceFirst;
    var body := "#" + Section(e);
    DeeperHasNoHandles(e);
    SectionEnds("#", e);
    DeeperIsBase(e);
    AppendAgain(body, e, newer);
    StartsDeeper(e);
    var tail := "\n\n" + Section(e);
    assert body + tail == body + "\n\n" + Section(e);
    ReplacedAtOne(Section(e), Section(newer), tail);
    assert "#" + Section(newer) + tail == "#" + Section(newer) + "\n\n" + Section(e);
    SectionEnds("#" + Section(newer) + "\n\n", e);
  }

  /** The same entry with its whole section once more at the end of the description. */
  function Doubled(e: Entry): Entry {
    e.(description := e.description + "\n\n" + Section(e))
  }

  lemma DoubledSection(e: Entry)
    requires e.description != "" && Tight(e.description, IsSpace)
    ensures Section(Doubled(e)) == Section(e) + "\n\n" + Section(e)
  {
    hide TitleFromSlug, TrimSpace;
    StartsAlike(e, e);
    DescriptionIsTight(e);
    var name := if e.name != "" then e.name else TitleFromSlug(e.key);
    var link := Header(e) + "\n\n" + ("[" + name + "](" + e.key + "/SKILL.md)");
    assert Section(e) == link + " \U{2014} " + e.description;
    assert Section(Doubled(e)) == link + " \U{2014} " + Doubled(e).description;
  }

  lemma DescriptionIsTight(e: Entry)
    requires e.description != "" && Tight(e.description, IsSpace)
    ensures TrimSpace(e.description) == e.description && TrimSpace(Doubled(e).description) == Doubled(e).description
  {
    StartsAlike(e, e);
    hide Section;
    var d := Doubled(e).description;
    assert d[0] == e.description[0] && d[|d| - 1] == Section(e)[|Section(e)| - 1];
    TrimOfTight(e.description, IsSpace);
    TrimOfTight(d, IsSpace);
  }

  /** With header-like lines in the new version even that can make no difference: here it holds the old section once more. */
  lemma HeaderInNewVersionHidesIt(e: Entry)
    requires IsSlug(e.key) && HeaderFree(e) && e.description != "" && Tight(e.description, IsSpace)
    ensures var body, newer := "#" + Section(e), Doubled(e);
            && Section(newer) != Section(e)
            && IndexOf(Base(body) + "\n\n" + Section(e), Section(e), 0) < |Base(body)| + 2
            && Appended(Appended(body, e), newer) == Appended(body, newer)
  {
    hide Split, HeaderFree, Handles, IsSlug, WithoutNewlines, Appended, IndexOf, Section, Base, EntryText, TrimSpace, IsSpace;
    var body := "#" + Section(e);
    DoubledSection(e);
    DeeperHasNoHandles(e);
    DeeperIsBase(e);
    DeeperHeadingIsRewritten(e, Doubled(e));
    AppendedNew(body, Doubled(e));
    assert body + "\n\n" + Section(Doubled(e)) + "\n" == "#" + Section(Doubled(e)) + "\n\n" + Section(e) + "\n";
    var s := body + "\n\n" + Section(e);
    assert Section(e) <= s[1..];
  }

  lemma ReplacedAtOne(from: string, to: string, tail: string)
    requires from != "" && !(from <= "#" + from + tail)
    ensures ReplaceFirst("#" + from + tail, from, to) == "#" + to + tail
  {
    hide IndexOf;
    var s := "#" + from + tail;
    assert s[1..] == from + tail && s[0..] == s && s[..1] == "#" && s[1 + |from|..] == tail;
    IndexIs(s, from, 0, 1);
  }

  lemma StartsDeeper(e: Entry)
    ensures Section(e) != "" && forall rest: string :: !(Section(e) <= "#" + Section(e) + rest)
  {
    assert Section(e)[2] == ' ';
    forall rest: string
      ensures !(Section(e) <= "#" + Section(e) + rest)
    {
      assert ("#" + Section(e) + rest)[2] == '#';
    }
  }

  lemma DeeperIsBase(e: Entry)
    ensures Base("#" + Section(e)) == "#" + Section(e)
  {
    SectionEnds("#", e);
    hide Section;
    var s := "#" + Section(e);
    var lo, hi := TrimSplits(s, IsSpace);
    assert s[0] == '#' && !IsSpace(s[0]);
  }

  lemma DeeperHasNoHandles(e: Entry)
    requires IsSlug(e.key) && HeaderFree(e)
    ensures Handles(Split("#" + Section(e), '\n')) == []
  {
    hide Split, EntryText, IsHeader, Handles;
    SlugHasNoSpace(e.key);
    var header, text := "#" + Header(e), EntryText(e);
    DeeperIsNoHeader(e);
    EmptyLineIsNoHeader();
    SplitWithout(header, '\n');
    SplitWithout("", '\n');
    SplitConcat("", text, '\n');
    SplitConcat(header, "" + ['\n'] + text, '\n');
    assert "#" + Section(e) == header + ['\n'] + ("" + ['\n'] + text);
    NoHandles(Split("#" + Section(e), '\n'));
  }

  lemma DeeperIsNoHeader(e: Entry)
    requires IsSlug(e.key)
    ensures !IsHeader("#" + Header(e)) && '\n' !in "#" + Header(e)
  {
    SlugHasNoSpace(e.key);
    assert e.key[|e.key| - 1] in e.key;
    var line := "#" + Header(e);
    TrimOfTight(line, IsSpace);
    assert line[2] == '#';
  }

  lemma SectionTrims(before: string, e: Entry)
    ensures var s := before + (Header(e) + "\n\n" + EntryText(e));
            WithoutNewlines(s) == s && WithoutNewlines(s + "\n") == s
  {
    hide EntryText, Header;
    EntryEndsTight(e);
    var s := before + (Header(e) + "\n\n" + EntryText(e));
    assert s[|s| - 1] == EntryText(e)[|EntryText(e)| - 1];
    assert (s + "\n")[..|s|] == s;
  }
}
