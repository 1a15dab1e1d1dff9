/**
 What merging the bundled index does to the list of headers
 (internal/builtinskills/builtinskills.go:126-189).
 */
module BundledIndexMerge {
  import opened Text
  import opened BundledIndex
  import opened Wrappers

  // ---- One line ----

  lemma HeadParts(line: string) returns (blanks: string, name: string, tail: string)
    requires Head(line).Some?
    ensures line == "##" + blanks + name + tail && name == Head(line).value && IsName(name)
    ensures blanks != "" && forall i | 0 <= i < |blanks| :: BlankChar(blanks[i])
    ensures forall i | 0 <= i < |tail| :: PatternSpace(tail[i])
  {
    hide IsName, TrimLeft, TrimRight;
    var rest := line[2..];
    var n := TrimLeftSplits(rest, BlankChar);
    var after := rest[n..];
    var m := TrimRightSplits(after, PatternSpace);
    blanks, name, tail := rest[..n], after[..m], after[m..];
    ThreeParts(line, n, m);
  }

  lemma ThreeParts(line: string, n: nat, m: nat)
    requires "##" <= line && 2 + n + m <= |line|
    ensures line == "##" + line[2..][..n] + line[2..][n..][..m] + line[2..][n..][m..]
  {
  }

  lemma {:induction false} TrimLeftAll(a: string, b: string, drop: char -> bool)
    requires (forall i | 0 <= i < |a| :: drop(a[i])) && (b != "" ==> !drop(b[0]))
    ensures TrimLeft(a + b, drop) == b
    decreases |a|
  {
    if a == "" {
      assert a + b == b;
    } else {
      assert (a + b)[1..] == a[1..] + b;
      TrimLeftAll(a[1..], b, drop);
    }
  }

  lemma {:induction false} TrimRightAll(a: string, b: string, drop: char -> bool)
    requires (forall i | 0 <= i < |b| :: drop(b[i])) && (a != "" ==> !drop(a[|a| - 1]))
    ensures TrimRight(a + b, drop) == a
    decreases |b|
  {
    if b == "" {
      assert a + b == a;
    } else {
      assert (a + b)[..|a + b| - 1] == a + b[..|b| - 1];
      TrimRightAll(a, b[..|b| - 1], drop);
    }
  }

  lemma HeadOfParts(blanks: string, name: string, tail: string)
    requires IsName(name) && blanks != "" && forall i | 0 <= i < |blanks| :: BlankChar(blanks[i])
    requires forall i | 0 <= i < |tail| :: PatternSpace(tail[i])
    ensures Head("##" + blanks + name + tail) == Some(name)
  {
    var line := "##" + blanks + name + tail;
    TrimLeftAll(blanks, name + tail, BlankChar);
    TrimRightAll(name, tail, PatternSpace);
    assert line[2..] == blanks + (name + tail);
  }

  /** Trimming a header line leaves the same header. */
  lemma HeadOfTrimmed(line: string)
    requires Head(line).Some?
    ensures Head(TrimRight(line, IsSpace)) == Head(line)
  {
    var blanks, name, tail := HeadParts(line);
    TrimRightAll("##" + blanks + name, tail, IsSpace);
    HeadOfParts(blanks, name, "");
    assert "##" + blanks + name + "" == "##" + blanks + name;
  }

  /** A carriage return at the end makes no header and takes none away. */
  lemma HeadBeforeReturn(line: string)
    ensures Head(line + "\r") == Head(line)
  {
    if Head(line).Some? {
      var blanks, name, tail := HeadParts(line);
      HeadOfParts(blanks, name, tail + "\r");
      assert line + "\r" == "##" + blanks + name + (tail + "\r");
    } else if Head(line + "\r").Some? {
      var blanks, name, tail := HeadParts(line + "\r");
      var core := "##" + blanks + name;
      assert core == (line + "\r")[..|core|];
      assert |core| <= |line| by {
        assert core[|core| - 1] == name[|name| - 1];
      }
      assert line == core + tail[..|tail| - 1] by {
        assert line == (line + "\r")[..|line|];
      }
      HeadOfParts(blanks, name, tail[..|tail| - 1]);
    }
  }

  // ---- Several lines ----

  lemma {:induction false} HeadsConcat(p: seq<string>, q: seq<string>)
    ensures Heads(p + q) == Heads(p) + Heads(q)
    decreases |p|
  {
    hide HeadIn;
    if p == [] {
      assert p + q == q;
    } else {
      HeadsConcat(p[1..], q);
      assert (p + q)[1..] == p[1..] + q;
    }
  }

  lemma HeadersOfLines(a: string, b: string)
    ensures HeadersOf(a + "\n" + b) == HeadersOf(a) + HeadersOf(b)
  {
    hide Split, Heads;
    SplitConcat(a, b, '\n');
    HeadsConcat(Split(a, '\n'), Split(b, '\n'));
    assert a + "\n" + b == a + ['\n'] + b;
  }

  lemma HeadersOfNothing()
    ensures HeadersOf("") == []
  {
  }

  lemma HeadersOfParagraphs(a: string, b: string)
    ensures HeadersOf(a + "\n\n" + b) == HeadersOf(a) + HeadersOf(b)
  {
    hide HeadersOf;
    HeadersOfLines(a, "\n" + b);
    HeadersOfLines("", b);
    HeadersOfNothing();
    assert a + "\n\n" + b == a + "\n" + ("\n" + b) && "\n" + b == "" + "\n" + b;
  }

  /** Splitting a string put together from two: the line in the middle is glued. */
  lemma {:induction false} SplitGlue(a: string, b: string)
    ensures var p, q := Split(a, '\n'), Split(b, '\n');
            Split(a + b, '\n') == p[..|p| - 1] + [p[|p| - 1] + q[0]] + q[1..]
    decreases |a|
  {
    hide Split, Prefixed;
    if a == "" {
      assert a + b == b;
      SplitWithout("", '\n');
      var q := Split(b, '\n');
      assert "" + q[0] == q[0] && q == [q[0]] + q[1..];
    } else {
      SplitGlue(a[1..], b);
      SplitCons(a[0], a[1..], '\n');
      SplitCons(a[0], a[1..] + b, '\n');
      assert a == [a[0]] + a[1..] && a + b == [a[0]] + (a[1..] + b);
      GluePrefixed(a[0], Split(a[1..], '\n'), Split(b, '\n'));
    }
  }

  lemma GluePrefixed(c: char, p: seq<string>, q: seq<string>)
    requires p != [] && q != []
    ensures var glued := p[..|p| - 1] + [p[|p| - 1] + q[0]] + q[1..];
            var r := Prefixed(c, p, '\n');
            r != [] && Prefixed(c, glued, '\n') == r[..|r| - 1] + [r[|r| - 1] + q[0]] + q[1..]
  {
    if c != '\n' {
      if |p| == 1 {
        assert [c] + (p[0] + q[0]) == [c] + p[0] + q[0];
      } else {
        assert p[..|p| - 1] == [p[0]] + p[1..|p| - 1];
        assert Prefixed(c, p, '\n')[..|p| - 1] == [[c] + p[0]] + p[1..|p| - 1];
      }
    }
  }

  /** The last line of `a` runs on into the first of `b`. */
  lemma HeadersOfGlued(a: string, b: string)
    ensures var p, q := Split(a, '\n'), Split(b, '\n');
            HeadersOf(a + b) == Heads(p[..|p| - 1]) + HeadIn(p[|p| - 1] + q[0]) + Heads(q[1..])
            && HeadersOf(a) == Heads(p[..|p| - 1]) + HeadIn(p[|p| - 1])
            && HeadersOf(b) == HeadIn(q[0]) + Heads(q[1..])
  {
    hide Split, Heads, HeadIn;
    var p, q := Split(a, '\n'), Split(b, '\n');
    var front, last := p[..|p| - 1], p[|p| - 1];
    SplitGlue(a, b);
    HeadsOfOne(last + q[0]);
    HeadsOfOne(last);
    HeadsOfOne(q[0]);
    assert p == front + [last] && q == [q[0]] + q[1..];
    HeadsConcat(front, [last]);
    HeadsConcat([q[0]], q[1..]);
    HeadsConcat(front + [last + q[0]], q[1..]);
    HeadsConcat(front, [last + q[0]]);
  }

  lemma HeadsOfOne(line: string)
    ensures Heads([line]) == HeadIn(line)
  {
  }

  /** Trailing line ends hold no header, and cutting them off costs none. */
  lemma {:induction false} HeadersOfLineEnds(s: string, ends: string)
    requires forall i | 0 <= i < |ends| :: LineEnd(ends[i])
    ensures HeadersOf(s + ends) == HeadersOf(s)
    decreases |ends|
  {
    hide HeadersOf;
    if ends == "" {
      assert s + ends == s;
    } else {
      var front := ends[..|ends| - 1];
      HeadersOfLineEnds(s, front);
      HeadersOfOneEnd(s + front, ends[|ends| - 1]);
      assert s + ends == s + front + [ends[|ends| - 1]];
    }
  }

  lemma HeadersOfOneEnd(s: string, c: char)
    requires LineEnd(c)
    ensures HeadersOf(s + [c]) == HeadersOf(s)
  {
    hide Split, Heads, Head;
    if c == '\n' {
      HeadersOfLines(s, "");
      HeadersOfNothing();
      assert s + "\n" + "" == s + [c];
    } else {
      SplitWithout("\r", '\n');
      HeadersOfGlued(s, "\r");
      var p := Split(s, '\n');
      HeadBeforeReturn(p[|p| - 1]);
      HeadsOfNone();
      assert s + [c] == s + "\r" && ["\r"][1..] == [];
    }
  }

  lemma HeadsOfNone()
    ensures Heads([]) == []
  {
  }

  lemma HeadersOfKept(existing: string)
    ensures HeadersOf(Kept(existing)) == HeadersOf(existing)
  {
    hide HeadersOf;
    var n := TrimRightSplits(existing, LineEnd);
    HeadersOfLineEnds(existing[..n], existing[n..]);
    assert existing == existing[..n] + existing[n..];
  }

  /** White space alone holds no header. */
  lemma {:induction false} HeadersOfSpace(s: string)
    requires forall i | 0 <= i < |s| :: IsSpace(s[i])
    ensures HeadersOf(s) == []
  {
    hide Split, Heads;
    forall line | line in Split(s, '\n')
      ensures HeadIn(line) == []
    {
      LinesAreParts(s, line);
      assert "##" <= line ==> line[0] == '#' && !IsSpace('#');
    }
    NoHeads(Split(s, '\n'));
  }

  lemma {:induction false} LinesAreParts(s: string, line: string)
    requires line in Split(s, '\n') && forall i | 0 <= i < |s| :: IsSpace(s[i])
    ensures forall i | 0 <= i < |line| :: IsSpace(line[i])
    decreases |s|
  {
    if s != "" {
      var rest := Split(s[1..], '\n');
      if line in rest {
        LinesAreParts(s[1..], line);
      } else if s[0] != '\n' {
        LinesAreParts(s[1..], rest[0]);
      }
    }
  }

  lemma {:induction false} NoHeads(lines: seq<string>)
    requires forall line | line in lines :: HeadIn(line) == []
    ensures Heads(lines) == []
    decreases |lines|
  {
    hide HeadIn;
    if lines != [] {
      NoHeads(lines[1..]);
    }
  }

  // ---- Sections ----

  /** White space up to the end of its line, and the rest. */
  lemma {:induction false} FirstLine(s: string) returns (line: string, rest: string)
    requires forall i | 0 <= i < |s| :: IsSpace(s[i])
    ensures s == line + rest && '\n' !in line && (rest != "" ==> rest[0] == '\n')
    ensures forall i | 0 <= i < |line| :: IsSpace(line[i])
    ensures rest != "" ==> forall i | 0 <= i < |rest[1..]| :: IsSpace(rest[1..][i])
    decreases |s|
  {
    hide IsSpace;
    if s == "" || s[0] == '\n' {
      line, rest := "", s;
    } else {
      line, rest := FirstLine(s[1..]);
      line := [s[0]] + line;
    }
  }

  lemma LastLineGlued(t: string, w1: string)
    requires t != "" && !IsSpace(t[|t| - 1]) && '\n' !in w1 && forall i | 0 <= i < |w1| :: IsSpace(w1[i])
    ensures var p := Split(t, '\n');
            var last := p[|p| - 1];
            && Split(w1, '\n') == [w1] && TrimRight(last + w1, IsSpace) == last
            && |Split(t + w1, '\n')| == |p| && Split(t + w1, '\n')[|p| - 1] == last + w1
  {
    hide Split, TrimRight;
    var p := Split(t, '\n');
    SplitWithout(w1, '\n');
    SplitGlue(t, w1);
    LastLineEnds(t);
    TrimRightAll(p[|p| - 1], w1, IsSpace);
  }

  lemma {:induction false} LastLineEnds(s: string)
    requires s != "" && s[|s| - 1] != '\n'
    ensures var p := Split(s, '\n'); p[|p| - 1] != "" && p[|p| - 1][|p[|p| - 1]| - 1] == s[|s| - 1]
    decreases |s|
  {
    if |s| > 1 {
      LastLineEnds(s[1..]);
    }
  }

  // ---- The sections of an index ----

  function Names(sections: seq<Section>): seq<string> {
    seq(|sections|, i requires 0 <= i < |sections| => sections[i].header)
  }

  /** A section's text starts with its one header. */
  predicate Good(s: Section) {
    s.body != "" && s.body[0] == '#' && HeadersOf(s.body) == [s.header] && Head(Split(s.body, '\n')[0]).Some?
  }

  lemma BlockIsGood(lines: seq<string>, n: nat, more: bool)
    requires 0 < n <= |lines| && Head(lines[0]).Some? && forall k | 1 <= k < n :: Head(lines[k]).None?
    requires forall line | line in lines :: '\n' !in line
    ensures Good(Section(Head(lines[0]).value, Join(lines[..n], '\n') + if more then "\n" else ""))
  {
    hide Split, Head, Heads;
    var block := lines[..n];
    var text := Join(block, '\n');
    SplitJoin(block, '\n');
    assert block == [lines[0]] + block[1..];
    HeadsConcat([lines[0]], block[1..]);
    HeadsOfOne(lines[0]);
    NoHeads(block[1..]);
    HeadStarts(lines[0]);
    JoinStarts(block);
    assert text + "" == text;
    if more {
      HeadersOfLines(text, "");
      HeadersOfNothing();
      SplitConcat(text, "", '\n');
      SplitWithout("", '\n');
      assert text + "\n" + "" == text + "\n" && text + ['\n'] + "" == text + "\n";
    }
  }

  lemma HeadStarts(line: string)
    requires Head(line).Some?
    ensures line != "" && line[0] == '#'
  {
  }

  lemma JoinStarts(lines: seq<string>)
    requires lines != [] && lines[0] != ""
    ensures Join(lines, '\n') != "" && Join(lines, '\n')[0] == lines[0][0]
  {
  }

  lemma {:induction false} SectionsAreGood(lines: seq<string>)
    requires forall line | line in lines :: '\n' !in line
    ensures forall s | s in SectionsOf(lines) :: Good(s)
    ensures Names(SectionsOf(lines)) == Heads(lines)
    decreases |lines|
  {
    hide Head, Join, Good, HeadersOf;
    if lines != [] {
      if Head(lines[0]).None? {
        SectionsAreGood(lines[1..]);
      } else {
        var n := NextHead(lines, 1);
        BlockIsGood(lines, n, n < |lines|);
        SectionsAreGood(lines[n..]);
        HeadsOfBlock(lines, n);
        NamesOfMore(SectionsOf(lines)[0], SectionsOf(lines[n..]));
      }
    }
  }

  lemma HeadsOfBlock(lines: seq<string>, n: nat)
    requires 0 < n <= |lines| && Head(lines[0]).Some? && forall k | 1 <= k < n :: Head(lines[k]).None?
    ensures Heads(lines) == [Head(lines[0]).value] + Heads(lines[n..])
  {
    hide Head;
    HeadsConcat(lines[1..n], lines[n..]);
    NoHeads(lines[1..n]);
    assert lines[1..] == lines[1..n] + lines[n..];
  }

  lemma NamesOfMore(s: Section, rest: seq<Section>)
    ensures Names([s] + rest) == [s.header] + Names(rest)
  {
  }

  lemma SectionsOfIndex(content: string)
    ensures forall s | s in SkillIndexSections(content) :: Good(s)
    ensures Names(SkillIndexSections(content)) == HeadersOf(content)
  {
    hide Split, Good, SectionsOf, Heads;
    PartsHaveNoSeparator(content, '\n');
    SectionsAreGood(Split(content, '\n'));
  }

  lemma ToSetConcat(a: seq<string>, b: seq<string>)
    ensures ToSet(a + b) == ToSet(a) + ToSet(b)
  {
  }

  lemma {:induction false} MissingAre(sections: seq<Section>, present: set<string>)
    ensures forall s | s in Missing(sections, present) :: s in sections
    ensures ToSet(Names(Missing(sections, present))) == ToSet(Names(sections)) - present
    decreases |sections|
  {
    if sections != [] {
      var front, last := sections[..|sections| - 1], sections[|sections| - 1];
      MissingAre(front, present);
      assert sections == front + [last];
      assert Names(sections) == Names(front) + [last.header];
      ToSetConcat(Names(front), [last.header]);
      if last.header !in present {
        assert Names(Missing(sections, present)) == Names(Missing(front, present)) + [last.header];
        ToSetConcat(Names(Missing(front, present)), [last.header]);
      } else {
        assert Missing(sections, present) == Missing(front, present);
      }
    }
  }

  function Bodies(sections: seq<Section>): string {
    if sections == [] then "" else sections[0].body + Bodies(sections[1..])
  }

  lemma {:induction false} SectionsCover(lines: seq<string>)
    ensures Bodies(SectionsOf(lines)) == Join(lines[NextHead(lines, 0)..], '\n')
    decreases |lines|
  {
    hide Head, Join;
    var first := NextHead(lines, 0);
    if first == |lines| {
      assert lines[first..] == [];
      NoSectionsIn(lines);
      JoinOfNone();
    } else {
      SectionsSkipTo(lines, first);
      var rest := lines[first..];
      var n := NextHead(rest, 1);
      SectionsCover(rest[n..]);
      NextHeadHere(rest, n);
      assert rest[n..][0..] == rest[n..];
      CoverBlock(rest);
    }
  }

  lemma CoverBlock(lines: seq<string>)
    requires lines != [] && Head(lines[0]).Some?
    requires Bodies(SectionsOf(lines[NextHead(lines, 1)..])) == Join(lines[NextHead(lines, 1)..], '\n')
    ensures Bodies(SectionsOf(lines)) == Join(lines, '\n')
  {
    hide Head, Join;
    var n := NextHead(lines, 1);
    var first := Section(Head(lines[0]).value, Join(lines[..n], '\n') + if n < |lines| then "\n" else "");
    assert SectionsOf(lines) == [first] + SectionsOf(lines[n..]);
    assert Bodies(SectionsOf(lines)) == first.body + Bodies(SectionsOf(lines[n..]));
    if n < |lines| {
      JoinConcat(lines[..n], lines[n..], '\n');
      assert lines == lines[..n] + lines[n..];
    } else {
      assert lines[..n] == lines && lines[n..] == [];
      JoinOfNone();
      assert first.body + "" == Join(lines, '\n');
    }
  }

  lemma JoinOfNone()
    ensures Join([], '\n') == ""
  {
  }

  lemma NextHeadHere(lines: seq<string>, n: nat)
    requires n <= |lines| && (n < |lines| ==> Head(lines[n]).Some?)
    ensures NextHead(lines[n..], 0) == 0
  {
  }

  lemma {:induction false} NoSectionsIn(lines: seq<string>)
    requires forall k | 0 <= k < |lines| :: Head(lines[k]).None?
    ensures SectionsOf(lines) == []
    decreases |lines|
  {
    hide Head;
    if lines != [] {
      NoSectionsIn(lines[1..]);
    }
  }

  lemma {:induction false} SectionsSkipTo(lines: seq<string>, n: nat)
    requires n < |lines| && forall k | 0 <= k < n :: Head(lines[k]).None?
    ensures SectionsOf(lines) == SectionsOf(lines[n..])
    decreases n
  {
    hide Head;
    if n > 0 {
      SectionsSkipTo(lines[1..], n - 1);
      assert lines[1..][n - 1..] == lines[n..];
    } else {
      assert lines[0..] == lines;
    }
  }

  /** An index is what stands before its first header, and then its sections, with nothing lost or repeated. */
  lemma SectionsCoverIndex(content: string) returns (before: string)
    ensures content == before + Bodies(SkillIndexSections(content))
    ensures HeadersOf(before) == []
  {
    hide Split, Join, Head, Heads, SectionsOf, Bodies, NextHead;
    var lines := Split(content, '\n');
    var n := NextHead(lines, 0);
    SectionsCover(lines);
    JoinSplit(content, '\n');
    PartsHaveNoSeparator(content, '\n');
    JoinOfNone();
    assert forall line | line in lines[..n] :: line in lines && HeadIn(line) == [];
    NoHeads(lines[..n]);
    if n == |lines| {
      before := content;
      assert lines[..n] == lines && lines[n..] == [];
    } else if n == 0 {
      before := "";
      HeadersOfNothing();
      assert lines[0..] == lines;
    } else {
      var text := Join(lines[..n], '\n');
      before := text + "\n";
      JoinConcat(lines[..n], lines[n..], '\n');
      assert lines == lines[..n] + lines[n..];
      SplitJoin(lines[..n], '\n');
      HeadersOfLines(text, "");
      HeadersOfNothing();
      assert text + "\n" + "" == before && text + ['\n'] == before;
    }
  }

  // ---- What is written ----

  /** The header that trimming a section may bring in: its last line, where it is not the first. */
  function Late(s: Section): seq<string> {
    var lines := Split(TrimSpace(s.body), '\n');
    if |lines| > 1 then HeadIn(lines[|lines| - 1]) else []
  }

  /** All headers the sections show once trimmed. */
  function Shown(sections: seq<Section>): seq<string> {
    if sections == [] then [] else [sections[0].header] + Late(sections[0]) + Shown(sections[1..])
  }

  /** Trimming a section keeps its header and adds at most one: a last line that was no header before. */
  lemma HeadersOfTrimmed(s: Section)
    requires Good(s)
    ensures HeadersOf(TrimSpace(s.body)) == [s.header] + Late(s)
  {
    hide Split, Heads, HeadIn, Head, HeadersOf, TrimRight, TrimLeft;
    var t, w1, w2 := TrimmedParts(s.body);
    HeadersOfGlued(t, w1);
    LastLineGlued(t, w1);
    HeadersOfLastLine(s.body, t, w1, w2);
    HeadsOfNone();
    var p := Split(t, '\n');
    var front, last := p[..|p| - 1], p[|p| - 1];
    assert [w1][1..] == [];
    assert HeadersOf(t + w1) == Heads(front) + HeadIn(last + w1);
    KeptHead(last + w1);
    if |p| == 1 {
      assert front == [];
      OneHead(last + w1, last, s.header);
    } else {
      HeadFirst(front, HeadIn(last + w1), s.header);
    }
  }

  /** A trimmed text and the white space cut off behind it, up to the end of the line and beyond. */
  lemma TrimmedParts(body: string) returns (t: string, w1: string, w2: string)
    requires body != "" && body[0] == '#'
    ensures body == t + w1 + w2 && t == TrimSpace(body) && t != "" && !IsSpace(t[|t| - 1])
    ensures '\n' !in w1 && (forall i | 0 <= i < |w1| :: IsSpace(w1[i])) && (w2 != "" ==> w2[0] == '\n')
    ensures w2 != "" ==> forall i | 0 <= i < |w2[1..]| :: IsSpace(w2[1..][i])
  {
    var lo, hi := TrimSplits(body, IsSpace);
    t := body[..hi];
    var w := body[hi..];
    assert lo == 0;
    assert forall i | 0 <= i < |w| :: w[i] == body[hi + i];
    w1, w2 := FirstLine(w);
    assert body == t + w && t + w == t + w1 + w2;
  }

  /** White space on further lines holds no header; the first line stays the first. */
  lemma HeadersOfLastLine(body: string, t: string, w1: string, w2: string)
    requires body == t + w1 + w2 && '\n' !in w1 && (w2 != "" ==> w2[0] == '\n')
    requires w2 != "" ==> forall i | 0 <= i < |w2[1..]| :: IsSpace(w2[1..][i])
    ensures HeadersOf(t + w1) == HeadersOf(body)
    ensures |Split(t, '\n')| > 1 ==> Split(t, '\n')[0] == Split(body, '\n')[0]
  {
    hide Split, HeadersOf, IsSpace;
    SplitGlue(t, w1 + w2);
    assert t + (w1 + w2) == body;
    if w2 != "" {
      HeadersOfLines(t + w1, w2[1..]);
      HeadersOfSpace(w2[1..]);
      assert body == t + w1 + "\n" + w2[1..];
    } else {
      assert body == t + w1;
    }
  }

  /** A line's header is there without the white space at its end too. */
  lemma KeptHead(line: string)
    ensures HeadIn(line) != [] ==> HeadIn(TrimRight(line, IsSpace)) == HeadIn(line)
  {
    if Head(line).Some? {
      HeadOfTrimmed(line);
    }
  }

  lemma OneHead(line: string, trimmed: string, header: string)
    requires HeadIn(line) == [header] && (HeadIn(line) != [] ==> HeadIn(trimmed) == HeadIn(line))
    ensures HeadIn(trimmed) == [header]
  {
  }

  /** If the first line is a header and there is one header in all, the last line is none. */
  lemma HeadFirst(front: seq<string>, last: seq<string>, header: string)
    requires front != [] && Head(front[0]).Some? && Heads(front) + last == [header]
    ensures Heads(front) == [header] && last == []
  {
    assert Heads(front)[0] == Head(front[0]).value;
    assert |Heads(front) + last| == 1;
    assert (Heads(front) + last)[..1] == Heads(front);
  }

  lemma {:induction false} HeadersOfAll(sections: seq<Section>)
    requires forall s | s in sections :: Good(s)
    ensures HeadersOf(Paragraphs(Trimmed(sections))) == Shown(sections)
    decreases |sections|
  {
    hide Good, HeadersOf, TrimSpace, Late;
    if sections == [] {
      HeadersOfNothing();
    } else {
      assert sections[0] in sections;
      HeadersOfTrimmed(sections[0]);
      assert Trimmed(sections)[1..] == Trimmed(sections[1..]);
      HeadersOfAll(sections[1..]);
      if |sections| > 1 {
        HeadersOfParagraphs(Trimmed(sections)[0], Paragraphs(Trimmed(sections[1..])));
      } else {
        assert [sections[0].header] + Late(sections[0]) + [] == [sections[0].header] + Late(sections[0]);
      }
    }
  }

  /** The old text either is empty or has something to set the new sections off from. */
  predicate Fits(existing: string) {
    Kept(existing) == "" || TrimSpace(Kept(existing)) != ""
  }

  lemma HeadersOfWritten(existing: string, sections: seq<Section>)
    requires sections != [] && forall s | s in sections :: Good(s)
    ensures HeadersOf(WithAdditions(existing, Trimmed(sections))) ==
            HeadersOf(existing) + if Fits(existing) then Shown(sections) else Shown(sections)[1..]
  {
    hide Good, HeadersOf, TrimSpace, Kept, Shown;
    var kept, added := Kept(existing), Paragraphs(Trimmed(sections));
    HeadersOfKept(existing);
    HeadersOfAll(sections);
    HeadersOfNothing();
    var glue := if TrimSpace(kept) != "" then "\n\n" else "";
    HeadersOfLines(kept + glue + added, "");
    assert WithAdditions(existing, Trimmed(sections)) == kept + glue + added + "\n" + "";
    if TrimSpace(kept) != "" {
      HeadersOfParagraphs(kept, added);
    } else if kept == "" {
      assert TrimSpace("") == "" by { TrimOfTight("", IsSpace); }
      assert kept + glue + added == added;
    } else {
      assert kept + glue + added == kept + added;
      assert Good(sections[0]);
      FirstLineOfParagraphs(sections);
      HeadersOfMisfit(existing, added);
    }
  }

  /** After a blank, not empty, text the first added header does not start a line. */
  lemma HeadersOfMisfit(existing: string, added: string)
    requires Kept(existing) != "" && TrimSpace(Kept(existing)) == ""
    requires Head(Split(added, '\n')[0]).Some?
    ensures HeadersOf(added) != [] && HeadersOf(Kept(existing)) + HeadersOf(added)[1..] == HeadersOf(Kept(existing) + added)
  {
    hide Split, Heads, Head;
    var kept := Kept(existing);
    AllSpace(kept);
    HeadersOfSpace(kept);
    HeadersOfGlued(kept, added);
    var p := Split(kept, '\n');
    var n := TrimRightSplits(existing, LineEnd);
    LastLineEnds(kept);
    LinesAreParts(kept, p[|p| - 1]);
    SpaceBefore(p[|p| - 1], Split(added, '\n')[0]);
    SpaceBefore(p[|p| - 1], "");
    assert p[|p| - 1] + "" == p[|p| - 1];
  }

  /** Trimming keeps the header line that comes first. */
  lemma FirstLineOfTrimmed(body: string)
    requires body != "" && body[0] == '#' && Head(Split(body, '\n')[0]).Some?
    ensures Head(Split(TrimSpace(body), '\n')[0]).Some?
  {
    hide Split, Head;
    var lo, hi := TrimSplits(body, IsSpace);
    var t, w := body[..hi], body[hi..];
    assert lo == 0 && t != "" && TrimSpace(body) == t && body == t + w;
    SplitGlue(t, w);
    if |Split(t, '\n')| == 1 {
      var line := Split(w, '\n')[0];
      assert forall i | 0 <= i < |w| :: w[i] == body[hi + i];
      LinesAreParts(w, line);
      SplitCounts(t, '\n');
      SplitWithout(t, '\n');
      TrimRightAll(t, line, IsSpace);
      HeadOfTrimmed(t + line);
    }
  }

  lemma FirstLineOfParagraphs(sections: seq<Section>)
    requires sections != [] && Good(sections[0])
    ensures Head(Split(Paragraphs(Trimmed(sections)), '\n')[0]).Some?
  {
    hide Split, Head, HeadersOf, TrimSpace;
    var first := TrimSpace(sections[0].body);
    FirstLineOfTrimmed(sections[0].body);
    if |sections| > 1 {
      var rest := Paragraphs(Trimmed(sections)[1..]);
      SplitConcat(first, "\n" + rest, '\n');
      assert first + "\n\n" + rest == first + ['\n'] + ("\n" + rest);
    }
  }

  lemma AllSpace(s: string)
    requires TrimSpace(s) == ""
    ensures forall i | 0 <= i < |s| :: IsSpace(s[i])
  {
    var lo, hi := TrimSplits(s, IsSpace);
  }

  lemma SpaceBefore(a: string, b: string)
    requires a != "" && IsSpace(a[0])
    ensures HeadIn(a + b) == []
  {
    assert (a + b)[0] == a[0] != '#';
  }

  // ---- The three promises of the merge ----

  lemma SubsetWhenNoneLeft(a: set<string>, b: set<string>)
    requires a - b == {}
    ensures a <= b
  {
    forall x | x in a
      ensures x in b
    {
      assert x !in a - b;
    }
  }

  /** Nothing is written exactly when the user's index already names every bundled section. */
  lemma UnchangedIffCovered(existing: string, bundled: string)
    ensures Merged(Text(existing), bundled) == Unchanged <==> IndexHeaders(bundled) <= IndexHeaders(existing)
  {
    hide SkillIndexSections, HeadersOf, TrimSpace;
    var sections, present := SkillIndexSections(bundled), IndexHeaders(existing);
    SectionsOfIndex(bundled);
    MissingAre(sections, present);
    var missing := Missing(sections, present);
    assert ToSet(Names(missing)) == IndexHeaders(bundled) - present;
    if missing != [] {
      assert Names(missing)[0] in ToSet(Names(missing));
    } else {
      assert Names(missing) == [] && Trimmed(missing) == [];
      assert IndexHeaders(bundled) - present == {};
      assert Additions(existing, bundled) == Trimmed(missing);
      SubsetWhenNoneLeft(IndexHeaders(bundled), present);
    }
  }

  /** The bundled sections whose headers the user's index lacks. */
  function MissingFrom(existing: string, bundled: string): seq<Section> {
    Missing(SkillIndexSections(bundled), IndexHeaders(existing))
  }

  /** The first missing header comes again among what the missing sections show. */
  predicate FirstIsRepeated(existing: string, bundled: string) {
    var missing := MissingFrom(existing, bundled);
    missing != [] && missing[0].header in Shown(missing)[1..]
  }

  /** The headers that trimming brings in. */
  function LateHeaders(sections: seq<Section>): seq<string> {
    if sections == [] then [] else Late(sections[0]) + LateHeaders(sections[1..])
  }

  /** A last line that trimming turns into a header names a header of either text. */
  predicate Tidy(existing: string, bundled: string) {
    forall h | h in LateHeaders(MissingFrom(existing, bundled)) :: h in IndexHeaders(existing) + IndexHeaders(bundled)
  }

  /** What was there stays as a prefix, but for line ends. */
  lemma ExistingIsPrefix(existing: string, bundled: string)
    ensures Merged(Text(existing), bundled).Written? ==> Kept(existing) <= Merged(Text(existing), bundled).content
  {
    hide Kept;
  }

  lemma {:induction false} ParagraphsContain(parts: seq<string>, k: nat) returns (before: string, after: string)
    requires k < |parts|
    ensures Paragraphs(parts) == before + parts[k] + after
    decreases |parts|
  {
    if |parts| == 1 {
      before, after := "", "";
    } else if k == 0 {
      before, after := "", "\n\n" + Paragraphs(parts[1..]);
    } else {
      before, after := ParagraphsContain(parts[1..], k - 1);
      before := parts[0] + "\n\n" + before;
    }
  }

  /** Every missing section stands in the result with its whole text. */
  lemma MissingSectionsAreThere(existing: string, bundled: string, s: Section) returns (before: string, after: string)
    requires s in Missing(SkillIndexSections(bundled), IndexHeaders(existing))
    ensures Merged(Text(existing), bundled).Written?
    ensures Merged(Text(existing), bundled).content == before + TrimSpace(s.body) + after
  {
    hide SkillIndexSections, IndexHeaders, TrimSpace, Paragraphs, Kept;
    var missing := Missing(SkillIndexSections(bundled), IndexHeaders(existing));
    var k :| 0 <= k < |missing| && missing[k] == s;
    before, after := ParagraphsContain(Trimmed(missing), k);
    before := Kept(existing) + (if TrimSpace(Kept(existing)) != "" then "\n\n" else "") + before;
    after := after + "\n";
  }

  lemma {:induction false} ShownAre(sections: seq<Section>)
    ensures ToSet(Shown(sections)) == ToSet(Names(sections)) + ToSet(LateHeaders(sections))
    ensures sections != [] ==> Shown(sections) != [] && Shown(sections)[0] == sections[0].header
    ensures sections != [] ==> ToSet(LateHeaders(sections)) <= ToSet(Shown(sections)[1..])
    decreases |sections|
  {
    hide Late;
    if sections != [] {
      var rest := sections[1..];
      ShownAre(rest);
      var h, late := sections[0].header, Late(sections[0]);
      assert Shown(sections)[1..] == late + Shown(rest);
      assert sections == [sections[0]] + rest;
      NamesOfMore(sections[0], rest);
      ToSetConcat([h] + late, Shown(rest));
      ToSetConcat([h], late);
      ToSetConcat([h], Names(rest));
      ToSetConcat(late, LateHeaders(rest));
      ToSetConcat(late, Shown(rest));
    }
  }

  /** What the headers of the result are, for any two texts. */
  lemma MergedHeaders(existing: string, bundled: string)
    requires Merged(Text(existing), bundled).Written?
    ensures var missing := MissingFrom(existing, bundled);
            && missing != [] && missing[0].header in IndexHeaders(bundled) && missing[0].header !in IndexHeaders(existing)
            && IndexHeaders(Merged(Text(existing), bundled).content) ==
               IndexHeaders(existing) + ToSet(if Fits(existing) then Shown(missing) else Shown(missing)[1..])
            && ToSet(Names(missing)) == IndexHeaders(bundled) - IndexHeaders(existing)
  {
    hide SkillIndexSections, HeadersOf, TrimSpace, Fits, Kept, Shown, Good;
    var sections, present := SkillIndexSections(bundled), IndexHeaders(existing);
    var missing := MissingFrom(existing, bundled);
    SectionsOfIndex(bundled);
    MissingAre(sections, present);
    assert missing != [];
    HeadersOfWritten(existing, missing);
    ShownAre(missing);
    ToSetConcat(HeadersOf(existing), if Fits(existing) then Shown(missing) else Shown(missing)[1..]);
    assert Names(missing)[0] in ToSet(Names(missing));
  }

  /** All that is shown, and all but the first. */
  lemma ShownButFirst(missing: seq<Section>)
    requires missing != []
    ensures Shown(missing) != [] && ToSet(Shown(missing)) == {missing[0].header} + ToSet(Shown(missing)[1..])
    ensures ToSet(Names(missing)) <= {missing[0].header} + ToSet(Shown(missing)[1..])
    ensures ToSet(LateHeaders(missing)) <= ToSet(Shown(missing)[1..])
  {
    hide Shown;
    ShownAre(missing);
    assert Shown(missing) == [missing[0].header] + Shown(missing)[1..];
    ToSetConcat([missing[0].header], Shown(missing)[1..]);
  }

  /** Every header of both texts is there exactly when the old text fits, or the header it swallows comes again. */
  lemma MergeHoldsAllIff(existing: string, bundled: string)
    requires Merged(Text(existing), bundled).Written?
    ensures IndexHeaders(existing) + IndexHeaders(bundled) <= IndexHeaders(Merged(Text(existing), bundled).content)
       <==> Fits(existing) || FirstIsRepeated(existing, bundled)
  {
    hide IndexHeaders, Shown, Fits, Merged, MissingFrom, LateHeaders;
    var missing := MissingFrom(existing, bundled);
    MergedHeaders(existing, bundled);
    ShownButFirst(missing);
    var e, b, first := IndexHeaders(existing), IndexHeaders(bundled), missing[0].header;
    assert b <= e + ToSet(Names(missing));
    var rest := ToSet(Shown(missing)[1..]);
    assert e + b <= e + ({first} + rest);
    if first in rest {
      assert {first} + rest == rest;
    } else {
      assert first !in e + rest;
    }
  }

  /** No existing header is ever lost, and what comes in is bundled or was brought in by trimming. */
  lemma NoHeaderIsLost(existing: string, bundled: string)
    requires Merged(Text(existing), bundled).Written?
    ensures var merged := IndexHeaders(Merged(Text(existing), bundled).content);
            IndexHeaders(existing) <= merged <=
            IndexHeaders(existing) + IndexHeaders(bundled) + ToSet(LateHeaders(MissingFrom(existing, bundled)))
  {
    hide IndexHeaders, Shown, Fits, Merged, MissingFrom, LateHeaders;
    var missing := MissingFrom(existing, bundled);
    MergedHeaders(existing, bundled);
    ShownAre(missing);
    ShownButFirst(missing);
  }

  /** The headers of the result are exactly those of both when moreover trimming brings in no other. */
  lemma MergeIsUnion(existing: string, bundled: string)
    requires Merged(Text(existing), bundled).Written?
    ensures IndexHeaders(Merged(Text(existing), bundled).content) == IndexHeaders(existing) + IndexHeaders(bundled)
       <==> Tidy(existing, bundled) && (Fits(existing) || FirstIsRepeated(existing, bundled))
  {
    hide IndexHeaders, Shown, Fits, Merged, MissingFrom, LateHeaders, FirstIsRepeated;
    var missing := MissingFrom(existing, bundled);
    MergedHeaders(existing, bundled);
    MergeHoldsAllIff(existing, bundled);
    NoHeaderIsLost(existing, bundled);
    ShownAre(missing);
    ShownButFirst(missing);
    TidyIff(existing, bundled);
  }

  lemma TidyIff(existing: string, bundled: string)
    ensures Tidy(existing, bundled) <==>
            ToSet(LateHeaders(MissingFrom(existing, bundled))) <= IndexHeaders(existing) + IndexHeaders(bundled)
  {
    hide IndexHeaders, MissingFrom, LateHeaders;
  }

  /** A second merge changes nothing exactly when the first one holds all headers. */
  lemma SecondMergeIsIdle(existing: string, bundled: string)
    requires Merged(Text(existing), bundled).Written?
    ensures Merged(Text(Merged(Text(existing), bundled).content), bundled) == Unchanged
       <==> Fits(existing) || FirstIsRepeated(existing, bundled)
  {
    hide Fits, FirstIsRepeated, IndexHeaders, Merged, LateHeaders;
    MergeHoldsAllIff(existing, bundled);
    UnchangedIffCovered(Merged(Text(existing), bundled).content, bundled);
    NoHeaderIsLost(existing, bundled);
  }

  /** Without an index the bundled one is taken over whole, and merging again changes nothing. */
  lemma FirstMergeTakesAll(bundled: string)
    ensures var first := Merged(Absent, bundled);
            && first.Written? && IndexHeaders(first.content) == IndexHeaders(bundled)
            && Merged(Text(first.content), bundled) == Unchanged
  {
    hide HeadersOf;
    HeadersOfLineEnds(bundled, "\n");
    UnchangedIffCovered(EnsureTrailingNewline(bundled), bundled);
  }

  /** An index holding nothing but a space swallows the first bundled header; unless that comes again, every later merge adds it once more. */
  lemma SpaceSwallowsHeader(bundled: string)
    requires HeadersOf(bundled) != []
    ensures var merged, sections := Merged(Text(" "), bundled), SkillIndexSections(bundled);
            && merged.Written? && sections != []
            && IndexHeaders(merged.content) == ToSet(Shown(sections)[1..])
            && (Merged(Text(merged.content), bundled).Written? <==> sections[0].header !in Shown(sections)[1..])
  {
    hide SkillIndexSections, Shown, HeadersOf, Fits;
    SpaceIsBlank();
    SectionsOfIndex(bundled);
    assert HeadersOf(bundled)[0] in IndexHeaders(bundled);
    UnchangedIffCovered(" ", bundled);
    MissingFromNone(SkillIndexSections(bundled));
    MergedHeaders(" ", bundled);
    SecondMergeIsIdle(" ", bundled);
    WrittenOrUnchanged(Merged(Text(" "), bundled).content, bundled);
  }

  lemma SpaceIsBlank()
    ensures IndexHeaders(" ") == {} && !Fits(" ")
  {
    HeadersOfSpace(" ");
    assert Kept(" ") == " " && TrimSpace(" ") == "";
  }

  lemma WrittenOrUnchanged(existing: string, bundled: string)
    ensures Merged(Text(existing), bundled).Written? <==> Merged(Text(existing), bundled) != Unchanged
  {
  }

  lemma {:induction false} MissingFromNone(sections: seq<Section>)
    ensures Missing(sections, {}) == sections
    decreases |sections|
  {
    if sections != [] {
      MissingFromNone(sections[..|sections| - 1]);
    }
  }

  /** A no-break space hides a header from the pattern, and the merge brings it in: the result has a header neither text had. */
  lemma MergeCanBringHeader()
    ensures var bundled := "## a\n## b\U{A0}";
            var merged := Merged(Text(""), bundled);
            && merged.Written? && IndexHeaders("") + IndexHeaders(bundled) == {"a"}
            && IndexHeaders(merged.content) == {"a", "b"}
  {
    hide SkillIndexSections, TrimSpace, Shown, Late, HeadersOf;
    var bundled := "## a\n## b\U{A0}";
    HeadersOfHidden();
    OnlySection();
    HeadersOfNothing();
    assert IndexHeaders("") == {} && IndexHeaders(bundled) == {"a"};
    UnchangedIffCovered("", bundled);
    WrittenOrUnchanged("", bundled);
    MergedHeaders("", bundled);
    MissingFromNone([Section("a", bundled)]);
    assert Fits("") by { NothingFits(); }
    ShownOfOne(Section("a", bundled));
    SectionsOfIndex(bundled);
    HeadersOfTrimmed(Section("a", bundled));
    assert ToSet(["a", "b"]) == {"a", "b"};
  }

  lemma NothingFits()
    ensures Fits("")
  {
  }

  lemma ShownOfOne(s: Section)
    ensures Shown([s]) == [s.header] + Late(s)
  {
    hide Late;
    assert Shown([s][1..]) == [];
  }

  lemma OnlySection()
    ensures SkillIndexSections("## a\n## b\U{A0}") == [Section("a", "## a\n## b\U{A0}")]
  {
    hide Split, Head;
    var bundled := "## a\n## b\U{A0}";
    var lines := ["## a", "## b\U{A0}"];
    SplitWithout("## a", '\n');
    SplitWithout("## b\U{A0}", '\n');
    SplitConcat("## a", "## b\U{A0}", '\n');
    assert "## a" + ['\n'] + "## b\U{A0}" == bundled;
    assert Split(bundled, '\n') == lines;
    HeadOfParts(" ", "a", "");
    assert "##" + " " + "a" + "" == "## a";
    NoHeadBeforeNbsp();
    assert NextHead(lines, 1) == 2;
    JoinSplit(bundled, '\n');
    assert lines[..2] == lines && lines[2..] == [];
    assert bundled + "" == bundled;
  }

  lemma HeadersOfHidden()
    ensures var bundled := "## a\n## b\U{A0}";
            HeadersOf(bundled) == ["a"] && HeadersOf(TrimSpace(bundled)) == ["a", "b"]
  {
    hide HeadersOf, TrimLeft, TrimRight, Head;
    HeadersOfShort("a");
    HeadersOfShort("b");
    assert "## " + "a" == "## a" && "## " + "b" == "## b";
    assert ["a"] + [] == ["a"] && ["a"] + ["b"] == ["a", "b"];
    HeadersOfLines("## a", "## b\U{A0}");
    HeadersOfLines("## a", "## b");
    HeadersOfNbsp();
    TrimsToTwo();
    assert "## a" + "\n" + "## b\U{A0}" == "## a\n## b\U{A0}" && "## a" + "\n" + "## b" == "## a\n## b";
  }

  lemma TrimsToTwo()
    ensures TrimSpace("## a\n## b\U{A0}") == "## a\n## b"
  {
    hide TrimRight;
    var trimmed := "## a\n## b";
    assert trimmed + "\U{A0}" == "## a\n## b\U{A0}";
    assert trimmed[|trimmed| - 1] == 'b';
    TrimRightAll(trimmed, "\U{A0}", IsSpace);
  }

  lemma HeadersOfShort(name: string)
    requires IsName(name) && |name| == 1
    ensures HeadersOf("## " + name) == [name]
  {
    hide Head;
    HeadOfParts(" ", name, "");
    assert "##" + " " + name + "" == "## " + name;
    assert '\n' !in "## " + name by {
      assert forall c | c in "## " + name :: c == '#' || c == ' ' || c == name[0];
    }
    SplitWithout("## " + name, '\n');
    HeadsOfOne("## " + name);
  }

  lemma HeadersOfNbsp()
    ensures HeadersOf("## b\U{A0}") == []
  {
    hide Head;
    NoHeadBeforeNbsp();
    SplitWithout("## b\U{A0}", '\n');
    HeadsOfOne("## b\U{A0}");
  }

  lemma NoHeadBeforeNbsp()
    ensures Head("## b\U{A0}").None?
  {
    var line := "## b\U{A0}";
    TrimLeftAll(" ", "b\U{A0}", BlankChar);
    assert line[2..] == " " + "b\U{A0}";
    assert "b\U{A0}"[1] == '\U{A0}';
  }
}
