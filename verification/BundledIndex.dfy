/**
 Merging the skills index shipped with the app into the user's
 (internal/builtinskills/builtinskills.go:124-196).

 The header pattern is matched line by line: its trailing white space may run over blank
 lines, but those hold no header.
 */
module BundledIndex {
  import opened Text
  import opened Wrappers

  // ---- Header lines ----

  predicate BlankChar(c: char) {
    c == ' ' || c == '\t'
  }

  /** \s of the pattern: ASCII white space without the vertical tab. */
  predicate PatternSpace(c: char) {
    c in {'\t', '\n', '\U{C}', '\r', ' '}
  }

  predicate Alnum(c: char) {
    'a' <= c <= 'z' || 'A' <= c <= 'Z' || '0' <= c <= '9'
  }

  predicate IsName(s: string) {
    s != "" && Alnum(s[0]) && forall i | 0 <= i < |s| :: Alnum(s[i]) || s[i] in {'_', '.', '/', '-'}
  }

  /** The name a header line carries. */
  function Head(line: string): Option<string> {
    if !("##" <= line) then None
    else
      var rest := line[2..];
      var name := TrimRight(TrimLeft(rest, BlankChar), PatternSpace);
      if |TrimLeft(rest, BlankChar)| < |rest| && IsName(name) then Some(name) else None
  }

  /** The names of all headers, in order. */
  function Heads(lines: seq<string>): seq<string> {
    if lines == [] then []
    else HeadIn(lines[0]) + Heads(lines[1..])
  }

  function HeadIn(line: string): seq<string> {
    if Head(line).Some? then [Head(line).value] else []
  }

  function NextHead(lines: seq<string>, i: nat): (j: nat)
    requires i <= |lines|
    ensures i <= j <= |lines|
    ensures j < |lines| ==> Head(lines[j]).Some?
    ensures forall k | i <= k < j :: Head(lines[k]).None?
    decreases |lines| - i
  {
    if i == |lines| || Head(lines[i]).Some? then i else NextHead(lines, i + 1)
  }

  datatype Section = Section(header: string, body: string)

  /** A section's text reaches to where the next header line begins. */
  function SectionsOf(lines: seq<string>): seq<Section>
    decreases |lines|
  {
    if lines == [] then []
    else if Head(lines[0]).None? then SectionsOf(lines[1..])
    else
      var n := NextHead(lines, 1);
      [Section(Head(lines[0]).value, Join(lines[..n], '\n') + if n < |lines| then "\n" else "")] + SectionsOf(lines[n..])
  }

  function SkillIndexSections(content: string): seq<Section> {
    SectionsOf(Split(content, '\n'))
  }

  function HeadersOf(content: string): seq<string> {
    Heads(Split(content, '\n'))
  }

  function ToSet(s: seq<string>): set<string> {
    set x | x in s
  }

  function IndexHeaders(content: string): set<string> {
    ToSet(HeadersOf(content))
  }

  // ---- The merge ----

  /** The sections whose headers are not there yet. */
  function Missing(sections: seq<Section>, present: set<string>): seq<Section> {
    if sections == [] then []
    else Missing(sections[..|sections| - 1], present)
         + if sections[|sections| - 1].header in present then [] else [sections[|sections| - 1]]
  }

  function Trimmed(sections: seq<Section>): seq<string> {
    seq(|sections|, i requires 0 <= i < |sections| => TrimSpace(sections[i].body))
  }

  /** strings.Join with an empty line between the parts. */
  function Paragraphs(parts: seq<string>): string {
    if parts == [] then "" else if |parts| == 1 then parts[0] else parts[0] + "\n\n" + Paragraphs(parts[1..])
  }

  predicate LineEnd(c: char) {
    c == '\r' || c == '\n'
  }

  function Kept(existing: string): string {
    TrimRight(existing, LineEnd)
  }

  function WithAdditions(existing: string, additions: seq<string>): string {
    var kept := Kept(existing);
    kept + (if TrimSpace(kept) != "" then "\n\n" else "") + Paragraphs(additions) + "\n"
  }

  function Additions(existing: string, bundled: string): seq<string> {
    Trimmed(Missing(SkillIndexSections(bundled), IndexHeaders(existing)))
  }

  function EnsureTrailingNewline(content: string): string {
    if content != "" && content[|content| - 1] == '\n' then content else content + "\n"
  }

  /** What reading the user's index gave. */
  datatype File = Absent | Unreadable | Text(content: string)

  datatype Outcome = Unchanged | Failed | Written(content: string)

  function Merged(file: File, bundled: string): Outcome {
    match file
    case Unreadable => Failed
    case Absent => Written(EnsureTrailingNewline(bundled))
    case Text(existing) =>
      if Additions(existing, bundled) == [] then Unchanged
      else Written(WithAdditions(existing, Additions(existing, bundled)))
  }

  method MergeStandaloneSkillsIndex(file: File, bundled: string) returns (outcome: Outcome)
    ensures outcome == Merged(file, bundled)
  {
    hide SkillIndexSections, IndexHeaders, TrimSpace;
    if file.Absent? {
      return Written(EnsureTrailingNewline(bundled));
    }
    if file.Unreadable? {
      return Failed;
    }
    var existing := file.content;
    var existingHeaders := IndexHeaders(existing);
    var sections := SkillIndexSections(bundled);
    var additions := [];
    for i := 0 to |sections|
      invariant additions == Trimmed(Missing(sections[..i], existingHeaders))
    {
      assert sections[..i + 1][..i] == sections[..i];
      if sections[i].header !in existingHeaders {
        additions := additions + [TrimSpace(sections[i].body)];
      }
    }
    assert sections[..|sections|] == sections;
    if |additions| == 0 {
      return Unchanged;
    }
    var merged := TrimRight(existing, LineEnd);
    if TrimSpace(merged) != "" {
      merged := merged + "\n\n";
    }
    merged := merged + Paragraphs(additions);
    merged := merged + "\n";
    outcome := Written(merged);
  }
}
