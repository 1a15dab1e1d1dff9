/**
 Printing a skill file and splitting it again
 (internal/agentlibrary/importer.go:1277-1309, internal/agentlibrary/declaration.go:141-157).
 The marshalled header is any text.
 */
module Frontmatter {
  import opened Text

  const FENCE := "\n---"

  datatype Document = Document(header: string, body: string, ok: bool)

  function TrimPrefix(s: string, prefix: string): string {
    if prefix <= s then s[|prefix|..] else s
  }

  /** One line ending, with or without a carriage return, off the front. */
  function TrimLineEnd(s: string): string {
    TrimPrefix(TrimPrefix(s, "\r"), "\n")
  }

  lemma TrimLineEndOf(s: string)
    ensures TrimLineEnd("\n" + s) == s
  {
    assert ("\n" + s)[0] == '\n' && ("\n" + s)[1..] == s;
  }

  predicate EndsInNewline(s: string) {
    s != "" && s[|s| - 1] == '\n'
  }

  predicate StartsWithNewline(s: string) {
    "\n" <= s
  }

  function RenderSkillMarkdown(raw: string, body: string): string {
    "---\n" + raw + (if EndsInNewline(raw) then "" else "\n") + "---\n"
    + if body == "" then "" else (if StartsWithNewline(body) then "" else "\n") + body
  }

  function SplitFrontmatter(content: string): Document {
    if !("---" <= content) then Document("", content, false)
    else
      var rest := TrimLineEnd(content[3..]);
      var end := IndexOf(rest, FENCE, 0);
      if end == |rest| then Document("", content, false)
      else Document(rest[..end], TrimLineEnd(rest[end + 4..]), true)
  }

  /** The header that stands between the fences: the marshalled text without its last newline. */
  function HeaderOf(raw: string): string {
    if EndsInNewline(raw) then raw[..|raw| - 1] else raw
  }

  /** The body as it stands in the file: set off by one blank line. */
  function BodyOf(body: string): string {
    if body == "" || StartsWithNewline(body) then body else "\n" + body
  }

  /** Everything after the opening fence and its newline. */
  function Rest(header: string, body: string): string {
    header + FENCE + ("\n" + body)
  }

  lemma RenderedShape(raw: string, body: string)
    ensures RenderSkillMarkdown(raw, body) == "---\n" + Rest(HeaderOf(raw), BodyOf(body))
  {
    hide Rest;
    HeaderLine(raw);
    RestIs(HeaderOf(raw), BodyOf(body));
  }

  lemma HeaderLine(raw: string)
    ensures raw + (if EndsInNewline(raw) then "" else "\n") == HeaderOf(raw) + "\n"
  {
  }

  lemma RestIs(header: string, body: string)
    ensures "---\n" + Rest(header, body) == "---\n" + (header + "\n") + "---\n" + body
  {
  }

  /** After the header the fence follows at once; an earlier fence lies within the header. */
  lemma FenceAt(header: string, tail: string)
    ensures IndexOf(header + FENCE + tail, FENCE, 0) == IndexOf(header, FENCE, 0)
  {
    hide IndexOf;
    var rest := header + FENCE + tail;
    var end := IndexOf(header, FENCE, 0);
    forall k | 0 <= k < end
      ensures !(FENCE <= rest[k..])
    {
      FenceBefore(header, tail, k);
    }
    if end < |header| {
      FenceBefore(header, tail, end);
    } else {
      assert rest[end..] == FENCE + tail;
    }
    IndexIs(rest, FENCE, 0, end);
  }

  lemma ContainsIff(header: string)
    ensures Contains(header, FENCE) <==> IndexOf(header, FENCE, 0) < |header|
  {
    if Contains(header, FENCE) {
      var i :| 0 <= i <= |header| && FENCE <= header[i..];
      assert i < |header|;
    }
  }

  lemma FenceBefore(header: string, tail: string, k: nat)
    requires k < |header|
    ensures FENCE <= (header + FENCE + tail)[k..] <==> FENCE <= header[k..]
  {
    var rest := header + FENCE + tail;
    if k + 4 <= |header| {
      assert rest[k..][..4] == header[k..][..4];
    } else {
      assert rest[|header|] == '\n';
      assert rest[k..][|header| - k] == '\n' != FENCE[|header| - k];
    }
  }

  lemma SplitOfRest(header: string, body: string)
    ensures var rest := Rest(header, body);
            var end := IndexOf(rest, FENCE, 0);
            end <= |header| && SplitFrontmatter("---\n" + rest)
            == Document(rest[..end], TrimLineEnd(rest[end + 4..]), true)
  {
    hide IndexOf, Contains, Rest, TrimLineEnd;
    var rest := Rest(header, body);
    FenceInRest(header, body);
    TrimLineEndOf(rest);
    assert ("---\n" + rest)[3..] == "\n" + rest;
    assert "---" <= "---\n" + rest;
  }

  lemma FenceInRest(header: string, body: string)
    ensures |Rest(header, body)| == |header| + 5 + |body|
    ensures if Contains(header, FENCE) then IndexOf(Rest(header, body), FENCE, 0) < |header|
            else IndexOf(Rest(header, body), FENCE, 0) == |header|
    ensures Rest(header, body)[..|header|] == header && Rest(header, body)[|header| + 4..] == "\n" + body
  {
    FenceAt(header, "\n" + body);
    ContainsIff(header);
  }

  /**
   Splitting a printed file gives back the header and the body, but for one leading newline,
   exactly when no line of the header after its first starts with three dashes.
   */
  lemma SplitInvertsRender(raw: string, body: string)
    ensures SplitFrontmatter(RenderSkillMarkdown(raw, body)) == Document(HeaderOf(raw), BodyOf(body), true)
       <==> !Contains(HeaderOf(raw), FENCE)
  {
    hide RenderSkillMarkdown, SplitFrontmatter, Contains, IndexOf, HeaderOf, BodyOf, Rest, TrimLineEnd;
    RenderedShape(raw, body);
    SplitOfRest(HeaderOf(raw), BodyOf(body));
    FenceInRest(HeaderOf(raw), BodyOf(body));
    TrimLineEndOf(BodyOf(body));
  }

  /** The body kept is the body given, or the body given after one newline. */
  lemma BodyUpToNewline(body: string)
    ensures BodyOf(body) == body || BodyOf(body) == "\n" + body
    ensures BodyOf(BodyOf(body)) == BodyOf(body)
  {
  }

  /** The header up to its first fence, and what printing needs behind a fence to give it back. */
  predicate PrintsBack(header: string) {
    var end := IndexOf(header, FENCE, 0);
    !EndsInNewline(header[..end]) && (end < |header| ==> header[end + 4..] == "\n" || "\n\n" <= header[end + 4..])
  }

  /**
   Printing what was split gives the same file again exactly when the header, up to its first
   fence if it holds any, does not end in a blank line, and a blank line follows such a fence.
   */
  lemma RenderIsFixedPoint(raw: string, body: string)
    ensures var file := RenderSkillMarkdown(raw, body);
            var parts := SplitFrontmatter(file);
            RenderSkillMarkdown(parts.header, parts.body) == file <==> PrintsBack(HeaderOf(raw))
  {
    hide RenderSkillMarkdown, SplitFrontmatter, IndexOf, HeaderOf, BodyOf, EndsInNewline;
    var header, kept := HeaderOf(raw), BodyOf(body);
    var end := IndexOf(header, FENCE, 0);
    RenderedShape(raw, body);
    FenceAt(header, "\n" + kept);
    if end == |header| {
      assert header[..end] == header;
      PrintedBack(header, "\n" + kept);
      TwoNewlines(kept);
      BodyStartsWithNewline(body);
    } else {
      var h, after := header[..end], header[end + 4..];
      var r := after + FENCE + ("\n" + kept);
      assert header[end..][..4] == FENCE;
      assert header == h + FENCE + after;
      assert Rest(header, kept) == h + FENCE + r;
      PrintedBack(h, r);
      BlankLineBehind(after, "\n" + kept);
    }
  }

  lemma TwoNewlines(t: string)
    ensures "\n\n" <= "\n" + t <==> "\n" <= t
  {
    var s := "\n" + t;
    if "\n" <= t {
      assert s[..2] == "\n\n";
    } else if t != "" {
      assert t[..1] == [t[0]];
      assert s[1] != '\n';
    }
  }

  lemma BodyStartsWithNewline(body: string)
    ensures BodyOf(body) == "" || "\n" <= BodyOf(body)
  {
  }

  lemma BlankLineBehind(after: string, tail: string)
    ensures var r := after + FENCE + tail;
            r != "\n" && ("\n\n" <= r <==> after == "\n" || "\n\n" <= after)
  {
    var r := after + FENCE + tail;
    assert r[..2] == [r[0], r[1]];
    if |after| == 0 {
      assert r[1] == '-';
    } else if |after| == 1 {
      assert r[1] == '\n' && r[0] == after[0] && after == [after[0]];
    } else {
      assert r[..2] == after[..2];
    }
  }

  /** A file cut at its first fence, printed again. */
  lemma PrintedBack(h: string, r: string)
    requires IndexOf(h + FENCE + r, FENCE, 0) == |h|
    ensures var file := "---\n" + (h + FENCE + r);
            var parts := SplitFrontmatter(file);
            RenderSkillMarkdown(parts.header, parts.body) == file <==> !EndsInNewline(h) && (r == "\n" || "\n\n" <= r)
  {
    hide RenderSkillMarkdown, IndexOf, BodyOf, TrimLineEnd, EndsInNewline;
    var rest := h + FENCE + r;
    var file := "---\n" + rest;
    TrimLineEndOf(rest);
    assert file[3..] == "\n" + rest && "---" <= file;
    assert rest[..|h|] == h && rest[|h| + 4..] == r;
    var kept := BodyOf(TrimLineEnd(r));
    RenderedShape(h, TrimLineEnd(r));
    NewlineAgain(r);
    if EndsInNewline(h) {
      HeaderIsShorter(h);
      assert Rest(HeaderOf(h), kept)[|h|] == '-' != rest[|h|];
      DifferentTails("---\n", Rest(HeaderOf(h), kept), rest);
    } else if r != "\n" + kept {
      DifferentTails(h + FENCE, "\n" + kept, r);
      DifferentTails("---\n", Rest(h, kept), rest);
    }
  }

  lemma HeaderIsShorter(h: string)
    requires EndsInNewline(h)
    ensures |HeaderOf(h)| == |h| - 1
  {
  }

  lemma DifferentTails(p: string, q: string, r: string)
    requires q != r
    ensures p + q != p + r
  {
    assert (p + q)[|p|..] == q && (p + r)[|p|..] == r;
  }

  lemma NewlineAgain(r: string)
    ensures r == "\n" + BodyOf(TrimLineEnd(r)) <==> r == "\n" || "\n\n" <= r
  {
    if "\n" <= r {
      TrimLineEndOf(r[1..]);
      assert r == "\n" + r[1..];
      assert "\n\n" <= r <==> "\n" <= r[1..];
    }
  }

  // ---- Any file ----

  /** At most one line end goes, of whichever kind. */
  lemma TrimLineEndIs(s: string)
    ensures TrimLineEnd(s) == if "\r\n" <= s then s[2..] else if "\r" <= s || "\n" <= s then s[1..] else s
  {
    if "\r" <= s {
      assert "\n" <= s[1..] <==> "\r\n" <= s by {
        if "\n" <= s[1..] {
          assert s[..2] == "\r\n";
        }
        if "\r\n" <= s {
          assert s[1..][0] == s[1];
        }
      }
    }
  }

  /**
   A file has a header exactly when it begins with three dashes and, behind the line end there
   if any, has a fence; the header is what stands before the first fence, the body what follows
   it.  Any other file is all body.
   */
  lemma SplitIs(content: string) returns (after: string)
    ensures var d := SplitFrontmatter(content);
            if "---" <= content && Contains(TrimLineEnd(content[3..]), "\n---") then
              && d.ok && TrimLineEnd(content[3..]) == d.header + "\n---" + after && d.body == TrimLineEnd(after)
              && forall k | 0 <= k < |d.header| :: !("\n---" <= TrimLineEnd(content[3..])[k..])
            else d == Document("", content, false)
  {
    hide TrimLineEnd, IndexOf;
    after := "";
    if "---" <= content {
      var rest := TrimLineEnd(content[3..]);
      ContainsIff(rest);
      var end := IndexOf(rest, FENCE, 0);
      if end < |rest| {
        after := rest[end + 4..];
        assert rest[end..][..4] == FENCE;
        assert rest == rest[..end] + rest[end..end + 4] + after;
      }
    }
  }
}
