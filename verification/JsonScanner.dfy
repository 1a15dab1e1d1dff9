/**
 Finding the JSON objects in a model's answer: the first eight top-level stretches of text
 from an opening brace to its match, strings and escapes respected
 (internal/handler/agent_handler.go:870-923; strings as in section 7 of RFC 8259).
 */
module JsonScanner {
  import opened Text

  const MAX_OBJECTS := 8

  // ---- The lexer ----

  datatype Lex = Lex(depth: nat, inString: bool, escaped: bool)

  const START := Lex(0, false, false)

  function Step(l: Lex, c: char): Lex {
    if l.inString then
      if l.escaped then l.(escaped := false)
      else if c == '\\' then l.(escaped := true)
      else if c == '"' then l.(inString := false)
      else l
    else if c == '"' then l.(inString := true)
    else if c == '{' then l.(depth := l.depth + 1)
    else if c == '}' && l.depth > 0 then l.(depth := l.depth - 1)
    else l
  }

  /** The lexer's state after the first `n` characters. */
  function At(s: string, n: nat): (l: Lex)
    requires n <= |s|
    ensures l.escaped ==> l.inString
  {
    if n == 0 then START else Step(At(s, n - 1), s[n - 1])
  }

  // ---- What an object is, and where the objects are ----

  /** From a brace outside every object and string to the first place where all is closed again. */
  predicate IsSpan(s: string, i: nat, j: nat) {
    && i < j <= |s| && s[i] == '{'
    && At(s, i) == START && At(s, j) == START
    && forall k | i < k < j :: At(s, k).depth > 0
  }

  /** One balanced object by itself. */
  predicate IsObject(t: string) {
    IsSpan(t, 0, |t|)
  }

  /** Where the object being read after `n` characters began. */
  function Open(s: string, n: nat): (i: nat)
    requires n <= |s|
    ensures i <= n
  {
    if n == 0 then 0
    else if s[n - 1] == '{' && At(s, n - 1) == START then n - 1
    else Open(s, n - 1)
  }

  /** The character after the first `n` closes a top-level object. */
  predicate Closes(s: string, n: nat)
    requires n < |s|
  {
    s[n] == '}' && At(s, n) == Lex(1, false, false)
  }

  datatype Span = Span(from: nat, to: nat)

  /** The spans among the first `n` characters, in the order in which they end. */
  function Spans(s: string, n: nat): seq<Span>
    requires n <= |s|
  {
    if n == 0 then []
    else Spans(s, n - 1) + if Closes(s, n - 1) then [Span(Open(s, n - 1), n)] else []
  }

  predicate InRange(spans: seq<Span>, n: nat) {
    forall k | 0 <= k < |spans| :: spans[k].from < spans[k].to <= n
  }

  function Texts(s: string, spans: seq<Span>): seq<string>
    requires InRange(spans, |s|)
  {
    seq(|spans|, k requires 0 <= k < |spans| => s[spans[k].from..spans[k].to])
  }

  function FirstEight<T>(items: seq<T>): seq<T> {
    if |items| <= MAX_OBJECTS then items else items[..MAX_OBJECTS]
  }

  // ---- The spans are exactly the top-level objects ----

  /** While an object is being read, Open is where it began. */
  lemma {:induction false} OpenIs(s: string, n: nat)
    requires n <= |s| && At(s, n).depth > 0
    ensures Open(s, n) < n && s[Open(s, n)] == '{' && At(s, Open(s, n)) == START
    ensures forall k | Open(s, n) < k <= n :: At(s, k).depth > 0
    decreases n
  {
    if At(s, n - 1).depth > 0 {
      OpenIs(s, n - 1);
    }
  }

  /** And it can have begun nowhere else. */
  lemma OpenIsUnique(s: string, n: nat, i: nat)
    requires i < n <= |s| && At(s, i) == START
    requires forall k | i < k <= n :: At(s, k).depth > 0
    ensures Open(s, n) == i
  {
    OpenIs(s, n);
    var o := Open(s, n);
    assert !(o < i) && !(i < o);
  }

  /** A span ends where its last brace closes it. */
  lemma SpanEnds(s: string, i: nat, j: nat)
    ensures IsSpan(s, i, j) <==> i < j <= |s| && Closes(s, j - 1) && i == Open(s, j - 1)
  {
    if IsSpan(s, i, j) {
      assert i < j - 1 by {
        assert At(s, i + 1) == Lex(1, false, false);
      }
      OpenIsUnique(s, j - 1, i);
    }
    if i < j <= |s| && Closes(s, j - 1) && i == Open(s, j - 1) {
      OpenIs(s, j - 1);
    }
  }

  /** Every span found is an object, and every object is a span found. */
  lemma {:induction false} SpansAre(s: string, n: nat, span: Span)
    requires n <= |s|
    ensures span in Spans(s, n) <==> IsSpan(s, span.from, span.to) && span.to <= n
    decreases n
  {
    if n > 0 {
      SpansAre(s, n - 1, span);
      SpanEnds(s, span.from, span.to);
    }
  }

  /** The spans are disjoint and in order. */
  lemma {:induction false} SpansAreOrdered(s: string, n: nat)
    requires n <= |s|
    ensures InRange(Spans(s, n), n)
    ensures forall i, j | 0 <= i < j < |Spans(s, n)| :: Spans(s, n)[i].to <= Spans(s, n)[j].from
    decreases n
  {
    if n > 0 {
      SpansAreOrdered(s, n - 1);
      var before := Spans(s, n - 1);
      if Closes(s, n - 1) {
        OpenIs(s, n - 1);
        var o := Open(s, n - 1);
        forall i | 0 <= i < |before|
          ensures before[i].to <= o
        {
          assert before[i] in before;
          SpansAre(s, n - 1, before[i]);
        }
      }
    }
  }

  /** The texts of all top-level objects, in order. */
  function Objects(s: string): seq<string> {
    SpansAreOrdered(s, |s|);
    Texts(s, Spans(s, |s|))
  }

  lemma {:induction false} SpansGrow(s: string, m: nat, n: nat)
    requires m <= n <= |s|
    ensures Spans(s, m) <= Spans(s, n)
    decreases n
  {
    if m < n {
      SpansGrow(s, m, n - 1);
    }
  }

  // ---- The code ----

  method ExtractBalancedJSONObjectCandidates(input: string) returns (objects: seq<string>)
    ensures objects == FirstEight(Objects(TrimSpace(input)))
  {
    hide IsSpan, TrimSpace, Objects;
    var text := TrimSpace(input);
    ObjectsAre(text);
    if text == "" {
      return [];
    }
    objects := [];
    var depth: nat, start, inString, escaped := 0, -1, false, false;
    for i := 0 to |text|
      invariant Lex(depth, inString, escaped) == At(text, i)
      invariant depth > 0 ==> start == Open(text, i)
      invariant depth == 0 ==> start == -1
      invariant InRange(Spans(text, i), |text|) && objects == Texts(text, Spans(text, i)) && |objects| < MAX_OBJECTS
    {
      SpansAreOrdered(text, i + 1);
      var ch := text[i];
      if inString {
        if escaped {
          escaped := false;
          continue;
        }
        if ch == '\\' {
          escaped := true;
          continue;
        }
        if ch == '"' {
          inString := false;
        }
        continue;
      }
      match ch
      case '"' => inString := true;
      case '{' =>
        if depth == 0 {
          start := i;
        }
        depth := depth + 1;
      case '}' =>
        if depth == 0 {
          continue;
        }
        depth := depth - 1;
        if depth == 0 && start >= 0 {
          OpenIs(text, i);
          objects := objects + [text[start..i + 1]];
          start := -1;
          if |objects| >= MAX_OBJECTS {
            SpansGrow(text, i + 1, |text|);
            return;
          }
        }
      case _ =>
    }
  }

  // ---- Objects with other text between them ----

  lemma {:induction false} AtPrefix(a: string, b: string, k: nat)
    requires k <= |a|
    ensures At(a + b, k) == At(a, k)
    decreases k
  {
    if k > 0 {
      AtPrefix(a, b, k - 1);
    }
  }

  lemma {:induction false} AtConcat(a: string, b: string, k: nat)
    requires k <= |b| && At(a, |a|) == START
    ensures At(a + b, |a| + k) == At(b, k)
    decreases k
  {
    if k == 0 {
      AtPrefix(a, b, |a|);
    } else {
      AtConcat(a, b, k - 1);
    }
  }

  lemma {:induction false} OpenPrefix(a: string, b: string, k: nat)
    requires k <= |a|
    ensures Open(a + b, k) == Open(a, k)
    decreases k
  {
    if k > 0 {
      OpenPrefix(a, b, k - 1);
      AtPrefix(a, b, k - 1);
    }
  }

  lemma {:induction false} SpansPrefix(a: string, b: string, k: nat)
    requires k <= |a|
    ensures Spans(a + b, k) == Spans(a, k)
    decreases k
  {
    if k > 0 {
      SpansPrefix(a, b, k - 1);
      OpenPrefix(a, b, k - 1);
      AtPrefix(a, b, k - 1);
    }
  }

  function Shifted(spans: seq<Span>, d: nat): seq<Span> {
    seq(|spans|, k requires 0 <= k < |spans| => Span(spans[k].from + d, spans[k].to + d))
  }

  lemma OpenConcat(a: string, b: string, k: nat)
    requires k <= |b| && At(a, |a|) == START && At(b, k).depth > 0
    ensures Open(a + b, |a| + k) == |a| + Open(b, k)
  {
    hide At, Open;
    OpenIs(b, k);
    AtConcat(a, b, Open(b, k));
    forall n | |a| + Open(b, k) < n <= |a| + k
      ensures At(a + b, n).depth > 0
    {
      AtConcat(a, b, n - |a|);
    }
    OpenIsUnique(a + b, |a| + k, |a| + Open(b, k));
  }

  lemma {:induction false} SpansConcat(a: string, b: string, k: nat)
    requires k <= |b| && At(a, |a|) == START
    ensures Spans(a + b, |a| + k) == Spans(a, |a|) + Shifted(Spans(b, k), |a|)
    decreases k
  {
    hide At, Open, Shifted;
    if k == 0 {
      SpansPrefix(a, b, |a|);
      ShiftedStep([], Span(0, 0), |a|);
    } else {
      SpansConcat(a, b, k - 1);
      ClosesConcat(a, b, k - 1);
      if Closes(b, k - 1) {
        OpenConcat(a, b, k - 1);
        ShiftedStep(Spans(b, k - 1), Span(Open(b, k - 1), k), |a|);
        assert Spans(b, k) == Spans(b, k - 1) + [Span(Open(b, k - 1), k)];
        assert Spans(a + b, |a| + k) == Spans(a + b, |a| + k - 1) + [Span(|a| + Open(b, k - 1), |a| + k)];
      } else {
        assert Spans(b, k) == Spans(b, k - 1) && Spans(a + b, |a| + k) == Spans(a + b, |a| + k - 1);
      }
    }
  }

  lemma ClosesConcat(a: string, b: string, k: nat)
    requires k < |b| && At(a, |a|) == START
    ensures Closes(a + b, |a| + k) == Closes(b, k)
  {
    hide At;
    AtConcat(a, b, k);
  }

  lemma ShiftedStep(spans: seq<Span>, span: Span, d: nat)
    ensures Shifted([], d) == []
    ensures Shifted(spans + [span], d) == Shifted(spans, d) + [Span(span.from + d, span.to + d)]
  {
  }

  lemma ObjectsConcat(a: string, b: string)
    requires At(a, |a|) == START
    ensures Objects(a + b) == Objects(a) + Objects(b)
    ensures At(a + b, |a + b|) == At(b, |b|)
  {
    hide At, Spans, Objects;
    ObjectsAre(a);
    ObjectsAre(b);
    ObjectsAre(a + b);
    SpansConcat(a, b, |b|);
    AtConcat(a, b, |b|);
    TextsOfPrefix(a, b, Spans(a, |a|));
    TextsOfShifted(a, b, Spans(b, |b|));
  }

  lemma ObjectsAre(s: string)
    ensures InRange(Spans(s, |s|), |s|) && Objects(s) == Texts(s, Spans(s, |s|))
  {
    hide At, Open, Spans, Texts;
    SpansAreOrdered(s, |s|);
  }

  lemma TextsOfPrefix(a: string, b: string, spans: seq<Span>)
    requires InRange(spans, |a|)
    ensures InRange(spans, |a + b|) && Texts(a + b, spans) == Texts(a, spans)
  {
    assert forall k | 0 <= k < |spans| :: (a + b)[spans[k].from..spans[k].to] == a[spans[k].from..spans[k].to];
  }

  lemma TextsOfShifted(a: string, b: string, spans: seq<Span>)
    requires InRange(spans, |b|)
    ensures InRange(Shifted(spans, |a|), |a + b|) && Texts(a + b, Shifted(spans, |a|)) == Texts(b, spans)
  {
    assert forall k | 0 <= k < |spans| ::
        (a + b)[spans[k].from + |a|..spans[k].to + |a|] == b[spans[k].from..spans[k].to];
  }

  /** Text without quotes or opening braces. */
  predicate Plain(s: string) {
    forall i | 0 <= i < |s| :: s[i] != '"' && s[i] != '{'
  }

  lemma {:induction false} PlainHasNone(s: string, n: nat)
    requires Plain(s) && n <= |s|
    ensures At(s, n) == START && Spans(s, n) == []
    decreases n
  {
    if n > 0 {
      PlainHasNone(s, n - 1);
    }
  }

  lemma NoSpanInside(t: string, span: Span)
    requires IsObject(t)
    ensures span !in Spans(t, |t| - 1)
  {
    hide Spans;
    SpansAre(t, |t| - 1, span);
    assert 0 < span.to < |t| ==> At(t, span.to).depth > 0;
  }

  lemma ObjectIsItself(t: string)
    requires IsObject(t)
    ensures Objects(t) == [t] && At(t, |t|) == START
  {
    hide At, Open, Objects;
    var inner := Spans(t, |t| - 1);
    NoSpanInside(t, if inner != [] then inner[0] else Span(0, 0));
    SpanEnds(t, 0, |t|);
    ObjectsAre(t);
    assert Spans(t, |t|) == [Span(0, |t|)];
    assert t[0..|t|] == t;
  }

  /** Text that closes nothing adds no object, whatever came before. */
  lemma {:induction false} NothingCloses(a: string, b: string, k: nat)
    requires k <= |b| && forall i | 0 <= i < |b| :: b[i] != '}'
    ensures Spans(a + b, |a| + k) == Spans(a, |a|)
    decreases k
  {
    if k == 0 {
      SpansPrefix(a, b, |a|);
    } else {
      NothingCloses(a, b, k - 1);
      assert (a + b)[|a| + k - 1] == b[k - 1];
    }
  }

  /** Trimming costs no object. */
  lemma ObjectsOfTrimmed(s: string)
    ensures Objects(TrimSpace(s)) == Objects(s)
  {
    hide At, Spans, Objects, Texts;
    var lo, hi := TrimSplits(s, IsSpace);
    var front, middle, back := s[..lo], s[lo..hi], s[hi..];
    PlainHasNone(front, |front|);
    ObjectsAre(front);
    NoTexts(front);
    ObjectsConcat(front, middle + back);
    NothingCloses(middle, back, |back|);
    ObjectsAre(middle);
    ObjectsAre(middle + back);
    TextsOfPrefix(middle, back, Spans(middle, |middle|));
    assert s == front + (middle + back);
  }

  lemma NoTexts(s: string)
    ensures Texts(s, []) == []
  {
  }

  /** Objects with one piece of other text before, between and after them. */
  function Woven(gaps: seq<string>, objects: seq<string>): string
    requires |gaps| == |objects| + 1
  {
    if objects == [] then gaps[0] else gaps[0] + (objects[0] + Woven(gaps[1..], objects[1..]))
  }

  lemma {:induction false} ObjectsOfWoven(gaps: seq<string>, objects: seq<string>)
    requires |gaps| == |objects| + 1
    requires (forall g | g in gaps :: Plain(g)) && forall o | o in objects :: IsObject(o)
    ensures Objects(Woven(gaps, objects)) == objects
    decreases |objects|
  {
    hide At, Spans, IsObject, Objects, Plain;
    assert gaps[0] in gaps;
    PlainHasNone(gaps[0], |gaps[0]|);
    ObjectsAre(gaps[0]);
    if objects != [] {
      var rest := Woven(gaps[1..], objects[1..]);
      assert objects[0] in objects;
      ObjectIsItself(objects[0]);
      ObjectsConcat(objects[0], rest);
      ObjectsConcat(gaps[0], objects[0] + rest);
      ObjectsOfWoven(gaps[1..], objects[1..]);
      assert objects == [objects[0]] + objects[1..];
    }
  }

  /** Objects set apart by text without quotes or braces come back exactly, up to the eighth. */
  lemma ScannerRecovers(gaps: seq<string>, objects: seq<string>)
    requires |gaps| == |objects| + 1
    requires (forall g | g in gaps :: Plain(g)) && forall o | o in objects :: IsObject(o)
    ensures FirstEight(Objects(TrimSpace(Woven(gaps, objects)))) == FirstEight(objects)
    ensures |objects| <= MAX_OBJECTS ==> FirstEight(Objects(TrimSpace(Woven(gaps, objects)))) == objects
  {
    ObjectsOfTrimmed(Woven(gaps, objects));
    ObjectsOfWoven(gaps, objects);
  }

  /** A span's text is an object by itself. */
  lemma SpanIsObject(s: string, i: nat, j: nat)
    requires i < j <= |s| && At(s, i) == START
    ensures IsSpan(s, i, j) <==> IsObject(s[i..j])
  {
    var a, t := s[..i], s[i..j];
    assert s == (a + t) + s[j..];
    forall k | 0 <= k <= i
      ensures At(s, k) == At(a, k)
    {
      AtPrefix(a + t, s[j..], k);
      AtPrefix(a, t, k);
    }
    forall k | 0 <= k <= |t|
      ensures At(s, i + k) == At(t, k)
    {
      AtPrefix(a + t, s[j..], i + k);
      AtConcat(a, t, k);
    }
    if IsObject(t) {
      forall k | i < k < j
        ensures At(s, k).depth > 0
      {
        assert At(s, i + (k - i)) == At(t, k - i);
      }
    }
  }

  // ---- Strings ----

  /** What may stand between the quotes of a string: no quote and no backslash, but any character behind a backslash. */
  predicate IsStringBody(body: string) {
    body == ""
    || (body[0] != '"' && body[0] != '\\' && IsStringBody(body[1..]))
    || (body[0] == '\\' && |body| > 1 && IsStringBody(body[2..]))
  }

  lemma {:induction false} BodyIsRead(s: string, n: nat, body: string)
    requires n + |body| <= |s| && s[n..n + |body|] == body && IsStringBody(body)
    requires At(s, n).inString && !At(s, n).escaped
    ensures At(s, n + |body|) == At(s, n)
    decreases |body|
  {
    if body != "" {
      assert s[n] == body[0];
      if body[0] == '\\' {
        assert s[n + 1] == body[1];
        assert s[n + 2..n + |body|] == body[2..];
        assert At(s, n + 1) == At(s, n).(escaped := true) && At(s, n + 2) == At(s, n);
        BodyIsRead(s, n + 2, body[2..]);
      } else {
        assert s[n + 1..n + |body|] == body[1..];
        assert At(s, n + 1) == At(s, n);
        BodyIsRead(s, n + 1, body[1..]);
      }
    }
  }

  /** A string changes nothing for what follows it, whatever braces it holds; within it the scanner knows it is in a string. */
  lemma StringIsPassedOver(before: string, body: string, after: string)
    requires !At(before, |before|).inString && IsStringBody(body)
    ensures var (s, n) := (before + "\"" + body + "\"" + after, |before|);
            && At(s, n + |body| + 2) == At(s, n) == At(before, n)
            && At(s, n + 1) == At(s, n).(inString := true)
  {
    var (s, n) := (before + "\"" + body + "\"" + after, |before|);
    hide IsStringBody;
    AtPrefix(before, ['"'] + body + ['"'] + after, n);
    QuotedAt(before, body, after);
    StringIsRead(s, n, body);
  }

  lemma QuotedAt(before: string, body: string, after: string)
    ensures var s := before + "\"" + body + "\"" + after;
            && s == before + (['"'] + body + ['"'] + after)
            && s[|before|] == '"' && s[|before| + 1 + |body|] == '"' && s[|before| + 1..|before| + 1 + |body|] == body
  {
  }

  lemma StringIsRead(s: string, n: nat, body: string)
    requires n + 1 + |body| < |s| && s[n] == '"' && s[n + 1..n + 1 + |body|] == body && s[n + 1 + |body|] == '"'
    requires !At(s, n).inString && IsStringBody(body)
    ensures At(s, n + |body| + 2) == At(s, n) && At(s, n + 1) == At(s, n).(inString := true)
  {
    hide IsStringBody;
    assert At(s, n + 1) == At(s, n).(inString := true);
    BodyIsRead(s, n + 1, body);
  }
}
