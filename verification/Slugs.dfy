/**
 Skill keys: what a slug is, and how one is derived from a name
 (internal/agentlibrary/declaration.go:229-248, internal/agentlibrary/importer.go:566-591, 1794-1803).
 */
module Slugs {
  import opened Text

  predicate SlugChar(c: char) {
    'a' <= c <= 'z' || 'A' <= c <= 'Z' || '0' <= c <= '9' || c in {'-', '_', '.'}
  }

  predicate IsSlug(s: string) {
    s != "" && s[0] !in {'-', '_', '.'} && forall c | c in s :: SlugChar(c)
  }

  lemma SlugHasNoSpace(s: string)
    requires IsSlug(s)
    ensures s != "" && TrimSpace(s) == s && '\n' !in s
  {
    assert s[0] in s && s[|s| - 1] in s;
    TrimOfTight(s, IsSpace);
  }

  const CAPITALS := "ABCDEFGHIJKLMNOPQRSTUVWXYZ"
  const LETTERS := "abcdefghijklmnopqrstuvwxyz"
  const DIGITS := "0123456789"

  lemma CapitalIff(c: char)
    ensures 'A' <= c <= 'Z' <==> c in CAPITALS
    ensures 'A' <= c <= 'Z' ==> CAPITALS[c as int - 65] == c
  {
  }

  lemma LetterIff(c: char)
    ensures 'a' <= c <= 'z' <==> c in LETTERS
    ensures 'a' <= c <= 'z' ==> LETTERS[c as int - 97] == c
  {
  }

  lemma DigitIff(c: char)
    ensures '0' <= c <= '9' <==> c in DIGITS
  {
    assert '0' <= c <= '9' ==> DIGITS[c as int - 48] == c;
  }

  /** ASCII letters and digits, and behind the first character dashes, underscores and dots. */
  lemma IsSlugIff(s: string)
    ensures IsSlug(s) <==>
            && s != "" && (s[0] in CAPITALS || s[0] in LETTERS || s[0] in DIGITS)
            && forall c | c in s :: c in CAPITALS || c in LETTERS || c in DIGITS || c == '-' || c == '_' || c == '.'
  {
    forall c: char
      ensures SlugChar(c) <==> c in CAPITALS || c in LETTERS || c in DIGITS || c == '-' || c == '_' || c == '.'
      ensures c == '-' || c == '_' || c == '.' ==> c !in CAPITALS && c !in LETTERS && c !in DIGITS
    {
      CapitalIff(c);
      LetterIff(c);
      DigitIff(c);
    }
    assert s != "" ==> s[0] in s;
  }

  // ---- The display name of a slug ----

  function Upper(c: char): char {
    if 'a' <= c <= 'z' then c - ' ' else c
  }

  /** The words between '_', '-' and '.', each with its first letter raised, with blanks between. */
  function TitleFrom(slug: string, inWord: bool, started: bool): string {
    if slug == "" then ""
    else if slug[0] in {'-', '_', '.'} then TitleFrom(slug[1..], false, started)
    else if inWord then [slug[0]] + TitleFrom(slug[1..], true, true)
    else (if started then " " else "") + [Upper(slug[0])] + TitleFrom(slug[1..], true, true)
  }

  function TitleFromSlug(slug: string): string {
    TitleFrom(slug, false, false)
  }

  lemma {:induction false} TitleIsOneLine(slug: string, inWord: bool, started: bool)
    requires forall c | c in slug :: SlugChar(c)
    ensures '\n' !in TitleFrom(slug, inWord, started)
    decreases |slug|
  {
    if slug != "" {
      assert slug[0] in slug && forall c | c in slug[1..] :: c in slug;
      TitleIsOneLine(slug[1..], false, started);
      TitleIsOneLine(slug[1..], true, true);
    }
  }

  predicate Separates(c: char) {
    c == '-' || c == '_' || c == '.'
  }

  /** A slug's title is that of its parts, with a blank between parts that are not empty. */
  lemma {:induction false} TitleOfParts(a: string, sep: char, b: string, inWord: bool, started: bool)
    requires Separates(sep)
    ensures TitleFrom(a + [sep] + b, inWord, started) ==
            TitleFrom(a, inWord, started) + TitleFrom(b, false, started || exists c :: c in a && !Separates(c))
    decreases |a|
  {
    var s := a + [sep] + b;
    if a == "" {
      assert s[1..] == b;
    } else {
      assert s[1..] == a[1..] + [sep] + b;
      assert forall c :: c in a <==> c == a[0] || c in a[1..];
      TitleOfParts(a[1..], sep, b, !Separates(a[0]), started || !Separates(a[0]));
    }
  }

  /** A part begins with its first letter raised; everything behind it stays. */
  lemma {:induction false} TitleOfPart(w: string, inWord: bool, started: bool)
    requires forall c | c in w :: !Separates(c)
    ensures TitleFrom(w, inWord, started) ==
            if w == "" || inWord then w else (if started then " " else "") + [Upper(w[0])] + w[1..]
    decreases |w|
  {
    if w != "" {
      assert w[0] in w && forall c | c in w[1..] :: c in w;
      TitleOfPart(w[1..], true, true);
      assert w == [w[0]] + w[1..];
    }
  }

  lemma UpperIs(c: char)
    ensures 'a' <= c <= 'z' ==> c == LETTERS[c as int - 97] && Upper(c) == CAPITALS[c as int - 97]
    ensures !('a' <= c <= 'z') ==> Upper(c) == c
  {
    LetterIff(c);
    CapitalIff(Upper(c));
  }

  // ---- A slug for a name ----

  predicate WordChar(c: char) {
    'a' <= c <= 'z' || '0' <= c <= '9'
  }

  predicate IsWord(w: string) {
    w != "" && forall c | c in w :: WordChar(c)
  }

  /** The maximal runs of lower-case letters and digits. */
  function Words(s: string): (words: seq<string>)
    ensures s != "" && WordChar(s[|s| - 1]) ==> words != []
    ensures forall w | w in words :: IsWord(w)
  {
    if s == "" then []
    else
      var words := Words(s[..|s| - 1]);
      var last := s[|s| - 1];
      if !WordChar(last) then words
      else if |s| > 1 && WordChar(s[|s| - 2]) then
        assert IsWord(words[|words| - 1]);
        words[..|words| - 1] + [words[|words| - 1] + [last]]
      else words + [[last]]
  }

  function SlugOf(words: seq<string>): string {
    if words == [] then "skill" else Join(words, '_')
  }

  function Lowered(s: string, lower: char -> char): (r: string)
    ensures |r| == |s| && forall i | 0 <= i < |s| :: r[i] == lower(s[i])
  {
    seq(|s|, i requires 0 <= i < |s| => lower(s[i]))
  }

  /** `lower` is the letter-by-letter lower-casing of Go's strings.ToLower. */
  method SlugifySkillName(name: string, lower: char -> char) returns (slug: string)
    ensures slug == SlugOf(Words(Lowered(TrimSpace(name), lower)))
  {
    hide Join;
    NothingBuilt();
    var s := Lowered(TrimSpace(name), lower);
    var b := "";
    var lastSep := false;
    for i := 0 to |s|
      invariant b == Built(s[..i])
      invariant lastSep == EndsOpen(s[..i])
    {
      BuiltStep(s[..i], s[i]);
      assert s[..i + 1] == s[..i] + [s[i]];
      if WordChar(s[i]) {
        b := b + [s[i]];
        lastSep := false;
      } else if |b| > 0 && !lastSep {
        b := b + "_";
        lastSep := true;
      }
    }
    assert s[..|s|] == s;
    BuiltTrims(s);
    slug := Trim(b, c => c == '_');
    if slug == "" {
      slug := "skill";
    }
  }

  /** What the builder holds after reading `s`: the words so far and, after a gap, one separator. */
  function Built(s: string): string {
    Join(Words(s), '_') + if EndsOpen(s) then "_" else ""
  }

  predicate EndsOpen(s: string) {
    Words(s) != [] && !WordChar(s[|s| - 1])
  }

  lemma NothingBuilt()
    ensures Built("") == "" && !EndsOpen("")
  {
  }

  /** The words of a text are those of its parts between characters that belong to no word. */
  lemma {:induction false} WordsOfParts(a: string, c: char, b: string)
    requires c !in LETTERS && c !in DIGITS
    ensures Words(a + [c] + b) == Words(a) + Words(b)
    decreases |b|
  {
    NotWordChar(c);
    hide WordChar, Words;
    if b == "" {
      WordsStep(a, c);
      JoinNone();
      assert a + [c] + b == a + [c];
      assert Words(a) + [] == Words(a);
    } else {
      var v, last := b[..|b| - 1], b[|b| - 1];
      WordsOfParts(a, c, v);
      WordsOfLonger(a, c, v, last);
      assert b == v + [last] && a + [c] + b == a + [c] + v + [last];
    }
  }

  lemma WordsOfLonger(a: string, c: char, v: string, last: char)
    requires !WordChar(c) && Words(a + [c] + v) == Words(a) + Words(v)
    ensures Words(a + [c] + v + [last]) == Words(a) + Words(v + [last])
  {
    hide WordChar, Words;
    var t := a + [c] + v;
    WordsStep(t, last);
    WordsStep(v, last);
    assert t[|t| - 1] == if v == "" then c else v[|v| - 1];
    if WordChar(last) {
      if v != "" && WordChar(v[|v| - 1]) {
        HasWords(v);
        LongerLast(Words(a), Words(v), [last]);
      } else {
        assert Words(a) + Words(v) + [[last]] == Words(a) + (Words(v) + [[last]]);
      }
    }
  }

  lemma LongerLast(p: seq<string>, q: seq<string>, x: string)
    requires q != []
    ensures var pq := p + q; pq[..|pq| - 1] + [pq[|pq| - 1] + x] == p + (q[..|q| - 1] + [q[|q| - 1] + x])
  {
  }

  lemma NotWordChar(c: char)
    ensures WordChar(c) <==> c in LETTERS || c in DIGITS
  {
    LetterIff(c);
    DigitIff(c);
  }

  lemma HasWords(s: string)
    requires s != "" && WordChar(s[|s| - 1])
    ensures Words(s) != []
  {
  }

  /** A stretch of letters and digits is one word, and what has no word is keyed "skill". */
  lemma OneWord(w: string)
    requires w != "" && forall c | c in w :: c in LETTERS || c in DIGITS
    ensures Words(w) == [w] && Words("") == [] && SlugOf([]) == "skill" && SlugOf([w]) == w
  {
    forall c | c in w
      ensures WordChar(c)
    {
      NotWordChar(c);
    }
    WordsOfWord("", w);
    assert "" + w == w;
  }

  lemma WordsStep(s: string, c: char)
    ensures Words(s + [c]) ==
            if !WordChar(c) then Words(s)
            else if s != "" && WordChar(s[|s| - 1])
            then Words(s)[..|Words(s)| - 1] + [Words(s)[|Words(s)| - 1] + [c]]
            else Words(s) + [[c]]
  {
    assert (s + [c])[..|s|] == s;
    assert s != "" ==> (s + [c])[|s| - 1] == s[|s| - 1];
  }

  lemma BuiltStep(s: string, c: char)
    ensures Built(s + [c]) ==
            Built(s) + (if WordChar(c) then [c] else if Built(s) != "" && !EndsOpen(s) then "_" else "")
    ensures EndsOpen(s + [c]) == (!WordChar(c) && Built(s) != "")
  {
    WordsStep(s, c);
    WordsAreJoined(Words(s));
    if WordChar(c) {
      BuiltLetter(s, c);
    }
  }

  lemma BuiltLetter(s: string, c: char)
    requires WordChar(c)
    ensures Join(Words(s + [c]), '_') == Built(s) + [c]
  {
    hide Words, Join;
    var words := Words(s);
    WordsStep(s, c);
    JoinOne([c]);
    JoinNone();
    if s != "" && WordChar(s[|s| - 1]) {
      var front, last := words[..|words| - 1], words[|words| - 1];
      JoinLast(front, last, [c]);
      assert words == front + [last];
    } else if words != [] {
      JoinConcat(words, [[c]], '_');
    } else {
      assert words + [[c]] == [[c]];
    }
  }

  lemma JoinOne(word: string)
    ensures Join([word], '_') == word
  {
  }

  lemma JoinNone()
    ensures Join([], '_') == "" && Words("") == []
  {
  }

  lemma {:induction false} JoinLast(words: seq<string>, last: string, more: string)
    ensures Join(words + [last + more], '_') == Join(words + [last], '_') + more
  {
    if words != [] {
      JoinConcat(words, [last + more], '_');
      JoinConcat(words, [last], '_');
    }
  }

  /** Joined words begin and end with a letter or digit and hold nothing but words and '_'. */
  lemma {:induction false} WordsAreJoined(words: seq<string>)
    requires forall w | w in words :: IsWord(w)
    ensures words != [] ==> var j := Join(words, '_'); j != "" && WordChar(j[0]) && WordChar(j[|j| - 1])
    ensures forall c | c in Join(words, '_') :: WordChar(c) || c == '_'
    decreases |words|
  {
    if words != [] {
      assert IsWord(words[0]);
      assert words[0][0] in words[0] && words[0][|words[0]| - 1] in words[0];
      assert forall w | w in words[1..] :: w in words;
      WordsAreJoined(words[1..]);
    }
  }

  lemma BuiltTrims(s: string)
    ensures Trim(Built(s), c => c == '_') == Join(Words(s), '_')
    ensures Join(Words(s), '_') == "" <==> Words(s) == []
  {
    var drop := (c: char) => c == '_';
    var words := Words(s);
    var j := Join(words, '_');
    WordsAreJoined(words);
    TrimOfTight(j, drop);
    if EndsOpen(s) {
      assert Built(s)[..|j|] == j && Built(s)[|j|] == '_';
      assert TrimLeft(Built(s), drop) == Built(s);
      assert TrimRight(Built(s), drop) == TrimRight(j, drop);
    }
  }

  /** Every derived key is a slug, whatever the name. */
  lemma DerivedKeyIsSlug(s: string)
    ensures IsSlug(SlugOf(Words(s)))
  {
    WordsAreJoined(Words(s));
    var j := Join(Words(s), '_');
    forall c | c in j
      ensures SlugChar(c)
    {
    }
  }

  /** A derived key names itself: deriving a key from it gives it back. */
  lemma DerivedKeyIsFixed(s: string, lower: char -> char)
    requires forall c | WordChar(c) || c == '_' :: lower(c) == c
    ensures var key := SlugOf(Words(s)); SlugOf(Words(Lowered(TrimSpace(key), lower))) == key
  {
    var words := if Words(s) == [] then ["skill"] else Words(s);
    var key := SlugOf(Words(s));
    DerivedKeyIsSlug(s);
    SlugHasNoSpace(key);
    WordsAreJoined(words);
    forall i | 0 <= i < |key|
      ensures lower(key[i]) == key[i]
    {
      assert key[i] in key;
    }
    assert Lowered(key, lower) == key;
    WordsOfJoined(words);
  }

  lemma {:induction false} WordsOfJoined(words: seq<string>)
    requires forall w | w in words :: IsWord(w)
    ensures Words(Join(words, '_')) == words
    decreases |words|
  {
    if words != [] {
      var front, last := words[..|words| - 1], words[|words| - 1];
      assert words == front + [last];
      assert forall w | w in front :: w in words;
      WordsOfJoined(front);
      if front == [] {
        WordsOfWord("", last);
        assert "" + last == last;
      } else {
        JoinConcat(front, [last], '_');
        var open := Join(front, '_') + ['_'];
        assert open[..|open| - 1] == Join(front, '_');
        assert Words(open) == front;
        WordsOfWord(open, last);
      }
    }
  }

  lemma {:induction false} WordsOfWord(s: string, w: string)
    requires IsWord(w) && (s == "" || !WordChar(s[|s| - 1]))
    ensures Words(s + w) == Words(s) + [w]
    decreases |w|
  {
    hide Words, WordChar;
    var v, last := w[..|w| - 1], w[|w| - 1];
    assert last in w;
    assert w == v + [last] && s + w == s + v + [last];
    WordsStep(s + v, last);
    if v == "" {
      assert s + v == s;
    } else {
      assert forall c | c in v :: c in w;
      WordsOfWord(s, v);
      assert v[|v| - 1] in w;
      assert (s + v)[|s + v| - 1] == v[|v| - 1];
      assert (Words(s) + [v])[..|Words(s)|] == Words(s);
    }
  }
}
