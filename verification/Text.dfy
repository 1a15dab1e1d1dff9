/**
 The few string operations of Go's standard library the modelled code leans on:
 strings.Split and strings.Join, the Trim family, and decimal numbers.
 */
module Text {
  import opened Wrappers

  // ---- White space ----

  /** unicode.IsSpace. */
  predicate IsSpace(c: char) {
    || c in {'\t', '\n', '\U{B}', '\U{C}', '\r', ' ', '\U{85}', '\U{A0}', '\U{1680}', '\U{2028}', '\U{2029}', '\U{202F}', '\U{205F}', '\U{3000}'}
    || '\U{2000}' <= c <= '\U{200A}'
  }

  function TrimLeft(s: string, drop: char -> bool): string {
    if s != [] && drop(s[0]) then TrimLeft(s[1..], drop) else s
  }

  function TrimRight(s: string, drop: char -> bool): string {
    if s != [] && drop(s[|s| - 1]) then TrimRight(s[..|s| - 1], drop) else s
  }

  function Trim(s: string, drop: char -> bool): string {
    TrimRight(TrimLeft(s, drop), drop)
  }

  function TrimSpace(s: string): string {
    Trim(s, IsSpace)
  }

  /** Neither end of the string would be dropped. */
  predicate Tight(s: string, drop: char -> bool) {
    s == [] || (!drop(s[0]) && !drop(s[|s| - 1]))
  }

  lemma {:induction false} TrimLeftSplits(s: string, drop: char -> bool) returns (n: nat)
    ensures n <= |s| && TrimLeft(s, drop) == s[n..]
    ensures forall i | 0 <= i < n :: drop(s[i])
    ensures n < |s| ==> !drop(s[n])
    decreases |s|
  {
    n := 0;
    if s != [] && drop(s[0]) {
      var m := TrimLeftSplits(s[1..], drop);
      n := m + 1;
    }
  }

  lemma {:induction false} TrimRightSplits(s: string, drop: char -> bool) returns (n: nat)
    ensures n <= |s| && TrimRight(s, drop) == s[..n]
    ensures forall i | n <= i < |s| :: drop(s[i])
    ensures n > 0 ==> !drop(s[n - 1])
    decreases |s|
  {
    n := |s|;
    if s != [] && drop(s[|s| - 1]) {
      n := TrimRightSplits(s[..|s| - 1], drop);
      assert s[..|s| - 1][..n] == s[..n];
    }
  }

  /** Trim cuts off a stretch of droppable characters on either side, and no more. */
  lemma TrimSplits(s: string, drop: char -> bool) returns (lo: nat, hi: nat)
    ensures lo <= hi <= |s| && Trim(s, drop) == s[lo..hi] && Tight(s[lo..hi], drop)
    ensures forall i | 0 <= i < lo || hi <= i < |s| :: drop(s[i])
  {
    lo := TrimLeftSplits(s, drop);
    var n := TrimRightSplits(s[lo..], drop);
    hi := lo + n;
    assert s[lo..][..n] == s[lo..hi];
    forall i | hi <= i < |s|
      ensures drop(s[i])
    {
      assert s[i] == s[lo..][i - lo];
    }
    assert n > 0 ==> s[lo..][n - 1] == s[hi - 1];
  }

  lemma TrimOfTight(s: string, drop: char -> bool)
    requires Tight(s, drop)
    ensures Trim(s, drop) == s
  {
  }

  lemma TrimIsTight(s: string, drop: char -> bool)
    ensures Tight(Trim(s, drop), drop)
    ensures forall c | c in Trim(s, drop) :: c in s
    ensures Trim(Trim(s, drop), drop) == Trim(s, drop)
  {
    var lo, hi := TrimSplits(s, drop);
    TrimOfTight(s[lo..hi], drop);
  }

  // ---- Split and join on one character ----

  function Split(s: string, sep: char): (parts: seq<string>)
    ensures |parts| > 0
  {
    if s == [] then [[]]
    else if s[0] == sep then [[]] + Split(s[1..], sep)
    else
      var rest := Split(s[1..], sep);
      [[s[0]] + rest[0]] + rest[1..]
  }

  function Join(parts: seq<string>, sep: char): string {
    if parts == [] then []
    else if |parts| == 1 then parts[0]
    else parts[0] + [sep] + Join(parts[1..], sep)
  }

  lemma {:induction false} JoinSplit(s: string, sep: char)
    ensures Join(Split(s, sep), sep) == s
    decreases |s|
  {
    if s != [] {
      hide Split;
      JoinSplit(s[1..], sep);
      SplitCons(s[0], s[1..], sep);
      JoinPrefixed(s[0], Split(s[1..], sep), sep);
      assert s == [s[0]] + s[1..];
    }
  }

  lemma JoinPrefixed(c: char, parts: seq<string>, sep: char)
    requires |parts| > 0
    ensures Join(Prefixed(c, parts, sep), sep) == [c] + Join(parts, sep)
  {
    if c == sep {
      assert ([[]] + parts)[1..] == parts;
    } else {
      assert Prefixed(c, parts, sep)[1..] == parts[1..];
    }
  }

  lemma {:induction false} PartsHaveNoSeparator(s: string, sep: char)
    ensures forall p | p in Split(s, sep) :: sep !in p
    decreases |s|
  {
    if s != [] {
      PartsHaveNoSeparator(s[1..], sep);
    }
  }

  lemma {:induction false} SplitWithout(s: string, sep: char)
    requires sep !in s
    ensures Split(s, sep) == [s]
    decreases |s|
  {
    if s != [] {
      assert s[0] in s && forall c | c in s[1..] :: c in s;
      SplitWithout(s[1..], sep);
      assert s == [s[0]] + s[1..];
    }
  }

  /** The parts of a string with one more character in front. */
  function Prefixed(c: char, parts: seq<string>, sep: char): seq<string>
    requires |parts| > 0
  {
    if c == sep then [[]] + parts else [[c] + parts[0]] + parts[1..]
  }

  lemma PrefixedConcat(c: char, p: seq<string>, q: seq<string>, sep: char)
    requires |p| > 0
    ensures Prefixed(c, p + q, sep) == Prefixed(c, p, sep) + q
  {
    if c != sep {
      assert (p + q)[1..] == p[1..] + q;
    }
  }

  /** Splitting distributes over a separator. */
  lemma {:induction false} SplitConcat(a: string, b: string, sep: char)
    ensures Split(a + [sep] + b, sep) == Split(a, sep) + Split(b, sep)
    decreases |a|
  {
    if a == [] {
      assert (a + [sep] + b)[1..] == b;
    } else {
      hide Split, Prefixed;
      var tail := a[1..] + [sep] + b;
      SplitConcat(a[1..], b, sep);
      SplitCons(a[0], tail, sep);
      SplitCons(a[0], a[1..], sep);
      PrefixedConcat(a[0], Split(a[1..], sep), Split(b, sep), sep);
      assert a + [sep] + b == [a[0]] + tail;
      assert a == [a[0]] + a[1..];
    }
  }

  lemma SplitCons(c: char, s: string, sep: char)
    ensures Split([c] + s, sep) == Prefixed(c, Split(s, sep), sep)
  {
    assert ([c] + s)[1..] == s;
  }

  lemma {:induction false} SplitJoin(parts: seq<string>, sep: char)
    requires parts != [] && forall p | p in parts :: sep !in p
    ensures Split(Join(parts, sep), sep) == parts
    decreases |parts|
  {
    SplitWithout(parts[0], sep);
    if |parts| > 1 {
      SplitJoin(parts[1..], sep);
      SplitConcat(parts[0], Join(parts[1..], sep), sep);
      assert parts == [parts[0]] + parts[1..];
    } else {
      assert parts == [parts[0]];
    }
  }

  lemma {:induction false} JoinConcat(p: seq<string>, q: seq<string>, sep: char)
    requires p != [] && q != []
    ensures Join(p + q, sep) == Join(p, sep) + [sep] + Join(q, sep)
    decreases |p|
  {
    if |p| == 1 {
      assert (p + q)[1..] == q;
    } else {
      JoinConcat(p[1..], q, sep);
      assert (p + q)[1..] == p[1..] + q;
    }
  }

  /** A separator inside the string makes more than one part. */
  lemma {:induction false} SplitCounts(s: string, sep: char)
    ensures sep in s <==> |Split(s, sep)| > 1
    decreases |s|
  {
    if s != [] {
      SplitCounts(s[1..], sep);
      assert sep in s <==> s[0] == sep || sep in s[1..];
    }
  }

  // ---- The first occurrence of a string in another ----

  /** strings.Index, or the length of `s` when there is no occurrence. */
  function IndexOf(s: string, sub: string, i: nat): (j: nat)
    requires i <= |s|
    ensures i <= j <= |s| && (j < |s| ==> sub <= s[j..])
    ensures forall k | i <= k < j :: !(sub <= s[k..])
    decreases |s| - i
  {
    if i == |s| || sub <= s[i..] then i else IndexOf(s, sub, i + 1)
  }

  /** strings.Replace with a count of one. */
  function ReplaceFirst(s: string, from: string, to: string): string {
    var i := IndexOf(s, from, 0);
    if from <= s[i..] then s[..i] + to + s[i + |from|..] else s
  }

  predicate Contains(s: string, sub: string) {
    exists i :: 0 <= i <= |s| && sub <= s[i..]
  }

  lemma {:induction false} IndexIs(s: string, sub: string, i: nat, j: nat)
    requires i <= j <= |s| && (j < |s| ==> sub <= s[j..])
    requires forall k | i <= k < j :: !(sub <= s[k..])
    ensures IndexOf(s, sub, i) == j
    decreases j - i
  {
    if i < j {
      IndexIs(s, sub, i + 1, j);
    }
  }

  // ---- Decimal numbers: strconv.FormatInt and strconv.ParseInt with 64 bits ----

  predicate InInt64(n: int) {
    -0x8000_0000_0000_0000 <= n <= 0x7fff_ffff_ffff_ffff
  }

  predicate IsDigit(c: char) {
    '0' <= c <= '9'
  }

  function Digits(n: nat): string {
    if n < 10 then [(n + 48) as char] else Digits(n / 10) + [(n % 10 + 48) as char]
  }

  function FormatInt(n: int): string {
    if n < 0 then "-" + Digits(-n) else Digits(n)
  }

  function ParseDigits(s: string): Option<nat> {
    if s == [] || !IsDigit(s[|s| - 1]) then None
    else
      var last := s[|s| - 1] as int - 48;
      if |s| == 1 then Some(last)
      else
        var rest := ParseDigits(s[..|s| - 1]);
        if rest.None? then None else Some(10 * rest.value + last)
  }

  function ParseInt(s: string): Option<int> {
    var sign := if s != [] && s[0] == '-' then -1 else 1;
    var digits := ParseDigits(if s != [] && s[0] in {'-', '+'} then s[1..] else s);
    if digits.None? || !InInt64(sign * digits.value) then None else Some(sign * digits.value)
  }

  lemma {:induction false} ParseDigitsOfDigits(n: nat)
    ensures ParseDigits(Digits(n)) == Some(n)
    ensures Digits(n) != [] && forall c | c in Digits(n) :: IsDigit(c)
    decreases n
  {
    if n >= 10 {
      ParseDigitsOfDigits(n / 10);
      assert Digits(n)[..|Digits(n)| - 1] == Digits(n / 10);
    }
  }

  lemma ParseIntOfFormatInt(n: int)
    requires InInt64(n)
    ensures ParseInt(FormatInt(n)) == Some(n)
    ensures forall c | c in FormatInt(n) :: IsDigit(c) || c == '-'
  {
    hide Digits, ParseDigits;
    if n < 0 {
      ParseDigitsOfDigits(-n);
      assert FormatInt(n)[1..] == Digits(-n);
    } else {
      ParseDigitsOfDigits(n);
      assert FormatInt(n)[0] in FormatInt(n);
    }
  }
}
