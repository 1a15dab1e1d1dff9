/**
 The unpadded base64url alphabet of section 5 of RFC 4648, as Go's RawURLEncoding encodes
 and decodes it, and the canonical form the hosted sign-in accepts
 (internal/auth/hosted_sso.go:881-898).  A Go string is a sequence of bytes.
 */
module Base64Url {
  import opened Wrappers

  type Byte = c: char | c as int < 256 witness 'A'

  // ---- The alphabet ----

  type Sextet = n: nat | n < 64

  function Letter(n: Sextet): (c: Byte) {
    if n < 26 then (n + 65) as char          // A-Z
    else if n < 52 then (n + 71) as char     // a-z
    else if n < 62 then (n - 4) as char      // 0-9
    else if n == 62 then '-' else '_'
  }

  function Value(c: char): Option<Sextet> {
    if 'A' <= c <= 'Z' then Some(c as int - 65)
    else if 'a' <= c <= 'z' then Some(c as int - 71)
    else if '0' <= c <= '9' then Some(c as int + 4)
    else if c == '-' then Some(62)
    else if c == '_' then Some(63)
    else None
  }

  lemma ValueOfLetter(n: Sextet)
    ensures Value(Letter(n)) == Some(n)
    ensures Letter(n) !in {'=', '.', '\n', '\r'}
  {
  }

  /** A character stands for a number exactly if it is that number's letter. */
  lemma ValueIff(c: char, n: Sextet)
    ensures Value(c) == Some(n) <==> c == Letter(n)
  {
  }

  /** The letters in their order, for each range of numbers. */
  lemma LetterIs(n: Sextet)
    ensures n < 26 ==> Letter(n) == "ABCDEFGHIJKLMNOPQRSTUVWXYZ"[n]
    ensures 26 <= n < 52 ==> Letter(n) == "abcdefghijklmnopqrstuvwxyz"[n - 26]
    ensures 52 <= n < 62 ==> Letter(n) == "0123456789"[n - 52]
    ensures n == 62 ==> Letter(n) == '-'
    ensures n == 63 ==> Letter(n) == '_'
  {
  }

  // ---- Encoding ----

  /** The four letters of three bytes. */
  function Encode3(x: Byte, y: Byte, z: Byte): (q: seq<Byte>)
    ensures |q| == 4
  {
    var (a, b, c) := (x as int, y as int, z as int);
    [Letter(a / 4), Letter(a % 4 * 16 + b / 16), Letter(b % 16 * 4 + c / 64), Letter(c % 64)]
  }

  function Encode(bytes: seq<Byte>): seq<Byte> {
    if bytes == [] then []
    else if |bytes| == 1 then Encode3(bytes[0], '\0', '\0')[..2]
    else if |bytes| == 2 then Encode3(bytes[0], bytes[1], '\0')[..3]
    else Encode3(bytes[0], bytes[1], bytes[2]) + Encode(bytes[3..])
  }

  /** Three bytes are 24 bits, and so are the four numbers whose letters encode them, high bits first. */
  lemma EncodedBits(x: Byte, y: Byte, z: Byte) returns (a: Sextet, b: Sextet, c: Sextet, d: Sextet)
    ensures Encode([x, y, z]) == [Letter(a), Letter(b), Letter(c), Letter(d)]
    ensures a * 262144 + b * 4096 + c * 64 + d == x as int * 65536 + y as int * 256 + z as int
  {
    var (p, q, r) := (x as int, y as int, z as int);
    a, b, c, d := p / 4, p % 4 * 16 + q / 16, q % 16 * 4 + r / 64, r % 64;
    assert Encode([x, y, z]) == Encode3(x, y, z) + Encode([]);
  }

  // ---- Decoding, as lenient as the library ----

  /** The decoder passes over line breaks wherever they stand. */
  function Unbroken(text: string): string {
    if text == [] then []
    else if text[0] in {'\r', '\n'} then Unbroken(text[1..])
    else [text[0]] + Unbroken(text[1..])
  }

  function Decode3(a: Sextet, b: Sextet, c: Sextet, d: Sextet): (t: seq<Byte>)
    ensures |t| == 3
  {
    [(a * 4 + b / 16) as char, (b % 16 * 16 + c / 4) as char, (c % 4 * 64 + d) as char]
  }

  /** Whole quanta, then two or three letters whose spare low bits are ignored. */
  function DecodeQuanta(text: string): Option<seq<Byte>> {
    if text == [] then Some([])
    else if |text| == 1 then None
    else
      var a, b := Value(text[0]), Value(text[1]);
      if a.None? || b.None? then None
      else if |text| == 2 then Some(Decode3(a.value, b.value, 0, 0)[..1])
      else
        var c := Value(text[2]);
        if c.None? then None
        else if |text| == 3 then Some(Decode3(a.value, b.value, c.value, 0)[..2])
        else
          var d := Value(text[3]);
          if d.None? then None
          else
            var rest := DecodeQuanta(text[4..]);
            if rest.None? then None else Some(Decode3(a.value, b.value, c.value, d.value) + rest.value)
  }

  function Decode(text: string): Option<seq<Byte>> {
    DecodeQuanta(Unbroken(text))
  }

  // ---- Round trip ----

  lemma Decode3Encode3(x: Byte, y: Byte, z: Byte)
    ensures var (a, b, c) := (x as int, y as int, z as int);
            Decode3(a / 4, a % 4 * 16 + b / 16, b % 16 * 4 + c / 64, c % 64) == [x, y, z]
  {
    var (a, b, c) := (x as int, y as int, z as int);
    assert (a % 4 * 16 + b / 16) / 16 == a % 4 && (a % 4 * 16 + b / 16) % 16 == b / 16;
    assert (b % 16 * 4 + c / 64) / 4 == b % 16 && (b % 16 * 4 + c / 64) % 4 == c / 64;
  }

  lemma Quantum(x: Byte, y: Byte, z: Byte)
    ensures var q := Encode3(x, y, z);
            && (forall i | 0 <= i < 4 :: Value(q[i]).Some? && q[i] !in {'=', '.', '\n', '\r'})
            && Decode3(Value(q[0]).value, Value(q[1]).value, Value(q[2]).value, Value(q[3]).value) == [x, y, z]
            && Decode3(Value(q[0]).value, Value(q[1]).value, 0, 0)[..1] == [x]
            && Decode3(Value(q[0]).value, Value(q[1]).value, Value(q[2]).value, 0)[..2] == [x, y]
  {
    var (a, b, c) := (x as int, y as int, z as int);
    ValueOfLetter(a / 4);
    ValueOfLetter(a % 4 * 16 + b / 16);
    ValueOfLetter(b % 16 * 4 + c / 64);
    ValueOfLetter(c % 64);
    Decode3Encode3(x, y, z);
  }

  /** Encoded text holds letters of the alphabet only: no padding, no dot, no line break. */
  lemma {:induction false} EncodedLetters(bytes: seq<Byte>)
    ensures forall c | c in Encode(bytes) :: Value(c).Some? && c !in {'=', '.', '\n', '\r'}
    decreases |bytes|
  {
    if bytes != [] {
      Quantum(bytes[0], if |bytes| > 1 then bytes[1] else '\0', if |bytes| > 2 then bytes[2] else '\0');
      if |bytes| > 2 {
        EncodedLetters(bytes[3..]);
      }
    }
  }

  lemma {:induction false} EncodedLength(bytes: seq<Byte>)
    ensures |Encode(bytes)| == (|bytes| * 4 + 2) / 3
    decreases |bytes|
  {
    if |bytes| > 2 {
      EncodedLength(bytes[3..]);
    }
  }

  lemma {:induction false} NothingToPassOver(text: string)
    requires forall c | c in text :: c !in {'\n', '\r'}
    ensures Unbroken(text) == text
    decreases |text|
  {
    if text != [] {
      assert text[0] in text;
      assert forall c | c in text[1..] :: c in text;
      NothingToPassOver(text[1..]);
    }
  }

  lemma {:induction false} DecodeQuantaEncode(bytes: seq<Byte>)
    ensures DecodeQuanta(Encode(bytes)) == Some(bytes)
    decreases |bytes|
  {
    hide Encode3, Decode3, Value;
    if bytes != [] {
      Quantum(bytes[0], if |bytes| > 1 then bytes[1] else '\0', if |bytes| > 2 then bytes[2] else '\0');
      var text := Encode(bytes);
      if |bytes| == 1 {
        assert bytes == [bytes[0]];
      } else if |bytes| == 2 {
        assert bytes == [bytes[0], bytes[1]];
        assert DecodeQuanta(text).value == bytes;
      } else {
        DecodeQuantaEncode(bytes[3..]);
        assert text[4..] == Encode(bytes[3..]);
        assert bytes == [bytes[0], bytes[1], bytes[2]] + bytes[3..];
      }
    }
  }

  /** Decoding inverts encoding, for every byte string. */
  lemma DecodeEncode(bytes: seq<Byte>)
    ensures Decode(Encode(bytes)) == Some(bytes)
  {
    EncodedLetters(bytes);
    NothingToPassOver(Encode(bytes));
    DecodeQuantaEncode(bytes);
  }

  // ---- The canonical form ----

  function DecodeCanonical(text: string): Option<seq<Byte>> {
    if '=' in text then None
    else
      var decoded := Decode(text);
      if decoded.None? || Encode(decoded.value) != text then None else decoded
  }

  predicate IsCanonical32(text: string) {
    |text| == 43 && DecodeCanonical(text).Some? && |DecodeCanonical(text).value| == 32
  }

  /** The canonical decoder accepts exactly the encodings, and inverts them. */
  lemma DecodeCanonicalIffEncoded(text: string, bytes: seq<Byte>)
    ensures DecodeCanonical(text) == Some(bytes) <==> text == Encode(bytes)
  {
    EncodedLetters(bytes);
    DecodeEncode(bytes);
  }

  /** The canonical check accepts exactly the encodings of 32-byte strings. */
  lemma IsCanonical32Iff(text: string)
    ensures IsCanonical32(text) <==> exists bytes: seq<Byte> :: |bytes| == 32 && text == Encode(bytes)
  {
    if IsCanonical32(text) {
      var bytes := DecodeCanonical(text).value;
      DecodeCanonicalIffEncoded(text, bytes);
    }
    if exists bytes: seq<Byte> :: |bytes| == 32 && text == Encode(bytes) {
      var bytes: seq<Byte> :| |bytes| == 32 && text == Encode(bytes);
      EncodedLength(bytes);
      DecodeCanonicalIffEncoded(text, bytes);
    }
  }
}
