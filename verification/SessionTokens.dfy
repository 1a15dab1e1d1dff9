/**
 Signed session tokens (internal/auth/auth.go:50-61, 90-155) and the signed browser binding
 of the hosted sign-in (internal/auth/hosted_sso.go:271-296).

 HMAC-SHA256 is a parameter of every function here.  Go strings are byte strings; moments
 are nanoseconds since the Unix epoch.
 */
module SessionTokens {
  import opened Base64Url
  import Text
  import opened Wrappers

  type Bytes = seq<Byte>

  /** mac(key, message) */
  type Mac = (Bytes, Bytes) -> Bytes

  predicate AsciiSpace(c: char) {
    c in {'\t', '\n', '\U{B}', '\U{C}', '\r', ' '}
  }

  predicate AllBytes(s: string) {
    forall i | 0 <= i < |s| :: s[i] as int < 256
  }

  lemma TrimmedIsBytes(s: string)
    requires AllBytes(s)
    ensures AllBytes(Text.Trim(s, AsciiSpace))
  {
    var lo, hi := Text.TrimSplits(s, AsciiSpace);
  }

  function Trimmed(s: Bytes): Bytes {
    TrimmedIsBytes(s);
    Text.Trim(s, AsciiSpace)
  }

  // ---- Session tokens ----

  const NANOS_PER_SECOND := 1_000_000_000
  const DEFAULT_SESSION_TTL := 24 * 3600 * NANOS_PER_SECOND
  const VERSION: Bytes := "v2"

  datatype Config = Config(username: Bytes, secret: Bytes, ttl: int)

  datatype Verdict = User(name: Bytes) | Invalid | Expired

  function Normalized(cfg: Config): Config {
    Config(Trimmed(cfg.username), Trimmed(cfg.secret), if cfg.ttl <= 0 then DEFAULT_SESSION_TTL else cfg.ttl)
  }

  /** time.Time.UnixNano: a 64-bit count that wraps around outside its range. */
  function UnixNano(t: int): int {
    (t + 0x8000_0000_0000_0000) % 0x1_0000_0000_0000_0000 - 0x8000_0000_0000_0000
  }

  function Unix(t: int): int {
    t / NANOS_PER_SECOND
  }

  function Number(n: int): Bytes
    requires Text.InInt64(n)
  {
    Text.ParseIntOfFormatInt(n);
    var text := Text.FormatInt(n);
    assert forall i | 0 <= i < |text| :: text[i] in text;
    text
  }

  function Payload(cfg: Config, now: int): Bytes {
    cfg.username + ":" + VERSION + ":" + Number(UnixNano(now + cfg.ttl))
  }

  function SignToken(mac: Mac, config: Config, now: int): Option<Bytes> {
    var cfg := Normalized(config);
    if cfg.username == "" || cfg.secret == "" then None
    else
      var payload := Payload(cfg, now);
      Some(Encode(payload) + "." + Encode(mac(cfg.secret, payload)))
  }

  /** Whether the deadline has passed; None when the payload is not one the code issues. */
  function HasExpired(parts: seq<string>, now: int): Option<bool> {
    if |parts| == 2 then
      // Issued before nanosecond deadlines: whole seconds.
      var seconds := Text.ParseInt(parts[1]);
      if seconds.None? then None else Some(Unix(now) >= seconds.value)
    else if |parts| == 3 && parts[1] == VERSION then
      var nanos := Text.ParseInt(parts[2]);
      if nanos.None? then None else Some(UnixNano(now) >= nanos.value)
    else None
  }

  function VerifyToken(mac: Mac, config: Config, token: string, now: int): Verdict {
    var parts := Text.Split(token, '.');
    if |parts| != 2 then Invalid
    else
      var payload, signature := Decode(parts[0]), Decode(parts[1]);
      if payload.None? || signature.None? || signature.value != mac(Normalized(config).secret, payload.value) then Invalid
      else
        var fields := Text.Split(payload.value, ':');
        var expired := HasExpired(fields, now);
        if expired.None? then Invalid
        else if expired.value then Expired
        else
          var name := Text.Trim(fields[0], AsciiSpace);
          FieldsAreBytes(payload.value, ':');
          TrimmedIsBytes(fields[0]);
          if name == "" then Invalid else User(name)
  }

  lemma {:induction false} FieldsAreBytes(s: Bytes, sep: char)
    ensures forall p | p in Text.Split(s, sep) :: AllBytes(p)
    decreases |s|
  {
    if s != [] {
      FieldsAreBytes(s[1..], sep);
      var rest := Text.Split(s[1..], sep);
      assert rest[0] in rest && AllBytes([s[0]] + rest[0]);
      assert forall p | p in Text.Split(s, sep) :: p == [] || p == [s[0]] + rest[0] || p in rest;
    }
  }

  lemma TokenParts(payload: Bytes, signature: Bytes)
    ensures Text.Split(Encode(payload) + "." + Encode(signature), '.') == [Encode(payload), Encode(signature)]
  {
    EncodedLetters(payload);
    EncodedLetters(signature);
    Text.SplitConcat(Encode(payload), Encode(signature), '.');
    Text.SplitWithout(Encode(payload), '.');
    Text.SplitWithout(Encode(signature), '.');
  }

  lemma UnixNanoFits(t: int)
    ensures Text.InInt64(UnixNano(t))
  {
  }

  lemma NumberHasNoColon(n: int)
    requires Text.InInt64(n)
    ensures ':' !in Number(n)
  {
    Text.ParseIntOfFormatInt(n);
  }

  lemma PayloadFields(cfg: Config, now: int)
    ensures Text.Split(Payload(cfg, now), ':') ==
            Text.Split(cfg.username, ':') + [VERSION, Number(UnixNano(now + cfg.ttl))]
  {
    UnixNanoFits(now + cfg.ttl);
    hide Text.Split, Text.Digits, UnixNano, Number;
    var number := Number(UnixNano(now + cfg.ttl));
    NumberHasNoColon(UnixNano(now + cfg.ttl));
    Text.SplitWithout(VERSION, ':');
    Text.SplitWithout(number, ':');
    Text.SplitConcat(VERSION, number, ':');
    Text.SplitConcat(cfg.username, VERSION + ":" + number, ':');
    assert Payload(cfg, now) == cfg.username + ":" + (VERSION + ":" + number);
  }

  /** How long a session lasts: a day where the configuration says nothing of use. */
  function Lifetime(config: Config): int {
    if config.ttl > 0 then config.ttl else 24 * 60 * 60 * 1_000_000_000
  }

  /**
   Verifying a token one has signed, at any later or earlier moment t: a user name without a
   colon comes back exactly while t is before now + TTL and is expired from then on; a user
   name with a colon is never accepted, so a colon is exactly what breaks the round trip.
   Moments must be representable, as time.Time.UnixNano demands.
   */
  lemma VerifyInvertsSign(mac: Mac, config: Config, now: int, t: int)
    requires Text.InInt64(now + Lifetime(config)) && Text.InInt64(t)
    ensures var name := Trimmed(config.username);
            var token := SignToken(mac, config, now);
            && (token.Some? <==> name != "" && Trimmed(config.secret) != "")
            && (token.Some? ==> VerifyToken(mac, config, token.value, t) ==
                                if ':' in name then Invalid
                                else if t < now + Lifetime(config) then User(name)
                                else Expired)
  {
    if SignToken(mac, config, now).Some? {
      SignedVerdict(mac, config, now, t);
    }
  }

  lemma SignedVerdict(mac: Mac, config: Config, now: int, t: int)
    requires SignToken(mac, config, now).Some?
    requires Text.InInt64(now + Normalized(config).ttl) && Text.InInt64(t)
    ensures var cfg := Normalized(config);
            VerifyToken(mac, config, SignToken(mac, config, now).value, t) ==
            if ':' in cfg.username then Invalid
            else if t < now + cfg.ttl then User(cfg.username)
            else Expired
  {
    var cfg := Normalized(config);
    var payload := Payload(cfg, now);
    var signature := mac(cfg.secret, payload);
    TokenParts(payload, signature);
    DecodeEncode(payload);
    DecodeEncode(signature);
    hide Encode, Decode, Payload;
    PayloadDeadline(cfg, now, t);
    Text.SplitCounts(cfg.username, ':');
    if ':' !in cfg.username {
      Text.SplitWithout(cfg.username, ':');
      Text.TrimIsTight(config.username, AsciiSpace);
    }
  }

  lemma PayloadDeadline(cfg: Config, now: int, t: int)
    requires Text.InInt64(now + cfg.ttl) && Text.InInt64(t)
    ensures var fields := Text.Split(Payload(cfg, now), ':');
            && fields[0] == Text.Split(cfg.username, ':')[0]
            && |fields| == |Text.Split(cfg.username, ':')| + 2
            && HasExpired(fields, t) == if |fields| == 3 then Some(t >= now + cfg.ttl) else None
  {
    UnixNanoInRange(now + cfg.ttl);
    UnixNanoInRange(t);
    hide UnixNano, Payload, Text.ParseInt;
    PayloadFields(cfg, now);
    var fields := Text.Split(Payload(cfg, now), ':');
    var n := |Text.Split(cfg.username, ':')|;
    assert fields[n] == VERSION && fields[n + 1] == Text.FormatInt(now + cfg.ttl);
    Text.ParseIntOfFormatInt(now + cfg.ttl);
  }

  lemma UnixNanoInRange(t: int)
    requires Text.InInt64(t)
    ensures UnixNano(t) == t
  {
  }

  /** Any token, signed here or not, old format or new, has one deadline: expired stays expired, and accepted was accepted before. */
  lemma ExpiryIsFinal(mac: Mac, config: Config, token: string, t: int, later: int)
    requires t <= later && Text.InInt64(t) && Text.InInt64(later)
    ensures VerifyToken(mac, config, token, t) == Expired ==> VerifyToken(mac, config, token, later) == Expired
    ensures VerifyToken(mac, config, token, later).User? ==>
              VerifyToken(mac, config, token, t) == VerifyToken(mac, config, token, later)
  {
    UnixNanoInRange(t);
    UnixNanoInRange(later);
    hide UnixNano, Decode, Text.ParseInt, Text.Split;
    assert Unix(t) <= Unix(later);
  }

  // ---- What a token must carry ----

  /** The token is these two texts, each of which the decoder reads, with one dot between them. */
  predicate Carries(token: string, payload: Bytes, signature: Bytes) {
    exists i :: 0 <= i < |token| && CarriesAt(token, i, payload, signature)
  }

  predicate CarriesAt(token: string, i: nat, payload: Bytes, signature: Bytes)
    requires i < |token|
  {
    && token[i] == '.' && '.' !in token[..i] && '.' !in token[i + 1..]
    && Decode(token[..i]) == Some(payload) && Decode(token[i + 1..]) == Some(signature)
  }

  /** The payload names the user and, in the old format or the new one, a deadline that `now` has or has not reached. */
  predicate Claims(payload: Bytes, name: Bytes, now: int, reached: bool) {
    && name <= payload && ':' !in name
    && (ClaimsSeconds(payload[|name|..], now, reached) || ClaimsNanos(payload[|name|..], now, reached))
  }

  predicate ClaimsSeconds(rest: Bytes, now: int, reached: bool) {
    && |rest| > 0 && rest[0] == ':' && ':' !in rest[1..] && Text.ParseInt(rest[1..]).Some?
    && reached == (now >= Text.ParseInt(rest[1..]).value * 1_000_000_000)
  }

  predicate ClaimsNanos(rest: Bytes, now: int, reached: bool) {
    && ":v2:" <= rest && ':' !in rest[4..] && Text.ParseInt(rest[4..]).Some?
    && reached == (UnixNano(now) >= Text.ParseInt(rest[4..]).value)
  }

  /** The token carries a payload, its own MAC under the trimmed secret, and such a claim. */
  predicate Vouched(mac: Mac, config: Config, token: string, payload: Bytes, name: Bytes, now: int, reached: bool) {
    Carries(token, payload, mac(Trimmed(config.secret), payload)) && Claims(payload, name, now, reached)
  }

  lemma {:induction false} TwoParts(s: string, sep: char)
    ensures |Text.Split(s, sep)| == 2 <==> exists i :: 0 <= i < |s| && s[i] == sep && sep !in s[..i] && sep !in s[i + 1..]
    ensures forall i | 0 <= i < |s| && s[i] == sep && sep !in s[..i] && sep !in s[i + 1..] :: Text.Split(s, sep) == [s[..i], s[i + 1..]]
  {
    forall i | 0 <= i < |s| && s[i] == sep && sep !in s[..i] && sep !in s[i + 1..]
      ensures Text.Split(s, sep) == [s[..i], s[i + 1..]]
    {
      Text.SplitWithout(s[..i], sep);
      Text.SplitWithout(s[i + 1..], sep);
      Text.SplitConcat(s[..i], s[i + 1..], sep);
      assert s == s[..i] + [sep] + s[i + 1..];
    }
    if |Text.Split(s, sep)| == 2 {
      var parts := Text.Split(s, sep);
      Text.PartsHaveNoSeparator(s, sep);
      Text.JoinSplit(s, sep);
      assert parts == [parts[0], parts[1]];
      assert s == parts[0] + [sep] + parts[1];
      var i := |parts[0]|;
      assert s[i] == sep && s[..i] == parts[0] && s[i + 1..] == parts[1];
    }
  }

  lemma CarriesIff(token: string, payload: Bytes, signature: Bytes)
    ensures var parts := Text.Split(token, '.');
            Carries(token, payload, signature) <==>
            |parts| == 2 && Decode(parts[0]) == Some(payload) && Decode(parts[1]) == Some(signature)
  {
    hide Decode, Text.Split;
    TwoParts(token, '.');
    if |Text.Split(token, '.')| == 2 {
      var i :| 0 <= i < |token| && token[i] == '.' && '.' !in token[..i] && '.' !in token[i + 1..];
      assert CarriesAt(token, i, payload, signature) <==>
             Decode(token[..i]) == Some(payload) && Decode(token[i + 1..]) == Some(signature);
    }
  }

  lemma SecondsReached(now: int, seconds: int)
    ensures Unix(now) >= seconds <==> now >= seconds * NANOS_PER_SECOND
  {
  }

  lemma ClaimsIff(payload: Bytes, name: Bytes, now: int, reached: bool)
    ensures var fields := Text.Split(payload, ':');
            Claims(payload, name, now, reached) <==> HasExpired(fields, now) == Some(reached) && fields[0] == name
  {
    hide Text.Split, Text.ParseInt, Unix, UnixNano;
    var fields := Text.Split(payload, ':');
    if Claims(payload, name, now, reached) {
      ClaimIsRead(payload, name, now, reached);
    }
    if HasExpired(fields, now) == Some(reached) && fields[0] == name {
      ReadIsClaim(payload, name, now, reached);
    }
  }

  lemma ClaimIsRead(payload: Bytes, name: Bytes, now: int, reached: bool)
    requires Claims(payload, name, now, reached)
    ensures var fields := Text.Split(payload, ':'); HasExpired(fields, now) == Some(reached) && fields[0] == name
  {
    hide Text.Split, Text.ParseInt, Unix, UnixNano;
    var rest := payload[|name|..];
    assert payload == name + [':'] + rest[1..];
    Text.SplitConcat(name, rest[1..], ':');
    Text.SplitWithout(name, ':');
    if ClaimsSeconds(rest, now, reached) {
      Text.SplitWithout(rest[1..], ':');
      SecondsReached(now, Text.ParseInt(rest[1..]).value);
    } else {
      assert rest[1..] == VERSION + [':'] + rest[4..];
      Text.SplitConcat(VERSION, rest[4..], ':');
      Text.SplitWithout(VERSION, ':');
      Text.SplitWithout(rest[4..], ':');
    }
  }

  lemma ReadIsClaim(payload: Bytes, name: Bytes, now: int, reached: bool)
    requires var fields := Text.Split(payload, ':'); HasExpired(fields, now) == Some(reached) && fields[0] == name
    ensures Claims(payload, name, now, reached)
  {
    hide Text.Split, Text.ParseInt, Unix, UnixNano;
    var fields := Text.Split(payload, ':');
    Text.JoinSplit(payload, ':');
    Text.PartsHaveNoSeparator(payload, ':');
    if |fields| == 2 {
      var rest := ":" + fields[1];
      assert payload == name + rest;
      assert payload[|name|..] == rest && rest[1..] == fields[1];
      SecondsReached(now, Text.ParseInt(fields[1]).value);
    } else {
      var rest := ":v2:" + fields[2];
      assert fields[1..] == [VERSION, fields[2]] && fields[1..][1..] == [fields[2]];
      assert Text.Join(fields[1..], ':') == VERSION + [':'] + fields[2];
      assert payload == name + rest;
      assert payload[|name|..] == rest && rest[4..] == fields[2];
    }
  }

  /** What is vouched for decides the verdict. */
  lemma VouchedVerdict(mac: Mac, config: Config, token: string, payload: Bytes, name: Bytes, now: int, reached: bool)
    requires Vouched(mac, config, token, payload, name, now, reached)
    ensures VerifyToken(mac, config, token, now) ==
            if reached then Expired else if Trimmed(name) == "" then Invalid else User(Trimmed(name))
  {
    hide Carries, Claims, Text.Split, Decode, HasExpired;
    CarriesIff(token, payload, mac(Trimmed(config.secret), payload));
    ClaimsIff(payload, name, now, reached);
  }

  lemma VerdictIsVouched(mac: Mac, config: Config, token: string, now: int) returns (payload: Bytes, name: Bytes)
    requires !VerifyToken(mac, config, token, now).Invalid?
    ensures Vouched(mac, config, token, payload, name, now, VerifyToken(mac, config, token, now).Expired?)
    ensures VerifyToken(mac, config, token, now).User? ==> VerifyToken(mac, config, token, now) == User(Trimmed(name))
  {
    hide Carries, Claims, Text.Split, Decode, HasExpired;
    payload := Decode(Text.Split(token, '.')[0]).value;
    FieldsAreBytes(payload, ':');
    assert Text.Split(payload, ':')[0] in Text.Split(payload, ':');
    name := Text.Split(payload, ':')[0];
    CarriesIff(token, payload, mac(Trimmed(config.secret), payload));
    ClaimsIff(payload, name, now, VerifyToken(mac, config, token, now).Expired?);
  }

  /**
   A token is accepted for a user exactly when it carries a payload with its own MAC, and the
   payload names, but for white space, that user and a deadline not yet reached.
   */
  lemma AcceptedIff(mac: Mac, config: Config, token: string, now: int, user: Bytes)
    ensures VerifyToken(mac, config, token, now) == User(user) <==>
            exists payload: Bytes, name: Bytes ::
              Vouched(mac, config, token, payload, name, now, false) && user == Trimmed(name) != ""
  {
    hide Vouched, VerifyToken, Trimmed;
    if VerifyToken(mac, config, token, now) == User(user) {
      var payload, name := VerdictIsVouched(mac, config, token, now);
      VouchedVerdict(mac, config, token, payload, name, now, false);
    }
    forall payload: Bytes, name: Bytes | Vouched(mac, config, token, payload, name, now, false)
      ensures user == Trimmed(name) != "" ==> VerifyToken(mac, config, token, now) == User(user)
    {
      VouchedVerdict(mac, config, token, payload, name, now, false);
    }
  }

  /** It is reported expired exactly when it carries a payload with its own MAC and a deadline that was reached. */
  lemma ExpiredIff(mac: Mac, config: Config, token: string, now: int)
    ensures VerifyToken(mac, config, token, now) == Expired <==>
            exists payload: Bytes, name: Bytes :: Vouched(mac, config, token, payload, name, now, true)
  {
    hide Vouched, VerifyToken, Trimmed;
    if VerifyToken(mac, config, token, now) == Expired {
      var payload, name := VerdictIsVouched(mac, config, token, now);
    }
    forall payload: Bytes, name: Bytes | Vouched(mac, config, token, payload, name, now, true)
      ensures VerifyToken(mac, config, token, now) == Expired
    {
      VouchedVerdict(mac, config, token, payload, name, now, true);
    }
  }

  // ---- Browser binding ----

  const BROWSER_BINDING_DOMAIN: Bytes := "openvibely/sso-browser/v1\0"
  const SHA256_SIZE := 32

  function PurposeMac(mac: Mac, key: Bytes, domain: Bytes, payload: Bytes): Bytes {
    mac(key, domain + payload)
  }

  function AsBytes(text: string): Bytes
    requires IsCanonical32(text)
  {
    DecodeCanonicalIffEncoded(text, DecodeCanonical(text).value);
    Encode(DecodeCanonical(text).value)
  }

  function SignBrowserBinding(mac: Mac, nonce: string, key: Bytes): Option<string> {
    if |key| != 32 || !IsCanonical32(nonce) then None
    else Some(nonce + "." + Encode(PurposeMac(mac, key, BROWSER_BINDING_DOMAIN, AsBytes(nonce))))
  }

  function VerifyBrowserBinding(mac: Mac, value: string, key: Bytes): Option<string> {
    if |key| != 32 || |value| != 87 || value[43] != '.' || |Text.Split(value, '.')| != 2 then None
    else if !IsCanonical32(value[..43]) then None
    else
      var nonce := value[..43];
      var signature := DecodeCanonical(value[44..]);
      if signature.None? || |signature.value| != SHA256_SIZE then None
      else if signature.value != PurposeMac(mac, key, BROWSER_BINDING_DOMAIN, AsBytes(nonce)) then None
      else Some(nonce)
  }

  /** A value verifies to a nonce exactly if it is that nonce with its MAC, taken over the domain and the nonce. */
  lemma BindingIs(mac: Mac, value: string, nonce: Bytes, key: Bytes)
    requires forall k: Bytes, m: Bytes :: |mac(k, m)| == SHA256_SIZE
    ensures VerifyBrowserBinding(mac, value, key) == Some(nonce) <==>
            && |key| == 32 && IsCanonical32(nonce)
            && value == nonce + "." + Encode(mac(key, "openvibely/sso-browser/v1\0" + nonce))
  {
    VerifyBindingIffSigned(mac, value, nonce, key);
    if IsCanonical32(nonce) {
      DecodeCanonicalIffEncoded(nonce, DecodeCanonical(nonce).value);
    }
  }

  /**
   Verifying inverts signing and nothing else is accepted: with a MAC of 32 bytes, a value
   verifies to a nonce exactly if signing that nonce gives that very value.
   */
  lemma VerifyBindingIffSigned(mac: Mac, value: string, nonce: string, key: Bytes)
    requires forall k: Bytes, m: Bytes :: |mac(k, m)| == SHA256_SIZE
    ensures VerifyBrowserBinding(mac, value, key) == Some(nonce) <==> SignBrowserBinding(mac, nonce, key) == Some(value)
  {
    if VerifyBrowserBinding(mac, value, key) == Some(nonce) {
      DecodeCanonicalIffEncoded(value[44..], DecodeCanonical(value[44..]).value);
      assert value == value[..43] + "." + value[44..];
    }
    if SignBrowserBinding(mac, nonce, key) == Some(value) {
      var signature := PurposeMac(mac, key, BROWSER_BINDING_DOMAIN, AsBytes(nonce));
      EncodedLength(signature);
      DecodeCanonicalIffEncoded(Encode(signature), signature);
      assert value[..43] == nonce && value[44..] == Encode(signature);
      DecodeCanonicalIffEncoded(nonce, DecodeCanonical(nonce).value);
      TokenParts(DecodeCanonical(nonce).value, signature);
    }
  }
}
