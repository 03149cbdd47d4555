/**
 The signed fresh-install authorization: unpadded base64url (section 5 of
 RFC 4648), normalisation of the carried snapshot, and printing and parsing of
 the three-part token.

 The JSON codec and the keyed digest are values a caller supplies.
 */
module FreshInstallToken {
  import opened Options
  import opened Text
  import opened TextLaws

  type Byte = x: int | 0 <= x < 256
  type Sextet = x: int | 0 <= x < 64

  const TOKEN_PREFIX := "cf-fresh-v1"
  const PURPOSE := "clientflow-fresh-install"
  const MAX_TOKEN: nat := 4096
  const MAX_APPROVAL: nat := 200

  // ---------------------------------------------------------------- base64url

  function Letter(n: Sextet): char {
    if n < 26 then 'A' + n as char
    else if n < 52 then 'a' + (n - 26) as char
    else if n < 62 then '0' + (n - 52) as char
    else if n == 62 then '-' else '_'
  }

  /** The value of a letter; the letters of the standard alphabet are read as well. */
  function Value(c: char): Option<Sextet> {
    if 'A' <= c <= 'Z' then Some(c as int - 'A' as int)
    else if 'a' <= c <= 'z' then Some(c as int - 'a' as int + 26)
    else if '0' <= c <= '9' then Some(c as int - '0' as int + 52)
    else if c == '-' || c == '+' then Some(62)
    else if c == '_' || c == '/' then Some(63)
    else None
  }

  /** Three bytes make four sextets, two make three and one makes two, filled up with zero bits. */
  function Sextets(raw: seq<Byte>): seq<Sextet> {
    if raw == [] then []
    else if |raw| == 1 then [raw[0] / 4, raw[0] % 4 * 16]
    else if |raw| == 2 then [raw[0] / 4, raw[0] % 4 * 16 + raw[1] / 16, raw[1] % 16 * 4]
    else
      [raw[0] / 4, raw[0] % 4 * 16 + raw[1] / 16, raw[1] % 16 * 4 + raw[2] / 64, raw[2] % 64] + Sextets(raw[3..])
  }

  /** The bytes of a sextet string, spare bits dropped. */
  function Bytes(s: seq<Sextet>): seq<Byte>
    requires |s| % 4 != 1
  {
    if s == [] then []
    else
      var a: int, b: int := s[0], s[1];
      if |s| == 2 then [a * 4 + b / 16]
      else
        var c: int := s[2];
        if |s| == 3 then [a * 4 + b / 16, b % 16 * 16 + c / 4]
        else
          var d: int := s[3];
          [a * 4 + b / 16, b % 16 * 16 + c / 4, c % 4 * 64 + d] + Bytes(s[4..])
  }

  /** `_b64encode`. */
  function Encode(raw: seq<Byte>): string {
    var s := Sextets(raw);
    seq(|s|, i requires 0 <= i < |s| => Letter(s[i]))
  }

  predicate Letters(s: string) { forall i :: 0 <= i < |s| ==> Value(s[i]).Some? }

  function Values(s: string): seq<Sextet>
    requires Letters(s)
  {
    seq(|s|, i requires 0 <= i < |s| => Value(s[i]).value)
  }

  /** The text before its trailing padding. */
  function Unpadded(s: string): (r: string)
    ensures |r| <= |s| && r == s[..|r|]
  {
    if s != "" && s[|s| - 1] == '=' then Unpadded(s[..|s| - 1]) else s
  }

  /** `_b64decode`: pad to a multiple of four, then decode strictly, with two padding characters at most. */
  function Decode(value: string): Option<seq<Byte>> {
    var letters := Unpadded(value);
    var padded := (|value| + 3) / 4 * 4;
    if padded - |letters| > 2 || !Letters(letters) then None else Some(Bytes(Values(letters)))
  }

  /** Four sextets give back the three bytes they were made from. */
  lemma GroupRoundTrip(a: Byte, b: Byte, c: Byte)
    ensures a / 4 * 4 + (a % 4 * 16 + b / 16) / 16 == a
    ensures (a % 4 * 16 + b / 16) % 16 * 16 + (b % 16 * 4 + c / 64) / 4 == b
    ensures (b % 16 * 4 + c / 64) % 4 * 64 + c % 64 == c
  {
  }

  lemma {:induction false} SextetCount(raw: seq<Byte>)
    ensures |Sextets(raw)| == (4 * |raw| + 2) / 3 && |Sextets(raw)| % 4 != 1
  {
    if |raw| > 2 { SextetCount(raw[3..]); }
  }

  lemma {:induction false} BytesOfSextets(raw: seq<Byte>)
    ensures |Sextets(raw)| % 4 != 1 && Bytes(Sextets(raw)) == raw
  {
    SextetCount(raw);
    if |raw| > 2 {
      GroupRoundTrip(raw[0], raw[1], raw[2]);
      BytesOfSextets(raw[3..]);
      assert Sextets(raw)[4..] == Sextets(raw[3..]);
      assert raw == [raw[0], raw[1], raw[2]] + raw[3..];
    } else if |raw| > 0 {
      GroupRoundTrip(raw[0], if |raw| == 2 then raw[1] else 0, 0);
    }
  }

  /** No encoding holds padding, a dot or a blank. */
  lemma EncodedShape(raw: seq<Byte>)
    ensures |Encode(raw)| == |Sextets(raw)| && Letters(Encode(raw)) && Values(Encode(raw)) == Sextets(raw)
    ensures forall i :: 0 <= i < |Encode(raw)| ==>
      Encode(raw)[i] != '=' && Encode(raw)[i] != '.' && !IsSpace(Encode(raw)[i])
  {
    hide Sextets;
  }

  /** Decoding undoes encoding for every byte string. */
  lemma DecodeEncode(raw: seq<Byte>)
    ensures Decode(Encode(raw)) == Some(raw)
  {
    EncodedShape(raw);
    SextetCount(raw);
    BytesOfSextets(raw);
    hide Encode, Sextets, Bytes, Letters, Values;
    assert Unpadded(Encode(raw)) == Encode(raw);
  }

  // ---------------------------------------------------------------- text fields

  predicate IsHex(c: char) { '0' <= c <= '9' || 'a' <= c <= 'f' }

  predicate HexOf(s: string, length: nat) { |s| == length && forall i :: 0 <= i < |s| ==> IsHex(s[i]) }

  lemma HexIsNormal(s: string, length: nat)
    requires HexOf(s, length)
    ensures Strip(s) == s && Lower(s) == s
  {
    StripStrips(s);
  }

  // ---------------------------------------------------------------- the carried snapshot

  /** A payload as read from JSON; numbers that do not convert are `None`, and missing texts are empty. */
  datatype Payload = Payload(
    schema: int, purpose: string, tokenId: Option<int>, expiresAt: Option<int>, releaseId: string, version: string,
    sequence: Option<int>, bundleSha: string, bundleSize: Option<int>, approval: string, candidateSha: string,
    sourceCommit: string)

  datatype Authorization = Authorization(
    tokenId: int, expiresAt: int, releaseId: string, version: string, sequence: int, bundleSha: string,
    bundleSize: int, approval: string, candidateSha: string, sourceCommit: string)

  predicate Positive(n: Option<int>) { n.Some? && n.value >= 1 }

  /** `_validated_payload`, for a payload with exactly the expected fields. */
  function Validated(p: Payload): Option<Authorization> {
    if p.schema != 1 || p.purpose != PURPOSE
       || !(Positive(p.tokenId) && Positive(p.expiresAt) && Positive(p.sequence) && Positive(p.bundleSize))
    then None
    else
      var a := Authorization(
        p.tokenId.value, p.expiresAt.value, Strip(p.releaseId), Strip(p.version), p.sequence.value,
        Lower(Strip(p.bundleSha)), p.bundleSize.value, Strip(p.approval), Lower(Strip(p.candidateSha)),
        Lower(Strip(p.sourceCommit)));
      if IsVersion(a.version) && a.releaseId == ReleaseId(a.version, a.sequence)
         && HexOf(a.bundleSha, 64) && HexOf(a.candidateSha, 64) && HexOf(a.sourceCommit, 40)
         && 0 < |a.approval| <= MAX_APPROVAL
      then Some(a) else None
  }

  /** The payload an authorization is printed from. */
  function PayloadOf(a: Authorization): Payload {
    Payload(1, PURPOSE, Some(a.tokenId), Some(a.expiresAt), a.releaseId, a.version, Some(a.sequence), a.bundleSha,
            Some(a.bundleSize), a.approval, a.candidateSha, a.sourceCommit)
  }

  /** Normalising what was already normalised changes nothing. */
  lemma NormalisationIsIdempotent(p: Payload)
    requires Validated(p).Some?
    ensures Validated(PayloadOf(Validated(p).value)) == Validated(p)
  {
    var a := Validated(p).value;
    StripStrips(p.releaseId);
    StripStrips(p.version);
    StripStrips(p.approval);
    StripStrips(a.releaseId);
    StripStrips(a.version);
    StripStrips(a.approval);
    HexIsNormal(a.bundleSha, 64);
    HexIsNormal(a.candidateSha, 64);
    HexIsNormal(a.sourceCommit, 40);
    hide Strip, Lower, IsVersion, HexOf, ReleaseId, Stripped;
  }

  /** The blanks around a text are gone. */
  ghost predicate Trimmed(s: string, m: string) {
    && (m == "" || (!IsSpace(m[0]) && !IsSpace(m[|m| - 1])))
    && exists a, b :: Blank(a) && Blank(b) && s == a + m + b
  }

  lemma TrimmedIff(s: string, m: string)
    ensures Trimmed(s, m) <==> Strip(s) == m
  {
    if Trimmed(s, m) {
      var a, b :| Blank(a) && Blank(b) && s == a + m + b;
      StripLaw(a, m, b);
    }
    if Strip(s) == m {
      StripStrips(s);
      var a, b := StrippedBetweenBlanks(s);
    }
  }

  /** So many lower-case hexadecimal digits. */
  predicate HexText(s: string, length: nat) {
    |s| == length && forall i :: 0 <= i < |s| ==> s[i] in "0123456789abcdef"
  }

  lemma HexTextIff(s: string, length: nat)
    ensures HexText(s, length) <==> HexOf(s, length)
  {
    forall c: char ensures c in "0123456789abcdef" <==> IsHex(c) {
      var digits := "0123456789abcdef";
      if '0' <= c <= '9' { assert digits[c as int - '0' as int] == c; }
      if 'a' <= c <= 'f' { assert digits[c as int - 'a' as int + 10] == c; }
    }
  }

  /** The authorization a payload stands for, field by field. */
  ghost predicate Authorizes(p: Payload, a: Authorization) {
    && p.schema == 1 && p.purpose == "clientflow-fresh-install"
    && p.tokenId == Some(a.tokenId) && a.tokenId >= 1
    && p.expiresAt == Some(a.expiresAt) && a.expiresAt >= 1
    && p.sequence == Some(a.sequence) && a.sequence >= 1
    && p.bundleSize == Some(a.bundleSize) && a.bundleSize >= 1
    && Trimmed(p.version, a.version) && (exists x, y, z :: ThreeNumbers(a.version, x, y, z))
    && Trimmed(p.releaseId, a.releaseId) && a.releaseId == "clientflow-" + a.version + "-seq-" + Decimal(a.sequence)
    && (exists sha :: Trimmed(p.bundleSha, sha) && a.bundleSha == Lower(sha)) && HexText(a.bundleSha, 64)
    && (exists sha :: Trimmed(p.candidateSha, sha) && a.candidateSha == Lower(sha)) && HexText(a.candidateSha, 64)
    && (exists sha :: Trimmed(p.sourceCommit, sha) && a.sourceCommit == Lower(sha)) && HexText(a.sourceCommit, 40)
    && Trimmed(p.approval, a.approval) && 1 <= |a.approval| <= 200
  }

  /** A payload validates exactly to the authorization it stands for. */
  lemma ValidatedLaw(p: Payload, a: Authorization)
    ensures Validated(p) == Some(a) <==> Authorizes(p, a)
  {
    TrimmedIff(p.version, a.version);
    TrimmedIff(p.releaseId, a.releaseId);
    TrimmedIff(p.approval, a.approval);
    LoweredIff(p.bundleSha, a.bundleSha);
    LoweredIff(p.candidateSha, a.candidateSha);
    LoweredIff(p.sourceCommit, a.sourceCommit);
    VersionLaw(a.version);
    HexTextIff(a.bundleSha, 64);
    HexTextIff(a.candidateSha, 64);
    HexTextIff(a.sourceCommit, 40);
    hide Trimmed, ThreeNumbers, HexText, HexOf, Strip, Lower, IsVersion, Decimal;
  }

  lemma LoweredIff(s: string, m: string)
    ensures (exists x :: Trimmed(s, x) && m == Lower(x)) <==> Lower(Strip(s)) == m
  {
    TrimmedIff(s, Strip(s));
    if x :| Trimmed(s, x) && m == Lower(x) { TrimmedIff(s, x); }
    hide Trimmed, Strip, Lower;
  }

  // ---------------------------------------------------------------- tokens

  /** Compact JSON of a payload, its reader, and the digest keyed with the configured secret. */
  datatype Codec = Codec(render: Payload -> seq<Byte>, parse: seq<Byte> -> Option<Payload>, mac: string -> seq<Byte>)
  {
    /** What is rendered of a normalised authorisation reads back as itself. */
    ghost predicate Faithful() {
      forall a: Authorization :: Validated(PayloadOf(a)) == Some(a) ==>
        parse(render(PayloadOf(a))) == Some(PayloadOf(a))
    }
  }

  function Issue(codec: Codec, snapshot: Payload): Option<string> {
    match Validated(snapshot)
    case None => None
    case Some(a) =>
      var signed := TOKEN_PREFIX + "." + Encode(codec.render(PayloadOf(a)));
      Some(signed + "." + Encode(codec.mac(signed)))
  }

  function Verify(codec: Codec, token: string, tokenId: int, now: int): Option<Authorization> {
    var raw := Strip(token);
    if raw == "" || |raw| > MAX_TOKEN then None
    else
      var parts := Split(raw, '.');
      if |parts| != 3 || parts[0] != TOKEN_PREFIX then None
      else if Decode(parts[2]) != Some(codec.mac(TOKEN_PREFIX + "." + parts[1])) then None
      else
        match Decode(parts[1])
        case None => None
        case Some(body) =>
          match codec.parse(body)
          case None => None
          case Some(p) =>
            match Validated(p)
            case None => None
            case Some(a) => if a.tokenId != tokenId || a.expiresAt < now then None else Some(a)
  }

  lemma TokenParts(codec: Codec, a: Authorization)
    ensures var body := Encode(codec.render(PayloadOf(a)));
      var signed := TOKEN_PREFIX + "." + body;
      var token := signed + "." + Encode(codec.mac(signed));
      Split(token, '.') == [TOKEN_PREFIX, body, Encode(codec.mac(signed))] && Stripped(token) && token != ""
  {
    var body := Encode(codec.render(PayloadOf(a)));
    var signed := TOKEN_PREFIX + "." + body;
    var signature := Encode(codec.mac(signed));
    EncodedShape(codec.render(PayloadOf(a)));
    EncodedShape(codec.mac(signed));
    hide Encode, Letters;
    assert signed + "." + signature == TOKEN_PREFIX + ['.'] + (body + ['.'] + signature);
    SplitFirst(TOKEN_PREFIX, '.', body + ['.'] + signature);
    SplitFirst(body, '.', signature);
    SplitWithout(signature, '.');
    assert !IsSpace('.') && !IsSpace('c');
  }

  /** An issued token has exactly three parts: the prefix, the encoded payload and the encoded signature. */
  lemma IssuedHasThreeParts(codec: Codec, snapshot: Payload)
    requires Issue(codec, snapshot).Some?
    ensures var parts := Split(Issue(codec, snapshot).value, '.');
      && |parts| == 3 && parts[0] == TOKEN_PREFIX
      && Decode(parts[1]) == Some(codec.render(PayloadOf(Validated(snapshot).value)))
      && Decode(parts[2]) == Some(codec.mac(TOKEN_PREFIX + "." + parts[1]))
  {
    var a := Validated(snapshot).value;
    var signed := TOKEN_PREFIX + "." + Encode(codec.render(PayloadOf(a)));
    TokenParts(codec, a);
    DecodeEncode(codec.render(PayloadOf(a)));
    DecodeEncode(codec.mac(signed));
    hide Encode, Decode, Split, Validated, PayloadOf;
  }

  /**
   An issued token verifies to the normalised snapshot exactly when it is short enough, asked for by its own id, and
   unexpired.
   */
  lemma {:induction false} VerifyIssued(codec: Codec, snapshot: Payload, tokenId: int, now: int)
    requires codec.Faithful() && Issue(codec, snapshot).Some?
    ensures var token, a := Issue(codec, snapshot).value, Validated(snapshot).value;
      Verify(codec, token, tokenId, now)
      == if |token| <= MAX_TOKEN && a.tokenId == tokenId && now <= a.expiresAt then Some(a) else None
  {
    var token, a := Issue(codec, snapshot).value, Validated(snapshot).value;
    TokenParts(codec, a);
    IssuedHasThreeParts(codec, snapshot);
    StripStrips(token);
    NormalisationIsIdempotent(snapshot);
    hide Encode, Decode, Split, Validated, PayloadOf, Strip, Stripped;
  }

  /** Whatever verifies carries a matching signature, names the right enrollment token, is unexpired and normalised. */
  lemma VerifiedIsSigned(codec: Codec, token: string, tokenId: int, now: int)
    requires Verify(codec, token, tokenId, now).Some?
    ensures var a, parts := Verify(codec, token, tokenId, now).value, Split(Strip(token), '.');
      && |parts| == 3 && Decode(parts[2]) == Some(codec.mac(TOKEN_PREFIX + "." + parts[1]))
      && a.tokenId == tokenId && now <= a.expiresAt && Validated(PayloadOf(a)) == Some(a)
  {
    var parts := Split(Strip(token), '.');
    NormalisationIsIdempotent(codec.parse(Decode(parts[1]).value).value);
    hide Decode, Split, Strip, Validated, PayloadOf;
  }
}
