/** Bearer tokens: issuing, extraction from the header, and fail-closed verification of the
    compact serialization (section 7.1 of RFC 7515) with EdDSA (section 3.1 of RFC 8037). */
module Token {
  import opened Counting
  import opened Base64Url

  const U64_MAX: nat := 0xFFFF_FFFF_FFFF_FFFF

  datatype AuthError = MalformedToken | BadHeader | BadSignature | BadClaims | WrongIssuer | Expired

  datatype Result<T> = Ok(value: T) | Err(error: AuthError)

  /** The members of a claims object as the verifier reads them: absent when missing or of
      another JSON type. */
  datatype Claims = Claims(sub: Option<string>, iss: Option<string>, exp: Option<nat>)

  /** The signature scheme and the JSON library. `parseHeader` gives the `alg` member. */
  datatype Library = Library(
    publicKey: seq<byte> -> seq<byte>,
    sign: (seq<byte>, string) -> seq<byte>,
    verify: (seq<byte>, string, seq<byte>) -> bool,
    headerJson: seq<byte>,
    claimsJson: (string, string, nat, nat) -> seq<byte>,
    parseHeader: seq<byte> -> Option<Option<string>>,
    parseClaims: seq<byte> -> Option<Claims>)

  /** What is assumed of them: signatures are 64 bytes and verify under the signer's public key,
      and parsing reads back what was serialized. */
  ghost predicate Lawful(lib: Library) {
    && (forall key, text :: |lib.sign(key, text)| == 64)
    && (forall key, text :: lib.verify(lib.publicKey(key), text, lib.sign(key, text)))
    && lib.headerJson != [] && lib.parseHeader(lib.headerJson) == Some(Some("EdDSA"))
    && (forall sub, iss, iat: nat, exp: nat :: lib.claimsJson(sub, iss, iat, exp) != [])
    && (forall sub, iss, iat: nat, exp: nat :: exp <= U64_MAX ==>
          lib.parseClaims(lib.claimsJson(sub, iss, iat, exp)) == Some(Claims(Some(sub), Some(iss), Some(exp))))
  }

  function Expiry(issuedAt: nat, ttl: nat): nat {
    if issuedAt + ttl > U64_MAX then U64_MAX else issuedAt + ttl
  }

  function IssueToken(lib: Library, key: seq<byte>, issuer: string, subject: string, issuedAt: nat, ttl: nat): string {
    var claims := lib.claimsJson(subject, issuer, issuedAt, Expiry(issuedAt, ttl));
    var signingInput := Encode(lib.headerJson) + "." + Encode(claims);
    signingInput + "." + Encode(lib.sign(key, signingInput))
  }

  // ---- Splitting at dots ----

  function Split(s: string): (parts: seq<string>)
    ensures |parts| >= 1
  {
    if s == [] then [[]]
    else
      var rest := Split(s[1..]);
      if s[0] == '.' then [[]] + rest else [[s[0]] + rest[0]] + rest[1..]
  }

  lemma {:induction false} SplitNone(s: string)
    requires '.' !in s
    ensures Split(s) == [s]
  {
    if s != [] {
      SplitNone(s[1..]);
      assert s == [s[0]] + s[1..];
    }
  }

  lemma {:induction false} SplitFirst(a: string, b: string)
    requires '.' !in a
    ensures Split(a + "." + b) == [a] + Split(b)
  {
    var s := a + "." + b;
    if a == [] {
      assert s[1..] == b;
    } else {
      assert s[1..] == a[1..] + "." + b;
      SplitFirst(a[1..], b);
      assert a == [a[0]] + a[1..];
    }
  }

  /** The parts, joined by dots again. */
  function Join(parts: seq<string>): string
    requires |parts| >= 1
  {
    if |parts| == 1 then parts[0] else parts[0] + "." + Join(parts[1..])
  }

  lemma {:induction false} JoinSplit(s: string)
    ensures Join(Split(s)) == s
    ensures forall i :: 0 <= i < |Split(s)| ==> '.' !in Split(s)[i]
  {
    if s != [] {
      JoinSplit(s[1..]);
      var rest := Split(s[1..]);
      var parts := Split(s);
      if s[0] == '.' {
        assert parts[1..] == rest;
      } else if |rest| > 1 {
        assert parts[1..] == rest[1..];
        assert Join(parts) == [s[0]] + rest[0] + "." + Join(rest[1..]);
      }
      assert s == [s[0]] + s[1..];
    }
  }

  // ---- Verification ----

  function VerifyToken(lib: Library, trustedKey: seq<byte>, token: string, trustedIssuer: Option<string>, now: nat)
    : Result<string>
  {
    var parts := Split(token);
    if |parts| != 3 || parts[0] == [] || parts[1] == [] || parts[2] == [] then Err(MalformedToken)
    else
      var header := Decode(parts[0]);
      if header.None? || lib.parseHeader(header.value) != Some(Some("EdDSA")) then Err(BadHeader)
      else
        var sig := Decode(parts[2]);
        if sig.None? || |sig.value| != 64 || !lib.verify(trustedKey, parts[0] + "." + parts[1], sig.value)
        then Err(BadSignature)
        else
          var claims := Decode(parts[1]);
          if claims.None? || lib.parseClaims(claims.value).None? then Err(BadClaims)
          else CheckClaims(lib.parseClaims(claims.value).value, trustedIssuer, now)
  }

  function CheckClaims(c: Claims, trustedIssuer: Option<string>, now: nat): Result<string> {
    if trustedIssuer.Some? && c.iss != trustedIssuer then Err(WrongIssuer)
    else if c.exp.None? then Err(BadClaims)
    else if now >= c.exp.value then Err(Expired)
    else if c.sub.None? then Err(BadClaims)
    else Ok(c.sub.value)
  }

  /** What an accepted token is, said without the verifier: three non-empty dot-free base64url
      parts h.c.g, where h names EdDSA, g is a 64-byte signature of exactly the text h.c, and c
      holds unexpired claims of the trusted issuer for the subject. */
  ghost predicate Genuine(
    lib: Library, trustedKey: seq<byte>, token: string, trustedIssuer: Option<string>, now: nat, subject: string,
    h: string, c: string, g: string)
  {
    && token == h + "." + c + "." + g
    && h != [] && c != [] && g != [] && '.' !in h && '.' !in c && '.' !in g
    && Decode(h).Some? && lib.parseHeader(Decode(h).value) == Some(Some("EdDSA"))
    && Decode(g).Some? && |Decode(g).value| == 64 && lib.verify(trustedKey, h + "." + c, Decode(g).value)
    && Decode(c).Some? && lib.parseClaims(Decode(c).value).Some?
    && var claims := lib.parseClaims(Decode(c).value).value;
       && (trustedIssuer.Some? ==> claims.iss == trustedIssuer)
       && claims.exp.Some? && now < claims.exp.value
       && claims.sub == Some(subject)
  }

  lemma SplitThree(h: string, c: string, g: string)
    requires '.' !in h && '.' !in c && '.' !in g
    ensures Split(h + "." + c + "." + g) == [h, c, g]
  {
    assert h + "." + c + "." + g == h + "." + (c + "." + g);
    SplitFirst(h, c + "." + g);
    SplitFirst(c, g);
    SplitNone(g);
  }

  lemma ThreeParts(token: string)
    requires |Split(token)| == 3
    ensures var p := Split(token);
            token == p[0] + "." + p[1] + "." + p[2] && '.' !in p[0] && '.' !in p[1] && '.' !in p[2]
  {
    var p := Split(token);
    JoinSplit(token);
    assert Join(p[1..][1..]) == p[2];
    assert Join(p[1..]) == p[1] + "." + p[2];
    assert p[0] + "." + (p[1] + "." + p[2]) == p[0] + "." + p[1] + "." + p[2];
  }

  /** A well-formed, well-signed token is judged by its claims alone. */
  lemma VerifySigned(
    lib: Library, trustedKey: seq<byte>, trustedIssuer: Option<string>, now: nat,
    h: string, c: string, g: string, claims: Claims)
    requires '.' !in h && '.' !in c && '.' !in g && h != [] && c != [] && g != []
    requires Decode(h).Some? && lib.parseHeader(Decode(h).value) == Some(Some("EdDSA"))
    requires Decode(g).Some? && |Decode(g).value| == 64 && lib.verify(trustedKey, h + "." + c, Decode(g).value)
    requires Decode(c).Some? && lib.parseClaims(Decode(c).value) == Some(claims)
    ensures VerifyToken(lib, trustedKey, h + "." + c + "." + g, trustedIssuer, now) ==
            CheckClaims(claims, trustedIssuer, now)
  {
    SplitThree(h, c, g);
  }

  lemma ClaimsAccepted(claims: Claims, trustedIssuer: Option<string>, now: nat, subject: string)
    ensures CheckClaims(claims, trustedIssuer, now) == Ok(subject) <==>
            && (trustedIssuer.Some? ==> claims.iss == trustedIssuer)
            && claims.exp.Some? && now < claims.exp.value
            && claims.sub == Some(subject)
  {
  }

  lemma GenuineAccepted(
    lib: Library, trustedKey: seq<byte>, token: string, trustedIssuer: Option<string>, now: nat, subject: string,
    h: string, c: string, g: string)
    requires Genuine(lib, trustedKey, token, trustedIssuer, now, subject, h, c, g)
    ensures VerifyToken(lib, trustedKey, token, trustedIssuer, now) == Ok(subject)
  {
    var claims := lib.parseClaims(Decode(c).value).value;
    VerifySigned(lib, trustedKey, trustedIssuer, now, h, c, g, claims);
    ClaimsAccepted(claims, trustedIssuer, now, subject);
  }

  lemma AcceptedGenuine(
    lib: Library, trustedKey: seq<byte>, token: string, trustedIssuer: Option<string>, now: nat, subject: string)
    requires VerifyToken(lib, trustedKey, token, trustedIssuer, now) == Ok(subject)
    ensures |Split(token)| == 3
    ensures var p := Split(token); Genuine(lib, trustedKey, token, trustedIssuer, now, subject, p[0], p[1], p[2])
  {
    ThreeParts(token);
    var claims := lib.parseClaims(Decode(Split(token)[1]).value).value;
    ClaimsAccepted(claims, trustedIssuer, now, subject);
  }

  /** The verifier accepts exactly the genuine tokens, and for exactly their subject. */
  lemma AcceptsExactlyGenuine(
    lib: Library, trustedKey: seq<byte>, token: string, trustedIssuer: Option<string>, now: nat, subject: string)
    ensures VerifyToken(lib, trustedKey, token, trustedIssuer, now) == Ok(subject) <==>
            exists h, c, g :: Genuine(lib, trustedKey, token, trustedIssuer, now, subject, h, c, g)
  {
    if VerifyToken(lib, trustedKey, token, trustedIssuer, now) == Ok(subject) {
      AcceptedGenuine(lib, trustedKey, token, trustedIssuer, now, subject);
    }
    forall h, c, g | Genuine(lib, trustedKey, token, trustedIssuer, now, subject, h, c, g)
      ensures VerifyToken(lib, trustedKey, token, trustedIssuer, now) == Ok(subject)
    {
      GenuineAccepted(lib, trustedKey, token, trustedIssuer, now, subject, h, c, g);
    }
  }

  /** No second text passes for a token: equal decoded parts mean equal tokens. */
  lemma TokensNotMalleable(t1: string, t2: string)
    requires |Split(t1)| == 3 && |Split(t2)| == 3
    requires forall i :: 0 <= i < 3 ==> Decode(Split(t1)[i]).Some? && Decode(Split(t1)[i]) == Decode(Split(t2)[i])
    ensures t1 == t2
  {
    ThreeParts(t1);
    ThreeParts(t2);
    EncodeDecode(Split(t1)[0]);
    EncodeDecode(Split(t2)[0]);
    EncodeDecode(Split(t1)[1]);
    EncodeDecode(Split(t2)[1]);
    EncodeDecode(Split(t1)[2]);
    EncodeDecode(Split(t2)[2]);
  }

  // ---- The Authorization header ----

  /** The Unicode White_Space characters. */
  predicate IsWhitespace(c: char) {
    || '\U{0009}' <= c <= '\U{000D}' || c == ' ' || c == '\U{0085}' || c == '\U{00A0}' || c == '\U{1680}'
    || '\U{2000}' <= c <= '\U{200A}' || c == '\U{2028}' || c == '\U{2029}' || c == '\U{202F}'
    || c == '\U{205F}' || c == '\U{3000}'
  }

  predicate Blank(s: string) {
    forall i :: 0 <= i < |s| ==> IsWhitespace(s[i])
  }

  predicate Solid(s: string) {
    forall i :: 0 <= i < |s| ==> !IsWhitespace(s[i])
  }

  function TrimBlankStart(s: string): string {
    if s != [] && IsWhitespace(s[0]) then TrimBlankStart(s[1..]) else s
  }

  function TrimBlankEnd(s: string): string {
    if s != [] && IsWhitespace(s[|s| - 1]) then TrimBlankEnd(s[..|s| - 1]) else s
  }

  const SCHEME := "Bearer "

  function BearerToken(header: Option<string>): Option<string> {
    if header.None? || !(SCHEME <= header.value) then None
    else
      var rest := TrimBlankEnd(TrimBlankStart(header.value[|SCHEME|..]));
      if rest == [] || !Solid(rest) then None else Some(rest)
  }

  lemma {:induction false} TrimBlankStartPads(pad: string, s: string)
    requires Blank(pad) && s != [] && !IsWhitespace(s[0])
    ensures TrimBlankStart(pad + s) == s
  {
    if pad == [] {
      assert pad + s == s;
    } else {
      assert (pad + s)[1..] == pad[1..] + s;
      TrimBlankStartPads(pad[1..], s);
    }
  }

  lemma {:induction false} TrimBlankEndPads(s: string, pad: string)
    requires Blank(pad) && s != [] && !IsWhitespace(s[|s| - 1])
    ensures TrimBlankEnd(s + pad) == s
  {
    if pad == [] {
      assert s + pad == s;
    } else {
      assert (s + pad)[..|s + pad| - 1] == s + pad[..|pad| - 1];
      TrimBlankEndPads(s, pad[..|pad| - 1]);
    }
  }

  lemma {:induction false} TrimBlankStartDrops(s: string) returns (pad: string)
    ensures Blank(pad) && s == pad + TrimBlankStart(s)
  {
    pad := [];
    if s != [] && IsWhitespace(s[0]) {
      var rest := TrimBlankStartDrops(s[1..]);
      BlankCons(s[0], rest);
      pad := [s[0]] + rest;
      ConsAssoc(s, rest, TrimBlankStart(s[1..]));
    }
  }

  lemma BlankCons(c: char, s: string)
    requires IsWhitespace(c) && Blank(s)
    ensures Blank([c] + s)
  {
  }

  lemma ConsAssoc(s: string, a: string, b: string)
    requires s != [] && s[1..] == a + b
    ensures s == [s[0]] + a + b
  {
  }

  lemma {:induction false} TrimBlankEndDrops(s: string) returns (pad: string)
    ensures Blank(pad) && s == TrimBlankEnd(s) + pad
  {
    pad := [];
    if s != [] && IsWhitespace(s[|s| - 1]) {
      var rest := TrimBlankEndDrops(s[..|s| - 1]);
      pad := rest + [s[|s| - 1]];
      assert s == s[..|s| - 1] + [s[|s| - 1]] == TrimBlankEnd(s[..|s| - 1]) + pad;
    }
  }

  /** Extraction yields t exactly from headers made of the scheme, padding, t and padding, where t
      is non-empty and has no whitespace. */
  lemma BearerExactly(value: string, t: string)
    ensures BearerToken(Some(value)) == Some(t) <==>
            t != [] && Solid(t) &&
            exists l, r :: Blank(l) && Blank(r) && value == SCHEME + l + t + r
  {
    if BearerToken(Some(value)) == Some(t) {
      var l, r := BearerParts(value, t);
    }
    if t != [] && Solid(t) {
      forall l, r | Blank(l) && Blank(r) && value == SCHEME + l + t + r
        ensures BearerToken(Some(value)) == Some(t)
      {
        BearerBuilt(l, t, r);
      }
    }
  }

  lemma BearerParts(value: string, t: string) returns (l: string, r: string)
    requires BearerToken(Some(value)) == Some(t)
    ensures Blank(l) && Blank(r) && value == SCHEME + l + t + r
  {
    var rest := value[|SCHEME|..];
    l := TrimBlankStartDrops(rest);
    r := TrimBlankEndDrops(TrimBlankStart(rest));
    assert value == SCHEME + rest == SCHEME + (l + (t + r));
  }

  lemma BearerBuilt(l: string, t: string, r: string)
    requires Blank(l) && Blank(r) && t != [] && Solid(t)
    ensures BearerToken(Some(SCHEME + l + t + r)) == Some(t)
  {
    var value := SCHEME + l + t + r;
    assert value == SCHEME + (l + (t + r));
    assert value[|SCHEME|..] == l + (t + r);
    assert (t + r)[0] == t[0];
    TrimBlankStartPads(l, t + r);
    TrimBlankEndPads(t, r);
  }

  // ---- The gate ----

  /** Header values with anything but tabs and visible ASCII are not text. */
  predicate IsText(value: string) {
    forall i :: 0 <= i < |value| ==> value[i] == '\t' || ' ' <= value[i] <= '~'
  }

  datatype AuthState = AuthState(lib: Library, verifyingKey: seq<byte>, trustedIssuer: Option<string>)

  /** The verified subject, or None for a 401. */
  function CheckBearer(auth: AuthState, header: Option<string>, now: nat): Option<string> {
    var text := if header.Some? && IsText(header.value) then header else None;
    match BearerToken(text)
    case None => None
    case Some(token) =>
      match VerifyToken(auth.lib, auth.verifyingKey, token, auth.trustedIssuer, now)
      case Ok(subject) => Some(subject)
      case Err(_) => None
  }

  // ---- The round trip ----

  predicate TokenChar(c: char) {
    InAlphabet(c) || c == '.'
  }

  lemma TokenCharPlain(c: char)
    requires TokenChar(c)
    ensures !IsWhitespace(c) && ' ' <= c <= '~' && (InAlphabet(c) ==> c != '.')
  {
  }

  lemma IssuedShape(
    lib: Library, key: seq<byte>, issuer: string, subject: string, issuedAt: nat, ttl: nat)
    returns (h: string, c: string, g: string)
    requires Lawful(lib)
    ensures h == Encode(lib.headerJson)
    ensures c == Encode(lib.claimsJson(subject, issuer, issuedAt, Expiry(issuedAt, ttl)))
    ensures g == Encode(lib.sign(key, h + "." + c))
    ensures h != [] && c != [] && g != [] && '.' !in h && '.' !in c && '.' !in g
    ensures IssueToken(lib, key, issuer, subject, issuedAt, ttl) == h + "." + c + "." + g
    ensures forall i :: 0 <= i < |h + "." + c + "." + g| ==> TokenChar((h + "." + c + "." + g)[i])
  {
    h := Encode(lib.headerJson);
    c := Encode(lib.claimsJson(subject, issuer, issuedAt, Expiry(issuedAt, ttl)));
    g := Encode(lib.sign(key, h + "." + c));
    EncodeAlphabet(lib.headerJson);
    EncodeAlphabet(lib.claimsJson(subject, issuer, issuedAt, Expiry(issuedAt, ttl)));
    EncodeAlphabet(lib.sign(key, h + "." + c));
    assert lib.sign(key, h + "." + c) != [];
  }

  /** An issued token has three non-empty parts and, for a verifier that trusts the signer's key
      and any issuer or this one, is good for its subject at time n exactly while
      n < min(2^64 - 1, issue time + ttl); from then on it is expired. */
  lemma TokenRoundTrip(
    lib: Library, key: seq<byte>, issuer: string, subject: string, issuedAt: nat, ttl: nat,
    trustedIssuer: Option<string>, now: nat)
    requires Lawful(lib)
    ensures var token := IssueToken(lib, key, issuer, subject, issuedAt, ttl);
            && |Split(token)| == 3 && (forall i :: 0 <= i < 3 ==> Split(token)[i] != [])
            && VerifyToken(lib, lib.publicKey(key), token, trustedIssuer, now) ==
                 if trustedIssuer.Some? && trustedIssuer.value != issuer then Err(WrongIssuer)
                 else if now < Expiry(issuedAt, ttl) then Ok(subject)
                 else Err(Expired)
  {
    var h, c, g := IssuedShape(lib, key, issuer, subject, issuedAt, ttl);
    SplitThree(h, c, g);
    var exp := Expiry(issuedAt, ttl);
    IssuedDecodes(lib, key, issuer, subject, issuedAt, exp, h, c, g);
    VerifySigned(lib, lib.publicKey(key), trustedIssuer, now, h, c, g, Claims(Some(subject), Some(issuer), Some(exp)));
  }

  lemma IssuedDecodes(
    lib: Library, key: seq<byte>, issuer: string, subject: string, issuedAt: nat, exp: nat, h: string, c: string, g: string)
    requires Lawful(lib) && exp <= U64_MAX
    requires h == Encode(lib.headerJson) && c == Encode(lib.claimsJson(subject, issuer, issuedAt, exp))
    requires g == Encode(lib.sign(key, h + "." + c))
    ensures Decode(h).Some? && lib.parseHeader(Decode(h).value) == Some(Some("EdDSA"))
    ensures Decode(g).Some? && |Decode(g).value| == 64
    ensures lib.verify(lib.publicKey(key), h + "." + c, Decode(g).value)
    ensures Decode(c).Some?
    ensures lib.parseClaims(Decode(c).value) == Some(Claims(Some(subject), Some(issuer), Some(exp)))
  {
    DecodeEncode(lib.headerJson);
    DecodeEncode(lib.claimsJson(subject, issuer, issuedAt, exp));
    DecodeEncode(lib.sign(key, h + "." + c));
  }

  /** Sent as a bearer header, with any extra blanks around it, an issued token is extracted
      unchanged. */
  lemma IssuedSurvivesHeader(
    lib: Library, key: seq<byte>, issuer: string, subject: string, issuedAt: nat, ttl: nat, l: string, r: string)
    requires Lawful(lib) && Blank(l) && Blank(r)
    ensures var token := IssueToken(lib, key, issuer, subject, issuedAt, ttl);
            && BearerToken(Some(SCHEME + l + token + r)) == Some(token)
            && IsText(SCHEME + token)
  {
    var h, c, g := IssuedShape(lib, key, issuer, subject, issuedAt, ttl);
    var token := h + "." + c + "." + g;
    PlainToken(token);
    BearerBuilt(l, token, r);
  }

  lemma PlainToken(token: string)
    requires forall i :: 0 <= i < |token| ==> TokenChar(token[i])
    ensures Solid(token) && IsText(SCHEME + token)
  {
    forall i | 0 <= i < |token| ensures !IsWhitespace(token[i]) && ' ' <= token[i] <= '~' {
      TokenCharPlain(token[i]);
    }
    assert IsText(SCHEME);
  }

  /** End to end: the gate lets the issued token through for its subject exactly until it expires. */
  lemma GateRoundTrip(
    lib: Library, key: seq<byte>, issuer: string, subject: string, issuedAt: nat, ttl: nat, now: nat)
    requires Lawful(lib)
    ensures var auth := AuthState(lib, lib.publicKey(key), Some(issuer));
            var header := SCHEME + IssueToken(lib, key, issuer, subject, issuedAt, ttl);
            CheckBearer(auth, Some(header), now) == if now < Expiry(issuedAt, ttl) then Some(subject) else None
  {
    var token := IssueToken(lib, key, issuer, subject, issuedAt, ttl);
    TokenRoundTrip(lib, key, issuer, subject, issuedAt, ttl, Some(issuer), now);
    IssuedSurvivesHeader(lib, key, issuer, subject, issuedAt, ttl, [], []);
    assert SCHEME + [] + token + [] == SCHEME + token;
  }

  /** Fail-closed: whoever passes the gate presented a genuine token. */
  lemma GateFailsClosed(auth: AuthState, header: Option<string>, now: nat)
    requires CheckBearer(auth, header, now).Some?
    ensures header.Some?
    ensures exists l, t, r, h, c, g ::
      && Blank(l) && Blank(r) && header.value == SCHEME + l + t + r
      && Genuine(auth.lib, auth.verifyingKey, t, auth.trustedIssuer, now, CheckBearer(auth, header, now).value, h, c, g)
  {
    var t := BearerToken(header).value;
    var subject := CheckBearer(auth, header, now).value;
    BearerExactly(header.value, t);
    AcceptsExactlyGenuine(auth.lib, auth.verifyingKey, t, auth.trustedIssuer, now, subject);
    var l, r :| Blank(l) && Blank(r) && header.value == SCHEME + l + t + r;
    var h, c, g :| Genuine(auth.lib, auth.verifyingKey, t, auth.trustedIssuer, now, subject, h, c, g);
  }
}
