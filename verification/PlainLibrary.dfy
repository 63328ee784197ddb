/** A library that meets every assumption made of the signature scheme and the JSON library, so that
    the token theorems are about something. It is no signature scheme: its signatures protect nothing. */
module PlainLibrary {
  import opened Counting
  import opened Base64Url
  import opened Token

  function Unary(n: nat): seq<byte> {
    if n == 0 then [0] else [1] + Unary(n - 1)
  }

  function ReadUnary(s: seq<byte>): (r: Option<(nat, seq<byte>)>)
    ensures r.Some? ==> |r.value.1| < |s|
  {
    if s == [] then None
    else if s[0] == 0 then Some((0, s[1..]))
    else
      match ReadUnary(s[1..])
      case None => None
      case Some((n, rest)) => Some((n + 1, rest))
  }

  lemma {:induction false} ReadsUnary(n: nat, rest: seq<byte>)
    ensures ReadUnary(Unary(n) + rest) == Some((n, rest))
  {
    var s := Unary(n) + rest;
    if n == 0 {
      assert s[1..] == rest;
    } else {
      assert s[1..] == Unary(n - 1) + rest;
      ReadsUnary(n - 1, rest);
    }
  }

  predicate IsChar(n: nat) {
    n < 0xD800 || 0xE000 <= n < 0x11_0000
  }

  /** Each character as its number plus one; zero ends the text. */
  function Write(s: string): seq<byte> {
    if s == [] then Unary(0) else Unary(s[0] as nat + 1) + Write(s[1..])
  }

  function Read(b: seq<byte>): Option<(string, seq<byte>)>
    decreases |b|
  {
    match ReadUnary(b)
    case None => None
    case Some((n, rest)) =>
      if n == 0 then Some(([], rest))
      else if !IsChar(n - 1) then None
      else
        match Read(rest)
        case None => None
        case Some((s, after)) => Some(([(n - 1) as char] + s, after))
  }

  lemma {:induction false} Reads(s: string, rest: seq<byte>)
    ensures Read(Write(s) + rest) == Some((s, rest))
  {
    if s == [] {
      ReadsUnary(0, rest);
    } else {
      var n := s[0] as nat + 1;
      assert Write(s) + rest == Unary(n) + (Write(s[1..]) + rest);
      ReadsUnary(n, Write(s[1..]) + rest);
      Reads(s[1..], rest);
      assert s == [s[0]] + s[1..];
    }
  }

  function WriteClaims(sub: string, iss: string, iat: nat, exp: nat): seq<byte> {
    Write(sub) + (Write(iss) + (Unary(exp) + []))
  }

  function ReadClaims(b: seq<byte>): Option<Claims> {
    match Read(b)
    case None => None
    case Some((sub, rest)) =>
      match Read(rest)
      case None => None
      case Some((iss, after)) =>
        match ReadUnary(after)
        case None => None
        case Some((exp, _)) => Some(Claims(Some(sub), Some(iss), Some(exp)))
  }

  lemma ReadsClaims(sub: string, iss: string, iat: nat, exp: nat)
    ensures ReadClaims(WriteClaims(sub, iss, iat, exp)) == Some(Claims(Some(sub), Some(iss), Some(exp)))
    ensures WriteClaims(sub, iss, iat, exp) != []
  {
    Reads(sub, Write(iss) + (Unary(exp) + []));
    Reads(iss, Unary(exp) + []);
    ReadsUnary(exp, []);
  }

  const PLAIN := Library(
    (key: seq<byte>) => key,
    (key: seq<byte>, text: string) => seq(64, _ => 0),
    (key: seq<byte>, text: string, sig: seq<byte>) => true,
    [0],
    WriteClaims,
    (header: seq<byte>) => Some(Some("EdDSA")),
    ReadClaims)

  /** The assumptions of the token theorems can be met. */
  lemma LawfulLibraryExists()
    ensures Lawful(PLAIN)
  {
    forall sub, iss, iat: nat, exp: nat
      ensures PLAIN.claimsJson(sub, iss, iat, exp) != []
      ensures PLAIN.parseClaims(PLAIN.claimsJson(sub, iss, iat, exp)) == Some(Claims(Some(sub), Some(iss), Some(exp)))
    {
      ReadsClaims(sub, iss, iat, exp);
    }
  }
}
