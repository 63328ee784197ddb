/** Base64url without padding (section 5 of RFC 4648), with the strict decoder: no padding, no
    foreign characters, no stray trailing bits. */
module Base64Url {
  import opened Counting

  type byte = b: int | 0 <= b < 256

  function Char64(v: int): char
    requires 0 <= v < 64
  {
    if v < 26 then ('A' as int + v) as char
    else if v < 52 then ('a' as int + v - 26) as char
    else if v < 62 then ('0' as int + v - 52) as char
    else if v == 62 then '-' else '_'
  }

  /** The value of a character, 64 for a character outside the alphabet. */
  function Value64(c: char): int {
    if 'A' <= c <= 'Z' then c as int - 'A' as int
    else if 'a' <= c <= 'z' then c as int - 'a' as int + 26
    else if '0' <= c <= '9' then c as int - '0' as int + 52
    else if c == '-' then 62
    else if c == '_' then 63
    else 64
  }

  predicate InAlphabet(c: char) {
    Value64(c) < 64
  }

  lemma CharValue(v: int)
    requires 0 <= v < 64
    ensures Value64(Char64(v)) == v
  {
  }

  lemma ValueChar(c: char)
    requires InAlphabet(c)
    ensures 0 <= Value64(c) && Char64(Value64(c)) == c
  {
  }

  // Four sextets from three bytes, and back. A missing byte counts as zero.

  function S0(a: byte): int { a / 4 }
  function S1(a: byte, b: byte): int { a % 4 * 16 + b / 16 }
  function S2(b: byte, c: byte): int { b % 16 * 4 + c / 64 }
  function S3(c: byte): int { c % 64 }

  type sextet = v: int | 0 <= v < 64

  function B0(w: sextet, x: sextet): byte { w * 4 + x / 16 }
  function B1(x: sextet, y: sextet): byte { x % 16 * 16 + y / 4 }
  function B2(y: sextet, z: sextet): byte { y % 4 * 64 + z }

  lemma SextetRange(a: byte, b: byte, c: byte)
    ensures 0 <= S0(a) < 64 && 0 <= S1(a, b) < 64 && 0 <= S2(b, c) < 64 && 0 <= S3(c) < 64
  {
  }

  lemma BytesBack(a: byte, b: byte, c: byte)
    ensures 0 <= S0(a) < 64 && 0 <= S1(a, b) < 64 && 0 <= S2(b, c) < 64 && 0 <= S3(c) < 64
    ensures B0(S0(a), S1(a, b)) == a && B1(S1(a, b), S2(b, c)) == b && B2(S2(b, c), S3(c)) == c
    ensures S1(a, 0) % 16 == 0 && S2(b, 0) % 4 == 0
  {
  }

  lemma SextetsBack(w: sextet, x: sextet, y: sextet, z: sextet)
    ensures S0(B0(w, x)) == w && S1(B0(w, x), B1(x, y)) == x && S2(B1(x, y), B2(y, z)) == y && S3(B2(y, z)) == z
    ensures x % 16 == 0 ==> S1(B0(w, x), 0) == x
    ensures y % 4 == 0 ==> S2(B1(x, y), 0) == y
  {
  }

  function Tail1(a: byte): string {
    SextetRange(a, 0, 0);
    [Char64(S0(a)), Char64(S1(a, 0))]
  }

  function Tail2(a: byte, b: byte): string {
    SextetRange(a, b, 0);
    [Char64(S0(a)), Char64(S1(a, b)), Char64(S2(b, 0))]
  }

  function Group(a: byte, b: byte, c: byte): string {
    SextetRange(a, b, c);
    [Char64(S0(a)), Char64(S1(a, b)), Char64(S2(b, c)), Char64(S3(c))]
  }

  function Encode(b: seq<byte>): string {
    if |b| == 0 then []
    else if |b| == 1 then Tail1(b[0])
    else if |b| == 2 then Tail2(b[0], b[1])
    else Group(b[0], b[1], b[2]) + Encode(b[3..])
  }

  predicate AllInAlphabet(s: string) {
    forall i :: 0 <= i < |s| ==> InAlphabet(s[i])
  }

  function Decode(s: string): Option<seq<byte>> {
    if |s| == 0 then Some([])
    else if |s| == 1 || !AllInAlphabet(if |s| < 4 then s else s[..4]) then None
    else
      var w, x := Sextet(s, 0), Sextet(s, 1);
      if |s| == 2 then (if x % 16 == 0 then Some([B0(w, x)]) else None)
      else
        var y := Sextet(s, 2);
        if |s| == 3 then (if y % 4 == 0 then Some([B0(w, x), B1(x, y)]) else None)
        else
          match Decode(s[4..])
          case None => None
          case Some(rest) => Some([B0(w, x), B1(x, y), B2(y, Sextet(s, 3))] + rest)
  }

  function Sextet(s: string, i: nat): sextet
    requires i < |s|
  {
    if InAlphabet(s[i]) then Value64(s[i]) else 0
  }

  lemma {:induction false} EncodeAlphabet(b: seq<byte>)
    ensures AllInAlphabet(Encode(b))
    ensures b != [] ==> Encode(b) != []
  {
    if |b| >= 3 {
      EncodeAlphabet(b[3..]);
    }
    forall v | 0 <= v < 64 ensures InAlphabet(Char64(v)) {
      CharValue(v);
    }
  }

  // The decoder on one group of known sextets.

  lemma SextetOfChar(s: string, i: nat, v: sextet)
    requires i < |s| && s[i] == Char64(v)
    ensures InAlphabet(s[i]) && Sextet(s, i) == v
  {
    CharValue(v);
  }

  lemma DecodeTwo(w: sextet, x: sextet)
    ensures Decode([Char64(w), Char64(x)]) == if x % 16 == 0 then Some([B0(w, x)]) else None
  {
    var s := [Char64(w), Char64(x)];
    SextetOfChar(s, 0, w);
    SextetOfChar(s, 1, x);
  }

  lemma DecodeThree(w: sextet, x: sextet, y: sextet)
    ensures Decode([Char64(w), Char64(x), Char64(y)]) == if y % 4 == 0 then Some([B0(w, x), B1(x, y)]) else None
  {
    var s := [Char64(w), Char64(x), Char64(y)];
    SextetOfChar(s, 0, w);
    SextetOfChar(s, 1, x);
    SextetOfChar(s, 2, y);
  }

  lemma DecodeFour(w: sextet, x: sextet, y: sextet, z: sextet, t: string)
    ensures Decode([Char64(w), Char64(x), Char64(y), Char64(z)] + t) ==
            match Decode(t)
            case None => None
            case Some(rest) => Some([B0(w, x), B1(x, y), B2(y, z)] + rest)
  {
    var s := [Char64(w), Char64(x), Char64(y), Char64(z)] + t;
    SextetOfChar(s, 0, w);
    SextetOfChar(s, 1, x);
    SextetOfChar(s, 2, y);
    SextetOfChar(s, 3, z);
    assert s[4..] == t;
    assert forall i :: 0 <= i < 4 ==> s[..4][i] == s[i];
  }

  lemma OneByteBack(a: byte, w: sextet, x: sextet)
    requires w == a / 4 && x == a % 4 * 16
    ensures B0(w, x) == a && x % 16 == 0
  {
  }

  lemma OneByte(a: byte)
    ensures Decode(Tail1(a)) == Some([a])
  {
    var w: sextet, x: sextet := a / 4, a % 4 * 16;
    assert S1(a, 0) == x;
    assert Tail1(a) == [Char64(w), Char64(x)];
    OneByteBack(a, w, x);
    DecodeTwo(w, x);
  }

  lemma TwoBytes(a: byte, b: byte)
    ensures Decode(Tail2(a, b)) == Some([a, b])
  {
    BytesBack(a, b, 0);
    DecodeThree(S0(a), S1(a, b), S2(b, 0));
  }

  lemma ThreeBytes(a: byte, b: byte, c: byte, rest: seq<byte>)
    requires Decode(Encode(rest)) == Some(rest)
    ensures Decode(Group(a, b, c) + Encode(rest)) == Some([a, b, c] + rest)
  {
    BytesBack(a, b, c);
    DecodeFour(S0(a), S1(a, b), S2(b, c), S3(c), Encode(rest));
  }

  lemma ShortRoundTrip(b: seq<byte>)
    requires |b| <= 2
    ensures Decode(Encode(b)) == Some(b)
  {
    if |b| == 1 {
      OneByte(b[0]);
      assert [b[0]] == b;
    } else if |b| == 2 {
      TwoBytes(b[0], b[1]);
      assert [b[0], b[1]] == b;
    }
  }

  /** Decoding undoes encoding. */
  lemma {:induction false} DecodeEncode(b: seq<byte>)
    ensures Decode(Encode(b)) == Some(b)
  {
    if |b| <= 2 {
      ShortRoundTrip(b);
    } else {
      DecodeEncode(b[3..]);
      ThreeBytes(b[0], b[1], b[2], b[3..]);
      assert [b[0], b[1], b[2]] + b[3..] == b;
    }
  }

  lemma CharOfSextet(s: string, i: nat)
    requires i < |s| && InAlphabet(s[i])
    ensures s[i] == Char64(Sextet(s, i))
  {
    ValueChar(s[i]);
  }

  lemma DecodedInAlphabet(s: string, i: nat)
    requires Decode(s).Some? && i < |s| && i < 4
    ensures InAlphabet(s[i])
  {
    if |s| >= 4 {
      assert s[..4][i] == s[i];
    }
  }

  lemma EncodeOne(w: sextet, x: sextet)
    requires x % 16 == 0
    ensures Encode([B0(w, x)]) == [Char64(w), Char64(x)]
  {
    SextetsBack(w, x, 0, 0);
  }

  lemma EncodeTwo(w: sextet, x: sextet, y: sextet)
    requires y % 4 == 0
    ensures Encode([B0(w, x), B1(x, y)]) == [Char64(w), Char64(x), Char64(y)]
  {
    SextetsBack(w, x, y, 0);
  }

  lemma EncodeThree(w: sextet, x: sextet, y: sextet, z: sextet, rest: seq<byte>)
    ensures Encode([B0(w, x), B1(x, y), B2(y, z)] + rest) ==
            [Char64(w), Char64(x), Char64(y), Char64(z)] + Encode(rest)
  {
    SextetsBack(w, x, y, z);
    var b := [B0(w, x), B1(x, y), B2(y, z)] + rest;
    assert b[3..] == rest;
  }

  lemma CanonicalTail(s: string)
    requires Decode(s).Some? && 2 <= |s| <= 3
    requires forall i :: 0 <= i < |s| ==> s[i] == Char64(Sextet(s, i))
    ensures Encode(Decode(s).value) == s
  {
    if |s| == 2 {
      EncodeOne(Sextet(s, 0), Sextet(s, 1));
    } else {
      EncodeTwo(Sextet(s, 0), Sextet(s, 1), Sextet(s, 2));
    }
  }

  lemma {:induction false} CanonicalGroup(s: string)
    requires Decode(s).Some? && |s| >= 4 && Encode(Decode(s[4..]).value) == s[4..]
    requires forall i :: 0 <= i < 4 ==> s[i] == Char64(Sextet(s, i))
    ensures Encode(Decode(s).value) == s
  {
    EncodeThree(Sextet(s, 0), Sextet(s, 1), Sextet(s, 2), Sextet(s, 3), Decode(s[4..]).value);
    assert s == [s[0], s[1], s[2], s[3]] + s[4..];
  }

  /** The decoder accepts only canonical text: two texts with one meaning do not exist. */
  lemma {:induction false} EncodeDecode(s: string)
    requires Decode(s).Some?
    ensures Encode(Decode(s).value) == s
  {
    forall i | 0 <= i < |s| && i < 4 ensures s[i] == Char64(Sextet(s, i)) {
      DecodedInAlphabet(s, i);
      CharOfSextet(s, i);
    }
    if 2 <= |s| <= 3 {
      CanonicalTail(s);
    } else if |s| >= 4 {
      EncodeDecode(s[4..]);
      CanonicalGroup(s);
    }
  }
}
