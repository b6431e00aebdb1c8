/** Well-formed UTF-8, the test of `String::from_utf8`, against the encoder of section 3 of RFC 3629. */
module Utf8 {
  import opened Bits

  predicate Tail(x: byte) {
    0x80 <= x <= 0xBF
  }

  /** The length of the well-formed character at the head of `s`, or 0. */
  function HeadLength(s: seq<byte>): (n: nat)
    ensures n <= |s|
  {
    if |s| >= 1 && s[0] <= 0x7F then 1
    else if |s| >= 2 && 0xC2 <= s[0] <= 0xDF && Tail(s[1]) then 2
    else if |s| >= 3 && 0xE0 <= s[0] <= 0xEF && Tail(s[1]) && Tail(s[2])
            && (s[0] == 0xE0 ==> s[1] >= 0xA0) && (s[0] == 0xED ==> s[1] <= 0x9F) then 3
    else if |s| >= 4 && 0xF0 <= s[0] <= 0xF4 && Tail(s[1]) && Tail(s[2]) && Tail(s[3])
            && (s[0] == 0xF0 ==> s[1] >= 0x90) && (s[0] == 0xF4 ==> s[1] <= 0x8F) then 4
    else 0
  }

  predicate Valid(s: seq<byte>) {
    s == [] || (HeadLength(s) > 0 && Valid(s[HeadLength(s)..]))
  }

  // ---------------------------------------------------------------- the encoder

  /** Code points except the surrogates. */
  type Scalar = c: int | 0 <= c < 0xD800 || 0xE000 <= c <= 0x10FFFF

  function Encode(c: Scalar): (s: seq<byte>)
    ensures |s| >= 1
  {
    if c < 0x80 then [c]
    else if c < 0x800 then [0xC0 + c / 64, 0x80 + c % 64]
    else if c < 0x1_0000 then [0xE0 + c / 4096, 0x80 + c / 64 % 64, 0x80 + c % 64]
    else [0xF0 + c / 262144, 0x80 + c / 4096 % 64, 0x80 + c / 64 % 64, 0x80 + c % 64]
  }

  function EncodeAll(cs: seq<Scalar>): (s: seq<byte>) {
    if cs == [] then [] else Encode(cs[0]) + EncodeAll(cs[1..])
  }

  lemma HeadOfEncoded(c: Scalar, rest: seq<byte>)
    ensures HeadLength(Encode(c) + rest) == |Encode(c)|
  {
    var s := Encode(c) + rest;
    assert s[..|Encode(c)|] == Encode(c);
  }

  lemma {:induction false} EncodedIsValid(cs: seq<Scalar>)
    ensures Valid(EncodeAll(cs))
  {
    if cs != [] {
      EncodedIsValid(cs[1..]);
      HeadOfEncoded(cs[0], EncodeAll(cs[1..]));
      assert EncodeAll(cs)[|Encode(cs[0])|..] == EncodeAll(cs[1..]);
    }
  }

  lemma TwoBytes(x: int, y: int) returns (c: Scalar)
    requires 2 <= x < 32 && 0 <= y < 64
    ensures Encode(c) == [0xC0 + x, 0x80 + y]
  {
    c := 64 * x + y;
  }

  lemma ThreeBytes(x: int, y: int, z: int) returns (c: Scalar)
    requires 0 <= x < 16 && 0 <= y < 64 && 0 <= z < 64 && (x == 0 ==> y >= 32) && (x == 13 ==> y < 32)
    ensures Encode(c) == [0xE0 + x, 0x80 + y, 0x80 + z]
  {
    c := 64 * (64 * x + y) + z;
    assert c / 64 == 64 * x + y;
  }

  lemma FourBytes(w: int, x: int, y: int, z: int) returns (c: Scalar)
    requires 0 <= w < 5 && 0 <= x < 64 && 0 <= y < 64 && 0 <= z < 64 && (w == 0 ==> x >= 16) && (w == 4 ==> x < 16)
    ensures Encode(c) == [0xF0 + w, 0x80 + x, 0x80 + y, 0x80 + z]
  {
    c := 64 * (64 * (64 * w + x) + y) + z;
    assert c / 64 == 64 * (64 * w + x) + y;
    assert c / 4096 == 64 * w + x;
  }

  lemma HeadDecodes(s: seq<byte>) returns (c: Scalar)
    requires HeadLength(s) > 0
    ensures Encode(c) == s[..HeadLength(s)]
  {
    match HeadLength(s)
    case 1 => c := s[0];
    case 2 => c := TwoBytes(s[0] - 0xC0, s[1] - 0x80);
    case 3 => c := ThreeBytes(s[0] - 0xE0, s[1] - 0x80, s[2] - 0x80);
    case _ => c := FourBytes(s[0] - 0xF0, s[1] - 0x80, s[2] - 0x80, s[3] - 0x80);
  }

  lemma {:induction false} ValidDecodes(s: seq<byte>) returns (cs: seq<Scalar>)
    requires Valid(s)
    ensures EncodeAll(cs) == s
    decreases |s|
  {
    cs := [];
    if s != [] {
      var c := HeadDecodes(s);
      var rest := ValidDecodes(s[HeadLength(s)..]);
      cs := [c] + rest;
      assert cs[1..] == rest;
    }
  }

  /** A byte string is accepted exactly when it is the encoding of some characters. */
  lemma ValidIffEncoded(s: seq<byte>)
    ensures Valid(s) <==> exists cs :: EncodeAll(cs) == s
  {
    if Valid(s) { var cs := ValidDecodes(s); }
    if cs :| EncodeAll(cs) == s { EncodedIsValid(cs); }
  }
}
