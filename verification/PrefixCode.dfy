/**
 * Decoding a bit stream with a bit accumulator, for any table that is a complete
 * prefix code of at most 30 bits ending in an all-ones end-of-string code.
 * `Huffman` shows that the static table of RFC 7541 is such a table.
 */
module PrefixCode {
  import opened Bits
  import opened Outcome
  import opened Spans

  datatype Code = Code(value: nat, len: nat)

  const EOS: nat := 256
  const MAX_LEN: nat := 30

  /** The first `c.len` bits of `b` are the code `c`. */
  ghost predicate Starts(c: Code, b: seq<bool>) {
    c.len <= |b| && Val(b[..c.len]) == c.value
  }

  ghost predicate Exclusive(t: seq<Code>) {
    forall i, j, b :: 0 <= i < |t| && 0 <= j < |t| && Starts(t[i], b) && Starts(t[j], b) ==> i == j
  }

  ghost predicate HasCode(t: seq<Code>, b: seq<bool>) {
    exists i :: 0 <= i < |t| && Starts(t[i], b)
  }

  ghost predicate Complete(t: seq<Code>) {
    forall b: seq<bool> {:trigger HasCode(t, b)} :: |b| >= MAX_LEN ==> HasCode(t, b)
  }

  ghost predicate CompletePrefixCode(t: seq<Code>) {
    && |t| == 257
    && (forall i :: 0 <= i < |t| ==> 0 < t[i].len <= MAX_LEN && t[i].value < Pow2(t[i].len))
    && t[EOS] == Code(Pow2(MAX_LEN) - 1, MAX_LEN)
    && Exclusive(t)
    && Complete(t)
  }

  // ---------------------------------------------------------------- reference encoder

  function CodeBits(c: Code): (b: seq<bool>)
    ensures |b| == c.len
  {
    ToBits(c.value, c.len)
  }

  function TextBits(t: seq<Code>, s: seq<byte>): (b: seq<bool>)
    requires |t| == 257
  {
    if s == [] then [] else CodeBits(t[s[0]]) + TextBits(t, s[1..])
  }

  /** The number of one-bits that fill the last byte. */
  function Padding(n: nat): (k: nat)
    ensures k < 8 && (n + k) % 8 == 0
  {
    (8 - n % 8) % 8
  }

  /** Section 5.2 of RFC 7541: concatenated codes, padded with the leading bits of EOS. */
  function Encode(t: seq<Code>, s: seq<byte>): (raw: seq<byte>)
    requires |t| == 257
  {
    var b := TextBits(t, s);
    Pack(b + Ones(Padding(|b|)))
  }

  // ---------------------------------------------------------------- prefix reasoning

  lemma CodeStarts(c: Code, rest: seq<bool>)
    requires c.value < Pow2(c.len)
    ensures Starts(c, CodeBits(c) + rest)
  {
    ValOfToBits(c.value, c.len);
    assert (CodeBits(c) + rest)[..c.len] == CodeBits(c);
  }

  lemma StartsSplit(c: Code, b: seq<bool>)
    requires Starts(c, b)
    ensures b == CodeBits(c) + b[c.len..]
  {
    ToBitsOfVal(b[..c.len]);
  }

  /** Fewer than 30 one-bits are a proper prefix of EOS, so no code starts them. */
  lemma NoCodeInOnes(t: seq<Code>, k: nat, i: nat)
    requires CompletePrefixCode(t) && i < |t| && k < MAX_LEN
    ensures !Starts(t[i], Ones(k))
  {
    var all := Ones(MAX_LEN);
    ValOfOnes(MAX_LEN);
    assert all[..MAX_LEN] == all;
    assert Starts(t[EOS], all);
    assert t[i].len <= k ==> all[..t[i].len] == Ones(k)[..t[i].len];
  }

  lemma {:induction false} TextBitsSnoc(t: seq<Code>, s: seq<byte>, x: byte)
    requires |t| == 257
    ensures TextBits(t, s + [x]) == TextBits(t, s) + CodeBits(t[x])
  {
    if s == [] {
      assert s + [x] == [x] && [x][1..] == [];
    } else {
      TextBitsSnoc(t, s[1..], x);
      assert (s + [x])[1..] == s[1..] + [x];
      Associates(CodeBits(t[s[0]]), TextBits(t, s[1..]), CodeBits(t[x]));
    }
  }

  /** A non-empty text starts with the code of its first symbol. */
  lemma FirstCode(t: seq<Code>, s: seq<byte>, x: seq<bool>)
    requires CompletePrefixCode(t) && s != []
    ensures TextBits(t, s) + x == CodeBits(t[s[0]]) + (TextBits(t, s[1..]) + x)
    ensures Starts(t[s[0]], TextBits(t, s) + x)
  {
    Associates(CodeBits(t[s[0]]), TextBits(t, s[1..]), x);
    CodeStarts(t[s[0]], TextBits(t, s[1..]) + x);
  }

  /**
   * Synchronisation: if the codes of `o` followed by `x` are also the codes of `s`
   * followed by padding, then `o` is a prefix of `s` and `x` holds the rest.
   */
  lemma {:induction false} Aligned(t: seq<Code>, o: seq<byte>, x: seq<bool>, s: seq<byte>, k: nat)
    requires CompletePrefixCode(t) && k < 8
    requires TextBits(t, o) + x == TextBits(t, s) + Ones(k)
    ensures o <= s && x == TextBits(t, s[|o|..]) + Ones(k)
  {
    if o == [] {
      assert s[|o|..] == s;
      assert TextBits(t, o) + x == x;
    } else {
      FirstCode(t, o, x);
      if s == [] {
        assert TextBits(t, s) + Ones(k) == Ones(k);
        NoCodeInOnes(t, k, o[0]);
        assert false;
      } else {
        FirstCode(t, s, Ones(k));
        assert o[0] == s[0];
        Cancel(CodeBits(t[s[0]]), TextBits(t, o[1..]) + x, TextBits(t, s[1..]) + Ones(k));
        Aligned(t, o[1..], x, s[1..], k);
        assert s[1..][|o[1..]|..] == s[|o|..];
        assert s == [s[0]] + s[1..] && o == [o[0]] + o[1..];
      }
    }
  }

  lemma EncodeInjective(t: seq<Code>, s1: seq<byte>, s2: seq<byte>)
    requires CompletePrefixCode(t) && Encode(t, s1) == Encode(t, s2)
    ensures s1 == s2
  {
    EncodeIsBits(t, Encode(t, s1), s1);
    EncodeIsBits(t, Encode(t, s1), s2);
    var k1 :| 0 <= k1 < 8 && Unpack(Encode(t, s1)) == TextBits(t, s1) + Ones(k1);
    var k2 :| 0 <= k2 < 8 && Unpack(Encode(t, s1)) == TextBits(t, s2) + Ones(k2);
    Aligned(t, s1, Ones(k1), s2, k2);
    Aligned(t, s2, Ones(k2), s1, k1);
  }

  // ---------------------------------------------------------------- decoder

  /** A drained accumulator holds at most 29 bits. */
  lemma DrainedIsShort(t: seq<Code>, b: seq<bool>)
    requires CompletePrefixCode(t) && !HasCode(t, b)
    ensures |b| < MAX_LEN
  {
  }

  /** What the accumulator means: `nbits` pending bits with value `acc`. */
  ghost predicate Holds(acc: nat, nbits: nat, b: seq<bool>) {
    nbits == |b| && acc == Val(b)
  }

  /** The shift-and-mask test of one table entry reads exactly the leading bits. */
  lemma CandidateIsPrefix(c: Code, acc: nat, nbits: nat, b: seq<bool>)
    requires Holds(acc, nbits, b) && c.len <= nbits
    ensures ((acc / Pow2(nbits - c.len)) % Pow2(c.len) == c.value) <==> Starts(c, b)
  {
    ShiftAndMask(b, c.len);
    var v := Val(b[..c.len]);
    QuotientRemainder(v, 0, v, Pow2(c.len));
  }

  method MatchSymbol(t: seq<Code>, acc: nat, nbits: nat, ghost b: seq<bool>) returns (m: Result<(nat, nat)>)
    requires Holds(acc, nbits, b)
    ensures m.Ok? ==> m.value.0 < |t| && Starts(t[m.value.0], b) && m.value.1 == t[m.value.0].len
    ensures m.Err? ==> !HasCode(t, b)
  {
    for sym := 0 to |t|
      invariant forall i :: 0 <= i < sym ==> !Starts(t[i], b)
    {
      var c := t[sym];
      if c.len <= nbits {
        CandidateIsPrefix(c, acc, nbits, b);
        if (acc / Pow2(nbits - c.len)) % Pow2(c.len) == c.value {
          return Ok((sym, c.len));
        }
      }
    }
    return Err;
  }

  lemma Append(t: seq<Code>, out: seq<byte>, sym: byte, b: seq<bool>)
    requires |t| == 257 && Starts(t[sym], b)
    ensures TextBits(t, out) + b == TextBits(t, out + [sym]) + b[t[sym].len..]
  {
    StartsSplit(t[sym], b);
    TextBitsSnoc(t, out, sym);
    Associates(TextBits(t, out), CodeBits(t[sym]), b[t[sym].len..]);
  }

  /** Shifting a byte into a drained accumulator loses no bit of the 64. */
  lemma ShiftIn(acc: nat, nbits: nat, x: byte, b: seq<bool>)
    requires Holds(acc, nbits, b) && nbits < MAX_LEN
    ensures Holds((acc * 256) % U64 + x, nbits + 8, b + ToBits(x, 8))
  {
    assert (acc * 256) % U64 == acc * 256 by {
      Pow2Mono(nbits, MAX_LEN);
      Pow2Values();
    }
    assert Pow2(8) == 256;
    ValConcat(b, ToBits(x, 8));
    ValOfToBits(x, 8);
  }

  /** A decoded end-of-string code means no text encodes to this stream. */
  lemma EosRejected(t: seq<Code>, out: seq<byte>, b: seq<bool>, rest: seq<bool>, s: seq<byte>, k: nat)
    requires CompletePrefixCode(t) && k < 8 && Starts(t[EOS], b)
    ensures TextBits(t, out) + (b + rest) != TextBits(t, s) + Ones(k)
  {
    if TextBits(t, out) + (b + rest) == TextBits(t, s) + Ones(k) {
      Aligned(t, out, b + rest, s, k);
      var s' := s[|out|..];
      assert (b + rest)[..t[EOS].len] == b[..t[EOS].len];
      assert Starts(t[EOS], b + rest);
      if s' != [] {
        FirstCode(t, s', Ones(k));
      }
      assert false;
    }
  }

  /** With nothing left to match, only fewer than eight one-bits complete an encoding. */
  lemma TailRejected(t: seq<Code>, out: seq<byte>, b: seq<bool>, s: seq<byte>, k: nat)
    requires CompletePrefixCode(t) && k < 8 && !HasCode(t, b)
    requires TextBits(t, out) + b == TextBits(t, s) + Ones(k)
    ensures s == out && b == Ones(k)
  {
    Aligned(t, out, b, s, k);
    var s' := s[|out|..];
    if s' != [] {
      FirstCode(t, s', Ones(k));
      assert false;
    }
    assert s == out + s';
    assert TextBits(t, []) + Ones(k) == Ones(k);
  }

  lemma PaddingUnique(n: nat, k: nat)
    requires k < 8 && (n + k) % 8 == 0
    ensures k == Padding(n)
  {
    assert (k - Padding(n)) % 8 == 0;
  }

  lemma EncodeToBits(t: seq<Code>, s: seq<byte>)
    requires |t| == 257
    ensures exists k :: 0 <= k < 8 && Unpack(Encode(t, s)) == TextBits(t, s) + Ones(k)
  {
    var b := TextBits(t, s);
    UnpackOfPack(b + Ones(Padding(|b|)));
  }

  lemma BitsToEncode(t: seq<Code>, raw: seq<byte>, s: seq<byte>, k: nat)
    requires |t| == 257 && k < 8 && Unpack(raw) == TextBits(t, s) + Ones(k)
    ensures raw == Encode(t, s)
  {
    PaddingUnique(|TextBits(t, s)|, k);
    PackOfUnpack(raw);
  }

  /** `raw` is an encoding of `s` exactly when its bits are the codes of `s` and short padding. */
  lemma EncodeIsBits(t: seq<Code>, raw: seq<byte>, s: seq<byte>)
    requires |t| == 257
    ensures raw == Encode(t, s) <==> exists k :: 0 <= k < 8 && Unpack(raw) == TextBits(t, s) + Ones(k)
  {
    EncodeToBits(t, s);
    forall k | 0 <= k < 8 && Unpack(raw) == TextBits(t, s) + Ones(k) ensures raw == Encode(t, s) {
      BitsToEncode(t, raw, s, k);
    }
  }

  /** Whether the `nbits` low bits of `acc` are all ones. */
  lemma OnesTest(acc: nat, nbits: nat, b: seq<bool>)
    requires Holds(acc, nbits, b)
    ensures acc % Pow2(nbits) == Pow2(nbits) - 1 <==> b == Ones(nbits)
  {
    ValOfOnes(nbits);
    QuotientRemainder(acc, 0, acc, Pow2(nbits));
    if acc == Pow2(nbits) - 1 { ValInjective(b, Ones(nbits)); }
  }

  /** Both error exits at the end of input, and the success exit, against every candidate text. */
  lemma EndOfInput(t: seq<Code>, raw: seq<byte>, out: seq<byte>, b: seq<bool>)
    requires CompletePrefixCode(t) && !HasCode(t, b) && Unpack(raw) == TextBits(t, out) + b
    ensures forall s :: raw == Encode(t, s) <==> s == out && |b| < 8 && b == Ones(|b|)
  {
    forall s ensures raw == Encode(t, s) <==> s == out && |b| < 8 && b == Ones(|b|) {
      EncodeIsBits(t, raw, s);
      if k :| 0 <= k < 8 && Unpack(raw) == TextBits(t, s) + Ones(k) {
        TailRejected(t, out, b, s, k);
      }
    }
  }

  lemma EosInInput(t: seq<Code>, raw: seq<byte>, out: seq<byte>, b: seq<bool>, rest: seq<bool>)
    requires CompletePrefixCode(t) && Starts(t[EOS], b) && Unpack(raw) == TextBits(t, out) + (b + rest)
    ensures forall s :: raw != Encode(t, s)
  {
    forall s ensures raw != Encode(t, s) {
      EncodeIsBits(t, raw, s);
      if k :| 0 <= k < 8 && Unpack(raw) == TextBits(t, s) + Ones(k) {
        EosRejected(t, out, b, rest, s, k);
      }
    }
  }

  /** Unpacking byte by byte. */
  lemma UnpackPrefix(raw: seq<byte>, i: nat)
    requires i < |raw|
    ensures Unpack(raw[..i + 1]) == Unpack(raw[..i]) + ToBits(raw[i], 8)
  {
    assert raw[..i + 1][..i] == raw[..i];
  }

  lemma {:induction false} UnpackSplit(raw: seq<byte>, i: nat)
    requires i <= |raw|
    ensures Unpack(raw[..i]) <= Unpack(raw)
    decreases |raw| - i
  {
    if i < |raw| {
      UnpackPrefix(raw, i);
      UnpackSplit(raw, i + 1);
    } else {
      assert raw[..i] == raw;
    }
  }

  /** After `n` bytes: the text so far and the pending bits account for every bit read. */
  ghost predicate Progress(t: seq<Code>, raw: seq<byte>, n: nat, out: seq<byte>, acc: nat, nbits: nat, b: seq<bool>) {
    |t| == 257 && n <= |raw| && Holds(acc, nbits, b) && Unpack(raw[..n]) == TextBits(t, out) + b
  }

  lemma ByteStep(t: seq<Code>, raw: seq<byte>, n: nat, out: seq<byte>, acc: nat, nbits: nat, b: seq<bool>)
    requires Progress(t, raw, n, out, acc, nbits, b) && n < |raw| && nbits < MAX_LEN
    ensures Progress(t, raw, n + 1, out, (acc * 256) % U64 + raw[n], nbits + 8, b + ToBits(raw[n], 8))
  {
    ShiftIn(acc, nbits, raw[n], b);
    UnpackPrefix(raw, n);
    Associates(TextBits(t, out), b, ToBits(raw[n], 8));
  }

  lemma SymbolStep(t: seq<Code>, raw: seq<byte>, n: nat, out: seq<byte>, acc: nat, nbits: nat, b: seq<bool>, sym: byte)
    requires Progress(t, raw, n, out, acc, nbits, b) && Starts(t[sym], b)
    ensures var left := nbits - t[sym].len;
            Progress(t, raw, n, out + [sym], acc % Pow2(left), left, b[t[sym].len..])
  {
    Append(t, out, sym, b);
    ShiftAndMask(b, t[sym].len);
  }

  lemma EosStep(t: seq<Code>, raw: seq<byte>, n: nat, out: seq<byte>, acc: nat, nbits: nat, b: seq<bool>)
    requires Progress(t, raw, n, out, acc, nbits, b) && CompletePrefixCode(t) && Starts(t[EOS], b)
    ensures forall s :: raw != Encode(t, s)
  {
    UnpackSplit(raw, n);
    var rest := Unpack(raw)[|Unpack(raw[..n])|..];
    Associates(TextBits(t, out), b, rest);
    EosInInput(t, raw, out, b, rest);
  }

  /** What is left at the end must be fewer than eight one-bits. */
  method CheckPadding(t: seq<Code>, raw: seq<byte>, out: seq<byte>, acc: nat, nbits: nat, ghost b: seq<bool>)
      returns (r: Result<seq<byte>>)
    requires CompletePrefixCode(t) && Progress(t, raw, |raw|, out, acc, nbits, b) && !HasCode(t, b)
    ensures forall s :: r == Ok(s) <==> raw == Encode(t, s)
  {
    assert raw[..|raw|] == raw;
    EndOfInput(t, raw, out, b);
    if nbits >= 8 { return Err; }
    if nbits > 0 {
      OnesTest(acc, nbits, b);
      if acc % Pow2(nbits) != Pow2(nbits) - 1 { return Err; }
    }
    return Ok(out);
  }

  /** Takes whole codes off the accumulator until none is left; the EOS code ends it. */
  method Drain(t: seq<Code>, ghost raw: seq<byte>, ghost n: nat, out: seq<byte>, acc: nat, nbits: nat,
               ghost b: seq<bool>)
      returns (ok: bool, out': seq<byte>, acc': nat, nbits': nat, ghost b': seq<bool>)
    requires CompletePrefixCode(t) && Progress(t, raw, n, out, acc, nbits, b) && nbits <= 37
    ensures ok ==> Progress(t, raw, n, out', acc', nbits', b') && !HasCode(t, b')
    ensures !ok ==> forall s :: raw != Encode(t, s)
  {
    ok, out', acc', nbits', b' := true, out, acc, nbits, b;
    while true
      invariant ok && Progress(t, raw, n, out', acc', nbits', b') && nbits' <= 37
      decreases nbits'
    {
      var m := MatchSymbol(t, acc', nbits', b');
      if m.Err? { return; }
      var (sym, len) := m.value;
      if sym == EOS {
        EosStep(t, raw, n, out', acc', nbits', b');
        ok := false;
        return;
      }
      SymbolStep(t, raw, n, out', acc', nbits', b', sym);
      out', nbits', b' := out' + [sym], nbits' - len, b'[len..];
      acc' := acc' % Pow2(nbits');
    }
  }

  /** Decodes exactly what the table can encode, and refuses every other byte string. */
  method Decode(t: seq<Code>, raw: seq<byte>) returns (r: Result<seq<byte>>)
    requires CompletePrefixCode(t)
    ensures forall s :: r == Ok(s) <==> raw == Encode(t, s)
  {
    var out: seq<byte>, acc: nat, nbits: nat := [], 0, 0;
    ghost var b: seq<bool> := [];
    for i := 0 to |raw|
      invariant Progress(t, raw, i, out, acc, nbits, b) && !HasCode(t, b)
    {
      DrainedIsShort(t, b);
      ByteStep(t, raw, i, out, acc, nbits, b);
      acc, nbits, b := (acc * 256) % U64 + raw[i], nbits + 8, b + ToBits(raw[i], 8);
      var ok;
      ok, out, acc, nbits, b := Drain(t, raw, i + 1, out, acc, nbits, b);
      if !ok { return Err; }
    }
    r := CheckPadding(t, raw, out, acc, nbits, b);
  }
}
