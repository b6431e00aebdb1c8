/** HPACK prefix integers (section 5.1 of RFC 7541), as QPACK uses them. */
module PrefixInteger {
  import opened Bits
  import opened Outcome
  import opened Spans

  /** The largest value a prefix of `bits` bits can hold; it announces continuation bytes. */
  function Full(bits: nat): (m: nat)
    requires 1 <= bits <= 8
    ensures m == Pow2(bits) - 1
  {
    match bits
    case 1 => 1 case 2 => 3 case 3 => 7 case 4 => 15 case 5 => 31 case 6 => 63 case 7 => 127 case _ => 255
  }

  /**
   * Exceeds the prefix by less than 2^63; `IntegerRoundTrip` shows that these values are the ones a reader gets back.
   */
  ghost predicate Fits(value: nat, bits: nat)
    requires 1 <= bits <= 8
  {
    value < Pow2(bits) - 1 + Pow2(63)
  }

  // ---------------------------------------------------------------- what the bytes mean

  /** Continuation digits, least significant first. */
  function DigitsValue(s: seq<byte>): (v: nat) {
    if s == [] then 0 else s[0] % 128 + 128 * DigitsValue(s[1..])
  }

  /** At most nine digits, and exactly the last one has a clear top bit. */
  predicate IsDigits(s: seq<byte>) {
    1 <= |s| <= 9 && s[|s| - 1] < 128 && forall i :: 0 <= i < |s| - 1 ==> s[i] >= 128
  }

  /** `s` is one whole prefix integer, in shortest form or not. */
  predicate IsInteger(s: seq<byte>, bits: nat)
    requires 1 <= bits <= 8
  {
    |s| >= 1 && if s[0] % (Full(bits) + 1) < Full(bits) then |s| == 1 else IsDigits(s[1..])
  }

  function IntegerValue(s: seq<byte>, bits: nat): (v: nat)
    requires 1 <= bits <= 8 && IsInteger(s, bits)
  {
    if |s| == 1 then s[0] % (Full(bits) + 1) else Full(bits) + DigitsValue(s[1..])
  }

  lemma {:induction false} DigitsBound(s: seq<byte>)
    ensures DigitsValue(s) < Pow2(7 * |s|)
  {
    if s != [] {
      DigitsBound(s[1..]);
      Pow2Adds(7, 7 * |s[1..]|);
      Pow2Values();
    }
  }

  lemma {:induction false} DigitsSnoc(s: seq<byte>, x: byte)
    ensures DigitsValue(s + [x]) == DigitsValue(s) + (x % 128) * Pow2(7 * |s|)
  {
    if s == [] {
      assert s + [x] == [x] && [x][1..] == [];
    } else {
      DigitsSnoc(s[1..], x);
      assert (s + [x])[1..] == s[1..] + [x];
      Pow2Adds(7, 7 * |s[1..]|);
      Pow2Values();
      assert 128 * ((x % 128) * Pow2(7 * |s[1..]|)) == (x % 128) * Pow2(7 * |s|);
    }
  }

  /** Every accepted integer fits 64 bits. */
  lemma IntegerFits(s: seq<byte>, bits: nat)
    requires 1 <= bits <= 8 && IsInteger(s, bits)
    ensures IntegerValue(s, bits) < 0x8000_0000_0000_0100 < U64
  {
    if |s| > 1 { RunningSumFits(s[1..], bits); }
  }

  lemma NotLonger(a: seq<byte>, b: seq<byte>, bits: nat)
    requires 1 <= bits <= 8 && IsInteger(a, bits) && IsInteger(b, bits) && a <= b
    ensures a == b
  {
    if 1 < |a| < |b| { LastDigit(a, b); }
  }

  lemma LastDigit(a: seq<byte>, b: seq<byte>)
    requires a <= b && |a| > 1
    ensures b[1..][|a| - 2] == a[1..][|a| - 2]
  {
  }

  /** No integer is a proper prefix of another, so a reader knows where it ends. */
  lemma IntegerUnique(a: seq<byte>, b: seq<byte>, bits: nat, whole: seq<byte>)
    requires 1 <= bits <= 8 && IsInteger(a, bits) && IsInteger(b, bits)
    requires a <= whole && b <= whole
    ensures a == b
  {
    if |a| <= |b| { NotLonger(a, b, bits); } else { NotLonger(b, a, bits); }
  }

  // ---------------------------------------------------------------- decoder

  /** The full prefix at `pos` is followed by digits with a set top bit up to `p`. */
  ghost predicate Unfinished(buf: seq<byte>, pos: nat, p: nat, bits: nat)
    requires 1 <= bits <= 8
  {
    pos < p <= |buf| && buf[pos] % (Full(bits) + 1) == Full(bits) && forall i :: pos < i < p ==> buf[i] >= 128
  }

  /** The prefix integer at `pos` ends before `end` and has this value. */
  ghost predicate DecodesTo(buf: seq<byte>, pos: nat, bits: nat, value: nat, end: nat)
    requires 1 <= bits <= 8
  {
    pos < end <= |buf| && IsInteger(buf[pos..end], bits) && value == IntegerValue(buf[pos..end], bits) < U64
  }

  /** No prefix integer stands at `pos`. */
  ghost predicate NoInteger(buf: seq<byte>, pos: nat, bits: nat)
    requires 1 <= bits <= 8
  {
    forall p :: pos < p <= |buf| ==> !IsInteger(buf[pos..p], bits)
  }

  lemma Finish(buf: seq<byte>, pos: nat, p: nat, bits: nat, value: nat)
    requires 1 <= bits <= 8 && Unfinished(buf, pos, p, bits) && p < |buf| && buf[p] < 128 && p - pos <= 9
    requires value == Full(bits) + DigitsValue(buf[pos + 1..p + 1])
    ensures DecodesTo(buf, pos, bits, value, p + 1)
  {
    var s := buf[pos..p + 1];
    assert s[1..] == buf[pos + 1..p + 1] && IsDigits(s[1..]);
    IntegerFits(s, bits);
  }

  /**
   * The decoder's running sum fits 64 bits after any nine digits, whether or not the input turns out to be an
   * integer.
   */
  lemma RunningSumFits(digits: seq<byte>, bits: nat)
    requires 1 <= bits <= 8 && |digits| <= 9
    ensures Full(bits) + DigitsValue(digits) < 0x8000_0000_0000_0100 < U64
  {
    DigitsBound(digits);
    Pow2Mono(7 * |digits|, 63);
    Pow2Values();
  }

  lemma NeverFinished(buf: seq<byte>, pos: nat, p: nat, bits: nat)
    requires 1 <= bits <= 8 && Unfinished(buf, pos, p, bits) && (p == |buf| || p - pos == 10)
    ensures NoInteger(buf, pos, bits)
  {
    forall q | pos < q <= |buf| ensures !IsInteger(buf[pos..q], bits) {
      var s := buf[pos..q];
      assert |s| > 1 ==> s[1..][|s| - 2] == buf[q - 1];
    }
  }

  /** Reads with 64-bit arithmetic, which never wraps: on no input does the running sum leave 64 bits. */
  method DecodeInteger(buf: seq<byte>, pos: nat, bits: nat) returns (r: Result<(nat, nat)>)
    requires 1 <= bits <= 8
    ensures r.Ok? ==> DecodesTo(buf, pos, bits, r.value.0, r.value.1)
    ensures r.Err? ==> NoInteger(buf, pos, bits)
  {
    if pos >= |buf| { return Err; }
    var value := buf[pos] % (Full(bits) + 1);
    if value < Full(bits) {
      assert buf[pos..pos + 1] == [buf[pos]];
      return Ok((value, pos + 1));
    }
    r := DecodeDigits(buf, pos, bits, value);
  }

  /** The continuation digits behind a full prefix. */
  method DecodeDigits(buf: seq<byte>, pos: nat, bits: nat, start: nat) returns (r: Result<(nat, nat)>)
    requires 1 <= bits <= 8 && Unfinished(buf, pos, pos + 1, bits) && start == Full(bits)
    ensures r.Ok? ==> DecodesTo(buf, pos, bits, r.value.0, r.value.1)
    ensures r.Err? ==> NoInteger(buf, pos, bits)
  {
    var value, p, shift := start, pos + 1, 0;
    while true
      invariant Unfinished(buf, pos, p, bits) && shift == 7 * (p - pos - 1) <= 56
      invariant value == start + DigitsValue(buf[pos + 1..p]) < U64
      decreases |buf| - p
    {
      if p >= |buf| {
        NeverFinished(buf, pos, p, bits);
        return Err;
      }
      var x := buf[p];
      value := AddDigit(value, x, shift, buf, pos, p, bits);
      if x < 128 {
        Finish(buf, pos, p, bits, value);
        return Ok((value, p + 1));
      }
      p := p + 1;
      shift := shift + 7;
      if shift > 56 {
        NeverFinished(buf, pos, p, bits);
        return Err;
      }
    }
  }

  /** Adds the next digit modulo 2^64; the sum is the exact one. */
  method AddDigit(value: nat, x: byte, shift: nat, ghost buf: seq<byte>, ghost pos: nat, ghost p: nat, ghost bits: nat)
      returns (value': nat)
    requires 1 <= bits <= 8 && pos < p < |buf| && p - pos <= 9 && shift == 7 * (p - pos - 1) && x == buf[p]
    requires value == Full(bits) + DigitsValue(buf[pos + 1..p])
    ensures value' == Full(bits) + DigitsValue(buf[pos + 1..p + 1]) < U64
  {
    NextDigit(buf[pos + 1..p], x, bits);
    OneMore(buf, pos + 1, p);
    value' := (value + ((x % 128) * Pow2(shift)) % U64) % U64;
  }

  lemma OneMore(buf: seq<byte>, from: nat, p: nat)
    requires from <= p < |buf|
    ensures buf[from..p + 1] == buf[from..p] + [buf[p]]
  {
  }

  lemma NextDigit(digits: seq<byte>, x: byte, bits: nat)
    requires 1 <= bits <= 8 && |digits| <= 8
    ensures var value, term := Full(bits) + DigitsValue(digits), (x % 128) * Pow2(7 * |digits|);
            (value + term % U64) % U64 == Full(bits) + DigitsValue(digits + [x]) < U64
  {
    DigitsSnoc(digits, x);
    RunningSumFits(digits + [x], bits);
    NoWrap(Full(bits) + DigitsValue(digits), (x % 128) * Pow2(7 * |digits|));
  }

  lemma NoWrap(a: nat, b: nat)
    requires a + b < U64
    ensures (a + b % U64) % U64 == a + b
  {
  }

  // ---------------------------------------------------------------- encoder

  function Digits(v: nat): (s: seq<byte>) {
    if v < 128 then [v] else [128 + v % 128] + Digits(v / 128)
  }

  /** The shortest form of `value`, with the flag bits `high` above the prefix. */
  function IntegerBytes(value: nat, bits: nat, high: nat): (s: seq<byte>)
    requires 1 <= bits <= 8 && high + Full(bits) <= 255
  {
    if value < Full(bits) then [high + value] else [high + Full(bits)] + Digits(value - Full(bits))
  }

  method EncodeInteger(out: seq<byte>, value: nat, bits: nat, high: nat) returns (r: seq<byte>)
    requires 1 <= bits <= 8 && high + Full(bits) <= 255
    ensures r == out + IntegerBytes(value, bits, high)
  {
    var max := Full(bits);
    if value < max {
      r := out + [high + value];
    } else {
      r := out + [high + max];
      var rest: nat := value - max;
      ghost var all := r + Digits(rest);
      assert all == out + IntegerBytes(value, bits, high) by { Associates(out, [high + max], Digits(rest)); }
      while rest >= 128
        invariant r + Digits(rest) == all
      {
        OneDigit(r, rest);
        r := r + [128 + rest % 128];
        rest := rest / 128;
      }
      r := r + [rest];
    }
  }

  lemma OneDigit(r: seq<byte>, rest: nat)
    requires rest >= 128
    ensures (r + [128 + rest % 128]) + Digits(rest / 128) == r + Digits(rest)
  {
    Associates(r, [128 + rest % 128], Digits(rest / 128));
  }

  lemma {:induction false} DigitsSpell(v: nat)
    ensures DigitsValue(Digits(v)) == v
    ensures Digits(v)[|Digits(v)| - 1] < 128
    ensures forall i :: 0 <= i < |Digits(v)| - 1 ==> Digits(v)[i] >= 128
  {
    if v >= 128 {
      DigitsSpell(v / 128);
      assert Digits(v)[1..] == Digits(v / 128);
    }
  }

  /** `n` digits hold exactly the values of `7 * n` bits. */
  lemma {:induction false} DigitsLength(v: nat, n: nat)
    requires n >= 1
    ensures |Digits(v)| <= n <==> v < Pow2(7 * n)
  {
    Pow2Values();
    Pow2Mono(7, 7 * n);
    if v >= 128 && n > 1 {
      DigitsLength(v / 128, n - 1);
      Pow2Adds(7, 7 * (n - 1));
    }
  }

  lemma DigitsRoundTrip(v: nat)
    ensures DigitsValue(Digits(v)) == v
    ensures IsDigits(Digits(v)) <==> v < Pow2(63)
    ensures v >= Pow2(63) ==> |Digits(v)| >= 10 && forall i :: 0 <= i < 9 ==> Digits(v)[i] >= 128
  {
    DigitsSpell(v);
    DigitsLength(v, 9);
  }

  lemma LongForm(value: nat, bits: nat, high: nat)
    requires 1 <= bits <= 8 && high + Full(bits) <= 255 && high % (Full(bits) + 1) == 0 && value >= Full(bits)
    ensures var s := IntegerBytes(value, bits, high);
            && |s| > 1 && s[0] % (Full(bits) + 1) == Full(bits) && s[1..] == Digits(value - Full(bits))
  {
    LowBits(high, Full(bits), Full(bits) + 1);
    DigitsSpell(value - Full(bits));
  }

  lemma ShortReads(value: nat, bits: nat, high: nat)
    requires 1 <= bits <= 8 && high + Full(bits) <= 255 && high % (Full(bits) + 1) == 0 && value < Full(bits)
    ensures var s := IntegerBytes(value, bits, high); IsInteger(s, bits) && IntegerValue(s, bits) == value
  {
    LowBits(high, value, Full(bits) + 1);
  }

  lemma LongReads(s: seq<byte>, bits: nat, v: nat)
    requires 1 <= bits <= 8 && |s| > 1 && s[0] % (Full(bits) + 1) == Full(bits) && s[1..] == Digits(v)
    ensures IsInteger(s, bits) <==> v < Pow2(63)
    ensures IsInteger(s, bits) ==> IntegerValue(s, bits) == Full(bits) + v
  {
    DigitsRoundTrip(v);
  }

  /** An encoded integer is read back exactly when it exceeds the prefix by less than 2^63. */
  lemma IntegerRoundTrip(value: nat, bits: nat, high: nat)
    requires 1 <= bits <= 8 && high + Pow2(bits) <= 256 && high % Pow2(bits) == 0
    ensures var s := IntegerBytes(value, bits, high);
            && (IsInteger(s, bits) <==> Fits(value, bits))
            && (IsInteger(s, bits) ==> IntegerValue(s, bits) == value)
  {
    if value < Full(bits) {
      ShortReads(value, bits, high);
    } else {
      LongForm(value, bits, high);
      LongReads(IntegerBytes(value, bits, high), bits, value - Full(bits));
    }
  }

  lemma LowBits(high: nat, low: nat, p: nat)
    requires p > 0 && high % p == 0 && low < p
    ensures (high + low) % p == low
  {
    QuotientRemainder(high + low, high / p, low, p);
  }

  /** A larger value is rejected wherever it stands and whatever follows it. */
  lemma TooLarge(value: nat, bits: nat, high: nat, rest: seq<byte>, p: nat)
    requires 1 <= bits <= 8 && high + Full(bits) <= 255 && high % (Full(bits) + 1) == 0
    requires !Fits(value, bits)
    requires p <= |IntegerBytes(value, bits, high) + rest|
    ensures !IsInteger((IntegerBytes(value, bits, high) + rest)[..p], bits)
  {
    var s := IntegerBytes(value, bits, high);
    LongForm(value, bits, high);
    DigitsRoundTrip(value - Full(bits));
    StartsHigh(s, rest, p, bits);
  }

  lemma StartsHigh(s: seq<byte>, rest: seq<byte>, p: nat, bits: nat)
    requires 1 <= bits <= 8 && |s| >= 11 && s[0] % (Full(bits) + 1) == Full(bits) && p <= |s + rest|
    requires forall i :: 0 <= i < 9 ==> s[1..][i] >= 128
    ensures !IsInteger((s + rest)[..p], bits)
  {
    var t := (s + rest)[..p];
    assert p > 0 ==> t[0] == s[0];
    assert forall i :: 0 <= i < 9 && i + 1 < p ==> t[1..][i] == s[1..][i];
  }
}
