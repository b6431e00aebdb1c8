/** Bytes, bit strings and their numeric values, most significant bit first. */
module Bits {

  type byte = x: int | 0 <= x < 256

  /** One more than the largest 64-bit value. */
  const U64: nat := 0x1_0000_0000_0000_0000

  function Pow2(n: nat): (r: nat)
    ensures r > 0
  {
    if n == 0 then 1 else 2 * Pow2(n - 1)
  }

  lemma {:induction false} Pow2Adds(a: nat, b: nat)
    ensures Pow2(a + b) == Pow2(a) * Pow2(b)
  {
    if a == 0 {
    } else {
      Pow2Adds(a - 1, b);
      assert Pow2(a + b) == 2 * Pow2((a - 1) + b);
    }
  }

  lemma {:induction false} Pow2Mono(a: nat, b: nat)
    requires a <= b
    ensures Pow2(a) <= Pow2(b)
  {
    if a < b { Pow2Mono(a, b - 1); }
  }

  lemma Pow2Values()
    ensures Pow2(7) == 128 && Pow2(8) == 256 && Pow2(14) == 0x4000 && Pow2(16) == 0x1_0000
    ensures Pow2(30) == 0x4000_0000 && Pow2(32) == 0x1_0000_0000
    ensures Pow2(63) == 0x8000_0000_0000_0000
  {
    assert Pow2(7) == 128;
    assert Pow2(8) == 2 * Pow2(7);
    assert Pow2(14) == 128 * 128 by { Pow2Adds(7, 7); }
    assert Pow2(16) == 256 * 256 by { Pow2Adds(8, 8); }
    assert Pow2(30) == 0x4000 * 0x1_0000 by { Pow2Adds(14, 16); }
    assert Pow2(32) == 0x1_0000 * 0x1_0000 by { Pow2Adds(16, 16); }
    assert Pow2(62) == 0x4000_0000 * 0x1_0000_0000 by { Pow2Adds(30, 32); }
    assert Pow2(63) == 2 * Pow2(62);
  }

  /** The number written by a bit string. */
  function Val(b: seq<bool>): (v: nat)
    ensures v < Pow2(|b|)
  {
    if b == [] then 0 else 2 * Val(b[..|b| - 1]) + (if b[|b| - 1] then 1 else 0)
  }

  /** The low `n` bits of `v`. */
  function ToBits(v: nat, n: nat): (b: seq<bool>)
    ensures |b| == n
  {
    if n == 0 then [] else ToBits(v / 2, n - 1) + [v % 2 == 1]
  }

  lemma {:induction false} ValOfToBits(v: nat, n: nat)
    requires v < Pow2(n)
    ensures Val(ToBits(v, n)) == v
  {
    if n > 0 {
      ValOfToBits(v / 2, n - 1);
      var b := ToBits(v, n);
      assert b[..|b| - 1] == ToBits(v / 2, n - 1);
    }
  }

  lemma {:induction false} ToBitsOfVal(b: seq<bool>)
    ensures ToBits(Val(b), |b|) == b
  {
    if b != [] {
      ToBitsOfVal(b[..|b| - 1]);
      assert Val(b) / 2 == Val(b[..|b| - 1]);
    }
  }

  lemma ValInjective(a: seq<bool>, b: seq<bool>)
    requires |a| == |b| && Val(a) == Val(b)
    ensures a == b
  {
    ToBitsOfVal(a);
    ToBitsOfVal(b);
  }

  lemma Doubled(x: int, p: int)
    ensures x * (2 * p) == 2 * (x * p)
  {
  }

  lemma {:induction false} ValConcat(a: seq<bool>, b: seq<bool>)
    ensures Val(a + b) == Val(a) * Pow2(|b|) + Val(b)
  {
    if b == [] {
      assert a + b == a;
    } else {
      var b' := b[..|b| - 1];
      var last := if b[|b| - 1] then 1 else 0;
      ValConcat(a, b');
      assert (a + b)[..|a + b| - 1] == a + b';
      assert Val(a + b) == 2 * Val(a + b') + last;
      Doubled(Val(a), Pow2(|b'|));
    }
  }

  /** Shifting right by `|b| - k` reads the first `k` bits; masking keeps the last ones. */
  lemma ShiftAndMask(b: seq<bool>, k: nat)
    requires k <= |b|
    ensures Val(b) / Pow2(|b| - k) == Val(b[..k])
    ensures Val(b) % Pow2(|b| - k) == Val(b[k..])
  {
    var p := Pow2(|b| - k);
    assert b == b[..k] + b[k..];
    ValConcat(b[..k], b[k..]);
    QuotientRemainder(Val(b), Val(b[..k]), Val(b[k..]), p);
  }

  lemma QuotientRemainder(v: int, q: int, r: int, p: int)
    requires p > 0 && v == q * p + r && 0 <= r < p
    ensures v / p == q && v % p == r
  {
    var q', r' := v / p, v % p;
    assert v == q' * p + r';
    assert (q - q') * p == r' - r;
    assert q - q' >= 1 ==> (q - q') * p >= p;
    assert q - q' <= -1 ==> (q - q') * p <= -p;
  }

  function Ones(n: nat): (b: seq<bool>)
    ensures |b| == n
  {
    seq(n, _ => true)
  }

  lemma {:induction false} ValOfOnes(n: nat)
    ensures Val(Ones(n)) == Pow2(n) - 1
  {
    if n > 0 {
      ValOfOnes(n - 1);
      assert Ones(n)[..n - 1] == Ones(n - 1);
    }
  }

  /** The bits of a byte string, in transmission order. */
  function Unpack(s: seq<byte>): (b: seq<bool>)
    ensures |b| == 8 * |s| && |b| % 8 == 0
  {
    if s == [] then [] else Unpack(s[..|s| - 1]) + ToBits(s[|s| - 1], 8)
  }

  function Pack(b: seq<bool>): (s: seq<byte>)
    requires |b| % 8 == 0
    ensures 8 * |s| == |b|
  {
    if b == [] then [] else
      assert Pow2(8) == 256;
      Pack(b[..|b| - 8]) + [Val(b[|b| - 8..])]
  }

  lemma PackSnoc(b: seq<bool>, octet: seq<bool>)
    requires |b| % 8 == 0 && |octet| == 8
    ensures Pack(b + octet) == Pack(b) + [Val(octet)]
  {
    var all := b + octet;
    assert all[..|all| - 8] == b && all[|all| - 8..] == octet;
  }

  lemma UnpackSnoc(s: seq<byte>, x: byte)
    ensures Unpack(s + [x]) == Unpack(s) + ToBits(x, 8)
  {
    assert (s + [x])[..|s|] == s;
  }

  lemma {:induction false} UnpackOfPack(b: seq<bool>)
    requires |b| % 8 == 0
    ensures Unpack(Pack(b)) == b
  {
    if b != [] {
      var init, octet := b[..|b| - 8], b[|b| - 8..];
      assert b == init + octet;
      UnpackOfPack(init);
      PackSnoc(init, octet);
      UnpackSnoc(Pack(init), Val(octet));
      ToBitsOfVal(octet);
    }
  }

  lemma Octet(x: byte) returns (octet: seq<bool>)
    ensures octet == ToBits(x, 8) && |octet| == 8 && Val(octet) == x
  {
    Pow2Values();
    octet := ToBits(x, 8);
    ValOfToBits(x, 8);
  }

  lemma {:induction false} PackOfUnpack(s: seq<byte>)
    ensures Pack(Unpack(s)) == s
  {
    if s != [] {
      var init, last := s[..|s| - 1], s[|s| - 1];
      assert s == init + [last];
      PackOfUnpack(init);
      var octet := Octet(last);
      PackSnoc(Unpack(init), octet);
    }
  }
}
