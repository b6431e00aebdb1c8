/** QUIC variable-length integers (section 16 of RFC 9000). */
module Varint {
  import opened Bits
  import opened Outcome

  const LIMIT: nat := 0x4000_0000_0000_0000

  function BigEndian(s: seq<byte>): (v: nat) {
    if s == [] then 0 else 256 * BigEndian(s[..|s| - 1]) + s[|s| - 1]
  }

  function ToBigEndian(v: nat, n: nat): (s: seq<byte>)
    ensures |s| == n
  {
    if n == 0 then [] else ToBigEndian(v / 256, n - 1) + [v % 256]
  }

  /** How many bytes the two top bits of the first byte announce. */
  function Announced(first: byte): (n: nat) {
    match first / 64
    case 0 => 1
    case 1 => 2
    case 2 => 4
    case _ => 8
  }

  /** The weight of the first byte's six low bits. */
  function Weight(n: nat): (w: nat) {
    match n
    case 1 => 1
    case 2 => 0x100
    case 4 => 0x100_0000
    case _ => 0x100_0000_0000_0000
  }

  /** `x` times the weight. */
  function Scale(x: nat, n: nat): (v: nat) {
    match n
    case 1 => x
    case 2 => 0x100 * x
    case 4 => 0x100_0000 * x
    case _ => 0x100_0000_0000_0000 * x
  }

  function Read(s: seq<byte>): (r: Option<(nat, nat)>)
    ensures r.Some? ==> 1 <= r.value.1 <= |s|
  {
    if s == [] then None
    else
      var n := Announced(s[0]);
      if |s| < n then None else Some((Scale(s[0] % 64, n) + BigEndian(s[1..n]), n))
  }

  /** The shortest form. */
  function Size(v: nat): (n: nat)
    requires v < LIMIT
  {
    if v < 0x40 then 1 else if v < 0x4000 then 2 else if v < 0x4000_0000 then 4 else 8
  }

  function Write(v: nat): (s: seq<byte>)
    requires v < LIMIT
    ensures |s| == Size(v)
  {
    var n := Size(v);
    var tag := if n == 1 then 0 else if n == 2 then 64 else if n == 4 then 128 else 192;
    [tag + v / Weight(n)] + ToBigEndian(v % Weight(n), n - 1)
  }

  lemma {:induction false} BigEndianRoundTrip(v: nat, n: nat)
    requires v < Pow2(8 * n)
    ensures BigEndian(ToBigEndian(v, n)) == v
  {
    if n > 0 {
      Pow2Adds(8, 8 * (n - 1));
      assert Pow2(8) == 256;
      BigEndianRoundTrip(v / 256, n - 1);
      var s := ToBigEndian(v, n);
      assert s[..|s| - 1] == ToBigEndian(v / 256, n - 1);
    }
  }

  lemma WeightIsPow2(n: nat)
    requires n == 1 || n == 2 || n == 4 || n == 8
    ensures Weight(n) == Pow2(8 * (n - 1))
  {
    Pow2Values();
    Pow2Adds(8, 16);
    Pow2Adds(24, 32);
  }

  /** The first byte carries the size tag and the top six bits of the value. */
  lemma FirstByte(v: nat)
    requires v < LIMIT
    ensures Announced(Write(v)[0]) == Size(v) && Write(v)[0] % 64 == v / Weight(Size(v))
    ensures Scale(v / Weight(Size(v)), Size(v)) + v % Weight(Size(v)) == v
  {
    if v < 0x40 {
    } else if v < 0x4000 {
      assert v / 0x100 < 64;
    } else if v < 0x4000_0000 {
      assert v / 0x100_0000 < 64;
    } else {
      assert v / 0x100_0000_0000_0000 < 64;
    }
  }

  function Times(w: nat, x: nat): nat {
    w * x
  }

  lemma OneMoreByte(s: seq<byte>, k: nat)
    requires 1 <= k < |s|
    ensures BigEndian(s[1..k + 1]) == 256 * BigEndian(s[1..k]) + s[k]
  {
    assert s[1..k + 1][..k - 1] == s[1..k];
  }

  lemma ThreeBytes(s: seq<byte>)
    requires |s| >= 4
    ensures BigEndian(s[1..2]) == s[1]
    ensures BigEndian(s[1..4]) == Times(0x1_0000, s[1]) + Times(0x100, s[2]) + s[3]
  {
    OneMoreByte(s, 1);
    OneMoreByte(s, 2);
    OneMoreByte(s, 3);
  }

  lemma SevenBytes(s: seq<byte>)
    requires |s| >= 8
    ensures BigEndian(s[1..8])
         == Times(0x1_0000_0000, Times(0x1_0000, s[1]) + Times(0x100, s[2]) + s[3])
            + Times(0x100_0000, s[4]) + Times(0x1_0000, s[5]) + Times(0x100, s[6]) + s[7]
  {
    ThreeBytes(s);
    OneMoreByte(s, 4);
    OneMoreByte(s, 5);
    OneMoreByte(s, 6);
    OneMoreByte(s, 7);
  }

  /** The value of each size in plain figures: network byte order, without the two size bits. */
  lemma ReadValue(s: seq<byte>)
    requires s != []
    ensures Read(s).Some? <==> |s| >= if s[0] < 64 then 1 else if s[0] < 128 then 2 else if s[0] < 192 then 4 else 8
    ensures s[0] < 64 ==> Read(s) == Some((s[0], 1))
    ensures 64 <= s[0] < 128 && |s| >= 2 ==> Read(s) == Some((Times(0x100, s[0] - 64) + s[1], 2))
    ensures 128 <= s[0] < 192 && |s| >= 4 ==>
              Read(s) == Some((Times(0x100_0000, s[0] - 128) + Times(0x1_0000, s[1]) + Times(0x100, s[2]) + s[3], 4))
    ensures 192 <= s[0] && |s| >= 8 ==>
              Read(s) == Some((Times(0x100_0000_0000_0000, s[0] - 192)
                               + Times(0x1_0000_0000, Times(0x1_0000, s[1]) + Times(0x100, s[2]) + s[3])
                               + Times(0x100_0000, s[4]) + Times(0x1_0000, s[5]) + Times(0x100, s[6]) + s[7], 8))
  {
    if |s| >= 2 { OneMoreByte(s, 1); }
    if |s| >= 4 { ThreeBytes(s); }
    if |s| >= 8 { SevenBytes(s); }
  }

  /** Reading undoes writing, whatever follows. */
  lemma ReadWrite(v: nat, rest: seq<byte>)
    requires v < LIMIT
    ensures Read(Write(v) + rest) == Some((v, |Write(v)|))
  {
    var n := Size(v);
    var low := v % Weight(n);
    FirstByte(v);
    LowBytes(low, n);
    assert (Write(v) + rest)[1..n] == ToBigEndian(low, n - 1);
  }

  lemma LowBytes(low: nat, n: nat)
    requires (n == 1 || n == 2 || n == 4 || n == 8) && low < Weight(n)
    ensures BigEndian(ToBigEndian(low, n - 1)) == low
  {
    WeightIsPow2(n);
    BigEndianRoundTrip(low, n - 1);
  }

  /** Once a whole integer is there, later bytes do not change it. */
  lemma ReadExtends(s: seq<byte>, more: seq<byte>)
    requires Read(s).Some?
    ensures Read(s + more) == Read(s)
  {
    var n := Announced(s[0]);
    assert (s + more)[1..n] == s[1..n];
  }

  /** `s` is exactly one integer, in shortest form or not. */
  predicate IsVarint(s: seq<byte>) {
    s != [] && |s| == Announced(s[0])
  }

  function Value(s: seq<byte>): (v: nat)
    requires IsVarint(s)
  {
    Read(s).value.0
  }

  lemma ReadWhole(s: seq<byte>, rest: seq<byte>)
    requires IsVarint(s)
    ensures Read(s + rest) == Some((Value(s), |s|))
  {
    ReadExtends(s, rest);
  }

  lemma ReadPart(s: seq<byte>, k: nat)
    requires IsVarint(s) && k < |s|
    ensures Read(s[..k]) == None
  {
  }

  lemma WriteIsVarint(v: nat)
    requires v < LIMIT
    ensures IsVarint(Write(v)) && Value(Write(v)) == v
  {
    ReadWrite(v, []);
    assert Write(v) + [] == Write(v);
  }
}
