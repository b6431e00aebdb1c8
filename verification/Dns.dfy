/** DNS messages (sections 2.3.4, 3.1 and 4.1 of RFC 1035): the query writer and the response reader. */
module Dns {
  import opened Bits
  import opened Outcome
  import opened Spans

  datatype RecordType = A | Aaaa

  datatype Address = V4(octets: seq<byte>) | V6(octets: seq<byte>)

  const DOT: byte := '.' as int
  const MAX_NAME: nat := 253
  const MAX_LABEL: nat := 63
  const TTL_MAX: nat := 0xffff_ffff

  function QType(rt: RecordType): (q: byte) {
    match rt
    case A => 1
    case Aaaa => 28
  }

  // ---------------------------------------------------------------- names as text

  function TrimDots(s: seq<byte>): (t: seq<byte>)
    ensures t <= s && (t != [] ==> t[|t| - 1] != DOT)
    ensures forall i :: |t| <= i < |s| ==> s[i] == DOT
  {
    if s != [] && s[|s| - 1] == DOT then TrimDots(s[..|s| - 1]) else s
  }

  /** The pieces between dots; one more than there are dots. */
  function Split(s: seq<byte>): (ls: seq<seq<byte>>)
    ensures |ls| >= 1
  {
    if s == [] then [[]]
    else
      var ls := Split(s[1..]);
      if s[0] == DOT then [[]] + ls else [[s[0]] + ls[0]] + ls[1..]
  }

  function Join(ls: seq<seq<byte>>): (s: seq<byte>)
    requires |ls| >= 1
  {
    if |ls| == 1 then ls[0] else ls[0] + [DOT] + Join(ls[1..])
  }

  lemma {:induction false} JoinSplit(s: seq<byte>)
    ensures Join(Split(s)) == s
  {
    if s != [] {
      var ls := Split(s[1..]);
      JoinSplit(s[1..]);
      assert s == [s[0]] + s[1..];
      if s[0] == DOT {
        assert ([[]] + ls)[1..] == ls;
      } else {
        var first := [s[0]] + ls[0];
        assert ([first] + ls[1..])[1..] == ls[1..];
        if |ls| > 1 { assert first + [DOT] + Join(ls[1..]) == [s[0]] + (ls[0] + [DOT] + Join(ls[1..])); }
      }
    }
  }

  lemma {:induction false} SplitHasNoDots(s: seq<byte>, i: nat)
    requires i < |Split(s)|
    ensures DOT !in Split(s)[i]
  {
    if s != [] {
      if s[0] == DOT {
        if i > 0 { SplitHasNoDots(s[1..], i - 1); }
      } else {
        SplitHasNoDots(s[1..], i);
      }
    }
  }

  // ---------------------------------------------------------------- names on the wire

  /** Labels, then the root or a two-byte compression pointer. Lengths 64 to 191 are read as lengths too. */
  datatype Name = Name(labels: seq<seq<byte>>, end: seq<byte>)

  predicate ValidLabels(ls: seq<seq<byte>>) {
    forall i :: 0 <= i < |ls| ==> 1 <= |ls[i]| < 192
  }

  predicate ValidName(n: Name) {
    ValidLabels(n.labels) && (n.end == [0] || (|n.end| == 2 && n.end[0] >= 192))
  }

  type WellFormedName = n: Name | ValidName(n) witness Name([], [0])

  function LabelBytes(l: seq<byte>): (s: seq<byte>)
    requires |l| < 256
  {
    [|l|] + l
  }

  function LabelsBytes(ls: seq<seq<byte>>): (s: seq<byte>)
    requires ValidLabels(ls)
  {
    if ls == [] then [] else LabelBytes(ls[0]) + LabelsBytes(ls[1..])
  }

  function NameBytes(n: Name): (s: seq<byte>)
    requires ValidName(n)
  {
    LabelsBytes(n.labels) + n.end
  }

  ghost predicate NameAt(buf: seq<byte>, pos: nat, n: Name) {
    ValidName(n) && At(buf, pos, NameBytes(n))
  }

  /** Taking off the first label. */
  lemma FirstLabel(buf: seq<byte>, pos: nat, n: Name)
    requires NameAt(buf, pos, n) && n.labels != []
    ensures pos < |buf| && buf[pos] == |n.labels[0]|
    ensures pos + 1 + |n.labels[0]| <= |buf| && buf[pos + 1..pos + 1 + |n.labels[0]|] == n.labels[0]
    ensures NameAt(buf, pos + 1 + |n.labels[0]|, Name(n.labels[1..], n.end))
    ensures |NameBytes(n)| == 1 + |n.labels[0]| + |NameBytes(Name(n.labels[1..], n.end))|
  {
    var l, rest := n.labels[0], Name(n.labels[1..], n.end);
    NamePieces(n);
    var at := TakeOff(buf, pos, [|l|], l + NameBytes(rest));
    var after := TakeOff(buf, at, l, NameBytes(rest));
    assert buf[pos..at][0] == buf[pos];
  }

  lemma NamePieces(n: Name)
    requires ValidName(n) && n.labels != []
    ensures NameBytes(n) == [|n.labels[0]|] + (n.labels[0] + NameBytes(Name(n.labels[1..], n.end)))
  {
    var l, rest := n.labels[0], LabelsBytes(n.labels[1..]);
    Associates(LabelBytes(l), rest, n.end);
    Associates([|l|], l, rest + n.end);
  }

  lemma NoLabels(buf: seq<byte>, pos: nat, n: Name)
    requires NameAt(buf, pos, n) && n.labels == []
    ensures pos + |n.end| <= |buf| && buf[pos..pos + |n.end|] == n.end && buf[pos] == n.end[0] && NameBytes(n) == n.end
  {
    assert NameBytes(n) == n.end;
    assert buf[pos..pos + |n.end|][0] == buf[pos];
  }

  /** The first byte tells the two kinds of name apart. */
  lemma NameStart(buf: seq<byte>, pos: nat, n: Name)
    requires NameAt(buf, pos, n)
    ensures pos < |buf| && (n.labels == [] <==> buf[pos] == 0 || buf[pos] >= 192)
  {
    if n.labels == [] {
      NoLabels(buf, pos, n);
    } else {
      FirstLabel(buf, pos, n);
    }
  }

  /** Only one name can be read at a position. */
  lemma {:induction false} NameUnique(buf: seq<byte>, pos: nat, a: Name, b: Name)
    requires NameAt(buf, pos, a) && NameAt(buf, pos, b)
    ensures a == b
    decreases |a.labels|
  {
    NameStart(buf, pos, a);
    NameStart(buf, pos, b);
    if a.labels == [] {
      NoLabels(buf, pos, a);
      NoLabels(buf, pos, b);
    } else {
      FirstLabel(buf, pos, a);
      FirstLabel(buf, pos, b);
      NameUnique(buf, pos + 1 + |a.labels[0]|, Name(a.labels[1..], a.end), Name(b.labels[1..], b.end));
      assert a.labels == [a.labels[0]] + a.labels[1..] && b.labels == [b.labels[0]] + b.labels[1..];
    }
  }

  /** Where the name at a position ends, if there is one. */
  function NameEnd(buf: seq<byte>, pos: nat): (r: Result<nat>)
    decreases |buf| - pos
  {
    if pos >= |buf| then Err
    else if buf[pos] == 0 then Ok(pos + 1)
    else if buf[pos] >= 192 then if pos + 1 >= |buf| then Err else Ok(pos + 2)
    else NameEnd(buf, pos + 1 + buf[pos])
  }

  lemma {:induction false} NameEndReads(buf: seq<byte>, pos: nat, n: Name)
    requires NameAt(buf, pos, n)
    ensures NameEnd(buf, pos) == Ok(pos + |NameBytes(n)|)
    decreases |n.labels|
  {
    NameStart(buf, pos, n);
    if n.labels == [] {
      NoLabels(buf, pos, n);
    } else {
      FirstLabel(buf, pos, n);
      NameEndReads(buf, pos + 1 + |n.labels[0]|, Name(n.labels[1..], n.end));
    }
  }

  lemma {:induction false} NameEndFinds(buf: seq<byte>, pos: nat) returns (n: Name)
    requires NameEnd(buf, pos).Ok?
    ensures NameAt(buf, pos, n) && NameEnd(buf, pos) == Ok(pos + |NameBytes(n)|)
    decreases |buf| - pos
  {
    var b := buf[pos];
    if b == 0 {
      n := Name([], [0]);
      assert NameBytes(n) == [0];
    } else if b >= 192 {
      n := Name([], buf[pos..pos + 2]);
      assert NameBytes(n) == n.end;
    } else {
      var rest := NameEndFinds(buf, pos + 1 + b);
      n := WithLabel(buf, pos, rest);
    }
  }

  lemma WithLabel(buf: seq<byte>, pos: nat, rest: Name) returns (n: Name)
    requires pos < |buf| && 1 <= buf[pos] < 192 && NameAt(buf, pos + 1 + buf[pos], rest)
    ensures NameAt(buf, pos, n) && |NameBytes(n)| == 1 + buf[pos] + |NameBytes(rest)|
  {
    var l := buf[pos + 1..pos + 1 + buf[pos]];
    n := Name([l] + rest.labels, rest.end);
    assert n.labels[0] == l && n.labels[1..] == rest.labels;
    NamePieces(n);
    AtJoin(buf, pos + 1, l, NameBytes(rest));
    AtJoin(buf, pos, [|l|], l + NameBytes(rest));
  }

  /** Skips the name at `pos`: succeeds exactly when one stands there, and lands right behind it. */
  method SkipName(buf: seq<byte>, start: nat) returns (r: Result<nat>)
    ensures r.Ok? ==> exists n :: NameAt(buf, start, n)
    ensures forall n :: NameAt(buf, start, n) ==> r == Ok(start + |NameBytes(n)|)
    ensures r.Ok? ==> r.value <= |buf|
  {
    ghost var whole := NameEnd(buf, start);
    var pos := start;
    while true
      invariant pos >= start && NameEnd(buf, pos) == whole
      decreases |buf| - pos
    {
      if pos >= |buf| || buf[pos] == 0 || buf[pos] / 64 == 3 { break; }
      pos := pos + 1 + buf[pos];
    }
    r := if pos >= |buf| then Err
         else if buf[pos] == 0 then Ok(pos + 1)
         else if pos + 1 >= |buf| then Err else Ok(pos + 2);
    assert r == whole;
    if r.Ok? { var n := NameEndFinds(buf, start); }
    forall n | NameAt(buf, start, n) ensures r == Ok(start + |NameBytes(n)|) { NameEndReads(buf, start, n); }
  }

  // ---------------------------------------------------------------- queries

  predicate Encodable(name: seq<byte>) {
    var t := TrimDots(name);
    1 <= |t| <= 253 && forall i :: 0 <= i < |Split(t)| ==> 1 <= |Split(t)[i]| <= 63
  }

  function Header(id: nat): (h: seq<byte>)
    requires id < 0x1_0000
    ensures |h| == 12
  {
    [id / 256, id % 256, 1, 0, 0, 1, 0, 0, 0, 0, 0, 0]
  }

  function WireName(name: seq<byte>): (n: Name)
    requires Encodable(name)
    ensures ValidName(n)
  {
    Name(Split(TrimDots(name)), [0])
  }

  lemma {:induction false} LabelsSnoc(ls: seq<seq<byte>>, l: seq<byte>)
    requires ValidLabels(ls) && 1 <= |l| < 192
    ensures ValidLabels(ls + [l]) && LabelsBytes(ls + [l]) == LabelsBytes(ls) + LabelBytes(l)
  {
    if ls == [] {
      assert [l][1..] == [];
      assert ls + [l] == [l];
    } else {
      LabelsSnoc(ls[1..], l);
      assert (ls + [l])[1..] == ls[1..] + [l];
      Associates(LabelBytes(ls[0]), LabelsBytes(ls[1..]), LabelBytes(l));
    }
  }

  lemma {:induction false} LabelsLength(ls: seq<seq<byte>>)
    requires |ls| >= 1 && ValidLabels(ls)
    ensures |LabelsBytes(ls)| == |Join(ls)| + 1
  {
    if |ls| > 1 { LabelsLength(ls[1..]); }
  }

  /** Appends every label with its length, up to the first bad one. */
  method EncodeLabels(start: seq<byte>, ls: seq<seq<byte>>) returns (r: Result<seq<byte>>)
    ensures r.Ok? <==> forall i :: 0 <= i < |ls| ==> 1 <= |ls[i]| <= 63
    ensures r.Ok? ==> r.value == start + LabelsBytes(ls)
  {
    var msg := start;
    for i := 0 to |ls|
      invariant forall j :: 0 <= j < i ==> 1 <= |ls[j]| <= MAX_LABEL
      invariant ValidLabels(ls[..i]) && msg == start + LabelsBytes(ls[..i])
    {
      var piece := ls[i];
      if |piece| == 0 || |piece| > MAX_LABEL { return Err; }
      LabelsSnoc(ls[..i], piece);
      assert ls[..i + 1] == ls[..i] + [piece];
      msg := msg + [|piece|] + piece;
    }
    assert ls[..|ls|] == ls;
    r := Ok(msg);
  }

  /** Builds a query, or refuses exactly the names DNS cannot carry. */
  method EncodeDnsQuery(id: nat, name: seq<byte>, rt: RecordType) returns (r: Result<seq<byte>>)
    requires id < 0x1_0000
    ensures r.Ok? <==> Encodable(name)
    ensures r.Ok? ==> r.value == Header(id) + NameBytes(WireName(name)) + [0, QType(rt), 0, 1]
  {
    var msg := [id / 256, id % 256] + [1, 0] + [0, 1] + [0, 0, 0, 0, 0, 0];
    assert msg == Header(id);
    var t := TrimDots(name);
    if |t| == 0 || |t| > MAX_NAME { return Err; }
    var e := EncodeLabels(msg, Split(t));
    if e.Err? { return Err; }
    assert e.value + [0] == Header(id) + NameBytes(WireName(name));
    r := Ok(e.value + [0] + [0, QType(rt)] + [0, 1]);
  }

  lemma QueryPieces(header: seq<byte>, name: seq<byte>, end: seq<byte>, q: seq<byte>)
    requires |header| == 12 && |end| == 4 && q == header + name + end
    ensures |q| == 16 + |name| && q[0] == header[0] && q[1] == header[1] && q[2..12] == header[2..]
    ensures q[12..12 + |name|] == name && q[|q| - 4..] == end
  {
  }

  /** What a query asks: with this identifier, recursion desired, one question, of this type and class IN. */
  lemma QueryFields(id: nat, name: seq<byte>, rt: RecordType, q: seq<byte>)
    requires id < 0x1_0000 && Encodable(name)
    requires q == Header(id) + NameBytes(WireName(name)) + [0, QType(rt), 0, 1]
    ensures |q| >= 16 && U16(q[0], q[1]) == id && q[2..12] == [1, 0, 0, 1, 0, 0, 0, 0, 0, 0]
    ensures q[|q| - 4..] == [0, if rt == A then 1 else 28, 0, 1]
  {
    QueryPieces(Header(id), NameBytes(WireName(name)), [0, QType(rt), 0, 1], q);
  }

  /**
   * How a query is laid out: it is 18 bytes longer than the trimmed name, at most 271, its question name ends four
   * bytes before the end, and whoever reads that name finds labels that rejoin, dots between, to the trimmed name.
   */
  lemma QueryShape(id: nat, name: seq<byte>, rt: RecordType, q: seq<byte>)
    requires id < 0x1_0000 && Encodable(name)
    requires q == Header(id) + NameBytes(WireName(name)) + [0, QType(rt), 0, 1]
    ensures |q| == |TrimDots(name)| + 18 <= 271
    ensures NameEnd(q, 12) == Ok(|q| - 4)
    ensures forall n :: NameAt(q, 12, n) ==> n.labels != [] && Join(n.labels) == TrimDots(name) && n.end == [0]
    ensures forall n, i :: NameAt(q, 12, n) && 0 <= i < |n.labels| ==> DOT !in n.labels[i]
  {
    var t, w := TrimDots(name), WireName(name);
    JoinSplit(t);
    LabelsLength(w.labels);
    QueryPieces(Header(id), NameBytes(w), [0, QType(rt), 0, 1], q);
    NameEndReads(q, 12, w);
    forall n | NameAt(q, 12, n) ensures n == w { NameUnique(q, 12, n, w); }
    forall i | 0 <= i < |w.labels| ensures DOT !in w.labels[i] { SplitHasNoDots(t, i); }
  }

  /** Two names give the same query exactly when they differ only in trailing dots. */
  lemma QueryInjective(id: nat, a: seq<byte>, b: seq<byte>, rt: RecordType)
    requires id < 0x1_0000 && Encodable(a) && Encodable(b)
    requires Header(id) + NameBytes(WireName(a)) + [0, QType(rt), 0, 1]
          == Header(id) + NameBytes(WireName(b)) + [0, QType(rt), 0, 1]
    ensures TrimDots(a) == TrimDots(b)
  {
    var q := Header(id) + NameBytes(WireName(a)) + [0, QType(rt), 0, 1];
    QueryShape(id, a, rt, q);
    QueryShape(id, b, rt, q);
    assert q[12..12 + |NameBytes(WireName(a))|] == NameBytes(WireName(a));
    assert NameAt(q, 12, WireName(a));
  }

  // ---------------------------------------------------------------- responses

  function U16(a: byte, b: byte): (n: nat) {
    256 * a + b
  }

  function U32(a: byte, b: byte, c: byte, d: byte): (n: nat)
    ensures n == Weighted(0x100_0000, a) + Weighted(0x1_0000, b) + Weighted(0x100, c) + d
  {
    0x1_0000 * U16(a, b) + U16(c, d)
  }

  function Weighted(w: nat, x: nat): nat {
    w * x
  }

  /**
   * One entry of a section: a question (name, then four bytes) or a resource record (name, then type, class, TTL,
   * length and that many bytes of data).
   */
  datatype Item = Item(name: WellFormedName, rest: seq<byte>)

  datatype Section = Questions | Answers

  predicate ValidRest(rest: seq<byte>, sec: Section) {
    match sec
    case Questions => |rest| == 4
    case Answers => |rest| >= 10 && |rest| == 10 + U16(rest[8], rest[9])
  }

  function ItemLength(x: Item): (n: nat) {
    |NameBytes(x.name)| + |x.rest|
  }

  ghost predicate ItemAt(buf: seq<byte>, pos: nat, x: Item, sec: Section) {
    ValidRest(x.rest, sec) && NameAt(buf, pos, x.name) && At(buf, pos + |NameBytes(x.name)|, x.rest)
  }

  function ItemsBytes(xs: seq<Item>): (s: seq<byte>) {
    if xs == [] then []
    else
      var x := xs[|xs| - 1];
      ItemsBytes(xs[..|xs| - 1]) + (NameBytes(x.name) + x.rest)
  }

  function End(pos: nat, xs: seq<Item>): (e: nat) {
    pos + |ItemsBytes(xs)|
  }

  ghost predicate ItemsAt(buf: seq<byte>, pos: nat, xs: seq<Item>, sec: Section) {
    xs == [] || (ItemsAt(buf, pos, xs[..|xs| - 1], sec) && ItemAt(buf, End(pos, xs[..|xs| - 1]), xs[|xs| - 1], sec))
  }

  lemma ItemUnique(buf: seq<byte>, pos: nat, a: Item, b: Item, sec: Section)
    requires ItemAt(buf, pos, a, sec) && ItemAt(buf, pos, b, sec)
    ensures a == b
  {
    NameUnique(buf, pos, a.name, b.name);
    var p := pos + |NameBytes(a.name)|;
    if sec == Answers {
      assert a.rest[8] == buf[p..p + |a.rest|][8] == buf[p + 8] == buf[p..p + |b.rest|][8] == b.rest[8];
      assert a.rest[9] == buf[p..p + |a.rest|][9] == buf[p + 9] == buf[p..p + |b.rest|][9] == b.rest[9];
    }
  }

  /** Two readings of equally many entries are the same. */
  lemma {:induction false} ItemsAgree(buf: seq<byte>, pos: nat, a: seq<Item>, b: seq<Item>, sec: Section)
    requires ItemsAt(buf, pos, a, sec) && ItemsAt(buf, pos, b, sec) && |a| == |b|
    ensures a == b
  {
    if a != [] {
      var k := |a| - 1;
      ItemsAgree(buf, pos, a[..k], b[..k], sec);
      ItemUnique(buf, End(pos, a[..k]), a[k], b[k], sec);
      assert a == a[..k] + [a[k]] && b == b[..k] + [b[k]];
    }
  }

  lemma {:induction false} ItemsPrefix(buf: seq<byte>, pos: nat, xs: seq<Item>, sec: Section, k: nat)
    requires ItemsAt(buf, pos, xs, sec) && k < |xs|
    ensures ItemsAt(buf, pos, xs[..k], sec) && ItemAt(buf, End(pos, xs[..k]), xs[k], sec)
    decreases |xs|
  {
    var init := xs[..|xs| - 1];
    if k < |init| {
      ItemsPrefix(buf, pos, init, sec, k);
      assert init[..k] == xs[..k];
    }
  }

  /** If one reading has gone `|a|` items, any longer one has its next item right there. */
  lemma NextItem(buf: seq<byte>, pos: nat, a: seq<Item>, b: seq<Item>, sec: Section)
    requires ItemsAt(buf, pos, a, sec) && ItemsAt(buf, pos, b, sec) && |a| < |b|
    ensures ItemAt(buf, End(pos, a), b[|a|], sec)
  {
    ItemsPrefix(buf, pos, b, sec, |a|);
    ItemsAgree(buf, pos, a, b[..|a|], sec);
  }

  lemma ItemsSnoc(buf: seq<byte>, pos: nat, a: seq<Item>, x: Item, sec: Section)
    requires ItemsAt(buf, pos, a, sec) && ItemAt(buf, End(pos, a), x, sec)
    ensures ItemsAt(buf, pos, a + [x], sec)
    ensures End(pos, a + [x]) == End(pos, a) + ItemLength(x)
  {
    assert (a + [x])[..|a|] == a;
  }

  predicate Matches(x: Item, rt: RecordType) {
    |x.rest| >= 10 && U16(x.rest[0], x.rest[1]) == QType(rt) && |x.rest| == 10 + (if rt == A then 4 else 16)
  }

  function AddressOf(x: Item, rt: RecordType): (a: Address)
    requires |x.rest| >= 10
  {
    if rt == A then V4(x.rest[10..]) else V6(x.rest[10..])
  }

  function TtlOf(x: Item): (t: nat)
    requires |x.rest| >= 10
    ensures t <= TTL_MAX
  {
    U32(x.rest[4], x.rest[5], x.rest[6], x.rest[7])
  }

  /** The addresses of the records asked for, in the order of the message. */
  function Addresses(xs: seq<Item>, rt: RecordType): (r: seq<Address>) {
    if xs == [] then []
    else
      var x := xs[|xs| - 1];
      Addresses(xs[..|xs| - 1], rt) + (if Matches(x, rt) then [AddressOf(x, rt)] else [])
  }

  ghost predicate IsMinTtl(xs: seq<Item>, rt: RecordType, t: nat) {
    && t <= TTL_MAX
    && (forall i :: 0 <= i < |xs| && Matches(xs[i], rt) ==> t <= TtlOf(xs[i]))
    && (t == TTL_MAX || exists i :: 0 <= i < |xs| && Matches(xs[i], rt) && t == TtlOf(xs[i]))
  }

  /** A usable answer to this query: its identifier, a response, not truncated, no error code. */
  predicate Accepts(buf: seq<byte>, id: nat) {
    && |buf| >= 12
    && U16(buf[0], buf[1]) == id
    && buf[2] >= 128
    && buf[2] / 2 % 2 == 0
    && buf[3] % 16 == 0
  }

  ghost predicate Reads(buf: seq<byte>, qs: seq<Item>, xs: seq<Item>) {
    && |buf| >= 12
    && |qs| == U16(buf[4], buf[5])
    && |xs| == U16(buf[6], buf[7])
    && ItemsAt(buf, 12, qs, Questions)
    && ItemsAt(buf, End(12, qs), xs, Answers)
  }

  ghost predicate IsAnswer(xs: seq<Item>, rt: RecordType, r: Result<(seq<Address>, nat)>) {
    r.Ok? && r.value.0 == Addresses(xs, rt) && IsMinTtl(xs, rt, r.value.1)
  }

  /** `r` is the answer that every reading of the message gives, and an error exactly when there is none. */
  ghost predicate ParsesTo(buf: seq<byte>, id: nat, rt: RecordType, r: Result<(seq<Address>, nat)>) {
    && (r.Ok? ==> Accepts(buf, id) && exists qs, xs :: Reads(buf, qs, xs))
    && (forall qs, xs :: Accepts(buf, id) && Reads(buf, qs, xs) ==> IsAnswer(xs, rt, r))
  }

  lemma FlagBits(buf: seq<byte>, flags: nat)
    requires |buf| >= 12 && flags == U16(buf[2], buf[3])
    ensures flags / 0x8000 % 2 == 1 <==> buf[2] >= 128
    ensures flags / 0x200 % 2 == buf[2] / 2 % 2
    ensures flags % 16 == buf[3] % 16
  {
    assert flags / 0x8000 == buf[2] / 128;
    assert flags / 0x200 == buf[2] / 2;
    var hi: int, lo: int := buf[2], buf[3];
    assert flags == 16 * (16 * hi + lo / 16) + lo % 16;
  }

  /** The length field of a record is true of the bytes that follow it. */
  lemma DataFits(buf: seq<byte>, pos: nat, x: Item)
    requires ItemAt(buf, pos, x, Answers)
    ensures var p := pos + |NameBytes(x.name)|; p + 10 <= |buf| && p + 10 + U16(buf[p + 8], buf[p + 9]) <= |buf|
  {
    var p := pos + |NameBytes(x.name)|;
    assert x.rest[8] == buf[p..p + |x.rest|][8] && x.rest[9] == buf[p..p + |x.rest|][9];
  }

  method ReadQuestion(buf: seq<byte>, pos: nat) returns (r: Result<nat>, ghost x: Item)
    ensures r.Ok? ==> ItemAt(buf, pos, x, Questions) && r.value == pos + ItemLength(x)
    ensures r.Err? ==> forall y :: !ItemAt(buf, pos, y, Questions)
  {
    x := Item(Name([], [0]), []);
    var e := SkipName(buf, pos);
    if e.Err? { return Err, x; }
    if e.value + 4 > |buf| { return Err, x; }
    ghost var n :| NameAt(buf, pos, n);
    x := Item(n, buf[e.value..e.value + 4]);
    r := Ok(e.value + 4);
  }

  method ReadAnswer(buf: seq<byte>, pos: nat) returns (r: Result<(nat, nat, nat, nat)>, ghost x: Item)
    ensures r.Ok? ==> ItemAt(buf, pos, x, Answers) && r.value.3 + r.value.2 == pos + ItemLength(x)
    ensures r.Ok? ==> r.value.0 == U16(x.rest[0], x.rest[1]) && r.value.1 == TtlOf(x) && |x.rest| == 10 + r.value.2
    ensures r.Ok? ==> At(buf, r.value.3, x.rest[10..])
    ensures r.Err? ==> forall y :: !ItemAt(buf, pos, y, Answers)
  {
    x := Item(Name([], [0]), []);
    var e := SkipName(buf, pos);
    if e.Err? { return Err, x; }
    var p := e.value;
    if p + 10 > |buf| { return Err, x; }
    var rtype := U16(buf[p], buf[p + 1]);
    var ttl := U32(buf[p + 4], buf[p + 5], buf[p + 6], buf[p + 7]);
    var rdlength := U16(buf[p + 8], buf[p + 9]);
    if p + 10 + rdlength > |buf| {
      DataMissing(buf, pos, p);
      return Err, x;
    }
    ghost var n :| NameAt(buf, pos, n);
    x := RecordHere(buf, pos, p, n, rdlength);
    r := Ok((rtype, ttl, rdlength, p + 10));
  }

  lemma DataMissing(buf: seq<byte>, pos: nat, p: nat)
    requires p + 10 <= |buf| && forall n :: NameAt(buf, pos, n) ==> p == pos + |NameBytes(n)|
    requires p + 10 + U16(buf[p + 8], buf[p + 9]) > |buf|
    ensures forall y :: !ItemAt(buf, pos, y, Answers)
  {
    forall y ensures !ItemAt(buf, pos, y, Answers) {
      if ItemAt(buf, pos, y, Answers) { DataFits(buf, pos, y); }
    }
  }

  lemma RecordHere(buf: seq<byte>, pos: nat, p: nat, n: WellFormedName, rdlength: nat) returns (x: Item)
    requires NameAt(buf, pos, n) && p == pos + |NameBytes(n)| && p + 10 + rdlength <= |buf|
    requires rdlength == U16(buf[p + 8], buf[p + 9])
    ensures ItemAt(buf, pos, x, Answers) && p + 10 + rdlength == pos + ItemLength(x) && |x.rest| == 10 + rdlength
    ensures forall i :: 0 <= i < 10 ==> x.rest[i] == buf[p + i]
    ensures At(buf, p + 10, x.rest[10..])
  {
    x := Item(n, buf[p..p + 10 + rdlength]);
  }

  method SkipQuestions(buf: seq<byte>, count: nat) returns (r: Result<nat>, ghost qs: seq<Item>)
    ensures r.Ok? ==> |qs| == count && ItemsAt(buf, 12, qs, Questions) && r.value == End(12, qs)
    ensures r.Err? ==> forall ys :: ItemsAt(buf, 12, ys, Questions) ==> |ys| < count
  {
    var pos := 12;
    qs := [];
    for i := 0 to count
      invariant |qs| == i && ItemsAt(buf, 12, qs, Questions) && pos == End(12, qs)
    {
      var e, x := ReadQuestion(buf, pos);
      if e.Err? {
        Stuck(buf, 12, qs, Questions);
        return Err, qs;
      }
      ItemsSnoc(buf, 12, qs, x, Questions);
      qs, pos := qs + [x], e.value;
    }
    r := Ok(pos);
  }

  lemma MinTtlSnoc(xs: seq<Item>, rt: RecordType, t: nat, x: Item)
    requires IsMinTtl(xs, rt, t)
    ensures IsMinTtl(xs + [x], rt, if Matches(x, rt) && TtlOf(x) < t then TtlOf(x) else t)
  {
    var ys := xs + [x];
    var u := if Matches(x, rt) && TtlOf(x) < t then TtlOf(x) else t;
    if u != TTL_MAX {
      if u == t {
        var i :| 0 <= i < |xs| && Matches(xs[i], rt) && t == TtlOf(xs[i]);
        assert ys[i] == xs[i];
      } else {
        assert ys[|xs|] == x;
      }
    }
  }

  /** Takes in one record: appends its address and lowers the TTL, when it is of the kind asked for. */
  method Gather(buf: seq<byte>, at: nat, rtype: nat, ttl: nat, rdlength: nat, rt: RecordType, addrs: seq<Address>,
                minTtl: nat,
                ghost x: Item)
      returns (addrs': seq<Address>, minTtl': nat)
    requires |x.rest| == 10 + rdlength && rtype == U16(x.rest[0], x.rest[1]) && ttl == TtlOf(x)
    requires At(buf, at, x.rest[10..])
    ensures addrs' == addrs + (if Matches(x, rt) then [AddressOf(x, rt)] else [])
    ensures minTtl' == if Matches(x, rt) && TtlOf(x) < minTtl then TtlOf(x) else minTtl
  {
    addrs', minTtl' := addrs, minTtl;
    if rt == A && rtype == 1 && rdlength == 4 {
      addrs' := addrs + [V4([buf[at], buf[at + 1], buf[at + 2], buf[at + 3]])];
      minTtl' := if ttl < minTtl then ttl else minTtl;
      assert x.rest[10..] == [buf[at], buf[at + 1], buf[at + 2], buf[at + 3]];
    } else if rt == Aaaa && rtype == 28 && rdlength == 16 {
      addrs' := addrs + [V6(buf[at..at + 16])];
      minTtl' := if ttl < minTtl then ttl else minTtl;
    }
  }

  /** A reading that cannot go on shows that no reading goes further. */
  lemma Stuck(buf: seq<byte>, start: nat, xs: seq<Item>, sec: Section)
    requires ItemsAt(buf, start, xs, sec) && forall y :: !ItemAt(buf, End(start, xs), y, sec)
    ensures forall ys :: ItemsAt(buf, start, ys, sec) ==> |ys| <= |xs|
  {
    forall ys | ItemsAt(buf, start, ys, sec) ensures |ys| <= |xs| {
      if |ys| > |xs| { NextItem(buf, start, xs, ys, sec); }
    }
  }

  method ReadAnswers(buf: seq<byte>, start: nat, count: nat, rt: RecordType)
      returns (r: Result<(seq<Address>, nat)>, ghost xs: seq<Item>)
    ensures r.Ok? ==> |xs| == count && ItemsAt(buf, start, xs, Answers) && IsAnswer(xs, rt, r)
    ensures r.Err? ==> forall ys :: ItemsAt(buf, start, ys, Answers) ==> |ys| < count
  {
    var pos, addrs, minTtl := start, [], TTL_MAX;
    xs := [];
    for i := 0 to count
      invariant |xs| == i && ItemsAt(buf, start, xs, Answers) && pos == End(start, xs)
      invariant IsAnswer(xs, rt, Ok((addrs, minTtl)))
    {
      var e, x := ReadAnswer(buf, pos);
      if e.Err? {
        Stuck(buf, start, xs, Answers);
        return Err, xs;
      }
      var (rtype, ttl, rdlength, at) := e.value;
      AnswerSnoc(xs, rt, addrs, minTtl, x);
      addrs, minTtl := Gather(buf, at, rtype, ttl, rdlength, rt, addrs, minTtl, x);
      ItemsSnoc(buf, start, xs, x, Answers);
      xs := xs + [x];
      pos := at + rdlength;
    }
    r := Ok((addrs, minTtl));
  }

  lemma AnswerSnoc(xs: seq<Item>, rt: RecordType, addrs: seq<Address>, t: nat, x: Item)
    requires IsAnswer(xs, rt, Ok((addrs, t)))
    ensures IsAnswer(xs + [x], rt, Ok((addrs + (if Matches(x, rt) then [AddressOf(x, rt)] else []),
                                       if Matches(x, rt) && TtlOf(x) < t then TtlOf(x) else t)))
  {
    MinTtlSnoc(xs, rt, t, x);
    assert (xs + [x])[..|xs|] == xs;
  }

  /**
   * Every buffer is either refused or read: an answer comes out exactly when the header is acceptable and the message
   * reads as the sections it announces, and then it is the addresses asked for, in order, with their least TTL.
   */
  method ParseDnsResponse(buf: seq<byte>, id: nat, rt: RecordType) returns (r: Result<(seq<Address>, nat)>)
    ensures ParsesTo(buf, id, rt, r)
  {
    if |buf| < 12 { return Err; }
    if U16(buf[0], buf[1]) != id { return Err; }
    var flags := U16(buf[2], buf[3]);
    FlagBits(buf, flags);
    if flags / 0x8000 % 2 == 0 { return Err; }
    if flags / 0x200 % 2 != 0 { return Err; }
    if flags % 16 != 0 { return Err; }
    var e, qs := SkipQuestions(buf, U16(buf[4], buf[5]));
    if e.Err? { return Err; }
    ghost var xs;
    r, xs := ReadAnswers(buf, e.value, U16(buf[6], buf[7]), rt);
    ReadingsAgree(buf, qs, e.value);
    if r.Ok? {
      assert Reads(buf, qs, xs);
      forall qs', xs' | Reads(buf, qs', xs') ensures xs' == xs { ItemsAgree(buf, e.value, xs', xs, Answers); }
    }
  }

  lemma ReadingsAgree(buf: seq<byte>, qs: seq<Item>, pos: nat)
    requires |buf| >= 12 && |qs| == U16(buf[4], buf[5]) && ItemsAt(buf, 12, qs, Questions) && pos == End(12, qs)
    ensures forall qs', xs' :: Reads(buf, qs', xs') ==> ItemsAt(buf, pos, xs', Answers)
  {
    forall qs', xs' | Reads(buf, qs', xs') ensures qs' == qs { ItemsAgree(buf, 12, qs', qs, Questions); }
  }

  // ---------------------------------------------------------------- serialized responses

  predicate ValidRests(xs: seq<Item>, sec: Section) {
    forall i :: 0 <= i < |xs| ==> ValidRest(xs[i].rest, sec)
  }

  lemma ItemWritten(buf: seq<byte>, pos: nat, x: Item, sec: Section)
    requires ValidRest(x.rest, sec) && At(buf, pos, NameBytes(x.name) + x.rest)
    ensures ItemAt(buf, pos, x, sec)
  {
    AtJoin(buf, pos, NameBytes(x.name), x.rest);
  }

  lemma {:induction false} ItemsWritten(buf: seq<byte>, pos: nat, xs: seq<Item>, sec: Section)
    requires ValidRests(xs, sec) && At(buf, pos, ItemsBytes(xs))
    ensures ItemsAt(buf, pos, xs, sec)
  {
    if xs != [] {
      var init, x := xs[..|xs| - 1], xs[|xs| - 1];
      var mid := TakeOff(buf, pos, ItemsBytes(init), NameBytes(x.name) + x.rest);
      ItemsWritten(buf, pos, init, sec);
      ItemWritten(buf, mid, x, sec);
    }
  }

  lemma SectionWritten(buf: seq<byte>, pos: nat, xs: seq<Item>, more: seq<byte>, sec: Section) returns (end: nat)
    requires ValidRests(xs, sec) && At(buf, pos, ItemsBytes(xs) + more)
    ensures ItemsAt(buf, pos, xs, sec) && end == End(pos, xs) && At(buf, end, more)
  {
    end := TakeOff(buf, pos, ItemsBytes(xs), more);
    ItemsWritten(buf, pos, xs, sec);
  }

  lemma HeaderKept(buf: seq<byte>, header: seq<byte>, more: seq<byte>)
    requires |header| == 12 && buf == header + more
    ensures |buf| >= 12 && At(buf, 12, more) && forall i :: 0 <= i < 12 ==> buf[i] == header[i]
  {
  }

  /** Any response written section after section, whatever follows it, is read back as those sections. */
  lemma ResponseReads(header: seq<byte>, qs: seq<Item>, xs: seq<Item>, tail: seq<byte>, buf: seq<byte>)
    requires |header| == 12 && ValidRests(qs, Questions) && ValidRests(xs, Answers)
    requires |qs| == U16(header[4], header[5]) && |xs| == U16(header[6], header[7])
    requires buf == header + (ItemsBytes(qs) + (ItemsBytes(xs) + tail))
    ensures Reads(buf, qs, xs)
  {
    HeaderKept(buf, header, ItemsBytes(qs) + (ItemsBytes(xs) + tail));
    var mid := SectionWritten(buf, 12, qs, ItemsBytes(xs) + tail, Questions);
    var _ := SectionWritten(buf, mid, xs, tail, Answers);
  }

  // ---------------------------------------------------------------- responses as a server means them

  /** A resource record: name, type, class, TTL and data, as numbers and bytes. */
  datatype Record = Record(name: WellFormedName, kind: nat, category: nat, ttl: nat, data: seq<byte>)

  predicate ValidRecord(x: Record) {
    x.kind < 0x1_0000 && x.category < 0x1_0000 && x.ttl <= TTL_MAX && |x.data| < 0x1_0000
  }

  predicate ValidRecords(rs: seq<Record>) {
    forall i :: 0 <= i < |rs| ==> ValidRecord(rs[i])
  }

  function Two(n: nat): (s: seq<byte>)
    requires n < 0x1_0000
    ensures |s| == 2
  {
    [n / 256, n % 256]
  }

  function Four(n: nat): (s: seq<byte>)
    requires n <= TTL_MAX
    ensures |s| == 4
  {
    [n / 0x100_0000, n / 0x1_0000 % 256, n / 0x100 % 256, n % 256]
  }

  function RecordRest(x: Record): (s: seq<byte>)
    requires ValidRecord(x)
    ensures |s| == 10 + |x.data|
  {
    Two(x.kind) + Two(x.category) + Four(x.ttl) + Two(|x.data|) + x.data
  }

  function RecordItems(rs: seq<Record>): (xs: seq<Item>)
    requires ValidRecords(rs)
    ensures |xs| == |rs|
  {
    if rs == [] then []
    else
      var x := rs[|rs| - 1];
      RecordItems(rs[..|rs| - 1]) + [Item(x.name, RecordRest(x))]
  }

  /** The kind asked for: an A record of 4 bytes or an AAAA record of 16. */
  predicate Asked(x: Record, rt: RecordType) {
    match rt
    case A => x.kind == 1 && |x.data| == 4
    case Aaaa => x.kind == 28 && |x.data| == 16
  }

  function RecordAddresses(rs: seq<Record>, rt: RecordType): (r: seq<Address>) {
    if rs == [] then []
    else
      var x := rs[|rs| - 1];
      var address := if rt == A then V4(x.data) else V6(x.data);
      RecordAddresses(rs[..|rs| - 1], rt) + (if Asked(x, rt) then [address] else [])
  }

  function LeastTtl(rs: seq<Record>, rt: RecordType): (t: nat) {
    if rs == [] then TTL_MAX
    else
      var x, t := rs[|rs| - 1], LeastTtl(rs[..|rs| - 1], rt);
      if Asked(x, rt) && x.ttl < t then x.ttl else t
  }

  /** The numbers of a record are read as they were written. */
  lemma RecordRead(x: Record, s: seq<byte>)
    requires ValidRecord(x) && s == RecordRest(x)
    ensures U16(s[0], s[1]) == x.kind && U32(s[4], s[5], s[6], s[7]) == x.ttl && U16(s[8], s[9]) == |x.data|
    ensures s[10..] == x.data
  {
    FourRead(x.ttl, Four(x.ttl));
  }

  lemma TwoRead(n: nat)
    requires n < 0x1_0000
    ensures U16(Two(n)[0], Two(n)[1]) == n
  {
  }

  lemma FourRead(n: nat, s: seq<byte>)
    requires n <= TTL_MAX && s == Four(n)
    ensures U32(s[0], s[1], s[2], s[3]) == n
  {
    assert n / 0x1_0000 == 256 * (n / 0x100_0000) + n / 0x1_0000 % 256;
    assert n / 0x100 == 256 * (n / 0x1_0000) + n / 0x100 % 256;
  }

  lemma RecordMatches(x: Record, rt: RecordType, y: Item)
    requires ValidRecord(x) && y == Item(x.name, RecordRest(x))
    ensures ValidRest(y.rest, Answers) && TtlOf(y) == x.ttl && (Matches(y, rt) <==> Asked(x, rt))
    ensures AddressOf(y, rt) == if rt == A then V4(x.data) else V6(x.data)
  {
    RecordRead(x, y.rest);
  }

  /** The reader's view of written records: their addresses and the least of their TTL numbers. */
  lemma {:induction false} RecordsAnswer(rs: seq<Record>, rt: RecordType)
    requires ValidRecords(rs)
    ensures ValidRests(RecordItems(rs), Answers)
    ensures IsAnswer(RecordItems(rs), rt, Ok((RecordAddresses(rs, rt), LeastTtl(rs, rt))))
  {
    if rs != [] {
      var init, x := rs[..|rs| - 1], rs[|rs| - 1];
      RecordsAnswer(init, rt);
      var y := Item(x.name, RecordRest(x));
      RecordMatches(x, rt, y);
      AnswerSnoc(RecordItems(init), rt, RecordAddresses(init, rt), LeastTtl(init, rt), y);
    }
  }

  /** The header of a response, field by field (section 4.1.1 of RFC 1035). */
  datatype ResponseHeader = ResponseHeader(
    id: nat, response: bool, opcode: nat, authoritative: bool, truncated: bool, recursionDesired: bool,
    recursionAvailable: bool, reserved: nat, code: nat, questions: nat, answers: nat, more: seq<byte>)

  predicate ValidHeader(h: ResponseHeader) {
    && h.id < 0x1_0000 && h.opcode < 16 && h.reserved < 8 && h.code < 16
    && h.questions < 0x1_0000 && h.answers < 0x1_0000 && |h.more| == 4
  }

  function Bit(b: bool, weight: nat): (n: nat) {
    if b then weight else 0
  }

  function ResponseHeaderBytes(h: ResponseHeader): (s: seq<byte>)
    requires ValidHeader(h)
    ensures |s| == 12
  {
    Two(h.id)
    + [Bit(h.response, 128) + 8 * h.opcode + Bit(h.authoritative, 4) + Bit(h.truncated, 2) + Bit(h.recursionDesired, 1)]
    + [Bit(h.recursionAvailable, 128) + 16 * h.reserved + h.code]
    + Two(h.questions) + Two(h.answers) + h.more
  }

  lemma FlagsRead(response: bool, opcode: nat, authoritative: bool, truncated: bool, desired: bool, x: int)
    requires opcode < 16
    requires x == Bit(response, 128) + 8 * opcode + Bit(authoritative, 4) + Bit(truncated, 2) + Bit(desired, 1)
    ensures (x >= 128 <==> response) && (x / 2 % 2 == 0 <==> !truncated)
  {
    assert x / 2 == 2 * (Bit(response, 32) + 2 * opcode + Bit(authoritative, 1)) + Bit(truncated, 1);
  }

  lemma CodeRead(available: bool, reserved: nat, code: nat, x: int)
    requires reserved < 8 && code < 16 && x == Bit(available, 128) + 16 * reserved + code
    ensures x % 16 == code
  {
    assert x == 16 * (Bit(available, 8) + reserved) + code;
  }

  lemma HeaderRead(h: ResponseHeader, buf: seq<byte>, id: nat)
    requires ValidHeader(h) && ResponseHeaderBytes(h) <= buf
    ensures U16(buf[4], buf[5]) == h.questions && U16(buf[6], buf[7]) == h.answers
    ensures Accepts(buf, id) <==> h.id == id && h.response && !h.truncated && h.code == 0
  {
    var s := ResponseHeaderBytes(h);
    assert forall i :: 0 <= i < 12 ==> buf[i] == s[i];
    FlagsRead(h.response, h.opcode, h.authoritative, h.truncated, h.recursionDesired, s[2]);
    CodeRead(h.recursionAvailable, h.reserved, h.code, s[3]);
    TwoRead(h.id);
    TwoRead(h.questions);
    TwoRead(h.answers);
  }

  lemma LeastIsUnique(xs: seq<Item>, rt: RecordType, t: nat, u: nat)
    requires IsMinTtl(xs, rt, t) && IsMinTtl(xs, rt, u)
    ensures t == u
  {
  }

  /**
   * A response written from a header, questions and records comes back as the addresses of the records asked for, in
   * order, with the least of their TTL numbers; it is refused exactly when the header is not that of a whole, good
   * answer to this query. Anything may follow the records.
   */
  lemma ResponseRoundTrip(h: ResponseHeader, qs: seq<Item>, rs: seq<Record>, tail: seq<byte>, buf: seq<byte>, id: nat,
                          rt: RecordType, r: Result<(seq<Address>, nat)>)
    requires ValidHeader(h) && ValidRests(qs, Questions) && ValidRecords(rs)
    requires |qs| == h.questions && |rs| == h.answers
    requires buf == ResponseHeaderBytes(h) + (ItemsBytes(qs) + (ItemsBytes(RecordItems(rs)) + tail))
    requires ParsesTo(buf, id, rt, r)
    ensures r == if h.id == id && h.response && !h.truncated && h.code == 0
                 then Ok((RecordAddresses(rs, rt), LeastTtl(rs, rt))) else Err
  {
    HeaderRead(h, buf, id);
    RecordsAnswer(rs, rt);
    HeaderRead(h, ResponseHeaderBytes(h), id);
    ResponseReads(ResponseHeaderBytes(h), qs, RecordItems(rs), tail, buf);
    if r.Ok? { LeastIsUnique(RecordItems(rs), rt, r.value.1, LeastTtl(rs, rt)); }
  }
}
