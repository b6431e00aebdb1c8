/**
 * IP packets in HTTP/2 capsules (section 3.2 of RFC 9297): sending, and incremental
 * reassembly from arbitrary chunks. `Parse` is the reference reader of a whole stream.
 */
module Capsule {
  import opened Bits
  import opened Frames
  import opened Outcome
  import opened Spans
  import opened Subsequence
  import Varint

  const MTU: nat := 1280
  const MAX_BUFFER: nat := 262144

  type Packet = seq<byte>

  // ---------------------------------------------------------------- reference reader

  datatype Next = More | TooLong | Whole(kind: nat, start: nat, end: nat)

  /** What stands at the head of `s`: nothing complete yet, an oversized length, or one capsule. */
  function Head(s: seq<byte>): (h: Next)
    ensures h.Whole? ==> 2 <= h.start <= h.end <= |s| && h.end - h.start <= 0x4_0000
  {
    match Varint.Read(s)
    case None => More
    case Some((kind, k)) =>
      match Varint.Read(s[k..])
      case None => More
      case Some((size, n)) =>
        if size > MAX_BUFFER then TooLong
        else if |s| < k + n + size then More
        else Whole(kind, k + n, k + n + size)
  }

  /** The packet a capsule carries, if it carries one: context id 0 is dropped, anything not IPv4 or IPv6 is ignored. */
  function Carried(kind: nat, payload: seq<byte>): (ps: seq<Packet>)
    ensures |ps| <= 1
  {
    if kind != 0 then []
    else
      var packet := if |payload| > 1 && payload[0] == 0 then payload[1..] else payload;
      if packet != [] && (packet[0] / 16 == 4 || packet[0] / 16 == 6) then [packet] else []
  }

  datatype Reading = Reading(packets: seq<Packet>, rest: seq<byte>, ok: bool)

  function Before(ps: seq<Packet>, r: Reading): Reading {
    Reading(ps + r.packets, r.rest, r.ok)
  }

  function Parse(s: seq<byte>): (r: Reading)
    decreases |s|
  {
    match Head(s)
    case More => Reading([], s, true)
    case TooLong => Reading([], s, false)
    case Whole(kind, start, end) => Before(Carried(kind, s[start..end]), Parse(s[end..]))
  }

  lemma HeadExtends(s: seq<byte>, more: seq<byte>)
    requires !Head(s).More?
    ensures Head(s + more) == Head(s)
  {
    var k := Varint.Read(s).value.1;
    Varint.ReadExtends(s, more);
    assert (s + more)[k..] == s[k..] + more;
    Varint.ReadExtends(s[k..], more);
  }

  lemma BeforeTwice(a: seq<Packet>, b: seq<Packet>, r: Reading)
    ensures Before(a, Before(b, r)) == Before(a + b, r)
  {
  }

  lemma SameFirst(s: seq<byte>, more: seq<byte>, kind: nat, start: nat, end: nat)
    requires Head(s) == Whole(kind, start, end)
    ensures Parse(s) == Before(Carried(kind, s[start..end]), Parse(s[end..]))
    ensures Parse(s + more) == Before(Carried(kind, s[start..end]), Parse(s[end..] + more))
  {
    HeadExtends(s, more);
    assert (s + more)[end..] == s[end..] + more;
    assert (s + more)[start..end] == s[start..end];
  }

  /** Reading in two parts: what the first part left over joins the second. */
  ghost predicate Appends(whole: Reading, first: Reading, joined: Reading) {
    if first.ok then whole == Before(first.packets, joined)
    else !whole.ok && whole.packets == first.packets
  }

  lemma AppendsBefore(ps: seq<Packet>, whole: Reading, first: Reading, joined: Reading)
    requires Appends(whole, first, joined)
    ensures Appends(Before(ps, whole), Before(ps, first), joined)
  {
    if first.ok { BeforeTwice(ps, first.packets, joined); }
  }

  lemma AppendFirst(s: seq<byte>, more: seq<byte>, kind: nat, start: nat, end: nat, tail: seq<byte>, joined: Reading)
    requires Head(s) == Whole(kind, start, end) && tail == s[end..]
    requires Appends(Parse(tail + more), Parse(tail), joined)
    ensures Appends(Parse(s + more), Parse(s), joined) && Parse(s).rest == Parse(tail).rest
  {
    SameFirst(s, more, kind, start, end);
    AppendsBefore(Carried(kind, s[start..end]), Parse(tail + more), Parse(tail), joined);
  }

  lemma NothingFirst(s: seq<byte>, more: seq<byte>)
    requires !Head(s).Whole?
    ensures Appends(Parse(s + more), Parse(s), Parse(s + more)) && Parse(s).rest == s
  {
    if Head(s).TooLong? { HeadExtends(s, more); }
    assert Before([], Parse(s + more)) == Parse(s + more);
  }

  lemma {:induction false} ParseAppend(s: seq<byte>, more: seq<byte>)
    ensures Appends(Parse(s + more), Parse(s), Parse(Parse(s).rest + more))
    decreases |s|
  {
    var h := Head(s);
    if h.Whole? {
      ParseAppend(s[h.end..], more);
      AppendFirst(s, more, h.kind, h.start, h.end, s[h.end..], Parse(Parse(s[h.end..]).rest + more));
    } else {
      NothingFirst(s, more);
    }
  }

  /** What is left over is always incomplete. */
  lemma {:induction false} RestIsIncomplete(s: seq<byte>)
    requires Parse(s).ok
    ensures Head(Parse(s).rest).More?
    decreases |s|
  {
    if Head(s).Whole? { RestIsIncomplete(s[Head(s).end..]); }
  }

  // ---------------------------------------------------------------- incremental reassembly

  /** What reading on at offset `at` means for the whole, with `h` in absolute offsets. */
  ghost predicate Continues(buf: seq<byte>, at: nat, h: Next) {
    at <= |buf| &&
    match h
    case More => Parse(buf[at..]) == Reading([], buf[at..], true)
    case TooLong => Parse(buf[at..]) == Reading([], buf[at..], false)
    case Whole(kind, start, end) =>
      at < start <= end <= |buf| && Parse(buf[at..]) == Before(Carried(kind, buf[start..end]), Parse(buf[end..]))
  }

  lemma ParseWhole(s: seq<byte>, kind: nat, header: nat, end: nat)
    requires Head(s) == Whole(kind, header, end)
    ensures 0 < header <= end <= |s| && Parse(s) == Before(Carried(kind, s[header..end]), Parse(s[end..]))
  {
  }

  lemma WholeAt(buf: seq<byte>, at: nat, kind: nat, header: nat, size: nat, start: nat, end: nat)
    requires at <= |buf| && start == at + header && end == start + size
    requires Head(buf[at..]) == Whole(kind, header, header + size)
    ensures Continues(buf, at, Whole(kind, start, end))
  {
    var s := buf[at..];
    var e := header + size;
    ParseWhole(s, kind, header, e);
    SliceOfRest(buf, at, header, e, start, end);
    var body, rest := buf[start..end], buf[end..];
    assert Parse(s) == Before(Carried(kind, body), Parse(rest));
  }

  /** The type, the length and the two size checks of one capsule. */
  method ReadHead(buf: seq<byte>, at: nat) returns (h: Next)
    requires at <= |buf|
    ensures Continues(buf, at, h)
  {
    var kind := Varint.Read(buf[at..]);
    if kind.None? { return More; }
    var (k, kindLen) := kind.value;
    assert buf[at..][kindLen..] == buf[at + kindLen..];
    var length := Varint.Read(buf[at + kindLen..]);
    if length.None? { return More; }
    var (size, sizeLen) := length.value;
    if size > MAX_BUFFER { return TooLong; }
    var header := kindLen + sizeLen;
    if |buf| - at < header + size { return More; }
    assert Head(buf[at..]) == Whole(k, header, header + size);
    var start := at + header;
    var end := start + size;
    WholeAt(buf, at, k, header, size, start, end);
    return Whole(k, start, end);
  }

  datatype Status = Running | BufferFull | CapsuleTooLong | QueueClosed

  datatype Sent = Accepted | Full | Closed

  function Concat(chunks: seq<seq<byte>>): (s: seq<byte>) {
    if chunks == [] then [] else Concat(chunks[..|chunks| - 1]) + chunks[|chunks| - 1]
  }

  class Receiver {
    var buf: seq<byte>
    /** What the receive queue took; a full queue drops a packet. */
    var accepted: seq<Packet>
    ghost var lossless: bool
    /** Whether the queue said that nobody reads from it any more. */
    ghost var abandoned: bool
    ghost var offered: seq<Packet>
    ghost var stream: seq<byte>

    constructor ()
      ensures Valid() && buf == [] && stream == [] && offered == [] && accepted == [] && lossless
    {
      buf, accepted, offered, stream, lossless, abandoned := [], [], [], [], true, false;
    }

    /** Everything complete has been offered, and the buffer holds exactly the unparsed suffix. */
    ghost predicate Valid()
      reads this
    {
      Parse(stream) == Reading(offered, buf, true) && Delivered() && !abandoned
    }

    ghost predicate Delivered()
      reads this
    {
      IsSubsequence(accepted, offered) && (lossless ==> accepted == offered)
    }

    method Offer(packet: Packet) returns (outcome: Sent)
      requires Delivered()
      modifies this`accepted, this`offered, this`lossless, this`abandoned
      ensures Delivered() && offered == old(offered) + [packet]
      ensures lossless <==> old(lossless) && outcome == Accepted
      ensures abandoned <==> old(abandoned) || outcome == Closed
    {
      outcome := *;
      offered := offered + [packet];
      if outcome == Accepted {
        Kept(accepted, old(offered), packet);
        accepted := accepted + [packet];
      } else {
        Missed(accepted, old(offered), packet);
        lossless, abandoned := false, abandoned || outcome == Closed;
      }
    }

    /** The packet of one capsule, if it carries one, is offered to the queue. */
    method Take(kind: nat, payload: seq<byte>, ghost tail: Reading) returns (outcome: Sent)
      requires Delivered()
      modifies this`accepted, this`offered, this`lossless, this`abandoned
      ensures Delivered() && offered == old(offered) + Carried(kind, payload)
      ensures lossless <==> old(lossless) && outcome == Accepted
      ensures abandoned <==> old(abandoned) || outcome == Closed
      ensures Before(offered, tail) == Before(old(offered), Before(Carried(kind, payload), tail))
    {
      outcome := Accepted;
      if kind == 0 {
        var packet := payload;
        if |packet| > 1 && packet[0] == 0 { packet := packet[1..]; }
        if |packet| > 0 && (packet[0] / 16 == 4 || packet[0] / 16 == 6) { outcome := Offer(packet); }
      }
      BeforeTwice(old(offered), Carried(kind, payload), tail);
      assert old(offered) + [] == old(offered);
    }

    /** One chunk. `buf` is extended, drained of whole capsules, and keeps the rest. */
    method Feed(chunk: seq<byte>) returns (status: Status)
      requires Valid()
      modifies this
      ensures stream == old(stream) + chunk && Delivered()
      ensures status == BufferFull <==> |old(buf)| + |chunk| > 0x4_0000
      ensures status == BufferFull ==> buf == old(buf) && offered == old(offered)
      ensures status == Running ==> Valid() && |buf| <= MAX_BUFFER
      ensures status == CapsuleTooLong ==> !Parse(stream).ok && offered == Parse(stream).packets
      ensures status == QueueClosed ==> offered <= Parse(stream).packets
      ensures status == QueueClosed <==> abandoned
    {
      stream := stream + chunk;
      if |buf| + |chunk| > MAX_BUFFER { return BufferFull; }
      ParseAppend(old(stream), chunk);
      buf := buf + chunk;
      var consumed := 0;
      ghost var all := Parse(stream);
      assert buf[0..] == buf;
      while true
        invariant 0 <= consumed <= |buf| && buf == old(buf) + chunk && stream == old(stream) + chunk
        invariant Delivered() && !abandoned && all == Before(offered, Parse(buf[consumed..]))
        decreases |buf| - consumed
      {
        var h := ReadHead(buf, consumed);
        if h.More? { break; }
        if h.TooLong? {
          NothingMore(offered, all, false, buf[consumed..]);
          return CapsuleTooLong;
        }
        var outcome := Take(h.kind, buf[h.start..h.end], Parse(buf[h.end..]));
        if outcome == Closed { return QueueClosed; }
        consumed := h.end;
      }
      NothingMore(offered, all, true, buf[consumed..]);
      status := Running;
      buf := buf[consumed..];
    }
  }

  lemma NothingMore(offered: seq<Packet>, all: Reading, ok: bool, rest: seq<byte>)
    requires all == Before(offered, Reading([], rest, ok))
    ensures all == Reading(offered, rest, ok)
  {
  }

  lemma ConcatNext(chunks: seq<seq<byte>>, i: nat)
    requires i < |chunks|
    ensures Concat(chunks[..i + 1]) == Concat(chunks[..i]) + chunks[i]
  {
    assert chunks[..i + 1][..i] == chunks[..i];
  }

  /** What is known after the first `fed` chunks, by how it ended. */
  ghost predicate Fed(r: Receiver, chunks: seq<seq<byte>>, fed: nat, status: Status)
    reads r
  {
    && fed <= |chunks| && r.stream == Concat(chunks[..fed]) && r.Delivered() && (r.abandoned <==> status == QueueClosed)
    && match status
       case Running => Parse(r.stream) == Reading(r.offered, r.buf, true)
       case CapsuleTooLong => !Parse(r.stream).ok && r.offered == Parse(r.stream).packets
       case BufferFull => fed > 0 && Overflows(chunks, fed - 1)
       case QueueClosed => r.offered <= Parse(r.stream).packets
  }

  method FeedNext(r: Receiver, chunks: seq<seq<byte>>, n: nat) returns (status: Status)
    requires n < |chunks| && Fed(r, chunks, n, Running)
    modifies r
    ensures Fed(r, chunks, n + 1, status)
  {
    ConcatNext(chunks, n);
    status := r.Feed(chunks[n]);
  }

  /** Any chunking of a stream: the packets offered and the bytes kept depend on the stream alone. */
  method Receive(chunks: seq<seq<byte>>) returns (status: Status, r: Receiver, fed: nat)
    ensures fresh(r) && Fed(r, chunks, fed, status)
    ensures status == Running ==> fed == |chunks| && Parse(Concat(chunks)) == Reading(r.offered, r.buf, true)
  {
    r := new Receiver();
    fed := 0;
    status := Running;
    while fed < |chunks|
      invariant fresh(r) && Fed(r, chunks, fed, Running) && status == Running
    {
      status := FeedNext(r, chunks, fed);
      fed := fed + 1;
      if status != Running { return; }
    }
    assert chunks[..fed] == chunks;
  }

  /** Chunk `i` does not fit beside what the earlier ones left over. */
  ghost predicate Overflows(chunks: seq<seq<byte>>, i: nat) {
    i < |chunks| && |Parse(Concat(chunks[..i])).rest| + |chunks[i]| > MAX_BUFFER
  }

  // ---------------------------------------------------------------- streams of whole capsules

  /** A frame whose payload the receiver admits. */
  predicate ValidCapsule(f: Frame) {
    ValidFrame(f) && |f.payload| <= MAX_BUFFER
  }

  predicate ValidCapsules(fs: seq<Frame>) {
    forall i :: 0 <= i < |fs| ==> ValidCapsule(fs[i])
  }

  function FramesPackets(fs: seq<Frame>): (ps: seq<Packet>)
    requires ValidCapsules(fs)
  {
    if fs == [] then [] else Carried(Varint.Value(fs[0].kind), fs[0].payload) + FramesPackets(fs[1..])
  }

  lemma HeadOfFrame(f: Frame, rest: seq<byte>)
    requires ValidCapsule(f)
    ensures Head(f.kind + (f.size + (f.payload + rest)))
         == Whole(Varint.Value(f.kind), |f.kind| + |f.size|, |f.kind| + |f.size| + |f.payload|)
  {
    var s := f.kind + (f.size + (f.payload + rest));
    Varint.ReadWhole(f.kind, f.size + (f.payload + rest));
    assert s[|f.kind|..] == f.size + (f.payload + rest);
    Varint.ReadWhole(f.size, f.payload + rest);
  }

  lemma ParseOfFrame(f: Frame, rest: seq<byte>)
    requires ValidCapsule(f)
    ensures Parse(FrameBytes(f) + rest) == Before(Carried(Varint.Value(f.kind), f.payload), Parse(rest))
  {
    var s := f.kind + (f.size + (f.payload + rest));
    var h := |f.kind| + |f.size|;
    var e := h + |f.payload|;
    assert FrameBytes(f) + rest == s by {
      Associates(f.kind, f.size + f.payload, rest);
      Associates(f.size, f.payload, rest);
    }
    HeadOfFrame(f, rest);
    ParseWhole(s, Varint.Value(f.kind), h, e);
    Slices(f.kind, f.size, f.payload, rest);
  }

  lemma Slices(a: seq<byte>, b: seq<byte>, c: seq<byte>, d: seq<byte>)
    ensures var s := a + (b + (c + d));
            s[|a| + |b|..|a| + |b| + |c|] == c && s[|a| + |b| + |c|..] == d
  {
  }

  /** A proper prefix of a capsule is never taken for a capsule, nor for an error. */
  lemma HeadOfPart(f: Frame, part: seq<byte>)
    requires ValidCapsule(f) && part <= FrameBytes(f) && |part| < |FrameBytes(f)|
    ensures Head(part).More?
  {
    var k := |f.kind|;
    if |part| < k {
      assert part == f.kind[..|part|];
      Varint.ReadPart(f.kind, |part|);
    } else {
      var tail := part[k..];
      assert part == f.kind + tail;
      Varint.ReadWhole(f.kind, tail);
      assert tail == (f.size + f.payload)[..|tail|];
      if |tail| < |f.size| {
        assert tail == f.size[..|tail|];
        Varint.ReadPart(f.size, |tail|);
      } else {
        assert tail == f.size + tail[|f.size|..];
        Varint.ReadWhole(f.size, tail[|f.size|..]);
      }
    }
  }

  /** `r` reads `s` as the first `k` capsules of `fs` and a strict prefix of the next one. */
  ghost predicate Explains(fs: seq<Frame>, s: seq<byte>, k: nat, r: Reading)
    requires ValidCapsules(fs)
  {
    && k <= |fs| && r.ok && r.packets == FramesPackets(fs[..k])
    && (k == |fs| ==> r.rest == [] && s == FramesBytes(fs))
    && (k < |fs| ==> r.rest <= FrameBytes(fs[k]) && |r.rest| < |FrameBytes(fs[k])|)
  }

  lemma ExplainsMore(fs: seq<Frame>, s: seq<byte>, k: nat, r: Reading)
    requires ValidCapsules(fs) && fs != [] && Explains(fs[1..], s, k, r)
    ensures Explains(fs, FrameBytes(fs[0]) + s, k + 1, Before(Carried(Varint.Value(fs[0].kind), fs[0].payload), r))
  {
    var first := fs[..k + 1];
    assert first[1..] == fs[1..][..k] && first[0] == fs[0];
  }

  lemma ExplainsPart(fs: seq<Frame>, s: seq<byte>)
    requires ValidCapsules(fs) && fs != [] && s <= FramesBytes(fs) && |s| < |FrameBytes(fs[0])|
    ensures Explains(fs, s, 0, Parse(s))
  {
    assert s == FrameBytes(fs[0])[..|s|];
    HeadOfPart(fs[0], s);
    assert fs[..0] == [];
  }

  lemma DropFirst(fs: seq<Frame>, s: seq<byte>) returns (rest: seq<byte>)
    requires fs != [] && s <= FramesBytes(fs) && |s| >= |FrameBytes(fs[0])|
    ensures s == FrameBytes(fs[0]) + rest && rest <= FramesBytes(fs[1..])
  {
    var a, b := FrameBytes(fs[0]), FramesBytes(fs[1..]);
    rest := s[|a|..];
    assert s == (a + b)[..|s|];
    assert rest == b[..|rest|];
  }

  /** Any prefix of a stream of capsules: the whole ones are read, and a strict prefix of the next one is kept. */
  lemma {:induction false} PrefixParse(fs: seq<Frame>, s: seq<byte>) returns (k: nat)
    requires ValidCapsules(fs) && s <= FramesBytes(fs)
    ensures Explains(fs, s, k, Parse(s))
    decreases |fs|
  {
    if fs == [] {
      k := 0;
    } else if |s| < |FrameBytes(fs[0])| {
      k := 0;
      ExplainsPart(fs, s);
    } else {
      var rest := DropFirst(fs, s);
      ParseOfFrame(fs[0], rest);
      var k' := PrefixParse(fs[1..], rest);
      ExplainsMore(fs, rest, k', Parse(rest));
      k := k' + 1;
    }
  }

  // ---------------------------------------------------------------- the buffer limit

  ghost predicate AtMost(fs: seq<Frame>, n: int) {
    forall i :: 0 <= i < |fs| ==> |FrameBytes(fs[i])| <= n
  }

  lemma {:induction false} ConcatPrefix(chunks: seq<seq<byte>>, i: nat)
    requires i <= |chunks|
    ensures Concat(chunks[..i]) <= Concat(chunks)
    decreases |chunks| - i
  {
    if i == |chunks| {
      assert chunks[..i] == chunks;
    } else {
      ConcatPrefix(chunks, i + 1);
      assert chunks[..i + 1][..i] == chunks[..i];
    }
  }

  /**
   * Chunks of at most `c` bytes never overflow the buffer when every capsule occupies
   * at most MAX_BUFFER - c + 1 bytes.
   */
  lemma NeverOverflows(fs: seq<Frame>, chunks: seq<seq<byte>>, c: nat, i: nat)
    requires ValidCapsules(fs) && AtMost(fs, MAX_BUFFER - c + 1) && c <= MAX_BUFFER
    requires Concat(chunks) <= FramesBytes(fs) && (forall j :: 0 <= j < |chunks| ==> |chunks[j]| <= c)
    ensures !Overflows(chunks, i)
  {
    if i < |chunks| {
      var s := Concat(chunks[..i]);
      ConcatPrefix(chunks, i);
      assert s <= FramesBytes(fs);
      var k := PrefixParse(fs, s);
    }
  }

  function Filler(n: nat): (s: seq<byte>)
    ensures |s| == n
  {
    seq(n, _ => 0)
  }

  /** The bound is tight: one byte more, and a cut inside the capsule leaves no room for a chunk of `c` bytes. */
  lemma BoundIsTight(c: nat) returns (f: Frame)
    requires 1 <= c <= MAX_BUFFER - 8
    ensures ValidCapsule(f) && |FrameBytes(f)| == MAX_BUFFER - c + 2
    ensures |Parse(FrameBytes(f)[..MAX_BUFFER - c + 1]).rest| + c > MAX_BUFFER
  {
    var total := MAX_BUFFER - c + 2;
    var n := total - 9;
    f := Frame([0], LongForm(n), Filler(n));
    HeadOfPart(f, FrameBytes(f)[..total - 1]);
  }

  /** A length in the eight-byte form. */
  function LongForm(n: nat): (s: seq<byte>)
    requires n <= MAX_BUFFER
    ensures Varint.IsVarint(s) && |s| == 8 && Varint.Value(s) == n
  {
    var s := [192] + Varint.ToBigEndian(n, 7);
    Pow2Adds(32, 24);
    Pow2Values();
    Pow2Mono(30, 56);
    Varint.BigEndianRoundTrip(n, 7);
    assert s[1..8] == Varint.ToBigEndian(n, 7);
    s
  }

  // ---------------------------------------------------------------- sending

  function PacketFrame(p: Packet): (f: Frame)
    requires |p| < Varint.LIMIT
  {
    Frame([0], Varint.Write(|p|), p)
  }

  function SentBytes(ps: seq<Packet>): (s: seq<byte>)
    requires forall i :: 0 <= i < |ps| ==> |ps[i]| < Varint.LIMIT
  {
    if ps == [] then [] else SentBytes(ps[..|ps| - 1]) + FrameBytes(PacketFrame(ps[|ps| - 1]))
  }

  /** One capsule, cut at whatever capacity the stream grants; it may be closed at any time. */
  method SendCapsule(capsule: seq<byte>, chunks: seq<seq<byte>>)
      returns (ok: bool, out: seq<seq<byte>>, ghost closed: bool)
    ensures Concat(chunks) <= Concat(out) <= Concat(chunks) + capsule
    ensures ok ==> Concat(out) == Concat(chunks) + capsule
    ensures ok <==> !closed
  {
    out, closed := chunks, false;
    var remaining := capsule;
    while remaining != []
      invariant Concat(out) + remaining == Concat(chunks) + capsule && Concat(chunks) <= Concat(out) && !closed
      decreases |remaining|
    {
      var closes: bool := *;
      if closes { return false, out, true; }
      var available: nat :| 1 <= available;
      var n := if available < |remaining| then available else |remaining|;
      ConcatSnoc(out, remaining[..n]);
      assert remaining == remaining[..n] + remaining[n..];
      out := out + [remaining[..n]];
      remaining := remaining[n..];
    }
    return true, out, false;
  }

  lemma ConcatSnoc(chunks: seq<seq<byte>>, x: seq<byte>)
    ensures Concat(chunks + [x]) == Concat(chunks) + x
  {
    assert (chunks + [x])[..|chunks|] == chunks;
  }

  /** Packets go out in order, each in a capsule of its own. */
  method SendPackets(ps: seq<Packet>)
      returns (ok: bool, chunks: seq<seq<byte>>, sent: nat, ghost closed: bool)
    requires forall i :: 0 <= i < |ps| ==> |ps[i]| < Varint.LIMIT
    ensures sent <= |ps| && SentBytes(ps[..sent]) <= Concat(chunks)
    ensures ok ==> sent == |ps| && Concat(chunks) == SentBytes(ps)
    ensures !ok ==> sent < |ps| && Concat(chunks) <= SentBytes(ps[..sent + 1])
    ensures forall i :: 0 <= i < sent ==> |ps[i]| <= 1280
    ensures !ok ==> closed == (|ps[sent]| <= 1280)
  {
    chunks, sent, closed := [], 0, false;
    while sent < |ps|
      invariant 0 <= sent <= |ps| && Concat(chunks) == SentBytes(ps[..sent])
      invariant forall i :: 0 <= i < sent ==> |ps[i]| <= MTU
    {
      var packet := ps[sent];
      SentSnoc(ps, sent);
      if |packet| > MTU { return false, chunks, sent, false; }
      var capsule := [0] + (Varint.Write(|packet|) + packet);
      ok, chunks, closed := SendCapsule(capsule, chunks);
      if !ok { return; }
      sent := sent + 1;
    }
    assert ps[..sent] == ps;
    ok := true;
  }

  lemma SentSnoc(ps: seq<Packet>, i: nat)
    requires (forall i :: 0 <= i < |ps| ==> |ps[i]| < Varint.LIMIT) && i < |ps|
    ensures SentBytes(ps[..i + 1]) == SentBytes(ps[..i]) + ([0] + (Varint.Write(|ps[i]|) + ps[i]))
  {
    assert ps[..i + 1][..i] == ps[..i];
  }

  predicate IsIp(p: Packet) {
    p != [] && (p[0] / 16 == 4 || p[0] / 16 == 6)
  }

  /** A packet comes back unchanged exactly when it is IPv4 or IPv6. */
  lemma UnchangedIffIp(p: Packet)
    ensures Carried(0, p) == [p] <==> IsIp(p)
  {
    if |p| > 1 && p[0] == 0 { assert |p[1..]| != |p|; }
  }

  lemma PacketFrameIsValid(p: Packet)
    requires |p| <= MTU && IsIp(p)
    ensures ValidCapsule(PacketFrame(p)) && |FrameBytes(PacketFrame(p))| <= MTU + 3
    ensures Carried(Varint.Value(PacketFrame(p).kind), p) == [p]
  {
    Varint.WriteIsVarint(|p|);
    UnchangedIffIp(p);
  }

  lemma {:induction false} SentIsFrames(ps: seq<Packet>) returns (fs: seq<Frame>)
    requires forall i :: 0 <= i < |ps| ==> |ps[i]| <= MTU && IsIp(ps[i])
    ensures ValidCapsules(fs) && FramesBytes(fs) == SentBytes(ps) && FramesPackets(fs) == ps
    ensures AtMost(fs, MTU + 3)
  {
    if ps == [] {
      fs := [];
    } else {
      InitLast(ps);
      fs := SentIsFrames(ps[..|ps| - 1]);
      fs := OneMoreFrame(fs, ps[|ps| - 1]);
    }
  }

  lemma OneMoreFrame(fs: seq<Frame>, p: Packet) returns (fs': seq<Frame>)
    requires ValidCapsules(fs) && AtMost(fs, MTU + 3) && |p| <= MTU && IsIp(p)
    ensures ValidCapsules(fs') && AtMost(fs', MTU + 3)
    ensures FramesBytes(fs') == FramesBytes(fs) + FrameBytes(PacketFrame(p))
    ensures FramesPackets(fs') == FramesPackets(fs) + [p]
  {
    PacketFrameIsValid(p);
    fs' := fs + [PacketFrame(p)];
    PacketsSnoc(fs, PacketFrame(p));
    BytesSnoc(fs, PacketFrame(p));
  }

  lemma {:induction false} PacketsSnoc(fs: seq<Frame>, f: Frame)
    requires ValidCapsules(fs) && ValidCapsule(f)
    ensures FramesPackets(fs + [f]) == FramesPackets(fs) + Carried(Varint.Value(f.kind), f.payload)
  {
    if fs == [] {
      assert fs + [f] == [f] && [f][1..] == [];
    } else {
      PacketsSnoc(fs[1..], f);
      assert (fs + [f])[1..] == fs[1..] + [f];
    }
  }

  /** Whatever way the sent bytes are cut again on their way, the receiver offers the original packets in order. */
  lemma TunnelRoundTrip(ps: seq<Packet>, chunks: seq<seq<byte>>, c: nat)
    requires forall i :: 0 <= i < |ps| ==> |ps[i]| <= MTU && IsIp(ps[i])
    requires Concat(chunks) == SentBytes(ps)
    requires c <= MAX_BUFFER - MTU - 2 && forall j :: 0 <= j < |chunks| ==> |chunks[j]| <= c
    ensures Parse(Concat(chunks)) == Reading(ps, [], true)
    ensures forall i :: !Overflows(chunks, i)
  {
    var fs := SentIsFrames(ps);
    WholeStream(fs);
    forall i ensures !Overflows(chunks, i) { NeverOverflows(fs, chunks, c, i); }
  }

  lemma {:induction false} WholeStream(fs: seq<Frame>)
    requires ValidCapsules(fs)
    ensures Parse(FramesBytes(fs)) == Reading(FramesPackets(fs), [], true)
  {
    if fs != [] {
      ParseOfFrame(fs[0], FramesBytes(fs[1..]));
      WholeStream(fs[1..]);
    }
  }

  // ---------------------------------------------------------------- what a peer may send

  /** Context id 0 in front of a packet is dropped; the packet is offered exactly when it is IPv4 or IPv6. */
  lemma ContextDropped(p: Packet)
    ensures Carried(0, [0] + p) == [p] <==> IsIp(p)
    ensures !IsIp(p) ==> Carried(0, [0] + p) == []
  {
    assert ([0] + p)[1..] == p;
  }

  /** A capsule as a peer means it. Without a context id a payload must not look as if it had one. */
  datatype Message = Datagram(context: bool, packet: Packet) | Other(kind: nat, payload: seq<byte>)

  predicate ValidMessage(m: Message) {
    match m
    case Datagram(context, packet) => context || |packet| <= 1 || packet[0] != 0
    case Other(kind, _) => kind != 0
  }

  /** `f` is a capsule for `m`, its type and length in any of the four integer sizes. */
  predicate Says(f: Frame, m: Message)
    requires ValidCapsule(f)
  {
    match m
    case Datagram(context, packet) => Varint.Value(f.kind) == 0 && f.payload == (if context then [0] else []) + packet
    case Other(kind, payload) => Varint.Value(f.kind) == kind && f.payload == payload
  }

  function IpPackets(ms: seq<Message>): (ps: seq<Packet>) {
    if ms == [] then []
    else (if ms[0].Datagram? && IsIp(ms[0].packet) then [ms[0].packet] else []) + IpPackets(ms[1..])
  }

  lemma CarriedAsMeant(f: Frame, m: Message)
    requires ValidCapsule(f) && ValidMessage(m) && Says(f, m)
    ensures Carried(Varint.Value(f.kind), f.payload) == if m.Datagram? && IsIp(m.packet) then [m.packet] else []
  {
    if m.Datagram? {
      if m.context {
        ContextDropped(m.packet);
      } else {
        assert f.payload == m.packet;
      }
    }
  }

  ghost predicate SaysAll(fs: seq<Frame>, ms: seq<Message>) {
    && |fs| == |ms| && ValidCapsules(fs)
    && forall i :: 0 <= i < |fs| ==> ValidMessage(ms[i]) && Says(fs[i], ms[i])
  }

  lemma {:induction false} PacketsAsMeant(fs: seq<Frame>, ms: seq<Message>)
    requires SaysAll(fs, ms)
    ensures FramesPackets(fs) == IpPackets(ms)
  {
    if fs != [] {
      CarriedAsMeant(fs[0], ms[0]);
      PacketsAsMeant(fs[1..], ms[1..]);
    }
  }

  /**
   * Any stream of capsules, with or without context ids and with other capsule types between them, cut in any way: the
   * receiver offers exactly the IP packets, in order, and keeps nothing back.
   */
  lemma MixedRoundTrip(ms: seq<Message>, fs: seq<Frame>, chunks: seq<seq<byte>>, c: nat)
    requires SaysAll(fs, ms) && Concat(chunks) == FramesBytes(fs)
    requires c <= MAX_BUFFER && AtMost(fs, MAX_BUFFER - c + 1)
    requires forall j :: 0 <= j < |chunks| ==> |chunks[j]| <= c
    ensures Parse(Concat(chunks)) == Reading(IpPackets(ms), [], true)
    ensures forall i :: !Overflows(chunks, i)
  {
    PacketsAsMeant(fs, ms);
    WholeStream(fs);
    forall i ensures !Overflows(chunks, i) { NeverOverflows(fs, chunks, c, i); }
  }
}
