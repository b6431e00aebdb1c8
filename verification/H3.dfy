/**
 * HTTP/3 frames on a CONNECT stream (sections 4.4 and 7.1 of RFC 9114): the upload and
 * download loops, the search for the response HEADERS, and what a reader may conclude
 * from an end of stream. `Demux` is the reference reader of a whole stream.
 */
module H3 {
  import opened Bits
  import opened Frames
  import opened Outcome
  import opened Spans
  import Varint

  type Bytes = seq<byte>

  const RELAY_BUF: nat := 65536
  const MAX_HEADERS: nat := 65536
  const MAX_SKIPPED: nat := 8
  const DATA: nat := 0
  const HEADERS: nat := 1

  // ---------------------------------------------------------------- what the frames carry

  function IfData(kind: nat, payload: seq<byte>): (s: seq<byte>) {
    if kind == DATA then payload else []
  }

  /** The payloads of the DATA frames, joined. */
  function DataOf(fs: seq<Frame>): (s: seq<byte>)
    requires ValidFrames(fs)
  {
    if fs == [] then [] else IfData(Varint.Value(fs[0].kind), fs[0].payload) + DataOf(fs[1..])
  }

  // ---------------------------------------------------------------- reference reader

  datatype Opening = NoFrame | Opening(kind: nat, start: nat, size: nat)

  /** The frame header at the head of `s`; the payload begins at `start`. */
  function Open(s: seq<byte>): (o: Opening)
    ensures o.Opening? ==> 2 <= o.start <= |s|
  {
    match Varint.Read(s)
    case None => NoFrame
    case Some((kind, k)) =>
      match Varint.Read(s[k..])
      case None => NoFrame
      case Some((size, n)) => Opening(kind, k + n, size)
  }

  datatype Flow = Flow(payload: seq<byte>, clean: bool)

  function Prepend(s: seq<byte>, f: Flow): Flow {
    Flow(s + f.payload, f.clean)
  }

  /** All payload bytes, a truncated last frame included, and whether the stream ended between frames. */
  function Demux(s: seq<byte>): (f: Flow)
    decreases |s|, 0
  {
    if s == [] then Flow([], true)
    else
      match Open(s)
      case NoFrame => Flow([], false)
      case Opening(kind, start, size) => Body(kind, size, s[start..])
  }

  /** The same from inside a frame with `size` payload bytes to come. */
  function Body(kind: nat, size: nat, s: seq<byte>): (f: Flow)
    decreases |s|, 1
  {
    if |s| < size then Flow(IfData(kind, s), false)
    else Prepend(IfData(kind, s[..size]), Demux(s[size..]))
  }

  lemma OpenFrame(f: Frame, rest: seq<byte>) returns (start: nat)
    requires ValidFrame(f)
    ensures var s := f.kind + (f.size + (f.payload + rest));
            Open(s) == Opening(Varint.Value(f.kind), start, |f.payload|) && s[start..] == f.payload + rest
  {
    var s := f.kind + (f.size + (f.payload + rest));
    Varint.ReadWhole(f.kind, f.size + (f.payload + rest));
    assert s[|f.kind|..] == f.size + (f.payload + rest);
    Varint.ReadWhole(f.size, f.payload + rest);
    start := |f.kind| + |f.size|;
  }

  lemma DemuxFrame(f: Frame, rest: seq<byte>)
    requires ValidFrame(f)
    ensures Demux(FrameBytes(f) + rest) == Prepend(IfData(Varint.Value(f.kind), f.payload), Demux(rest))
  {
    assert FrameBytes(f) + rest == f.kind + (f.size + (f.payload + rest));
    var start := OpenFrame(f, rest);
    WholeBody(Varint.Value(f.kind), f.payload, rest);
  }

  lemma WholeBody(kind: nat, payload: seq<byte>, rest: seq<byte>)
    ensures Body(kind, |payload|, payload + rest) == Prepend(IfData(kind, payload), Demux(rest))
  {
    assert (payload + rest)[..|payload|] == payload && (payload + rest)[|payload|..] == rest;
  }

  /** On whole frames: exactly the DATA payloads, and a clean end. */
  lemma {:induction false} DemuxFrames(fs: seq<Frame>)
    requires ValidFrames(fs)
    ensures Demux(FramesBytes(fs)) == Flow(DataOf(fs), true)
  {
    if fs != [] {
      DemuxFrame(fs[0], FramesBytes(fs[1..]));
      DemuxFrames(fs[1..]);
    }
  }

  lemma OpenedFrame(s: seq<byte>) returns (f: Frame, rest: seq<byte>)
    requires Open(s).Opening? && |s| - Open(s).start >= Open(s).size
    ensures ValidFrame(f) && s == FrameBytes(f) + rest && |rest| < |s|
  {
    var k := Varint.Read(s).value.1;
    var n := Varint.Read(s[k..]).value.1;
    IsWholeVarint(s, k);
    IsWholeVarint(s[k..], n);
    var body := s[k..][n..];
    var size := Open(s).size;
    f := Frame(s[..k], s[k..][..n], body[..size]);
    rest := body[size..];
    Pieces(s, k, n, size);
  }

  lemma Pieces(s: seq<byte>, k: nat, n: nat, size: nat)
    requires k + n + size <= |s|
    ensures s == s[..k] + (s[k..][..n] + s[k..][n..][..size]) + s[k..][n..][size..]
  {
  }

  lemma IsWholeVarint(s: seq<byte>, n: nat)
    requires Varint.Read(s).Some? && Varint.Read(s).value.1 == n
    ensures Varint.IsVarint(s[..n]) && Varint.Value(s[..n]) == Varint.Read(s).value.0
  {
    assert s == s[..n] + s[n..];
    Varint.ReadWhole(s[..n], s[n..]);
  }

  lemma CleanOpens(s: seq<byte>)
    requires s != [] && Demux(s).clean
    ensures Open(s).Opening? && |s| - Open(s).start >= Open(s).size
  {
  }

  /** A clean end means whole frames: truncation never looks like a clean end. */
  lemma {:induction false} CleanIsFrames(s: seq<byte>) returns (fs: seq<Frame>)
    requires Demux(s).clean
    ensures ValidFrames(fs) && s == FramesBytes(fs)
    decreases |s|
  {
    if s == [] {
      fs := [];
    } else {
      CleanOpens(s);
      var f, rest := OpenedFrame(s);
      DemuxFrame(f, rest);
      var fs' := CleanIsFrames(rest);
      fs := [f] + fs';
      assert fs[1..] == fs';
    }
  }

  // ---------------------------------------------------------------- the loops

  /** A stream to read from: each read returns any non-empty part of what is left, or the stream breaks. */
  class Source {
    var rest: seq<byte>
    ghost var broken: bool

    constructor (s: seq<byte>)
      ensures rest == s && !broken
    {
      rest, broken := s, false;
    }

    method Read(max: nat) returns (r: Result<seq<byte>>)
      requires max > 0
      modifies this
      ensures r.Ok? ==> r.value + rest == old(rest) && |r.value| <= max && broken == old(broken)
      ensures r.Ok? ==> (r.value == [] <==> old(rest) == [])
      ensures r.Err? ==> broken && rest == old(rest)
    {
      var fails: bool := *;
      if fails {
        broken := true;
        return Err;
      }
      if rest == [] { return Ok([]); }
      var n: nat :| 1 <= n <= max && n <= |rest|;
      r := Ok(rest[..n]);
      rest := rest[n..];
    }

    /** Reads until `n` bytes are there; an early end is an error. */
    method ReadExact(n: nat) returns (r: Result<seq<byte>>)
      modifies this
      ensures old(broken) ==> broken
      ensures r.Ok? ==> |r.value| == n && r.value + rest == old(rest) && broken == old(broken)
      ensures r.Err? ==> broken || |old(rest)| < n
    {
      var got: seq<byte> := [];
      while |got| < n
        invariant |got| <= n && got + rest == old(rest) && broken == old(broken)
      {
        var x := Read(n - |got|);
        if x.Err? || x.value == [] { return Err; }
        got := got + x.value;
      }
      return Ok(got);
    }

    /** A QUIC integer, or nothing when the stream ends just before it. */
    method ReadVarintOrEof() returns (r: Result<Option<nat>>)
      modifies this
      ensures old(broken) ==> broken
      ensures r == Ok(None) ==> old(rest) == [] && rest == [] && broken == old(broken)
      ensures r.Ok? && r.value.Some? ==>
                && Varint.Read(old(rest)).Some? && r.value.value == Varint.Read(old(rest)).value.0
                && rest == old(rest)[Varint.Read(old(rest)).value.1..] && broken == old(broken)
      ensures r.Err? ==> broken || (old(rest) != [] && Varint.Read(old(rest)) == None)
    {
      var first := Read(1);
      if first.Err? { return Err; }
      if first.value == [] { return Ok(None); }
      var x := first.value[0];
      var len := Varint.Announced(x);
      assert old(rest)[0] == x && rest == old(rest)[1..];
      var more := ReadExact(len - 1);
      if more.Err? { return Err; }
      var whole := first.value + more.value;
      assert old(rest) == whole + rest && Varint.IsVarint(whole);
      Varint.ReadWhole(whole, rest);
      return Ok(Some(Varint.Read(whole).value.0));
    }
  }

  /** The two integers of a frame header, or nothing at a normal end. */
  method ReadFrameHead(recv: Source) returns (r: Result<Option<(nat, nat)>>, ghost start: nat)
    modifies recv
    ensures old(recv.broken) ==> recv.broken
    ensures r == Ok(None) ==> old(recv.rest) == [] && recv.rest == []
    ensures r.Ok? && r.value.Some? ==>
              && Open(old(recv.rest)) == Opening(r.value.value.0, start, r.value.value.1)
              && recv.rest == old(recv.rest)[start..] && recv.broken == old(recv.broken)
    ensures r.Err? ==> recv.broken || (old(recv.rest) != [] && Open(old(recv.rest)) == NoFrame)
  {
    start := 0;
    ghost var s := recv.rest;
    var kind := recv.ReadVarintOrEof();
    if kind.Err? { return Err, start; }
    if kind.value.None? { return Ok(None), start; }
    ghost var k := Varint.Read(s).value.1;
    var size := recv.ReadVarintOrEof();
    if size.Err? || size.value.None? { return Err, start; }
    start := k + Varint.Read(s[k..]).value.1;
    assert recv.rest == s[start..];
    return Ok(Some((kind.value.value, size.value.value))), start;
  }

  /** A stream to write to, which may break part of the way. */
  class Sink {
    var written: seq<byte>
    ghost var broken: bool

    constructor ()
      ensures written == [] && !broken
    {
      written, broken := [], false;
    }

    method WriteAll(s: seq<byte>) returns (ok: bool)
      modifies this
      ensures ok ==> written == old(written) + s && broken == old(broken)
      ensures !ok ==> broken && old(written) <= written <= old(written) + s
    {
      ok := *;
      if ok {
        written := written + s;
      } else {
        var n: nat :| n <= |s|;
        written, broken := written + s[..n], true;
      }
    }
  }

  /** Taking `x` from the front of a frame body. */
  lemma BodyStep(kind: nat, size: nat, x: seq<byte>, rest: seq<byte>)
    requires |x| <= size
    ensures Body(kind, size, x + rest) == Prepend(IfData(kind, x), Body(kind, size - |x|, rest))
  {
    var s := x + rest;
    if |s| < size {
      assert IfData(kind, s) == IfData(kind, x) + IfData(kind, rest);
    } else {
      assert s[..size] == x + rest[..size - |x|];
      assert s[size..] == rest[size - |x|..];
      PrependTwice(IfData(kind, x), IfData(kind, rest[..size - |x|]), Demux(s[size..]));
    }
  }

  lemma PrependTwice(a: seq<byte>, b: seq<byte>, f: Flow)
    ensures Prepend(a, Prepend(b, f)) == Prepend(a + b, f)
  {
    assert (a + b) + f.payload == a + (b + f.payload);
  }

  /** What has been written, with what is still to come, makes up the whole. */
  ghost predicate Accounts(whole: Flow, before: seq<byte>, written: seq<byte>, left: Flow) {
    Prepend(before, whole) == Prepend(written, left)
  }

  lemma AccountsPrefix(whole: Flow, before: seq<byte>, written: seq<byte>, left: Flow, some: seq<byte>)
    requires Accounts(whole, before, written, left) && written <= some <= written + left.payload
    ensures some <= before + whole.payload
  {
    assert before + whole.payload == written + left.payload;
  }

  /** Edge to local: only an end between frames is a normal end. */
  method DrainDownload(recv: Source, out: Sink) returns (ok: bool)
    modifies recv, out
    ensures old(out.written) <= out.written <= old(out.written) + Demux(old(recv.rest)).payload
    ensures ok ==> Demux(old(recv.rest)) == Flow(out.written[|old(out.written)|..], true)
    ensures !ok ==> recv.broken || out.broken || !Demux(old(recv.rest)).clean
  {
    ghost var whole, before := Demux(recv.rest), out.written;
    while true
      invariant Accounts(whole, before, out.written, Demux(recv.rest)) && before <= out.written
      decreases |recv.rest|
    {
      var head, start := ReadFrameHead(recv);
      if head.Err? { return false; }
      if head.value.None? {
        assert out.written + [] == out.written;
        return true;
      }
      var (kind, size) := head.value.value;
      var drained := DrainBody(kind, size, recv, out, whole, before);
      if !drained { return false; }
    }
  }

  /** One read inside a frame. */
  lemma TakePart(whole: Flow, before: seq<byte>, w: seq<byte>, kind: nat, size: nat, x: seq<byte>, rest: seq<byte>)
    returns (w': seq<byte>)
    requires |x| <= size && Accounts(whole, before, w, Body(kind, size, x + rest))
    ensures w' == w + IfData(kind, x) && w' <= before + whole.payload
    ensures Accounts(whole, before, w', Body(kind, size - |x|, rest))
  {
    w' := w + IfData(kind, x);
    var left := Body(kind, size - |x|, rest);
    BodyStep(kind, size, x, rest);
    PrependTwice(w, IfData(kind, x), left);
    AccountsPrefix(whole, before, w', left, w');
  }

  lemma StopsHere(whole: Flow, before: seq<byte>, w: seq<byte>, kind: nat, size: nat, rest: seq<byte>)
    requires Accounts(whole, before, w, Body(kind, size, rest))
    ensures w <= before + whole.payload
    ensures rest == [] && size > 0 ==> !whole.clean
    ensures size == 0 ==> Accounts(whole, before, w, Demux(rest))
  {
    AccountsPrefix(whole, before, w, Body(kind, size, rest), w);
    if size == 0 { EmptyBody(kind, rest); }
  }

  /** The payload loop of one frame. */
  method DrainBody(kind: nat, size: nat, recv: Source, out: Sink, ghost whole: Flow, ghost before: seq<byte>)
      returns (ok: bool)
    requires Accounts(whole, before, out.written, Body(kind, size, recv.rest)) && before <= out.written
    modifies recv, out
    ensures before <= out.written <= before + whole.payload
    ensures ok ==> Accounts(whole, before, out.written, Demux(recv.rest)) && |recv.rest| <= |old(recv.rest)|
    ensures !ok ==> recv.broken || out.broken || !whole.clean
  {
    var remaining: nat := size;
    while remaining > 0
      invariant Accounts(whole, before, out.written, Body(kind, remaining, recv.rest)) && before <= out.written
      invariant |recv.rest| <= |old(recv.rest)|
    {
      StopsHere(whole, before, out.written, kind, remaining, recv.rest);
      var chunk := if remaining < RELAY_BUF then remaining else RELAY_BUF;
      var x := recv.Read(chunk);
      if x.Err? || x.value == [] { return false; }
      ghost var w' := TakePart(whole, before, out.written, kind, remaining, x.value, recv.rest);
      if kind == DATA {
        var sent := out.WriteAll(x.value);
        if !sent { return false; }
      }
      assert out.written == w';
      remaining := remaining - |x.value|;
    }
    StopsHere(whole, before, out.written, kind, 0, recv.rest);
    ok := true;
  }

  lemma EmptyBody(kind: nat, s: seq<byte>)
    ensures Body(kind, 0, s) == Demux(s)
  {
    assert s[..0] == [] && s[0..] == s;
  }

  function DataFrame(payload: seq<byte>): (f: Frame)
    requires |payload| < Varint.LIMIT
  {
    Frame(Varint.Write(DATA), Varint.Write(|payload|), payload)
  }

  lemma DataFrameIsValid(payload: seq<byte>)
    requires |payload| < Varint.LIMIT
    ensures ValidFrame(DataFrame(payload)) && Varint.Value(DataFrame(payload).kind) == DATA
    ensures FrameBytes(DataFrame(payload))[0] == 0
  {
    Varint.WriteIsVarint(DATA);
    Varint.WriteIsVarint(|payload|);
  }

  lemma {:induction false} DataSnoc(fs: seq<Frame>, f: Frame)
    requires ValidFrames(fs) && ValidFrame(f)
    ensures DataOf(fs + [f]) == DataOf(fs) + IfData(Varint.Value(f.kind), f.payload)
  {
    if fs == [] {
      assert fs + [f] == [f] && [f][1..] == [];
    } else {
      DataSnoc(fs[1..], f);
      assert (fs + [f])[1..] == fs[1..] + [f];
      Associates(IfData(Varint.Value(fs[0].kind), fs[0].payload), DataOf(fs[1..]),
                 IfData(Varint.Value(f.kind), f.payload));
    }
  }

  /** One more frame: nothing lost between what was framed and what is left to read. */
  lemma UploadStep(fs: seq<Frame>, x: seq<byte>, rest: seq<byte>, before: seq<byte>) returns (fs': seq<Frame>)
    requires ValidFrames(fs) && |x| < Varint.LIMIT
    ensures ValidFrames(fs') && DataOf(fs') + rest == DataOf(fs) + (x + rest)
    ensures before + FramesBytes(fs') == (before + FramesBytes(fs)) + FrameBytes(DataFrame(x))
  {
    fs' := fs + [DataFrame(x)];
    DataFrameIsValid(x);
    assert IfData(DATA, x) == x;
    DataSnoc(fs, DataFrame(x));
    BytesSnoc(fs, DataFrame(x));
    Associates(DataOf(fs), x, rest);
    Associates(before, FramesBytes(fs), FrameBytes(DataFrame(x)));
  }

  /** Local to edge: every non-empty read becomes one DATA frame. */
  method DrainUpload(input: Source, send: Sink) returns (ok: bool, ghost fs: seq<Frame>)
    modifies input, send
    ensures ValidFrames(fs) && DataOf(fs) <= old(input.rest)
    ensures old(send.written) + FramesBytes(fs) <= send.written
    ensures ok ==> send.written == old(send.written) + FramesBytes(fs) && DataOf(fs) == old(input.rest)
    ensures !ok ==> input.broken || send.broken
  {
    fs := [];
    ghost var before, all := send.written, input.rest;
    while true
      invariant ValidFrames(fs) && DataOf(fs) + input.rest == all
      invariant send.written == before + FramesBytes(fs)
      decreases |input.rest|
    {
      var x := input.Read(RELAY_BUF);
      if x.Err? { return false, fs; }
      if x.value == [] { return true, fs; }
      ghost var fs' := UploadStep(fs, x.value, input.rest, before);
      var sent := send.WriteAll(FrameBytes(DataFrame(x.value)));
      if !sent { return false, fs; }
      fs := fs';
    }
  }

  // ---------------------------------------------------------------- from end to end

  function DataFrames(fs: seq<Frame>): (ds: seq<Frame>)
    requires ValidFrames(fs)
  {
    if fs == [] then []
    else if Varint.Value(fs[0].kind) == DATA then [fs[0]] + DataFrames(fs[1..])
    else DataFrames(fs[1..])
  }

  lemma FirstFrame(f: Frame, rest: seq<Frame>)
    requires ValidFrame(f) && ValidFrames(rest)
    ensures ValidFrames([f] + rest) && DataOf([f] + rest) == IfData(Varint.Value(f.kind), f.payload) + DataOf(rest)
  {
    assert ([f] + rest)[1..] == rest;
  }

  /** Frames of other types, wherever they stand, change nothing for the payload. */
  lemma {:induction false} OthersCarryNothing(fs: seq<Frame>)
    requires ValidFrames(fs)
    ensures ValidFrames(DataFrames(fs)) && DataOf(DataFrames(fs)) == DataOf(fs)
  {
    if fs != [] {
      OthersCarryNothing(fs[1..]);
      if Varint.Value(fs[0].kind) == DATA {
        FirstFrame(fs[0], DataFrames(fs[1..]));
      } else {
        NothingCarried(fs);
      }
    }
  }

  lemma NothingCarried(fs: seq<Frame>)
    requires ValidFrames(fs) && fs != [] && Varint.Value(fs[0].kind) != DATA
    ensures DataOf(fs) == DataOf(fs[1..])
  {
  }

  /**
   * What stands between the two ends: it may add and remove frames of other types, and leaves the DATA frames alone.
   */
  ghost predicate KeepsData(edge: Bytes -> Bytes) {
    forall fs {:trigger Delivers(edge(FramesBytes(fs)), fs)} | ValidFrames(fs) :: Delivers(edge(FramesBytes(fs)), fs)
  }

  ghost predicate Delivers(stream: seq<byte>, fs: seq<Frame>)
    requires ValidFrames(fs)
  {
    exists gs :: ValidFrames(gs) && stream == FramesBytes(gs) && DataFrames(gs) == DataFrames(fs)
  }

  lemma DeliveredWhole(stream: seq<byte>, fs: seq<Frame>)
    requires ValidFrames(fs) && Delivers(stream, fs)
    ensures Demux(stream) == Flow(DataOf(fs), true)
  {
    var gs :| ValidFrames(gs) && stream == FramesBytes(gs) && DataFrames(gs) == DataFrames(fs);
    OthersCarryNothing(fs);
    OthersCarryNothing(gs);
    DemuxFrames(gs);
  }

  /**
   * One end uploads, the other downloads, each with its own read sizes, and the edge between them mixes in any frames
   * of other types: if both loops succeed, exactly the bytes read at one end are written at the other. Once the upload
   * succeeded, what is written is a beginning of them, and only a broken stream keeps it from being all.
   */
  method Tunnel(input: Source, out: Sink, edge: Bytes -> Bytes) returns (up: bool, down: bool, ghost lost: bool)
    requires KeepsData(edge)
    modifies input, out
    ensures up && down ==> out.written == old(out.written) + old(input.rest)
    ensures up ==> old(out.written) <= out.written <= old(out.written) + old(input.rest)
    ensures !up ==> !down && out.written == old(out.written)
    ensures !(up && down) ==> input.broken || out.broken || lost
  {
    var wire := new Sink();
    ghost var fs;
    up, fs := DrainUpload(input, wire);
    down, lost := false, wire.broken;
    if up {
      assert wire.written == FramesBytes(fs);
      EdgeDelivers(edge, wire.written, fs);
      down, lost := ReceiveStream(edge(wire.written), out, fs);
    }
  }

  lemma EdgeDelivers(edge: Bytes -> Bytes, sent: seq<byte>, fs: seq<Frame>)
    requires KeepsData(edge) && ValidFrames(fs) && sent == FramesBytes(fs)
    ensures Delivers(edge(sent), fs)
  {
    assert Delivers(edge(FramesBytes(fs)), fs);
  }

  /** The downloading end of the tunnel, on a stream that carries the DATA frames of `fs`. */
  method ReceiveStream(stream: seq<byte>, out: Sink, ghost fs: seq<Frame>) returns (down: bool, ghost lost: bool)
    requires ValidFrames(fs) && Delivers(stream, fs)
    modifies out
    ensures old(out.written) <= out.written <= old(out.written) + DataOf(fs)
    ensures down ==> out.written == old(out.written) + DataOf(fs)
    ensures !down ==> out.broken || lost
  {
    DeliveredWhole(stream, fs);
    var recv := new Source(stream);
    down := DrainDownload(recv, out);
    lost := recv.broken;
    ghost var before := old(out.written);
    assert down ==> out.written == before + out.written[|before|..];
  }

  // ---------------------------------------------------------------- the CONNECT response

  /** What the next frame means for the search: an error, the response, or one frame to skip. */
  datatype Verdict = Stop | Take(payload: seq<byte>) | Skip(rest: seq<byte>)

  function Judge(kind: nat, size: nat, body: seq<byte>): (v: Verdict) {
    if |body| < size || (kind == HEADERS && size > MAX_HEADERS) then Stop
    else if kind == HEADERS then Take(body[..size])
    else Skip(body[size..])
  }

  function Look(s: seq<byte>): (v: Verdict) {
    match Open(s)
    case NoFrame => Stop
    case Opening(kind, start, size) => Judge(kind, size, s[start..])
  }

  /** The first payload taken within `n` looks. */
  function Search(look: Bytes -> Verdict, s: seq<byte>, n: nat): (r: Option<seq<byte>>)
    decreases n
  {
    if n == 0 then None
    else
      match look(s)
      case Stop => None
      case Take(payload) => Some(payload)
      case Skip(rest) => Search(look, rest, n - 1)
  }

  /** The payload of the first HEADERS frame among the first `n` frames. */
  function FirstHeaders(s: seq<byte>, n: nat): (r: Option<seq<byte>>) {
    Search(Look, s, n)
  }

  lemma {:induction false} SearchSkips(look: Bytes -> Verdict, ss: seq<seq<byte>>, n: nat)
    requires |ss| > 0 && forall i :: 0 <= i < |ss| - 1 ==> look(ss[i]) == Skip(ss[i + 1])
    ensures Search(look, ss[0], n) == if n < |ss| - 1 then None else Search(look, ss[|ss| - 1], n - (|ss| - 1))
  {
    if |ss| > 1 && n > 0 {
      var rest := ss[1..];
      forall i | 0 <= i < |rest| - 1 ensures look(rest[i]) == Skip(rest[i + 1]) {
        assert look(ss[i + 1]) == Skip(ss[i + 2]);
      }
      SearchSkips(look, rest, n - 1);
    }
  }

  method DiscardFrame(recv: Source, size: nat) returns (ok: bool)
    modifies recv
    ensures old(recv.broken) ==> recv.broken
    ensures ok ==> size <= |old(recv.rest)| && recv.rest == old(recv.rest)[size..] && recv.broken == old(recv.broken)
    ensures !ok ==> recv.broken || |old(recv.rest)| < size
  {
    var remaining: nat := size;
    while remaining > 0
      invariant remaining <= size && recv.broken == old(recv.broken)
      invariant size - remaining <= |old(recv.rest)| && recv.rest == old(recv.rest)[size - remaining..]
    {
      var chunk := if remaining < RELAY_BUF then remaining else RELAY_BUF;
      var x := recv.ReadExact(chunk);
      if x.Err? { return false; }
      remaining := remaining - chunk;
    }
    return true;
  }

  /** One round of the search, independent of how the bytes arrive. */
  method ReadNext(recv: Source) returns (r: Result<Option<seq<byte>>>)
    modifies recv
    ensures r.Ok? && r.value.Some? ==> Look(old(recv.rest)) == Take(r.value.value)
    ensures r == Ok(None) ==> Look(old(recv.rest)) == Skip(recv.rest)
    ensures r.Err? ==> recv.broken || Look(old(recv.rest)) == Stop
  {
    var head, start := ReadFrameHead(recv);
    if head.Err? || head.value.None? { return Err; }
    var (kind, size) := head.value.value;
    ghost var body := recv.rest;
    if kind == HEADERS {
      if size > MAX_HEADERS { return Err; }
      var payload := recv.ReadExact(size);
      if payload.Err? { return Err; }
      assert payload.value == body[..size];
      return Ok(Some(payload.value));
    }
    var ok := DiscardFrame(recv, size);
    return if ok then Ok(None) else Err;
  }

  /** The rounds so far: each skipped one frame. */
  ghost predicate Trail(ss: seq<seq<byte>>) {
    |ss| > 0 && forall i :: 0 <= i < |ss| - 1 ==> Look(ss[i]) == Skip(ss[i + 1])
  }

  lemma TrailGrows(ss: seq<seq<byte>>, s: seq<byte>)
    requires Trail(ss) && Look(ss[|ss| - 1]) == Skip(s)
    ensures Trail(ss + [s])
  {
    var ss' := ss + [s];
    forall i | 0 <= i < |ss'| - 1 ensures Look(ss'[i]) == Skip(ss'[i + 1]) {
      if i < |ss| - 1 { assert Look(ss[i]) == Skip(ss[i + 1]); }
    }
  }

  /** What the rounds so far mean for the whole search. */
  lemma TrailDecides(ss: seq<seq<byte>>, limit: nat, v: Verdict)
    requires Trail(ss) && |ss| - 1 <= limit && v == Look(ss[|ss| - 1])
    ensures |ss| - 1 == limit || v.Stop? ==> FirstHeaders(ss[0], limit) == None
    ensures |ss| - 1 < limit && v.Take? ==> FirstHeaders(ss[0], limit) == Some(v.payload)
  {
    SearchSkips(Look, ss, limit);
  }

  method SearchHeaders(recv: Source, limit: nat) returns (r: Result<seq<byte>>)
    modifies recv
    ensures r.Ok? ==> FirstHeaders(old(recv.rest), limit) == Some(r.value)
    ensures r.Err? ==> recv.broken || FirstHeaders(old(recv.rest), limit) == None
  {
    var left := limit;
    ghost var ss := [recv.rest];
    while left > 0
      invariant Trail(ss) && |ss| - 1 + left == limit && ss[0] == old(recv.rest) && ss[|ss| - 1] == recv.rest
    {
      TrailDecides(ss, limit, Look(recv.rest));
      var next := ReadNext(recv);
      if next.Err? { return Err; }
      if next.value.Some? { return Ok(next.value.value); }
      TrailGrows(ss, recv.rest);
      ss := ss + [recv.rest];
      left := left - 1;
    }
    TrailDecides(ss, limit, Look(recv.rest));
    return Err;
  }

  /** Skips unknown frames, eight frames in all at most, and takes the HEADERS payload. */
  method ReadHeaders(recv: Source) returns (r: Result<seq<byte>>)
    modifies recv
    ensures r.Ok? ==> FirstHeaders(old(recv.rest), 8) == Some(r.value)
    ensures r.Err? ==> recv.broken || FirstHeaders(old(recv.rest), 8) == None
  {
    r := SearchHeaders(recv, MAX_SKIPPED);
  }

  lemma LookAtFrame(g: Frame, more: seq<byte>)
    requires ValidFrame(g)
    ensures Look(FrameBytes(g) + more) ==
            if Varint.Value(g.kind) != HEADERS then Skip(more)
            else if |g.payload| <= MAX_HEADERS then Take(g.payload) else Stop
  {
    var s := g.kind + (g.size + (g.payload + more));
    assert FrameBytes(g) + more == s by {
      Associates(g.kind, g.size + g.payload, more);
      Associates(g.size, g.payload, more);
    }
    var start := OpenFrame(g, more);
    var body := g.payload + more;
    assert body[..|g.payload|] == g.payload && body[|g.payload|..] == more;
  }

  predicate NoHeaders(fs: seq<Frame>) {
    fs == [] || (ValidFrame(fs[0]) && Varint.Value(fs[0].kind) != HEADERS && NoHeaders(fs[1..]))
  }

  lemma LookAtFirst(fs: seq<Frame>, tail: seq<byte>)
    requires fs != [] && NoHeaders(fs)
    ensures Look(FramesBytes(fs) + tail) == Skip(FramesBytes(fs[1..]) + tail)
  {
    Associates(FrameBytes(fs[0]), FramesBytes(fs[1..]), tail);
    LookAtFrame(fs[0], FramesBytes(fs[1..]) + tail);
  }

  lemma TrailStarts(s: seq<byte>, ss: seq<seq<byte>>)
    requires Trail(ss) && Look(s) == Skip(ss[0])
    ensures Trail([s] + ss)
  {
    var ss' := [s] + ss;
    forall i | 0 <= i < |ss'| - 1 ensures Look(ss'[i]) == Skip(ss'[i + 1]) {
      if i > 0 { assert Look(ss[i - 1]) == Skip(ss[i]); }
    }
  }

  /** The streams the search sees, one frame fewer each time. */
  lemma {:induction false} TrailOf(fs: seq<Frame>, tail: seq<byte>) returns (ss: seq<seq<byte>>)
    requires NoHeaders(fs)
    ensures Trail(ss) && |ss| == |fs| + 1 && ss[0] == FramesBytes(fs) + tail && ss[|fs|] == tail
  {
    if fs == [] {
      ss := [tail];
      assert FramesBytes(fs) + tail == tail;
    } else {
      ss := TrailOf(fs[1..], tail);
      LookAtFirst(fs, tail);
      TrailStarts(FramesBytes(fs) + tail, ss);
      ss := [FramesBytes(fs) + tail] + ss;
    }
  }

  /** The code finds the response behind at most seven other whole frames. */
  lemma HeadersFound(fs: seq<Frame>, f: Frame, rest: seq<byte>, n: nat)
    requires NoHeaders(fs) && ValidFrame(f) && Varint.Value(f.kind) == 1
    ensures FirstHeaders(FramesBytes(fs) + (FrameBytes(f) + rest), n)
         == if |fs| < n && |f.payload| <= 0x1_0000 then Some(f.payload) else None
  {
    var ss := TrailOf(fs, FrameBytes(f) + rest);
    SearchSkips(Look, ss, n);
    LookAtFrame(f, rest);
  }

  // ---------------------------------------------------------------- what an end of stream proves

  /** The pump task: running, dropping its pipe end, or with its result ready for the join handle. */
  datatype Task = Running | Closing(ok: bool) | Finished(ok: bool)

  /** Where the download loop stands: between frames, or with so many payload bytes of a frame still to read. */
  datatype Position = Between | Inside(kind: nat, remaining: nat)

  /**
   * One `FramedStream`. `input` is the remote byte stream and `rest` what the download loop has not read of it;
   * `pending` is read but not yet in the pipe, `written` what was put there, `taken` how much of that was read. `held`
   * says whether the join handle is still there, `first` is the first terminal result a read returned (true for an end
   * of stream).
   */
  datatype Link = Link(
    input: seq<byte>, rest: seq<byte>, at: Position, pending: seq<byte>, written: seq<byte>, taken: nat,
    task: Task, held: bool, first: Option<bool>)

  ghost predicate Start(l: Link) {
    l == Link(l.input, l.input, Between, [], [], 0, Running, true, None)
  }

  /** The download loop reads a frame header, in one piece as far as anyone can see. */
  ghost predicate PumpOpens(l: Link, l': Link) {
    && l.task == Running && l.at == Between
    && match Open(l.rest)
       case NoFrame => false
       case Opening(kind, start, size) => l' == l.(rest := l.rest[start..], at := Inside(kind, size))
  }

  /** It reads any part of the payload that is there; only DATA is to be written. */
  ghost predicate PumpReads(l: Link, l': Link, n: nat) {
    && l.task == Running && l.at.Inside? && l.pending == []
    && 0 < n <= |l.rest| && n <= l.at.remaining && n <= RELAY_BUF
    && l' == l.(rest := l.rest[n..], at := Inside(l.at.kind, l.at.remaining - n),
                pending := IfData(l.at.kind, l.rest[..n]))
  }

  /** It writes as much as the pipe has room for. */
  ghost predicate PumpWrites(l: Link, l': Link, n: nat) {
    && l.task == Running && 0 < n <= |l.pending| && |l.written| + n <= l.taken + RELAY_BUF
    && l' == l.(written := l.written + l.pending[..n], pending := l.pending[n..])
  }

  ghost predicate PumpClosesFrame(l: Link, l': Link) {
    l.task == Running && l.at.Inside? && l.at.remaining == 0 && l.pending == [] && l' == l.(at := Between)
  }

  /** The pump succeeds at an end of the stream between frames; it may fail at any time. */
  ghost predicate PumpReturns(l: Link, l': Link, ok: bool) {
    && l.task == Running && (ok ==> l.at == Between && l.rest == [] && l.pending == [])
    && l' == l.(task := Closing(ok))
  }

  ghost predicate ResultReady(l: Link, l': Link) {
    l.task.Closing? && l' == l.(task := Finished(l.task.ok))
  }

  ghost predicate ReadsData(l: Link, l': Link, n: nat) {
    0 < n <= |l.written| - l.taken && l' == l.(taken := l.taken + n)
  }

  /** A read at the end of the pipe: the pump's result decides, and is reported once. */
  ghost predicate ReadsEnd(l: Link, l': Link) {
    && l.taken == |l.written| && !l.task.Running?
    && if l.held then
         l.task.Finished? && l' == l.(held := false, first := if l.first.None? then Some(l.task.ok) else l.first)
       else
         l' == l.(first := if l.first.None? then Some(true) else l.first)
  }

  ghost predicate PumpStep(l: Link, l': Link) {
    || PumpOpens(l, l') || (exists n: nat :: PumpReads(l, l', n)) || (exists n: nat :: PumpWrites(l, l', n))
    || PumpClosesFrame(l, l') || (exists ok :: PumpReturns(l, l', ok))
  }

  ghost predicate Step(l: Link, l': Link) {
    PumpStep(l, l') || ResultReady(l, l') || (exists n: nat :: ReadsData(l, l', n)) || ReadsEnd(l, l')
  }

  ghost predicate Run(ls: seq<Link>) {
    |ls| > 0 && Start(ls[0]) && forall i :: 0 <= i < |ls| - 1 ==> Step(ls[i], ls[i + 1])
  }

  /** What the unread part still holds for a loop at this position. */
  function Left(at: Position, rest: seq<byte>): (f: Flow) {
    if at.Between? then Demux(rest) else Body(at.kind, at.remaining, rest)
  }

  ghost predicate Sound(l: Link) {
    && l.taken <= |l.written| <= l.taken + 0x1_0000
    && Accounts(Demux(l.input), [], l.written + l.pending, Left(l.at, l.rest))
    && (!l.task.Running? && l.task.ok ==> l.at == Between && l.rest == [] && l.pending == [])
    && (l.held <==> l.first.None?)
    && (l.first == Some(true) ==> !l.task.Running? && l.task.ok && l.taken == |l.written|)
  }

  lemma ReadsKeepSound(l: Link, l': Link, n: nat)
    requires Sound(l) && PumpReads(l, l', n)
    ensures Sound(l')
  {
    var x, rest := l.rest[..n], l.rest[n..];
    assert l.rest == x + rest;
    assert l.written + l.pending == l.written && l'.written + l'.pending == l.written + IfData(l.at.kind, x);
    var _ := TakePart(Demux(l.input), [], l.written, l.at.kind, l.at.remaining, x, rest);
  }

  lemma WritesKeepSound(l: Link, l': Link, n: nat)
    requires Sound(l) && PumpWrites(l, l', n)
    ensures Sound(l')
  {
    assert l.pending == l.pending[..n] + l.pending[n..];
    Associates(l.written, l.pending[..n], l.pending[n..]);
  }

  lemma OpensAndClosesKeepSound(l: Link, l': Link)
    requires Sound(l) && (PumpOpens(l, l') || PumpClosesFrame(l, l'))
    ensures Sound(l')
  {
    if PumpClosesFrame(l, l') { EmptyBody(l.at.kind, l.rest); }
  }

  lemma PumpKeepsSound(l: Link, l': Link)
    requires Sound(l) && PumpStep(l, l')
    ensures Sound(l') && l'.input == l.input
  {
    if n: nat :| PumpReads(l, l', n) {
      ReadsKeepSound(l, l', n);
    } else if n: nat :| PumpWrites(l, l', n) {
      WritesKeepSound(l, l', n);
    } else if PumpOpens(l, l') || PumpClosesFrame(l, l') {
      OpensAndClosesKeepSound(l, l');
    }
  }

  lemma StepKeepsSound(l: Link, l': Link)
    requires Sound(l) && Step(l, l')
    ensures Sound(l') && l'.input == l.input
  {
    if PumpStep(l, l') { PumpKeepsSound(l, l'); }
  }

  lemma {:induction false} RunKeepsSound(ls: seq<Link>)
    requires Run(ls)
    ensures Sound(ls[|ls| - 1]) && ls[|ls| - 1].input == ls[0].input
  {
    if |ls| == 1 {
      assert ls[0].written + ls[0].pending == [];
    } else {
      var init := ls[..|ls| - 1];
      RunKeepsSound(init);
      assert Step(ls[|ls| - 2], ls[|ls| - 1]);
      StepKeepsSound(init[|init| - 1], ls[|ls| - 1]);
    }
  }

  /** In every run what the reader took is a beginning of the payload, and the pipe holds at most 64 KiB. */
  lemma RunIsSound(ls: seq<Link>)
    requires Run(ls)
    ensures var l := ls[|ls| - 1];
            && l.taken <= |l.written| <= l.taken + 0x1_0000
            && l.written[..l.taken] <= l.written <= l.written + l.pending <= Demux(ls[0].input).payload
  {
    RunKeepsSound(ls);
    var l := ls[|ls| - 1];
    AccountsPrefix(Demux(l.input), [], l.written + l.pending, Left(l.at, l.rest), l.written + l.pending);
  }

  /**
   * If the first terminal result is an end of stream, the reader has every payload byte of a whole number of frames.
   */
  lemma EndMeansComplete(ls: seq<Link>)
    requires Run(ls) && ls[|ls| - 1].first == Some(true)
    ensures var l := ls[|ls| - 1]; l.taken <= |l.written| && Demux(ls[0].input) == Flow(l.written[..l.taken], true)
  {
    RunKeepsSound(ls);
    var l := ls[|ls| - 1];
    assert l.written[..l.taken] == l.written == (l.written + l.pending) + [];
    assert [] + Demux(l.input).payload == Demux(l.input).payload;
  }

  // ---------------------------------------------------------------- a clean stream can be read to its end

  function Stage(t: Task): (n: nat) {
    if t.Running? then 2 else if t.Closing? then 1 else 0
  }

  /** `m` is nearer to the end of the read than `l`. */
  ghost predicate Nearer(m: Link, l: Link) {
    || Stage(m.task) < Stage(l.task)
    || (m.task == l.task &&
        (|m.rest| < |l.rest| || (m.rest == l.rest &&
        (|m.pending| < |l.pending| || (m.pending == l.pending && m.written == l.written &&
        (m.taken > l.taken || (m.taken == l.taken && l.at.Inside? && m.at.Between?)))))))
  }

  /** Nothing has failed, and what is left of the stream ends between frames. */
  ghost predicate OnCourse(l: Link) {
    Sound(l) && l.first.None? && Left(l.at, l.rest).clean && (!l.task.Running? ==> l.task.ok)
  }

  lemma OneByte(l: Link) returns (m: Link)
    requires OnCourse(l) && l.task.Running? && l.pending == [] && l.at.Inside? && l.at.remaining > 0
    ensures PumpReads(l, m, 1) && Left(m.at, m.rest).clean
  {
    var x := l.rest[..1];
    assert l.rest == x + l.rest[1..];
    BodyStep(l.at.kind, l.at.remaining, x, l.rest[1..]);
    m := l.(rest := l.rest[1..], at := Inside(l.at.kind, l.at.remaining - 1), pending := IfData(l.at.kind, x));
  }

  lemma PumpOnward(l: Link) returns (m: Link)
    requires OnCourse(l) && l.task.Running? && l.pending == []
    ensures PumpStep(l, m) && OnCourse(m) && Nearer(m, l)
  {
    if l.at.Inside? {
      if l.at.remaining > 0 {
        m := OneByte(l);
      } else {
        EmptyBody(l.at.kind, l.rest);
        m := l.(at := Between);
      }
    } else if l.rest != [] {
      CleanOpens(l.rest);
      var o := Open(l.rest);
      m := l.(rest := l.rest[o.start..], at := Inside(o.kind, o.size));
      assert PumpOpens(l, m);
    } else {
      m := l.(task := Closing(true));
      assert PumpReturns(l, m, true);
    }
    PumpKeepsSound(l, m);
  }

  lemma Onward(l: Link) returns (m: Link)
    requires OnCourse(l)
    ensures Step(l, m) && Sound(m) && m.input == l.input && (m.first == Some(true) || (OnCourse(m) && Nearer(m, l)))
  {
    if l.task.Running? && l.pending == [] {
      m := PumpOnward(l);
    } else if l.task.Running? && |l.written| < l.taken + RELAY_BUF {
      m := l.(written := l.written + l.pending[..1], pending := l.pending[1..]);
      assert PumpWrites(l, m, 1);
    } else if l.taken < |l.written| {
      m := l.(taken := l.taken + 1);
      assert ReadsData(l, m, 1);
    } else if l.task.Closing? {
      m := l.(task := Finished(true));
      assert ResultReady(l, m);
    } else {
      m := l.(held := false, first := Some(true));
      assert ReadsEnd(l, m);
    }
    StepKeepsSound(l, m);
  }

  ghost predicate Steps(ls: seq<Link>) {
    |ls| > 0 && forall i :: 0 <= i < |ls| - 1 ==> Step(ls[i], ls[i + 1])
  }

  lemma {:induction false} CanFinish(l: Link) returns (ls: seq<Link>)
    requires OnCourse(l)
    ensures Steps(ls) && ls[0] == l && ls[|ls| - 1].first == Some(true)
    decreases Stage(l.task), |l.rest|, |l.pending|, |l.written| - l.taken, l.at.Inside?
  {
    var m := Onward(l);
    if m.first == Some(true) {
      ls := [l, m];
    } else {
      ls := CanFinish(m);
      StepFirst(l, ls);
      ls := [l] + ls;
    }
  }

  lemma StepFirst(l: Link, ls: seq<Link>)
    requires Steps(ls) && Step(l, ls[0])
    ensures Steps([l] + ls)
  {
    var all := [l] + ls;
    forall i | 0 <= i < |all| - 1 ensures Step(all[i], all[i + 1]) {
      if i > 0 { assert Step(ls[i - 1], ls[i]); }
    }
  }

  /** Every stream of whole frames has a run in which the reader meets its end, and so has all of the payload. */
  lemma CleanCanComplete(input: seq<byte>) returns (ls: seq<Link>)
    requires Demux(input).clean
    ensures Run(ls) && ls[0].input == input
    ensures var l := ls[|ls| - 1];
            l.first == Some(true) && l.taken <= |l.written| && l.written[..l.taken] == Demux(input).payload
  {
    var l := Link(input, input, Between, [], [], 0, Running, true, None);
    RunKeepsSound([l]);
    ls := CanFinish(l);
    EndMeansComplete(ls);
  }
}
