/**
 * The two packet queues of the data plane, with tail drop: outer UDP packets waiting
 * for the socket, and the device queues between the IP stack and the tunnel. Also the
 * reserved bytes of outer packets and the rate-limited decapsulation report.
 */
module PacketQueues {
  import opened Bits
  import opened Outcome
  import opened Subsequence

  type Packet = seq<byte>

  const MAX_PENDING: nat := 256

  /** What the socket says to one attempt to send. */
  datatype Attempt = Accepted | WouldBlock | Broken

  datatype Poll = Done | Pending | Failed

  /** Every packet was offered as often as it is found among the kept and the gone ones. */
  ghost predicate Balanced(offered: seq<Packet>, kept: seq<Packet>, gone: seq<Packet>) {
    multiset(offered) == multiset(kept) + multiset(gone)
  }

  /** Everything offered is accounted for, and what went out or waits is in the order offered. */
  ghost predicate Conserved(offered: seq<Packet>, out: seq<Packet>, waiting: seq<Packet>, gone: seq<Packet>) {
    IsSubsequence(out + waiting, offered) && Balanced(offered, out + waiting, gone)
  }

  /** One more joins at the back. */
  lemma Enqueue(offered: seq<Packet>, out: seq<Packet>, waiting: seq<Packet>, gone: seq<Packet>, p: Packet,
                offered': seq<Packet>, waiting': seq<Packet>)
    requires Conserved(offered, out, waiting, gone) && offered' == offered + [p] && waiting' == waiting + [p]
    ensures Conserved(offered', out, waiting', gone)
  {
    Kept(out + waiting, offered, p);
    assert out + waiting' == (out + waiting) + [p];
  }

  lemma PassThrough(offered: seq<Packet>, out: seq<Packet>, gone: seq<Packet>, p: Packet,
                    offered': seq<Packet>, out': seq<Packet>)
    requires Conserved(offered, out, [], gone) && offered' == offered + [p] && out' == out + [p]
    ensures Conserved(offered', out', [], gone)
  {
    assert out + [] == out && out' + [] == out';
    Kept(out, offered, p);
  }

  lemma Refuse(offered: seq<Packet>, out: seq<Packet>, waiting: seq<Packet>, gone: seq<Packet>, p: Packet,
               offered': seq<Packet>, gone': seq<Packet>)
    requires Conserved(offered, out, waiting, gone) && offered' == offered + [p] && gone' == gone + [p]
    ensures Conserved(offered', out, waiting, gone')
  {
    Missed(out + waiting, offered, p);
  }

  /** The oldest is lost on its way out. */
  lemma Lose(offered: seq<Packet>, out: seq<Packet>, waiting: seq<Packet>, gone: seq<Packet>,
             waiting': seq<Packet>, gone': seq<Packet>)
    requires Conserved(offered, out, waiting, gone) && waiting != []
    requires waiting' == waiting[1..] && gone' == gone + [waiting[0]]
    ensures Conserved(offered, out, waiting', gone') && out + [waiting[0]] + waiting' == out + waiting
  {
    var h := [waiting[0]];
    assert out + waiting == out + h + waiting';
    DropMiddle(out, h, waiting', offered);
    assert multiset(out + waiting) == multiset(out + waiting') + multiset(h);
  }

  /** The first `n` of the packets that waited went out; the others still wait. */
  ghost predicate Moved(out: seq<Packet>, waiting: seq<Packet>, n: nat, out': seq<Packet>, waiting': seq<Packet>) {
    n <= |waiting| && out' == out + waiting[..n] && waiting' == waiting[n..]
  }

  lemma MovedNone(out: seq<Packet>, waiting: seq<Packet>)
    ensures Moved(out, waiting, 0, out, waiting)
  {
  }

  lemma MovedNext(out: seq<Packet>, waiting: seq<Packet>, n: nat, out': seq<Packet>, waiting': seq<Packet>)
    requires Moved(out, waiting, n, out', waiting') && waiting' != []
    ensures n < |waiting| && waiting'[0] == waiting[n] && waiting'[1..] == waiting[n + 1..]
    ensures Moved(out, waiting, n + 1, out' + [waiting'[0]], waiting'[1..])
  {
    assert waiting[..n + 1] == waiting[..n] + [waiting[n]];
  }

  lemma MovedKept(offered: seq<Packet>, out: seq<Packet>, waiting: seq<Packet>, gone: seq<Packet>, n: nat,
                  out': seq<Packet>, waiting': seq<Packet>)
    requires Conserved(offered, out, waiting, gone) && Moved(out, waiting, n, out', waiting')
    ensures Conserved(offered, out', waiting', gone) && |waiting'| <= |waiting|
  {
    assert out' + waiting' == out + waiting;
  }

  // ---------------------------------------------------------------- outer packets

  class OuterQueue {
    var pending: seq<Packet>
    ghost var offered: seq<Packet>
    ghost var emitted: seq<Packet>
    /** Dropped at a full queue, or refused by a broken socket. */
    ghost var gone: seq<Packet>

    ghost predicate Valid()
      reads this
    {
      |pending| <= MAX_PENDING && Conserved(offered, emitted, pending, gone)
    }

    constructor ()
      ensures Valid() && pending == [] && offered == [] && emitted == [] && gone == []
    {
      pending, offered, emitted, gone := [], [], [], [];
    }

    /** Sends at once only when nothing waits; queues otherwise; drops only at a full queue. */
    method SendOrQueue(packet: Packet, attempt: Attempt) returns (ok: bool)
      requires Valid()
      modifies this
      ensures Valid() && offered == old(offered) + [packet]
      ensures emitted == if old(pending) == [] && attempt == Accepted then old(emitted) + [packet] else old(emitted)
      ensures ok <==> !(old(pending) == [] && attempt == Broken)
      ensures gone == old(gone) <==> ok && |old(pending)| < 256
      ensures |pending| > |old(pending)| ==> pending == old(pending) + [packet]
      ensures |old(pending)| == 256 ==> pending == old(pending) && gone == old(gone) + [packet]
    {
      ghost var offered' := offered + [packet];
      if pending == [] {
        if attempt == Accepted {
          ghost var emitted' := emitted + [packet];
          PassThrough(offered, emitted, gone, packet, offered', emitted');
          offered, emitted := offered', emitted';
          return true;
        }
        if attempt == Broken {
          ghost var gone' := gone + [packet];
          Refuse(offered, emitted, pending, gone, packet, offered', gone');
          offered, gone := offered', gone';
          return false;
        }
      }
      if |pending| == MAX_PENDING {
        ghost var gone' := gone + [packet];
        Refuse(offered, emitted, pending, gone, packet, offered', gone');
        offered, gone := offered', gone';
        return true;
      }
      var pending' := pending + [packet];
      Enqueue(offered, emitted, pending, gone, packet, offered', pending');
      offered, pending := offered', pending';
      return true;
    }

    /**
     * Sends from the front for as long as the socket is ready and takes packets; `ready` and `takes` are its answers
     * for the packets that wait, so far as it comes to them. The first answer that is not a yes decides the result.
     */
    method Flush(ready: seq<Attempt>, takes: seq<Attempt>) returns (r: Poll, ghost sent: nat)
      requires Valid() && |ready| == |takes| == |pending|
      modifies this`pending, this`emitted
      ensures Valid() && Moved(old(emitted), old(pending), sent, emitted, pending)
      ensures Stopped(ready, takes, sent, r)
    {
      sent := 0;
      var i := 0;
      r := Done;
      MovedNone(emitted, pending);
      while pending != []
        invariant Moved(old(emitted), old(pending), sent, emitted, pending) && sent == i && r == Done
        invariant forall j :: 0 <= j < i ==> ready[j] == Accepted && takes[j] == Accepted
        decreases |pending|
      {
        MovedNext(old(emitted), old(pending), sent, emitted, pending);
        if ready[i] == Broken { r := Failed; break; }
        if ready[i] == WouldBlock { r := Pending; break; }
        if takes[i] == WouldBlock { r := Pending; break; }
        if takes[i] == Broken { r := Failed; break; }
        emitted, pending := emitted + [pending[0]], pending[1..];
        i, sent := i + 1, sent + 1;
      }
      MovedKept(offered, old(emitted), old(pending), gone, sent, emitted, pending);
    }
  }

  /** The socket took `n` packets; its first answer that is not a yes, or the end of the queue, explains the result. */
  ghost predicate Stopped(ready: seq<Attempt>, takes: seq<Attempt>, n: nat, r: Poll)
    requires |ready| == |takes|
  {
    && n <= |ready| && (forall i :: 0 <= i < n ==> ready[i] == Accepted && takes[i] == Accepted)
    && match r
       case Done => n == |ready|
       case Pending => n < |ready| && (ready[n] == WouldBlock || (ready[n] == Accepted && takes[n] == WouldBlock))
       case Failed => n < |ready| && (ready[n] == Broken || (ready[n] == Accepted && takes[n] == Broken))
  }

  // ---------------------------------------------------------------- device queues

  const U64_MAX: nat := U64 - 1

  /**
   * `handed` went to the tunnel, `consumed` to the IP stack. `gone` are the packets dropped
   * at a full queue (`drops` of them, `counted` already reported) or lost with a broken tunnel.
   */
  class BufferDevice {
    const maxBurst: nat
    var recvQueue: seq<Packet>
    var sendQueue: seq<Packet>
    var droppedTx: nat
    ghost var offered: seq<Packet>
    ghost var handed: seq<Packet>
    ghost var gone: seq<Packet>
    ghost var drops: nat
    ghost var losses: nat
    ghost var counted: nat
    ghost var received: seq<Packet>
    ghost var consumed: seq<Packet>

    ghost predicate Outbound()
      reads this
    {
      && |sendQueue| <= maxBurst && Conserved(offered, handed, sendQueue, gone)
      && |gone| == drops + losses && counted <= drops && droppedTx == Saturated(drops - counted)
    }

    ghost predicate Inbound()
      reads this
    {
      |recvQueue| <= maxBurst && received == consumed + recvQueue
    }

    constructor (max: nat)
      ensures Outbound() && Inbound() && maxBurst == max && offered == [] && received == []
    {
      maxBurst := max;
      recvQueue, sendQueue, droppedTx := [], [], 0;
      offered, handed, gone, drops, losses, counted, received, consumed := [], [], [], 0, 0, 0, [], [];
    }

    /** A packet leaves the IP stack through a transmit token. */
    method ConsumeTx(packet: Packet)
      requires Outbound()
      modifies this`sendQueue, this`droppedTx, this`offered, this`gone, this`drops
      ensures Outbound() && offered == old(offered) + [packet]
      ensures if |old(sendQueue)| < maxBurst then
                sendQueue == old(sendQueue) + [packet] && gone == old(gone) && drops == old(drops)
              else
                sendQueue == old(sendQueue) && gone == old(gone) + [packet] && drops == old(drops) + 1
    {
      ghost var offered' := offered + [packet];
      if |sendQueue| < maxBurst {
        var queue := sendQueue + [packet];
        Enqueue(offered, handed, sendQueue, gone, packet, offered', queue);
        offered, sendQueue := offered', queue;
      } else {
        ghost var gone' := gone + [packet];
        Refuse(offered, handed, sendQueue, gone, packet, offered', gone');
        offered, gone, drops := offered', gone', drops + 1;
        droppedTx := if droppedTx == U64_MAX then U64_MAX else droppedTx + 1;
      }
    }

    /** A token of its own is handed out only while there is room. */
    method Transmit() returns (room: bool)
      ensures room <==> |sendQueue| < maxBurst
    {
      room := |sendQueue| < maxBurst;
    }

    method Receive() returns (r: Option<Packet>)
      requires Inbound()
      modifies this`recvQueue, this`consumed
      ensures Inbound() && (r.None? <==> old(recvQueue) == [])
      ensures r.Some? ==> consumed == old(consumed) + [r.value] && [r.value] + recvQueue == old(recvQueue)
      ensures r.None? ==> consumed == old(consumed) && recvQueue == []
    {
      if recvQueue == [] { return None; }
      r := Some(recvQueue[0]);
      consumed := consumed + [recvQueue[0]];
      recvQueue := recvQueue[1..];
    }

    /**
     * Hands packets to the tunnel while it is ready and takes them, then flushes it; `ready`, `takes` and `flushed` are
     * its answers. A packet it refuses is lost, and the reactor stops.
     */
    method PollSend(ready: seq<Attempt>, takes: seq<bool>, flushed: Poll) returns (r: Poll, ghost sent: nat)
      requires Outbound() && |ready| == |takes| == |sendQueue|
      modifies this`sendQueue, this`handed, this`gone, this`losses
      ensures Outbound() && Taken(ready, takes, flushed, sent, r)
      ensures Moved(old(handed), old(sendQueue), sent, handed, old(sendQueue)[sent..])
      ensures if Refused(ready, takes, sent)
              then sendQueue == old(sendQueue)[sent + 1..] && gone == old(gone) + [old(sendQueue)[sent]]
                   && losses == old(losses) + 1
              else sendQueue == old(sendQueue)[sent..] && gone == old(gone) && losses == old(losses)
    {
      var refused;
      r, refused, sent := HandOver(ready, takes, flushed);
      if refused { LoseFirst(); }
    }

    method HandOver(ready: seq<Attempt>, takes: seq<bool>, flushed: Poll)
        returns (r: Poll, refused: bool, ghost sent: nat)
      requires Outbound() && |ready| == |takes| == |sendQueue|
      modifies this`sendQueue, this`handed
      ensures Outbound() && Moved(old(handed), old(sendQueue), sent, handed, sendQueue)
      ensures Taken(ready, takes, flushed, sent, r) && (refused <==> Refused(ready, takes, sent))
    {
      var queue;
      ghost var out;
      r, refused, queue, out, sent := HandPackets(sendQueue, ready, takes, flushed, handed);
      MovedKept(offered, handed, sendQueue, gone, sent, out, queue);
      sendQueue, handed := queue, out;
    }

    method LoseFirst()
      requires Outbound() && sendQueue != []
      modifies this`sendQueue, this`gone, this`losses
      ensures Outbound() && gone == old(gone) + [old(sendQueue)[0]] && sendQueue == old(sendQueue)[1..]
      ensures losses == old(losses) + 1
    {
      ghost var gone' := gone + [sendQueue[0]];
      var queue := sendQueue[1..];
      Lose(offered, handed, sendQueue, gone, queue, gone');
      sendQueue, gone, losses := queue, gone', losses + 1;
    }

    /** Fills the receive queue from the tunnel, never beyond one burst. */
    method PollReceive(arriving: seq<Packet>) returns (taken: nat)
      requires Inbound()
      modifies this`recvQueue, this`received
      ensures Inbound() && taken <= |arriving| && received == old(received) + arriving[..taken]
      ensures taken == |arriving| || |recvQueue| == maxBurst
    {
      taken := 0;
      while |recvQueue| < maxBurst && taken < |arriving|
        invariant Inbound() && taken <= |arriving| && received == old(received) + arriving[..taken]
      {
        received := received + [arriving[taken]];
        recvQueue := recvQueue + [arriving[taken]];
        taken := taken + 1;
      }
    }

    /** The reactor takes the drop counter after every poll of the stack. */
    method TakeDropped() returns (n: nat)
      requires Outbound()
      modifies this`droppedTx, this`counted
      ensures Outbound() && n == Saturated(drops - old(counted)) && counted == drops && droppedTx == 0
    {
      n := droppedTx;
      droppedTx, counted := 0, drops;
    }
  }

  /** The loop over the queue that the reactor lends out. */
  method HandPackets(packets: seq<Packet>, ready: seq<Attempt>, takes: seq<bool>, flushed: Poll,
                     ghost before: seq<Packet>)
      returns (r: Poll, refused: bool, left: seq<Packet>, ghost out: seq<Packet>, ghost sent: nat)
    requires |ready| == |takes| == |packets|
    ensures Moved(before, packets, sent, out, left)
    ensures Taken(ready, takes, flushed, sent, r) && (refused <==> Refused(ready, takes, sent))
  {
    left, out, sent := packets, before, 0;
    MovedNone(before, packets);
    var i := 0;
    while left != []
      invariant Moved(before, packets, sent, out, left) && sent == i
      invariant forall j :: 0 <= j < i ==> ready[j] == Accepted && takes[j]
      decreases |left|
    {
      MovedNext(before, packets, sent, out, left);
      if ready[i] == WouldBlock { return Pending, false, left, out, sent; }
      if ready[i] == Broken { return Failed, false, left, out, sent; }
      if !takes[i] { return Failed, true, left, out, sent; }
      out, left := out + [left[0]], left[1..];
      i, sent := i + 1, sent + 1;
    }
    return flushed, false, left, out, sent;
  }

  /** The tunnel took `n` packets; its next answer, or the flush behind the last packet, is the result. */
  ghost predicate Taken(ready: seq<Attempt>, takes: seq<bool>, flushed: Poll, n: nat, r: Poll)
    requires |ready| == |takes|
  {
    && n <= |ready| && (forall i :: 0 <= i < n ==> ready[i] == Accepted && takes[i])
    && (n < |ready| && ready[n] == Accepted ==> !takes[n])
    && r == if n == |ready| then flushed else if ready[n] == WouldBlock then Pending else Failed
  }

  /** The tunnel was ready for packet `n` and then refused it. */
  predicate Refused(ready: seq<Attempt>, takes: seq<bool>, n: nat)
    requires |ready| == |takes|
  {
    n < |ready| && ready[n] == Accepted && !takes[n]
  }

  function Saturated(n: int): (m: nat)
    ensures 0 <= n < U64 ==> m == n
    ensures n >= U64 ==> m == U64 - 1
  {
    if n < 0 then 0 else if n > U64_MAX then U64_MAX else n
  }

  // ---------------------------------------------------------------- reserved bytes

  predicate HasReserved(p: Packet) {
    |p| > 3 && 0 < p[0] < 5
  }

  function Patched(p: Packet, r: seq<byte>): (q: Packet)
    requires |r| == 3
  {
    if HasReserved(p) then p[..1] + r + p[4..] else p
  }

  method PatchReserved(packet: array<byte>, reserved: seq<byte>)
    requires |reserved| == 3
    modifies packet
    ensures packet[..] == Patched(old(packet[..]), reserved)
    ensures forall i :: 0 <= i < packet.Length ==>
              packet[i] == if packet.Length >= 4 && 1 <= old(packet[0]) <= 4 && 1 <= i <= 3
                           then reserved[i - 1] else old(packet[i])
  {
    if packet.Length > 3 && packet[0] > 0 && packet[0] < 5 {
      packet[1], packet[2], packet[3] := reserved[0], reserved[1], reserved[2];
    }
  }

  /** Stripping what the other end patched gives back the packet exactly when its reserved bytes were zero. */
  lemma StripUndoesPatch(p: Packet, r: seq<byte>)
    requires |r| == 3
    ensures Patched(Patched(p, r), [0, 0, 0]) == p <==> (HasReserved(p) ==> p[1..4] == [0, 0, 0])
    ensures Patched(Patched(p, r), r) == Patched(p, r)
  {
    if HasReserved(p) {
      var q := Patched(p, r);
      assert q[..1] == p[..1] && q[4..] == p[4..];
      assert p == p[..1] + p[1..4] + p[4..];
      assert (p[..1] + [0, 0, 0] + p[4..])[1..4] == [0, 0, 0];
    }
  }

  // ---------------------------------------------------------------- decapsulation reports

  /** Ten seconds, in nanoseconds. */
  const REPORT_INTERVAL: nat := 10_000_000_000

  datatype Report = Report(total: nat, since: nat, when: nat)

  function Sum(rs: seq<Report>): (n: nat) {
    if rs == [] then 0 else Sum(rs[..|rs| - 1]) + rs[|rs| - 1].since
  }

  /**
   * Errors are counted one by one and reported at once, then at most every ten seconds; every report counts the errors
   * since the one before.
   */
  class DecapErrorTracker {
    var total: nat
    var since: nat
    var last: Option<nat>
    ghost var reports: seq<Report>
    ghost var errors: nat

    ghost predicate Valid()
      reads this
    {
      && (errors <= U64_MAX ==> total == errors && Sum(reports) + since == errors)
      && total == Saturated(errors)
      && (last.None? <==> errors == 0) && (reports == [] <==> errors == 0)
      && (reports != [] ==> last == Some(reports[|reports| - 1].when))
      && forall i :: 0 <= i < |reports| - 1 ==> reports[i + 1].when - reports[i].when >= REPORT_INTERVAL
    }

    constructor ()
      ensures Valid() && errors == 0
    {
      total, since, last, reports, errors := 0, 0, None, [], 0;
    }

    method Observe(now: nat) returns (r: Option<(nat, nat)>)
      requires Valid()
      modifies this
      ensures Valid() && errors == old(errors) + 1
      ensures r.Some? <==> old(errors) == 0 || now - old(last.value) >= 10_000_000_000
      ensures reports == if r.Some? then old(reports) + [Report(r.value.0, r.value.1, now)] else old(reports)
    {
      errors := errors + 1;
      total := if total == U64_MAX then U64_MAX else total + 1;
      since := if since == U64_MAX then U64_MAX else since + 1;
      var elapsed := if last.Some? && now >= last.value then now - last.value else 0;
      if total == 1 || (last.Some? && elapsed >= REPORT_INTERVAL) {
        r := Some((total, since));
        ghost var report := Report(total, since, now);
        assert (reports + [report])[..|reports|] == reports;
        reports := reports + [report];
        since := 0;
        last := Some(now);
      } else {
        r := None;
      }
    }
  }
}
