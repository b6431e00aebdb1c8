/** The socket table of the virtual network stack and its ephemeral ports. */
module Ports {
  import opened Outcome

  const FIRST: nat := 10001
  const LAST: nat := 60000
  const COUNT: nat := 50000

  datatype Transport = Tcp | Udp

  datatype Family = Ipv4 | Ipv6

  /** A socket; `local` is gone once it is closed, while its handle may live on. */
  datatype Socket = Socket(transport: Transport, local: Option<(Family, nat)>)

  /** A slot of the socket set; a handle is the index of its slot. */
  type Slots = seq<Option<Socket>>

  // ---------------------------------------------------------------- cyclic order

  /** The port reached after `k` cursor steps from the first one. */
  function PortAt(k: nat): (p: nat)
    ensures 10001 <= p <= 60000
  {
    FIRST + k % COUNT
  }

  lemma CursorStep(k: nat)
    ensures PortAt(k + 1) == if PortAt(k) >= LAST then FIRST else PortAt(k) + 1
  {
  }

  /** One lap from `k` passes every ephemeral port. */
  lemma LapCovers(k: nat, p: nat) returns (j: nat)
    requires 10001 <= p <= 60000
    ensures k <= j < k + COUNT && PortAt(j) == p
  {
    var at := k % COUNT;
    j := if p - FIRST >= at then k + (p - FIRST - at) else k + (p - FIRST - at + COUNT);
  }

  /** A port comes up again only after whole laps. */
  lemma SamePortWholeLaps(j: nat, k: nat)
    requires j < k && PortAt(j) == PortAt(k)
    ensures k - j >= COUNT
  {
  }

  /** `p` is the first port not in `used` from cursor position `at` on, found at position `m`. */
  ghost predicate FirstFree(at: nat, used: set<nat>, m: nat, p: nat) {
    at <= m < at + COUNT && p == PortAt(m) && p !in used && forall j :: at <= j < m ==> PortAt(j) in used
  }

  /** `at` counts all cursor steps ever taken; the cursor itself is `PortAt(at)`. */
  method SelectPort(next: nat, requested: nat, used: set<nat>, ghost at: nat)
    returns (r: Result<nat>, next': nat, ghost at': nat)
    requires next == PortAt(at)
    ensures next' == PortAt(at') && at <= at'
    ensures requested != 0 ==> at' == at && r == if requested in used then Err else Ok(requested)
    ensures requested == 0 && r.Ok? ==> at < at' && FirstFree(at, used, at' - 1, r.value)
    ensures requested == 0 ==> (r.Err? <==> forall p :: 10001 <= p <= 60000 ==> p in used)
  {
    next', at' := next, at;
    if requested != 0 {
      return if requested in used then Err else Ok(requested), next', at';
    }
    for i := 0 to COUNT
      invariant at' == at + i && next' == PortAt(at')
      invariant forall j :: at <= j < at' ==> PortAt(j) in used
    {
      var candidate := next';
      CursorStep(at');
      next' := if candidate >= LAST then FIRST else candidate + 1;
      at' := at' + 1;
      if candidate !in used { return Ok(candidate), next', at'; }
    }
    forall p | FIRST <= p <= LAST ensures p in used {
      var j := LapCovers(at, p);
    }
    r := Err;
  }

  // ---------------------------------------------------------------- the table

  /** One ephemeral allocation: the port and the cursor position it came from. */
  datatype Grant = Grant(port: nat, position: nat)

  predicate Occupies(slot: Option<Socket>, transport: Transport, family: Family, port: nat) {
    slot.Some? && slot.value.transport == transport && slot.value.local == Some((family, port))
  }

  /** No two sockets of one transport and family share a port. */
  ghost predicate Distinct(slots: Slots) {
    forall h, k | 0 <= h < k < |slots| && slots[h].Some? && slots[k].Some? && slots[h].value.local.Some? ::
      slots[h].value.transport == slots[k].value.transport ==> slots[h].value.local != slots[k].value.local
  }

  /** Grants follow the cursor: positions ascend, and each port is the one at its position. */
  ghost predicate Ordered(log: seq<Grant>, at: nat) {
    && (forall i :: 0 <= i < |log| ==> log[i].position < at && log[i].port == PortAt(log[i].position))
    && (forall i, j :: 0 <= i < j < |log| ==> log[i].position < log[j].position)
  }

  /** Between two grants of one ephemeral port the cursor goes round at least once. */
  lemma ReuseAfterLap(log: seq<Grant>, at: nat, i: nat, j: nat)
    requires Ordered(log, at) && i < j < |log| && log[i].port == log[j].port
    ensures log[j].position - log[i].position >= 50000
  {
    SamePortWholeLaps(log[i].position, log[j].position);
  }

  class SocketTable {
    var slots: Slots
    var nextPort: nat
    ghost var at: nat
    ghost var log: seq<Grant>

    ghost predicate Valid()
      reads this
    {
      nextPort == PortAt(at) && Distinct(slots) && Ordered(log, at)
    }

    constructor ()
      ensures Valid() && slots == [] && nextPort == FIRST
    {
      slots, nextPort, at, log := [], FIRST, 0, [];
    }

    predicate PortInUse(transport: Transport, family: Family, port: nat)
      reads this
    {
      exists h :: 0 <= h < |slots| && Occupies(slots[h], transport, family, port)
    }

    /** The ports `PortInUse` answers yes for. */
    function PortsInUse(transport: Transport, family: Family): (used: set<nat>)
      reads this
      ensures forall p :: p in used <==> PortInUse(transport, family, p)
    {
      var used := set h | 0 <= h < |slots| && slots[h].Some? && slots[h].value.transport == transport
                         && slots[h].value.local.Some? && slots[h].value.local.value.0 == family
                    :: slots[h].value.local.value.1;
      assert forall p, h :: 0 <= h < |slots| && Occupies(slots[h], transport, family, p) ==> p in used;
      used
    }

    /** A free port; on failure the cursor stays where it was. */
    method AllocatePort(transport: Transport, family: Family, requested: nat) returns (r: Result<nat>)
      requires Valid()
      modifies this`nextPort, this`at, this`log
      ensures Valid() && old(at) <= at
      ensures r.Ok? ==> !PortInUse(transport, family, r.value) && r.value != 0
      ensures r.Err? ==> nextPort == old(nextPort) && at == old(at) && log == old(log)
      ensures requested != 0 ==> at == old(at) && log == old(log)
      ensures requested != 0 ==> r == if PortInUse(transport, family, requested) then Err else Ok(requested)
      ensures requested == 0 ==> (r.Err? <==> forall p :: FIRST <= p <= LAST ==> PortInUse(transport, family, p))
      ensures requested == 0 && r.Ok? ==>
                && at > old(at) && FirstFree(old(at), PortsInUse(transport, family), at - 1, r.value)
                && log == old(log) + [Grant(r.value, at - 1)]
    {
      var port, next, at' := SelectPort(nextPort, requested, PortsInUse(transport, family), at);
      if port.Err? { return Err; }
      nextPort := next;
      at := at';
      if requested == 0 { log := log + [Grant(port.value, at - 1)]; }
      return port;
    }

    /** Puts a socket into the first empty slot, or a new one. */
    method Add(socket: Socket) returns (h: nat)
      requires Valid()
      requires socket.local.Some? ==> !PortInUse(socket.transport, socket.local.value.0, socket.local.value.1)
      modifies this`slots
      ensures Valid() && h <= |old(slots)| && (h < |old(slots)| ==> old(slots)[h].None?)
      ensures slots == if h < |old(slots)| then old(slots)[h := Some(socket)] else old(slots) + [Some(socket)]
    {
      h := 0;
      while h < |slots| && slots[h].Some?
        invariant h <= |slots|
      {
        h := h + 1;
      }
      slots := if h < |slots| then slots[h := Some(socket)] else slots + [Some(socket)];
    }

    /** Slot `h` was free and now holds `socket`; no other slot changed. */
    twostate predicate Placed(h: nat, socket: Socket)
      reads this
    {
      && h < |slots| && slots[h] == Some(socket) && (h < |old(slots)| ==> old(slots)[h].None?)
      && |slots| == (if h < |old(slots)| then |old(slots)| else |old(slots)| + 1)
      && forall k :: 0 <= k < |old(slots)| && k != h ==> k < |slots| && slots[k] == old(slots)[k]
    }

    /**
     * The cursor moved just past `port`, which was the first free one from where it stood, and the grant is on
     * record.
     */
    twostate predicate Granted(transport: Transport, family: Family, port: nat)
      reads this
    {
      && at > old(at) && FirstFree(old(at), old(PortsInUse(transport, family)), at - 1, port)
      && log == old(log) + [Grant(port, at - 1)]
    }

    method ConnectTcp(source: Family, connects: bool) returns (r: Result<nat>)
      requires Valid()
      modifies this
      ensures Valid()
      ensures r.Err? <==> !connects || forall p :: FIRST <= p <= LAST ==> p in old(PortsInUse(Tcp, source))
      ensures r.Ok? ==> at > 0 && Granted(Tcp, source, PortAt(at - 1))
                        && Placed(r.value, Socket(Tcp, Some((source, PortAt(at - 1)))))
      ensures r.Err? ==> slots == old(slots)
    {
      ghost var used := PortsInUse(Tcp, source);
      var port := AllocatePort(Tcp, source, 0);
      assert PortsInUse(Tcp, source) == used;
      if port.Err? || !connects { return Err; }
      var h := Add(Socket(Tcp, Some((source, port.value))));
      return Ok(h);
    }

    method NewUdp(source: Family, requested: nat, binds: bool) returns (r: Result<(nat, nat)>)
      requires Valid()
      modifies this
      ensures Valid()
      ensures requested == 0 ==>
                (r.Err? <==> !binds || forall p :: FIRST <= p <= LAST ==> p in old(PortsInUse(Udp, source)))
      ensures requested != 0 ==> (r.Err? <==> !binds || requested in old(PortsInUse(Udp, source)))
      ensures r.Ok? ==> Placed(r.value.0, Socket(Udp, Some((source, r.value.1))))
      ensures r.Ok? && requested == 0 ==> Granted(Udp, source, r.value.1)
      ensures requested != 0 ==> nextPort == old(nextPort) && log == old(log) && (r.Ok? ==> r.value.1 == requested)
      ensures r.Err? ==> slots == old(slots)
    {
      ghost var used := PortsInUse(Udp, source);
      var port := AllocatePort(Udp, source, requested);
      assert PortsInUse(Udp, source) == used;
      if port.Err? || !binds { return Err; }
      var h := Add(Socket(Udp, Some((source, port.value))));
      return Ok((h, port.value));
    }

    /** The stack lets go of a socket's local endpoint. */
    method Close(h: nat)
      requires Valid() && h < |slots| && slots[h].Some?
      modifies this`slots
      ensures Valid() && slots == old(slots)[h := Some(old(slots)[h].value.(local := None))]
    {
      slots := slots[h := Some(slots[h].value.(local := None))];
    }

    /** Dropping the handle removes the socket, and with it frees its port. */
    method DropHandle(h: nat)
      requires Valid() && h < |slots| && slots[h].Some?
      modifies this`slots
      ensures Valid() && slots == old(slots)[h := None]
      ensures forall transport, family, port :: Occupies(old(slots)[h], transport, family, port) ==>
                !PortInUse(transport, family, port)
    {
      slots := slots[h := None];
    }
  }
}
