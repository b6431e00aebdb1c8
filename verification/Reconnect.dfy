/**
 * Replacing the shared QUIC connection: any number of callers of `open`, each step
 * between two awaits of the source, failing dials, cancellation at every await, and
 * an allocator that may reuse the address (the stable id) of a freed connection.
 */
module Reconnect {
  import opened Outcome

  type Conn = nat

  /** Where a caller stands. `seen` is its first clone; it is kept until the call ends. */
  datatype Caller =
    | Idle
    | Cloned(seen: Conn)
    | Opening(seen: Conn)
    | WantsLock(seen: Conn)
    | Locked(seen: Conn)
    | Dialing(seen: Conn)
    | Dialed(seen: Conn, newer: Conn)
    | Unlocking(seen: Conn)
    | Unlocked(seen: Conn)
    | Reopening(seen: Conn, second: Conn)

  /** One replacement of the link: who did it, what it had seen, what went and what came. */
  datatype Replacement = Replacement(caller: nat, seen: Conn, gone: Conn, come: Conn)

  /**
   * Connections are numbered in order of creation; `address` is what `stable_id` returns.
   * `freed` connections have no owner left and their addresses may be used again.
   */
  datatype State = State(
    link: Conn,
    lock: Option<nat>,
    callers: seq<Caller>,
    made: nat,
    address: seq<nat>,
    closed: set<Conn>,
    freed: set<Conn>,
    log: seq<Replacement>)

  predicate Holds(c: Caller, conn: Conn) {
    || (!c.Idle? && c.seen == conn)
    || (c.Dialed? && c.newer == conn)
    || (c.Reopening? && c.second == conn)
  }

  predicate InUse(s: State, conn: Conn) {
    s.link == conn || exists i :: 0 <= i < |s.callers| && Holds(s.callers[i], conn)
  }

  predicate HasLock(c: Caller) {
    c.Locked? || c.Dialing? || c.Dialed? || c.Unlocking?
  }

  // ---------------------------------------------------------------- steps

  datatype Action =
    | Clone | CheckClosed | OpenOk | OpenErr | Acquire | Compare
    | DialFails | DialOk(address: nat) | Install | Release | CloneAgain | Finish | Cancel

  predicate Enabled(s: State, i: nat, a: Action) {
    i < |s.callers| &&
    var c := s.callers[i];
    match a
    case Clone => c.Idle?
    case CheckClosed => c.Cloned?
    case OpenOk => c.Opening?
    case OpenErr => c.Opening?
    case Acquire => c.WantsLock? && s.lock.None?
    case Compare => c.Locked? && c.seen < |s.address| && s.link < |s.address|
    case DialFails => c.Dialing?
    case DialOk(address) =>
      && c.Dialing? && s.made == |s.address|
      && forall k :: 0 <= k < |s.address| && k !in s.freed ==> s.address[k] != address
    case Install => c.Dialed?
    case Release => c.Unlocking?
    case CloneAgain => c.Unlocked?
    case Finish => c.Reopening?
    case Cancel => !c.Idle?
  }

  function Put(s: State, i: nat, c: Caller): State
    requires i < |s.callers|
  {
    s.(callers := s.callers[i := c])
  }

  function Step(s: State, i: nat, a: Action): (s': State)
    requires Enabled(s, i, a)
  {
    var c := s.callers[i];
    match a
    case Clone => Put(s, i, Cloned(s.link))
    case CheckClosed => Put(s, i, if c.seen in s.closed then WantsLock(c.seen) else Opening(c.seen))
    case OpenOk => Put(s, i, Idle)
    case OpenErr => Put(s, i, if c.seen in s.closed then WantsLock(c.seen) else Idle)
    case Acquire => Put(s, i, Locked(c.seen)).(lock := Some(i))
    case Compare =>
      Put(s, i, if s.address[s.link] == s.address[c.seen] then Dialing(c.seen) else Unlocking(c.seen))
    case DialFails => Put(s, i, Idle).(lock := None)
    case DialOk(address) =>
      Put(s, i, Dialed(c.seen, s.made)).(made := s.made + 1, address := s.address + [address])
    case Install =>
      Put(s, i, Unlocking(c.seen)).(link := c.newer, log := s.log + [Replacement(i, c.seen, s.link, c.newer)])
    case Release => Put(s, i, Unlocked(c.seen)).(lock := None)
    case CloneAgain => Put(s, i, Reopening(c.seen, s.link))
    case Finish => Put(s, i, Idle)
    case Cancel => Put(s, i, Idle).(lock := if HasLock(c) then None else s.lock)
  }

  /** The network closes a connection for good; the allocator frees one nobody holds. */
  datatype Event = Call(caller: nat, action: Action) | Closes(conn: Conn) | Frees(conn: Conn)

  predicate Possible(s: State, e: Event) {
    match e
    case Call(i, a) => Enabled(s, i, a)
    case Closes(conn) => conn < s.made
    case Frees(conn) => conn < s.made && !InUse(s, conn)
  }

  function Next(s: State, e: Event): (s': State)
    requires Possible(s, e)
  {
    match e
    case Call(i, a) => Step(s, i, a)
    case Closes(conn) => s.(closed := s.closed + {conn})
    case Frees(conn) => s.(freed := s.freed + {conn})
  }

  function Initial(callers: nat, address: nat): (s: State) {
    State(0, None, seq(callers, _ => Idle), 1, [address], {}, {}, [])
  }

  ghost predicate Run(es: seq<Event>, ss: seq<State>) {
    && |ss| == |es| + 1 && (exists n, a :: ss[0] == Initial(n, a))
    && forall k :: 0 <= k < |es| ==> Possible(ss[k], es[k]) && ss[k + 1] == Next(ss[k], es[k])
  }

  // ---------------------------------------------------------------- invariant

  /** Two connections that are both still owned never share an address. */
  ghost predicate AddressesDistinct(s: State) {
    && |s.address| == s.made && (forall k :: k in s.freed ==> k < s.made)
    && forall j, k :: 0 <= j < k < s.made && j !in s.freed && k !in s.freed ==> s.address[j] != s.address[k]
  }

  ghost predicate Live(s: State, conn: Conn) {
    conn < s.made && conn !in s.freed
  }

  ghost predicate OwnedIsLive(s: State) {
    && Live(s, s.link)
    && forall i :: 0 <= i < |s.callers| ==> HoldsLive(s, s.callers[i])
  }

  ghost predicate HoldsLive(s: State, c: Caller) {
    (!c.Idle? ==> Live(s, c.seen)) && (c.Dialed? ==> Live(s, c.newer)) && (c.Reopening? ==> Live(s, c.second))
  }

  ghost predicate LockIsHeld(s: State) {
    forall i :: 0 <= i < |s.callers| ==> (HasLock(s.callers[i]) <==> s.lock == Some(i))
  }

  /** The caller is past the point where its first connection was found closed. */
  predicate SawClosed(c: Caller) {
    !c.Idle? && !c.Cloned? && !c.Opening?
  }

  /** What a caller knows where it stands. */
  ghost predicate Knows(s: State, c: Caller) {
    && (SawClosed(c) ==> c.seen in s.closed)
    && (!c.Idle? ==> c.seen <= s.link)
    && (c.Dialing? || c.Dialed? ==> c.seen == s.link)
    && (c.Dialed? ==> c.newer > s.link)
    && (c.Unlocking? || c.Unlocked? ==> c.seen < s.link)
    && (c.Reopening? ==> c.seen < c.second <= s.link)
  }

  /**
   * The log is the whole history of the link: a strictly ascending chain, each made by one who saw the old one
   * closed.
   */
  ghost predicate History(s: State) {
    && (forall k :: 0 <= k < |s.log| ==>
          s.log[k].seen == s.log[k].gone < s.log[k].come && s.log[k].gone in s.closed && s.log[k].come <= s.link)
    && (forall k :: 0 <= k < |s.log| - 1 ==> s.log[k].come == s.log[k + 1].gone)
    && (s.log != [] ==> s.log[|s.log| - 1].come == s.link)
  }

  ghost predicate Inv(s: State) {
    && AddressesDistinct(s) && OwnedIsLive(s) && LockIsHeld(s) && History(s)
    && forall i :: 0 <= i < |s.callers| ==> Knows(s, s.callers[i])
  }

  /** While a caller holds its clone, comparing addresses is comparing connections. */
  lemma CompareIsExact(s: State, i: nat)
    requires Inv(s) && Enabled(s, i, Compare)
    ensures s.address[s.link] == s.address[s.callers[i].seen] <==> s.link == s.callers[i].seen
  {
    assert HoldsLive(s, s.callers[i]);
  }

  lemma InstallKeepsInv(s: State, i: nat)
    requires Inv(s) && Enabled(s, i, Install)
    ensures Inv(Step(s, i, Install))
  {
    var s' := Step(s, i, Install);
    assert HoldsLive(s, s.callers[i]) && Knows(s, s.callers[i]);
    forall j | 0 <= j < |s'.callers| ensures Knows(s', s'.callers[j]) && HoldsLive(s', s'.callers[j]) {
      assert HoldsLive(s, s.callers[j]) && Knows(s, s.callers[j]) && (HasLock(s.callers[j]) ==> j == i);
    }
  }

  lemma DialKeepsInv(s: State, i: nat, address: nat)
    requires Inv(s) && Enabled(s, i, DialOk(address))
    ensures Inv(Step(s, i, DialOk(address)))
  {
    assert s.made !in s.freed;
  }

  /** A step that moves one caller and perhaps the lock, but no connection. */
  lemma MoveKeepsInv(s: State, i: nat, c: Caller, lock: Option<nat>)
    requires Inv(s) && i < |s.callers| && HoldsLive(s, c) && Knows(s, c)
    requires lock == s.lock || (s.lock == None && lock == Some(i)) || (s.lock == Some(i) && lock == None)
    requires HasLock(c) <==> lock == Some(i)
    ensures Inv(Put(s, i, c).(lock := lock))
  {
    var s' := Put(s, i, c).(lock := lock);
    forall j | 0 <= j < |s.callers|
      ensures HoldsLive(s', s'.callers[j]) && Knows(s', s'.callers[j]) && (HasLock(s'.callers[j]) <==> lock == Some(j))
    {
      if j != i {
        assert HoldsLive(s, s.callers[j]) && Knows(s, s.callers[j]) && (HasLock(s.callers[j]) <==> s.lock == Some(j));
      }
    }
  }

  lemma StepKeepsInv(s: State, i: nat, a: Action)
    requires Inv(s) && Enabled(s, i, a)
    ensures Inv(Step(s, i, a))
  {
    var c := s.callers[i];
    assert HoldsLive(s, c) && Knows(s, c) && (HasLock(c) <==> s.lock == Some(i));
    match a
    case Install => InstallKeepsInv(s, i);
    case DialOk(address) => DialKeepsInv(s, i, address);
    case Compare =>
      CompareIsExact(s, i);
      MoveKeepsInv(s, i, Step(s, i, a).callers[i], s.lock);
    case _ => MoveKeepsInv(s, i, Step(s, i, a).callers[i], Step(s, i, a).lock);
  }

  lemma NextKeepsInv(s: State, e: Event)
    requires Inv(s) && Possible(s, e)
    ensures Inv(Next(s, e))
  {
    match e
    case Call(i, a) => StepKeepsInv(s, i, a);
    case Closes(conn) =>
    case Frees(conn) =>
      forall i | 0 <= i < |s.callers| ensures HoldsLive(Next(s, e), s.callers[i]) {
        assert HoldsLive(s, s.callers[i]) && !Holds(s.callers[i], conn);
      }
  }

  lemma {:induction false} RunKeepsInv(es: seq<Event>, ss: seq<State>, k: nat)
    requires Run(es, ss) && k <= |es|
    ensures Inv(ss[k])
  {
    if k > 0 {
      RunKeepsInv(es, ss, k - 1);
      NextKeepsInv(ss[k - 1], es[k - 1]);
    }
  }

  // ---------------------------------------------------------------- theorems

  /** The link changes only by an install of the lock holder, and only from the closed connection that caller saw. */
  lemma ReplacedOnlyWhenSeenClosed(es: seq<Event>, ss: seq<State>, k: nat)
    requires Run(es, ss) && k < |es| && ss[k + 1].link != ss[k].link
    ensures es[k].Call? && es[k].action == Install
    ensures ss[k].lock == Some(es[k].caller)
    ensures ss[k].callers[es[k].caller].seen == ss[k].link && ss[k].link in ss[k].closed
  {
    RunKeepsInv(es, ss, k);
    var i := es[k].caller;
    assert Knows(ss[k], ss[k].callers[i]);
  }

  lemma {:induction false} LinkAscends(s: State, j: nat, k: nat)
    requires Inv(s) && j < k < |s.log|
    ensures s.log[j].gone < s.log[k].gone
    decreases k
  {
    if j < k - 1 { LinkAscends(s, j, k - 1); }
  }

  /** No connection is replaced twice, and a replaced connection never becomes the link again. */
  lemma ReplacedAtMostOnce(es: seq<Event>, ss: seq<State>, m: nat)
    requires Run(es, ss) && m <= |es|
    ensures forall j, k :: 0 <= j < k < |ss[m].log| ==> ss[m].log[j].gone != ss[m].log[k].gone
    ensures forall j :: 0 <= j < |ss[m].log| ==> ss[m].log[j].gone < ss[m].link
  {
    RunKeepsInv(es, ss, m);
    forall j, k | 0 <= j < k < |ss[m].log| ensures ss[m].log[j].gone != ss[m].log[k].gone {
      LinkAscends(ss[m], j, k);
    }
  }

  /** The log misses nothing: it grows exactly when the link changes, by that change. */
  lemma LogIsComplete(es: seq<Event>, ss: seq<State>, k: nat)
    requires Run(es, ss) && k < |es|
    ensures if ss[k + 1].link == ss[k].link then ss[k + 1].log == ss[k].log
            else ss[k + 1].log == ss[k].log + [Replacement(es[k].caller, ss[k].link, ss[k].link, ss[k + 1].link)]
  {
    RunKeepsInv(es, ss, k);
    if es[k].Call? && es[k].action == Install {
      var i := es[k].caller;
      assert Knows(ss[k], ss[k].callers[i]);
    }
  }

  /**
   * Two callers that saw the same connection closed cause one dial to be installed: the second one finds the link
   * changed.
   */
  lemma SecondCallerDoesNotDial(s: State, i: nat)
    requires Inv(s) && Enabled(s, i, Compare)
    requires exists k :: 0 <= k < |s.log| && s.log[k].gone == s.callers[i].seen
    ensures Step(s, i, Compare).callers[i] == Unlocking(s.callers[i].seen)
  {
    CompareIsExact(s, i);
    var k :| 0 <= k < |s.log| && s.log[k].gone == s.callers[i].seen;
  }

  // ---------------------------------------------------------------- what `open` returns

  /** When a call reached its milestones: its first clone, the check that decided, the release and the second clone. */
  datatype Times = Times(clone: nat, check: nat, release: nat, again: nat)

  ghost predicate Did(es: seq<Event>, k: nat, i: nat, a: Action) {
    k < |es| && es[k] == Call(i, a)
  }

  /** The call that caller `i` is in at state `k`, told by the events of the run. */
  ghost predicate Story(es: seq<Event>, ss: seq<State>, k: nat, i: nat, t: Times)
    requires |ss| == |es| + 1 && k <= |es| && i < |ss[k].callers|
  {
    var c := ss[k].callers[i];
    && (!c.Idle? ==> t.clone < k && Did(es, t.clone, i, Clone) && c.seen == ss[t.clone].link)
    && (c.Opening? ==> t.clone < t.check < k && Did(es, t.check, i, CheckClosed) && c.seen !in ss[t.check].closed)
    && (SawClosed(c) ==> t.clone < t.check < k && FoundClosed(es, ss, t.check, i, c.seen))
    && (c.Unlocked? || c.Reopening? ==> t.check < t.release < k && Did(es, t.release, i, Release))
    && (c.Reopening? ==> t.release < t.again < k && Did(es, t.again, i, CloneAgain) && c.second == ss[t.again].link)
  }

  /** At event `k` the caller found its connection closed, before opening a stream or because that failed. */
  ghost predicate FoundClosed(es: seq<Event>, ss: seq<State>, k: nat, i: nat, conn: Conn)
    requires |ss| == |es| + 1
  {
    (Did(es, k, i, CheckClosed) || Did(es, k, i, OpenErr)) && conn in ss[k].closed
  }

  lemma {:induction false} StoryOf(es: seq<Event>, ss: seq<State>, k: nat, i: nat) returns (t: Times)
    requires Run(es, ss) && k <= |es| && i < |ss[k].callers|
    ensures Story(es, ss, k, i, t)
  {
    if k == 0 {
      t := Times(0, 0, 0, 0);
    } else {
      assert Possible(ss[k - 1], es[k - 1]) && ss[k] == Next(ss[k - 1], es[k - 1]);
      t := StoryOf(es, ss, k - 1, i);
      t := StoryGoesOn(es, ss, k, i, t);
    }
  }

  lemma StoryGoesOn(es: seq<Event>, ss: seq<State>, k: nat, i: nat, t: Times) returns (t': Times)
    requires |ss| == |es| + 1 && 0 < k <= |es| && Possible(ss[k - 1], es[k - 1]) && ss[k] == Next(ss[k - 1], es[k - 1])
    requires i < |ss[k].callers| && Story(es, ss, k - 1, i, t)
    ensures Story(es, ss, k, i, t')
  {
    t' := t;
    if es[k - 1].Call? && es[k - 1].caller == i {
      match es[k - 1].action
      case Clone => t' := t.(clone := k - 1);
      case CheckClosed => t' := t.(check := k - 1);
      case OpenErr => t' := t.(check := k - 1);
      case Release => t' := t.(release := k - 1);
      case CloneAgain => t' := t.(again := k - 1);
      case _ =>
    }
  }

  /**
   * A stream opened after a reconnect is opened on the connection that was the link after the caller found its own
   * closed and released the lock, and that connection is newer than its own.
   */
  lemma OpenedAfterReconnect(es: seq<Event>, ss: seq<State>, k: nat, i: nat)
      returns (clone: nat, check: nat, release: nat, again: nat)
    requires Run(es, ss) && Did(es, k, i, Finish)
    ensures clone < check < release < again < k
    ensures Did(es, clone, i, Clone) && FoundClosed(es, ss, check, i, ss[clone].link)
    ensures Did(es, release, i, Release) && Did(es, again, i, CloneAgain)
    ensures ss[k].callers[i] == Reopening(ss[clone].link, ss[again].link) && ss[clone].link < ss[again].link
  {
    var t := StoryOf(es, ss, k, i);
    RunKeepsInv(es, ss, k);
    assert Knows(ss[k], ss[k].callers[i]);
    clone, check, release, again := t.clone, t.check, t.release, t.again;
  }

  /** A stream opened at once is opened on the link the caller cloned and then found not closed. */
  lemma OpenedAtOnce(es: seq<Event>, ss: seq<State>, k: nat, i: nat) returns (clone: nat, check: nat)
    requires Run(es, ss) && Did(es, k, i, OpenOk)
    ensures clone < check < k && Did(es, clone, i, Clone) && Did(es, check, i, CheckClosed)
    ensures ss[k].callers[i] == Opening(ss[clone].link) && ss[clone].link !in ss[check].closed
  {
    var t := StoryOf(es, ss, k, i);
    clone, check := t.clone, t.check;
  }

  /**
   * A call ends with a stream or its failure on one of these connections, with a failed dial, or cancelled; only a
   * connection that is still open makes its failure final.
   */
  lemma CallEnds(es: seq<Event>, ss: seq<State>, k: nat, i: nat)
    requires Run(es, ss) && k < |es| && i < |ss[k].callers| && !ss[k].callers[i].Idle? && ss[k + 1].callers[i].Idle?
    ensures Did(es, k, i, OpenOk) || Did(es, k, i, OpenErr) || Did(es, k, i, Finish)
         || Did(es, k, i, DialFails) || Did(es, k, i, Cancel)
    ensures Did(es, k, i, OpenErr) ==> ss[k].callers[i].seen !in ss[k].closed
  {
  }

  predicate Happened(es: seq<Event>, k: nat, e: Event) {
    exists j :: 0 <= j < k && j < |es| && es[j] == e
  }

  lemma EnvironmentStep(s: State, e: Event, conn: Conn)
    requires Possible(s, e)
    ensures conn in Next(s, e).closed <==> conn in s.closed || e == Closes(conn)
    ensures conn in Next(s, e).freed <==> conn in s.freed || e == Frees(conn)
  {
  }

  /** A connection counts as closed exactly when the network closed it earlier, and as freed when it was freed. */
  lemma {:induction false} ClosedIs(es: seq<Event>, ss: seq<State>, k: nat, conn: Conn)
    requires Run(es, ss) && k <= |es|
    ensures conn in ss[k].closed <==> Happened(es, k, Closes(conn))
    ensures conn in ss[k].freed <==> Happened(es, k, Frees(conn))
  {
    if k > 0 {
      ClosedIs(es, ss, k - 1, conn);
      assert Possible(ss[k - 1], es[k - 1]) && ss[k] == Next(ss[k - 1], es[k - 1]);
      EnvironmentStep(ss[k - 1], es[k - 1], conn);
      OneLater(es, k, Closes(conn));
      OneLater(es, k, Frees(conn));
    }
  }

  lemma OneLater(es: seq<Event>, k: nat, e: Event)
    requires 0 < k <= |es|
    ensures Happened(es, k, e) <==> Happened(es, k - 1, e) || es[k - 1] == e
  {
  }

  // ---------------------------------------------------------------- a reconnect can always be completed

  ghost predicate Leads(s: State, i: nat, path: seq<Action>)
    decreases |path|
  {
    path == [] || (Enabled(s, i, path[0]) && Leads(Step(s, i, path[0]), i, path[1..]))
  }

  ghost function After(s: State, i: nat, path: seq<Action>): (s': State)
    requires Leads(s, i, path)
    ensures |s'.callers| == |s.callers|
    decreases |path|
  {
    if path == [] then s else After(Step(s, i, path[0]), i, path[1..])
  }

  /** The caller's next step towards its second clone, when dialing succeeds with a connection at `address`. */
  function Onward(c: Caller, address: nat): (a: Action) {
    match c
    case WantsLock(_) => Acquire
    case Locked(_) => Compare
    case Dialing(_) => DialOk(address)
    case Dialed(_, _) => Install
    case Unlocking(_) => Release
    case _ => CloneAgain
  }

  function StepsLeft(c: Caller): (n: nat) {
    match c
    case WantsLock(_) => 6
    case Locked(_) => 5
    case Dialing(_) => 4
    case Dialed(_, _) => 3
    case Unlocking(_) => 2
    case Unlocked(_) => 1
    case _ => 0
  }

  /** The connection the caller will end up with. */
  function Target(s: State, c: Caller): (conn: Conn)
    requires !c.Idle?
  {
    if c.Dialed? then c.newer else if c.Unlocking? || c.Unlocked? || c.seen != s.link then s.link else s.made
  }

  /** An address in use nowhere. */
  function Above(address: seq<nat>): (a: nat)
    ensures forall k :: 0 <= k < |address| ==> address[k] < a
  {
    if address == [] then 0
    else
      var a, last := Above(address[..|address| - 1]), address[|address| - 1];
      if last < a then a else last + 1
  }

  /**
   * Whoever has found its connection closed, and holds the lock or finds it free, can go on by its own steps to a
   * second clone: of the link as it stands if that has been replaced already, and else of a connection of its own
   * making.
   */
  lemma {:induction false} CanReconnect(s: State, i: nat) returns (path: seq<Action>)
    requires Inv(s) && i < |s.callers| && 0 < StepsLeft(s.callers[i]) && (s.callers[i].WantsLock? ==> s.lock == None)
    ensures Leads(s, i, path)
    ensures After(s, i, path).callers[i] == Reopening(s.callers[i].seen, Target(s, s.callers[i]))
    ensures s.callers[i].seen < Target(s, s.callers[i])
    decreases StepsLeft(s.callers[i])
  {
    var c := s.callers[i];
    var a := Onward(c, Above(s.address));
    assert Knows(s, c) && HoldsLive(s, c);
    if a.Compare? { CompareIsExact(s, i); }
    var s' := Step(s, i, a);
    StepKeepsInv(s, i, a);
    if c.Unlocked? {
      path := [];
      assert Leads(s', i, path);
    } else {
      path := CanReconnect(s', i);
    }
    path := [a] + path;
  }
}
