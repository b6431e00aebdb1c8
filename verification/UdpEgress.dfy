/**
 * UDP ASSOCIATE egress: every association routes datagrams to one worker per target;
 * all of them share a byte budget and a worker budget. `send` runs in small steps, so
 * that workers of the same association may act between any two of them.
 */
module UdpEgress {
  import opened Bits
  import opened Outcome
  import opened Spans
  import opened Subsequence

  const QUEUE_BYTES: nat := 8388608
  const MAX_WORKERS: nat := 128
  const MAX_TARGETS: nat := 64
  const CHANNEL_CAPACITY: nat := 32
  const REPLY_CAPACITY: nat := 64

  type Target = seq<byte>
  type Payload = seq<byte>

  datatype Phase = Establishing | Running | Stopped

  /**
   * A worker task. `open`: its receiver exists. `permit`: it still holds its worker permit. `arrived` records the
   * replies it received.
   */
  datatype Worker = Worker(
    assoc: nat, target: Target, phase: Phase, open: bool, permit: bool,
    queue: seq<Payload>, sending: Option<Payload>, replying: Option<Payload>, arrived: seq<Payload>)

  /** A reply on its way to the client, with the worker it came from. */
  datatype Reply = Reply(from: nat, payload: Payload)

  /** Where the association task stands; a datagram or reply in hand keeps its byte permits. */
  datatype Activity =
    | Ready
    | Holding(target: Target, payload: Payload)
    | NeedsWorker(target: Target, payload: Payload)
    | Spawned(target: Target, payload: Payload, worker: nat)
    | Relaying(reply: Reply)

  /**
   * `offered` and `emitted` record, per target, what the client sent and what went out, `relayed` the replies that
   * went to the client.
   */
  datatype Assoc = Assoc(
    alive: bool, activity: Activity, routes: map<Target, nat>, replies: seq<Reply>,
    offered: map<Target, seq<Payload>>, emitted: map<Target, seq<Payload>>, relayed: seq<Reply>)

  datatype State = State(bytes: int, permits: int, workers: seq<Worker>, assocs: seq<Assoc>)

  function Get(m: map<Target, seq<Payload>>, t: Target): (s: seq<Payload>) {
    if t in m then m[t] else []
  }

  // ---------------------------------------------------------------- what is held

  function Size(p: Option<Payload>): (n: nat) {
    if p.Some? then |p.value| else 0
  }

  function Total(ps: seq<Payload>): (n: nat) {
    if ps == [] then 0 else |ps[0]| + Total(ps[1..])
  }

  function RepliesBytes(rs: seq<Reply>): (n: nat) {
    if rs == [] then 0 else |rs[0].payload| + RepliesBytes(rs[1..])
  }

  function WorkerBytes(w: Worker): (n: nat) {
    Total(w.queue) + Size(w.sending) + Size(w.replying)
  }

  function ActivityBytes(a: Activity): (n: nat) {
    match a
    case Ready => 0
    case Relaying(reply) => |reply.payload|
    case Holding(_, p) => |p|
    case NeedsWorker(_, p) => |p|
    case Spawned(_, p, _) => |p|
  }

  function AssocBytes(a: Assoc): (n: nat) {
    RepliesBytes(a.replies) + ActivityBytes(a.activity)
  }

  function WorkersBytes(ws: seq<Worker>): (n: nat) {
    if ws == [] then 0 else WorkerBytes(ws[0]) + WorkersBytes(ws[1..])
  }

  function AssocsBytes(xs: seq<Assoc>): (n: nat) {
    if xs == [] then 0 else AssocBytes(xs[0]) + AssocsBytes(xs[1..])
  }

  function LivePermits(ws: seq<Worker>): (n: nat) {
    if ws == [] then 0 else (if ws[0].permit then 1 else 0) + LivePermits(ws[1..])
  }

  // ---------------------------------------------------------------- steps

  datatype Event =
    | NewAssoc
    | Arrive(assoc: nat, target: Target, payload: Payload)
    | PruneRoute(assoc: nat, target: Target)
    | TrySend(assoc: nat)
    | TakeWorker(assoc: nat)
    | FirstSend(assoc: nat)
    | TakeReply(assoc: nat)
    | RelayDone(assoc: nat)
    | DropAssoc(assoc: nat)
    | Established(worker: nat)
    | TakeQueued(worker: nat)
    | Emitted(worker: nat)
    | ReplyArrives(worker: nat, payload: Payload)
    | PushReply(worker: nat)
    | Stop(worker: nat)
    | CloseChannel(worker: nat)
    | ReleasePermit(worker: nat)

  predicate Idle(w: Worker) {
    w.phase.Running? && w.sending.None? && w.replying.None?
  }

  predicate Possible(s: State, e: Event) {
    match e
    case NewAssoc => true
    case Arrive(a, _, _) => a < |s.assocs| && s.assocs[a].alive && s.assocs[a].activity.Ready?
    case PruneRoute(a, t) =>
      && a < |s.assocs| && t in s.assocs[a].routes && s.assocs[a].routes[t] < |s.workers|
      && !s.workers[s.assocs[a].routes[t]].open
    case TrySend(a) =>
      && a < |s.assocs| && s.assocs[a].activity.Holding?
      && var x := s.assocs[a]; x.activity.target in x.routes ==> x.routes[x.activity.target] < |s.workers|
    case TakeWorker(a) => a < |s.assocs| && s.assocs[a].activity.NeedsWorker?
    case FirstSend(a) => a < |s.assocs| && s.assocs[a].activity.Spawned? && s.assocs[a].activity.worker < |s.workers|
    case TakeReply(a) => a < |s.assocs| && s.assocs[a].alive && s.assocs[a].activity.Ready? && s.assocs[a].replies != []
    case RelayDone(a) => a < |s.assocs| && s.assocs[a].activity.Relaying?
    case DropAssoc(a) =>
      a < |s.assocs| && s.assocs[a].alive && (s.assocs[a].activity.Ready? || s.assocs[a].activity.Relaying?)
    case Established(w) => w < |s.workers| && s.workers[w].phase.Establishing?
    case TakeQueued(w) => w < |s.workers| && Idle(s.workers[w]) && s.workers[w].queue != []
    case Emitted(w) =>
      && w < |s.workers| && s.workers[w].phase.Running? && s.workers[w].sending.Some?
      && s.workers[w].assoc < |s.assocs|
    case ReplyArrives(w, _) => w < |s.workers| && Idle(s.workers[w])
    case PushReply(w) =>
      && w < |s.workers| && s.workers[w].phase.Running? && s.workers[w].replying.Some?
      && s.workers[w].assoc < |s.assocs|
      && s.assocs[s.workers[w].assoc].alive && |s.assocs[s.workers[w].assoc].replies| < REPLY_CAPACITY
    case Stop(w) => w < |s.workers| && !s.workers[w].phase.Stopped?
    case CloseChannel(w) => w < |s.workers| && s.workers[w].phase.Stopped? && s.workers[w].open
    case ReleasePermit(w) => w < |s.workers| && s.workers[w].phase.Stopped? && s.workers[w].permit
  }

  function PutWorker(s: State, w: nat, x: Worker): State
    requires w < |s.workers|
  {
    s.(workers := s.workers[w := x])
  }

  function PutAssoc(s: State, a: nat, x: Assoc): State
    requires a < |s.assocs|
  {
    s.(assocs := s.assocs[a := x])
  }

  /** Puts the association's activity down and gives back the bytes it held. */
  function LetGo(s: State, a: nat): State
    requires a < |s.assocs|
  {
    PutAssoc(s, a, s.assocs[a].(activity := Ready)).(bytes := s.bytes + ActivityBytes(s.assocs[a].activity))
  }

  function Next(s: State, e: Event): (s': State)
    requires Possible(s, e)
  {
    match e
    case NewAssoc => s.(assocs := s.assocs + [Assoc(true, Ready, map[], [], map[], map[], [])])
    case Arrive(a, t, p) =>
      var x := s.assocs[a];
      var x' := x.(offered := x.offered[t := Get(x.offered, t) + [p]]);
      if s.bytes < |p| then PutAssoc(s, a, x')
      else PutAssoc(s, a, x'.(activity := Holding(t, p))).(bytes := s.bytes - |p|)
    case PruneRoute(a, t) => PutAssoc(s, a, s.assocs[a].(routes := s.assocs[a].routes - {t}))
    case TrySend(a) => NextTrySend(s, a)
    case TakeWorker(a) => NextTakeWorker(s, a)
    case FirstSend(a) => NextFirstSend(s, a)
    case TakeReply(a) =>
      var x := s.assocs[a];
      PutAssoc(s, a, x.(activity := Relaying(x.replies[0]), replies := x.replies[1..]))
    case RelayDone(a) =>
      var s1 := LetGo(s, a);
      PutAssoc(s1, a, s1.assocs[a].(relayed := s1.assocs[a].relayed + [s.assocs[a].activity.reply]))
    case DropAssoc(a) =>
      var s1 := LetGo(s, a);
      PutAssoc(s1, a, s1.assocs[a].(alive := false, replies := []))
        .(bytes := s1.bytes + RepliesBytes(s.assocs[a].replies))
    case Established(w) => PutWorker(s, w, s.workers[w].(phase := Running))
    case TakeQueued(w) =>
      var x := s.workers[w];
      PutWorker(s, w, x.(sending := Some(x.queue[0]), queue := x.queue[1..]))
    case Emitted(w) => NextEmitted(s, w)
    case ReplyArrives(w, p) =>
      var x := s.workers[w].(arrived := s.workers[w].arrived + [p]);
      if s.bytes < |p| then PutWorker(s, w, x)
      else PutWorker(s, w, x.(replying := Some(p))).(bytes := s.bytes - |p|)
    case PushReply(w) =>
      var x := s.workers[w];
      var y := s.assocs[x.assoc];
      PutAssoc(PutWorker(s, w, x.(replying := None)), x.assoc, y.(replies := y.replies + [Reply(w, x.replying.value)]))
    case Stop(w) =>
      var x := s.workers[w];
      PutWorker(s, w, x.(phase := Stopped, sending := None, replying := None))
        .(bytes := s.bytes + Size(x.sending) + Size(x.replying))
    case CloseChannel(w) =>
      var x := s.workers[w];
      PutWorker(s, w, x.(open := false, queue := [])).(bytes := s.bytes + Total(x.queue))
    case ReleasePermit(w) =>
      PutWorker(s, w, s.workers[w].(permit := false)).(permits := s.permits + 1)
  }

  /** `try_send` on the existing route: queued, dropped when full, or the route is found closed and removed. */
  function NextTrySend(s: State, a: nat): (s': State)
    requires Possible(s, TrySend(a))
  {
    var x := s.assocs[a];
    var t, p := x.activity.target, x.activity.payload;
    if t !in x.routes then PutAssoc(s, a, x.(activity := NeedsWorker(t, p)))
    else
      var w := x.routes[t];
      var y := s.workers[w];
      if !y.open then PutAssoc(s, a, x.(activity := NeedsWorker(t, p), routes := x.routes - {t}))
      else if |y.queue| >= CHANNEL_CAPACITY then LetGo(s, a)
      else PutAssoc(PutWorker(s, w, y.(queue := y.queue + [p])), a, x.(activity := Ready))
  }

  /** The target limit, then the worker permit, then the spawn. */
  function NextTakeWorker(s: State, a: nat): (s': State)
    requires Possible(s, TakeWorker(a))
  {
    var x := s.assocs[a];
    var t, p := x.activity.target, x.activity.payload;
    if |x.routes| >= MAX_TARGETS || s.permits < 1 then LetGo(s, a)
    else
      PutAssoc(s, a, x.(activity := Spawned(t, p, |s.workers|)))
        .(permits := s.permits - 1, workers := s.workers + [Worker(a, t, Establishing, true, true, [], None, None, [])])
  }

  /** The first datagram goes to the new channel; if its worker is already gone, no route is kept. */
  function NextFirstSend(s: State, a: nat): (s': State)
    requires Possible(s, FirstSend(a))
  {
    var x := s.assocs[a];
    var w := x.activity.worker;
    var y := s.workers[w];
    if !y.open then LetGo(s, a)
    else
      PutAssoc(PutWorker(s, w, y.(queue := y.queue + [x.activity.payload])), a,
               x.(activity := Ready, routes := x.routes[x.activity.target := w]))
  }

  function NextEmitted(s: State, w: nat): (s': State)
    requires Possible(s, Emitted(w))
  {
    var x := s.workers[w];
    var y := s.assocs[x.assoc];
    PutAssoc(PutWorker(s, w, x.(sending := None)), x.assoc,
             y.(emitted := y.emitted[x.target := Get(y.emitted, x.target) + [x.sending.value]]))
      .(bytes := s.bytes + |x.sending.value|)
  }

  const INITIAL: State := State(QUEUE_BYTES, MAX_WORKERS, [], [])

  ghost predicate Run(es: seq<Event>, ss: seq<State>) {
    && |ss| == |es| + 1 && ss[0] == INITIAL
    && forall k :: 0 <= k < |es| ==> Possible(ss[k], es[k]) && ss[k + 1] == Next(ss[k], es[k])
  }

  // ---------------------------------------------------------------- budgets

  /** Free permits and live holders always add up to the whole budget. */
  ghost predicate Budget(s: State) {
    && s.bytes >= 0 && s.bytes + WorkersBytes(s.workers) + AssocsBytes(s.assocs) == 0x80_0000
    && s.permits >= 0 && s.permits + LivePermits(s.workers) == 128
  }

  lemma {:induction false} TotalSnoc(ps: seq<Payload>, p: Payload)
    ensures Total(ps + [p]) == Total(ps) + |p|
  {
    if ps != [] {
      TotalSnoc(ps[1..], p);
      assert (ps + [p])[1..] == ps[1..] + [p];
    }
  }

  lemma {:induction false} RepliesSnoc(rs: seq<Reply>, r: Reply)
    ensures RepliesBytes(rs + [r]) == RepliesBytes(rs) + |r.payload|
  {
    if rs != [] {
      RepliesSnoc(rs[1..], r);
      assert (rs + [r])[1..] == rs[1..] + [r];
    }
  }

  lemma {:induction false} WorkerChanges(ws: seq<Worker>, i: nat, w: Worker)
    requires i < |ws|
    ensures WorkersBytes(ws[i := w]) == WorkersBytes(ws) - WorkerBytes(ws[i]) + WorkerBytes(w)
    ensures LivePermits(ws[i := w]) == LivePermits(ws) - (if ws[i].permit then 1 else 0) + (if w.permit then 1 else 0)
  {
    if i > 0 {
      WorkerChanges(ws[1..], i - 1, w);
      assert ws[i := w][1..] == ws[1..][i - 1 := w];
    } else {
      assert ws[i := w][1..] == ws[1..];
    }
  }

  lemma {:induction false} WorkerJoins(ws: seq<Worker>, w: Worker)
    ensures WorkersBytes(ws + [w]) == WorkersBytes(ws) + WorkerBytes(w)
    ensures LivePermits(ws + [w]) == LivePermits(ws) + (if w.permit then 1 else 0)
  {
    if ws == [] {
      assert ws + [w] == [w];
    } else {
      WorkerJoins(ws[1..], w);
      assert (ws + [w])[1..] == ws[1..] + [w];
    }
  }

  lemma {:induction false} AssocChanges(xs: seq<Assoc>, i: nat, x: Assoc)
    requires i < |xs|
    ensures AssocsBytes(xs[i := x]) == AssocsBytes(xs) - AssocBytes(xs[i]) + AssocBytes(x)
  {
    if i > 0 {
      AssocChanges(xs[1..], i - 1, x);
      assert xs[i := x][1..] == xs[1..][i - 1 := x];
    } else {
      assert xs[i := x][1..] == xs[1..];
    }
  }

  lemma {:induction false} AssocJoins(xs: seq<Assoc>, x: Assoc)
    ensures AssocsBytes(xs + [x]) == AssocsBytes(xs) + AssocBytes(x)
  {
    if xs == [] {
      assert xs + [x] == [x];
    } else {
      AssocJoins(xs[1..], x);
      assert (xs + [x])[1..] == xs[1..] + [x];
    }
  }

  /** Only association `a` changes, and its bytes move to or from the free ones. */
  lemma AssocMoves(s: State, s': State, a: nat)
    requires Budget(s) && a < |s.assocs| == |s'.assocs| && s'.assocs == s.assocs[a := s'.assocs[a]]
    requires s'.workers == s.workers && s'.permits == s.permits && s'.bytes >= 0
    requires s'.bytes + AssocBytes(s'.assocs[a]) == s.bytes + AssocBytes(s.assocs[a])
    ensures Budget(s')
  {
    AssocChanges(s.assocs, a, s'.assocs[a]);
  }

  /** Only worker `w` changes. */
  lemma WorkerMoves(s: State, s': State, w: nat)
    requires Budget(s) && w < |s.workers| == |s'.workers| && s'.workers == s.workers[w := s'.workers[w]]
    requires s'.assocs == s.assocs && s'.bytes >= 0 && s'.permits >= 0
    requires s'.bytes + WorkerBytes(s'.workers[w]) == s.bytes + WorkerBytes(s.workers[w])
    requires s'.permits + (if s'.workers[w].permit then 1 else 0) == s.permits + (if s.workers[w].permit then 1 else 0)
    ensures Budget(s')
  {
    WorkerChanges(s.workers, w, s'.workers[w]);
  }

  lemma AssocEventBudget(s: State, e: Event)
    requires Budget(s) && Possible(s, e)
    requires e.Arrive? || e.PruneRoute? || e.TakeReply? || e.RelayDone? || e.DropAssoc?
    ensures Budget(Next(s, e))
  {
    AssocMoves(s, Next(s, e), e.assoc);
  }

  lemma WorkerEventBudget(s: State, e: Event)
    requires Budget(s) && Possible(s, e)
    requires e.Established? || e.TakeQueued? || e.ReplyArrives? || e.Stop? || e.CloseChannel? || e.ReleasePermit?
    ensures Budget(Next(s, e))
  {
    WorkerMoves(s, Next(s, e), e.worker);
  }

  lemma BudgetKept(s: State, e: Event)
    requires Budget(s) && Possible(s, e)
    ensures Budget(Next(s, e))
  {
    match e
    case NewAssoc => AssocJoins(s.assocs, Next(s, e).assocs[|s.assocs|]);
    case TrySend(a) => TrySendBudget(s, a);
    case TakeWorker(a) => TakeWorkerBudget(s, a);
    case FirstSend(a) => FirstSendBudget(s, a);
    case Emitted(w) => EmittedBudget(s, w);
    case PushReply(w) => PushReplyBudget(s, w);
    case Arrive(_, _, _) => AssocEventBudget(s, e);
    case PruneRoute(_, _) => AssocEventBudget(s, e);
    case TakeReply(_) => AssocEventBudget(s, e);
    case RelayDone(_) => AssocEventBudget(s, e);
    case DropAssoc(_) => AssocEventBudget(s, e);
    case _ => WorkerEventBudget(s, e);
  }

  lemma Enqueued(s: State, a: nat, w: nat, s': State)
    requires Budget(s) && a < |s.assocs| == |s'.assocs| && w < |s.workers| == |s'.workers|
    requires s'.assocs == s.assocs[a := s'.assocs[a]] && s'.workers == s.workers[w := s'.workers[w]]
    requires s'.permits == s.permits && s'.workers[w].permit == s.workers[w].permit && s'.bytes == s.bytes
    requires AssocBytes(s'.assocs[a]) + WorkerBytes(s'.workers[w])
          == AssocBytes(s.assocs[a]) + WorkerBytes(s.workers[w])
    ensures Budget(s')
  {
    AssocChanges(s.assocs, a, s'.assocs[a]);
    WorkerChanges(s.workers, w, s'.workers[w]);
  }

  lemma TrySendBudget(s: State, a: nat)
    requires Budget(s) && Possible(s, TrySend(a))
    ensures Budget(NextTrySend(s, a))
  {
    var s', x := NextTrySend(s, a), s.assocs[a];
    var t := x.activity.target;
    if t in x.routes && s.workers[x.routes[t]].open && |s.workers[x.routes[t]].queue| < CHANNEL_CAPACITY {
      TotalSnoc(s.workers[x.routes[t]].queue, x.activity.payload);
      Enqueued(s, a, x.routes[t], s');
    } else {
      AssocMoves(s, s', a);
    }
  }

  lemma TakeWorkerBudget(s: State, a: nat)
    requires Budget(s) && Possible(s, TakeWorker(a))
    ensures Budget(NextTakeWorker(s, a))
  {
    var s', x := NextTakeWorker(s, a), s.assocs[a];
    AssocChanges(s.assocs, a, s'.assocs[a]);
    WorkerJoins(s.workers, Worker(a, x.activity.target, Establishing, true, true, [], None, None, []));
  }

  lemma FirstSendBudget(s: State, a: nat)
    requires Budget(s) && Possible(s, FirstSend(a))
    ensures Budget(NextFirstSend(s, a))
  {
    var s', x := NextFirstSend(s, a), s.assocs[a];
    var w := x.activity.worker;
    if s.workers[w].open {
      TotalSnoc(s.workers[w].queue, x.activity.payload);
      Enqueued(s, a, w, s');
    } else {
      AssocMoves(s, s', a);
    }
  }

  lemma EmittedBudget(s: State, w: nat)
    requires Budget(s) && Possible(s, Emitted(w))
    ensures Budget(NextEmitted(s, w))
  {
    var s', a := NextEmitted(s, w), s.workers[w].assoc;
    AssocChanges(s.assocs, a, s'.assocs[a]);
    WorkerChanges(s.workers, w, s'.workers[w]);
  }

  lemma PushReplyBudget(s: State, w: nat)
    requires Budget(s) && Possible(s, PushReply(w))
    ensures Budget(Next(s, PushReply(w)))
  {
    var s', x := Next(s, PushReply(w)), s.workers[w];
    AssocChanges(s.assocs, x.assoc, s'.assocs[x.assoc]);
    WorkerChanges(s.workers, w, s'.workers[w]);
    RepliesSnoc(s.assocs[x.assoc].replies, Reply(w, x.replying.value));
  }

  /** Over every interleaving of any number of associations and workers both budgets are conserved. */
  lemma {:induction false} BudgetsConserved(es: seq<Event>, ss: seq<State>, k: nat)
    requires Run(es, ss) && k <= |es|
    ensures Budget(ss[k])
  {
    if k > 0 {
      BudgetsConserved(es, ss, k - 1);
      BudgetKept(ss[k - 1], es[k - 1]);
    }
  }

  // ---------------------------------------------------------------- routes and order

  /** The datagram in the association's hand, if it is for `t`. */
  function Held(x: Assoc, t: Target): (ps: seq<Payload>) {
    if (x.activity.Holding? || x.activity.NeedsWorker? || x.activity.Spawned?) && x.activity.target == t
    then [x.activity.payload] else []
  }

  function Pipeline(w: Worker): (ps: seq<Payload>) {
    (if w.sending.Some? then [w.sending.value] else []) + w.queue
  }

  predicate RoutedTo(x: Assoc, t: Target, w: nat) {
    || (t in x.routes && x.routes[t] == w)
    || (x.activity.Spawned? && x.activity.target == t && x.activity.worker == w)
  }

  /** What went out, what is on its way and what is in hand stand in the order the client sent them. */
  ghost predicate InOrder(x: Assoc, t: Target, onTheWay: seq<Payload>) {
    IsSubsequence(Get(x.emitted, t) + onTheWay + Held(x, t), Get(x.offered, t))
  }

  /** Every open channel is the one its target is routed to. */
  ghost predicate WorkerOk(s: State, w: nat)
    requires w < |s.workers|
  {
    var y := s.workers[w];
    && y.assoc < |s.assocs|
    && (!y.phase.Stopped? ==> y.open) && (!y.open ==> y.queue == []) && (!y.phase.Running? ==> y.sending.None?)
    && (y.open ==> RoutedTo(s.assocs[y.assoc], y.target, w) && InOrder(s.assocs[y.assoc], y.target, Pipeline(y)))
  }

  ghost predicate RouteOk(s: State, a: nat, t: Target, w: nat) {
    w < |s.workers| && s.workers[w].assoc == a && s.workers[w].target == t
  }

  ghost predicate AssocOk(s: State, a: nat)
    requires a < |s.assocs|
  {
    var x := s.assocs[a];
    && |x.routes| <= MAX_TARGETS
    && (forall t :: t in x.routes ==> RouteOk(s, a, t, x.routes[t]))
    && (x.activity.NeedsWorker? || x.activity.Spawned? ==> x.activity.target !in x.routes)
    && (x.activity.Spawned? ==> |x.routes| < MAX_TARGETS && RouteOk(s, a, x.activity.target, x.activity.worker))
    && (forall t :: InOrder(x, t, []))
  }

  ghost predicate Routed(s: State) {
    && (forall w :: 0 <= w < |s.workers| ==> WorkerOk(s, w))
    && (forall a :: 0 <= a < |s.assocs| ==> AssocOk(s, a))
  }

  /** Each target of an association has at most one worker with an open channel. */
  lemma OneOpenWorker(s: State, v: nat, w: nat)
    requires Routed(s) && v < |s.workers| && w < |s.workers| && s.workers[v].open && s.workers[w].open
    requires s.workers[v].assoc == s.workers[w].assoc && s.workers[v].target == s.workers[w].target
    ensures v == w
  {
    assert WorkerOk(s, v) && WorkerOk(s, w) && AssocOk(s, s.workers[v].assoc);
  }

  /** Association `a` and worker `w` change; the other open workers of `a` must still be fine. */
  lemma Changed(s: State, s': State, a: nat, w: nat)
    requires Routed(s) && a < |s.assocs| == |s'.assocs| && s'.assocs == s.assocs[a := s'.assocs[a]]
    requires w <= |s.workers| <= |s'.workers| && w < |s'.workers| <= |s.workers| + 1
    requires forall v :: 0 <= v < |s'.workers| && v != w ==> v < |s.workers| && s'.workers[v] == s.workers[v]
    requires w < |s.workers| ==>
               s'.workers[w].assoc == s.workers[w].assoc && s'.workers[w].target == s.workers[w].target
    requires AssocOk(s', a) && WorkerOk(s', w)
    requires forall v | 0 <= v < |s.workers| && v != w && s.workers[v].assoc == a && s.workers[v].open ::
               WorkerOk(s', v)
    ensures Routed(s')
  {
    forall v | 0 <= v < |s'.workers| ensures WorkerOk(s', v) {
      if v != w { assert WorkerOk(s, v); }
    }
    forall b | 0 <= b < |s'.assocs| ensures AssocOk(s', b) {
      if b != a {
        assert AssocOk(s, b);
        forall t | t in s'.assocs[b].routes ensures RouteOk(s', b, t, s'.assocs[b].routes[t]) {
          assert RouteOk(s, b, t, s.assocs[b].routes[t]);
        }
      }
    }
  }

  /** Only association `a` changes. */
  lemma AssocChanged(s: State, s': State, a: nat)
    requires Routed(s) && a < |s.assocs| == |s'.assocs| && s'.assocs == s.assocs[a := s'.assocs[a]]
    requires s'.workers == s.workers
    requires AssocOk(s', a)
    requires forall v :: 0 <= v < |s.workers| && s.workers[v].assoc == a && s.workers[v].open ==> WorkerOk(s', v)
    ensures Routed(s')
  {
    forall v | 0 <= v < |s'.workers| ensures WorkerOk(s', v) {
      assert WorkerOk(s, v);
    }
    forall b | 0 <= b < |s'.assocs| ensures AssocOk(s', b) {
      if b != a {
        assert AssocOk(s, b);
        forall t | t in s'.assocs[b].routes ensures RouteOk(s', b, t, s'.assocs[b].routes[t]) {
          assert RouteOk(s, b, t, s.assocs[b].routes[t]);
        }
      }
    }
  }

  // How each change of an association bears on the order.

  lemma ArriveOrder(x: Assoc, x': Assoc, t: Target, p: Payload, u: Target, way: seq<Payload>)
    requires x.activity.Ready? && (x'.activity.Ready? || x'.activity == Holding(t, p)) && InOrder(x, u, way)
    requires x'.emitted == x.emitted && x'.offered == x.offered[t := Get(x.offered, t) + [p]]
    ensures InOrder(x', u, way)
  {
    var out := Get(x.emitted, u) + way;
    assert out + [] == out;
    if u == t {
      if x'.activity.Ready? { Missed(out, Get(x.offered, t), p); } else { Kept(out, Get(x.offered, t), p); }
    }
  }

  /** The order does not change when what is held stays the same. */
  lemma SameOrder(x: Assoc, x': Assoc, u: Target, way: seq<Payload>)
    requires InOrder(x, u, way) && x'.emitted == x.emitted && x'.offered == x.offered && Held(x', u) == Held(x, u)
    ensures InOrder(x', u, way)
  {
  }

  lemma LetGoOrder(x: Assoc, x': Assoc, u: Target, way: seq<Payload>)
    requires InOrder(x, u, way) && x'.emitted == x.emitted && x'.offered == x.offered && Held(x', u) == []
    ensures InOrder(x', u, way)
  {
    var out := Get(x.emitted, u) + way;
    assert out + Held(x, u) + [] == out + Held(x, u);
    DropMiddle(out, Held(x, u), [], Get(x.offered, u));
    assert out + [] == out;
  }

  lemma DropWayOrder(x: Assoc, u: Target, front: seq<Payload>, gone: seq<Payload>, back: seq<Payload>)
    requires InOrder(x, u, front + gone + back)
    ensures InOrder(x, u, front + back)
  {
    var e, h := Get(x.emitted, u), Held(x, u);
    assert e + (front + gone + back) + h == (e + front) + gone + (back + h);
    DropMiddle(e + front, gone, back + h, Get(x.offered, u));
    assert (e + front) + (back + h) == e + (front + back) + h;
  }

  lemma HandOverOrder(x: Assoc, x': Assoc, t: Target, p: Payload, way: seq<Payload>)
    requires Held(x, t) == [p] && Held(x', t) == [] && InOrder(x, t, way)
    requires x'.emitted == x.emitted && x'.offered == x.offered
    ensures InOrder(x', t, way + [p])
  {
    assert Get(x.emitted, t) + (way + [p]) + [] == Get(x.emitted, t) + way + [p];
  }

  lemma EmitOrder(x: Assoc, x': Assoc, t: Target, p: Payload, rest: seq<Payload>)
    requires InOrder(x, t, [p] + rest) && x'.offered == x.offered && x'.activity == x.activity
    requires x'.emitted == x.emitted[t := Get(x.emitted, t) + [p]]
    ensures InOrder(x', t, rest)
  {
    assert Get(x'.emitted, t) + rest + Held(x, t) == Get(x.emitted, t) + ([p] + rest) + Held(x, t);
  }

  lemma BaseOrder(x: Assoc, t: Target, way: seq<Payload>)
    requires InOrder(x, t, way)
    ensures InOrder(x, t, [])
  {
    var none: seq<Payload> := [];
    assert none + way + none == way && none + none == none;
    DropWayOrder(x, t, none, way, none);
  }

  // ---------------------------------------------------------------- every event keeps the invariant

  lemma ArriveKept(s: State, a: nat, t: Target, p: Payload)
    requires Routed(s) && Possible(s, Arrive(a, t, p))
    ensures Routed(Next(s, Arrive(a, t, p)))
  {
    var s' := Next(s, Arrive(a, t, p));
    var x, x' := s.assocs[a], s'.assocs[a];
    assert AssocOk(s, a);
    forall u ensures InOrder(x', u, []) { ArriveOrder(x, x', t, p, u, []); }
    forall u | u in x'.routes ensures RouteOk(s', a, u, x'.routes[u]) { assert RouteOk(s, a, u, x.routes[u]); }
    forall v | 0 <= v < |s.workers| && s.workers[v].assoc == a && s.workers[v].open ensures WorkerOk(s', v) {
      assert WorkerOk(s, v);
      ArriveOrder(x, x', t, p, s.workers[v].target, Pipeline(s.workers[v]));
    }
    AssocChanged(s, s', a);
  }

  /** The association puts down what it holds, or never held a datagram; routes stay. */
  lemma LetGoKept(s: State, s': State, a: nat)
    requires Routed(s) && a < |s.assocs| == |s'.assocs| && s'.assocs == s.assocs[a := s'.assocs[a]]
    requires s'.workers == s.workers
    requires var x, x' := s.assocs[a], s'.assocs[a];
             && x'.routes == x.routes && x'.emitted == x.emitted && x'.offered == x.offered
             && (x'.activity.Ready? || x'.activity.Relaying?)
             && (x.activity.Spawned? ==> x.activity.worker < |s.workers| && !s.workers[x.activity.worker].open)
    ensures Routed(s')
  {
    var x, x' := s.assocs[a], s'.assocs[a];
    assert AssocOk(s, a);
    forall u ensures InOrder(x', u, []) { LetGoOrder(x, x', u, []); }
    forall u | u in x'.routes ensures RouteOk(s', a, u, x'.routes[u]) { assert RouteOk(s, a, u, x.routes[u]); }
    forall v | 0 <= v < |s.workers| && s.workers[v].assoc == a && s.workers[v].open ensures WorkerOk(s', v) {
      assert WorkerOk(s, v);
      LetGoOrder(x, x', s.workers[v].target, Pipeline(s.workers[v]));
    }
    AssocChanged(s, s', a);
  }

  /** A route to a closed channel goes away. */
  lemma UnrouteKept(s: State, s': State, a: nat, t: Target)
    requires Routed(s) && a < |s.assocs| == |s'.assocs| && s'.assocs == s.assocs[a := s'.assocs[a]]
    requires s'.workers == s.workers
    requires var x, x' := s.assocs[a], s'.assocs[a];
             && (t in x.routes ==> x.routes[t] < |s.workers| && !s.workers[x.routes[t]].open)
             && x'.routes == x.routes - {t}
             && x'.emitted == x.emitted && x'.offered == x.offered
             && (x'.activity == x.activity ||
                 (x.activity.Holding? && x'.activity == NeedsWorker(t, x.activity.payload) && t == x.activity.target))
    ensures Routed(s')
  {
    var x, x' := s.assocs[a], s'.assocs[a];
    assert AssocOk(s, a);
    assert x'.routes.Keys == x.routes.Keys - {t};
    Smaller(x'.routes.Keys, x.routes.Keys);
    forall u ensures InOrder(x', u, []) { SameOrder(x, x', u, []); }
    forall u | u in x'.routes ensures RouteOk(s', a, u, x'.routes[u]) { assert RouteOk(s, a, u, x.routes[u]); }
    forall v | 0 <= v < |s.workers| && s.workers[v].assoc == a && s.workers[v].open ensures WorkerOk(s', v) {
      assert WorkerOk(s, v);
      SameOrder(x, x', s.workers[v].target, Pipeline(s.workers[v]));
    }
    AssocChanged(s, s', a);
  }

  lemma Smaller<T>(a: set<T>, b: set<T>)
    requires a <= b
    ensures |a| <= |b|
  {
    assert b == a + (b - a);
  }

  /** A datagram goes from the hand into the channel of `w`. */
  lemma HandOverKept(s: State, s': State, a: nat, w: nat)
    requires Routed(s) && a < |s.assocs| == |s'.assocs| && w < |s.workers| == |s'.workers|
    requires s'.assocs == s.assocs[a := s'.assocs[a]] && s'.workers == s.workers[w := s'.workers[w]]
    requires var x, x' := s.assocs[a], s'.assocs[a];
             && (x.activity.Holding? || x.activity.Spawned?) && x'.activity.Ready?
             && x'.routes == x.routes[x.activity.target := w] && |x'.routes| <= MAX_TARGETS
             && x'.emitted == x.emitted && x'.offered == x.offered
             && RouteOk(s, a, x.activity.target, w) && RoutedTo(x, x.activity.target, w)
             && s.workers[w].open && s'.workers[w] == s.workers[w].(queue := s.workers[w].queue + [x.activity.payload])
    ensures Routed(s')
  {
    var x, x', y := s.assocs[a], s'.assocs[a], s.workers[w];
    var t, p := x.activity.target, x.activity.payload;
    assert AssocOk(s, a) && WorkerOk(s, w);
    forall u ensures InOrder(x', u, []) { LetGoOrder(x, x', u, []); }
    forall u | u in x'.routes ensures RouteOk(s', a, u, x'.routes[u]) {
      if u != t { assert RouteOk(s, a, u, x.routes[u]); }
    }
    HandOverOrder(x, x', t, p, Pipeline(y));
    assert Pipeline(s'.workers[w]) == Pipeline(y) + [p];
    forall v | 0 <= v < |s.workers| && v != w && s.workers[v].assoc == a && s.workers[v].open ensures WorkerOk(s', v) {
      assert WorkerOk(s, v);
      if s.workers[v].target == t { OneOpenWorker(s, v, w); }
      LetGoOrder(x, x', s.workers[v].target, Pipeline(s.workers[v]));
    }
    Changed(s, s', a, w);
  }

  lemma TrySendKept(s: State, a: nat)
    requires Routed(s) && Possible(s, TrySend(a))
    ensures Routed(NextTrySend(s, a))
  {
    var s', x := NextTrySend(s, a), s.assocs[a];
    var t := x.activity.target;
    assert AssocOk(s, a);
    if t !in x.routes {
      assert x.routes - {t} == x.routes;
      UnrouteKept(s, s', a, t);
    } else {
      var w := x.routes[t];
      assert RouteOk(s, a, t, w);
      if !s.workers[w].open {
        UnrouteKept(s, s', a, t);
      } else if |s.workers[w].queue| >= CHANNEL_CAPACITY {
        LetGoKept(s, s', a);
      } else {
        assert x.routes[t := w] == x.routes;
        HandOverKept(s, s', a, w);
      }
    }
  }

  lemma SpawnKept(s: State, a: nat)
    requires Routed(s) && Possible(s, TakeWorker(a)) && |s.assocs[a].routes| < MAX_TARGETS && s.permits >= 1
    ensures Routed(NextTakeWorker(s, a))
  {
    var s', w := NextTakeWorker(s, a), |s.workers|;
    var x, x' := s.assocs[a], s'.assocs[a];
    var t := x.activity.target;
    assert AssocOk(s, a);
    forall u ensures InOrder(x', u, []) && Held(x', u) == Held(x, u) { assert InOrder(x, u, []); }
    forall u | u in x'.routes ensures RouteOk(s', a, u, x'.routes[u]) { assert RouteOk(s, a, u, x.routes[u]); }
    assert InOrder(x', t, []) && Pipeline(s'.workers[w]) == [];
    forall v | 0 <= v < |s.workers| && v != w && s.workers[v].assoc == a && s.workers[v].open ensures WorkerOk(s', v) {
      assert WorkerOk(s, v);
    }
    Changed(s, s', a, w);
  }

  lemma FirstSendKept(s: State, a: nat)
    requires Routed(s) && Possible(s, FirstSend(a))
    ensures Routed(NextFirstSend(s, a))
  {
    var s', x := NextFirstSend(s, a), s.assocs[a];
    var w := x.activity.worker;
    assert AssocOk(s, a);
    if s.workers[w].open {
      assert x.routes[x.activity.target := w].Keys == x.routes.Keys + {x.activity.target};
      HandOverKept(s, s', a, w);
    } else {
      LetGoKept(s, s', a);
    }
  }

  /** Only worker `w` changes. */
  lemma WorkerChanged(s: State, s': State, w: nat)
    requires Routed(s) && s'.assocs == s.assocs && w < |s.workers| == |s'.workers|
    requires s'.workers == s.workers[w := s'.workers[w]]
    requires s'.workers[w].assoc == s.workers[w].assoc && s'.workers[w].target == s.workers[w].target && WorkerOk(s', w)
    ensures Routed(s')
  {
    forall v | 0 <= v < |s'.workers| ensures WorkerOk(s', v) {
      assert WorkerOk(s, v);
    }
    forall b | 0 <= b < |s'.assocs| ensures AssocOk(s', b) {
      assert AssocOk(s, b);
      forall t | t in s'.assocs[b].routes ensures RouteOk(s', b, t, s'.assocs[b].routes[t]) {
        assert RouteOk(s, b, t, s.assocs[b].routes[t]);
      }
    }
  }

  lemma WorkerEventKept(s: State, e: Event)
    requires Routed(s) && Possible(s, e)
    requires e.Established? || e.TakeQueued? || e.ReplyArrives? || e.Stop? || e.CloseChannel? || e.ReleasePermit?
    ensures Routed(Next(s, e))
  {
    var w := e.worker;
    var y, y' := s.workers[w], Next(s, e).workers[w];
    assert WorkerOk(s, w);
    if e.Stop? {
      var front: seq<Payload> := [];
      var gone := if y.sending.Some? then [y.sending.value] else [];
      assert front + gone + y.queue == Pipeline(y) && front + y.queue == Pipeline(y');
      DropWayOrder(s.assocs[y.assoc], y.target, front, gone, y.queue);
    } else if !e.CloseChannel? {
      assert Pipeline(y') == Pipeline(y);
    }
    WorkerChanged(s, Next(s, e), w);
  }

  lemma EmittedKept(s: State, w: nat)
    requires Routed(s) && Possible(s, Emitted(w))
    ensures Routed(NextEmitted(s, w))
  {
    var s', y := NextEmitted(s, w), s.workers[w];
    var a, t, p := y.assoc, y.target, y.sending.value;
    var x, x' := s.assocs[a], s'.assocs[a];
    assert AssocOk(s, a) && WorkerOk(s, w);
    assert Pipeline(y) == [p] + y.queue && Pipeline(s'.workers[w]) == y.queue;
    EmitOrder(x, x', t, p, y.queue);
    forall u ensures InOrder(x', u, []) {
      if u == t { BaseOrder(x', t, y.queue); } else { assert InOrder(x, u, []); }
    }
    forall u | u in x'.routes ensures RouteOk(s', a, u, x'.routes[u]) { assert RouteOk(s, a, u, x.routes[u]); }
    forall v | 0 <= v < |s.workers| && v != w && s.workers[v].assoc == a && s.workers[v].open ensures WorkerOk(s', v) {
      assert WorkerOk(s, v);
      if s.workers[v].target == t { OneOpenWorker(s, v, w); }
    }
    Changed(s, s', a, w);
  }

  lemma PushReplyKept(s: State, w: nat)
    requires Routed(s) && Possible(s, PushReply(w))
    ensures Routed(Next(s, PushReply(w)))
  {
    var s', a := Next(s, PushReply(w)), s.workers[w].assoc;
    var x, x' := s.assocs[a], s'.assocs[a];
    assert AssocOk(s, a) && WorkerOk(s, w);
    forall u ensures InOrder(x', u, []) { SameOrder(x, x', u, []); }
    forall u | u in x'.routes ensures RouteOk(s', a, u, x'.routes[u]) { assert RouteOk(s, a, u, x.routes[u]); }
    assert Pipeline(s'.workers[w]) == Pipeline(s.workers[w]);
    forall v | 0 <= v < |s.workers| && s.workers[v].assoc == a && s.workers[v].open ensures WorkerOk(s', v) {
      assert WorkerOk(s, v);
      SameOrder(x, x', s.workers[v].target, Pipeline(s.workers[v]));
    }
    Changed(s, s', a, w);
  }

  lemma NewAssocKept(s: State)
    requires Routed(s)
    ensures Routed(Next(s, NewAssoc))
  {
    var s' := Next(s, NewAssoc);
    forall v | 0 <= v < |s'.workers| ensures WorkerOk(s', v) { assert WorkerOk(s, v); }
    forall b | 0 <= b < |s'.assocs| ensures AssocOk(s', b) {
      if b < |s.assocs| {
        assert AssocOk(s, b);
        forall t | t in s'.assocs[b].routes ensures RouteOk(s', b, t, s'.assocs[b].routes[t]) {
          assert RouteOk(s, b, t, s.assocs[b].routes[t]);
        }
      }
    }
  }

  lemma NextKeepsRouted(s: State, e: Event)
    requires Routed(s) && Possible(s, e)
    ensures Routed(Next(s, e))
  {
    match e
    case NewAssoc => NewAssocKept(s);
    case Arrive(a, t, p) => ArriveKept(s, a, t, p);
    case PruneRoute(a, t) => UnrouteKept(s, Next(s, e), a, t);
    case TrySend(a) => TrySendKept(s, a);
    case TakeWorker(a) =>
      if |s.assocs[a].routes| < MAX_TARGETS && s.permits >= 1 { SpawnKept(s, a); } else { LetGoKept(s, Next(s, e), a); }
    case FirstSend(a) => FirstSendKept(s, a);
    case TakeReply(a) => LetGoKept(s, Next(s, e), a);
    case RelayDone(a) => LetGoKept(s, Next(s, e), a);
    case DropAssoc(a) => LetGoKept(s, Next(s, e), a);
    case Emitted(w) => EmittedKept(s, w);
    case PushReply(w) => PushReplyKept(s, w);
    case _ => WorkerEventKept(s, e);
  }

  // ---------------------------------------------------------------- channel bounds

  /** The channel of a worker that has not had its first datagram is empty. */
  ghost predicate FreshEmpty(s: State, x: Assoc) {
    x.activity.Spawned? && x.activity.worker < |s.workers| ==> s.workers[x.activity.worker].queue == []
  }

  ghost predicate Bounded(s: State) {
    && (forall w :: 0 <= w < |s.workers| ==> |s.workers[w].queue| <= CHANNEL_CAPACITY)
    && (forall a :: 0 <= a < |s.assocs| ==> |s.assocs[a].replies| <= REPLY_CAPACITY)
    && (forall a :: 0 <= a < |s.assocs| ==> FreshEmpty(s, s.assocs[a]))
  }

  /** A worker that an association is routed to is not the new worker of another one. */
  lemma NotFresh(s: State, a: nat, t: Target, b: nat)
    requires Routed(s) && a < |s.assocs| && b < |s.assocs| && t in s.assocs[a].routes && s.assocs[b].activity.Spawned?
    requires a != b || s.assocs[a].activity.target == t
    ensures s.assocs[a].routes[t] != s.assocs[b].activity.worker
  {
    assert AssocOk(s, a) && AssocOk(s, b);
    assert RouteOk(s, a, t, s.assocs[a].routes[t]);
  }

  lemma TrySendBounded(s: State, a: nat)
    requires Routed(s) && Bounded(s) && Possible(s, TrySend(a))
    ensures Bounded(NextTrySend(s, a))
  {
    var s', x := NextTrySend(s, a), s.assocs[a];
    forall b | 0 <= b < |s'.assocs| ensures FreshEmpty(s', s'.assocs[b]) {
      assert FreshEmpty(s, s.assocs[b]);
      if b != a && s.assocs[b].activity.Spawned? && x.activity.target in x.routes {
        NotFresh(s, a, x.activity.target, b);
      }
    }
  }

  lemma FirstSendBounded(s: State, a: nat)
    requires Routed(s) && Bounded(s) && Possible(s, FirstSend(a))
    ensures Bounded(NextFirstSend(s, a))
  {
    var s', x := NextFirstSend(s, a), s.assocs[a];
    assert AssocOk(s, a) && FreshEmpty(s, x);
    forall b | 0 <= b < |s'.assocs| ensures FreshEmpty(s', s'.assocs[b]) {
      assert FreshEmpty(s, s.assocs[b]) && AssocOk(s, b);
    }
  }

  /** No association gets a new worker and no channel grows: the bounds stay. */
  lemma NothingGrows(s: State, s': State)
    requires Routed(s) && Bounded(s) && |s'.workers| == |s.workers| && |s'.assocs| == |s.assocs|
    requires forall w :: 0 <= w < |s.workers| ==> |s'.workers[w].queue| <= |s.workers[w].queue|
    requires forall a :: 0 <= a < |s.assocs| ==> |s'.assocs[a].replies| <= REPLY_CAPACITY
    requires forall a | 0 <= a < |s.assocs| && s'.assocs[a].activity.Spawned? ::
               s'.assocs[a].activity == s.assocs[a].activity
    ensures Bounded(s')
  {
    forall b | 0 <= b < |s'.assocs| ensures FreshEmpty(s', s'.assocs[b]) {
      assert FreshEmpty(s, s.assocs[b]) && AssocOk(s, b);
    }
  }

  lemma AssocEventBounded(s: State, e: Event)
    requires Routed(s) && Bounded(s) && Possible(s, e)
    requires e.Arrive? || e.PruneRoute? || e.TakeReply? || e.RelayDone? || e.DropAssoc?
    ensures Bounded(Next(s, e))
  {
    NothingGrows(s, Next(s, e));
  }

  lemma WorkerEventBounded(s: State, e: Event)
    requires Routed(s) && Bounded(s) && Possible(s, e)
    requires e.Established? || e.TakeQueued? || e.Emitted? || e.ReplyArrives? || e.PushReply? || e.Stop?
          || e.CloseChannel? || e.ReleasePermit?
    ensures Bounded(Next(s, e))
  {
    NothingGrows(s, Next(s, e));
  }

  lemma TakeWorkerBounded(s: State, a: nat)
    requires Routed(s) && Bounded(s) && Possible(s, TakeWorker(a))
    ensures Bounded(NextTakeWorker(s, a))
  {
    var s' := NextTakeWorker(s, a);
    forall b | 0 <= b < |s'.assocs| ensures FreshEmpty(s', s'.assocs[b]) {
      assert FreshEmpty(s, s.assocs[b]) && AssocOk(s, b);
    }
  }

  lemma NewAssocBounded(s: State)
    requires Bounded(s)
    ensures Bounded(Next(s, NewAssoc))
  {
    var s' := Next(s, NewAssoc);
    forall b | 0 <= b < |s'.assocs| ensures FreshEmpty(s', s'.assocs[b]) {
      if b < |s.assocs| { assert FreshEmpty(s, s.assocs[b]); }
    }
  }

  ghost predicate Inv(s: State) {
    Routed(s) && Bounded(s)
  }

  lemma NextKeepsInv(s: State, e: Event)
    requires Inv(s) && Possible(s, e)
    ensures Inv(Next(s, e))
  {
    NextKeepsRouted(s, e);
    match e
    case TrySend(a) => TrySendBounded(s, a);
    case FirstSend(a) => FirstSendBounded(s, a);
    case TakeWorker(a) => TakeWorkerBounded(s, a);
    case NewAssoc => NewAssocBounded(s);
    case Arrive(_, _, _) => AssocEventBounded(s, e);
    case PruneRoute(_, _) => AssocEventBounded(s, e);
    case TakeReply(_) => AssocEventBounded(s, e);
    case RelayDone(_) => AssocEventBounded(s, e);
    case DropAssoc(_) => AssocEventBounded(s, e);
    case _ => WorkerEventBounded(s, e);
  }

  lemma {:induction false} RunKeepsInv(es: seq<Event>, ss: seq<State>, k: nat)
    requires Run(es, ss) && k <= |es|
    ensures Inv(ss[k])
  {
    if k > 0 {
      RunKeepsInv(es, ss, k - 1);
      NextKeepsInv(ss[k - 1], es[k - 1]);
    }
  }

  lemma RoutesLead(es: seq<Event>, ss: seq<State>, a: nat)
    requires Run(es, ss) && a < |ss[|es|].assocs|
    ensures forall t :: t in ss[|es|].assocs[a].routes ==> ss[|es|].assocs[a].routes[t] < |ss[|es|].workers|
  {
    RunKeepsInv(es, ss, |es|);
    var s := ss[|es|];
    assert AssocOk(s, a);
    forall t | t in s.assocs[a].routes ensures s.assocs[a].routes[t] < |s.workers| {
      assert RouteOk(s, a, t, s.assocs[a].routes[t]);
    }
  }

  /** In every run no target channel holds more than 32 datagrams and no reply channel more than 64. */
  lemma ChannelsBounded(es: seq<Event>, ss: seq<State>, k: nat)
    requires Run(es, ss) && k <= |es|
    ensures forall w :: 0 <= w < |ss[k].workers| ==> |ss[k].workers[w].queue| <= 32
    ensures forall a :: 0 <= a < |ss[k].assocs| ==> |ss[k].assocs[a].replies| <= 64
  {
    RunKeepsInv(es, ss, k);
  }

  /** Two open channels for the same target of the same association. */
  predicate Rivals(s: State, v: nat, w: nat)
    requires v < |s.workers| && w < |s.workers|
  {
    && s.workers[v].open && s.workers[w].open
    && s.workers[v].assoc == s.workers[w].assoc && s.workers[v].target == s.workers[w].target
  }

  /** In every run: at most 64 targets each, one open worker per target, the one it is routed to or about to be. */
  lemma RoutesAreSound(es: seq<Event>, ss: seq<State>, k: nat)
    requires Run(es, ss) && k <= |es|
    ensures forall a :: 0 <= a < |ss[k].assocs| ==> |ss[k].assocs[a].routes| <= 64
    ensures forall v, w :: 0 <= v < |ss[k].workers| && 0 <= w < |ss[k].workers| && Rivals(ss[k], v, w) ==> v == w
    ensures forall w :: 0 <= w < |ss[k].workers| && ss[k].workers[w].open ==>
              ss[k].workers[w].assoc < |ss[k].assocs| &&
              RoutedTo(ss[k].assocs[ss[k].workers[w].assoc], ss[k].workers[w].target, w)
  {
    RunKeepsInv(es, ss, k);
    var s := ss[k];
    forall a | 0 <= a < |s.assocs| ensures |s.assocs[a].routes| <= MAX_TARGETS { assert AssocOk(s, a); }
    forall w | 0 <= w < |s.workers| && s.workers[w].open
      ensures s.workers[w].assoc < |s.assocs| && RoutedTo(s.assocs[s.workers[w].assoc], s.workers[w].target, w)
    { assert WorkerOk(s, w); }
    forall v, w | 0 <= v < |s.workers| && 0 <= w < |s.workers| && Rivals(s, v, w) ensures v == w {
      OneOpenWorker(s, v, w);
    }
  }

  // ---------------------------------------------------------------- replies

  /** The replies of worker `w`, in order. */
  function From(rs: seq<Reply>, w: nat): (ps: seq<Payload>) {
    if rs == [] then []
    else
      var r := rs[|rs| - 1];
      From(rs[..|rs| - 1], w) + (if r.from == w then [r.payload] else [])
  }

  /** What went to the client, is being sent to it or waits for it. */
  function ToClient(x: Assoc): (rs: seq<Reply>) {
    x.relayed + (if x.activity.Relaying? then [x.activity.reply] else []) + x.replies
  }

  function InHand(p: Option<Payload>): (ps: seq<Payload>) {
    if p.Some? then [p.value] else []
  }

  /** The replies of `w` on their way to the client are an in-order part of those it received. */
  ghost predicate RepliesInOrder(s: State, w: nat)
    requires w < |s.workers|
  {
    var y := s.workers[w];
    y.assoc < |s.assocs| && IsSubsequence(From(ToClient(s.assocs[y.assoc]), w) + InHand(y.replying), y.arrived)
  }

  /** Every reply in `rs` comes from a worker of association `a`. */
  ghost predicate OwnReplies(s: State, a: nat, rs: seq<Reply>) {
    forall i :: 0 <= i < |rs| ==> rs[i].from < |s.workers| && s.workers[rs[i].from].assoc == a
  }

  ghost predicate Answered(s: State) {
    && (forall w :: 0 <= w < |s.workers| ==> RepliesInOrder(s, w))
    && (forall a :: 0 <= a < |s.assocs| ==> OwnReplies(s, a, ToClient(s.assocs[a])))
  }

  lemma FromSnoc(rs: seq<Reply>, r: Reply, w: nat)
    ensures From(rs + [r], w) == From(rs, w) + (if r.from == w then [r.payload] else [])
  {
    assert (rs + [r])[..|rs|] == rs;
  }

  lemma {:induction false} FromNone(rs: seq<Reply>, w: nat)
    requires forall i :: 0 <= i < |rs| ==> rs[i].from != w
    ensures From(rs, w) == []
  {
    if rs != [] { FromNone(rs[..|rs| - 1], w); }
  }

  /** A beginning of the replies has a beginning of each worker's. */
  lemma {:induction false} FromPrefix(rs: seq<Reply>, more: seq<Reply>, w: nat)
    ensures From(rs, w) <= From(rs + more, w)
  {
    if more == [] {
      assert rs + more == rs;
    } else {
      var init, r := more[..|more| - 1], more[|more| - 1];
      FromPrefix(rs, init, w);
      FromSnoc(rs + init, r, w);
      assert (rs + init) + [r] == rs + more;
    }
  }

  /** Losing the later replies leaves each worker's in order. */
  lemma FrontInOrder(rs: seq<Reply>, more: seq<Reply>, w: nat, hand: seq<Payload>, arrived: seq<Payload>)
    requires IsSubsequence(From(rs + more, w) + hand, arrived)
    ensures IsSubsequence(From(rs, w) + hand, arrived) && IsSubsequence(From(rs, w), arrived)
  {
    FromPrefix(rs, more, w);
    var front, all := From(rs, w), From(rs + more, w);
    assert all == front + all[|front|..];
    DropMiddle(front, all[|front|..], hand, arrived);
    Prefix(front, hand);
    Transitive(front, front + hand, arrived);
  }

  /** A reply that goes from a worker's hand to the channel stays where it was in the order. */
  lemma PushedInOrder(rs: seq<Reply>, r: Reply, w: nat, before: Option<Payload>, after: Option<Payload>)
    requires if r.from == w then before == Some(r.payload) && after == None else after == before
    ensures From(rs + [r], w) + InHand(after) == From(rs, w) + InHand(before)
  {
    FromSnoc(rs, r, w);
  }

  /** No reply moves: workers and associations keep theirs, new ones have none. */
  lemma RepliesStay(s: State, s': State)
    requires Answered(s) && |s.workers| <= |s'.workers| && |s.assocs| <= |s'.assocs|
    requires forall w :: 0 <= w < |s.workers| ==>
               && s'.workers[w].assoc == s.workers[w].assoc && s'.workers[w].arrived == s.workers[w].arrived
               && s'.workers[w].replying == s.workers[w].replying
    requires forall w :: |s.workers| <= w < |s'.workers| ==>
               s'.workers[w].assoc < |s'.assocs| && s'.workers[w].arrived == [] && s'.workers[w].replying.None?
    requires forall a :: 0 <= a < |s.assocs| ==> ToClient(s'.assocs[a]) == ToClient(s.assocs[a])
    requires forall a :: |s.assocs| <= a < |s'.assocs| ==> ToClient(s'.assocs[a]) == []
    ensures Answered(s')
  {
    forall a | 0 <= a < |s'.assocs| ensures OwnReplies(s', a, ToClient(s'.assocs[a])) {
      if a < |s.assocs| { assert OwnReplies(s, a, ToClient(s.assocs[a])); }
    }
    forall w | 0 <= w < |s'.workers| ensures RepliesInOrder(s', w) {
      if w < |s.workers| {
        assert RepliesInOrder(s, w);
      } else {
        var a := s'.workers[w].assoc;
        if a < |s.assocs| { assert OwnReplies(s, a, ToClient(s.assocs[a])); }
        FromNone(ToClient(s'.assocs[a]), w);
      }
    }
  }

  /** Only worker `w` changes, and keeps to the order. */
  lemma OneWorkerReplies(s: State, s': State, w: nat)
    requires Answered(s) && s'.assocs == s.assocs && w < |s.workers| == |s'.workers|
    requires s'.workers == s.workers[w := s'.workers[w]] && s'.workers[w].assoc == s.workers[w].assoc
    requires RepliesInOrder(s', w)
    ensures Answered(s')
  {
    forall v | 0 <= v < |s'.workers| ensures RepliesInOrder(s', v) { assert RepliesInOrder(s, v); }
    forall a | 0 <= a < |s'.assocs| ensures OwnReplies(s', a, ToClient(s'.assocs[a])) {
      assert OwnReplies(s, a, ToClient(s.assocs[a]));
    }
  }

  lemma ReplyArrivesAnswered(s: State, w: nat, p: Payload)
    requires Answered(s) && Possible(s, ReplyArrives(w, p))
    ensures Answered(Next(s, ReplyArrives(w, p)))
  {
    var s', y := Next(s, ReplyArrives(w, p)), s.workers[w];
    assert RepliesInOrder(s, w);
    var before := From(ToClient(s.assocs[y.assoc]), w);
    assert before + InHand(y.replying) == before;
    if s.bytes < |p| { Missed(before, y.arrived, p); } else { Kept(before, y.arrived, p); }
    OneWorkerReplies(s, s', w);
  }

  lemma StopAnswered(s: State, w: nat)
    requires Answered(s) && Possible(s, Stop(w))
    ensures Answered(Next(s, Stop(w)))
  {
    var s', y := Next(s, Stop(w)), s.workers[w];
    assert RepliesInOrder(s, w);
    var before, none := From(ToClient(s.assocs[y.assoc]), w), InHand(None);
    assert before + InHand(y.replying) + none == before + InHand(y.replying);
    DropMiddle(before, InHand(y.replying), none, y.arrived);
    OneWorkerReplies(s, s', w);
  }

  /** Only the replies of association `a` change; its workers keep to the order. */
  lemma OneAssocReplies(s: State, s': State, a: nat)
    requires Answered(s) && |s.workers| == |s'.workers| && a < |s.assocs| == |s'.assocs|
    requires s'.assocs == s.assocs[a := s'.assocs[a]] && OwnReplies(s', a, ToClient(s'.assocs[a]))
    requires forall v :: 0 <= v < |s.workers| ==> s'.workers[v].assoc == s.workers[v].assoc
    requires forall v :: 0 <= v < |s.workers| && s.workers[v].assoc != a ==> s'.workers[v] == s.workers[v]
    requires forall v :: 0 <= v < |s.workers| && s.workers[v].assoc == a ==> RepliesInOrder(s', v)
    ensures Answered(s')
  {
    forall v | 0 <= v < |s'.workers| ensures RepliesInOrder(s', v) { assert RepliesInOrder(s, v); }
    forall b | 0 <= b < |s'.assocs| ensures OwnReplies(s', b, ToClient(s'.assocs[b])) {
      assert OwnReplies(s, b, ToClient(s.assocs[b]));
    }
  }

  lemma PushReplyAnswered(s: State, w: nat)
    requires Answered(s) && Possible(s, PushReply(w))
    ensures Answered(Next(s, PushReply(w)))
  {
    var s', y := Next(s, PushReply(w)), s.workers[w];
    var a, r := y.assoc, Reply(w, y.replying.value);
    var rs, rs' := ToClient(s.assocs[a]), ToClient(s'.assocs[a]);
    assert rs' == rs + [r];
    assert OwnReplies(s, a, rs);
    forall v | 0 <= v < |s.workers| && s.workers[v].assoc == a ensures RepliesInOrder(s', v) {
      assert RepliesInOrder(s, v);
      PushedInOrder(rs, r, v, s.workers[v].replying, s'.workers[v].replying);
    }
    OneAssocReplies(s, s', a);
  }

  lemma DropAssocAnswered(s: State, a: nat)
    requires Answered(s) && Possible(s, DropAssoc(a))
    ensures Answered(Next(s, DropAssoc(a)))
  {
    var s', x := Next(s, DropAssoc(a)), s.assocs[a];
    var rs, more := x.relayed, (if x.activity.Relaying? then [x.activity.reply] else []) + x.replies;
    assert ToClient(x) == rs + more && ToClient(s'.assocs[a]) == rs;
    assert OwnReplies(s, a, rs + more);
    assert forall i :: 0 <= i < |rs| ==> rs[i] == (rs + more)[i];
    forall v | 0 <= v < |s.workers| && s.workers[v].assoc == a ensures RepliesInOrder(s', v) {
      assert RepliesInOrder(s, v);
      FrontInOrder(rs, more, v, InHand(s.workers[v].replying), s.workers[v].arrived);
    }
    OneAssocReplies(s, s', a);
  }

  lemma AssocEventAnswered(s: State, e: Event)
    requires Answered(s) && Possible(s, e) && (e.Arrive? || e.PruneRoute? || e.TakeReply? || e.RelayDone?)
    ensures Answered(Next(s, e))
  {
    var x, x' := s.assocs[e.assoc], Next(s, e).assocs[e.assoc];
    assert ToClient(x') == ToClient(x);
    RepliesStay(s, Next(s, e));
  }

  lemma WorkerEventAnswered(s: State, e: Event)
    requires Answered(s) && Possible(s, e)
    requires e.Established? || e.TakeQueued? || e.CloseChannel? || e.ReleasePermit?
    ensures Answered(Next(s, e))
  {
    RepliesStay(s, Next(s, e));
  }

  lemma SendAnswered(s: State, e: Event)
    requires Answered(s) && Possible(s, e) && (e.TrySend? || e.FirstSend? || e.TakeWorker?)
    ensures Answered(Next(s, e))
  {
    RepliesStay(s, Next(s, e));
  }

  lemma AnsweredKept(s: State, e: Event)
    requires Answered(s) && Possible(s, e)
    ensures Answered(Next(s, e))
  {
    match e
    case ReplyArrives(w, p) => ReplyArrivesAnswered(s, w, p);
    case Stop(w) => StopAnswered(s, w);
    case PushReply(w) => PushReplyAnswered(s, w);
    case DropAssoc(a) => DropAssocAnswered(s, a);
    case NewAssoc => RepliesStay(s, Next(s, e));
    case Emitted(w) => RepliesStay(s, NextEmitted(s, w));
    case Arrive(_, _, _) => AssocEventAnswered(s, e);
    case PruneRoute(_, _) => AssocEventAnswered(s, e);
    case TakeReply(_) => AssocEventAnswered(s, e);
    case RelayDone(_) => AssocEventAnswered(s, e);
    case TrySend(_) => SendAnswered(s, e);
    case FirstSend(_) => SendAnswered(s, e);
    case TakeWorker(_) => SendAnswered(s, e);
    case _ => WorkerEventAnswered(s, e);
  }

  lemma {:induction false} RunAnswers(es: seq<Event>, ss: seq<State>, k: nat)
    requires Run(es, ss) && k <= |es|
    ensures Answered(ss[k])
  {
    if k > 0 {
      RunAnswers(es, ss, k - 1);
      AnsweredKept(ss[k - 1], es[k - 1]);
    }
  }

  // ---------------------------------------------------------------- the records are the events

  /** What the client sent to `t` in association `a`, by the events of a run. */
  function Offers(es: seq<Event>, a: nat, t: Target): (ps: seq<Payload>) {
    if es == [] then []
    else
      var e := es[|es| - 1];
      Offers(es[..|es| - 1], a, t) + (if e.Arrive? && e.assoc == a && e.target == t then [e.payload] else [])
  }

  /** The replies worker `w` received, by the events of a run. */
  function Arrivals(es: seq<Event>, w: nat): (ps: seq<Payload>) {
    if es == [] then []
    else
      var e := es[|es| - 1];
      Arrivals(es[..|es| - 1], w) + (if e.ReplyArrives? && e.worker == w then [e.payload] else [])
  }

  lemma OfferedStays(s: State, e: Event, a: nat)
    requires Possible(s, e) && !e.Arrive? && a < |s.assocs|
    ensures a < |Next(s, e).assocs| && Next(s, e).assocs[a].offered == s.assocs[a].offered
  {
  }

  /** An association starts without records. */
  lemma AssocsGrow(s: State, e: Event, a: nat)
    requires Possible(s, e)
    ensures |s.assocs| <= |Next(s, e).assocs|
    ensures |s.assocs| <= a < |Next(s, e).assocs| ==>
              var x := Next(s, e).assocs[a]; x.offered == map[] && x.emitted == map[] && x.relayed == []
  {
  }

  /** One event adds to the record of offers exactly what it says. */
  lemma OffersNext(s: State, e: Event, a: nat, t: Target)
    requires Possible(s, e) && a < |s.assocs|
    ensures a < |Next(s, e).assocs|
    ensures Get(Next(s, e).assocs[a].offered, t)
         == Get(s.assocs[a].offered, t) + (if e.Arrive? && e.assoc == a && e.target == t then [e.payload] else [])
  {
    if !e.Arrive? { OfferedStays(s, e, a); }
    assert Get(s.assocs[a].offered, t) + [] == Get(s.assocs[a].offered, t);
  }

  lemma {:induction false} OfferedIs(es: seq<Event>, ss: seq<State>, k: nat, a: nat, t: Target)
    requires Run(es, ss) && k <= |es|
    ensures a < |ss[k].assocs| ==> Get(ss[k].assocs[a].offered, t) == Offers(es[..k], a, t)
    ensures a >= |ss[k].assocs| ==> Offers(es[..k], a, t) == []
  {
    if k > 0 {
      OfferedIs(es, ss, k - 1, a, t);
      assert es[..k][..k - 1] == es[..k - 1];
      assert Possible(ss[k - 1], es[k - 1]) && ss[k] == Next(ss[k - 1], es[k - 1]);
      AssocsGrow(ss[k - 1], es[k - 1], a);
      if a < |ss[k - 1].assocs| { OffersNext(ss[k - 1], es[k - 1], a, t); }
    }
  }

  lemma ArrivalsNext(s: State, e: Event, w: nat)
    requires Possible(s, e)
    ensures |s.workers| <= |Next(s, e).workers|
    ensures |s.workers| <= w < |Next(s, e).workers| ==> Next(s, e).workers[w].arrived == []
    ensures w < |s.workers| ==>
              Next(s, e).workers[w].arrived
              == s.workers[w].arrived + (if e.ReplyArrives? && e.worker == w then [e.payload] else [])
  {
    if w < |s.workers| { assert s.workers[w].arrived + [] == s.workers[w].arrived; }
  }

  lemma {:induction false} ArrivedIs(es: seq<Event>, ss: seq<State>, k: nat, w: nat)
    requires Run(es, ss) && k <= |es|
    ensures w < |ss[k].workers| ==> ss[k].workers[w].arrived == Arrivals(es[..k], w)
    ensures w >= |ss[k].workers| ==> Arrivals(es[..k], w) == []
  {
    if k > 0 {
      ArrivedIs(es, ss, k - 1, w);
      assert es[..k][..k - 1] == es[..k - 1];
      assert Possible(ss[k - 1], es[k - 1]) && ss[k] == Next(ss[k - 1], es[k - 1]);
      ArrivalsNext(ss[k - 1], es[k - 1], w);
    }
  }

  /** What worker `w` has in hand to send, if it works for `t` in association `a`. */
  function SendingTo(s: State, w: nat, a: nat, t: Target): (ps: seq<Payload>) {
    if w < |s.workers| && s.workers[w].assoc == a && s.workers[w].target == t then InHand(s.workers[w].sending) else []
  }

  /** What went out to `t`, by the events of a run. */
  function Sends(es: seq<Event>, ss: seq<State>, k: nat, a: nat, t: Target): (ps: seq<Payload>)
    requires k <= |es| < |ss|
  {
    if k == 0 then []
    else
      var e := es[k - 1];
      Sends(es, ss, k - 1, a, t) + (if e.Emitted? then SendingTo(ss[k - 1], e.worker, a, t) else [])
  }

  /** The replies that went to the client of association `a`, by the events of a run. */
  function Relays(es: seq<Event>, ss: seq<State>, k: nat, a: nat): (rs: seq<Reply>)
    requires k <= |es| < |ss|
  {
    if k == 0 then []
    else
      var e := es[k - 1];
      Relays(es, ss, k - 1, a)
      + (if e == RelayDone(a) && a < |ss[k - 1].assocs| && ss[k - 1].assocs[a].activity.Relaying?
         then [ss[k - 1].assocs[a].activity.reply] else [])
  }

  lemma EmittedStays(s: State, e: Event, a: nat)
    requires Possible(s, e) && !e.Emitted? && a < |s.assocs|
    ensures a < |Next(s, e).assocs| && Next(s, e).assocs[a].emitted == s.assocs[a].emitted
  {
  }

  lemma EmittedNext(s: State, e: Event, a: nat, t: Target)
    requires Possible(s, e) && a < |s.assocs|
    ensures a < |Next(s, e).assocs|
    ensures Get(Next(s, e).assocs[a].emitted, t)
         == Get(s.assocs[a].emitted, t) + (if e.Emitted? then SendingTo(s, e.worker, a, t) else [])
  {
    if !e.Emitted? { EmittedStays(s, e, a); }
    assert Get(s.assocs[a].emitted, t) + [] == Get(s.assocs[a].emitted, t);
  }

  lemma {:induction false} EmittedIs(es: seq<Event>, ss: seq<State>, k: nat, a: nat, t: Target)
    requires Run(es, ss) && k <= |es|
    ensures a < |ss[k].assocs| ==> Get(ss[k].assocs[a].emitted, t) == Sends(es, ss, k, a, t)
    ensures a >= |ss[k].assocs| ==> Sends(es, ss, k, a, t) == []
  {
    if k > 0 {
      EmittedIs(es, ss, k - 1, a, t);
      assert Possible(ss[k - 1], es[k - 1]) && ss[k] == Next(ss[k - 1], es[k - 1]);
      AssocsGrow(ss[k - 1], es[k - 1], a);
      if a < |ss[k - 1].assocs| { EmittedNext(ss[k - 1], es[k - 1], a, t); }
    }
  }

  lemma RelayedNext(s: State, e: Event, a: nat)
    requires Possible(s, e) && a < |s.assocs|
    ensures a < |Next(s, e).assocs|
    ensures Next(s, e).assocs[a].relayed
         == s.assocs[a].relayed + (if e == RelayDone(a) then [s.assocs[a].activity.reply] else [])
  {
    assert s.assocs[a].relayed + [] == s.assocs[a].relayed;
  }

  lemma {:induction false} RelayedIs(es: seq<Event>, ss: seq<State>, k: nat, a: nat)
    requires Run(es, ss) && k <= |es|
    ensures a < |ss[k].assocs| ==> ss[k].assocs[a].relayed == Relays(es, ss, k, a)
    ensures a >= |ss[k].assocs| ==> Relays(es, ss, k, a) == []
  {
    if k > 0 {
      RelayedIs(es, ss, k - 1, a);
      assert Possible(ss[k - 1], es[k - 1]) && ss[k] == Next(ss[k - 1], es[k - 1]);
      AssocsGrow(ss[k - 1], es[k - 1], a);
      if a < |ss[k - 1].assocs| { RelayedNext(ss[k - 1], es[k - 1], a); }
    }
  }

  /** What reached a target is an in-order part of what the client sent to it, across any replacement of workers. */
  lemma EmittedInOrder(es: seq<Event>, ss: seq<State>, k: nat, a: nat, t: Target)
    requires Run(es, ss) && k <= |es| && a < |ss[k].assocs|
    ensures IsSubsequence(Sends(es, ss, k, a, t), Offers(es[..k], a, t))
  {
    RunKeepsInv(es, ss, k);
    OfferedIs(es, ss, k, a, t);
    EmittedIs(es, ss, k, a, t);
    var x := ss[k].assocs[a];
    assert AssocOk(ss[k], a);
    assert InOrder(x, t, []);
    var e, h, none := Get(x.emitted, t), Held(x, t), Held(x.(activity := Ready), t);
    assert e + [] + h == e + h + none && e + none == e;
    DropMiddle(e, h, none, Get(x.offered, t));
  }

  /**
   * What the client got was received by a worker of its association, and what it got of one worker is an in-order part
   * of what that worker received, unchanged.
   */
  lemma RelayedInOrder(es: seq<Event>, ss: seq<State>, k: nat, a: nat, w: nat)
    requires Run(es, ss) && k <= |es| && a < |ss[k].assocs| && w < |ss[k].workers|
    ensures OwnReplies(ss[k], a, Relays(es, ss, k, a))
    ensures IsSubsequence(From(Relays(es, ss, k, a), w), Arrivals(es[..k], w))
  {
    RunAnswers(es, ss, k);
    ArrivedIs(es, ss, k, w);
    RelayedIs(es, ss, k, a);
    var x := ss[k].assocs[a];
    var all := ToClient(x);
    assert OwnReplies(ss[k], a, all) && RepliesInOrder(ss[k], w);
    assert all == x.relayed + all[|x.relayed|..];
    assert forall i :: 0 <= i < |x.relayed| ==> x.relayed[i] == all[i];
    if ss[k].workers[w].assoc == a {
      FrontInOrder(x.relayed, all[|x.relayed|..], w, InHand(ss[k].workers[w].replying), ss[k].workers[w].arrived);
    } else {
      FromNone(x.relayed, w);
    }
  }

  // ---------------------------------------------------------------- what is queued can be delivered

  ghost predicate Leads(s: State, es: seq<Event>)
    decreases |es|
  {
    es == [] || (Possible(s, es[0]) && Leads(Next(s, es[0]), es[1..]))
  }

  ghost function After(s: State, es: seq<Event>): (s': State)
    requires Leads(s, es)
    decreases |es|
  {
    if es == [] then s else After(Next(s, es[0]), es[1..])
  }

  /** A worker with work left: its channel is open, it has not stopped and holds no reply. */
  predicate CanWork(s: State, w: nat) {
    w < |s.workers| && !s.workers[w].phase.Stopped? && s.workers[w].replying.None? && s.workers[w].assoc < |s.assocs|
  }

  /** The next step of a worker that only sends. */
  function WorkStep(y: Worker, w: nat): (e: Event) {
    if y.phase.Establishing? then Established(w) else if y.sending.Some? then Emitted(w) else TakeQueued(w)
  }

  function WorkLeft(y: Worker): (n: nat) {
    2 * |y.queue| + (if y.sending.Some? then 1 else 0) + (if y.phase.Establishing? then 1 else 0)
  }

  /** One step of the worker moves the next datagram on and leaves the rest as it is. */
  lemma WorkStepMoves(s: State, w: nat)
    requires CanWork(s, w) && (s.workers[w].phase.Establishing? ==> s.workers[w].sending.None?)
    requires Pipeline(s.workers[w]) != []
    ensures var y, e := s.workers[w], WorkStep(s.workers[w], w);
            && Possible(s, e) && CanWork(Next(s, e), w)
            && var y' := Next(s, e).workers[w];
            && (y'.phase.Establishing? ==> y'.sending.None?) && WorkLeft(y') < WorkLeft(y)
            && y'.assoc == y.assoc && y'.target == y.target
            && Get(Next(s, e).assocs[y.assoc].emitted, y.target) + Pipeline(y')
               == Get(s.assocs[y.assoc].emitted, y.target) + Pipeline(y)
  {
    var y := s.workers[w];
    if y.phase.Establishing? {
    } else if y.sending.Some? {
      Associates(Get(s.assocs[y.assoc].emitted, y.target), [y.sending.value], y.queue);
      assert Pipeline(y.(sending := None)) == y.queue;
    } else {
      assert [y.queue[0]] + y.queue[1..] == y.queue;
    }
  }

  /** From every state, everything in the channel of a worker that has not stopped can go out, all of it in order. */
  lemma {:induction false} CanDeliver(s: State, w: nat) returns (es: seq<Event>)
    requires CanWork(s, w) && (s.workers[w].phase.Establishing? ==> s.workers[w].sending.None?)
    ensures Leads(s, es) && var y := s.workers[w];
            && y.assoc < |After(s, es).assocs|
            && Get(After(s, es).assocs[y.assoc].emitted, y.target)
               == Get(s.assocs[y.assoc].emitted, y.target) + Pipeline(y)
    decreases WorkLeft(s.workers[w])
  {
    es := [];
    var y := s.workers[w];
    if Pipeline(y) != [] {
      WorkStepMoves(s, w);
      var e := WorkStep(y, w);
      es := CanDeliver(Next(s, e), w);
      es := [e] + es;
    } else {
      assert Get(s.assocs[y.assoc].emitted, y.target) + Pipeline(y) == Get(s.assocs[y.assoc].emitted, y.target);
    }
  }

  /** From every state, every reply that waits for the client of a live association can reach it, in order. */
  lemma {:induction false} CanRelay(s: State, a: nat) returns (es: seq<Event>)
    requires a < |s.assocs| && s.assocs[a].alive && (s.assocs[a].activity.Ready? || s.assocs[a].activity.Relaying?)
    ensures Leads(s, es) && a < |After(s, es).assocs| && After(s, es).assocs[a].relayed == ToClient(s.assocs[a])
    decreases 2 * |s.assocs[a].replies| + (if s.assocs[a].activity.Relaying? then 1 else 0)
  {
    es := [];
    var x := s.assocs[a];
    if x.activity.Relaying? || x.replies != [] {
      var e := if x.activity.Relaying? then RelayDone(a) else TakeReply(a);
      assert ToClient(Next(s, e).assocs[a]) == ToClient(x);
      es := CanRelay(Next(s, e), a);
      es := [e] + es;
    } else {
      assert ToClient(x) == x.relayed;
    }
  }

  lemma Begin(s: State, e: Event, es: seq<Event>)
    requires Possible(s, e) && Leads(Next(s, e), es)
    ensures Leads(s, [e] + es) && After(s, [e] + es) == After(Next(s, e), es)
  {
    assert ([e] + es)[1..] == es;
  }

  /** A reply too large for the free bytes is dropped and changes nothing but the record of its arrival. */
  lemma ReplyDropped(s: State, w: nat, p: Payload)
    requires Possible(s, ReplyArrives(w, p)) && s.bytes < |p|
    ensures Next(s, ReplyArrives(w, p)) == PutWorker(s, w, s.workers[w].(arrived := s.workers[w].arrived + [p]))
  {
  }

  /**
   * Any other reply, however many bytes it leaves free, can reach the client of a live association with room in its
   * reply channel, behind all replies that were there before.
   */
  lemma CanAnswer(s: State, w: nat, p: Payload) returns (es: seq<Event>)
    requires Possible(s, ReplyArrives(w, p)) && |p| <= s.bytes && s.workers[w].assoc < |s.assocs|
    requires var x := s.assocs[s.workers[w].assoc];
             x.alive && (x.activity.Ready? || x.activity.Relaying?) && |x.replies| < 64
    ensures Leads(s, es) && var a := s.workers[w].assoc;
            a < |After(s, es).assocs| && After(s, es).assocs[a].relayed == ToClient(s.assocs[a]) + [Reply(w, p)]
  {
    var a := s.workers[w].assoc;
    var s1 := Next(s, ReplyArrives(w, p));
    var s2 := Next(s1, PushReply(w));
    assert ToClient(s2.assocs[a]) == ToClient(s.assocs[a]) + [Reply(w, p)];
    es := CanRelay(s2, a);
    Begin(s1, PushReply(w), es);
    Begin(s, ReplyArrives(w, p), [PushReply(w)] + es);
    es := [ReplyArrives(w, p)] + ([PushReply(w)] + es);
  }

  /** A new association takes any datagram, and can be dropped whenever it is not about to send one. */
  lemma CanStartAndDrop(s: State, a: nat, t: Target, p: Payload)
    ensures Possible(s, NewAssoc) && Possible(Next(s, NewAssoc), Arrive(|s.assocs|, t, p))
    ensures a < |s.assocs| && s.assocs[a].alive && (s.assocs[a].activity.Ready? || s.assocs[a].activity.Relaying?) ==>
              Possible(s, DropAssoc(a)) && Quiet(Next(s, DropAssoc(a)).assocs[a])
  {
  }

  /** Every worker that has not stopped can stop, and then closes its channel and gives back all it held. */
  lemma CanRetire(s: State, w: nat)
    requires w < |s.workers| && !s.workers[w].phase.Stopped? && s.workers[w].open && s.workers[w].permit
    ensures Leads(s, [Stop(w)] + ([CloseChannel(w)] + [ReleasePermit(w)]))
    ensures var s' := After(s, [Stop(w)] + ([CloseChannel(w)] + [ReleasePermit(w)]));
            && w < |s'.workers| && !s'.workers[w].open && !s'.workers[w].permit && s'.workers[w].queue == []
            && s'.permits == s.permits + 1 && s'.bytes == s.bytes + WorkerBytes(s.workers[w]) && s'.assocs == s.assocs
  {
    var s1 := Next(s, Stop(w));
    var s2 := Next(s1, CloseChannel(w));
    Begin(s2, ReleasePermit(w), []);
    assert [ReleasePermit(w)] + [] == [ReleasePermit(w)];
    Begin(s1, CloseChannel(w), [ReleasePermit(w)]);
    Begin(s, Stop(w), [CloseChannel(w)] + [ReleasePermit(w)]);
  }

  /** Nothing from or to the client of association `a`. */
  predicate Bypasses(e: Event, a: nat) {
    !(e.Arrive? && e.assoc == a) && e != RelayDone(a)
  }

  lemma {:induction false} NothingNew(es: seq<Event>, ss: seq<State>, j: nat, k: nat, a: nat, t: Target)
    requires j <= k <= |es| < |ss| && forall m :: j <= m < k ==> Bypasses(es[m], a)
    ensures Offers(es[..k], a, t) == Offers(es[..j], a, t) && Relays(es, ss, k, a) == Relays(es, ss, j, a)
  {
    if j < k {
      NothingNew(es, ss, j, k - 1, a, t);
      assert es[..k][..k - 1] == es[..k - 1] && Bypasses(es[k - 1], a);
    }
  }

  lemma DropQuiets(s: State, a: nat)
    requires Possible(s, DropAssoc(a))
    ensures Quiet(Next(s, DropAssoc(a)).assocs[a])
  {
  }

  lemma StepBefore(es: seq<Event>, ss: seq<State>, k: nat) returns (s: State, e: Event)
    requires Run(es, ss) && 0 < k <= |es|
    ensures s == ss[k - 1] && e == es[k - 1] && Possible(s, e) && ss[k] == Next(s, e)
  {
    s, e := ss[k - 1], es[k - 1];
  }

  lemma {:induction false} QuietAfter(es: seq<Event>, ss: seq<State>, j: nat, k: nat, a: nat)
    requires Run(es, ss) && j < k <= |es| && es[j] == DropAssoc(a)
    ensures a < |ss[k].assocs| && Quiet(ss[k].assocs[a])
    ensures Bypasses(es[k - 1], a)
    decreases k
  {
    var s, e := StepBefore(es, ss, k);
    if j < k - 1 {
      QuietAfter(es, ss, j, k - 1, a);
      QuietStays(s, e, a);
    } else {
      DropQuiets(s, a);
    }
  }

  /** A dropped association takes nothing from its client and relays nothing to it. */
  lemma DroppedIsQuiet(es: seq<Event>, ss: seq<State>, j: nat, k: nat, a: nat, t: Target)
    requires Run(es, ss) && j < k <= |es| && es[j] == DropAssoc(a)
    ensures Offers(es[..k], a, t) == Offers(es[..j], a, t) && Relays(es, ss, k, a) == Relays(es, ss, j, a)
  {
    forall m | j <= m < k ensures Bypasses(es[m], a) { QuietAfter(es, ss, j, m + 1, a); }
    NothingNew(es, ss, j, k, a, t);
  }

  predicate Quiet(x: Assoc) {
    !x.alive && x.activity.Ready? && x.replies == []
  }

  lemma QuietStays(s: State, e: Event, a: nat)
    requires Possible(s, e) && a < |s.assocs| && Quiet(s.assocs[a])
    ensures a < |Next(s, e).assocs| && Quiet(Next(s, e).assocs[a]) && Bypasses(e, a)
  {
  }

  // ---------------------------------------------------------------- the calls of the association task

  datatype SendResult = Queued | NoBytes | QueueFull | TooManyTargets | NoWorker

  /** The shared state, changed only by the steps above; `events` and `states` keep the run so far. */
  class Egress {
    var s: State
    ghost var events: seq<Event>
    ghost var states: seq<State>

    ghost predicate Valid()
      reads this
    {
      Run(events, states) && s == states[|events|]
    }

    constructor ()
      ensures Valid() && s == INITIAL
    {
      s, events, states := INITIAL, [], [INITIAL];
    }

    method Do(e: Event)
      requires Valid() && Possible(s, e)
      modifies this
      ensures Valid() && s == Next(old(s), e) && events == old(events) + [e]
    {
      s := Next(s, e);
      events, states := events + [e], states + [s];
    }

    /** Keeps exactly the routes whose channel is open. */
    method Prune(a: nat)
      requires Valid() && a < |s.assocs|
      modifies this
      ensures Valid() && s == Pruned(old(s), a)
    {
      ghost var was := s;
      var todo := s.assocs[a].routes.Keys;
      while todo != {}
        invariant Valid() && a < |s.assocs| && s == PutAssoc(was, a, was.assocs[a].(routes := s.assocs[a].routes))
        invariant todo <= was.assocs[a].routes.Keys
        invariant forall t ::
                    t in s.assocs[a].routes <==> t in was.assocs[a].routes && (t in todo || OpenRoute(was, a, t))
        invariant forall t :: t in s.assocs[a].routes ==> s.assocs[a].routes[t] == was.assocs[a].routes[t]
        decreases |todo|
      {
        var t :| t in todo;
        RoutesLead(events, states, a);
        todo := todo - {t};
        if !s.workers[s.assocs[a].routes[t]].open { Do(PruneRoute(a, t)); }
      }
      assert s.assocs[a].routes == OpenRoutes(was, a);
    }

    /**
     * One datagram from the client, with nothing else happening in between. It is dropped without a trace, each time
     * for the one reason that applies, or it goes to the end of its target's channel, or starts a worker of its own.
     */
    method Send(a: nat, t: Target, p: Payload) returns (r: SendResult)
      requires Valid() && a < |s.assocs| && s.assocs[a].alive && s.assocs[a].activity.Ready?
      modifies this
      ensures Valid() && r == Decision(Pruned(old(s), a), a, t, p) && s == AfterSend(Pruned(old(s), a), a, t, p, r)
    {
      Prune(a);
      r := SendPruned(a, t, p);
    }

    method SendPruned(a: nat, t: Target, p: Payload) returns (r: SendResult)
      requires Valid() && a < |s.assocs| && s.assocs[a].alive && s.assocs[a].activity.Ready?
      requires forall u :: u in s.assocs[a].routes ==> OpenRoute(s, a, u)
      modifies this
      ensures Valid() && r == Decision(old(s), a, t, p) && s == AfterSend(old(s), a, t, p, r)
    {
      ghost var was := s;
      Do(Arrive(a, t, p));
      if !s.assocs[a].activity.Holding? { return NoBytes; }
      assert s == HeldBy(was, a, t, p, Holding(t, p));
      if t in s.assocs[a].routes {
        var full := |s.workers[s.assocs[a].routes[t]].queue| >= CHANNEL_CAPACITY;
        TrySendRouted(was, a, t, p);
        Do(TrySend(a));
        return if full then QueueFull else Queued;
      }
      TrySendUnrouted(was, a, t, p);
      Do(TrySend(a));
      var crowded := |s.assocs[a].routes| >= MAX_TARGETS;
      TakeWorkerSteps(was, a, t, p);
      Do(TakeWorker(a));
      if s.assocs[a].activity.Ready? { return if crowded then TooManyTargets else NoWorker; }
      FirstSendSteps(was, a, t, p);
      Do(FirstSend(a));
      return Queued;
    }
  }

  ghost predicate OpenRoute(s: State, a: nat, t: Target)
    requires a < |s.assocs| && t in s.assocs[a].routes
  {
    s.assocs[a].routes[t] < |s.workers| && s.workers[s.assocs[a].routes[t]].open
  }

  /** The routes that still lead somewhere. */
  ghost function OpenRoutes(s: State, a: nat): (rs: map<Target, nat>)
    requires a < |s.assocs|
  {
    map t | t in s.assocs[a].routes && OpenRoute(s, a, t) :: s.assocs[a].routes[t]
  }

  ghost function Pruned(s: State, a: nat): (s': State)
    requires a < |s.assocs|
    ensures a < |s'.assocs| && forall t :: t in s'.assocs[a].routes ==> OpenRoute(s', a, t)
  {
    PutAssoc(s, a, s.assocs[a].(routes := OpenRoutes(s, a)))
  }

  /** What becomes of a datagram when all routes are open: the first limit it meets, in this order. */
  ghost function Decision(s: State, a: nat, t: Target, p: Payload): (r: SendResult)
    requires a < |s.assocs| && forall u :: u in s.assocs[a].routes ==> OpenRoute(s, a, u)
  {
    var rs := s.assocs[a].routes;
    if s.bytes < |p| then NoBytes
    else if t in rs then
      assert OpenRoute(s, a, t);
      if |s.workers[rs[t]].queue| >= 32 then QueueFull else Queued
    else if |rs| >= 64 then TooManyTargets
    else if s.permits < 1 then NoWorker
    else Queued
  }

  /** The association after the client offered `p`. */
  ghost function Offered(s: State, a: nat, t: Target, p: Payload): (x: Assoc)
    requires a < |s.assocs|
  {
    s.assocs[a].(offered := s.assocs[a].offered[t := Get(s.assocs[a].offered, t) + [p]])
  }

  /** The state it leaves: besides the record of the offer, nothing changes unless the datagram is queued. */
  ghost function AfterSend(s: State, a: nat, t: Target, p: Payload, r: SendResult): (s': State)
    requires a < |s.assocs| && forall u :: u in s.assocs[a].routes ==> OpenRoute(s, a, u)
  {
    if r != Queued then PutAssoc(s, a, Offered(s, a, t, p))
    else if t in s.assocs[a].routes then
      assert OpenRoute(s, a, t);
      Enqueue(s, a, t, p, s.assocs[a].routes[t])
    else Spawn(s, a, t, p)
  }

  /** `p` at the end of the channel of `w`, and its bytes taken; no other worker and no other association is touched. */
  ghost function Enqueue(s: State, a: nat, t: Target, p: Payload, w: nat): (s': State)
    requires a < |s.assocs| && w < |s.workers|
  {
    PutAssoc(PutWorker(s, w, s.workers[w].(queue := s.workers[w].queue + [p])), a, Offered(s, a, t, p))
      .(bytes := s.bytes - |p|)
  }

  /** A new worker, with `p` alone in its channel, that `t` is routed to. */
  ghost function Spawn(s: State, a: nat, t: Target, p: Payload): (s': State)
    requires a < |s.assocs|
  {
    var x := Offered(s, a, t, p);
    PutAssoc(s, a, x.(routes := x.routes[t := |s.workers|]))
      .(workers := s.workers + [Worker(a, t, Establishing, true, true, [p], None, None, [])],
        permits := s.permits - 1, bytes := s.bytes - |p|)
  }

  // The states on the way, and how each step leaves them.

  ghost function HeldBy(s: State, a: nat, t: Target, p: Payload, act: Activity): (s': State)
    requires a < |s.assocs|
  {
    PutAssoc(s, a, Offered(s, a, t, p).(activity := act)).(bytes := s.bytes - |p|)
  }

  lemma PutTwice(s: State, a: nat, x: Assoc, y: Assoc)
    requires a < |s.assocs|
    ensures PutAssoc(PutAssoc(s, a, x), a, y) == PutAssoc(s, a, y)
  {
    assert s.assocs[a := x][a := y] == s.assocs[a := y];
  }

  /** Putting down what is in hand restores the bytes. */
  lemma PutDown(s: State, a: nat, t: Target, p: Payload, act: Activity)
    requires a < |s.assocs| && s.assocs[a].activity.Ready? && ActivityBytes(act) == |p|
    ensures LetGo(HeldBy(s, a, t, p, act), a) == PutAssoc(s, a, Offered(s, a, t, p))
  {
    PutTwice(s, a, Offered(s, a, t, p).(activity := act), Offered(s, a, t, p));
  }

  lemma TrySendRouted(s: State, a: nat, t: Target, p: Payload)
    requires a < |s.assocs| && s.assocs[a].activity.Ready? && t in s.assocs[a].routes && OpenRoute(s, a, t)
    ensures var w := s.assocs[a].routes[t];
            NextTrySend(HeldBy(s, a, t, p, Holding(t, p)), a) ==
            if |s.workers[w].queue| >= CHANNEL_CAPACITY then PutAssoc(s, a, Offered(s, a, t, p))
            else Enqueue(s, a, t, p, w)
  {
    PutDown(s, a, t, p, Holding(t, p));
    PutTwice(s, a, Offered(s, a, t, p).(activity := Holding(t, p)), Offered(s, a, t, p));
  }

  lemma TrySendUnrouted(s: State, a: nat, t: Target, p: Payload)
    requires a < |s.assocs| && t !in s.assocs[a].routes
    ensures NextTrySend(HeldBy(s, a, t, p, Holding(t, p)), a) == HeldBy(s, a, t, p, NeedsWorker(t, p))
  {
    PutTwice(s, a, Offered(s, a, t, p).(activity := Holding(t, p)),
             Offered(s, a, t, p).(activity := NeedsWorker(t, p)));
  }

  ghost function WithWorker(s: State, a: nat, t: Target, p: Payload): (s': State)
    requires a < |s.assocs|
  {
    HeldBy(s, a, t, p, Spawned(t, p, |s.workers|))
      .(permits := s.permits - 1, workers := s.workers + [Worker(a, t, Establishing, true, true, [], None, None, [])])
  }

  lemma TakeWorkerSteps(s: State, a: nat, t: Target, p: Payload)
    requires a < |s.assocs| && s.assocs[a].activity.Ready?
    ensures NextTakeWorker(HeldBy(s, a, t, p, NeedsWorker(t, p)), a) ==
            if |s.assocs[a].routes| >= MAX_TARGETS || s.permits < 1 then PutAssoc(s, a, Offered(s, a, t, p))
            else WithWorker(s, a, t, p)
  {
    PutDown(s, a, t, p, NeedsWorker(t, p));
    PutTwice(s, a, Offered(s, a, t, p).(activity := NeedsWorker(t, p)),
             Offered(s, a, t, p).(activity := Spawned(t, p, |s.workers|)));
  }

  lemma FirstSendSteps(s: State, a: nat, t: Target, p: Payload)
    requires a < |s.assocs| && s.assocs[a].activity.Ready?
    ensures NextFirstSend(WithWorker(s, a, t, p), a) == Spawn(s, a, t, p)
  {
    var x := Offered(s, a, t, p);
    var w := Worker(a, t, Establishing, true, true, [], None, None, []);
    PutTwice(s, a, x.(activity := Spawned(t, p, |s.workers|)), x.(routes := x.routes[t := |s.workers|]));
    assert w.queue + [p] == [p];
    assert (s.workers + [w])[|s.workers| := w.(queue := [p])] == s.workers + [w.(queue := [p])];
  }
}
