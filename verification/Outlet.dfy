/**
 * The life of an outlet: prepared, probed, published in a versioned cell, watched and
 * withdrawn by one recovery loop, while accepted connections wait for the cell, use the
 * outlet they found there and are cancelled when the version moves on.
 */
module Outlet {
  import opened Bits
  import opened Outcome

  const MAX_CONNECTIONS: nat := 64
  const U32_MAX: nat := 0xffff_ffff

  // ---------------------------------------------------------------- failure threshold

  /** How many failures stand at the end of `results` (true is a success). */
  function TrailingFailures(results: seq<bool>): (n: nat)
    ensures n <= |results|
  {
    if results == [] || results[|results| - 1] then 0 else 1 + TrailingFailures(results[..|results| - 1])
  }

  function AtLeastOne(threshold: nat): (n: nat)
    ensures threshold == 0 ==> n == 1
    ensures threshold >= 1 ==> n == threshold
  {
    if threshold < 1 then 1 else threshold
  }

  function SaturatingInc(n: nat): (m: nat)
    ensures n < 0xffff_ffff ==> m == n + 1
    ensures n >= 0xffff_ffff ==> m == 0xffff_ffff
  {
    if n >= U32_MAX then U32_MAX else n + 1
  }

  class ThresholdRecovery {
    const threshold: nat
    var consecutiveFailures: nat
    ghost var results: seq<bool>

    ghost predicate Valid()
      reads this
    {
      && 1 <= threshold <= U32_MAX
      && consecutiveFailures == if TrailingFailures(results) > U32_MAX then U32_MAX else TrailingFailures(results)
    }

    constructor (t: nat)
      requires t <= U32_MAX
      ensures Valid() && results == [] && threshold == AtLeastOne(t)
    {
      threshold, consecutiveFailures, results := AtLeastOne(t), 0, [];
    }

    method OnSuccess()
      requires Valid()
      modifies this
      ensures Valid() && results == old(results) + [true]
    {
      consecutiveFailures, results := 0, results + [true];
    }

    /** Asks for an exit exactly when `threshold` failures or more have come in a row. */
    method OnFailure() returns (exit: bool)
      requires Valid()
      modifies this
      ensures Valid() && results == old(results) + [false]
      ensures exit <==> TrailingFailures(results) >= threshold
    {
      assert (results + [false])[..|results|] == results;
      results := results + [false];
      consecutiveFailures := SaturatingInc(consecutiveFailures);
      exit := consecutiveFailures >= threshold;
    }
  }

  /** One result at a time: when the threshold is first reached, it is reached exactly. */
  lemma ReachedExactly(results: seq<bool>, r: bool, threshold: nat)
    requires TrailingFailures(results) < threshold <= TrailingFailures(results + [r])
    ensures TrailingFailures(results + [r]) == threshold && !r
  {
    assert (results + [r])[..|results|] == results;
  }

  // ---------------------------------------------------------------- states

  /** Where the recovery loop stands. Outlets are numbered in order of creation. */
  datatype Phase =
    | Preparing(base: Option<nat>, candidate: Option<nat>)
    | Prepared(outlet: nat, threshold: nat)
    | Announced(outlet: nat, threshold: nat)
    | Watching(outlet: nat, threshold: nat, results: seq<bool>)
    | Leaving(outlet: nat)
    | Cleared
    | RoundOver
    | BackingOff(ceiling: nat)
    | Exited

  /** A connection task and the cell version its receiver has seen. */
  datatype Connection =
    | Waiting(seen: nat)
    | Dispatching(outlet: nat, seen: nat)
    | Refusing(seen: nat)
    | Closed

  datatype State = State(
    phase: Phase, round: nat, failures: nat, made: nat, cell: Option<nat>, version: nat, heartbeat: nat,
    permits: int, connections: seq<Connection>)

  function Initial(): (s: State) {
    State(Preparing(None, None), 0, 0, 0, None, 0, 0, MAX_CONNECTIONS, [])
  }

  // ---------------------------------------------------------------- steps

  datatype Event =
    | BuildCandidate
    | CandidateFails
    | CandidateProbed(regional: bool, threshold: nat)
    | PreparationFails
    | PutInCell
    | RecordHeartbeat(now: Option<nat>)
    | ProbeOk(now: Option<nat>)
    | ProbeFails
    | Dies
    | ClearCell
    | InvalidateHeartbeat(ok: bool)
    | Pause
    | NextRound(ok: bool)
    | Accept
    | Look(i: nat)
    | GiveUpWaiting(i: nat)
    | Finish(i: nat)
    | Cancel(i: nat)

  predicate Live(c: Connection) {
    !c.Closed?
  }

  predicate Possible(s: State, e: Event) {
    match e
    case BuildCandidate => s.phase.Preparing? && s.phase.candidate.None?
    case CandidateFails => s.phase.Preparing? && s.phase.candidate.Some?
    case CandidateProbed(regional, _) =>
      s.phase.Preparing? && s.phase.candidate.Some? && (regional ==> s.phase.base.None?)
    case PreparationFails => s.phase.Preparing?
    case PutInCell => s.phase.Prepared?
    case RecordHeartbeat(_) => s.phase.Announced?
    case ProbeOk(_) => s.phase.Watching?
    case ProbeFails => s.phase.Watching?
    case Dies => s.phase.Watching?
    case ClearCell => s.phase.Leaving?
    case InvalidateHeartbeat(_) => s.phase.Cleared?
    case Pause => s.phase.RoundOver?
    case NextRound(_) => s.phase.BackingOff?
    case Accept => true
    case Look(i) => i < |s.connections| && s.connections[i].Waiting?
    case GiveUpWaiting(i) => i < |s.connections| && s.connections[i].Waiting?
    case Finish(i) => i < |s.connections| && (s.connections[i].Dispatching? || s.connections[i].Refusing?)
    case Cancel(i) =>
      && i < |s.connections| && (s.connections[i].Dispatching? || s.connections[i].Refusing?)
      && s.connections[i].seen != s.version
  }

  function Beat(s: State, now: Option<nat>): (heartbeat: nat) {
    if now.Some? then now.value else s.heartbeat
  }

  /** The backoff ceiling in seconds: twice per failure, up to 32. */
  function Ceiling(failures: nat): (c: nat) {
    Pow2(if failures < 5 then failures else 5)
  }

  function Next(s: State, e: Event): (s': State)
    requires Possible(s, e)
  {
    match e
    case BuildCandidate => s.(phase := Preparing(s.phase.base, Some(s.made)), made := s.made + 1)
    case CandidateFails => s.(phase := Preparing(s.phase.base, None))
    case CandidateProbed(regional, threshold) =>
      var outlet := s.phase.candidate.value;
      s.(phase := if regional then Preparing(Some(outlet), None) else Prepared(outlet, threshold))
    case PreparationFails => s.(phase := RoundOver)
    case PutInCell =>
      s.(phase := Announced(s.phase.outlet, s.phase.threshold), failures := 0,
         cell := Some(s.phase.outlet), version := s.version + 1)
    case RecordHeartbeat(now) =>
      s.(phase := Watching(s.phase.outlet, s.phase.threshold, []), heartbeat := Beat(s, now))
    case ProbeOk(now) =>
      s.(phase := s.phase.(results := s.phase.results + [true]), heartbeat := Beat(s, now))
    case ProbeFails =>
      var results := s.phase.results + [false];
      if TrailingFailures(results) >= AtLeastOne(s.phase.threshold) then s.(phase := Leaving(s.phase.outlet))
      else s.(phase := s.phase.(results := results))
    case Dies => s.(phase := Leaving(s.phase.outlet))
    case ClearCell => s.(phase := Cleared, cell := None, version := s.version + 1)
    case InvalidateHeartbeat(ok) => if ok then s.(phase := RoundOver, heartbeat := 0) else s.(phase := Exited)
    case Pause =>
      var failures := SaturatingInc(s.failures);
      s.(phase := BackingOff(Ceiling(failures)), failures := failures)
    case NextRound(ok) =>
      if ok then s.(phase := Preparing(None, None), round := s.round + 1, heartbeat := 0) else s.(phase := Exited)
    case Accept =>
      if s.permits < 1 then s else s.(permits := s.permits - 1, connections := s.connections + [Waiting(0)])
    case Look(i) =>
      var c := if s.cell.Some? then Dispatching(s.cell.value, s.version) else Waiting(s.version);
      s.(connections := s.connections[i := c])
    case GiveUpWaiting(i) => s.(connections := s.connections[i := Refusing(s.connections[i].seen)])
    case Finish(i) => s.(connections := s.connections[i := Closed], permits := s.permits + 1)
    case Cancel(i) => s.(connections := s.connections[i := Closed], permits := s.permits + 1)
  }

  ghost predicate Run(es: seq<Event>, ss: seq<State>) {
    && |ss| == |es| + 1 && ss[0] == Initial()
    && forall k :: 0 <= k < |es| ==> Possible(ss[k], es[k]) && ss[k + 1] == Next(ss[k], es[k])
  }

  // ---------------------------------------------------------------- invariant

  function LiveCount(cs: seq<Connection>): (n: nat) {
    if cs == [] then 0 else LiveCount(cs[..|cs| - 1]) + (if Live(cs[|cs| - 1]) then 1 else 0)
  }

  ghost predicate PhaseOk(s: State) {
    match s.phase
    case Preparing(_, _) => s.cell == None && s.heartbeat == 0
    case Prepared(_, _) => s.cell == None && s.heartbeat == 0
    case Announced(outlet, _) => s.cell == Some(outlet) && s.heartbeat == 0
    case Watching(outlet, threshold, results) =>
      s.cell == Some(outlet) && TrailingFailures(results) < AtLeastOne(threshold)
    case Leaving(outlet) => s.cell == Some(outlet)
    case Cleared => s.cell == None
    case RoundOver => s.cell == None && s.heartbeat == 0
    case BackingOff(ceiling) => s.cell == None && s.heartbeat == 0 && 2 <= ceiling <= 32
    case Exited => true
  }

  ghost predicate ConnectionOk(s: State, c: Connection) {
    (Live(c) ==> c.seen <= s.version) && (c.Dispatching? && c.seen == s.version ==> s.cell == Some(c.outlet))
  }

  ghost predicate Inv(s: State) {
    && PhaseOk(s)
    && (forall i :: 0 <= i < |s.connections| ==> ConnectionOk(s, s.connections[i]))
    && s.permits >= 0 && s.permits + LiveCount(s.connections) == MAX_CONNECTIONS
  }

  lemma {:induction false} CountChanges(cs: seq<Connection>, i: nat, c: Connection)
    requires i < |cs|
    ensures LiveCount(cs[i := c]) == LiveCount(cs) - (if Live(cs[i]) then 1 else 0) + (if Live(c) then 1 else 0)
  {
    var n := |cs| - 1;
    if i < n {
      CountChanges(cs[..n], i, c);
      assert cs[i := c][..n] == cs[..n][i := c];
    } else {
      assert cs[i := c][..n] == cs[..n];
    }
  }

  lemma AcceptKept(s: State)
    requires Inv(s)
    ensures Inv(Next(s, Accept))
  {
    var s' := Next(s, Accept);
    if s' != s {
      assert s'.connections[..|s.connections|] == s.connections;
      forall i | 0 <= i < |s'.connections| ensures ConnectionOk(s', s'.connections[i]) {
        if i < |s.connections| { assert ConnectionOk(s, s.connections[i]); }
      }
    }
  }

  /** Connection `i` becomes `c` and the permits follow; nothing else changes. */
  lemma ConnectionKept(s: State, s': State, i: nat, c: Connection)
    requires Inv(s) && i < |s.connections| && Live(s.connections[i]) && ConnectionOk(s, c)
    requires s' == s.(connections := s.connections[i := c], permits := if Live(c) then s.permits else s.permits + 1)
    ensures Inv(s')
  {
    CountChanges(s.connections, i, c);
    forall k | 0 <= k < |s'.connections| ensures ConnectionOk(s', s'.connections[k]) {
      if k != i { assert ConnectionOk(s, s.connections[k]); }
    }
  }

  lemma ConnectionStepKept(s: State, e: Event)
    requires Inv(s) && Possible(s, e) && (e.Accept? || e.Look? || e.GiveUpWaiting? || e.Finish? || e.Cancel?)
    ensures Inv(Next(s, e))
  {
    if e.Accept? {
      AcceptKept(s);
    } else {
      assert ConnectionOk(s, s.connections[e.i]);
      ConnectionKept(s, Next(s, e), e.i, Next(s, e).connections[e.i]);
    }
  }

  lemma LoopStepKept(s: State, e: Event)
    requires Inv(s) && Possible(s, e) && !(e.Accept? || e.Look? || e.GiveUpWaiting? || e.Finish? || e.Cancel?)
    ensures Inv(Next(s, e))
  {
    var s' := Next(s, e);
    if e.ProbeOk? { assert (s.phase.results + [true])[..|s.phase.results|] == s.phase.results; }
    forall i | 0 <= i < |s'.connections| ensures ConnectionOk(s', s'.connections[i]) {
      assert ConnectionOk(s, s.connections[i]);
    }
    if e.Pause? { CeilingRange(s'.failures); }
  }

  /** The jittered delay is drawn from one second up to a ceiling between 2 and 32 seconds. */
  lemma CeilingRange(failures: nat)
    requires failures >= 1
    ensures 2 <= Ceiling(failures) <= 32
  {
    Pow2Mono(1, if failures < 5 then failures else 5);
    Pow2Mono(if failures < 5 then failures else 5, 5);
    assert Pow2(5) == 32;
  }

  lemma NextKeepsInv(s: State, e: Event)
    requires Inv(s) && Possible(s, e)
    ensures Inv(Next(s, e))
  {
    if e.Accept? || e.Look? || e.GiveUpWaiting? || e.Finish? || e.Cancel? {
      ConnectionStepKept(s, e);
    } else {
      LoopStepKept(s, e);
    }
  }

  lemma {:induction false} RunKeepsInv(es: seq<Event>, ss: seq<State>, k: nat)
    requires Run(es, ss) && k <= |es|
    ensures Inv(ss[k])
  {
    if k > 0 {
      RunKeepsInv(es, ss, k - 1);
      NextKeepsInv(ss[k - 1], es[k - 1]);
    }
  }

  // ---------------------------------------------------------------- theorems

  /** Event `j` is a successful WARP probe of `outlet` in round `round`, as the last step of its preparation. */
  ghost predicate ProbedAt(es: seq<Event>, ss: seq<State>, j: nat, outlet: nat, threshold: nat, round: nat) {
    && j < |es| && j < |ss| && es[j] == CandidateProbed(false, threshold) && ss[j].round == round
    && ss[j].phase.Preparing? && ss[j].phase.candidate == Some(outlet)
  }

  /** A prepared outlet has been probed in this very round. */
  lemma {:induction false} PreparedByProbe(es: seq<Event>, ss: seq<State>, k: nat) returns (j: nat)
    requires Run(es, ss) && k <= |es| && ss[k].phase.Prepared?
    ensures j < k && ProbedAt(es, ss, j, ss[k].phase.outlet, ss[k].phase.threshold, ss[k].round)
  {
    assert k > 0 && Possible(ss[k - 1], es[k - 1]) && ss[k] == Next(ss[k - 1], es[k - 1]);
    if ss[k - 1].phase.Prepared? { j := PreparedByProbe(es, ss, k - 1); } else { j := k - 1; }
  }

  /** Whatever enters the cell passed a WARP probe earlier in the same preparation round. */
  lemma PublishedAfterProbe(es: seq<Event>, ss: seq<State>, k: nat) returns (j: nat)
    requires Run(es, ss) && k < |es| && ss[k + 1].cell.Some? && ss[k + 1].cell != ss[k].cell
    ensures es[k].PutInCell? && ss[k].phase.Prepared? && ss[k].phase.outlet == ss[k + 1].cell.value
    ensures j < k && ProbedAt(es, ss, j, ss[k + 1].cell.value, ss[k].phase.threshold, ss[k].round)
  {
    RunKeepsInv(es, ss, k);
    assert Possible(ss[k], es[k]) && ss[k + 1] == Next(ss[k], es[k]);
    j := PreparedByProbe(es, ss, k);
  }

  /** Event `p` puts `outlet` in the cell with this failure threshold, and `h` is where its watch begins. */
  ghost predicate WatchedSince(es: seq<Event>, ss: seq<State>, p: nat, h: nat, outlet: nat, threshold: nat) {
    && p < h < |es| && h < |ss|
    && es[p].PutInCell? && ss[p].phase == Prepared(outlet, threshold)
    && es[h].RecordHeartbeat? && ss[h].phase == Announced(outlet, threshold)
  }

  lemma {:induction false} AnnouncedByPut(es: seq<Event>, ss: seq<State>, k: nat) returns (p: nat)
    requires Run(es, ss) && k <= |es| && ss[k].phase.Announced?
    ensures p < k && es[p].PutInCell? && ss[p].phase == Prepared(ss[k].phase.outlet, ss[k].phase.threshold)
  {
    assert k > 0 && Possible(ss[k - 1], es[k - 1]) && ss[k] == Next(ss[k - 1], es[k - 1]);
    if ss[k - 1].phase.Announced? { p := AnnouncedByPut(es, ss, k - 1); } else { p := k - 1; }
  }

  /** The outcomes of the health probes among events `from` to `to`, in order. */
  function Outcomes(es: seq<Event>, from: nat, to: nat): (results: seq<bool>)
    requires from <= to <= |es|
  {
    if to == from then [] else Counted(Outcomes(es, from, to - 1), es[to - 1])
  }

  function Counted(results: seq<bool>, e: Event): (results': seq<bool>) {
    if e.ProbeOk? then results + [true] else if e.ProbeFails? then results + [false] else results
  }

  lemma OneMoreOutcome(es: seq<Event>, from: nat, to: nat)
    requires from < to <= |es|
    ensures Outcomes(es, from, to) == Counted(Outcomes(es, from, to - 1), es[to - 1])
  {
  }

  /** How an outlet comes to be watched, and what a watch counts. */
  lemma WatchStep(s: State, e: Event)
    requires Possible(s, e) && Next(s, e).phase.Watching?
    ensures var now := Next(s, e).phase;
            if s.phase.Watching? then now == Watching(s.phase.outlet, s.phase.threshold, Counted(s.phase.results, e))
            else e.RecordHeartbeat? && s.phase == Announced(now.outlet, now.threshold) && now.results == []
  {
  }

  /** While an outlet is watched, the results counted are the probe outcomes since its watch began. */
  lemma {:induction false} ResultsHappened(es: seq<Event>, ss: seq<State>, k: nat) returns (p: nat, h: nat)
    requires Run(es, ss) && k <= |es| && ss[k].phase.Watching?
    ensures h < k && WatchedSince(es, ss, p, h, ss[k].phase.outlet, ss[k].phase.threshold)
    ensures ss[k].phase.results == Outcomes(es, h + 1, k)
  {
    var s, e := LastStep(es, ss, k);
    WatchStep(s, e);
    if s.phase.Watching? {
      p, h := ResultsHappened(es, ss, k - 1);
      OneMoreOutcome(es, h + 1, k);
    } else {
      h := k - 1;
      p := AnnouncedByPut(es, ss, h);
    }
  }

  lemma LastStep(es: seq<Event>, ss: seq<State>, k: nat) returns (s: State, e: Event)
    requires Run(es, ss) && k <= |es| && !ss[k].phase.Preparing?
    ensures k > 0 && s == ss[k - 1] && e == es[k - 1] && Possible(s, e) && ss[k] == Next(s, e)
  {
    s, e := ss[k - 1], es[k - 1];
  }

  /** Why a watch ends at event `j`: the outlet died, or this failed probe completes exactly `threshold` in a row. */
  ghost predicate EndsWatch(es: seq<Event>, h: nat, j: nat, threshold: nat) {
    && h < j < |es|
    && (es[j].Dies? || (es[j].ProbeFails? && TrailingFailures(Outcomes(es, h + 1, j + 1)) == AtLeastOne(threshold)))
    && TrailingFailures(Outcomes(es, h + 1, j)) < AtLeastOne(threshold)
  }

  /** How a watch ends. */
  lemma LeaveStep(s: State, e: Event)
    requires Inv(s) && Possible(s, e) && Next(s, e).phase.Leaving? && !s.phase.Leaving?
    ensures s.phase.Watching? && Next(s, e).phase.outlet == s.phase.outlet
    ensures TrailingFailures(s.phase.results) < AtLeastOne(s.phase.threshold)
    ensures e.Dies?
         || (e.ProbeFails? && TrailingFailures(Counted(s.phase.results, e)) == AtLeastOne(s.phase.threshold))
  {
    if e.ProbeFails? { ReachedExactly(s.phase.results, false, AtLeastOne(s.phase.threshold)); }
  }

  lemma LeavingStays(s: State, e: Event)
    requires Possible(s, e) && Next(s, e).phase.Leaving? && s.phase.Leaving?
    ensures Next(s, e).phase == s.phase
  {
  }

  lemma {:induction false} LeftFor(es: seq<Event>, ss: seq<State>, k: nat)
      returns (p: nat, h: nat, j: nat, threshold: nat)
    requires Run(es, ss) && k <= |es| && ss[k].phase.Leaving?
    ensures j < k && WatchedSince(es, ss, p, h, ss[k].phase.outlet, threshold) && EndsWatch(es, h, j, threshold)
  {
    var s, e := LastStep(es, ss, k);
    if s.phase.Leaving? {
      LeavingStays(s, e);
      p, h, j, threshold := LeftFor(es, ss, k - 1);
    } else {
      RunKeepsInv(es, ss, k - 1);
      LeaveStep(s, e);
      j, threshold := k - 1, s.phase.threshold;
      p, h := ResultsHappened(es, ss, j);
    }
  }

  /**
   * An outlet leaves the cell only after its watch ended: it died, or exactly as many probes in a row failed as its
   * threshold, announced with the probe that let it in, allows; all of these are events of the run.
   */
  lemma WithdrawnForCause(es: seq<Event>, ss: seq<State>, k: nat)
    returns (probed: nat, p: nat, h: nat, j: nat, threshold: nat)
    requires Run(es, ss) && k < |es| && ss[k].cell.Some? && ss[k + 1].cell != ss[k].cell
    ensures es[k].ClearCell? && ss[k + 1].cell == None && probed < p < h < j < k
    ensures ProbedAt(es, ss, probed, ss[k].cell.value, threshold, ss[p].round)
    ensures WatchedSince(es, ss, p, h, ss[k].cell.value, threshold) && EndsWatch(es, h, j, threshold)
  {
    RunKeepsInv(es, ss, k);
    assert Possible(ss[k], es[k]) && ss[k + 1] == Next(ss[k], es[k]);
    p, h, j, threshold := LeftFor(es, ss, k);
    probed := PreparedByProbe(es, ss, p);
  }

  /**
   * While an outlet is prepared, and while the loop backs off, nothing is published and the service reports
   * unhealthy.
   */
  lemma QuietWhileRecovering(es: seq<Event>, ss: seq<State>, k: nat)
    requires Run(es, ss) && k <= |es| && (ss[k].phase.Preparing? || ss[k].phase.BackingOff?)
    ensures ss[k].cell == None && ss[k].heartbeat == 0
    ensures ss[k].phase.BackingOff? ==> 2 <= ss[k].phase.ceiling <= 32
  {
    RunKeepsInv(es, ss, k);
  }

  /** A dispatching connection uses the outlet now in the cell, or its cancel branch is ready. */
  lemma DispatchIsCurrentOrCancelled(es: seq<Event>, ss: seq<State>, k: nat, i: nat)
    requires Run(es, ss) && k <= |es| && i < |ss[k].connections| && ss[k].connections[i].Dispatching?
    ensures ss[k].cell == Some(ss[k].connections[i].outlet) || Possible(ss[k], Cancel(i))
  {
    RunKeepsInv(es, ss, k);
    assert ConnectionOk(ss[k], ss[k].connections[i]);
  }

  /** Over all listeners, connections and free permits always make up the limit. */
  lemma ConnectionsBounded(es: seq<Event>, ss: seq<State>, k: nat)
    requires Run(es, ss) && k <= |es|
    ensures ss[k].permits >= 0 && LiveCount(ss[k].connections) == 64 - ss[k].permits <= 64
  {
    RunKeepsInv(es, ss, k);
  }

  // ---------------------------------------------------------------- what the records mean

  /** The events that change what the cell holds. */
  predicate MovesCell(e: Event) {
    e.PutInCell? || e.ClearCell?
  }

  function Moves(es: seq<Event>): (n: nat) {
    if es == [] then 0 else Moves(es[..|es| - 1]) + (if MovesCell(es[|es| - 1]) then 1 else 0)
  }

  /** How often the loop has paused since an outlet was last published. */
  function Setbacks(es: seq<Event>): (n: nat) {
    if es == [] then 0
    else
      var e, n := es[|es| - 1], Setbacks(es[..|es| - 1]);
      if e.PutInCell? then 0 else if e.Pause? then n + 1 else n
  }

  /** The clock reading of the last success, unless the outlet has been given up since. */
  function LastSuccess(es: seq<Event>): (t: nat) {
    if es == [] then 0 else HeartbeatAfter(LastSuccess(es[..|es| - 1]), es[|es| - 1])
  }

  function HeartbeatAfter(t: nat, e: Event): (t': nat) {
    match e
    case RecordHeartbeat(now) => if now.Some? then now.value else t
    case ProbeOk(now) => if now.Some? then now.value else t
    case InvalidateHeartbeat(ok) => if ok then 0 else t
    case NextRound(ok) => if ok then 0 else t
    case _ => t
  }

  lemma VersionStep(s: State, e: Event)
    requires Possible(s, e)
    ensures Next(s, e).version == s.version + (if MovesCell(e) then 1 else 0)
  {
  }

  lemma FailuresStep(s: State, e: Event)
    requires Possible(s, e)
    ensures Next(s, e).failures ==
            if e.PutInCell? then 0 else if e.Pause? then SaturatingInc(s.failures) else s.failures
  {
  }

  lemma HeartbeatStep(s: State, e: Event)
    requires Possible(s, e)
    ensures Next(s, e).heartbeat == HeartbeatAfter(s.heartbeat, e)
  {
  }

  /** Version, heartbeat and failure count of a state are what the events before it say. */
  lemma {:induction false} RecordsAre(es: seq<Event>, ss: seq<State>, k: nat)
    requires Run(es, ss) && k <= |es|
    ensures ss[k].version == Moves(es[..k]) && ss[k].heartbeat == LastSuccess(es[..k])
    ensures ss[k].failures == if Setbacks(es[..k]) < U32_MAX then Setbacks(es[..k]) else U32_MAX
  {
    if k > 0 {
      RecordsAre(es, ss, k - 1);
      var s, e := StepBefore(es, ss, k);
      assert es[..k][..k - 1] == es[..k - 1];
      VersionStep(s, e);
      FailuresStep(s, e);
      HeartbeatStep(s, e);
    }
  }

  lemma StepBefore(es: seq<Event>, ss: seq<State>, k: nat) returns (s: State, e: Event)
    requires Run(es, ss) && 0 < k <= |es|
    ensures s == ss[k - 1] && e == es[k - 1] && Possible(s, e) && ss[k] == Next(s, e)
  {
    s, e := ss[k - 1], es[k - 1];
  }

  lemma {:induction false} PauseCounts(es: seq<Event>, ss: seq<State>, k: nat)
    requires Run(es, ss) && k <= |es| && ss[k].phase.BackingOff?
    ensures ss[k].phase.ceiling == Ceiling(ss[k].failures) && ss[k].failures >= 1
  {
    assert k > 0 && Possible(ss[k - 1], es[k - 1]) && ss[k] == Next(ss[k - 1], es[k - 1]);
    if ss[k - 1].phase.BackingOff? { PauseCounts(es, ss, k - 1); }
  }

  /** The ceiling of the pause is 2 seconds after the first setback and doubles with each, up to 32. */
  lemma BackoffDoubles(es: seq<Event>, ss: seq<State>, k: nat)
    requires Run(es, ss) && k <= |es| && ss[k].phase.BackingOff?
    ensures var n := Setbacks(es[..k]);
            && n >= 1
            && ss[k].phase.ceiling ==
               if n == 1 then 2 else if n == 2 then 4 else if n == 3 then 8 else if n == 4 then 16 else 32
  {
    PauseCounts(es, ss, k);
    RecordsAre(es, ss, k);
    CeilingValues(ss[k].failures);
  }

  lemma CeilingValues(n: nat)
    requires n >= 1
    ensures Ceiling(n) == if n == 1 then 2 else if n == 2 then 4 else if n == 3 then 8 else if n == 4 then 16 else 32
  {
    assert Pow2(1) == 2 && Pow2(2) == 4 && Pow2(3) == 8 && Pow2(4) == 16 && Pow2(5) == 32;
  }

  /** A dispatching connection took its outlet from the cell when it last looked. */
  lemma {:induction false} DispatchedByLook(es: seq<Event>, ss: seq<State>, k: nat, i: nat) returns (j: nat)
    requires Run(es, ss) && k <= |es| && i < |ss[k].connections| && ss[k].connections[i].Dispatching?
    ensures j < k && es[j] == Look(i)
    ensures ss[j].cell.Some? && ss[k].connections[i] == Dispatching(ss[j].cell.value, ss[j].version)
  {
    assert k > 0 && Possible(ss[k - 1], es[k - 1]) && ss[k] == Next(ss[k - 1], es[k - 1]);
    if i < |ss[k - 1].connections| && ss[k - 1].connections[i].Dispatching? {
      j := DispatchedByLook(es, ss, k - 1, i);
    } else {
      j := k - 1;
    }
  }

  lemma {:induction false} MovesBetween(es: seq<Event>, j: nat, k: nat) returns (m: nat)
    requires j <= k <= |es| && Moves(es[..j]) != Moves(es[..k])
    ensures j <= m < k && MovesCell(es[m])
  {
    assert j < k && es[..k][..k - 1] == es[..k - 1];
    if MovesCell(es[k - 1]) { m := k - 1; } else { m := MovesBetween(es, j, k - 1); }
  }

  /** A connection in service is cancelled only after the outlet it found in the cell was taken out or replaced. */
  lemma CancelledForCause(es: seq<Event>, ss: seq<State>, k: nat, i: nat) returns (j: nat, m: nat)
    requires Run(es, ss) && k < |es| && es[k] == Cancel(i) && ss[k].connections[i].Dispatching?
    ensures j <= m < k && es[j] == Look(i) && MovesCell(es[m])
    ensures ss[j].cell == Some(ss[k].connections[i].outlet)
  {
    j := DispatchedByLook(es, ss, k, i);
    RecordsAre(es, ss, j);
    RecordsAre(es, ss, k);
    m := MovesBetween(es, j, k);
  }

  /** The rounds begun and the outlets built so far, and whether a heartbeat could not be reset. */
  function Rounds(es: seq<Event>): (n: nat) {
    if es == [] then 0 else Rounds(es[..|es| - 1]) + (if es[|es| - 1] == NextRound(true) then 1 else 0)
  }

  function Builds(es: seq<Event>): (n: nat) {
    if es == [] then 0 else Builds(es[..|es| - 1]) + (if es[|es| - 1].BuildCandidate? then 1 else 0)
  }

  predicate ResetFails(es: seq<Event>) {
    es != [] && (es[|es| - 1] in {NextRound(false), InvalidateHeartbeat(false)} || ResetFails(es[..|es| - 1]))
  }

  lemma LoopStep(s: State, e: Event)
    requires Possible(s, e)
    ensures Next(s, e).round == s.round + (if e == NextRound(true) then 1 else 0)
    ensures Next(s, e).made == s.made + (if e.BuildCandidate? then 1 else 0)
    ensures Next(s, e).phase.Exited? <==> s.phase.Exited? || e == NextRound(false) || e == InvalidateHeartbeat(false)
  {
  }

  /** Rounds and outlets are counted one by one, and the loop ends exactly when a heartbeat cannot be reset. */
  lemma {:induction false} CountsAre(es: seq<Event>, ss: seq<State>, k: nat)
    requires Run(es, ss) && k <= |es|
    ensures ss[k].round == Rounds(es[..k]) && ss[k].made == Builds(es[..k])
    ensures ss[k].phase.Exited? <==> ResetFails(es[..k])
  {
    if k > 0 {
      CountsAre(es, ss, k - 1);
      var s, e := StepBefore(es, ss, k);
      assert es[..k][..k - 1] == es[..k - 1];
      LoopStep(s, e);
    }
  }

  /** A client is taken in exactly when fewer than 64 connections are alive; otherwise nothing changes. */
  lemma AcceptsUpToLimit(es: seq<Event>, ss: seq<State>, k: nat)
    requires Run(es, ss) && k < |es| && es[k] == Accept
    ensures ss[k + 1].connections ==
            if LiveCount(ss[k].connections) < 64 then ss[k].connections + [Waiting(0)] else ss[k].connections
  {
    RunKeepsInv(es, ss, k);
    assert ss[k + 1] == Next(ss[k], es[k]);
  }

  // ---------------------------------------------------------------- the loop is never stuck

  ghost predicate Leads(s: State, es: seq<Event>)
    decreases |es|
  {
    es == [] || (Possible(s, es[0]) && Leads(Next(s, es[0]), es[1..]))
  }

  ghost function After(s: State, es: seq<Event>): (s': State)
    requires Leads(s, es)
    decreases |es|
  {
    if es == [] then s else After(Next(s, es[0]), es[1..])
  }

  lemma Begin(s: State, e: Event, es: seq<Event>)
    requires Possible(s, e) && Leads(Next(s, e), es)
    ensures Leads(s, [e] + es) && After(s, [e] + es) == After(Next(s, e), es)
  {
    assert ([e] + es)[1..] == es;
  }

  /** How far the loop is from publishing an outlet. */
  function Distance(p: Phase): (n: nat) {
    match p
    case Cleared => 6
    case RoundOver => 5
    case BackingOff(_) => 4
    case Preparing(_, candidate) => if candidate.None? then 3 else 2
    case Prepared(_, _) => 1
    case _ => 0
  }

  /** From every state of a run that has not ended the recovery loop, an outlet can come to stand in the cell. */
  lemma {:induction false} CanPublish(s: State) returns (es: seq<Event>)
    requires Inv(s) && !s.phase.Exited?
    ensures Leads(s, es) && After(s, es).cell.Some? && After(s, es).connections == s.connections
    decreases Distance(s.phase)
  {
    es := [];
    if s.cell.None? {
      var e := match s.phase
               case Cleared => InvalidateHeartbeat(true)
               case RoundOver => Pause
               case BackingOff(_) => NextRound(true)
               case Preparing(_, candidate) => if candidate.None? then BuildCandidate else CandidateProbed(false, 1)
               case _ => PutInCell;
      NextKeepsInv(s, e);
      es := CanPublish(Next(s, e));
      Begin(s, e, es);
      es := [e] + es;
    }
  }

  lemma {:induction false} Append(s: State, es: seq<Event>, e: Event)
    requires Leads(s, es) && Possible(After(s, es), e)
    ensures Leads(s, es + [e]) && After(s, es + [e]) == Next(After(s, es), e)
    decreases |es|
  {
    if es == [] {
      assert [] + [e] == [e] && [e][1..] == [];
    } else {
      Append(Next(s, es[0]), es[1..], e);
      assert (es + [e])[1..] == es[1..] + [e];
    }
  }

  /** While the loop has not ended, every waiting connection can come to be served by the outlet in the cell. */
  lemma CanServe(s: State, i: nat) returns (es: seq<Event>)
    requires Inv(s) && !s.phase.Exited? && i < |s.connections| && s.connections[i].Waiting?
    ensures Leads(s, es) && After(s, es).cell.Some? && i < |After(s, es).connections|
    ensures After(s, es).connections[i] == Dispatching(After(s, es).cell.value, After(s, es).version)
  {
    es := CanPublish(s);
    Append(s, es, Look(i));
    es := es + [Look(i)];
  }

  /** Every connection can end, whatever the loop does, and then gives back its permit. */
  lemma CanClose(s: State, i: nat) returns (es: seq<Event>)
    requires i < |s.connections| && Live(s.connections[i])
    ensures Leads(s, es) && After(s, es) == s.(connections := s.connections[i := Closed], permits := s.permits + 1)
  {
    if s.connections[i].Waiting? {
      Begin(s, GiveUpWaiting(i), [Finish(i)]);
      var s' := Next(s, GiveUpWaiting(i));
      Begin(s', Finish(i), []);
      assert [Finish(i)] + [] == [Finish(i)];
      assert s'.connections[i := Closed] == s.connections[i := Closed];
      es := [GiveUpWaiting(i)] + [Finish(i)];
    } else {
      Begin(s, Finish(i), []);
      es := [Finish(i)] + [];
    }
  }

  function Times(e: Event, n: nat): (es: seq<Event>) {
    if n == 0 then [] else [e] + Times(e, n - 1)
  }

  /** How many failures in a row are still missing for the watched outlet to be given up. */
  function Missing(p: Phase): (n: int)
    requires p.Watching?
  {
    AtLeastOne(p.threshold) - TrailingFailures(p.results)
  }

  /** Exactly as many failing probes as the threshold still allows make the loop give up the outlet, and none fewer. */
  lemma {:induction false} FailuresWithdraw(s: State, n: nat)
    requires s.phase.Watching? && n <= Missing(s.phase)
    ensures Leads(s, Times(ProbeFails, n))
    ensures var s' := After(s, Times(ProbeFails, n));
            && (n < Missing(s.phase) ==> s'.phase.Watching? && s'.cell == s.cell)
            && (n == Missing(s.phase) && n > 0 ==> s' == s.(phase := Leaving(s.phase.outlet)))
    decreases n
  {
    if n > 0 {
      var s1 := Next(s, ProbeFails);
      assert (s.phase.results + [false])[..|s.phase.results|] == s.phase.results;
      if s1.phase.Watching? {
        FailuresWithdraw(s1, n - 1);
      } else {
        assert Times(ProbeFails, 0) == [];
      }
      Begin(s, ProbeFails, Times(ProbeFails, n - 1));
    }
  }

  /** A watched outlet that dies is given up and leaves the cell. */
  lemma DeathWithdraws(s: State)
    requires s.phase.Watching?
    ensures Leads(s, [Dies] + [ClearCell]) && After(s, [Dies] + [ClearCell]).cell == None
  {
    Begin(Next(s, Dies), ClearCell, []);
    assert [ClearCell] + [] == [ClearCell];
    Begin(s, Dies, [ClearCell]);
  }

  /** A candidate that fails makes way for a new one, and a preparation that fails for a new round. */
  lemma CanRetry(s: State)
    requires s.phase.Preparing?
    ensures s.phase.candidate.Some? ==>
              && Leads(s, [CandidateFails] + [BuildCandidate])
              && After(s, [CandidateFails] + [BuildCandidate]).phase == Preparing(s.phase.base, Some(s.made))
    ensures Leads(s, [PreparationFails] + [Pause, NextRound(true)])
    ensures After(s, [PreparationFails] + [Pause, NextRound(true)]).phase == Preparing(None, None)
  {
    if s.phase.candidate.Some? {
      Begin(Next(s, CandidateFails), BuildCandidate, []);
      assert [BuildCandidate] + [] == [BuildCandidate];
      Begin(s, CandidateFails, [BuildCandidate]);
    }
    var s1 := Next(s, PreparationFails);
    var s2 := Next(s1, Pause);
    Begin(s2, NextRound(true), []);
    assert [NextRound(true)] + [] == [NextRound(true)];
    Begin(s1, Pause, [NextRound(true)]);
    assert [Pause] + [NextRound(true)] == [Pause, NextRound(true)];
    Begin(s, PreparationFails, [Pause, NextRound(true)]);
  }
}
