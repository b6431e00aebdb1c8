/** WireGuard endpoint candidates: the order they are tried in, and what one pass over them leaves behind. */
module Endpoints {
  import opened Outcome

  type Endpoint = string

  // ---------------------------------------------------------------- first occurrences

  /** The index of the first occurrence, or the length. */
  function First(items: seq<Endpoint>, x: Endpoint): (k: nat)
    ensures k <= |items| && x !in items[..k]
    ensures x in items <==> k < |items| && items[k] == x
  {
    if items == [] then 0
    else if items[0] == x then 0
    else
      var k := First(items[1..], x);
      assert items[..k + 1] == [items[0]] + items[1..][..k];
      assert items == [items[0]] + items[1..];
      k + 1
  }

  lemma FirstIs(items: seq<Endpoint>, x: Endpoint, k: nat)
    requires k < |items| && items[k] == x && x !in items[..k]
    ensures First(items, x) == k
  {
    var f := First(items, x);
    assert forall i :: 0 <= i < k ==> items[..k][i] == items[i];
    assert forall i :: 0 <= i < f ==> items[..f][i] == items[i];
  }

  ghost predicate InOrder(s: seq<Endpoint>, items: seq<Endpoint>) {
    forall i, j :: 0 <= i < j < |s| ==> First(items, s[i]) < First(items, s[j])
  }

  /** Keeps the first occurrence of everything, in the order of first occurrences. */
  method DedupPreserveOrder(items: seq<Endpoint>) returns (r: seq<Endpoint>)
    ensures InOrder(r, items)
    ensures forall x :: x in r <==> x in items
  {
    var seen: set<Endpoint> := {};
    r := [];
    for i := 0 to |items|
      invariant InOrder(r, items)
      invariant forall x :: x in r <==> x in items[..i]
      invariant forall x :: x in seen <==> x in items[..i]
      invariant forall k :: 0 <= k < |r| ==> First(items, r[k]) < i
    {
      var x := items[i];
      assert items[..i + 1] == items[..i] + [x];
      if x !in seen {
        FirstIs(items, x, i);
        r := r + [x];
      }
      seen := seen + {x};
    }
    assert items[..|items|] == items;
  }

  // ---------------------------------------------------------------- the plan

  /** Where an endpoint stands among those of its group: the last good one first, then by place in the pool. */
  function Rank(pool: seq<Endpoint>, lastGood: Option<Endpoint>, x: Endpoint): (r: int) {
    if lastGood == Some(x) then -1 else First(pool, x)
  }

  /** The order of trial: ready before cooling, then by rank. */
  predicate Precedes(pool: seq<Endpoint>, lastGood: Option<Endpoint>, cooling: set<Endpoint>, x: Endpoint,
                     y: Endpoint) {
    if (x in cooling) != (y in cooling) then y in cooling else Rank(pool, lastGood, x) < Rank(pool, lastGood, y)
  }

  /** A plan tries every endpoint of the pool once, in that order. */
  ghost predicate IsPlan(p: seq<Endpoint>, pool: seq<Endpoint>, lastGood: Option<Endpoint>, cooling: set<Endpoint>) {
    && (forall x :: x in p <==> x in pool)
    && (forall i, j :: 0 <= i < j < |p| ==> Precedes(pool, lastGood, cooling, p[i], p[j]))
  }

  ghost predicate Ranked(s: seq<Endpoint>, pool: seq<Endpoint>, lastGood: Option<Endpoint>) {
    forall i, j :: 0 <= i < j < |s| ==> Rank(pool, lastGood, s[i]) < Rank(pool, lastGood, s[j])
  }

  lemma PlanIsDuplicateFree(p: seq<Endpoint>, pool: seq<Endpoint>, lastGood: Option<Endpoint>, cooling: set<Endpoint>)
    requires IsPlan(p, pool, lastGood, cooling)
    ensures forall i, j :: 0 <= i < j < |p| ==> p[i] != p[j]
  {
    forall i, j | 0 <= i < j < |p| ensures p[i] != p[j] {
      assert Precedes(pool, lastGood, cooling, p[i], p[j]);
    }
  }

  lemma Tail(p: seq<Endpoint>, q: seq<Endpoint>)
    requires p != [] && q != [] && p[0] == q[0]
    requires p[0] !in p[1..] && q[0] !in q[1..]
    requires forall x :: x in p <==> x in q
    ensures forall x :: x in p[1..] <==> x in q[1..]
  {
    forall x ensures x in p[1..] <==> x in p && x != p[0] { assert p == [p[0]] + p[1..]; }
    forall x ensures x in q[1..] <==> x in q && x != q[0] { assert q == [q[0]] + q[1..]; }
  }

  ghost predicate Arranged(p: seq<Endpoint>, pool: seq<Endpoint>, lastGood: Option<Endpoint>, cooling: set<Endpoint>) {
    && (forall i :: 0 <= i < |p| ==> p[i] in pool)
    && (forall i, j :: 0 <= i < j < |p| ==> Precedes(pool, lastGood, cooling, p[i], p[j]))
  }

  lemma {:induction false} ArrangementUnique(p: seq<Endpoint>, q: seq<Endpoint>, pool: seq<Endpoint>,
                                             lastGood: Option<Endpoint>,
                                             cooling: set<Endpoint>)
    requires Arranged(p, pool, lastGood, cooling) && Arranged(q, pool, lastGood, cooling)
    requires forall x :: x in p <==> x in q
    ensures p == q
  {
    assert p != [] ==> p[0] in q;
    assert q != [] ==> q[0] in p;
    if p != [] {
      var i :| 0 <= i < |q| && q[i] == p[0];
      var j :| 0 <= j < |p| && p[j] == q[0];
      assert i > 0 ==> Precedes(pool, lastGood, cooling, q[0], q[i]);
      assert j > 0 ==> Precedes(pool, lastGood, cooling, p[0], p[j]);
      Tail(p, q);
      ArrangementUnique(p[1..], q[1..], pool, lastGood, cooling);
    }
  }

  /** There is only one plan: the order of trial leaves nothing open. */
  lemma PlanUnique(p: seq<Endpoint>, q: seq<Endpoint>, pool: seq<Endpoint>, lastGood: Option<Endpoint>,
                   cooling: set<Endpoint>)
    requires IsPlan(p, pool, lastGood, cooling) && IsPlan(q, pool, lastGood, cooling)
    ensures p == q
  {
    ArrangementUnique(p, q, pool, lastGood, cooling);
  }

  /** Moving the last good endpoint to the front of the pool gives first places in rank order. */
  lemma MergedRank(pool: seq<Endpoint>, g: Endpoint, x: Endpoint, y: Endpoint)
    requires x in pool && y in pool && First([g] + pool, x) < First([g] + pool, y)
    ensures Rank(pool, Some(g), x) < Rank(pool, Some(g), y)
  {
    assert ([g] + pool)[1..] == pool;
  }

  /** Merges, splits by cooldown and joins; the result is the plan. */
  method PlanCandidates(pool: seq<Endpoint>, lastGood: Option<Endpoint>, cooling: set<Endpoint>)
      returns (p: seq<Endpoint>)
    ensures IsPlan(p, pool, lastGood, cooling)
  {
    var merged := [];
    if lastGood.Some? && lastGood.value in pool { merged := merged + [lastGood.value]; }
    merged := merged + pool;
    var items := merged;
    merged := DedupPreserveOrder(merged);
    SameMembers(items, pool, lastGood);
    MergedRanked(items, merged, pool, lastGood);
    var ready, cold := Partition(merged, cooling, pool, lastGood);
    p := ready + cold;
    Joined(merged, ready, cold, pool, lastGood, cooling);
  }

  method Partition(merged: seq<Endpoint>, cooling: set<Endpoint>, ghost pool: seq<Endpoint>,
                   ghost lastGood: Option<Endpoint>)
      returns (ready: seq<Endpoint>, cold: seq<Endpoint>)
    requires Ranked(merged, pool, lastGood)
    ensures Split(merged, ready, cold, cooling)
    ensures Ranked(ready, pool, lastGood) && Ranked(cold, pool, lastGood)
  {
    ready, cold := [], [];
    for i := 0 to |merged|
      invariant Split(merged[..i], ready, cold, cooling)
      invariant Ranked(ready, pool, lastGood) && Below(ready, merged, i, pool, lastGood)
      invariant Ranked(cold, pool, lastGood) && Below(cold, merged, i, pool, lastGood)
    {
      assert merged[..i + 1] == merged[..i] + [merged[i]];
      if merged[i] !in cooling { ready := ready + [merged[i]]; } else { cold := cold + [merged[i]]; }
    }
    assert merged[..|merged|] == merged;
  }

  ghost predicate Split(s: seq<Endpoint>, ready: seq<Endpoint>, cold: seq<Endpoint>, cooling: set<Endpoint>) {
    && (forall x :: x in ready <==> x in s && x !in cooling)
    && (forall x :: x in cold <==> x in s && x in cooling)
  }

  /** Everything taken so far ranks below what is left. */
  ghost predicate Below(s: seq<Endpoint>, merged: seq<Endpoint>, i: nat, pool: seq<Endpoint>,
                        lastGood: Option<Endpoint>) {
    forall k, j :: 0 <= k < |s| && i <= j < |merged| ==> Rank(pool, lastGood, s[k]) < Rank(pool, lastGood, merged[j])
  }

  lemma SameMembers(items: seq<Endpoint>, pool: seq<Endpoint>, lastGood: Option<Endpoint>)
    requires items == (if lastGood.Some? && lastGood.value in pool then [lastGood.value] else []) + pool
    ensures forall x :: x in items <==> x in pool
  {
  }

  lemma MergedRanked(items: seq<Endpoint>, merged: seq<Endpoint>, pool: seq<Endpoint>, lastGood: Option<Endpoint>)
    requires items == (if lastGood.Some? && lastGood.value in pool then [lastGood.value] else []) + pool
    requires InOrder(merged, items) && forall i :: 0 <= i < |merged| ==> merged[i] in pool
    ensures Ranked(merged, pool, lastGood)
  {
    forall i, j | 0 <= i < j < |merged| ensures Rank(pool, lastGood, merged[i]) < Rank(pool, lastGood, merged[j]) {
      MergedPair(items, pool, lastGood, merged[i], merged[j]);
    }
  }

  lemma MergedPair(items: seq<Endpoint>, pool: seq<Endpoint>, lastGood: Option<Endpoint>, x: Endpoint, y: Endpoint)
    requires items == (if lastGood.Some? && lastGood.value in pool then [lastGood.value] else []) + pool
    requires x in pool && y in pool && First(items, x) < First(items, y)
    ensures Rank(pool, lastGood, x) < Rank(pool, lastGood, y)
  {
    if lastGood.Some? && lastGood.value in pool {
      MergedRank(pool, lastGood.value, x, y);
    } else {
      assert items == pool;
    }
  }

  lemma Joined(merged: seq<Endpoint>, ready: seq<Endpoint>, cold: seq<Endpoint>, pool: seq<Endpoint>,
               lastGood: Option<Endpoint>,
               cooling: set<Endpoint>)
    requires Split(merged, ready, cold, cooling) && (forall x :: x in merged <==> x in pool)
    requires Ranked(ready, pool, lastGood) && Ranked(cold, pool, lastGood)
    ensures IsPlan(ready + cold, pool, lastGood, cooling)
  {
    var p := ready + cold;
    forall i, j | 0 <= i < j < |p| ensures Precedes(pool, lastGood, cooling, p[i], p[j]) {
      assert i < |ready| ==> p[i] in ready;
      assert i >= |ready| ==> p[i] in cold;
      assert j < |ready| ==> p[j] in ready;
      assert j >= |ready| ==> p[j] in cold;
    }
  }

  /** The last good endpoint leads its group: only ready ones come before it, and only when it is cooling itself. */
  lemma LeaderPosition(p: seq<Endpoint>, pool: seq<Endpoint>, e: Endpoint, cooling: set<Endpoint>) returns (k: nat)
    requires IsPlan(p, pool, Some(e), cooling) && e in pool
    ensures k < |p| && p[k] == e
    ensures k > 0 ==> e in cooling
    ensures forall m :: 0 <= m < k ==> p[m] !in cooling
    ensures e in cooling ==> forall m :: k < m < |p| ==> p[m] in cooling
  {
    assert e in p;
    k :| 0 <= k < |p| && p[k] == e;
    if k > 0 { assert Precedes(pool, Some(e), cooling, p[0], p[k]); }
    forall m | 0 <= m < k ensures p[m] !in cooling {
      assert Precedes(pool, Some(e), cooling, p[m], p[k]);
    }
    forall m | k < m < |p| && e in cooling ensures p[m] in cooling {
      assert Precedes(pool, Some(e), cooling, p[k], p[m]);
    }
  }

  // ---------------------------------------------------------------- the store

  /** The stored text is empty when there is no last good endpoint. */
  function LastGoodOf(text: Endpoint): (r: Option<Endpoint>) {
    if text == "" then None else Some(text)
  }

  /** How long it is from `now` to `until`. */
  function Left(until: nat, now: nat): (d: nat) {
    if until <= now then 0 else until - now
  }

  function Remaining(cooldowns: map<Endpoint, nat>, e: Endpoint, now: nat): (d: nat) {
    if e !in cooldowns then 0 else Left(cooldowns[e], now)
  }

  function Cooling(cooldowns: map<Endpoint, nat>, now: nat): (s: set<Endpoint>)
    ensures forall e :: e in s <==> Remaining(cooldowns, e, now) != 0
  {
    set e | e in cooldowns && Remaining(cooldowns, e, now) != 0
  }

  /** To every later question about an endpoint other than those in `except` the two tables answer the same. */
  ghost predicate SameFrom(before: map<Endpoint, nat>, after: map<Endpoint, nat>, except: set<Endpoint>, from: nat) {
    forall x, t: nat :: x !in except && from <= t ==> Remaining(after, x, t) == Remaining(before, x, t)
  }

  /** `failed` were put on cooldown one after another; nothing else changed. */
  ghost predicate AfterFailures(before: map<Endpoint, nat>, after: map<Endpoint, nat>, failed: seq<Endpoint>,
                                at: Endpoint -> nat, cooldown: nat) {
    forall e, t: nat ::
      Remaining(after, e, t) == if e in failed then Left(at(e) + cooldown, t) else Remaining(before, e, t)
  }

  /** A pass that tried `plan` in order and stopped at the first endpoint that worked. */
  ghost predicate Passed(plan: seq<Endpoint>, i: nat, before: map<Endpoint, nat>, after: map<Endpoint, nat>,
                         works: Endpoint -> bool, at: Endpoint -> nat, cooldown: nat) {
    && i < |plan|
    && works(plan[i])
    && (forall j :: 0 <= j < i ==> !works(plan[j]))
    && AfterFailures(before - {plan[i]}, after, plan[..i], at, cooldown)
  }

  ghost predicate StartsWith(p: seq<Endpoint>, e: Endpoint) {
    p != [] && p[0] == e
  }

  /** Every plan, for any pool with `e` in it and at any time, starts with `e`. */
  ghost predicate LeadsEveryPlan(e: Endpoint, lastGood: Endpoint, cooldowns: map<Endpoint, nat>) {
    forall pool, now: nat, p | e in pool && IsPlan(p, pool, LastGoodOf(lastGood), Cooling(cooldowns, now)) ::
      StartsWith(p, e)
  }

  lemma LeadsWhenGood(e: Endpoint, cooldowns: map<Endpoint, nat>)
    requires e != "" && e !in cooldowns
    ensures LeadsEveryPlan(e, e, cooldowns)
  {
    forall pool, now: nat, p | e in pool && IsPlan(p, pool, LastGoodOf(e), Cooling(cooldowns, now))
      ensures StartsWith(p, e)
    {
      var cooling := Cooling(cooldowns, now);
      assert e !in cooling;
      var k := LeaderPosition(p, pool, e, cooling);
    }
  }

  lemma OneMoreFailure(before: map<Endpoint, nat>, mid: map<Endpoint, nat>, after: map<Endpoint, nat>,
                       failed: seq<Endpoint>,
                       e: Endpoint, at: Endpoint -> nat, cooldown: nat)
    requires AfterFailures(before, mid, failed, at, cooldown) && SameFrom(mid, after, {e}, 0)
    requires forall t: nat :: Remaining(after, e, t) == Left(at(e) + cooldown, t)
    ensures AfterFailures(before, after, failed + [e], at, cooldown)
  {
  }

  lemma SuccessEnds(before: map<Endpoint, nat>, mid: map<Endpoint, nat>, after: map<Endpoint, nat>,
                    failed: seq<Endpoint>,
                    e: Endpoint, at: Endpoint -> nat, cooldown: nat)
    requires AfterFailures(before, mid, failed, at, cooldown) && SameFrom(mid, after, {e}, 0) && e !in failed
    requires forall t: nat :: Remaining(after, e, t) == 0
    ensures AfterFailures(before - {e}, after, failed, at, cooldown)
  {
  }

  class EndpointStore {
    var lastGood: Endpoint
    var cooldowns: map<Endpoint, nat>

    constructor (lastGood: Endpoint, cooldowns: map<Endpoint, nat>)
      ensures this.lastGood == lastGood && this.cooldowns == cooldowns
    {
      this.lastGood, this.cooldowns := lastGood, cooldowns;
    }

    /** Dropping expired records never changes an answer from then on. */
    method PruneCooldowns(now: nat)
      modifies `cooldowns
      ensures SameFrom(old(cooldowns), cooldowns, {}, now)
      ensures forall e :: e in cooldowns <==> Remaining(old(cooldowns), e, now) != 0
    {
      cooldowns := map e | e in cooldowns && cooldowns[e] > now :: cooldowns[e];
    }

    /**
     * The endpoint is ready at any time, and until something else is recorded every plan that has it starts with it.
     */
    method RecordSuccess(e: Endpoint)
      modifies this
      ensures LastGoodOf(lastGood) == LastGoodOf(e)
      ensures forall t: nat :: Remaining(cooldowns, e, t) == 0
      ensures SameFrom(old(cooldowns), cooldowns, {e}, 0)
      ensures e != "" ==> LeadsEveryPlan(e, lastGood, cooldowns)
    {
      lastGood := e;
      cooldowns := cooldowns - {e};
      if e != "" { LeadsWhenGood(e, cooldowns); }
    }

    /** The endpoint is cooling exactly until the deadline; no other endpoint is affected. */
    method MarkCooldown(e: Endpoint, cooldown: nat, now: nat)
      modifies `cooldowns
      ensures forall t: nat :: Remaining(cooldowns, e, t) == Left(now + cooldown, t)
      ensures forall t: nat :: e in Cooling(cooldowns, t) <==> t < now + cooldown
      ensures SameFrom(old(cooldowns), cooldowns, {e}, 0)
    {
      cooldowns := cooldowns[e := now + cooldown];
    }

    /**
     * One preparation pass: loads, plans, tries in order. The outcome of each trial and the time it ends are given;
     * a plan has no duplicates, so each endpoint has at most one of each.
     */
    method PrepareWireguard(pool: seq<Endpoint>, loaded: nat, planned: nat, works: Endpoint -> bool,
                            at: Endpoint -> nat, cooldown: nat)
        returns (r: Option<Endpoint>, ghost plan: seq<Endpoint>, ghost before: map<Endpoint, nat>)
      requires loaded <= planned
      modifies this
      ensures IsPlan(plan, pool, LastGoodOf(old(lastGood)), Cooling(old(cooldowns), planned))
      ensures SameFrom(old(cooldowns), before, {}, loaded)
      ensures r.Some? ==> r.value in plan && LastGoodOf(lastGood) == LastGoodOf(r.value)
      ensures r.Some? ==> Passed(plan, First(plan, r.value), before, cooldowns, works, at, cooldown)
      ensures r.None? ==> lastGood == old(lastGood) && forall e :: e in plan ==> !works(e)
      ensures r.None? ==> AfterFailures(before, cooldowns, plan, at, cooldown)
    {
      PruneCooldowns(loaded);
      before := cooldowns;
      assert Cooling(cooldowns, planned) == Cooling(old(cooldowns), planned);
      var candidates := PlanCandidates(pool, LastGoodOf(lastGood), Cooling(cooldowns, planned));
      plan := candidates;
      r := None;
      PlanIsDuplicateFree(plan, pool, LastGoodOf(lastGood), Cooling(cooldowns, planned));
      for i := 0 to |candidates|
        invariant lastGood == old(lastGood)
        invariant forall j :: 0 <= j < i ==> !works(candidates[j])
        invariant AfterFailures(before, cooldowns, candidates[..i], at, cooldown)
      {
        var e := candidates[i];
        assert e !in candidates[..i];
        if works(e) {
          FirstIs(candidates, e, i);
          ghost var mid := cooldowns;
          RecordSuccess(e);
          SuccessEnds(before, mid, cooldowns, candidates[..i], e, at, cooldown);
          return Some(e), plan, before;
        }
        ghost var mid := cooldowns;
        MarkCooldown(e, cooldown, at(e));
        OneMoreFailure(before, mid, cooldowns, candidates[..i], e, at, cooldown);
        assert candidates[..i + 1] == candidates[..i] + [e];
      }
      assert candidates[..|candidates|] == candidates;
    }

    /**
     * After a withdrawal: without a region, the WireGuard endpoint in use goes on cooldown; otherwise nothing
     * changes.
     */
    method CoolWithdrawn(regional: bool, endpoint: Option<Endpoint>, loaded: nat, now: nat, cooldown: nat)
      requires loaded <= now
      modifies `cooldowns
      ensures regional || endpoint.None? ==> SameFrom(old(cooldowns), cooldowns, {}, 0)
      ensures !regional && endpoint.Some? ==>
                forall t: nat :: Remaining(cooldowns, endpoint.value, t) == Left(now + cooldown, t)
      ensures !regional && endpoint.Some? ==> SameFrom(old(cooldowns), cooldowns, {endpoint.value}, loaded)
    {
      if !regional && endpoint.Some? {
        PruneCooldowns(loaded);
        MarkCooldown(endpoint.value, cooldown, now);
      }
    }
  }

  /**
   * After a pass that ended at `plan[i]`, any plan made before the new cooldowns run out starts with that endpoint,
   * and has every endpoint that failed behind all that are ready.
   */
  lemma Replan(plan: seq<Endpoint>, i: nat, pool: seq<Endpoint>, lastGood: Option<Endpoint>, cooling: set<Endpoint>,
               before: map<Endpoint, nat>, after: map<Endpoint, nat>, works: Endpoint -> bool, at: Endpoint -> nat,
               cooldown: nat, now: nat, next: seq<Endpoint>)
    requires IsPlan(plan, pool, lastGood, cooling) && Passed(plan, i, before, after, works, at, cooldown)
    requires plan[i] != ""
    requires forall j :: 0 <= j < i ==> now < at(plan[j]) + cooldown
    requires IsPlan(next, pool, LastGoodOf(plan[i]), Cooling(after, now))
    ensures next != [] && next[0] == plan[i]
    ensures forall j, k, m :: 0 <= j < i && 0 <= k < |next| && 0 <= m < |next| && next[k] == plan[j] ==>
              next[m] in Cooling(after, now) || m < k
  {
    var e := plan[i];
    PlanIsDuplicateFree(plan, pool, lastGood, cooling);
    assert e !in plan[..i] by { assert forall j :: 0 <= j < i ==> plan[..i][j] == plan[j]; }
    assert Remaining(after, e, now) == 0;
    var k := LeaderPosition(next, pool, e, Cooling(after, now));
    forall j | 0 <= j < i ensures plan[j] in Cooling(after, now) { assert plan[j] in plan[..i]; }
    forall j, k, m | 0 <= j < i && 0 <= k < m < |next| && next[k] == plan[j] ensures next[m] in Cooling(after, now) {
      assert Precedes(pool, Some(e), Cooling(after, now), next[k], next[m]);
    }
  }

  /**
   * After the endpoint in use was withdrawn and cooled, a plan made before its cooldown ends has it behind every ready
   * endpoint and first among the cooling ones; so it comes first exactly when no endpoint is ready.
   */
  lemma ReplanAfterWithdrawal(e: Endpoint, pool: seq<Endpoint>, cooldowns: map<Endpoint, nat>, until: nat, now: nat,
                              next: seq<Endpoint>) returns (k: nat)
    requires e in pool && e != "" && now < until && forall t: nat :: Remaining(cooldowns, e, t) == Left(until, t)
    requires IsPlan(next, pool, LastGoodOf(e), Cooling(cooldowns, now))
    ensures k < |next| && next[k] == e
    ensures forall m :: 0 <= m < |next| ==> (m < k <==> next[m] !in Cooling(cooldowns, now))
    ensures k == 0 <==> forall x :: x in pool ==> x in Cooling(cooldowns, now)
  {
    assert Remaining(cooldowns, e, now) == Left(until, now);
    k := LeaderPosition(next, pool, e, Cooling(cooldowns, now));
    if k == 0 {
      forall x | x in pool ensures x in Cooling(cooldowns, now) { assert x in next; }
    } else {
      assert next[0] in pool && next[0] !in Cooling(cooldowns, now);
    }
  }
}
