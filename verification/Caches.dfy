/**
 * The two DNS answer caches, the resolver's and the DNS-over-HTTPS client's, each against an unbounded record of
 * everything ever stored. Times and lifetimes are in nanoseconds; the clock never runs backwards.
 */
module Caches {
  import opened Outcome

  const MIN_TTL: nat := 5_000_000_000
  const MAX_TTL: nat := 300_000_000_000
  const MAX_ENTRIES: nat := 512

  function Seconds(n: nat): (t: nat) {
    n * 1_000_000_000
  }

  function Clamp(ttl: nat): (c: nat)
    ensures ttl <= MIN_TTL ==> c == MIN_TTL
    ensures MIN_TTL <= ttl <= MAX_TTL ==> c == ttl
    ensures ttl >= MAX_TTL ==> c == MAX_TTL
  {
    if ttl < MIN_TTL then MIN_TTL else if ttl > MAX_TTL then MAX_TTL else ttl
  }

  /** A lifetime given in seconds is held to between 5 and 300 of them, to the nanosecond. */
  lemma LifetimeInSeconds(n: nat)
    ensures Clamp(Seconds(n)) == 1_000_000_000 * (if n < 5 then 5 else if n > 300 then 300 else n)
  {
  }

  // ---------------------------------------------------------------- the unbounded map

  datatype Stored<K, V> = Stored(key: K, value: V, ttl: nat, at: nat)

  datatype Entry<V> = Entry(value: V, expires: nat)

  function Latest<K(==), V>(h: seq<Stored<K, V>>, k: K): (r: Option<Stored<K, V>>)
    ensures r.Some? ==> r.value in h && r.value.key == k
    ensures r.Some? <==> k in KeysOf(h)
  {
    if h == [] then None
    else
      var last := h[|h| - 1];
      if last.key == k then assert last in h; Some(last)
      else
        assert h == h[..|h| - 1] + [last];
        Latest(h[..|h| - 1], k)
  }

  function KeysOf<K(==), V>(h: seq<Stored<K, V>>): (s: set<K>) {
    set i | 0 <= i < |h| :: h[i].key
  }

  /** What an unbounded map with the same lifetimes answers: the last store for the key, if not yet expired. */
  function Lookup<K(==), V>(h: seq<Stored<K, V>>, k: K, now: nat): (r: Option<V>) {
    match Latest(h, k)
    case None => None
    case Some(s) => if now < s.at + Clamp(s.ttl) then Some(s.value) else None
  }

  lemma LatestSnoc<K, V>(h: seq<Stored<K, V>>, s: Stored<K, V>, k: K)
    ensures Latest(h + [s], k) == if s.key == k then Some(s) else Latest(h, k)
    ensures KeysOf(h + [s]) == KeysOf(h) + {s.key}
  {
    assert (h + [s])[..|h|] == h;
    var all := h + [s];
    assert all[|h|] == s;
    forall j | j in KeysOf(h) + {s.key} ensures j in KeysOf(all) {
      if j in KeysOf(h) {
        var i :| 0 <= i < |h| && h[i].key == j;
        assert all[i].key == j;
      }
    }
  }

  // ---------------------------------------------------------------- what both tables keep

  /** Every cached entry is the last store for its key. */
  ghost predicate Agrees<K(!new), V(!new)>(entries: map<K, Entry<V>>, h: seq<Stored<K, V>>) {
    forall k :: k in entries ==>
      Latest(h, k).Some? && var s := Latest(h, k).value; entries[k] == Entry(s.value, s.at + Clamp(s.ttl))
  }

  ghost predicate Before<K, V>(h: seq<Stored<K, V>>, clock: nat) {
    forall i :: 0 <= i < |h| ==> h[i].at <= clock
  }

  /** While no more than `room` keys were ever stored, nothing that has not expired is missing. */
  ghost predicate NothingLost<K(!new), V(!new)>(entries: map<K, Entry<V>>, h: seq<Stored<K, V>>, clock: nat,
                                                room: nat) {
    |KeysOf(h)| <= room ==> forall k :: Lookup(h, k, clock).Some? ==> k in entries
  }

  function Live<K, V>(entries: map<K, Entry<V>>, now: nat): (m: map<K, Entry<V>>)
    ensures m.Keys <= entries.Keys
    ensures forall k :: k in entries ==> (k in m <==> entries[k].expires > now)
    ensures forall k :: k in m ==> m[k] == entries[k]
  {
    map k | k in entries && entries[k].expires > now :: entries[k]
  }

  predicate AllLive<K, V>(entries: map<K, Entry<V>>, now: nat) {
    forall k :: k in entries ==> entries[k].expires > now
  }

  ghost predicate PartOf<K, V>(kept: map<K, Entry<V>>, entries: map<K, Entry<V>>) {
    kept.Keys <= entries.Keys && forall k :: k in kept ==> kept[k] == entries[k]
  }

  lemma {:induction false} SubsetSize<K>(a: set<K>, b: set<K>)
    requires a <= b
    ensures |a| <= |b| && (|a| == |b| ==> a == b)
  {
    if a != {} {
      var x :| x in a;
      SubsetSize(a - {x}, b - {x});
      assert a == (a - {x}) + {x} && b == (b - {x}) + {x};
    } else if b != {} {
      var y :| y in b;
      assert |b| == |b - {y}| + 1;
    }
  }

  /** Dropping the expired entries makes room, unless every entry is live. */
  lemma LiveSize<K, V>(entries: map<K, Entry<V>>, now: nat)
    ensures |Live(entries, now)| <= |entries|
    ensures |Live(entries, now)| == |entries| <==> AllLive(entries, now)
  {
    var live := Live(entries, now);
    SubsetSize(live.Keys, entries.Keys);
    assert |live| == |live.Keys| && |entries| == |entries.Keys|;
    if AllLive(entries, now) { assert live == entries; }
  }

  lemma KeysInHistory<K(!new), V(!new)>(entries: map<K, Entry<V>>, h: seq<Stored<K, V>>)
    requires Agrees(entries, h)
    ensures entries.Keys <= KeysOf(h) && |entries| <= |KeysOf(h)|
  {
    SubsetSize(entries.Keys, KeysOf(h));
    assert |entries| == |entries.Keys|;
  }

  /** Storing over any part of the old table keeps agreement with the record. */
  lemma StoreAgrees<K(!new), V(!new)>(entries: map<K, Entry<V>>, kept: map<K, Entry<V>>, h: seq<Stored<K, V>>,
                                      s: Stored<K, V>)
    requires Agrees(entries, h) && PartOf(kept, entries)
    ensures Agrees(kept[s.key := Entry(s.value, s.at + Clamp(s.ttl))], h + [s])
  {
    var after := kept[s.key := Entry(s.value, s.at + Clamp(s.ttl))];
    forall k | k in after
      ensures Latest(h + [s], k).Some?
      ensures var l := Latest(h + [s], k).value; after[k] == Entry(l.value, l.at + Clamp(l.ttl))
    {
      LatestSnoc(h, s, k);
    }
  }

  /** A hit is what the unbounded map answers. */
  lemma HitAgrees<K(!new), V(!new)>(entries: map<K, Entry<V>>, h: seq<Stored<K, V>>, k: K, now: nat)
    requires Agrees(entries, h) && k in entries
    ensures Lookup(h, k, now) == if entries[k].expires > now then Some(entries[k].value) else None
  {
  }

  // ---------------------------------------------------------------- the resolver's cache

  ghost predicate Consistent<K(!new), V(!new)>(entries: map<K, Entry<V>>, h: seq<Stored<K, V>>, clock: nat) {
    && |entries| <= MAX_ENTRIES
    && Agrees(entries, h)
    && Before(h, clock)
    && (|KeysOf(h)| < MAX_ENTRIES ==> entries.Keys == KeysOf(h))
  }

  lemma PutKept<K(!new), V(!new)>(entries: map<K, Entry<V>>, kept: map<K, Entry<V>>, h: seq<Stored<K, V>>, clock: nat,
                                  s: Stored<K, V>, entries': map<K, Entry<V>>, h': seq<Stored<K, V>>)
    requires Consistent(entries, h, clock) && clock <= s.at
    requires entries' == kept[s.key := Entry(s.value, s.at + Clamp(s.ttl))] && h' == h + [s]
    requires PartOf(kept, entries) && |kept| < MAX_ENTRIES && (|entries| < MAX_ENTRIES ==> kept == entries)
    ensures Consistent(entries', h', s.at)
  {
    StoreAgrees(entries, kept, h, s);
    NothingMissing(entries, h, s);
    InsertSize(kept, s.key, Entry(s.value, s.at + Clamp(s.ttl)));
  }

  class DnsCache<K(==, !new), V(!new)> {
    var entries: map<K, Entry<V>>
    ghost var history: seq<Stored<K, V>>
    ghost var clock: nat

    ghost predicate Valid()
      reads this
    {
      Consistent(entries, history, clock)
    }

    constructor ()
      ensures Valid() && history == [] && entries == map[] && clock == 0
    {
      entries, history, clock := map[], [], 0;
    }

    /** A hit is what the unbounded map answers; with fewer than 512 keys ever stored, so is a miss. */
    method Get(k: K, now: nat) returns (r: Option<V>)
      requires Valid() && clock <= now
      modifies `clock
      ensures Valid() && clock == now
      ensures r.Some? ==> r == Lookup(history, k, now)
      ensures k in entries || |KeysOf(history)| < 512 ==> r == Lookup(history, k, now)
    {
      clock := now;
      r := None;
      if k in entries {
        HitAgrees(entries, history, k, now);
        if entries[k].expires > now { r := Some(entries[k].value); }
      }
    }

    /**
     * A store is recorded under its key and never exceeds the bound. An entry of another key that is live goes only
     * from a full table without an expired entry, and then all of them go.
     */
    method Put(k: K, value: V, ttlSecs: nat, now: nat, later: nat)
      requires Valid() && clock <= now <= later
      modifies this
      ensures Valid() && clock == later && history == old(history) + [Stored(k, value, Seconds(ttlSecs), later)]
      ensures k in entries && entries[k] == Entry(value, later + Clamp(Seconds(ttlSecs)))
      ensures PartOf(entries - {k}, old(entries))
      ensures |old(entries)| < 512 ==> old(entries).Keys <= entries.Keys
      ensures !Crowded(old(entries), now) ==> Live(old(entries), now).Keys <= entries.Keys
      ensures Crowded(old(entries), now) ==> entries.Keys == {k}
    {
      var kept := MakeRoom(entries, now);
      var entry := Entry(value, later + Clamp(Seconds(ttlSecs)));
      ghost var s := Stored(k, value, Seconds(ttlSecs), later);
      var entries' := kept[k := entry];
      ghost var history' := history + [s];
      PutKept(entries, kept, history, clock, s, entries', history');
      PutShape(entries, kept, k, entry, entries');
      entries, history, clock := entries', history', later;
    }
  }

  /** Storing over what was kept adds one key and otherwise shows what was kept. */
  lemma PutShape<K, V>(entries: map<K, Entry<V>>, kept: map<K, Entry<V>>, k: K, entry: Entry<V>, entries': map<K,
                       Entry<V>>)
    requires PartOf(kept, entries) && entries' == kept[k := entry]
    ensures k in entries' && entries'[k] == entry && PartOf(entries' - {k}, entries) && entries'.Keys == kept.Keys + {k}
  {
  }

  /** Full, and no entry has expired. */
  predicate Crowded<K, V>(entries: map<K, Entry<V>>, now: nat) {
    |entries| == 512 && AllLive(entries, now)
  }

  /** What is kept when something is about to be stored, whether its key is there already or not. */
  method MakeRoom<K(==), V>(entries: map<K, Entry<V>>, now: nat) returns (kept: map<K, Entry<V>>)
    requires |entries| <= MAX_ENTRIES
    ensures PartOf(kept, entries) && |kept| < MAX_ENTRIES
    ensures |entries| < MAX_ENTRIES ==> kept == entries
    ensures !Crowded(entries, now) ==> Live(entries, now).Keys <= kept.Keys
    ensures Crowded(entries, now) ==> kept == map[]
  {
    kept := entries;
    if |kept| >= MAX_ENTRIES {
      LiveSize(entries, now);
      kept := Live(entries, now);
      if |kept| >= MAX_ENTRIES { kept := map[]; }
    }
  }

  /** The keys below `n`, each with 300 seconds to live at time 0. */
  ghost predicate Filled(m: map<nat, Entry<nat>>, n: nat) {
    |m| == n && (forall k: nat :: k in m <==> k < n) && (forall k: nat :: k in m ==> m[k].expires == MAX_TTL)
  }

  method StoreNext(cache: DnsCache<nat, nat>, n: nat)
    requires cache.Valid() && cache.clock == 0 && Filled(cache.entries, n) && n < MAX_ENTRIES
    modifies cache
    ensures cache.Valid() && cache.clock == 0 && Filled(cache.entries, n + 1)
  {
    ghost var before := cache.entries;
    cache.Put(n, n, 300, 0, 0);
    FilledNext(before, cache.entries, n);
  }

  lemma FilledNext(before: map<nat, Entry<nat>>, after: map<nat, Entry<nat>>, n: nat)
    requires Filled(before, n) && n in after && PartOf(after - {n}, before) && before.Keys <= after.Keys
    requires after[n].expires == MAX_TTL
    ensures Filled(after, n + 1)
  {
    PutKeys(before, after, n);
    SizeOf(before, after, n);
    forall k: nat | k in before ensures after[k].expires == MAX_TTL { assert k in after - {n}; }
  }

  /**
   * A run of the resolver's cache: 512 names are stored for 300 seconds each, then the first of them is stored again at
   * once. The refresh leaves one entry; the other 511, none of them expired, are gone.
   */
  method RefreshEmptiesTable() returns (cache: DnsCache<nat, nat>, filled: nat)
    ensures fresh(cache) && filled == 512 && cache.entries.Keys == {0}
  {
    cache := new DnsCache<nat, nat>();
    for n := 0 to MAX_ENTRIES
      invariant fresh(cache) && cache.Valid() && cache.clock == 0 && Filled(cache.entries, n)
    {
      StoreNext(cache, n);
    }
    filled := |cache.entries|;
    StoreAgain(cache);
  }

  method StoreAgain(cache: DnsCache<nat, nat>)
    requires cache.Valid() && cache.clock == 0 && Filled(cache.entries, MAX_ENTRIES)
    modifies cache
    ensures cache.entries.Keys == {0}
  {
    assert Crowded(cache.entries, 0);
    cache.Put(0, 0, 300, 0, 0);
  }

  lemma PutKeys<K, V>(before: map<K, Entry<V>>, after: map<K, Entry<V>>, k: K)
    requires k in after && PartOf(after - {k}, before) && before.Keys <= after.Keys
    ensures after.Keys == before.Keys + {k}
  {
    forall j | j in after.Keys ensures j in before.Keys + {k} {
      if j != k { assert j in after - {k}; }
    }
  }

  lemma SizeOf<K, V>(before: map<K, V>, after: map<K, V>, k: K)
    requires k !in before && after.Keys == before.Keys + {k}
    ensures |after| == |before| + 1
  {
    assert |after| == |after.Keys| && |before| == |before.Keys|;
  }

  lemma NothingMissing<K(!new), V(!new)>(entries: map<K, Entry<V>>, h: seq<Stored<K, V>>, s: Stored<K, V>)
    requires Agrees(entries, h)
    ensures KeysOf(h + [s]) == KeysOf(h) + {s.key} && |KeysOf(h)| <= |KeysOf(h + [s])| && |entries| <= |KeysOf(h)|
  {
    LatestSnoc(h, s, s.key);
    KeysInHistory(entries, h);
    SubsetSize(KeysOf(h), KeysOf(h + [s]));
  }

  lemma InsertSize<K, V>(m: map<K, V>, k: K, v: V)
    ensures |m[k := v]| <= |m| + 1 && m[k := v].Keys == m.Keys + {k}
  {
    var n := m[k := v];
    assert n.Keys == m.Keys + {k};
    assert |n| == |n.Keys| && |m| == |m.Keys|;
  }

  // ---------------------------------------------------------------- the DNS-over-HTTPS client's cache

  ghost predicate Complete<K(!new), V(!new)>(entries: map<K, Entry<V>>, h: seq<Stored<K, V>>, clock: nat) {
    && |entries| <= MAX_ENTRIES
    && Agrees(entries, h)
    && Before(h, clock)
    && NothingLost(entries, h, clock, MAX_ENTRIES)
  }

  predicate Earliest<K, V>(entries: map<K, Entry<V>>, v: K) {
    v in entries && forall k :: k in entries ==> entries[v].expires <= entries[k].expires
  }

  method EarliestExpiry<K(==), V>(entries: map<K, Entry<V>>) returns (v: K)
    requires |entries| > 0
    ensures Earliest(entries, v)
  {
    assert entries.Keys != {};
    v :| v in entries;
    var left := entries.Keys - {v};
    while left != {}
      invariant v in entries && left <= entries.Keys
      invariant forall k :: k in entries && k !in left ==> entries[v].expires <= entries[k].expires
      decreases |left|
    {
      var k :| k in left;
      left := left - {k};
      if entries[k].expires < entries[v].expires { v := k; }
    }
  }

  /** What is kept when `k` is about to be stored. */
  ghost predicate Evicted<K(!new), V(!new)>(entries: map<K, Entry<V>>, kept: map<K, Entry<V>>, k: K, now: nat) {
    if k in entries || |entries| < MAX_ENTRIES then kept == entries
    else if !AllLive(entries, now) then kept == Live(entries, now)
    else exists v :: Earliest(entries, v) && kept == entries - {v}
  }

  method MakeRoomFor<K(==, !new), V(!new)>(entries: map<K, Entry<V>>, k: K, now: nat) returns (kept: map<K, Entry<V>>)
    requires |entries| <= MAX_ENTRIES
    ensures Evicted(entries, kept, k, now) && PartOf(kept, entries) && (k in kept || |kept| < MAX_ENTRIES)
  {
    kept := entries;
    if k !in entries && |entries| >= MAX_ENTRIES {
      LiveSize(entries, now);
      kept := Live(entries, now);
      if |kept| >= MAX_ENTRIES {
        assert kept == entries;
        var v := EarliestExpiry(kept);
        kept := kept - {v};
        RemoveSize(entries, v);
      }
    }
  }

  lemma RemoveSize<K, V>(m: map<K, V>, k: K)
    requires k in m
    ensures |m - {k}| == |m| - 1
  {
    assert (m - {k}).Keys == m.Keys - {k};
    assert |m - {k}| == |(m - {k}).Keys| && |m| == |m.Keys|;
  }

  lemma LookupLater<K(!new), V(!new)>(h: seq<Stored<K, V>>, k: K, clock: nat, now: nat)
    requires clock <= now && Lookup(h, k, now).Some?
    ensures Lookup(h, k, clock).Some?
  {
  }

  /** With at most 512 keys ever stored, a full table already has every key. */
  lemma FullHasAll<K(!new), V(!new)>(entries: map<K, Entry<V>>, h: seq<Stored<K, V>>, s: Stored<K, V>)
    requires Agrees(entries, h) && |entries| == MAX_ENTRIES && |KeysOf(h + [s])| <= MAX_ENTRIES
    ensures s.key in entries
  {
    LatestSnoc(h, s, s.key);
    KeysInHistory(entries, h);
    SubsetSize(entries.Keys, KeysOf(h + [s]));
    assert |entries| == |entries.Keys|;
  }

  lemma StillThere<K(!new), V(!new)>(entries: map<K, Entry<V>>, kept: map<K, Entry<V>>, h: seq<Stored<K, V>>,
                                     clock: nat,
                                     s: Stored<K, V>, k: K)
    requires Complete(entries, h, clock) && clock <= s.at && Evicted(entries, kept, s.key, s.at)
    requires |KeysOf(h + [s])| <= MAX_ENTRIES && k != s.key && Lookup(h + [s], k, s.at).Some?
    ensures k in kept
  {
    LatestSnoc(h, s, k);
    SubsetSize(KeysOf(h), KeysOf(h + [s]));
    LookupLater(h, k, clock, s.at);
    assert k in entries;
    HitAgrees(entries, h, k, s.at);
    if s.key !in entries && |entries| == MAX_ENTRIES { FullHasAll(entries, h, s); }
  }

  lemma StoreKept<K(!new), V(!new)>(entries: map<K, Entry<V>>, kept: map<K, Entry<V>>, h: seq<Stored<K, V>>, clock: nat,
                                    s: Stored<K, V>, entries': map<K, Entry<V>>, h': seq<Stored<K, V>>)
    requires Complete(entries, h, clock) && clock <= s.at
    requires entries' == kept[s.key := Entry(s.value, s.at + Clamp(s.ttl))] && h' == h + [s]
    requires Evicted(entries, kept, s.key, s.at) && PartOf(kept, entries) && (s.key in kept || |kept| < MAX_ENTRIES)
    ensures Complete(entries', h', s.at)
  {
    StoreAgrees(entries, kept, h, s);
    InsertSize(kept, s.key, Entry(s.value, s.at + Clamp(s.ttl)));
    if |KeysOf(h')| <= MAX_ENTRIES {
      forall k | Lookup(h', k, s.at).Some? ensures k in entries' {
        if k != s.key { StillThere(entries, kept, h, clock, s, k); }
      }
    }
  }

  lemma CachedKept<K(!new), V(!new)>(entries: map<K, Entry<V>>, h: seq<Stored<K, V>>, clock: nat, now: nat, k: K,
                                     entries': map<K, Entry<V>>)
    requires Complete(entries, h, clock) && clock <= now
    requires entries' == entries || (k in entries && entries[k].expires <= now && entries' == entries - {k})
    ensures Complete(entries', h, now)
  {
    if entries' != entries { RemoveSize(entries, k); }
    forall j | Lookup(h, j, now).Some? && j in entries ensures j in entries' { HitAgrees(entries, h, j, now); }
    forall j | Lookup(h, j, now).Some? ensures Lookup(h, j, clock).Some? { LookupLater(h, j, clock, now); }
  }

  /** A live entry that is gone was the only one to go, for a new key in a crowded table, and none expires before it. */
  ghost predicate OneVictim<K(!new), V(!new)>(before: map<K, Entry<V>>, k: K, now: nat, after: map<K, Entry<V>>) {
    k in after && forall j :: j in Live(before, now) && j !in after ==>
      && k !in before && Crowded(before, now) && Earliest(before, j) && after == (before - {j})[k := after[k]]
  }

  lemma StoreShape<K(!new), V(!new)>(entries: map<K, Entry<V>>, kept: map<K, Entry<V>>, k: K, entry: Entry<V>,
                                     entries': map<K, Entry<V>>, now: nat)
    requires |entries| <= MAX_ENTRIES && Evicted(entries, kept, k, now) && PartOf(kept, entries)
    requires entries' == kept[k := entry]
    ensures PartOf(entries' - {k}, entries) && OneVictim(entries, k, now, entries')
  {
  }

  class DohCache<K(==, !new), V(!new)> {
    var entries: map<K, Entry<V>>
    ghost var history: seq<Stored<K, V>>
    ghost var clock: nat

    ghost predicate Valid()
      reads this
    {
      Complete(entries, history, clock)
    }

    constructor ()
      ensures Valid() && history == [] && entries == map[] && clock == 0
    {
      entries, history, clock := map[], [], 0;
    }

    /** A hit is what the unbounded map answers; with at most 512 keys ever stored, so is a miss. Expired entries go. */
    method Cached(k: K, now: nat) returns (r: Option<V>)
      requires Valid() && clock <= now
      modifies `entries, `clock
      ensures Valid() && clock == now
      ensures r.Some? ==> r == Lookup(history, k, now)
      ensures k in old(entries) || |KeysOf(history)| <= 512 ==> r == Lookup(history, k, now)
      ensures entries == if r.Some? then old(entries) else old(entries) - {k}
    {
      r := None;
      var entries' := entries;
      if k in entries {
        HitAgrees(entries, history, k, now);
        if entries[k].expires > now { r := Some(entries[k].value); } else { entries' := entries - {k}; }
      }
      CachedKept(entries, history, clock, now, k, entries');
      entries, clock := entries', now;
      assert k !in old(entries) ==> old(entries) - {k} == old(entries);
    }

    /**
     * A store is recorded under its key and never exceeds the bound. A live entry of another key goes only when a new
     * key meets a full table without an expired entry; it is then the only one to go, and none expires before it.
     */
    method Store(k: K, value: V, ttl: nat, now: nat)
      requires Valid() && clock <= now
      modifies this
      ensures Valid() && clock == now && history == old(history) + [Stored(k, value, ttl, now)]
      ensures k in entries && entries[k] == Entry(value, now + Clamp(ttl))
      ensures PartOf(entries - {k}, old(entries))
      ensures OneVictim(old(entries), k, now, entries)
    {
      var kept := MakeRoomFor(entries, k, now);
      var entry := Entry(value, now + Clamp(ttl));
      ghost var s := Stored(k, value, ttl, now);
      var entries' := kept[k := entry];
      ghost var history' := history + [s];
      StoreKept(entries, kept, history, clock, s, entries', history');
      StoreShape(entries, kept, k, entry, entries', now);
      entries, history, clock := entries', history', now;
    }
  }
}
