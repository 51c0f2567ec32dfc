/** The context cache shared by any number of threads: the lock is held twice per miss and released around
    the provider call, and removals delete at the provider after the lock is released. */
module CacheConcurrency {
  import opened CacheManager

  datatype Caller =
    | Idle
    | Creating(hash: string)                                // missed, waiting for the provider
    | Holding(hash: string, id: CacheId, expiresAt: real)   // created, waiting for the lock
    | Purging(ids: seq<CacheId>)                            // entries taken out, deletes still to come

  datatype System = System(
    cache: Cache,
    created: map<CacheId, string>,
    deleted: set<CacheId>,
    clock: real,
    callers: seq<Caller>,
    maxEntries: int,
    ttl: real)

  datatype Action =
    | Tick(to: real)
    | Hit(hash: string)
    | Missed(hash: string, victim: string)
    | Created(id: CacheId)
    | Refused
    | Publish
    | Invalidate(hash: string)
    | Cleanup(now: real, ids: seq<CacheId>)
    | Clear(ids: seq<CacheId>)
    | Delete

  /** The ids of the entries under `keys`, in the order the loop will delete them. */
  ghost predicate IdsOf(store: map<string, Entry>, keys: set<string>, ids: seq<CacheId>) {
    forall id :: id in ids <==> exists k :: k in keys && k in store && store[k].id == id
  }

  function ExpiredKeys(store: map<string, Entry>, now: real): set<string> {
    set k | k in store && store[k].expiresAt <= now
  }

  /** When caller `i` may take an action. Clocks do not run backwards and provider ids are fresh; the
      clean-up reads the clock before it takes the lock. */
  ghost predicate Enabled(s: System, i: nat, a: Action) {
    && i < |s.callers|
    && match a
       case Tick(to) => s.clock <= to
       case Hit(hash) => s.callers[i].Idle? && Fresh(s.cache, hash, s.clock)
       case Missed(hash, victim) =>
         s.callers[i].Idle? && !Fresh(s.cache, hash, s.clock)
         && (Evicts(s.cache, s.maxEntries) ==> IsOldest(s.cache.store, victim))
       case Created(id) => s.callers[i].Creating? && id !in s.created
       case Refused => s.callers[i].Creating?
       case Publish => s.callers[i].Holding?
       case Invalidate(hash) => s.callers[i].Idle? && hash in s.cache.store
       case Cleanup(now, ids) =>
         s.callers[i].Idle? && now <= s.clock && IdsOf(s.cache.store, ExpiredKeys(s.cache.store, now), ids)
       case Clear(ids) => s.callers[i].Idle? && IdsOf(s.cache.store, s.cache.store.Keys, ids)
       case Delete => s.callers[i].Purging?
  }

  function Move(s: System, i: nat, to: Caller): System
    requires i < |s.callers|
  {
    s.(callers := s.callers[i := to])
  }

  ghost function Act(s: System, i: nat, a: Action): System
    requires Enabled(s, i, a)
  {
    match a
    case Tick(to) => s.(clock := to)
    case Hit(_) => s.(cache := s.cache.(hits := s.cache.hits + 1))
    case Missed(hash, victim) =>
      var (c, ids) := Miss(s.cache, hash, s.maxEntries, victim);
      Move(s.(cache := c, deleted := s.deleted + Elements(ids)), i, Creating(hash))
    case Created(id) =>
      var hash := s.callers[i].hash;
      Move(s.(created := s.created[id := hash]), i, Holding(hash, id, s.clock + s.ttl))
    case Refused => Move(s, i, Idle)
    case Publish =>
      var h := s.callers[i];
      Move(s.(cache := Put(s.cache, h.hash, Entry(h.id, h.expiresAt))), i, Idle)
    case Invalidate(hash) =>
      Move(s.(cache := Drop(s.cache, {hash})), i, Purging([s.cache.store[hash].id]))
    case Cleanup(now, ids) =>
      Move(s.(cache := Drop(s.cache, ExpiredKeys(s.cache.store, now))), i, Purging(ids))
    case Clear(ids) => Move(s.(cache := Drop(s.cache, s.cache.store.Keys)), i, Purging(ids))
    case Delete =>
      var ids := s.callers[i].ids;
      if ids == [] then Move(s, i, Idle)
      else
        Move(s.(deleted := s.deleted + {ids[0]}, cache := s.cache.(evictions := s.cache.evictions + 1)), i,
             Purging(ids[1..]))
  }

  function Start(n: nat, maxEntries: int, ttl: real, clock: real): System {
    System(Cache(map[], 0, 0, 0), map[], {}, clock, seq(n, _ => Idle), maxEntries, ttl)
  }

  /** A run is a sequence of states, each reached from the one before by some caller's enabled action. */
  ghost predicate IsRun(states: seq<System>, steps: seq<(nat, Action)>) {
    && |states| == |steps| + 1
    && forall k :: 0 <= k < |steps| ==>
         Enabled(states[k], steps[k].0, steps[k].1) && states[k + 1] == Act(states[k], steps[k].0, steps[k].1)
  }

  ghost predicate Begins(states: seq<System>, n: nat, maxEntries: int, ttl: real, clock: real) {
    states != [] && states[0] == Start(n, maxEntries, ttl, clock)
  }

  // ----- the bound -----

  predicate InGap(c: Caller) {
    c.Creating? || c.Holding?
  }

  function GapSize(callers: seq<Caller>): (n: nat)
    ensures n <= |callers|
  {
    if callers == [] then 0 else (if InGap(callers[0]) then 1 else 0) + GapSize(callers[1..])
  }

  lemma {:induction false} GapAfterMove(callers: seq<Caller>, i: nat, to: Caller)
    requires i < |callers|
    ensures GapSize(callers[i := to])
         == GapSize(callers) - (if InGap(callers[i]) then 1 else 0) + (if InGap(to) then 1 else 0)
  {
    if i == 0 {
      assert callers[0 := to][1..] == callers[1..];
    } else {
      GapAfterMove(callers[1..], i - 1, to);
      assert callers[i := to][1..] == callers[1..][i - 1 := to];
    }
  }

  /** Stored entries and callers in the gap together. */
  ghost predicate WithinBound(s: System) {
    |s.cache.store| + GapSize(s.callers) <= s.maxEntries + |s.callers| - 1
  }

  lemma GapBelow(callers: seq<Caller>, i: nat)
    requires i < |callers| && !InGap(callers[i])
    ensures GapSize(callers) < |callers|
  {
    GapAfterMove(callers, i, Creating(""));
  }

  lemma BoundAfter(s: System, s': System, i: nat)
    requires i < |s.callers| && |s'.callers| == |s.callers| && s'.callers == s.callers[i := s'.callers[i]]
    requires s'.maxEntries == s.maxEntries && WithinBound(s)
    requires |s'.cache.store| + (if InGap(s'.callers[i]) then 1 else 0)
          <= |s.cache.store| + (if InGap(s.callers[i]) then 1 else 0)
    ensures WithinBound(s')
  {
    GapAfterMove(s.callers, i, s'.callers[i]);
  }

  lemma MissedWithinBound(s: System, i: nat, a: Action)
    requires s.maxEntries >= 1 && Enabled(s, i, a) && a.Missed? && WithinBound(s)
    ensures WithinBound(Act(s, i, a))
  {
    GapAfterMove(s.callers, i, Creating(a.hash));
    MissMakesRoom(s.cache, a.hash, s.maxEntries, a.victim);
    GapBelow(s.callers, i);
  }

  lemma DropWithinBound(s: System, i: nat, keys: set<string>, ids: seq<CacheId>)
    requires i < |s.callers| && WithinBound(s)
    ensures WithinBound(Move(s.(cache := Drop(s.cache, keys)), i, Purging(ids)))
  {
    assert Drop(s.cache, keys).store.Keys <= s.cache.store.Keys;
    SubsetSize(Drop(s.cache, keys).store.Keys, s.cache.store.Keys);
    BoundAfter(s, Move(s.(cache := Drop(s.cache, keys)), i, Purging(ids)), i);
  }

  lemma PublishWithinBound(s: System, i: nat, a: Action)
    requires Enabled(s, i, a) && a.Publish? && WithinBound(s)
    ensures WithinBound(Act(s, i, a))
  {
    var s' := Act(s, i, a);
    assert s'.cache.store.Keys == s.cache.store.Keys + {s.callers[i].hash};
    BoundAfter(s, s', i);
  }

  lemma ActWithinBound(s: System, i: nat, a: Action)
    requires s.maxEntries >= 1 && Enabled(s, i, a) && WithinBound(s)
    ensures WithinBound(Act(s, i, a))
  {
    match a
    case Tick(_) =>
    case Hit(_) =>
    case Missed(_, _) => MissedWithinBound(s, i, a);
    case Publish => PublishWithinBound(s, i, a);
    case Invalidate(hash) => DropWithinBound(s, i, {hash}, [s.cache.store[hash].id]);
    case Cleanup(now, ids) => DropWithinBound(s, i, ExpiredKeys(s.cache.store, now), ids);
    case Clear(ids) => DropWithinBound(s, i, s.cache.store.Keys, ids);
    case _ => BoundAfter(s, Act(s, i, a), i);
  }

  /** With n threads and room for at least one entry, entries and pending insertions never exceed
      `maxEntries + n - 1`, through provider failures and every other operation; so a single thread never
      exceeds `maxEntries`. */
  lemma {:induction false} StoreStaysBounded(states: seq<System>, steps: seq<(nat, Action)>, n: nat, maxEntries: int,
                                             ttl: real, clock: real)
    requires n >= 1 && maxEntries >= 1
    requires Begins(states, n, maxEntries, ttl, clock) && IsRun(states, steps)
    ensures var s := states[|steps|];
            && |s.callers| == n && s.maxEntries == maxEntries
            && |s.cache.store| + GapSize(s.callers) <= maxEntries + n - 1
  {
    if steps == [] {
      NobodyInGap(n);
    } else {
      var k := |steps| - 1;
      StoreStaysBounded(states[..k + 1], steps[..k], n, maxEntries, ttl, clock);
      assert states[..k + 1][k] == states[k];
      ActWithinBound(states[k], steps[k].0, steps[k].1);
    }
  }

  lemma {:induction false} NobodyInGap(n: nat)
    ensures GapSize(seq(n, _ => Idle)) == 0
  {
    if n > 0 {
      NobodyInGap(n - 1);
      assert seq(n, _ => Idle)[1..] == seq(n - 1, _ => Idle);
    }
  }

  // ----- a hit is never a deleted cache -----

  /** Ids some caller still owns outside the store. */
  predicate Holds(s: System, i: nat, id: CacheId) {
    i < |s.callers| && s.callers[i].Holding? && s.callers[i].id == id
  }

  predicate Purges(s: System, i: nat, id: CacheId) {
    i < |s.callers| && s.callers[i].Purging? && id in s.callers[i].ids
  }

  ghost predicate StoredSound(s: System) {
    forall k :: k in s.cache.store ==>
      var e := s.cache.store[k];
      && e.id in s.created && s.created[e.id] == k
      && (e.id in s.deleted ==> e.expiresAt <= s.clock)
  }

  ghost predicate HeldSound(s: System) {
    && (forall i: nat, id: CacheId :: Holds(s, i, id) ==>
          id in s.created && s.created[id] == s.callers[i].hash && id !in s.deleted)
    && (forall i: nat, id: CacheId, k :: Holds(s, i, id) && k in s.cache.store ==> s.cache.store[k].id != id)
    && (forall i: nat, j: nat, id: CacheId :: Holds(s, i, id) && Holds(s, j, id) ==> i == j)
  }

  ghost predicate PurgedSound(s: System) {
    && (forall i: nat, id: CacheId :: Purges(s, i, id) ==> id in s.created)
    && (forall i: nat, id: CacheId, k :: Purges(s, i, id) && k in s.cache.store ==> s.cache.store[k].id != id)
    && (forall i: nat, j: nat, id: CacheId :: Purges(s, i, id) ==> !Holds(s, j, id))
  }

  ghost predicate Sound(s: System) {
    StoredSound(s) && HeldSound(s) && PurgedSound(s) && s.deleted <= s.created.Keys
  }

  lemma MissedSound(s: System, i: nat, a: Action)
    requires Sound(s) && Enabled(s, i, a) && a.Missed?
    ensures Sound(Act(s, i, a))
  {
    var s' := Act(s, i, a);
    var ids := Miss(s.cache, a.hash, s.maxEntries, a.victim).1;
    assert forall id :: id in ids ==> exists k :: k in s.cache.store && s.cache.store[k].id == id;
    assert forall j: nat, id: CacheId :: Holds(s', j, id) ==> Holds(s, j, id);
    assert forall j: nat, id: CacheId :: Purges(s', j, id) ==> Purges(s, j, id);
    forall k | k in s'.cache.store && s'.cache.store[k].id in ids
      ensures s'.cache.store[k].expiresAt <= s.clock
    {
      assert s.created[s.cache.store[k].id] == k;
    }
  }

  lemma TakenOutSound(s: System, i: nat, keys: set<string>, ids: seq<CacheId>)
    requires Sound(s) && i < |s.callers| && s.callers[i].Idle? && keys <= s.cache.store.Keys
    requires IdsOf(s.cache.store, keys, ids)
    ensures Sound(Move(s.(cache := Drop(s.cache, keys)), i, Purging(ids)))
  {
    var s' := Move(s.(cache := Drop(s.cache, keys)), i, Purging(ids));
    assert forall j: nat, id: CacheId :: Holds(s', j, id) <==> Holds(s, j, id);
    assert forall j: nat, id: CacheId :: Purges(s', j, id) <==> Purges(s, j, id) || (j == i && id in ids);
    forall id | id in ids
      ensures id in s.created && s.created[id] in keys
      ensures forall j: nat :: !Holds(s, j, id)
      ensures forall k :: k in s'.cache.store ==> s'.cache.store[k].id != id
    {
      var k :| k in keys && k in s.cache.store && s.cache.store[k].id == id;
    }
  }

  lemma CreatedSound(s: System, i: nat, a: Action)
    requires Sound(s) && Enabled(s, i, a) && a.Created?
    ensures Sound(Act(s, i, a))
  {
    var s' := Act(s, i, a);
    assert forall j: nat, id: CacheId :: Holds(s', j, id) <==> Holds(s, j, id) || (j == i && id == a.id);
    assert forall j: nat, id: CacheId :: Purges(s', j, id) <==> Purges(s, j, id);
  }

  lemma PublishSound(s: System, i: nat, a: Action)
    requires Sound(s) && Enabled(s, i, a) && a.Publish?
    ensures Sound(Act(s, i, a))
  {
    var s' := Act(s, i, a);
    assert Holds(s, i, s.callers[i].id);
    assert forall j: nat, id: CacheId :: Holds(s', j, id) <==> Holds(s, j, id) && j != i;
    assert forall j: nat, id: CacheId :: Purges(s', j, id) <==> Purges(s, j, id);
  }

  lemma DeleteSound(s: System, i: nat, a: Action)
    requires Sound(s) && Enabled(s, i, a) && a.Delete?
    ensures Sound(Act(s, i, a))
  {
    var s', ids := Act(s, i, a), s.callers[i].ids;
    assert forall j: nat, id: CacheId :: Holds(s', j, id) <==> Holds(s, j, id);
    assert forall j: nat, id: CacheId :: Purges(s', j, id) ==> Purges(s, j, id);
    if ids != [] {
      assert Purges(s, i, ids[0]);
    }
  }

  lemma ActSound(s: System, i: nat, a: Action)
    requires Sound(s) && Enabled(s, i, a)
    ensures Sound(Act(s, i, a))
  {
    match a
    case Missed(_, _) => MissedSound(s, i, a);
    case Created(_) => CreatedSound(s, i, a);
    case Publish => PublishSound(s, i, a);
    case Invalidate(hash) => TakenOutSound(s, i, {hash}, [s.cache.store[hash].id]);
    case Cleanup(now, ids) => TakenOutSound(s, i, ExpiredKeys(s.cache.store, now), ids);
    case Clear(ids) => TakenOutSound(s, i, s.cache.store.Keys, ids);
    case Delete => DeleteSound(s, i, a);
    case Refused =>
      var s' := Act(s, i, a);
      assert forall j: nat, id: CacheId :: Holds(s', j, id) <==> Holds(s, j, id);
      assert forall j: nat, id: CacheId :: Purges(s', j, id) <==> Purges(s, j, id);
    case _ =>
      var s' := Act(s, i, a);
      assert forall j: nat, id: CacheId :: Holds(s', j, id) <==> Holds(s, j, id);
      assert forall j: nat, id: CacheId :: Purges(s', j, id) <==> Purges(s, j, id);
  }

  lemma {:induction false} EveryRunIsSound(states: seq<System>, steps: seq<(nat, Action)>, n: nat, maxEntries: int,
                                           ttl: real, clock: real)
    requires Begins(states, n, maxEntries, ttl, clock) && IsRun(states, steps)
    ensures Sound(states[|steps|]) && |states[|steps|].callers| == n
  {
    if steps != [] {
      var k := |steps| - 1;
      EveryRunIsSound(states[..k + 1], steps[..k], n, maxEntries, ttl, clock);
      assert states[..k + 1][k] == states[k];
      ActSound(states[k], steps[k].0, steps[k].1);
    }
  }

  /** Under every interleaving a hit returns an id the provider made for that very hash, and on which no
      delete has been called. */
  lemma HitsAreAlive(states: seq<System>, steps: seq<(nat, Action)>, n: nat, maxEntries: int, ttl: real, clock: real,
                     hash: string)
    requires Begins(states, n, maxEntries, ttl, clock) && IsRun(states, steps)
    requires Fresh(states[|steps|].cache, hash, states[|steps|].clock)
    ensures var s := states[|steps|];
            var id := s.cache.store[hash].id;
            id in s.created && s.created[id] == hash && id !in s.deleted
  {
    EveryRunIsSound(states, steps, n, maxEntries, ttl, clock);
  }

  // ----- an entry that is still good is kept -----

  /** The store holds this entry. */
  predicate Stores(s: System, hash: string, e: Entry) {
    hash in s.cache.store && s.cache.store[hash] == e
  }

  /** What takes an entry out of the store, or puts another in its place. */
  predicate Removes(s: System, i: nat, a: Action, hash: string, e: Entry)
    requires i < |s.callers|
  {
    match a
    case Invalidate(other) => other == hash
    case Clear(_) => true
    case Cleanup(now, _) => e.expiresAt <= now
    case Missed(_, victim) => victim == hash && |s.cache.store| >= s.maxEntries
    case Publish => s.callers[i].Holding? && s.callers[i].hash == hash
    case _ => false
  }

  /** An entry leaves the store exactly by an invalidation of its context, by clearing all, by a clean-up after it has
      expired, by an eviction from a full store, or when a thread publishes another entry for its context. */
  lemma EntryStaysIff(s: System, i: nat, a: Action, hash: string, e: Entry)
    requires Sound(s) && Enabled(s, i, a) && Stores(s, hash, e)
    ensures Stores(Act(s, i, a), hash, e) <==> !Removes(s, i, a, hash, e)
  {
    match a
    case Missed(other, victim) => MissKeeps(s.cache, other, s.maxEntries, victim);
    case Publish => assert Holds(s, i, s.callers[i].id);
    case _ =>
  }

  /** The action evicts, and what it evicts expires first. */
  lemma EvictsOldest(s: System, i: nat, a: Action, hash: string)
    requires Enabled(s, i, a) && a.Missed? && hash in s.cache.store && Removes(s, i, a, hash, s.cache.store[hash])
    ensures forall k :: k in s.cache.store ==> s.cache.store[hash].expiresAt <= s.cache.store[k].expiresAt
  {
  }

  /** Over every run, an entry stays for all threads to hit until it expires, unless one of those actions took it; no
      clean-up does. */
  lemma {:induction false} GoodEntryStays(states: seq<System>, steps: seq<(nat, Action)>, n: nat, maxEntries: int,
                                          ttl: real, clock: real, from: nat, hash: string, e: Entry)
    requires Begins(states, n, maxEntries, ttl, clock) && IsRun(states, steps)
    requires from <= |steps| && Stores(states[from], hash, e) && e.expiresAt > states[|steps|].clock
    requires forall k :: from <= k < |steps| && !steps[k].1.Cleanup? ==>
               !Removes(states[k], steps[k].0, steps[k].1, hash, e)
    ensures Stores(states[|steps|], hash, e) && Fresh(states[|steps|].cache, hash, states[|steps|].clock)
    decreases |steps|
  {
    if from < |steps| {
      var k := |steps| - 1;
      assert states[..k + 1][k] == states[k];
      assert states[k].clock <= states[k + 1].clock;
      GoodEntryStays(states[..k + 1], steps[..k], n, maxEntries, ttl, clock, from, hash, e);
      EveryRunIsSound(states[..k + 1], steps[..k], n, maxEntries, ttl, clock);
      EntryStaysIff(states[k], steps[k].0, steps[k].1, hash, e);
    }
  }

  // ----- the counters -----

  function Hits(steps: seq<(nat, Action)>): nat {
    if steps == [] then 0 else Hits(steps[..|steps| - 1]) + (if steps[|steps| - 1].1.Hit? then 1 else 0)
  }

  function Misses(steps: seq<(nat, Action)>): nat {
    if steps == [] then 0 else Misses(steps[..|steps| - 1]) + (if steps[|steps| - 1].1.Missed? then 1 else 0)
  }

  lemma ActCounts(s: System, i: nat, a: Action)
    requires Enabled(s, i, a)
    ensures var s' := Act(s, i, a);
            && s'.cache.hits == s.cache.hits + (if a.Hit? then 1 else 0)
            && s'.cache.misses == s.cache.misses + (if a.Missed? then 1 else 0)
            && |s'.deleted| - |s.deleted| <= s'.cache.evictions - s.cache.evictions
  {
    if a.Missed? {
      MissKeeps(s.cache, a.hash, s.maxEntries, a.victim);
      UnionSize(s.deleted, Miss(s.cache, a.hash, s.maxEntries, a.victim).1);
    }
  }

  predicate Counted(s: System, steps: seq<(nat, Action)>) {
    s.cache.hits == Hits(steps) && s.cache.misses == Misses(steps) && |s.deleted| <= s.cache.evictions
  }

  lemma ActCounted(s: System, steps: seq<(nat, Action)>, step: (nat, Action))
    requires Counted(s, steps) && Enabled(s, step.0, step.1)
    ensures Counted(Act(s, step.0, step.1), steps + [step])
  {
    ActCounts(s, step.0, step.1);
    assert (steps + [step])[..|steps|] == steps;
  }

  /** Hits and misses are counted one by one, and every deleted id raises the evictions. */
  lemma {:induction false} CountersCount(states: seq<System>, steps: seq<(nat, Action)>, n: nat, maxEntries: int,
                                         ttl: real, clock: real)
    requires Begins(states, n, maxEntries, ttl, clock) && IsRun(states, steps)
    ensures Counted(states[|steps|], steps)
  {
    if steps != [] {
      var k := |steps| - 1;
      CountersCount(states[..k + 1], steps[..k], n, maxEntries, ttl, clock);
      assert states[..k + 1][k] == states[k] && steps == steps[..k] + [steps[k]];
      ActCounted(states[k], steps[..k], steps[k]);
    }
  }

  lemma {:induction false} UnionSize(deleted: set<CacheId>, ids: seq<CacheId>)
    ensures |deleted + Elements(ids)| <= |deleted| + |ids|
  {
    if ids == [] {
      assert deleted + Elements(ids) == deleted;
    } else {
      UnionSize(deleted, ids[1..]);
      assert ids == [ids[0]] + ids[1..];
      assert deleted + Elements(ids) == deleted + Elements(ids[1..]) + {ids[0]};
    }
  }

  // ----- leaks -----

  /** A created id that nobody will ever use or delete again. */
  ghost predicate Leaked(s: System, id: CacheId) {
    && id in s.created && id !in s.deleted
    && (forall k :: k in s.cache.store ==> s.cache.store[k].id != id)
    && (forall i: nat :: !Holds(s, i, id) && !Purges(s, i, id))
  }

  /** A step leaks an id exactly when it publishes over an entry whose id was not deleted: two threads
      missed on the same context. */
  lemma StepLeaksIff(s: System, i: nat, a: Action, id: CacheId)
    requires Sound(s) && Enabled(s, i, a) && !Leaked(s, id)
    ensures Leaked(Act(s, i, a), id) <==>
              && a.Publish?
              && s.callers[i].hash in s.cache.store
              && s.cache.store[s.callers[i].hash].id == id
              && id !in s.deleted
  {
    var s' := Act(s, i, a);
    assert forall j: nat :: j != i ==> Holds(s', j, id) == Holds(s, j, id) && Purges(s', j, id) == Purges(s, j, id);
    match a
    case Publish => PublishLeaksIff(s, i, a, id);
    case Created(made) => assert Holds(s', i, made);
    case Invalidate(hash) => RemovalLeaksNothing(s, i, {hash}, [s.cache.store[hash].id], id);
    case Cleanup(now, ids) => RemovalLeaksNothing(s, i, ExpiredKeys(s.cache.store, now), ids, id);
    case Clear(ids) => RemovalLeaksNothing(s, i, s.cache.store.Keys, ids, id);
    case Missed(hash, victim) =>
      if exists k :: k in s.cache.store && s.cache.store[k].id == id {
        var k :| k in s.cache.store && s.cache.store[k].id == id;
        assert k in s'.cache.store ==> s'.cache.store[k].id == id;
      }
    case Delete =>
      if s.callers[i].ids != [] {
        assert Purges(s', i, id) || id == s.callers[i].ids[0] || !Purges(s, i, id);
      }
    case _ => assert forall j: nat :: Holds(s', j, id) == Holds(s, j, id) && Purges(s', j, id) == Purges(s, j, id);
  }

  lemma RemovalKeepsLeaked(s: System, i: nat, keys: set<string>, ids: seq<CacheId>, id: CacheId)
    requires i < |s.callers| && IdsOf(s.cache.store, keys, ids) && Leaked(s, id)
    ensures Leaked(Move(s.(cache := Drop(s.cache, keys)), i, Purging(ids)), id)
  {
    var s' := Move(s.(cache := Drop(s.cache, keys)), i, Purging(ids));
    assert id !in ids;
    assert forall j: nat :: j != i ==> Holds(s', j, id) == Holds(s, j, id) && Purges(s', j, id) == Purges(s, j, id);
  }

  lemma MissKeepsLeaked(s: System, i: nat, a: Action, id: CacheId)
    requires Enabled(s, i, a) && Leaked(s, id) && a.Missed?
    ensures Leaked(Act(s, i, a), id)
  {
    var s' := Act(s, i, a);
    assert id !in Miss(s.cache, a.hash, s.maxEntries, a.victim).1;
    assert forall j: nat :: j != i ==> Holds(s', j, id) == Holds(s, j, id) && Purges(s', j, id) == Purges(s, j, id);
  }

  /** What is leaked stays leaked. */
  lemma LeakedStaysLeaked(s: System, i: nat, a: Action, id: CacheId)
    requires Sound(s) && Enabled(s, i, a) && Leaked(s, id)
    ensures Leaked(Act(s, i, a), id)
  {
    var s' := Act(s, i, a);
    assert !Holds(s, i, id) && !Purges(s, i, id);
    match a
    case Invalidate(hash) => RemovalKeepsLeaked(s, i, {hash}, [s.cache.store[hash].id], id);
    case Cleanup(now, ids) => RemovalKeepsLeaked(s, i, ExpiredKeys(s.cache.store, now), ids, id);
    case Clear(ids) => RemovalKeepsLeaked(s, i, s.cache.store.Keys, ids, id);
    case Missed(_, _) => MissKeepsLeaked(s, i, a, id);
    case _ =>
      assert forall j: nat :: j != i ==> Holds(s', j, id) == Holds(s, j, id) && Purges(s', j, id) == Purges(s, j, id);
  }

  /** Step `k` publishes over the entry of `id`, which was not deleted. */
  ghost predicate PublishesOver(states: seq<System>, steps: seq<(nat, Action)>, k: nat, id: CacheId)
    requires IsRun(states, steps) && k < |steps|
  {
    var s := states[k];
    && steps[k].1.Publish?
    && s.callers[steps[k].0].hash in s.cache.store
    && s.cache.store[s.callers[steps[k].0].hash].id == id
    && id !in s.deleted
  }

  /** On every run, an id is leaked at the end exactly when some step published over its entry undeleted. */
  lemma {:induction false} LeakedIffPublishedOver(states: seq<System>, steps: seq<(nat, Action)>, n: nat,
                                                  maxEntries: int, ttl: real, clock: real, id: CacheId)
    requires Begins(states, n, maxEntries, ttl, clock) && IsRun(states, steps)
    ensures Leaked(states[|steps|], id) <==> exists k: nat :: k < |steps| && PublishesOver(states, steps, k, id)
  {
    if steps != [] {
      var last := |steps| - 1;
      var before, taken := states[..last + 1], steps[..last];
      LeakedIffPublishedOver(before, taken, n, maxEntries, ttl, clock, id);
      EveryRunIsSound(before, taken, n, maxEntries, ttl, clock);
      assert before[last] == states[last];
      assert forall k: nat :: k < last ==>
        (PublishesOver(before, taken, k, id) <==> PublishesOver(states, steps, k, id));
      if Leaked(states[last], id) {
        LeakedStaysLeaked(states[last], steps[last].0, steps[last].1, id);
        var k: nat :| k < last && PublishesOver(before, taken, k, id);
        assert PublishesOver(states, steps, k, id);
      } else {
        StepLeaksIff(states[last], steps[last].0, steps[last].1, id);
        assert Leaked(states[|steps|], id) <==> PublishesOver(states, steps, last, id);
      }
    }
  }

  lemma PublishLeaksIff(s: System, i: nat, a: Action, id: CacheId)
    requires Sound(s) && Enabled(s, i, a) && !Leaked(s, id) && a.Publish?
    ensures Leaked(Act(s, i, a), id) <==>
              s.callers[i].hash in s.cache.store && s.cache.store[s.callers[i].hash].id == id && id !in s.deleted
  {
    var s', h := Act(s, i, a), s.callers[i];
    assert Holds(s, i, h.id);
    assert s'.cache.store[h.hash].id == h.id;
    assert forall j: nat :: Holds(s', j, id) <==> Holds(s, j, id) && j != i;
    assert forall j: nat :: Purges(s', j, id) <==> Purges(s, j, id);
    if exists k :: k in s.cache.store && s.cache.store[k].id == id {
      var k :| k in s.cache.store && s.cache.store[k].id == id;
      assert k != h.hash ==> s'.cache.store[k].id == id;
    }
    if h.hash in s.cache.store && s.cache.store[h.hash].id == id && id !in s.deleted {
      assert forall k :: k in s'.cache.store ==> s'.cache.store[k].id != id;
    }
  }

  lemma RemovalLeaksNothing(s: System, i: nat, keys: set<string>, ids: seq<CacheId>, id: CacheId)
    requires Sound(s) && i < |s.callers| && s.callers[i].Idle? && IdsOf(s.cache.store, keys, ids) && !Leaked(s, id)
    ensures !Leaked(Move(s.(cache := Drop(s.cache, keys)), i, Purging(ids)), id)
  {
    var s' := Move(s.(cache := Drop(s.cache, keys)), i, Purging(ids));
    assert forall j: nat :: Holds(s, j, id) ==> Holds(s', j, id);
    assert forall j: nat :: Purges(s, j, id) ==> Purges(s', j, id);
    if exists k :: k in s.cache.store && s.cache.store[k].id == id {
      var k :| k in s.cache.store && s.cache.store[k].id == id;
      if k in keys {
        assert Purges(s', i, id);
      } else {
        assert s'.cache.store[k].id == id;
      }
    }
  }

  /** A single caller in the gap finds its old entry, if any, already deleted. */
  ghost predicate Alone(s: System) {
    && |s.callers| == 1
    && (InGap(s.callers[0]) && s.callers[0].hash in s.cache.store ==> s.cache.store[s.callers[0].hash].id in s.deleted)
    && (forall id :: !Leaked(s, id))
  }

  lemma ActAlone(s: System, i: nat, a: Action)
    requires Sound(s) && Enabled(s, i, a) && Alone(s)
    ensures Alone(Act(s, i, a))
  {
    forall id
      ensures !Leaked(Act(s, i, a), id)
    {
      StepLeaksIff(s, i, a, id);
    }
  }

  /** With one thread nothing leaks, whatever the provider does: every id ever created is stored, held by
      the thread, about to be deleted, or deleted. */
  lemma {:induction false} OneThreadLeaksNothing(states: seq<System>, steps: seq<(nat, Action)>, maxEntries: int,
                                                 ttl: real, clock: real)
    requires Begins(states, 1, maxEntries, ttl, clock) && IsRun(states, steps)
    ensures Alone(states[|steps|])
  {
    if steps != [] {
      var k := |steps| - 1;
      OneThreadLeaksNothing(states[..k + 1], steps[..k], maxEntries, ttl, clock);
      EveryRunIsSound(states[..k + 1], steps[..k], 1, maxEntries, ttl, clock);
      assert states[..k + 1][k] == states[k];
      ActAlone(states[k], steps[k].0, steps[k].1);
    }
  }

  function Two(maxEntries: int, ttl: real, store: map<string, Entry>, misses: nat, created: map<CacheId, string>,
               a: Caller, b: Caller): System {
    System(Cache(store, 0, misses, 0), created, {}, 0.0, [a, b], maxEntries, ttl)
  }

  lemma MissOnEmpty(maxEntries: int, ttl: real, misses: nat, a: Caller, b: Caller, i: nat, hash: string)
    requires maxEntries >= 1 && i < 2 && (if i == 0 then a else b) == Idle
    ensures var s := Two(maxEntries, ttl, map[], misses, map[], a, b);
            && Enabled(s, i, Missed(hash, ""))
            && Act(s, i, Missed(hash, ""))
               == Two(maxEntries, ttl, map[], misses + 1, map[],
                      if i == 0 then Creating(hash) else a, if i == 1 then Creating(hash) else b)
  {
    assert Elements([]) == {};
  }

  lemma CreatedAfterMiss(maxEntries: int, ttl: real, created: map<CacheId, string>, a: Caller, b: Caller, i: nat,
                         hash: string, id: CacheId)
    requires i < 2 && (if i == 0 then a else b) == Creating(hash) && id !in created
    ensures var s := Two(maxEntries, ttl, map[], 2, created, a, b);
            && Enabled(s, i, Created(id))
            && Act(s, i, Created(id))
               == Two(maxEntries, ttl, map[], 2, created[id := hash],
                      if i == 0 then Holding(hash, id, ttl) else a, if i == 1 then Holding(hash, id, ttl) else b)
  {
  }

  lemma PublishedAfterCreation(maxEntries: int, ttl: real, store: map<string, Entry>, created: map<CacheId, string>,
                               a: Caller, b: Caller, i: nat, hash: string, id: CacheId)
    requires i < 2 && (if i == 0 then a else b) == Holding(hash, id, ttl)
    ensures var s := Two(maxEntries, ttl, store, 2, created, a, b);
            && Enabled(s, i, Publish)
            && Act(s, i, Publish)
               == Two(maxEntries, ttl, store[hash := Entry(id, ttl)], 2, created,
                      if i == 0 then Idle else a, if i == 1 then Idle else b)
  {
  }

  /** Two threads that miss on the same context leak the id published first. */
  lemma TwoThreadsCanLeak(maxEntries: int, ttl: real, hash: string)
    returns (states: seq<System>, steps: seq<(nat, Action)>)
    requires maxEntries >= 1
    ensures Begins(states, 2, maxEntries, ttl, 0.0) && IsRun(states, steps)
    ensures Leaked(states[|steps|], 7)
  {
    var waiting, first, second := Creating(hash), Holding(hash, 7, ttl), Holding(hash, 8, ttl);
    var one, both := map[7 := hash], map[7 := hash][8 := hash];
    var old1, new1 := map[hash := Entry(7, ttl)], map[hash := Entry(7, ttl)][hash := Entry(8, ttl)];
    MissOnEmpty(maxEntries, ttl, 0, Idle, Idle, 0, hash);
    MissOnEmpty(maxEntries, ttl, 1, waiting, Idle, 1, hash);
    CreatedAfterMiss(maxEntries, ttl, map[], waiting, waiting, 0, hash, 7);
    CreatedAfterMiss(maxEntries, ttl, one, first, waiting, 1, hash, 8);
    PublishedAfterCreation(maxEntries, ttl, map[], both, first, second, 0, hash, 7);
    PublishedAfterCreation(maxEntries, ttl, old1, both, Idle, second, 1, hash, 8);
    states := [
      Two(maxEntries, ttl, map[], 0, map[], Idle, Idle),
      Two(maxEntries, ttl, map[], 1, map[], waiting, Idle),
      Two(maxEntries, ttl, map[], 2, map[], waiting, waiting),
      Two(maxEntries, ttl, map[], 2, one, first, waiting),
      Two(maxEntries, ttl, map[], 2, both, first, second),
      Two(maxEntries, ttl, old1, 2, both, Idle, second),
      Two(maxEntries, ttl, new1, 2, both, Idle, Idle)];
    steps := [(0, Missed(hash, "")), (1, Missed(hash, "")), (0, Created(7)), (1, Created(8)), (0, Publish),
              (1, Publish)];
    assert Start(2, maxEntries, ttl, 0.0).callers == [Idle, Idle];
  }
}
