/** The context cache of one process, as its single caller sees it. */
module CacheManager {
  import opened Outcomes

  type CacheId = nat

  datatype Entry = Entry(id: CacheId, expiresAt: real)

  /** Entries by context hash, with the three counters. */
  datatype Cache = Cache(store: map<string, Entry>, hits: nat, misses: nat, evictions: nat)

  // ----- the hash -----

  /** The text whose digest is the context hash; the digest itself is taken to be injective. */
  function HashInput(prompt: string, context: string): string {
    prompt + ['\0'] + context
  }

  lemma SplitAtNul(p: string, c: string, k: nat)
    requires k < |HashInput(p, c)| && HashInput(p, c)[k] == '\0'
    ensures HashInput(HashInput(p, c)[..k], HashInput(p, c)[k + 1..]) == HashInput(p, c)
  {
  }

  lemma SameSplit(p: string, c: string, p': string, c': string)
    requires HashInput(p, c) == HashInput(p', c') && |p| == |p'|
    ensures p == p' && c == c'
  {
    var h, h' := HashInput(p, c), HashInput(p', c');
    assert h[..|p|] == p && h'[..|p'|] == p' && h[|p| + 1..] == c && h'[|p'| + 1..] == c';
  }

  ghost predicate SharesHash(p: string, c: string) {
    exists p', c' :: HashInput(p', c') == HashInput(p, c) && (p' != p || c' != c)
  }

  /** Another context has the same hash exactly when the prompt or the context holds a NUL character. */
  lemma SharedHashIff(p: string, c: string)
    ensures SharesHash(p, c) <==> '\0' in p || '\0' in c
  {
    var h := HashInput(p, c);
    if SharesHash(p, c) {
      var p', c' :| HashInput(p', c') == h && (p' != p || c' != c);
      if |p'| == |p| {
        SameSplit(p, c, p', c');
      }
      assert h[|p'|] == '\0';
      assert if |p'| < |p| then p[|p'|] == '\0' else c[|p'| - |p| - 1] == '\0';
    }
    if '\0' in p || '\0' in c {
      var k: nat :| k < |h| && k != |p| && h[k] == '\0' by {
        if '\0' in p {
          var i :| 0 <= i < |p| && p[i] == '\0';
          assert h[i] == '\0';
        } else {
          var i :| 0 <= i < |c| && c[i] == '\0';
          assert h[|p| + 1 + i] == '\0';
        }
      }
      SplitAtNul(p, c, k);
      assert h[..k] != p;
    }
  }

  // ----- what happens under the lock -----

  predicate Fresh(c: Cache, hash: string, now: real) {
    hash in c.store && c.store[hash].expiresAt > now
  }

  predicate IsOldest(store: map<string, Entry>, key: string) {
    key in store && forall k :: k in store ==> store[key].expiresAt <= store[k].expiresAt
  }

  /** The cache is full, so a miss evicts. */
  predicate Evicts(c: Cache, maxEntries: int) {
    |c.store| >= maxEntries && c.store != map[]
  }

  /** The first locked section of a miss: the cache left behind, and the ids deleted at the provider. An
      expired entry is deleted there but stays in the store. */
  function Miss(c: Cache, hash: string, maxEntries: int, victim: string): (Cache, seq<CacheId>)
    requires Evicts(c, maxEntries) ==> victim in c.store
  {
    var expired := if hash in c.store then [c.store[hash].id] else [];
    var evicted := if Evicts(c, maxEntries) then [c.store[victim].id] else [];
    (Cache(if Evicts(c, maxEntries) then c.store - {victim} else c.store,
           c.hits, c.misses + 1, c.evictions + |expired| + |evicted|),
     expired + evicted)
  }

  /** The second locked section. */
  function Put(c: Cache, hash: string, entry: Entry): Cache {
    c.(store := c.store[hash := entry])
  }

  function Drop(c: Cache, keys: set<string>): Cache {
    c.(store := c.store - keys)
  }

  // ----- the provider, as a record of what it was asked -----

  class Provider {
    var created: map<CacheId, string>
    var deletes: seq<CacheId>

    constructor ()
      ensures created == map[] && deletes == []
    {
      created, deletes := map[], [];
    }

    /** `answer` is the id of the new remote cache, or the provider's failure. */
    method CreateContextCache(hash: string, answer: Outcome<CacheId>)
      modifies this`created
      ensures created == if answer.Ok? then old(created)[answer.value := hash] else old(created)
    {
      if answer.Ok? {
        created := created[answer.value := hash];
      }
    }

    method DeleteContextCache(id: CacheId)
      modifies this`deletes
      ensures deletes == old(deletes) + [id]
    {
      deletes := deletes + [id];
    }
  }

  // ----- the manager -----

  function Ids(store: map<string, Entry>): set<CacheId> {
    set k | k in store :: store[k].id
  }

  function Elements(ids: seq<CacheId>): set<CacheId> {
    set id | id in ids
  }

  /** The ids ever created are those stored and those deleted, so nothing leaks; the eviction counter counts the
      provider deletes. */
  ghost predicate Accounted(c: Cache, created: map<CacheId, string>, deletes: seq<CacheId>) {
    && created.Keys == Ids(c.store) + Elements(deletes)
    && c.evictions == |deletes|
  }

  /** Every stored id was made for its key. */
  ghost predicate MadeForKey(store: map<string, Entry>, created: map<CacheId, string>) {
    forall k :: k in store ==> store[k].id in created && created[store[k].id] == k
  }

  /** Deleting a stored id at the provider, without taking its entry out. */
  lemma DeleteAccounted(c: Cache, key: string, created: map<CacheId, string>, deletes: seq<CacheId>)
    requires Accounted(c, created, deletes) && key in c.store
    ensures Accounted(c.(evictions := c.evictions + 1), created, deletes + [c.store[key].id])
  {
    var id := c.store[key].id;
    assert Elements(deletes + [id]) == Elements(deletes) + {id};
  }

  /** Taking an entry out whose id has been deleted. */
  lemma DropAccounted(c: Cache, key: string, created: map<CacheId, string>, deletes: seq<CacheId>)
    requires Accounted(c, created, deletes) && key in c.store && c.store[key].id in deletes
    ensures Accounted(c.(store := c.store - {key}), created, deletes)
  {
    var after := c.store - {key};
    forall id | id in Ids(c.store)
      ensures id in Ids(after) + Elements(deletes)
    {
      var k :| k in c.store && c.store[k].id == id;
      assert k != key ==> k in after && after[k].id == id;
    }
  }

  lemma MissAccounted(c: Cache, hash: string, maxEntries: int, victim: string, created: map<CacheId, string>,
                      deletes: seq<CacheId>)
    requires Accounted(c, created, deletes)
    requires Evicts(c, maxEntries) ==> victim in c.store
    ensures var m := Miss(c, hash, maxEntries, victim);
            Accounted(m.0, created, deletes + m.1) && (hash in m.0.store ==> m.0.store[hash].id in m.1)
  {
    var c1, d1 := c, deletes;
    if hash in c.store {
      DeleteAccounted(c, hash, created, deletes);
      c1, d1 := c.(evictions := c.evictions + 1), deletes + [c.store[hash].id];
    }
    if Evicts(c, maxEntries) {
      DeleteAccounted(c1, victim, created, d1);
      var c2, d2 := c1.(evictions := c1.evictions + 1), d1 + [c.store[victim].id];
      DropAccounted(c2, victim, created, d2);
      assert d2 == deletes + Miss(c, hash, maxEntries, victim).1;
    } else {
      assert d1 == deletes + Miss(c, hash, maxEntries, victim).1;
    }
  }

  /** A miss makes room. */
  lemma MissMakesRoom(c: Cache, hash: string, maxEntries: int, victim: string)
    requires Evicts(c, maxEntries) ==> victim in c.store
    ensures Evicts(c, maxEntries) ==> |Miss(c, hash, maxEntries, victim).0.store| == |c.store| - 1
    ensures !Evicts(c, maxEntries) ==> Miss(c, hash, maxEntries, victim).0.store == c.store
  {
    if Evicts(c, maxEntries) {
      assert Miss(c, hash, maxEntries, victim).0.store.Keys == c.store.Keys - {victim};
    }
  }

  /** A miss below capacity keeps every entry, and deletes at most the expired id of its own hash; at capacity it takes
      out the victim and nothing else. */
  lemma MissKeeps(c: Cache, hash: string, maxEntries: int, victim: string)
    requires c.store != map[] && |c.store| >= maxEntries ==> victim in c.store
    ensures var (after, ids) := Miss(c, hash, maxEntries, victim);
            var expired := if hash in c.store then [c.store[hash].id] else [];
            && (|c.store| < maxEntries || c.store == map[] ==> after.store == c.store && ids == expired)
            && (c.store != map[] && |c.store| >= maxEntries ==>
                  && after.store.Keys == c.store.Keys - {victim} && |after.store| == |c.store| - 1
                  && (forall k :: k in after.store ==> after.store[k] == c.store[k])
                  && ids == expired + [c.store[victim].id])
            && after.misses == c.misses + 1 && after.hits == c.hits && after.evictions == c.evictions + |ids|
  {
    if c.store != map[] && |c.store| >= maxEntries {
      MissMakesRoom(c, hash, maxEntries, victim);
    }
  }

  lemma PutIds(store: map<string, Entry>, hash: string, entry: Entry, deletes: seq<CacheId>)
    requires hash in store ==> store[hash].id in deletes
    ensures Ids(store[hash := entry]) + Elements(deletes) == Ids(store) + Elements(deletes) + {entry.id}
  {
    var after := store[hash := entry];
    assert after[hash].id == entry.id;
    forall id | id in Ids(store)
      ensures id in Ids(after) + Elements(deletes)
    {
      var k :| k in store && store[k].id == id;
      assert k != hash ==> k in after && after[k].id == id;
    }
  }

  lemma PutAccounted(c: Cache, hash: string, entry: Entry, created: map<CacheId, string>, deletes: seq<CacheId>)
    requires Accounted(c, created, deletes)
    requires hash in c.store ==> c.store[hash].id in deletes
    ensures Accounted(Put(c, hash, entry), created[entry.id := hash], deletes)
    ensures |Put(c, hash, entry).store| <= |c.store| + 1
  {
    assert Put(c, hash, entry).store.Keys == c.store.Keys + {hash};
    PutIds(c.store, hash, entry, deletes);
    assert created[entry.id := hash].Keys == created.Keys + {entry.id};
  }

  lemma MissKeepsMade(c: Cache, hash: string, maxEntries: int, victim: string, created: map<CacheId, string>)
    requires Evicts(c, maxEntries) ==> victim in c.store
    ensures MadeForKey(c.store, created) ==> MadeForKey(Miss(c, hash, maxEntries, victim).0.store, created)
  {
  }

  lemma PutKeepsMade(store: map<string, Entry>, hash: string, entry: Entry, created: map<CacheId, string>)
    ensures MadeForKey(store, created) && entry.id !in created ==>
              MadeForKey(store[hash := entry], created[entry.id := hash])
  {
  }

  lemma RemovalAccounted(c: Cache, keys: set<string>, created: map<CacheId, string>, deletes: seq<CacheId>,
                         deletes': seq<CacheId>)
    requires Accounted(c, created, deletes) && keys <= c.store.Keys
    requires deletes <= deletes' && |deletes'| == |deletes| + |keys|
    requires forall k :: k in keys ==> c.store[k].id in deletes'
    requires forall i :: |deletes| <= i < |deletes'| ==> exists k :: k in keys && deletes'[i] == c.store[k].id
    ensures Accounted(Drop(c, keys).(evictions := c.evictions + |keys|), created, deletes')
  {
    var after := c.store - keys;
    forall id
      ensures id in Ids(c.store) + Elements(deletes) <==> id in Ids(after) + Elements(deletes')
    {
      if id in Ids(c.store) {
        var k :| k in c.store && c.store[k].id == id;
        assert k !in keys ==> k in after && after[k].id == id;
      }
      if id in deletes {
        var i :| 0 <= i < |deletes| && deletes[i] == id;
        assert deletes'[i] == id;
      }
      if id in deletes' {
        var i :| 0 <= i < |deletes'| && deletes'[i] == id;
        assert i < |deletes| ==> deletes[i] == id;
      }
    }
  }

  class ContextCacheManager {
    const provider: Provider
    const ttl: real
    const maxEntries: int
    var store: map<string, Entry>
    var hits: nat
    var misses: nat
    var evictions: nat

    constructor (provider: Provider, ttl: real, maxEntries: int)
      requires provider.created == map[] && provider.deletes == []
      ensures this.provider == provider && this.ttl == ttl && this.maxEntries == maxEntries
      ensures View() == Cache(map[], 0, 0, 0)
      ensures Valid()
    {
      this.provider, this.ttl, this.maxEntries := provider, ttl, maxEntries;
      store, hits, misses, evictions := map[], 0, 0, 0;
    }

    ghost function View(): Cache
      reads this
    {
      Cache(store, hits, misses, evictions)
    }

    /** Nothing leaks, every delete is counted, and the bound is kept. */
    ghost predicate Valid()
      reads this, provider
    {
      Accounted(View(), provider.created, provider.deletes)
      && (maxEntries >= 1 ==> |store| <= maxEntries)
    }

    /** The provider's exceptions are swallowed, so a delete always counts as done. */
    method DeleteSafe(id: CacheId)
      modifies provider`deletes
      ensures provider.deletes == old(provider.deletes) + [id]
    {
      provider.DeleteContextCache(id);
    }

    method OldestKey() returns (oldest: string)
      requires store != map[]
      ensures IsOldest(store, oldest)
    {
      var pending := store.Keys;
      oldest :| oldest in pending;
      while pending != {}
        invariant pending <= store.Keys && oldest in store
        invariant forall k :: k in store && k !in pending ==> store[oldest].expiresAt <= store[k].expiresAt
        decreases pending
      {
        var k :| k in pending;
        if store[k].expiresAt < store[oldest].expiresAt {
          oldest := k;
        }
        pending := pending - {k};
      }
    }

    method EvictOldest() returns (ghost victim: string)
      modifies this`store, this`evictions, provider`deletes
      ensures old(store) == map[] ==>
                store == map[] && evictions == old(evictions) && provider.deletes == old(provider.deletes)
      ensures old(store) != map[] ==>
                && IsOldest(old(store), victim)
                && store == old(store) - {victim}
                && evictions == old(evictions) + 1
                && provider.deletes == old(provider.deletes) + [old(store)[victim].id]
    {
      victim := "";
      if store == map[] {
        return;
      }
      var oldest := OldestKey();
      var entry := store[oldest];
      store := store - {oldest};
      DeleteSafe(entry.id);
      evictions := evictions + 1;
      victim := oldest;
    }

    /** The first locked section. */
    method Lookup(hash: string, now: real) returns (found: Option<CacheId>, ghost victim: string)
      modifies this`store, this`hits, this`misses, this`evictions, provider`deletes
      ensures hash in old(store) && old(store)[hash].expiresAt > now ==>
                && found == Some(old(store)[hash].id)
                && View() == old(View()).(hits := old(hits) + 1)
                && provider.deletes == old(provider.deletes)
      ensures !(hash in old(store) && old(store)[hash].expiresAt > now) ==> found == None
      ensures |old(store)| < maxEntries ==> store == old(store)
      ensures !Fresh(old(View()), hash, now) ==>
                && found == None
                && (Evicts(old(View()), maxEntries) ==> IsOldest(old(store), victim))
                && View() == Miss(old(View()), hash, maxEntries, victim).0
                && provider.deletes == old(provider.deletes) + Miss(old(View()), hash, maxEntries, victim).1
    {
      if hash in store && store[hash].expiresAt > now {
        hits := hits + 1;
        return Some(store[hash].id), "";
      }
      victim := "";
      if hash in store {
        evictions := evictions + 1;
        DeleteSafe(store[hash].id);
      }
      if |store| >= maxEntries {
        victim := EvictOldest();
      }
      misses := misses + 1;
      found := None;
    }

    /** One lookup under a given hash. */
    method Find(hash: string, now: real, answer: Outcome<CacheId>, later: real)
      returns (r: Outcome<CacheId>, ghost victim: string)
      requires Valid()
      modifies this`store, this`hits, this`misses, this`evictions, provider
      ensures Valid()
      ensures old(MadeForKey(store, provider.created)) && (answer.Ok? ==> answer.value !in old(provider.created)) ==>
                MadeForKey(store, provider.created)
      ensures !Fresh(old(View()), hash, now) && Evicts(old(View()), maxEntries) ==> IsOldest(old(store), victim)
      ensures if Fresh(old(View()), hash, now) then
                r == Ok(old(store)[hash].id) && View() == old(View()).(hits := old(hits) + 1)
                && provider.created == old(provider.created) && provider.deletes == old(provider.deletes)
              else
                var (room, ids) := Miss(old(View()), hash, maxEntries, victim);
                && r == answer
                && View() == (if answer.Ok? then Put(room, hash, Entry(answer.value, later + ttl)) else room)
                && provider.deletes == old(provider.deletes) + ids
                && provider.created
                   == (if answer.Ok? then old(provider.created)[answer.value := hash] else old(provider.created))
    {
      ghost var before, deleted := View(), provider.deletes;
      var found;
      found, victim := Lookup(hash, now);
      if found.Some? {
        r := Ok(found.value);
        return;
      }
      MissAccounted(before, hash, maxEntries, victim, provider.created, deleted);
      MissMakesRoom(before, hash, maxEntries, victim);
      MissKeepsMade(before, hash, maxEntries, victim, provider.created);
      ghost var missed, created := View(), provider.created;
      provider.CreateContextCache(hash, answer);
      if answer.Raise? {
        r := answer;
        return;
      }
      store := store[hash := Entry(answer.value, later + ttl)];
      PutAccounted(missed, hash, store[hash], created, provider.deletes);
      PutKeepsMade(missed.store, hash, store[hash], created);
      assert View() == Put(missed, hash, store[hash]);
      r := answer;
    }

    /** One lookup: a hit returns the id stored for this very context; a miss returns what the provider
        created, or raises what it raised, and takes an entry out only where the store is full: the one that expires
        first. Either way nothing leaks and the bound is kept; while the provider's ids are fresh, every stored id is
        one made for its key. */
    method GetOrCreate(prompt: string, context: string, now: real, answer: Outcome<CacheId>, later: real)
      returns (r: Outcome<CacheId>, ghost victim: string)
      requires Valid()
      modifies this`store, this`hits, this`misses, this`evictions, provider
      ensures Valid()
      ensures hits + misses == old(hits + misses) + 1
      ensures old(MadeForKey(store, provider.created)) && (answer.Ok? ==> answer.value !in old(provider.created)) ==>
                MadeForKey(store, provider.created)
      ensures var hash := prompt + ['\0'] + context;
              if hash in old(store) && old(store)[hash].expiresAt > now then
                r == Ok(old(store)[hash].id) && hits == old(hits) + 1 && provider.created == old(provider.created)
                && store == old(store) && provider.deletes == old(provider.deletes) && evictions == old(evictions)
              else
                var full := |old(store)| >= maxEntries && old(store) != map[];
                var room := if full then old(store) - {victim} else old(store);
                && (full ==> victim in old(store)
                             && forall k :: k in old(store) ==> old(store)[victim].expiresAt <= old(store)[k].expiresAt)
                && r == answer && hits == old(hits)
                && store == (if answer.Ok? then room[hash := Entry(answer.value, later + ttl)] else room)
                && provider.deletes
                   == old(provider.deletes) + ((if hash in old(store) then [old(store)[hash].id] else [])
                                               + (if full then [old(store)[victim].id] else []))
                && provider.created
                   == (if answer.Ok? then old(provider.created)[answer.value := hash] else old(provider.created))
    {
      r, victim := Find(HashInput(prompt, context), now, answer, later);
    }

    method Invalidate(prompt: string, context: string) returns (removed: bool)
      requires Valid()
      modifies this`store, this`evictions, provider`deletes
      ensures Valid()
      ensures var hash := prompt + ['\0'] + context;
              && removed == (hash in old(store))
              && store == old(store) - {hash}
              && provider.deletes == old(provider.deletes) + (if removed then [old(store)[hash].id] else [])
    {
      var hash := HashInput(prompt, context);
      if hash !in store {
        assert store == store - {hash};
        return false;
      }
      var _ := RemoveAll({hash});
      removed := true;
    }

    /** Delete entries already taken out of the store, one by one. */
    method DeleteEntries(entries: map<string, Entry>, keys: set<string>) returns (count: nat)
      requires keys <= entries.Keys
      modifies this`evictions, provider`deletes
      ensures count == |keys| && evictions == old(evictions) + |keys|
      ensures |provider.deletes| == old(|provider.deletes|) + |keys| && old(provider.deletes) <= provider.deletes
      ensures forall k :: k in keys ==> entries[k].id in provider.deletes
      ensures forall i :: old(|provider.deletes|) <= i < |provider.deletes| ==>
                exists k :: k in keys && provider.deletes[i] == entries[k].id
    {
      var pending := keys;
      count := 0;
      while pending != {}
        invariant pending <= keys && count + |pending| == |keys|
        invariant evictions == old(evictions) + count
        invariant |provider.deletes| == old(|provider.deletes|) + count && old(provider.deletes) <= provider.deletes
        invariant forall k :: k in keys && k !in pending ==> entries[k].id in provider.deletes
        invariant forall i :: old(|provider.deletes|) <= i < |provider.deletes| ==>
                    exists k :: k in keys && provider.deletes[i] == entries[k].id
        decreases pending
      {
        var key :| key in pending;
        DeleteSafe(entries[key].id);
        evictions := evictions + 1;
        count := count + 1;
        pending := pending - {key};
      }
    }

    /** Take a set of entries out of the store under the lock, then delete them at the provider. */
    method RemoveAll(keys: set<string>) returns (count: nat)
      requires keys <= store.Keys
      requires Valid()
      modifies this`store, this`evictions, provider`deletes
      ensures Valid()
      ensures count == |keys|
      ensures store == old(store) - keys
      ensures |provider.deletes| == old(|provider.deletes|) + |keys| && old(provider.deletes) <= provider.deletes
      ensures forall k :: k in keys ==> old(store)[k].id in provider.deletes
      ensures forall i :: old(|provider.deletes|) <= i < |provider.deletes| ==>
                exists k :: k in keys && provider.deletes[i] == old(store)[k].id
    {
      ghost var before := View();
      var entries := store;
      store := store - keys;
      count := DeleteEntries(entries, keys);
      RemovalAccounted(before, keys, provider.created, old(provider.deletes), provider.deletes);
      SubsetSize(store.Keys, entries.Keys);
    }

    method CleanupExpired(now: real) returns (count: nat)
      requires Valid()
      modifies this`store, this`evictions, provider`deletes
      ensures Valid()
      ensures forall k :: k in store <==> k in old(store) && old(store)[k].expiresAt > now
      ensures forall k :: k in store ==> store[k] == old(store)[k]
      ensures count == old(|store|) - |store|
    {
      var expired := set k | k in store && store[k].expiresAt <= now;
      RestSize(store, expired);
      count := RemoveAll(expired);
    }

    method ClearAll() returns (count: nat)
      requires Valid()
      modifies this`store, this`evictions, provider`deletes
      ensures Valid()
      ensures store == map[] && count == old(|store|)
      ensures provider.created.Keys == Elements(provider.deletes)
    {
      count := RemoveAll(store.Keys);
      assert Ids(store) == {};
    }
  }

  lemma RestSize(entries: map<string, Entry>, removed: set<string>)
    requires removed <= entries.Keys
    ensures |entries - removed| == |entries| - |removed|
  {
    assert (entries - removed).Keys == entries.Keys - removed;
    assert entries.Keys == (entries.Keys - removed) + removed;
  }

  lemma SubsetSize(a: set<string>, b: set<string>)
    requires a <= b
    ensures |a| <= |b|
  {
    assert b == a + (b - a);
  }
}
