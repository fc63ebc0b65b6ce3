/** How the aggregators use a cache: scoped lookups, insertions and removals, from one idle state to the next. */
module CacheUse {
  import opened Lists
  import opened CacheModel
  import opened CacheInvariant
  import opened CacheCells
  import opened LruCache

  ghost predicate AtRest<V, R>(cache: Cache<V, R>)
    reads cache, cache.repr
  {
    cache.Valid() && Idle(cache.config, cache.Snapshot())
  }

  lemma RestParts<V, R>(cache: Cache<V, R>)
    requires AtRest(cache)
    ensures cache.Valid() && Idle(cache.config, cache.Snapshot())
  {
  }

  lemma RestIntro<V, R>(cache: Cache<V, R>)
    requires cache.Valid() && Idle(cache.config, cache.Snapshot())
    ensures AtRest(cache)
  {
  }

  /** The beginning of a scoped lookup: what it finds stays pinned until `EndLookup`. */
  method BeginLookup<V(==), R>(cache: Cache<V, R>, k: string, now: int) returns (r: Option<V>)
    requires AtRest(cache)
    modifies cache, cache.repr
    ensures cache.Valid() && fresh(cache.repr - old(cache.repr)) && cache.config == old(cache.config)
    ensures var t := RemoveExpired(cache.config, old(cache.Snapshot()), now);
            && Idle(cache.config, t) && Grown(old(cache.Snapshot()), t)
            && r == ValueAt(t.order, k) && (r.Some? <==> EntryAt(t.order, k).Some?)
            && cache.Snapshot() == Pin(cache.config, t, k) && (r.None? ==> cache.Snapshot() == t)
  {
    hide *;
    RestParts(cache);
    ghost var s := cache.Snapshot();
    RemoveExpiredIdle(cache.config, s, now);
    LookupIs(cache.config, s, k, now);
    r := cache.Lookup(k, now);
  }

  lemma LookupIs<V, R>(c: Config<V, R>, s: State<V, R>, k: string, now: int)
    requires Idle(c, RemoveExpired(c, s, now))
    ensures var t := RemoveExpired(c, s, now);
            var u := Lookup(c, s, k, now);
            && u == Pin(c, t, k)
            && (if InTable(u, k) then Some(TableEntry(u, k).value) else None) == ValueAt(t.order, k)
            && (ValueAt(t.order, k).Some? <==> EntryAt(t.order, k).Some?)
            && (ValueAt(t.order, k).None? ==> u == t)
  {
    var t := RemoveExpired(c, s, now);
    hide RemoveExpired, Idle, Pin;
    PinIs(c, t, k);
    IdleFacts(c, t);
    FindFails(t.order, k);
    if InTable(t, k) {
      StoreIs(c, t, k, t.order[Find(t.order, k)].value);
    }
  }

  /** The end of a scoped lookup whose holder leaves `v` behind. */
  method EndLookup<V(==), R>(cache: Cache<V, R>, ghost t: State<V, R>, k: string, v: V, now: int)
    requires cache.Valid() && Idle(cache.config, t) && EntryAt(t.order, k).Some?
        && cache.Snapshot() == Pin(cache.config, t, k)
    modifies cache, cache.repr
    ensures AtRest(cache) && fresh(cache.repr - old(cache.repr)) && cache.config == old(cache.config)
    ensures cache.Snapshot() == Used(cache.config, t, k, v, now)
  {
    hide *;
    FindFails(t.order, k);
    InTableListed(cache.config, t, k);
    StoreIs(cache.config, t, k, v);
    NotOwned(Pin(cache.config, t, k), k, v);
    UseIs(cache.config, t, k, v, now);
    UsedIdle(cache.config, t, k, v, now);
    cache.Store(k, v);
    cache.Release(k, v, now);
    RestIntro(cache);
  }

  lemma InTableListed<V, R>(c: Config<V, R>, t: State<V, R>, k: string)
    requires Idle(c, t)
    ensures InTable(t, k) <==> Find(t.order, k) < |t.order|
  {
  }

  lemma NotOwned<V, R>(s: State<V, R>, k: string, v: V)
    requires s.deferred == []
    ensures !Owns(s.deferred, k, v)
  {
  }

  /** Insertion of one unit under a new key. */
  method PutIn<V(==), R>(cache: Cache<V, R>, k: string, v: V, now: int)
    requires AtRest(cache) && MayPut(cache.config, cache.Snapshot(), k)
    modifies cache, cache.repr
    ensures AtRest(cache) && fresh(cache.repr - old(cache.repr)) && cache.config == old(cache.config)
    ensures cache.Snapshot() == Put(cache.config, old(cache.Snapshot()), k, v, now)
    ensures Grown(old(cache.Snapshot()), cache.Snapshot())
  {
    hide *;
    RestParts(cache);
    InsertIs(cache.config, cache.Snapshot(), k, v, now);
    PutIdle(cache.config, cache.Snapshot(), k, v, now);
    cache.Insert(k, v, 1, now);
    RestIntro(cache);
  }

  method TakeOutExpired<V(==), R>(cache: Cache<V, R>, now: int)
    requires AtRest(cache)
    modifies cache, cache.repr
    ensures AtRest(cache) && fresh(cache.repr - old(cache.repr)) && cache.config == old(cache.config)
    ensures cache.Snapshot() == RemoveExpired(cache.config, old(cache.Snapshot()), now)
    ensures Grown(old(cache.Snapshot()), cache.Snapshot())
  {
    hide *;
    RestParts(cache);
    RemoveExpiredIdle(cache.config, cache.Snapshot(), now);
    cache.RemoveExpiredEntries(now);
    RestIntro(cache);
  }

  method TakeOut<V(==), R>(cache: Cache<V, R>, k: string, now: int)
    requires AtRest(cache)
    modifies cache, cache.repr
    ensures AtRest(cache) && fresh(cache.repr - old(cache.repr)) && cache.config == old(cache.config)
    ensures cache.Snapshot() == Remove(cache.config, old(cache.Snapshot()), k, now)
    ensures Grown(old(cache.Snapshot()), cache.Snapshot())
  {
    hide *;
    RestParts(cache);
    RemoveKeyIdle(cache.config, cache.Snapshot(), k, now);
    cache.Remove(k, now);
    RestIntro(cache);
  }

  /** Removal of every entry, in the order of the hash table. */
  method TakeOutAll<V(==), R>(cache: Cache<V, R>, now: int) returns (ghost ks: seq<string>)
    requires AtRest(cache) && !cache.config.reentrant
    modifies cache, cache.repr
    ensures AtRest(cache) && fresh(cache.repr - old(cache.repr)) && cache.config == old(cache.config)
    ensures Distinct(ks) && forall k :: k in ks <==> EntryAt(old(cache.Snapshot()).order, k).Some?
    ensures cache.Snapshot() == RemoveEach(cache.config, old(cache.Snapshot()), ks, now)
    ensures Grown(old(cache.Snapshot()), cache.Snapshot())
  {
    hide *;
    RestParts(cache);
    ghost var s := cache.Snapshot();
    forall k ensures k in cache.table <==> EntryAt(s.order, k).Some? {
      cache.InTableIffKey(k);
      FindFails(s.order, k);
      InTableListed(cache.config, s, k);
    }
    ks := cache.RemoveAll(now);
    RemoveEachIdle(cache.config, s, ks, now);
    RestIntro(cache);
  }
}
