/**
 * A cache seen one key at a time, between calls, when nothing is pinned: what is cached under a key, what was disposed
 * of under it, and what the deleter sent on for it. Every operation changes a cell in a way that does not depend on the
 * others.
 */
module CacheCells {
  import opened Lists
  import opened CacheModel
  import opened CacheInvariant
  import opened CacheTheorems

  /**
   * `since`: the last use of the entry, if there is one; `gone`: the values handed to `RemoveElement` under this key;
   * `sent`: what the deleter emitted for it.
   */
  datatype Cell<V, R> = Cell(value: Option<V>, since: int, gone: seq<V>, sent: seq<R>)

  /** Groups of what happened in each life of a cell, with a new one if from `x` to `y` its entry left the cache. */
  function Regrouped<T, V, R>(gs: seq<seq<T>>, x: Cell<V, R>, y: Cell<V, R>): (r: seq<seq<T>>)
    ensures |r| >= |gs|
  {
    if |y.gone| > |x.gone| then gs + [[]] else gs
  }

  function GoneAt<V>(disposed: seq<(string, V)>, k: string): seq<V> {
    if disposed == [] then []
    else
      var init, last := GoneAt(disposed[..|disposed| - 1], k), disposed[|disposed| - 1];
      if last.0 == k then init + [last.1] else init
  }

  function SentAt<R>(removed: seq<R>, of: R -> string, k: string): seq<R> {
    if removed == [] then []
    else
      var init, last := SentAt(removed[..|removed| - 1], of, k), removed[|removed| - 1];
      if of(last) == k then init + [last] else init
  }

  function EntryAt<V>(es: seq<Entry<V>>, k: string): (r: Option<Entry<V>>)
    ensures r.Some? ==> r.value.key == k && r.value in es
  {
    var i := Find(es, k);
    if i < |es| then Some(es[i]) else None
  }

  function ValueAt<V>(es: seq<Entry<V>>, k: string): Option<V> {
    match EntryAt(es, k) case Some(e) => Some(e.value) case None => None
  }

  function SinceAt<V>(es: seq<Entry<V>>, k: string): int {
    match EntryAt(es, k) case Some(e) => e.lastUse case None => 0
  }

  /** `ks` lists every key of the table. */
  ghost predicate Covers<V, R>(s: State<V, R>, ks: seq<string>) { forall k :: EntryAt(s.order, k).Some? ==> k in ks }

  ghost predicate StaleAt<V>(es: seq<Entry<V>>, k: string, threshold: int) {
    EntryAt(es, k).Some? && EntryAt(es, k).value.lastUse < threshold
  }

  function CellAt<V, R>(s: State<V, R>, of: R -> string, k: string): Cell<V, R> {
    Cell(ValueAt(s.order, k), SinceAt(s.order, k), GoneAt(s.disposed, k), SentAt(s.removed, of, k))
  }

  function Kept<V, R>(f: Fate<V, R>): Option<V> {
    match f case Keep(w, _) => Some(w) case Drop(_) => None
  }

  /** The cell after its value went through the deleter. */
  function Retired<V, R>(c: Config<V, R>, x: Cell<V, R>, now: int): Cell<V, R> {
    if x.value.None? then x
    else
      var f := c.Outcome(x.value.value, now);
      Cell(Kept(f), if Kept(f).Some? then now else 0, x.gone + [x.value.value], x.sent + f.out)
  }

  /** Everything the deleter emits for an entry last used before `threshold` bears the entry's key. */
  ghost predicate Tagged<V, R>(c: Config<V, R>, es: seq<Entry<V>>, of: R -> string, threshold: int, now: int) {
    forall i :: 0 <= i < |es| && es[i].lastUse < threshold ==> Bears(c, es[i].key, es[i].value, of, now)
  }

  ghost predicate Bears<V, R>(c: Config<V, R>, k: string, v: V, of: R -> string, now: int) {
    forall r <- c.Outcome(v, now).out :: of(r) == k
  }

  /** Between calls: well formed, nothing pinned, one unit per entry, within capacity. */
  ghost predicate Idle<V, R>(c: Config<V, R>, s: State<V, R>) {
    Wf(c, s) && Quiet(s) && Single(s.order) && |s.order| <= c.maxUnits && c.maxUnits > 0
  }

  // ----- Logs -----

  lemma {:induction false} SentConcat<R>(a: seq<R>, b: seq<R>, of: R -> string, k: string)
    ensures SentAt(a + b, of, k) == SentAt(a, of, k) + SentAt(b, of, k)
  {
    if b == [] {
      assert a + b == a;
    } else {
      SentConcat(a, b[..|b| - 1], of, k);
      assert (a + b)[..|a + b| - 1] == a + b[..|b| - 1];
    }
  }

  lemma {:induction false} SentAll<R>(a: seq<R>, of: R -> string, k: string, j: string)
    requires forall r <- a :: of(r) == j
    ensures SentAt(a, of, k) == if j == k then a else []
  {
    if a != [] {
      SentAll(a[..|a| - 1], of, k, j);
      assert a == a[..|a| - 1] + [a[|a| - 1]];
    }
  }

  lemma GoneAppend<V>(d: seq<(string, V)>, j: string, v: V, k: string)
    ensures GoneAt(d + [(j, v)], k) == if j == k then GoneAt(d, k) + [v] else GoneAt(d, k)
  {
    assert (d + [(j, v)])[..|d|] == d;
  }

  // ----- Lists -----

  lemma EntryWithout<V>(es: seq<Entry<V>>, i: nat, k: string)
    requires UniqueKeys(es) && i < |es|
    ensures EntryAt(Without(es, i), k) == if k == es[i].key then None else EntryAt(es, k)
  {
    if k != es[i].key {
      KeptByWithout(es, i, k);
    }
  }

  lemma {:induction false} FindSkip<V>(es: seq<Entry<V>>, e: Entry<V>, k: string)
    requires k != e.key
    ensures Find(es + [e], k) == if Find(es, k) < |es| then Find(es, k) else |es| + 1
  {
    if es == [] {
      assert [e][1..] == [];
    } else {
      assert (es + [e])[1..] == es[1..] + [e];
      FindSkip(es[1..], e, k);
    }
  }

  lemma EntryAppend<V>(es: seq<Entry<V>>, e: Entry<V>, k: string)
    requires EntryAt(es, e.key).None?
    ensures EntryAt(es + [e], k) == if k == e.key then Some(e) else EntryAt(es, k)
  {
    hide Find;
    FindFails(es, k);
    if k == e.key {
      FindAppend(es, e);
    } else {
      FindSkip(es, e, k);
    }
  }

  lemma EntrySet<V>(es: seq<Entry<V>>, i: nat, e: Entry<V>, k: string)
    requires UniqueKeys(es) && i < |es| && e.key == es[i].key
    ensures EntryAt(es[i := e], k) == if k == e.key then Some(e) else EntryAt(es, k)
  {
    var t := es[i := e];
    assert forall j :: 0 <= j < |es| ==> t[j].key == es[j].key;
    assert Find(t, k) == Find(es, k);
    FoundAt(es, i);
  }

  lemma FindFails<V>(es: seq<Entry<V>>, k: string)
    ensures EntryAt(es, k).None? <==> Find(es, k) == |es|
    ensures EntryAt(es, k).None? <==> !HasKey(es, k)
  {
  }

  // ----- The deleter -----

  /** An entry that has left the list goes through the deleter. */
  lemma DiscardCell<V, R>(c: Config<V, R>, s: State<V, R>, e: Entry<V>, of: R -> string, k: string, now: int)
    requires EntryAt(s.order, e.key).None? && Bears(c, e.key, e.value, of, now)
    ensures var x, y := CellAt(s, of, k), CellAt(Discard(c, s, e.key, e.value, now), of, k);
            y == (if k == e.key then Retired(c, x.(value := Some(e.value)), now) else x)
  {
    var f, t := c.Outcome(e.value, now), Discard(c, s, e.key, e.value, now);
    hide GoneAt, SentAt, EntryAt;
    GoneAppend(s.disposed, e.key, e.value, k);
    SentConcat(s.removed, f.out, of, k);
    SentAll(f.out, of, k, e.key);
    assert SentAt(s.removed, of, k) + [] == SentAt(s.removed, of, k);
    match f
    case Keep(w, _) => EntryAppend(s.order, Entry(e.key, w, 0, 1, now), k);
    case Drop(_) =>
  }

  /** Taking the unpinned entry `i` off the list and through the deleter. */
  lemma RetireCell<V, R>(c: Config<V, R>, s: State<V, R>, i: nat, of: R -> string, k: string, now: int)
    requires UniqueKeys(s.order) && i < |s.order| && s.order[i].pin == 0
        && Bears(c, s.order[i].key, s.order[i].value, of, now)
    ensures var x, y := CellAt(s, of, k), CellAt(Retire(c, s.(order := Without(s.order, i)), s.order[i], now), of, k);
            y == (if k == s.order[i].key then Retired(c, x, now) else x)
    ensures EntryAt(s.order, s.order[i].key) == Some(s.order[i])
  {
    var e, t := s.order[i], s.(order := Without(s.order, i));
    FoundAt(s.order, i);
    EntryWithout(s.order, i, k);
    EntryWithout(s.order, i, e.key);
    DiscardCell(c, t, e, of, k, now);
  }

  // ----- Expiry -----

  lemma RetireFirstIdle<V, R>(c: Config<V, R>, s: State<V, R>, now: int)
    requires Idle(c, s) && s.order != []
    ensures var t := Retire(c, s.(order := s.order[1..]), s.order[0], now);
            && Idle(c, t)
            && t.order == (match c.Outcome(s.order[0].value, now)
                           case Keep(w, _) => s.order[1..] + [Entry(s.order[0].key, w, 0, 1, now)]
                           case Drop(_) => s.order[1..])
  {
    ExpireStepWf(c, s, now);
    var t := Retire(c, s.(order := s.order[1..]), s.order[0], now);
    assert s.order[0].pin == 0;
    if !c.reentrant {
      assert t.order == s.order[1..];
    }
  }

  lemma RetiredFirst<V, R>(c: Config<V, R>, s: State<V, R>, threshold: int, of: R -> string, k: string, now: int)
    requires Idle(c, s) && s.order != [] && s.order[0].lastUse < threshold <= now
        && Tagged(c, s.order, of, threshold, now)
    ensures var e := s.order[0];
            var t := Retire(c, s.(order := s.order[1..]), e, now);
            && Idle(c, t) && Tagged(c, t.order, of, threshold, now)
            && StaleCount(t.order, threshold) == StaleCount(s.order, threshold) - 1
            && CellAt(t, of, k) == (if k == e.key then Retired(c, CellAt(s, of, k), now) else CellAt(s, of, k))
            && (StaleAt(t.order, k, threshold) <==> k != e.key && StaleAt(s.order, k, threshold))
            && (k == e.key ==> StaleAt(s.order, k, threshold))
            && (k != e.key ==> EntryAt(t.order, k) == EntryAt(s.order, k))
  {
    hide *;
    assert Without(s.order, 0) == s.order[1..];
    RetireFirstIdle(c, s, now);
    ExpireStepShrinks(c, s, threshold, now);
    IdleUnique(c, s);
    FirstTagged(c, s.order, of, threshold, now);
    RetireCell(c, s, 0, of, k, now);
    RestTagged(c, s.order, of, threshold, k, now);
  }

  lemma IdleUnique<V, R>(c: Config<V, R>, s: State<V, R>)
    requires Idle(c, s)
    ensures UniqueKeys(s.order) && forall i :: 0 <= i < |s.order| ==> s.order[i].pin == 0
  {
  }

  lemma FirstTagged<V, R>(c: Config<V, R>, es: seq<Entry<V>>, of: R -> string, threshold: int, now: int)
    requires es != [] && es[0].lastUse < threshold && Tagged(c, es, of, threshold, now)
    ensures Bears(c, es[0].key, es[0].value, of, now)
  {
  }

  /** The rest of the list, with or without the first entry behind it again. */
  lemma RestTagged<V, R>(c: Config<V, R>, es: seq<Entry<V>>, of: R -> string, threshold: int, k: string, now: int)
    requires es != [] && es[0].lastUse < threshold <= now && UniqueKeys(es) && Tagged(c, es, of, threshold, now)
    ensures var rest := (match c.Outcome(es[0].value, now)
                         case Keep(w, _) => es[1..] + [Entry(es[0].key, w, 0, 1, now)]
                         case Drop(_) => es[1..]);
            && Tagged(c, rest, of, threshold, now)
            && (StaleAt(rest, k, threshold) <==> k != es[0].key && StaleAt(es, k, threshold))
            && (k != es[0].key ==> EntryAt(rest, k) == EntryAt(es, k))
    ensures StaleAt(es, es[0].key, threshold)
  {
    hide EntryAt, Bears, Find, Without;
    assert es[1..] == Without(es, 0);
    FoundFirst(es);
    EntryWithout(es, 0, k);
    EntryWithout(es, 0, es[0].key);
    match c.Outcome(es[0].value, now)
    case Keep(w, _) => EntryAppend(es[1..], Entry(es[0].key, w, 0, 1, now), k);
    case Drop(_) =>
  }

  lemma FoundFirst<V>(es: seq<Entry<V>>)
    requires es != []
    ensures EntryAt(es, es[0].key) == Some(es[0])
  {
  }

  lemma ExpireUnfolds<V, R>(c: Config<V, R>, s: State<V, R>, threshold: int, now: int)
    requires threshold <= now
    ensures s.order == [] || s.order[0].lastUse >= threshold ==> Expire(c, s, threshold, now) == s
    ensures s.order != [] && s.order[0].lastUse < threshold ==>
              Expire(c, s, threshold, now) == Expire(c, Retire(c, s.(order := s.order[1..]), s.order[0], now),
                  threshold, now)
  {
  }

  /**
   * Fresh entries and those inserted again stay; an entry with key `k` is retired at most once, and only if it was
   * stale.
   */
  lemma {:induction false} ExpireCell<V, R>(c: Config<V, R>, s: State<V, R>, threshold: int, of: R -> string,
                                            k: string, now: int)
    requires Idle(c, s) && threshold <= now && Tagged(c, s.order, of, threshold, now)
    ensures Idle(c, Expire(c, s, threshold, now))
    ensures var x, y := CellAt(s, of, k), CellAt(Expire(c, s, threshold, now), of, k);
            || (StaleAt(s.order, k, threshold) && y == Retired(c, x, now))
            || (y == x && EntryAt(Expire(c, s, threshold, now).order, k) == EntryAt(s.order, k))
    decreases StaleCount(s.order, threshold)
  {
    hide *;
    ExpireUnfolds(c, s, threshold, now);
    if s.order != [] && s.order[0].lastUse < threshold {
      RetiredFirst(c, s, threshold, of, k, now);
      ExpireCell(c, Retire(c, s.(order := s.order[1..]), s.order[0], now), threshold, of, k, now);
    }
  }

  lemma {:induction false} NoneStale<V, R>(c: Config<V, R>, es: seq<Entry<V>>, threshold: int, now: int)
    requires threshold <= now
    ensures forall e <- Fresh(es, threshold) :: e.lastUse >= threshold
    ensures forall e <- Again(c, es, now) :: e.lastUse >= threshold
  {
    if es != [] {
      NoneStale(c, es[1..], threshold, now);
    }
  }

  /** On a sorted list the scan retires exactly the stale entries. */
  lemma ExpireCellExact<V, R>(c: Config<V, R>, s: State<V, R>, threshold: int, of: R -> string, k: string, now: int)
    requires Idle(c, s) && threshold <= now && Tagged(c, s.order, of, threshold, now) && Sorted(s.order)
    ensures var x, y := CellAt(s, of, k), CellAt(Expire(c, s, threshold, now), of, k);
            y == if StaleAt(s.order, k, threshold) then Retired(c, x, now) else x
  {
    hide Idle, Tagged, CellAt, Retired, Expire, Sorted;
    ExpireCell(c, s, threshold, of, k, now);
    TailScanIsFilter(c, s, threshold, now);
    var gone := Stale(s.order, threshold);
    NoneStale(c, s.order, threshold, now);
    NoneStale(c, Unpinned(gone), threshold, now);
    assert forall e <- Expire(c, s, threshold, now).order :: e.lastUse >= threshold;
  }

  // ----- Calls -----

  /**
   * What a scoped lookup leaves behind when its holder stored `v`: in age mode only the value changes, in LRU mode the
   * entry becomes the newest.
   */
  function Used<V, R>(c: Config<V, R>, s: State<V, R>, k: string, v: V, now: int): State<V, R>
    requires EntryAt(s.order, k).Some?
  {
    var i := Find(s.order, k);
    var e := s.order[i].(value := v);
    if c.lru then s.(order := Without(s.order, i) + [e.(lastUse := now)]) else s.(order := s.order[i := e])
  }

  lemma PinIs<V, R>(c: Config<V, R>, s: State<V, R>, k: string)
    requires Idle(c, s)
    ensures var i := Find(s.order, k);
            && (InTable(s, k) <==> i < |s.order|)
            && Pin(c, s, k) ==
               (if i == |s.order| then s
                else
                  var f := s.order[i].(pin := 1);
                  if c.lru then s.(order := Without(s.order, i), off := [f]) else s.(order := s.order[i := f]))
  {
  }

  lemma StoreIs<V, R>(c: Config<V, R>, s: State<V, R>, k: string, v: V)
    requires Idle(c, s) && InTable(s, k)
    ensures var i, t := Find(s.order, k), Pin(c, s, k);
            && InTable(t, k) && TableEntry(t, k) == s.order[i].(pin := 1) && t.deferred == []
            && Store(t, k, v) ==
               (var f := s.order[i].(pin := 1, value := v);
                if c.lru then s.(order := Without(s.order, i), off := [f]) else s.(order := s.order[i := f]))
  {
    hide Wf;
    PinIs(c, s, k);
    IdleUnique(c, s);
    var i := Find(s.order, k);
    if c.lru {
      EntryWithout(s.order, i, k);
      FindFails(Without(s.order, i), k);
    } else {
      EntrySet(s.order, i, s.order[i].(pin := 1), k);
      FoundAt(s.order[i := s.order[i].(pin := 1)], i);
    }
  }

  lemma UseIs<V, R>(c: Config<V, R>, s: State<V, R>, k: string, v: V, now: int)
    requires Idle(c, s) && InTable(s, k)
    ensures EntryAt(s.order, k).Some? && InTable(Pin(c, s, k), k)
    ensures var t := Store(Pin(c, s, k), k, v);
            Pinned(t, k, v) && Release(c, t, k, v, now) == Used(c, s, k, v, now)
  {
    hide *;
    PinIs(c, s, k);
    StoreIs(c, s, k, v);
    FindFails(s.order, k);
    var t := Store(Pin(c, s, k), k, v);
    StoredIn(c, s, k, v);
    ReleaseIs(c, t, k, v, now);
    SettleIs(c, s, k, v, now);
    UsedIdle(c, s, k, v, now);
    IdleFacts(c, Used(c, s, k, v, now));
    ListedUnits(Used(c, s, k, v, now));
  }

  lemma IdleFacts<V, R>(c: Config<V, R>, s: State<V, R>)
    requires Idle(c, s)
    ensures s.off == [] && s.deferred == [] && Single(s.order) && |s.order| <= c.maxUnits && Wf(c, s) && Quiet(s)
    ensures c.maxUnits > 0
  {
  }

  lemma StoredIn<V, R>(c: Config<V, R>, s: State<V, R>, k: string, v: V)
    requires Idle(c, s) && InTable(s, k)
    ensures InTable(Pin(c, s, k), k)
    ensures var t, i := Store(Pin(c, s, k), k, v), Find(s.order, k);
            InTable(t, k) && TableEntry(t, k) == s.order[i].(pin := 1, value := v) && t.deferred == []
  {
    StoreIs(c, s, k, v);
    IdleUnique(c, s);
    var i := Find(s.order, k);
    if c.lru {
      EntryWithout(s.order, i, k);
      FindFails(Without(s.order, i), k);
    } else {
      FoundAt(s.order[i := s.order[i].(pin := 1, value := v)], i);
    }
  }

  lemma ReleaseIs<V, R>(c: Config<V, R>, t: State<V, R>, k: string, v: V, now: int)
    requires InTable(t, k) && TableEntry(t, k).value == v && TableEntry(t, k).pin == 1 && t.deferred == []
    ensures Pinned(t, k, v)
    ensures var u := Settle(c, t, k, now);
            Units(u) <= c.maxUnits ==> Release(c, t, k, v, now) == u
  {
  }

  lemma SettleIs<V, R>(c: Config<V, R>, s: State<V, R>, k: string, v: V, now: int)
    requires Idle(c, s) && InTable(s, k) && InTable(Pin(c, s, k), k)
    requires var t := Store(Pin(c, s, k), k, v); InTable(t, k) && TableEntry(t, k).pin == 1
    ensures EntryAt(s.order, k).Some? && Settle(c, Store(Pin(c, s, k), k, v), k, now) == Used(c, s, k, v, now)
  {
    StoreIs(c, s, k, v);
    IdleUnique(c, s);
    var i := Find(s.order, k);
    var f := s.order[i].(pin := 1, value := v);
    if c.lru {
      EntryWithout(s.order, i, k);
      FindFails(Without(s.order, i), k);
      assert Without([f], 0) == [];
    } else {
      FoundAt(s.order[i := f], i);
      assert s.order[i := f][i := f.(pin := 0)] == s.order[i := s.order[i].(value := v)];
    }
  }

  /** A use keeps the cache idle, and changes one cell: its value. */
  lemma UsedIdle<V, R>(c: Config<V, R>, s: State<V, R>, k: string, v: V, now: int)
    requires Idle(c, s) && EntryAt(s.order, k).Some?
    ensures Idle(c, Used(c, s, k, v, now))
    ensures forall j :: EntryAt(Used(c, s, k, v, now).order, j) == if j != k then EntryAt(s.order, j)
                        else var e := EntryAt(s.order, k).value;
                             Some(e.(value := v, lastUse := if c.lru then now else e.lastUse))
  {
    UsedStays(c, s, k, v, now);
    var i := Find(s.order, k);
    IdleUnique(c, s);
    FindFails(s.order, k);
    var e, t := s.order[i].(value := v), Used(c, s, k, v, now);
    forall j ensures EntryAt(t.order, j) == if j != k then EntryAt(s.order, j)
                     else var e := EntryAt(s.order, k).value;
                          Some(e.(value := v, lastUse := if c.lru then now else e.lastUse))
    {
      hide EntryAt, Find, Idle;
      if c.lru {
        EntryWithout(s.order, i, k);
        EntryWithout(s.order, i, j);
        EntryAppend(Without(s.order, i), e.(lastUse := now), j);
      } else {
        EntrySet(s.order, i, e, j);
      }
    }
  }

  lemma UsedStays<V, R>(c: Config<V, R>, s: State<V, R>, k: string, v: V, now: int)
    requires Idle(c, s) && EntryAt(s.order, k).Some?
    ensures Idle(c, Used(c, s, k, v, now))
  {
    ListedUnits(s);
    ListedUnits(Used(c, s, k, v, now));
  }

  /** An idle cache with room for one more: if it was full, the oldest entry has left. */
  function Cleared<V, R>(c: Config<V, R>, s: State<V, R>, now: int): State<V, R> {
    if |s.order| < c.maxUnits || s.order == [] then s else Retire(c, s.(order := s.order[1..]), s.order[0], now)
  }

  /** A new entry behind all others. */
  function Put<V, R>(c: Config<V, R>, s: State<V, R>, k: string, v: V, now: int): State<V, R> {
    var t := Cleared(c, s, now);
    t.(order := t.order + [Entry(k, v, 0, 1, now)])
  }

  lemma Collected<V, R>(c: Config<V, R>, x: State<V, R>, now: int)
    requires !c.reentrant && x.order != [] && x.order[0].pin == 0 && x.order[0].units == 1 && Units(x) == c.maxUnits + 1
    ensures Collect(c, x, 0, now) == Retire(c, x.(order := x.order[1..]), x.order[0], now)
  {
    assert Without(x.order, 0) == x.order[1..];
    UnitsWithout(x.order, 0);
  }

  lemma NotCollected<V, R>(c: Config<V, R>, x: State<V, R>, now: int)
    requires Units(x) <= c.maxUnits
    ensures Collect(c, x, 0, now) == x
  {
  }

  lemma NoRemoval<V, R>(c: Config<V, R>, s: State<V, R>, k: string, now: int)
    requires EntryAt(s.order, k).None? && s.off == []
    ensures Remove(c, s, k, now) == s
  {
  }

  lemma UnitsOfAppended<V, R>(c: Config<V, R>, s: State<V, R>, e: Entry<V>)
    requires s.off == [] && s.deferred == [] && Single(s.order) && e.units == 1
    ensures Units(Append(c, s, e)) == |s.order| + 1
  {
    ListedUnits(s);
    UnitsAppend(s.order, e);
    UnitsAppend(s.off, e);
  }

  /** Collection after the new entry `e` was appended to an idle cache. */
  lemma PinnedInsertIs<V, R>(c: Config<V, R>, s: State<V, R>, k: string, v: V, now: int)
    requires Idle(c, s) && EntryAt(s.order, k).None? && !c.reentrant
    ensures var t := if |s.order| < c.maxUnits then s else Retire(c, s.(order := s.order[1..]), s.order[0], now);
            InsertPinned(c, s, k, v, 1, now) == Append(c, t, Entry(k, v, 1, 1, now))
  {
    hide *;
    IdleFacts(c, s);
    IdleUnique(c, s);
    var e := Entry(k, v, 1, 1, now);
    var x := Append(c, s, e);
    NoRemoval(c, s, k, now);
    InsertPinnedIs(c, s, k, v, 1, now);
    UnitsOfAppended(c, s, e);
    if |s.order| < c.maxUnits {
      NotCollected(c, x, now);
    } else {
      FirstSingle(s.order);
      AppendedFirst(c, s, e, now);
      Collected(c, x, now);
    }
  }

  lemma FirstSingle<V>(es: seq<Entry<V>>)
    requires Single(es) && es != []
    ensures es[0].units == 1 && Single(es[1..])
  {
  }

  lemma AppendedFirst<V, R>(c: Config<V, R>, s: State<V, R>, e: Entry<V>, now: int)
    requires s.order != [] && s.order[0].pin == 0 && !c.reentrant
    ensures var x := Append(c, s, e);
            && x.order != [] && x.order[0] == s.order[0]
            && Retire(c, x.(order := x.order[1..]), x.order[0], now)
            == Append(c, Retire(c, s.(order := s.order[1..]), s.order[0], now), e)
  {
    var x := Append(c, s, e);
    if !c.lru {
      assert (s.order + [e])[1..] == s.order[1..] + [e];
    }
  }

  /** Releasing the new entry. */
  lemma NewReleased<V, R>(c: Config<V, R>, s: State<V, R>, k: string, v: V, now: int)
    requires Idle(c, s) && EntryAt(s.order, k).None? && |s.order| < c.maxUnits
    ensures Release(c, Append(c, s, Entry(k, v, 1, 1, now)), k, v, now)
        == s.(order := s.order + [Entry(k, v, 0, 1, now)])
  {
    hide Wf, Units, UnitsOf, Idle, Find, Single;
    IdleFacts(c, s);
    var e := Entry(k, v, 1, 1, now);
    var x, u := Append(c, s, e), s.(order := s.order + [e.(pin := 0)]);
    FindFails(s.order, k);
    NewFound(s.order, e);
    NewFound(s.off, e);
    SingleAppend(s.order, e.(pin := 0));
    ListedUnits(u);
    ReleaseIs(c, x, k, v, now);
    assert (s.order + [e])[|s.order| := e.(pin := 0)] == s.order + [e.(pin := 0)];
    assert Without([e], 0) == [];
  }

  lemma NewFound<V>(es: seq<Entry<V>>, e: Entry<V>)
    requires !HasKey(es, e.key)
    ensures Find(es + [e], e.key) == |es| && Find(es, e.key) == |es|
  {
    FindAppend(es, e);
  }

  lemma SingleAppend<V>(es: seq<Entry<V>>, e: Entry<V>)
    requires Single(es) && e.units == 1
    ensures Single(es + [e])
  {
  }

  ghost predicate MayPut<V, R>(c: Config<V, R>, s: State<V, R>, k: string) {
    Idle(c, s) && EntryAt(s.order, k).None? && (c.reentrant ==> |s.order| < c.maxUnits)
  }

  lemma InsertIs<V, R>(c: Config<V, R>, s: State<V, R>, k: string, v: V, now: int)
    requires MayPut(c, s, k)
    ensures MayInsert(c, s, k, v, 1) && Insert(c, s, k, v, 1, now) == Put(c, s, k, v, now)
  {
    hide *;
    MayPutFacts(c, s, k, v);
    IdleFacts(c, s);
    var e := Entry(k, v, 1, 1, now);
    ClearedIdle(c, s, k, now);
    NewReleased(c, Cleared(c, s, now), k, v, now);
    PutIs(c, s, k, v, now);
    ReentrantInsertPinned(c, s, k, v, now);
    if !c.reentrant {
      PinnedInsertIs(c, s, k, v, now);
    }
    InsertUnfolds(c, s, k, v, now);
  }

  lemma InsertUnfolds<V, R>(c: Config<V, R>, s: State<V, R>, k: string, v: V, now: int)
    ensures Insert(c, s, k, v, 1, now) == Release(c, InsertPinned(c, s, k, v, 1, now), k, v, now)
  {
  }

  lemma ReentrantInsertPinned<V, R>(c: Config<V, R>, s: State<V, R>, k: string, v: V, now: int)
    requires MayPut(c, s, k)
    ensures c.reentrant ==> InsertPinned(c, s, k, v, 1, now) == Append(c, s, Entry(k, v, 1, 1, now))
  {
    NoRemoval(c, s, k, now);
  }

  lemma PutIs<V, R>(c: Config<V, R>, s: State<V, R>, k: string, v: V, now: int)
    ensures var t := Cleared(c, s, now); Put(c, s, k, v, now) == t.(order := t.order + [Entry(k, v, 0, 1, now)])
    ensures Cleared(c, s, now) ==
            if |s.order| < c.maxUnits || s.order == [] then s else Retire(c, s.(order := s.order[1..]), s.order[0], now)
  {
  }

  lemma MayPutFacts<V, R>(c: Config<V, R>, s: State<V, R>, k: string, v: V)
    requires MayPut(c, s, k)
    ensures MayInsert(c, s, k, v, 1) && Idle(c, s) && EntryAt(s.order, k).None?
        && (c.reentrant ==> |s.order| < c.maxUnits)
  {
    ListedUnits(s);
    FindFails(s.order, k);
  }

  /** Eviction leaves room, retires one cell, the oldest, and no entry for `k`. */
  lemma ClearedIdle<V, R>(c: Config<V, R>, s: State<V, R>, k: string, now: int)
    requires MayPut(c, s, k)
    ensures var t := Cleared(c, s, now); Idle(c, t) && EntryAt(t.order, k).None? && |t.order| < c.maxUnits
  {
    if !(|s.order| < c.maxUnits || s.order == []) {
      hide Wf, EntryAt, Find;
      RetireFirstIdle(c, s, now);
      assert s.order[1..] == Without(s.order, 0);
      FindFails(s.order, k);
      EntryWithout(s.order, 0, k);
    }
  }

  lemma ClearedCell<V, R>(c: Config<V, R>, s: State<V, R>, k: string, of: R -> string, j: string, now: int)
    requires MayPut(c, s, k) && (s.order != [] ==> Bears(c, s.order[0].key, s.order[0].value, of, now))
    ensures var x, y := CellAt(s, of, j), CellAt(Cleared(c, s, now), of, j);
            y == x || (!c.reentrant && x.value.Some? && y == Retired(c, x, now))
  {
    if !(|s.order| < c.maxUnits || s.order == []) {
      hide Wf, EntryAt, Find, CellAt, Retired;
      assert s.order[1..] == Without(s.order, 0);
      IdleUnique(c, s);
      RetireCell(c, s, 0, of, j, now);
      CellValue(s, of, j);
    }
  }

  lemma CellValue<V, R>(s: State<V, R>, of: R -> string, j: string)
    ensures CellAt(s, of, j).value == match EntryAt(s.order, j) case Some(e) => Some(e.value) case None => None
    ensures CellAt(s, of, j).since == match EntryAt(s.order, j) case Some(e) => e.lastUse case None => 0
  {
  }

  /** Inserting under a new key sets its cell; another cell changes only if it is retired to make room. */
  lemma PutCell<V, R>(c: Config<V, R>, s: State<V, R>, k: string, v: V, of: R -> string, j: string, now: int)
    requires MayPut(c, s, k) && (s.order != [] ==> Bears(c, s.order[0].key, s.order[0].value, of, now))
    ensures Idle(c, Put(c, s, k, v, now))
    ensures var x, y := CellAt(s, of, j), CellAt(Put(c, s, k, v, now), of, j);
            if j == k then y == x.(value := Some(v), since := now)
            else y == x || (!c.reentrant && x.value.Some? && y == Retired(c, x, now))
  {
    hide *;
    var t := Cleared(c, s, now);
    ClearedIdle(c, s, k, now);
    ClearedCell(c, s, k, of, j, now);
    MayPutFacts(c, s, k, v);
    PutIs(c, s, k, v, now);
    CellValue(s, of, j);
    AppendCell(c, t, Entry(k, v, 0, 1, now), of, j);
    AppendIdle(c, t, Entry(k, v, 0, 1, now));
  }

  lemma AppendCell<V, R>(c: Config<V, R>, s: State<V, R>, e: Entry<V>, of: R -> string, j: string)
    requires EntryAt(s.order, e.key).None?
    ensures var x, y := CellAt(s, of, j), CellAt(s.(order := s.order + [e]), of, j);
            y == if j == e.key then x.(value := Some(e.value), since := e.lastUse) else x
  {
    EntryAppend(s.order, e, j);
  }

  lemma AppendIdle<V, R>(c: Config<V, R>, s: State<V, R>, e: Entry<V>)
    requires Idle(c, s) && EntryAt(s.order, e.key).None? && |s.order| < c.maxUnits && e.pin == 0 && e.units == 1
    ensures Idle(c, s.(order := s.order + [e]))
  {
    ListedUnits(s);
    FindFails(s.order, e.key);
    AppendListedWf(c, s, e);
    SingleAppend(s.order, e);
  }

  /** Explicit removal retires the cell of the key. */
  lemma RemoveCell<V, R>(c: Config<V, R>, s: State<V, R>, k: string, of: R -> string, j: string, now: int)
    requires Idle(c, s) && (EntryAt(s.order, k).Some? ==> Bears(c, k, EntryAt(s.order, k).value.value, of, now))
    ensures Idle(c, Remove(c, s, k, now))
    ensures var x, y := CellAt(s, of, j), CellAt(Remove(c, s, k, now), of, j);
            y == if j == k then Retired(c, x, now) else x
    ensures !c.reentrant ==> forall i: string ::
              EntryAt(Remove(c, s, k, now).order, i) == if i == k then None else EntryAt(s.order, i)
  {
    hide *;
    IdleUnique(c, s);
    IdleFacts(c, s);
    FindFails(s.order, k);
    CellValue(s, of, k);
    RemoveIs(c, s, k, now);
    var i := Find(s.order, k);
    if i < |s.order| {
      RetireCell(c, s, i, of, j, now);
      RemoveIdle(c, s, i, now);
      if !c.reentrant {
        RetireDropped(c, s.(order := Without(s.order, i)), s.order[i], now);
        forall h: string ensures EntryAt(Remove(c, s, k, now).order, h) == if h == k then None else EntryAt(s.order, h)
        {
          EntryWithout(s.order, i, h);
        }
      }
    } else {
      NoRemoval(c, s, k, now);
      NothingRetired(c, CellAt(s, of, k), now);
    }
  }

  lemma RemoveIs<V, R>(c: Config<V, R>, s: State<V, R>, k: string, now: int)
    ensures var i := Find(s.order, k);
            i < |s.order| ==> Remove(c, s, k, now) == Retire(c, s.(order := Without(s.order, i)), s.order[i], now)
  {
  }

  lemma RetireDropped<V, R>(c: Config<V, R>, s: State<V, R>, e: Entry<V>, now: int)
    requires !c.reentrant
    ensures Retire(c, s, e, now).order == s.order
  {
  }

  lemma NothingRetired<V, R>(c: Config<V, R>, x: Cell<V, R>, now: int)
    requires x.value.None?
    ensures Retired(c, x, now) == x
  {
  }

  lemma RemoveIdle<V, R>(c: Config<V, R>, s: State<V, R>, i: nat, now: int)
    requires Idle(c, s) && i < |s.order|
    ensures Idle(c, Retire(c, s.(order := Without(s.order, i)), s.order[i], now))
  {
    var t := s.(order := Without(s.order, i));
    TakeOrder(c, s, i);
    RetireWf(c, t, s.order[i], now);
    assert Single(t.order) && NonePinned(t.order);
    match c.Outcome(s.order[i].value, now)
    case Keep(w, _) => SingleAppend(t.order, Entry(s.order[i].key, w, 0, 1, now));
    case Drop(_) =>
  }

  // ----- Every entry at once -----

  /** Whatever the deleter emits for a cached value bears the value's key. */
  ghost predicate AllBear<V, R>(c: Config<V, R>, es: seq<Entry<V>>, of: R -> string, now: int) {
    forall k :: ValueAt(es, k).Some? ==> Bears(c, k, ValueAt(es, k).value, of, now)
  }

  lemma AllBearTagged<V, R>(c: Config<V, R>, es: seq<Entry<V>>, of: R -> string, threshold: int, now: int)
    requires AllBear(c, es, of, now) && UniqueKeys(es)
    ensures Tagged(c, es, of, threshold, now)
    ensures es != [] ==> Bears(c, es[0].key, es[0].value, of, now)
    ensures forall k :: EntryAt(es, k).Some? ==> Bears(c, k, EntryAt(es, k).value.value, of, now)
  {
    hide Bears;
    forall i | 0 <= i < |es| ensures Bears(c, es[i].key, es[i].value, of, now) {
      FoundAt(es, i);
      assert ValueAt(es, es[i].key) == Some(es[i].value);
    }
    forall k | EntryAt(es, k).Some? ensures Bears(c, k, EntryAt(es, k).value.value, of, now) {
      assert ValueAt(es, k) == Some(EntryAt(es, k).value.value);
    }
  }

  lemma RemoveExpiredCell<V, R>(c: Config<V, R>, s: State<V, R>, of: R -> string, k: string, now: int)
    requires Idle(c, s) && AllBear(c, s.order, of, now)
    ensures Idle(c, RemoveExpired(c, s, now))
    ensures var x, y := CellAt(s, of, k), CellAt(RemoveExpired(c, s, now), of, k);
            y == x || (c.maxIdle >= 0 && StaleAt(s.order, k, now - c.maxIdle) && y == Retired(c, x, now))
  {
    hide Idle, AllBear, CellAt, StaleAt, Tagged, Expire, Retired;
    if c.maxIdle >= 0 {
      IdleUnique(c, s);
      AllBearTagged(c, s.order, of, now - c.maxIdle, now);
      ExpireCell(c, s, now - c.maxIdle, of, k, now);
    }
  }

  lemma {:induction false} RemoveEachCell<V, R>(c: Config<V, R>, s: State<V, R>, ks: seq<string>, of: R -> string,
                                                j: string, now: int)
    requires !c.reentrant && Idle(c, s) && AllBear(c, s.order, of, now)
    ensures var t := RemoveEach(c, s, ks, now);
            && Idle(c, t) && (forall i: string :: EntryAt(t.order, i) == if i in ks then None else EntryAt(s.order, i))
            && CellAt(t, of, j) == if j in ks then Retired(c, CellAt(s, of, j), now) else CellAt(s, of, j)
    decreases |ks|
  {
    hide CellAt, Retired, Idle, EntryAt, ValueAt, Bears, Remove;
    if ks != [] {
      var init, k := ks[..|ks| - 1], ks[|ks| - 1];
      var t := RemoveEach(c, s, init, now);
      RemoveEachCell(c, s, init, of, j, now);
      KeptBears(c, s, t, of, k, now);
      RemoveCell(c, t, k, of, j, now);
      RetiredTwice(c, CellAt(s, of, j), now);
      assert forall i :: i in ks <==> i in init || i == k;
    }
  }

  lemma KeptBears<V, R>(c: Config<V, R>, s: State<V, R>, t: State<V, R>, of: R -> string, k: string, now: int)
    requires AllBear(c, s.order, of, now)
    requires EntryAt(t.order, k).None? || EntryAt(t.order, k) == EntryAt(s.order, k)
    ensures EntryAt(t.order, k).Some? ==> Bears(c, k, EntryAt(t.order, k).value.value, of, now)
  {
    hide Bears;
    assert EntryAt(s.order, k).Some? ==> ValueAt(s.order, k) == Some(EntryAt(s.order, k).value.value);
  }

  lemma RetiredTwice<V, R>(c: Config<V, R>, x: Cell<V, R>, now: int)
    requires !c.reentrant
    ensures Retired(c, Retired(c, x, now), now) == Retired(c, x, now)
  {
  }

  /** Removing every key retires every cell and leaves nothing. */
  lemma RemoveAllCell<V, R>(c: Config<V, R>, s: State<V, R>, ks: seq<string>, of: R -> string, j: string, now: int)
    requires !c.reentrant && Idle(c, s) && AllBear(c, s.order, of, now)
    requires forall k :: EntryAt(s.order, k).Some? ==> k in ks
    ensures var t := RemoveEach(c, s, ks, now);
            t.order == [] && Idle(c, t) && CellAt(t, of, j) == Retired(c, CellAt(s, of, j), now)
  {
    hide Idle, AllBear, RemoveEach;
    var t := RemoveEach(c, s, ks, now);
    RemoveEachCell(c, s, ks, of, j, now);
    NoEntries(t.order);
  }

  lemma NoEntries<V>(es: seq<Entry<V>>)
    requires forall k :: EntryAt(es, k).None?
    ensures es == []
  {
    if es != [] {
      FoundFirst(es);
    }
  }

  // ----- Time -----

  /** Oldest first, and nothing used in the future. */
  ghost predicate InTime<V>(es: seq<Entry<V>>, clock: int) {
    Sorted(es) && forall i :: 0 <= i < |es| ==> es[i].lastUse <= clock
  }

  lemma InTimeWithout<V>(es: seq<Entry<V>>, i: nat, clock: int)
    requires InTime(es, clock) && i < |es|
    ensures InTime(Without(es, i), clock)
  {
  }

  lemma InTimeAppend<V>(es: seq<Entry<V>>, e: Entry<V>, now: int)
    requires InTime(es, now) && e.lastUse == now
    ensures InTime(es + [e], now)
  {
  }

  lemma RetireInTime<V, R>(c: Config<V, R>, s: State<V, R>, i: nat, now: int)
    requires InTime(s.order, now) && i < |s.order| && s.order[i].pin == 0
    ensures InTime(Retire(c, s.(order := Without(s.order, i)), s.order[i], now).order, now)
  {
    InTimeWithout(s.order, i, now);
    match c.Outcome(s.order[i].value, now)
    case Keep(w, _) => InTimeAppend(Without(s.order, i), Entry(s.order[i].key, w, 0, 1, now), now);
    case Drop(_) =>
  }

  lemma {:induction false} ExpireInTime<V, R>(c: Config<V, R>, s: State<V, R>, threshold: int, now: int)
    requires Idle(c, s) && InTime(s.order, now) && threshold <= now
    ensures InTime(Expire(c, s, threshold, now).order, now)
    decreases StaleCount(s.order, threshold)
  {
    hide *;
    ExpireUnfolds(c, s, threshold, now);
    if s.order != [] && s.order[0].lastUse < threshold {
      IdleUnique(c, s);
      RetireFirstIdle(c, s, now);
      ExpireStepShrinks(c, s, threshold, now);
      assert Without(s.order, 0) == s.order[1..];
      RetireInTime(c, s, 0, now);
      ExpireInTime(c, Retire(c, s.(order := s.order[1..]), s.order[0], now), threshold, now);
    }
  }

  lemma RemoveExpiredInTime<V, R>(c: Config<V, R>, s: State<V, R>, now: int)
    requires Idle(c, s) && InTime(s.order, now)
    ensures InTime(RemoveExpired(c, s, now).order, now)
  {
    hide Idle, InTime, Expire;
    if c.maxIdle >= 0 {
      ExpireInTime(c, s, now - c.maxIdle, now);
    }
  }

  lemma UsedInTime<V, R>(c: Config<V, R>, s: State<V, R>, k: string, v: V, now: int)
    requires InTime(s.order, now) && EntryAt(s.order, k).Some?
    ensures InTime(Used(c, s, k, v, now).order, now)
  {
    var i := Find(s.order, k);
    if c.lru {
      InTimeWithout(s.order, i, now);
      InTimeAppend(Without(s.order, i), s.order[i].(value := v, lastUse := now), now);
    }
  }

  lemma PutInTime<V, R>(c: Config<V, R>, s: State<V, R>, k: string, v: V, now: int)
    requires Idle(c, s) && InTime(s.order, now)
    ensures InTime(Put(c, s, k, v, now).order, now)
  {
    hide InTime;
    var t := Cleared(c, s, now);
    if !(|s.order| < c.maxUnits || s.order == []) {
      assert s.order[1..] == Without(s.order, 0);
      IdleUnique(c, s);
      RetireInTime(c, s, 0, now);
    }
    InTimeAppend(t.order, Entry(k, v, 0, 1, now), now);
  }

  lemma UsedCell<V, R>(c: Config<V, R>, s: State<V, R>, k: string, v: V, of: R -> string, j: string, now: int)
    requires Idle(c, s) && EntryAt(s.order, k).Some?
    ensures Idle(c, Used(c, s, k, v, now))
    ensures var x, y := CellAt(s, of, j), CellAt(Used(c, s, k, v, now), of, j);
            y == if j == k then x.(value := Some(v), since := if c.lru then now else x.since) else x
  {
    hide Idle, EntryAt, Find, GoneAt, SentAt, Without;
    UsedIdle(c, s, k, v, now);
  }

  lemma EmitCell<V, R>(s: State<V, R>, notes: seq<R>, of: R -> string, k: string, j: string)
    requires forall r <- notes :: of(r) == k
    ensures var x, y := CellAt(s, of, j), CellAt(s.(removed := s.removed + notes), of, j);
            y == if j == k then x.(sent := x.sent + notes) else x
  {
    hide GoneAt, SentAt, ValueAt;
    SentConcat(s.removed, notes, of, j);
    SentAll(notes, of, j, k);
    assert SentAt(s.removed, of, j) + [] == SentAt(s.removed, of, j);
  }

  lemma EmitIdle<V, R>(c: Config<V, R>, s: State<V, R>, notes: seq<R>)
    requires Idle(c, s)
    ensures Idle(c, s.(removed := s.removed + notes))
  {
    WfLogs(c, s, s.disposed, s.removed + notes);
    hide Wf;
  }

  // ----- Idle after every call, and logs that only grow -----

  ghost predicate Grown<V, R>(s: State<V, R>, t: State<V, R>) { s.disposed <= t.disposed && s.removed <= t.removed }

  lemma GrownTwice<V, R>(s: State<V, R>, t: State<V, R>, u: State<V, R>)
    requires Grown(s, t) && Grown(t, u)
    ensures Grown(s, u)
  {
  }

  lemma RetireGrows<V, R>(c: Config<V, R>, s: State<V, R>, order: seq<Entry<V>>, e: Entry<V>, now: int)
    ensures Grown(s, Retire(c, s.(order := order), e, now))
  {
  }

  lemma {:induction false} ExpireIdle<V, R>(c: Config<V, R>, s: State<V, R>, threshold: int, now: int)
    requires Idle(c, s) && threshold <= now
    ensures var t := Expire(c, s, threshold, now); Idle(c, t) && Grown(s, t)
    decreases StaleCount(s.order, threshold)
  {
    hide *;
    ExpireUnfolds(c, s, threshold, now);
    SelfGrown(s);
    if s.order != [] && s.order[0].lastUse < threshold {
      var t := Retire(c, s.(order := s.order[1..]), s.order[0], now);
      RetireFirstIdle(c, s, now);
      RetireGrows(c, s, s.order[1..], s.order[0], now);
      ExpireStepShrinks(c, s, threshold, now);
      ExpireIdle(c, t, threshold, now);
      GrownTwice(s, t, Expire(c, t, threshold, now));
    }
  }

  lemma SelfGrown<V, R>(s: State<V, R>)
    ensures Grown(s, s)
  {
  }

  lemma RemoveExpiredIdle<V, R>(c: Config<V, R>, s: State<V, R>, now: int)
    requires Idle(c, s)
    ensures var t := RemoveExpired(c, s, now); Idle(c, t) && Grown(s, t)
  {
    hide Idle, Expire, Grown;
    SelfGrown(s);
    if c.maxIdle >= 0 {
      ExpireIdle(c, s, now - c.maxIdle, now);
    }
  }

  lemma PutIdle<V, R>(c: Config<V, R>, s: State<V, R>, k: string, v: V, now: int)
    requires MayPut(c, s, k)
    ensures var t := Put(c, s, k, v, now); Idle(c, t) && Grown(s, t)
  {
    hide *;
    PutIs(c, s, k, v, now);
    ClearedIdle(c, s, k, now);
    AppendIdle(c, Cleared(c, s, now), Entry(k, v, 0, 1, now));
    PutGrows(c, s, k, v, now);
  }

  lemma PutGrows<V, R>(c: Config<V, R>, s: State<V, R>, k: string, v: V, now: int)
    ensures Grown(s, Put(c, s, k, v, now))
  {
  }

  lemma RemoveKeyIdle<V, R>(c: Config<V, R>, s: State<V, R>, k: string, now: int)
    requires Idle(c, s)
    ensures var t := Remove(c, s, k, now); Idle(c, t) && Grown(s, t)
  {
    hide Idle;
    IdleFacts(c, s);
    var i := Find(s.order, k);
    if i < |s.order| {
      RemoveIdle(c, s, i, now);
      RetireGrows(c, s, Without(s.order, i), s.order[i], now);
    }
  }

  lemma {:induction false} RemoveEachIdle<V, R>(c: Config<V, R>, s: State<V, R>, ks: seq<string>, now: int)
    requires Idle(c, s)
    ensures var t := RemoveEach(c, s, ks, now); Idle(c, t) && Grown(s, t)
    decreases |ks|
  {
    hide Idle, Remove, Grown;
    SelfGrown(s);
    if ks != [] {
      var t := RemoveEach(c, s, ks[..|ks| - 1], now);
      RemoveEachIdle(c, s, ks[..|ks| - 1], now);
      RemoveKeyIdle(c, t, ks[|ks| - 1], now);
      GrownTwice(s, t, Remove(c, t, ks[|ks| - 1], now));
    }
  }

  /** Every emission is in the cell of its own key. */
  lemma {:induction false} SentHas<R>(removed: seq<R>, of: R -> string, i: nat)
    requires i < |removed|
    ensures removed[i] in SentAt(removed, of, of(removed[i]))
  {
    if i < |removed| - 1 {
      SentHas(removed[..|removed| - 1], of, i);
    } else {
      var sent := SentAt(removed, of, of(removed[i]));
      assert sent[|sent| - 1] == removed[i];
    }
  }
}
