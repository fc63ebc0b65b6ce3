module CacheInvariant {
  import opened Lists
  import opened CacheModel

  ghost predicate UniqueKeys<V>(es: seq<Entry<V>>) {
    forall i, j :: 0 <= i < j < |es| ==> es[i].key != es[j].key
  }

  ghost predicate Owns<V>(es: seq<Entry<V>>, k: string, v: V) {
    !(forall i :: 0 <= i < |es| ==> es[i].key != k || es[i].value != v)
  }

  ghost predicate HasKey<V>(es: seq<Entry<V>>, k: string) {
    !(forall i :: 0 <= i < |es| ==> es[i].key != k)
  }

  ghost predicate UniqueValues<V>(es: seq<Entry<V>>) {
    forall i, j :: 0 <= i < j < |es| ==> es[i].key != es[j].key || es[i].value != es[j].value
  }

  ghost predicate ApartKeys<V>(a: seq<Entry<V>>, b: seq<Entry<V>>) {
    forall i, j :: 0 <= i < |a| && 0 <= j < |b| ==> a[i].key != b[j].key
  }

  ghost predicate ApartValues<V>(a: seq<Entry<V>>, b: seq<Entry<V>>) {
    forall i, j :: 0 <= i < |a| && 0 <= j < |b| ==> a[i].key != b[j].key || a[i].value != b[j].value
  }

  ghost predicate AllPinned<V>(es: seq<Entry<V>>) {
    forall i :: 0 <= i < |es| ==> es[i].pin > 0
  }

  ghost predicate NonePinned<V>(es: seq<Entry<V>>) {
    forall i :: 0 <= i < |es| ==> es[i].pin == 0
  }

  ghost predicate Single<V>(es: seq<Entry<V>>) {
    forall i :: 0 <= i < |es| ==> es[i].units == 1
  }

  /** What every public operation keeps. */
  ghost predicate Wf<V, R>(c: Config<V, R>, s: State<V, R>) {
    && UniqueKeys(s.order) && UniqueKeys(s.off) && ApartKeys(s.order, s.off)
    && UniqueValues(s.deferred) && ApartValues(s.order, s.deferred) && ApartValues(s.off, s.deferred)
    && AllPinned(s.off) && AllPinned(s.deferred)
    && (if c.lru then NonePinned(s.order) else s.off == [])
    && (c.reentrant ==> Roomy(c, s))
  }

  ghost predicate Paying<V>(es: seq<Entry<V>>) {
    forall i :: 0 <= i < |es| ==> es[i].units > 0
  }

  /**
   * The regime in which the deleter may insert again: there is room for every entry, and no key is cached and deferred.
   */
  ghost predicate Roomy<V, R>(c: Config<V, R>, s: State<V, R>) {
    && Units(s) <= c.maxUnits && Paying(s.order) && Paying(s.off) && Paying(s.deferred)
    && UniqueKeys(s.deferred) && ApartKeys(s.order, s.deferred) && ApartKeys(s.off, s.deferred)
  }

  /** `e` has left the table and is not yet deferred or discarded. */
  ghost predicate Loose<V, R>(c: Config<V, R>, s: State<V, R>, e: Entry<V>) {
    && !HasKey(s.order, e.key) && !HasKey(s.off, e.key) && !Owns(s.deferred, e.key, e.value)
    && (c.reentrant ==> e.units > 0 && Units(s) + e.units <= c.maxUnits && !HasKey(s.deferred, e.key))
  }

  /** The cache does not hold the value under the key. */
  ghost predicate Unowned<V, R>(s: State<V, R>, k: string, v: V) {
    !Owns(s.order, k, v) && !Owns(s.off, k, v) && !Owns(s.deferred, k, v)
  }

  // ----- Sums -----

  lemma {:induction false} UnitsWithout<V>(es: seq<Entry<V>>, i: nat)
    requires i < |es|
    ensures UnitsOf(es) == UnitsOf(Without(es, i)) + es[i].units
    ensures PinnedUnitsOf(es) == PinnedUnitsOf(Without(es, i)) + (if es[i].pin > 0 then es[i].units else 0)
  {
    if i == 0 {
      assert Without(es, i) == es[1..];
    } else {
      UnitsWithout(es[1..], i - 1);
      assert Without(es, i)[1..] == Without(es[1..], i - 1);
    }
  }

  lemma {:induction false} UnitsAppend<V>(es: seq<Entry<V>>, e: Entry<V>)
    ensures UnitsOf(es + [e]) == UnitsOf(es) + e.units
    ensures PinnedUnitsOf(es + [e]) == PinnedUnitsOf(es) + (if e.pin > 0 then e.units else 0)
  {
    UnitsWithout(es + [e], |es|);
    assert Without(es + [e], |es|) == es;
  }

  lemma {:induction false} UnitsUpdate<V>(es: seq<Entry<V>>, i: nat, e: Entry<V>)
    requires i < |es|
    ensures UnitsOf(es[i := e]) == UnitsOf(es) - es[i].units + e.units
    ensures PinnedUnitsOf(es[i := e])
         == PinnedUnitsOf(es) - (if es[i].pin > 0 then es[i].units else 0) + (if e.pin > 0 then e.units else 0)
  {
    UnitsWithout(es, i);
    UnitsWithout(es[i := e], i);
    assert Without(es[i := e], i) == Without(es, i);
  }

  lemma {:induction false} SingleUnits<V>(es: seq<Entry<V>>)
    requires Single(es)
    ensures UnitsOf(es) == |es|
  {
    if es != [] {
      SingleUnits(es[1..]);
    }
  }

  lemma ListedUnits<V, R>(s: State<V, R>)
    requires s.off == [] && s.deferred == [] && Single(s.order)
    ensures Units(s) == |s.order|
  {
    SingleUnits(s.order);
  }

  // ----- Every operation keeps the invariant -----

  lemma TakeOrder<V, R>(c: Config<V, R>, s: State<V, R>, i: nat)
    requires Wf(c, s) && i < |s.order|
    ensures Wf(c, s.(order := Without(s.order, i)))
    ensures Loose(c, s.(order := Without(s.order, i)), s.order[i])
    ensures Units(s) == Units(s.(order := Without(s.order, i))) + s.order[i].units
  {
    hide UnitsOf, PinnedUnitsOf;
    UnitsWithout(s.order, i);
  }

  lemma TakeOff<V, R>(c: Config<V, R>, s: State<V, R>, i: nat)
    requires Wf(c, s) && i < |s.off|
    ensures Wf(c, s.(off := Without(s.off, i)))
    ensures Loose(c, s.(off := Without(s.off, i)), s.off[i])
    ensures Units(s) == Units(s.(off := Without(s.off, i))) + s.off[i].units
  {
    hide UnitsOf, PinnedUnitsOf;
    UnitsWithout(s.off, i);
  }

  lemma TakeDeferred<V, R>(c: Config<V, R>, s: State<V, R>, i: nat)
    requires Wf(c, s) && i < |s.deferred|
    ensures Wf(c, s.(deferred := Without(s.deferred, i)))
    ensures Unowned(s.(deferred := Without(s.deferred, i)), s.deferred[i].key, s.deferred[i].value)
    ensures c.reentrant ==> Loose(c, s.(deferred := Without(s.deferred, i)), s.deferred[i])
    ensures Units(s) == Units(s.(deferred := Without(s.deferred, i))) + s.deferred[i].units
  {
    hide UnitsOf, PinnedUnitsOf;
    UnitsWithout(s.deferred, i);
  }

  lemma SetDeferredWf<V, R>(c: Config<V, R>, s: State<V, R>, i: nat, e: Entry<V>)
    requires Wf(c, s) && i < |s.deferred| && e.pin > 0
    requires e.key == s.deferred[i].key && e.value == s.deferred[i].value
    requires c.reentrant ==> e.units > 0 && Units(s) - s.deferred[i].units + e.units <= c.maxUnits
    ensures Wf(c, s.(deferred := s.deferred[i := e]))
    ensures Units(s.(deferred := s.deferred[i := e])) == Units(s) - s.deferred[i].units + e.units
  {
    UnitsUpdate(s.deferred, i, e);
  }

  lemma AppendListedWf<V, R>(c: Config<V, R>, s: State<V, R>, e: Entry<V>)
    requires Wf(c, s) && e.pin == 0 && Loose(c, s, e)
    ensures Wf(c, s.(order := s.order + [e])) && Units(s.(order := s.order + [e])) == Units(s) + e.units
  {
    UnitsAppend(s.order, e);
  }

  lemma DiscardWf<V, R>(c: Config<V, R>, s: State<V, R>, e: Entry<V>, now: int)
    requires Wf(c, s) && Loose(c, s, e)
    ensures Wf(c, Discard(c, s, e.key, e.value, now))
    ensures Units(Discard(c, s, e.key, e.value, now)) <= Units(s) + (if c.reentrant then 1 else 0)
  {
    hide UnitsOf, PinnedUnitsOf;
    match c.Outcome(e.value, now)
    case Drop(_) =>
    case Keep(w, _) => UnitsAppend(s.order, Entry(e.key, w, 0, 1, now));
  }

  lemma RetireWf<V, R>(c: Config<V, R>, s: State<V, R>, e: Entry<V>, now: int)
    requires Wf(c, s) && Loose(c, s, e)
    ensures Wf(c, Retire(c, s, e, now))
  {
    hide UnitsOf, PinnedUnitsOf;
    if e.pin == 0 {
      DiscardWf(c, s, e, now);
    } else {
      UnitsAppend(s.deferred, e);
    }
  }

  lemma RemoveWf<V, R>(c: Config<V, R>, s: State<V, R>, k: string, now: int)
    requires Wf(c, s)
    ensures Wf(c, Remove(c, s, k, now))
    ensures !c.reentrant ==> !HasKey(Remove(c, s, k, now).order, k) && !HasKey(Remove(c, s, k, now).off, k)
  {
    var i, j := Find(s.order, k), Find(s.off, k);
    if i < |s.order| {
      TakeOrder(c, s, i);
      RetireWf(c, s.(order := Without(s.order, i)), s.order[i], now);
    } else if j < |s.off| {
      TakeOff(c, s, j);
      RetireWf(c, s.(off := Without(s.off, j)), s.off[j], now);
    }
  }

  /** Taking `e` out of the table of `s` leaves `t`: what `Remove` works on when it retires `e`. */
  ghost predicate Leaves<V, R>(c: Config<V, R>, s: State<V, R>, e: Entry<V>, t: State<V, R>, now: int) {
    && Wf(c, t) && Loose(c, t, e)
    && Units(s) == Units(t) + e.units
    && PinnedUnits(s) == PinnedUnits(t) + (if e.pin > 0 then e.units else 0)
    && Retire(c, t, e, now) == Remove(c, s, e.key, now)
  }

  lemma FoundAt<V>(es: seq<Entry<V>>, i: nat)
    requires UniqueKeys(es) && i < |es|
    ensures Find(es, es[i].key) == i
  {
  }

  lemma LeavesListed<V, R>(c: Config<V, R>, s: State<V, R>, i: nat, now: int)
    requires Wf(c, s) && i < |s.order|
    ensures Leaves(c, s, s.order[i], s.(order := Without(s.order, i)), now)
    ensures Find(s.order, s.order[i].key) == i
  {
    FoundAt(s.order, i);
    TakeOrder(c, s, i);
    UnitsWithout(s.order, i);
  }

  lemma LeavesHeld<V, R>(c: Config<V, R>, s: State<V, R>, i: nat, now: int)
    requires Wf(c, s) && i < |s.off|
    ensures Leaves(c, s, s.off[i], s.(off := Without(s.off, i)), now)
    ensures Find(s.order, s.off[i].key) == |s.order| && Find(s.off, s.off[i].key) == i
  {
    FoundAt(s.off, i);
    TakeOff(c, s, i);
    UnitsWithout(s.off, i);
  }

  lemma {:induction false} CollectWf<V, R>(c: Config<V, R>, s: State<V, R>, i: nat, now: int)
    requires Wf(c, s)
    ensures Wf(c, Collect(c, s, i, now))
    decreases |s.order| - i
  {
    if c.reentrant || Units(s) <= c.maxUnits || i >= |s.order| {
    } else if s.order[i].pin > 0 {
      CollectWf(c, s, i + 1, now);
    } else {
      TakeOrder(c, s, i);
      DiscardWf(c, s.(order := Without(s.order, i)), s.order[i], now);
      CollectWf(c, Discard(c, s.(order := Without(s.order, i)), s.order[i].key, s.order[i].value, now), i, now);
    }
  }

  /** No entry of the table is pinned. */
  ghost predicate Quiet<V, R>(s: State<V, R>) {
    s.off == [] && s.deferred == [] && NonePinned(s.order)
  }

  lemma ExpireStepWf<V, R>(c: Config<V, R>, s: State<V, R>, now: int)
    requires Wf(c, s) && s.order != []
    ensures Wf(c, Retire(c, s.(order := s.order[1..]), s.order[0], now))
    ensures Quiet(s) ==> Quiet(Retire(c, s.(order := s.order[1..]), s.order[0], now))
  {
    assert s.order[1..] == Without(s.order, 0);
    TakeOrder(c, s, 0);
    RetireWf(c, s.(order := s.order[1..]), s.order[0], now);
    hide Wf, Loose, UnitsOf;
  }

  lemma ExpireStepShrinks<V, R>(c: Config<V, R>, s: State<V, R>, threshold: int, now: int)
    requires s.order != [] && s.order[0].lastUse < threshold <= now
    ensures StaleCount(Retire(c, s.(order := s.order[1..]), s.order[0], now).order, threshold)
         == StaleCount(s.order, threshold) - 1
  {
    match c.Outcome(s.order[0].value, now)
    case Keep(w, _) => StaleCountAppend(s.order[1..], Entry(s.order[0].key, w, 0, 1, now), threshold);
    case Drop(_) =>
  }

  lemma {:induction false} ExpireWf<V, R>(c: Config<V, R>, s: State<V, R>, threshold: int, now: int)
    requires Wf(c, s) && threshold <= now
    ensures Wf(c, Expire(c, s, threshold, now))
    ensures Quiet(s) ==> Quiet(Expire(c, s, threshold, now))
    decreases StaleCount(s.order, threshold)
  {
    if s.order != [] && s.order[0].lastUse < threshold {
      ExpireStepWf(c, s, now);
      ExpireStepShrinks(c, s, threshold, now);
      ExpireWf(c, Retire(c, s.(order := s.order[1..]), s.order[0], now), threshold, now);
    }
  }

  lemma RemoveExpiredWf<V, R>(c: Config<V, R>, s: State<V, R>, now: int)
    requires Wf(c, s)
    ensures Wf(c, RemoveExpired(c, s, now))
    ensures Quiet(s) ==> Quiet(RemoveExpired(c, s, now))
  {
    if c.maxIdle >= 0 {
      ExpireWf(c, s, now - c.maxIdle, now);
    }
  }

  function PinnedPart<V>(e: Entry<V>): nat { if e.pin > 0 then e.units else 0 }

  lemma SetEntryWf<V, R>(c: Config<V, R>, s: State<V, R>, e: Entry<V>)
    requires Wf(c, s) && InTable(s, e.key)
    requires !Owns(s.deferred, e.key, e.value)
    requires e.units == TableEntry(s, e.key).units
    requires c.lru ==> (e.pin > 0 <==> TableEntry(s, e.key).pin > 0)
    ensures Wf(c, SetEntry(s, e)) && Units(SetEntry(s, e)) == Units(s)
    ensures PinnedUnits(SetEntry(s, e)) == PinnedUnits(s) - PinnedPart(TableEntry(s, e.key)) + PinnedPart(e)
  {
    hide UnitsOf, PinnedUnitsOf;
    var i, j := Find(s.order, e.key), Find(s.off, e.key);
    if i < |s.order| {
      UnitsUpdate(s.order, i, e);
    } else {
      UnitsUpdate(s.off, j, e);
    }
  }

  lemma AppendWf<V, R>(c: Config<V, R>, s: State<V, R>, e: Entry<V>)
    requires Wf(c, s) && e.pin > 0
    requires !HasKey(s.order, e.key) && !HasKey(s.off, e.key) && !Owns(s.deferred, e.key, e.value)
    requires c.reentrant ==> e.units > 0 && Units(s) + e.units <= c.maxUnits && !HasKey(s.deferred, e.key)
    ensures Wf(c, Append(c, s, e)) && Units(Append(c, s, e)) == Units(s) + e.units
  {
    hide UnitsOf, PinnedUnitsOf;
    UnitsAppend(s.order, e);
    UnitsAppend(s.off, e);
  }

  lemma AppendPinned<V, R>(c: Config<V, R>, s: State<V, R>, e: Entry<V>)
    requires e.pin > 0
    ensures Append(c, s, e) == if c.lru then s.(off := s.off + [e]) else s.(order := s.order + [e])
    ensures PinnedUnits(Append(c, s, e)) == PinnedUnits(s) + e.units
  {
    hide PinnedUnitsOf;
    UnitsAppend(s.order, e);
    UnitsAppend(s.off, e);
  }

  lemma PinWf<V, R>(c: Config<V, R>, s: State<V, R>, k: string)
    requires Wf(c, s)
    ensures Wf(c, Pin(c, s, k)) && Units(Pin(c, s, k)) == Units(s)
    ensures InTable(s, k) ==>
              var e := TableEntry(s, k);
              PinnedUnits(Pin(c, s, k)) == PinnedUnits(s) + (if e.pin == 0 then e.units else 0)
  {
    hide UnitsOf, PinnedUnitsOf;
    if InTable(s, k) {
      var i, e := Find(s.order, k), TableEntry(s, k);
      var f := e.(pin := e.pin + 1);
      if e.pin == 0 && c.lru && i < |s.order| {
        TakeOrder(c, s, i);
        UnitsWithout(s.order, i);
        UnitsAppend(s.off, f);
        AppendWf(c, s.(order := Without(s.order, i)), f);
      } else {
        SetEntryWf(c, s, f);
      }
    }
  }

  lemma SettleWf<V, R>(c: Config<V, R>, s: State<V, R>, k: string, now: int)
    requires Wf(c, s) && InTable(s, k) && TableEntry(s, k).pin > 0
    ensures Wf(c, Settle(c, s, k, now)) && Units(Settle(c, s, k, now)) == Units(s)
    ensures var e := TableEntry(s, k);
            PinnedUnits(Settle(c, s, k, now)) == PinnedUnits(s) - (if e.pin == 1 then e.units else 0)
  {
    hide UnitsOf, PinnedUnitsOf;
    var e := TableEntry(s, k);
    var f := e.(pin := e.pin - 1, lastUse := if c.lru then now else e.lastUse);
    var j := Find(s.off, k);
    if f.pin == 0 && c.lru && j < |s.off| {
      TakeOff(c, s, j);
      UnitsWithout(s.off, j);
      UnitsAppend(s.order, f);
      AppendListedWf(c, s.(off := Without(s.off, j)), f);
    } else {
      SetEntryWf(c, s, f);
    }
  }

  lemma {:induction false} SettledIn<V, R>(c: Config<V, R>, s: State<V, R>, k: string, now: int)
    requires Wf(c, s) && InTable(s, k) && TableEntry(s, k).pin > 0
    ensures var e := TableEntry(s, k);
            InTable(Settle(c, s, k, now), k)
            && TableEntry(Settle(c, s, k, now), k) == e.(pin := e.pin - 1, lastUse := if c.lru then now else e.lastUse)
  {
    var e := TableEntry(s, k);
    var f := e.(pin := e.pin - 1, lastUse := if c.lru then now else e.lastUse);
    var i, j := Find(s.order, k), Find(s.off, k);
    if f.pin == 0 && c.lru && j < |s.off| {
      FindAppend(s.order, f);
    } else if i < |s.order| {
      FoundAt(s.order[i := f], i);
    } else {
      FoundAt(s.off[j := f], j);
    }
  }

  lemma UnpinWf<V, R>(c: Config<V, R>, s: State<V, R>, k: string, now: int)
    requires Wf(c, s) && InTable(s, k) && TableEntry(s, k).pin > 0
    ensures Wf(c, Unpin(c, s, k, now))
  {
    hide Wf, Settle, Remove, Units;
    var t := Settle(c, s, k, now);
    SettleWf(c, s, k, now);
    SettledIn(c, s, k, now);
    if TableEntry(s, k).pin == 1 && Units(t) > c.maxUnits {
      RemoveWf(c, t, k, now);
    }
  }

  lemma ReleaseWf<V, R>(c: Config<V, R>, s: State<V, R>, k: string, v: V, now: int)
    requires Wf(c, s) && Pinned(s, k, v)
    ensures Wf(c, Release(c, s, k, v, now))
  {
    var d := FindValue(s.deferred, k, v);
    if d < |s.deferred| {
      var e := s.deferred[d];
      if e.pin > 1 {
        SetDeferredWf(c, s, d, e.(pin := e.pin - 1));
      } else {
        TakeDeferred(c, s, d);
        if c.reentrant {
          DiscardWf(c, s.(deferred := Without(s.deferred, d)), e, now);
        }
      }
    } else {
      UnpinWf(c, s, k, now);
    }
  }

  /**
   * What a caller of `InsertPinned` owes: a value the cache does not own yet and, in the re-entrant regime, a new key
   * and room.
   */
  ghost predicate MayInsert<V, R>(c: Config<V, R>, s: State<V, R>, k: string, v: V, u: nat) {
    && Unowned(s, k, v)
    && (c.reentrant ==> u > 0 && Units(s) + u <= c.maxUnits && !InTable(s, k) && !HasKey(s.deferred, k))
  }

  lemma InsertPinnedWf<V, R>(c: Config<V, R>, s: State<V, R>, k: string, v: V, u: nat, now: int)
    requires Wf(c, s) && MayInsert(c, s, k, v, u)
    ensures Wf(c, InsertPinned(c, s, k, v, u, now))
  {
    var t := Remove(c, s, k, now);
    RemoveWf(c, s, k, now);
    AppendWf(c, t, Entry(k, v, 1, u, now));
    CollectWf(c, Append(c, t, Entry(k, v, 1, u, now)), 0, now);
  }

  lemma {:induction false} CollectKeepsPinned<V, R>(c: Config<V, R>, s: State<V, R>, i: nat, now: int, k: string)
    requires Wf(c, s) && InTable(s, k) && TableEntry(s, k).pin > 0
    ensures var t := Collect(c, s, i, now);
            InTable(t, k) && TableEntry(t, k) == TableEntry(s, k) && t.deferred == s.deferred
    decreases |s.order| - i
  {
    if c.reentrant || Units(s) <= c.maxUnits || i >= |s.order| {
    } else if s.order[i].pin > 0 {
      CollectKeepsPinned(c, s, i + 1, now, k);
    } else {
      var t := s.(order := Without(s.order, i));
      TakeOrder(c, s, i);
      DiscardWf(c, t, s.order[i], now);
      KeptByWithout(s.order, i, k);
      CollectKeepsPinned(c, Discard(c, t, s.order[i].key, s.order[i].value, now), i, now, k);
    }
  }

  lemma KeptByWithout<V>(es: seq<Entry<V>>, i: nat, k: string)
    requires UniqueKeys(es) && i < |es| && es[i].key != k
    ensures Find(es, k) < |es| <==> Find(Without(es, i), k) < |es| - 1
    ensures Find(es, k) < |es| ==> Without(es, i)[Find(Without(es, i), k)] == es[Find(es, k)]
  {
    var f := Find(es, k);
    if f < |es| {
      assert Without(es, i)[if f < i then f else f - 1] == es[f];
    }
  }

  lemma {:induction false} FindAppend<V>(es: seq<Entry<V>>, e: Entry<V>)
    requires !HasKey(es, e.key)
    ensures Find(es + [e], e.key) == |es|
  {
    if es != [] {
      assert (es + [e])[1..] == es[1..] + [e];
      FindAppend(es[1..], e);
    }
  }

  lemma AppendFound<V, R>(c: Config<V, R>, s: State<V, R>, e: Entry<V>)
    requires !HasKey(s.order, e.key) && !HasKey(s.off, e.key)
    ensures InTable(Append(c, s, e), e.key) && TableEntry(Append(c, s, e), e.key) == e
  {
    FindAppend(s.order, e);
    FindAppend(s.off, e);
  }

  lemma InsertPinnedFound<V, R>(c: Config<V, R>, s: State<V, R>, k: string, v: V, u: nat, now: int)
    requires Wf(c, s) && MayInsert(c, s, k, v, u)
    ensures var t := InsertPinned(c, s, k, v, u, now);
            && Wf(c, t) && InTable(t, k) && TableEntry(t, k) == Entry(k, v, 1, u, now) && !Owns(t.deferred, k, v)
            && Pinned(t, k, v) && (forall e <- t.deferred :: e.pin > 0)
  {
    var e := Entry(k, v, 1, u, now);
    var t := Append(c, Remove(c, s, k, now), e);
    RemoveWf(c, s, k, now);
    AppendWf(c, Remove(c, s, k, now), e);
    AppendFound(c, Remove(c, s, k, now), e);
    CollectKeepsPinned(c, t, 0, now, k);
    CollectWf(c, t, 0, now);
  }

  /** With room, the nested insertion of a discarded entry is an append: this is what `Discard` assumes of `Keep`. */
  lemma ReenterInsert<V, R>(c: Config<V, R>, s: State<V, R>, k: string, v: V, u: nat, now: int)
    requires Wf(c, s) && c.reentrant && MayInsert(c, s, k, v, u)
    ensures Pinned(InsertPinned(c, s, k, v, u, now), k, v)
    ensures Insert(c, s, k, v, u, now) == s.(order := s.order + [Entry(k, v, 0, u, now)])
  {
    var e := Entry(k, v, 1, u, now);
    var t := InsertPinned(c, s, k, v, u, now);
    InsertPinnedFound(c, s, k, v, u, now);
    ReenterPinned(c, s, k, v, u, now);
    RoomFor(c, t);
    SettleWf(c, t, k, now);
    hide Wf, MayInsert, InsertPinned, Units, Append, Settle;
    ReenterSettled(c, s, e, now);
    NotOwned(t, k, v);
  }

  lemma RoomFor<V, R>(c: Config<V, R>, s: State<V, R>)
    requires Wf(c, s) && c.reentrant
    ensures Units(s) <= c.maxUnits
  {
  }

  lemma NotOwned<V, R>(s: State<V, R>, k: string, v: V)
    requires !Owns(s.deferred, k, v)
    ensures FindValue(s.deferred, k, v) == |s.deferred|
  {
  }

  lemma ReenterPinned<V, R>(c: Config<V, R>, s: State<V, R>, k: string, v: V, u: nat, now: int)
    requires c.reentrant && MayInsert(c, s, k, v, u)
    ensures InsertPinned(c, s, k, v, u, now) == Append(c, s, Entry(k, v, 1, u, now)) && !HasKey(s.order, k)
        && !HasKey(s.off, k)
  {
    hide Units, UnitsOf, Append;
  }

  lemma ReenterSettled<V, R>(c: Config<V, R>, s: State<V, R>, e: Entry<V>, now: int)
    requires !HasKey(s.order, e.key) && !HasKey(s.off, e.key) && e.pin == 1 && e.lastUse == now
    ensures var t := Append(c, s, e);
            InTable(t, e.key) && TableEntry(t, e.key) == e
                && Settle(c, t, e.key, now) == s.(order := s.order + [e.(pin := 0)])
  {
    FindAppend(s.order, e);
    FindAppend(s.off, e);
    if c.lru {
      assert Without(s.off + [e], |s.off|) == s.off;
    } else {
      assert (s.order + [e])[|s.order| := e.(pin := 0)] == s.order + [e.(pin := 0)];
    }
  }

  /**
   * Why an insertion needs a new key when the deleter inserts again: the old entry comes back under the key before the
   * new one is entered, and then two entries have the key, unless the deleter drops the old value.
   */
  lemma KnownKeyNeedsDrop<V, R>(c: Config<V, R>, s: State<V, R>, k: string, v: V, u: nat, now: int)
    requires Wf(c, s) && c.reentrant && InTable(s, k) && TableEntry(s, k).pin == 0
    requires Unowned(s, k, v) && u > 0 && Units(s) - TableEntry(s, k).units + u <= c.maxUnits
    ensures c.Outcome(TableEntry(s, k).value, now).Drop? ==> Wf(c, InsertPinned(c, s, k, v, u, now))
    ensures c.Outcome(TableEntry(s, k).value, now).Keep? && Units(s) + u <= c.maxUnits ==>
              !Wf(c, InsertPinned(c, s, k, v, u, now))
  {
    hide UnitsOf;
    var i, e := Find(s.order, k), Entry(k, v, 1, u, now);
    UnpinnedListed(c, s, k);
    var r := s.(order := Without(s.order, i));
    TakeOrder(c, s, i);
    match c.Outcome(s.order[i].value, now)
    case Drop(_) => AppendWf(c, Discard(c, r, k, s.order[i].value, now), e);
    case Keep(w, _) =>
      var t := Discard(c, r, k, s.order[i].value, now);
      assert t.order == r.order + [Entry(k, w, 0, 1, now)];
      assert t.order[|r.order|].key == k;
      TwoWithKey(c, t, e, |r.order|);
  }

  lemma InsertPinnedIs<V, R>(c: Config<V, R>, s: State<V, R>, k: string, v: V, u: nat, now: int)
    ensures InsertPinned(c, s, k, v, u, now)
        == Collect(c, Append(c, Remove(c, s, k, now), Entry(k, v, 1, u, now)), 0, now)
  {
  }

  lemma UnpinnedListed<V, R>(c: Config<V, R>, s: State<V, R>, k: string)
    requires Wf(c, s) && InTable(s, k) && TableEntry(s, k).pin == 0
    ensures Find(s.order, k) < |s.order|
  {
  }

  lemma TwoWithKey<V, R>(c: Config<V, R>, s: State<V, R>, e: Entry<V>, i: nat)
    requires i < |s.order| && s.order[i].key == e.key
    ensures !Wf(c, Append(c, s, e))
  {
    hide UnitsOf;
    var t := Append(c, s, e);
    if c.lru {
      assert t.order[i].key == t.off[|s.off|].key;
    } else {
      assert t.order[i].key == t.order[|s.order|].key;
    }
  }

  lemma WfLogs<V, R>(c: Config<V, R>, s: State<V, R>, disposed: seq<(string, V)>, removed: seq<R>)
    requires Wf(c, s)
    ensures Wf(c, s.(disposed := disposed, removed := removed))
  {
  }

  lemma DiscardIs<V, R>(c: Config<V, R>, s: State<V, R>, k: string, v: V, now: int)
    ensures var d := s.disposed + [(k, v)];
            Discard(c, s, k, v, now) ==
            match c.Outcome(v, now)
            case Drop(out) => s.(disposed := d, removed := s.removed + out)
            case Keep(w, out) => s.(disposed := d, order := s.order + [Entry(k, w, 0, 1, now)],
                removed := s.removed + out)
  {
  }

  lemma SetEntryUnits<V, R>(s: State<V, R>, e: Entry<V>)
    requires InTable(s, e.key)
    ensures Units(SetEntry(s, e)) == Units(s) - TableEntry(s, e.key).units + e.units
  {
    hide UnitsOf;
    if Find(s.order, e.key) < |s.order| {
      UnitsUpdate(s.order, Find(s.order, e.key), e);
    } else {
      UnitsUpdate(s.off, Find(s.off, e.key), e);
    }
  }

  lemma ResizeTableWf<V, R>(c: Config<V, R>, s: State<V, R>, k: string, v: Option<V>, u: nat)
    requires Wf(c, s) && InTable(s, k) && Names(TableEntry(s, k), k, v)
    requires c.reentrant ==> u > 0 && Units(s) - TableEntry(s, k).units + u <= c.maxUnits
    ensures var t, e := Resize(s, k, v, u), TableEntry(s, k);
            && Wf(c, t) && Units(t) == Units(s) - e.units + u
            && PinnedUnits(t) == PinnedUnits(s) - PinnedPart(e) + PinnedPart(e.(units := u))
  {
    hide UnitsOf, PinnedUnitsOf;
    var i, j, e := Find(s.order, k), Find(s.off, k), TableEntry(s, k).(units := u);
    if i < |s.order| {
      UnitsUpdate(s.order, i, e);
    } else {
      UnitsUpdate(s.off, j, e);
    }
  }
}
