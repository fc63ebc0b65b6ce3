module CacheTheorems {
  import opened Lists
  import opened CacheModel
  import opened CacheInvariant

  // ----- Reading a list of entries -----

  function Stale<V>(es: seq<Entry<V>>, threshold: int): seq<Entry<V>> {
    if es == [] then []
    else if es[0].lastUse < threshold then [es[0]] + Stale(es[1..], threshold)
    else Stale(es[1..], threshold)
  }

  function Fresh<V>(es: seq<Entry<V>>, threshold: int): seq<Entry<V>> {
    if es == [] then []
    else if es[0].lastUse < threshold then Fresh(es[1..], threshold)
    else [es[0]] + Fresh(es[1..], threshold)
  }

  function Unpinned<V>(es: seq<Entry<V>>): seq<Entry<V>> {
    if es == [] then [] else if es[0].pin == 0 then [es[0]] + Unpinned(es[1..]) else Unpinned(es[1..])
  }

  function WithPin<V>(es: seq<Entry<V>>): seq<Entry<V>> {
    if es == [] then [] else if es[0].pin == 0 then WithPin(es[1..]) else [es[0]] + WithPin(es[1..])
  }

  function Pairs<V>(es: seq<Entry<V>>): (r: seq<(string, V)>)
    ensures |r| == |es|
  {
    if es == [] then [] else [(es[0].key, es[0].value)] + Pairs(es[1..])
  }

  /** What the deleter emits for these entries, and what it inserts again. */
  function Emitted<V, R>(c: Config<V, R>, es: seq<Entry<V>>, now: int): seq<R> {
    if es == [] then [] else c.Outcome(es[0].value, now).out + Emitted(c, es[1..], now)
  }

  function AgainOf<V, R>(c: Config<V, R>, e: Entry<V>, now: int): seq<Entry<V>> {
    match c.Outcome(e.value, now)
    case Keep(w, _) => [Entry(e.key, w, 0, 1, now)]
    case Drop(_) => []
  }

  function Again<V, R>(c: Config<V, R>, es: seq<Entry<V>>, now: int): seq<Entry<V>> {
    if es == [] then [] else AgainOf(c, es[0], now) + Again(c, es[1..], now)
  }

  ghost predicate Sorted<V>(es: seq<Entry<V>>) {
    forall i, j :: 0 <= i < j < |es| ==> es[i].lastUse <= es[j].lastUse
  }

  // ----- The tail scan -----

  lemma {:induction false} FreshAll<V>(es: seq<Entry<V>>, threshold: int)
    requires forall e <- es :: e.lastUse >= threshold
    ensures Fresh(es, threshold) == es && Stale(es, threshold) == []
  {
    if es != [] {
      assert es[0] in es;
      FreshAll(es[1..], threshold);
    }
  }

  /** The state after the entries `gone` were retired, oldest first, and `kept` stayed on the list. */
  function Swept<V, R>(c: Config<V, R>, s: State<V, R>, kept: seq<Entry<V>>, gone: seq<Entry<V>>, now: int): State<V, R>
  {
    State(kept + Again(c, Unpinned(gone), now), s.off, s.deferred + WithPin(gone),
          s.disposed + Pairs(Unpinned(gone)), s.removed + Emitted(c, Unpinned(gone), now))
  }

  lemma SweptStep<V, R>(c: Config<V, R>, s: State<V, R>, kept: seq<Entry<V>>, e: Entry<V>, rest: seq<Entry<V>>,
                        now: int)
    ensures Swept(c, s, kept, [e] + rest, now)
         == Swept(c, Retire(c, s, e, now), kept + (if e.pin > 0 then [] else AgainOf(c, e, now)), rest, now)
  {
    hide Unpinned, WithPin, Again, Emitted, Pairs, AgainOf;
    ConsFacts(c, e, rest, now);
    ConsFacts(c, e, Unpinned(rest), now);
    AgainIs(c, e, now);
    var l, us := Swept(c, s, kept, [e] + rest, now), Unpinned(rest);
    if e.pin > 0 {
      assert l.deferred == s.deferred + [e] + WithPin(rest) && kept + [] == kept;
    } else {
      assert l.order == kept + AgainOf(c, e, now) + Again(c, us, now);
      assert l.disposed == s.disposed + [(e.key, e.value)] + Pairs(us);
      assert l.removed == s.removed + c.Outcome(e.value, now).out + Emitted(c, us, now);
    }
  }

  lemma AgainIs<V, R>(c: Config<V, R>, e: Entry<V>, now: int)
    ensures AgainOf(c, e, now) == match c.Outcome(e.value, now)
              case Keep(w, _) => [Entry(e.key, w, 0, 1, now)]
              case Drop(_) => []
  {
  }

  lemma ConsFacts<V, R>(c: Config<V, R>, e: Entry<V>, rest: seq<Entry<V>>, now: int)
    ensures Unpinned([e] + rest) == if e.pin == 0 then [e] + Unpinned(rest) else Unpinned(rest)
    ensures WithPin([e] + rest) == if e.pin == 0 then WithPin(rest) else [e] + WithPin(rest)
    ensures Again(c, [e] + rest, now) == AgainOf(c, e, now) + Again(c, rest, now)
    ensures Emitted(c, [e] + rest, now) == c.Outcome(e.value, now).out + Emitted(c, rest, now)
    ensures Pairs([e] + rest) == [(e.key, e.value)] + Pairs(rest)
    ensures UnitsOf([e] + rest) == e.units + UnitsOf(rest)
  {
    assert ([e] + rest)[1..] == rest;
  }

  lemma SweptOrder<V, R>(c: Config<V, R>, s: State<V, R>, t: State<V, R>, kept: seq<Entry<V>>, gone: seq<Entry<V>>,
                         now: int)
    requires t == s.(order := t.order)
    ensures Swept(c, s, kept, gone, now) == Swept(c, t, kept, gone, now)
  {
  }

  /** `order` may carry, behind a sorted list, entries that were inserted again at `now`. */
  lemma {:induction false} ExpireScan<V, R>(c: Config<V, R>, s: State<V, R>, was: seq<Entry<V>>, added: seq<Entry<V>>,
                                            threshold: int, now: int)
    requires threshold <= now && s.order == was + added && Sorted(was)
    requires forall e <- added :: e.lastUse == now
    ensures Expire(c, s, threshold, now) == Swept(c, s, Fresh(was, threshold) + added, Stale(was, threshold), now)
    decreases |was|
  {
    hide *;
    if was == [] || was[0].lastUse >= threshold {
      ScanEnds(c, s, was, added, threshold, now);
    } else {
      var e, t, rest := was[0], s.(order := s.order[1..]), Stale(was[1..], threshold);
      var more := if e.pin > 0 then [] else AgainOf(c, e, now);
      var u, kept := Retire(c, t, e, now), Fresh(was[1..], threshold) + added;
      ScanOne(c, s, was, added, threshold, now);
      ExpireScan(c, u, was[1..], added + more, threshold, now);
      SweptStep(c, t, kept, e, rest, now);
      SweptOrder(c, s, t, kept, [e] + rest, now);
      assert Fresh(was[1..], threshold) + (added + more) == kept + more;
    }
  }

  lemma ScanEnds<V, R>(c: Config<V, R>, s: State<V, R>, was: seq<Entry<V>>, added: seq<Entry<V>>, threshold: int,
                       now: int)
    requires threshold <= now && s.order == was + added && Sorted(was) && forall e <- added :: e.lastUse == now
    requires was == [] || was[0].lastUse >= threshold
    ensures Expire(c, s, threshold, now) == Swept(c, s, Fresh(was, threshold) + added, Stale(was, threshold), now)
  {
    assert forall e <- was :: e.lastUse >= threshold by {
      assert forall i :: 0 < i < |was| ==> was[0].lastUse <= was[i].lastUse;
    }
    FreshAll(was, threshold);
    assert added != [] ==> added[0] in added;
    assert Swept(c, s, s.order, [], now) == s;
  }

  /** One stale entry: what retiring it does to the scan. */
  lemma ScanOne<V, R>(c: Config<V, R>, s: State<V, R>, was: seq<Entry<V>>, added: seq<Entry<V>>, threshold: int,
                      now: int)
    requires threshold <= now && s.order == was + added && Sorted(was) && forall e <- added :: e.lastUse == now
    requires was != [] && was[0].lastUse < threshold
    ensures s.order != []
    ensures var e, t := was[0], s.(order := s.order[1..]);
            var more, u := if e.pin > 0 then [] else AgainOf(c, e, now), Retire(c, t, e, now);
            && t == s.(order := t.order) && u.order == was[1..] + (added + more) && Sorted(was[1..])
            && (forall x <- added + more :: x.lastUse == now)
            && Expire(c, s, threshold, now) == Expire(c, u, threshold, now)
            && Fresh(was, threshold) == Fresh(was[1..], threshold)
            && Stale(was, threshold) == [e] + Stale(was[1..], threshold)
  {
    hide StaleCount;
    var e := was[0];
    assert s.order[1..] == was[1..] + added;
    AgainIs(c, e, now);
    assert was[1..] + added + (if e.pin > 0 then [] else AgainOf(c, e, now))
        == was[1..] + (added + if e.pin > 0 then [] else AgainOf(c, e, now));
  }

  /**
   * On a sorted list, stopping at the first fresh entry removes every stale entry and no other. The deleter is called
   * once for each stale entry that is not pinned, oldest first, and what it inserts again stays; pinned ones are
   * deferred.
   */
  lemma TailScanIsFilter<V, R>(c: Config<V, R>, s: State<V, R>, threshold: int, now: int)
    requires threshold <= now && Sorted(s.order)
    ensures var t, gone := Expire(c, s, threshold, now), Stale(s.order, threshold);
            && t.order == Fresh(s.order, threshold) + Again(c, Unpinned(gone), now)
            && t.deferred == s.deferred + WithPin(gone)
            && t.disposed == s.disposed + Pairs(Unpinned(gone))
            && t.removed == s.removed + Emitted(c, Unpinned(gone), now)
            && t.off == s.off
  {
    assert s.order == s.order + [];
    ExpireScan(c, s, s.order, [], threshold, now);
    assert Fresh(s.order, threshold) + [] == Fresh(s.order, threshold);
  }

  // ----- Eviction -----

  /** `es` without its `n` oldest unpinned entries. */
  function Spare<V>(es: seq<Entry<V>>, n: nat): seq<Entry<V>> {
    if es == [] then []
    else if es[0].pin == 0 && n > 0 then Spare(es[1..], n - 1)
    else [es[0]] + Spare(es[1..], n)
  }

  /** How many unpinned entries have to go, oldest first, before `excess` units are free. */
  function Needed<V>(us: seq<Entry<V>>, excess: int): (n: nat)
    ensures n <= |us|
    ensures UnitsOf(us[..n]) >= excess || n == |us|
    ensures forall m: nat :: m < n ==> UnitsOf(us[..m]) < excess
  {
    if excess <= 0 || us == [] then 0
    else
      var n := 1 + Needed(us[1..], excess - us[0].units);
      assert us[..n][1..] == us[1..][..n - 1];
      assert forall m: nat :: 0 < m < n ==> us[..m][1..] == us[1..][..m - 1];
      n
  }

  /** The state after the first `n` unpinned entries of `rest` went; `skipped` holds only pinned ones. */
  function Culled<V, R>(c: Config<V, R>, s: State<V, R>, skipped: seq<Entry<V>>, rest: seq<Entry<V>>, n: nat,
                        now: int): State<V, R>
    requires n <= |Unpinned(rest)|
  {
    State(skipped + Spare(rest, n), s.off, s.deferred, s.disposed + Pairs(Unpinned(rest)[..n]),
          s.removed + Emitted(c, Unpinned(rest)[..n], now))
  }

  lemma CulledPinned<V, R>(c: Config<V, R>, s: State<V, R>, skipped: seq<Entry<V>>, rest: seq<Entry<V>>, n: nat,
                           now: int)
    requires rest != [] && rest[0].pin > 0 && n <= |Unpinned(rest)|
    ensures Culled(c, s, skipped, rest, n, now) == Culled(c, s, skipped + [rest[0]], rest[1..], n, now)
  {
    assert (skipped + [rest[0]]) + Spare(rest[1..], n) == skipped + ([rest[0]] + Spare(rest[1..], n));
  }

  lemma CulledUnpinned<V, R>(c: Config<V, R>, s: State<V, R>, skipped: seq<Entry<V>>, rest: seq<Entry<V>>, n: nat,
                             now: int)
    requires !c.reentrant && rest != [] && rest[0].pin == 0 && 0 < n <= |Unpinned(rest)|
    ensures Culled(c, s, skipped, rest, n, now)
         == Culled(c, Discard(c, s, rest[0].key, rest[0].value, now), skipped, rest[1..], n - 1, now)
  {
    hide Again, Emitted, Pairs, UnitsOf, Unpinned, Spare, WithPin;
    var us, e := Unpinned(rest[1..]), rest[0];
    assert rest == [e] + rest[1..];
    ConsFacts(c, e, rest[1..], now);
    SpareCons(rest, n);
    assert Unpinned(rest)[..n] == [e] + us[..n - 1];
    ConsFacts(c, e, us[..n - 1], now);
    assert s.disposed + ([(e.key, e.value)] + Pairs(us[..n - 1]))
        == s.disposed + [(e.key, e.value)] + Pairs(us[..n - 1]);
    var out := c.Outcome(e.value, now).out;
    assert s.removed + (out + Emitted(c, us[..n - 1], now)) == s.removed + out + Emitted(c, us[..n - 1], now);
  }

  lemma SpareCons<V>(es: seq<Entry<V>>, n: nat)
    requires es != [] && es[0].pin == 0 && n > 0
    ensures Spare(es, n) == Spare(es[1..], n - 1)
  {
  }

  lemma {:induction false} CollectScan<V, R>(c: Config<V, R>, s: State<V, R>, skipped: seq<Entry<V>>,
                                             rest: seq<Entry<V>>, now: int)
    requires !c.reentrant && s.order == skipped + rest
    ensures Collect(c, s, |skipped|, now)
        == Culled(c, s, skipped, rest, Needed(Unpinned(rest), Units(s) - c.maxUnits), now)
    decreases |rest|
  {
    var n := Needed(Unpinned(rest), Units(s) - c.maxUnits);
    if Units(s) <= c.maxUnits || rest == [] {
      SpareNone(rest);
      assert Unpinned(rest)[..n] == [];
      assert Culled(c, s, skipped, rest, n, now) == s;
    } else if rest[0].pin > 0 {
      assert s.order == (skipped + [rest[0]]) + rest[1..];
      CollectScan(c, s, skipped + [rest[0]], rest[1..], now);
      CulledPinned(c, s, skipped, rest, n, now);
    } else {
      var t := s.(order := Without(s.order, |skipped|));
      var u := Discard(c, t, rest[0].key, rest[0].value, now);
      assert u.order == skipped + rest[1..];
      UnitsWithout(s.order, |skipped|);
      assert ([rest[0]] + Unpinned(rest[1..]))[1..] == Unpinned(rest[1..]);
      CollectScan(c, u, skipped, rest[1..], now);
      CulledUnpinned(c, t, skipped, rest, n, now);
    }
  }

  lemma {:induction false} SpareNone<V>(es: seq<Entry<V>>)
    ensures Spare(es, 0) == es
  {
    if es != [] {
      SpareNone(es[1..]);
    }
  }

  lemma {:induction false} SpareUnits<V>(es: seq<Entry<V>>, n: nat)
    requires n <= |Unpinned(es)|
    ensures UnitsOf(Spare(es, n)) + UnitsOf(Unpinned(es)[..n]) == UnitsOf(es)
  {
    if es == [] {
    } else if es[0].pin == 0 && n > 0 {
      SpareUnits(es[1..], n - 1);
      assert Unpinned(es)[..n][1..] == Unpinned(es[1..])[..n - 1];
    } else {
      SpareUnits(es[1..], n);
      assert ([es[0]] + Spare(es[1..], n))[1..] == Spare(es[1..], n);
      if es[0].pin == 0 {
        assert Unpinned(es)[..0] == Unpinned(es[1..])[..0];
      }
    }
  }

  /** Eviction takes the shortest run of unpinned entries, oldest first, that ends the overflow, or all of them. */
  lemma EvictionIsShortestOldestRun<V, R>(c: Config<V, R>, s: State<V, R>, now: int)
    requires c.reentrant ==> Units(s) <= c.maxUnits
    ensures var us, t := Unpinned(s.order), Collect(c, s, 0, now);
            var n := Needed(us, Units(s) - c.maxUnits);
            && t == State(Spare(s.order, n), s.off, s.deferred, s.disposed + Pairs(us[..n]),
                 s.removed + Emitted(c, us[..n], now))
            && Units(t) == Units(s) - UnitsOf(us[..n])
            && (Units(t) <= c.maxUnits || n == |us|)
            && forall m: nat :: m < n ==> Units(s) - UnitsOf(us[..m]) > c.maxUnits
  {
    assert [] + s.order == s.order;
    if c.reentrant {
      SpareNone(s.order);
      assert Unpinned(s.order)[..0] == [];
    } else {
      CollectScan(c, s, [], s.order, now);
    }
    SpareUnits(s.order, Needed(Unpinned(s.order), Units(s) - c.maxUnits));
  }
}
