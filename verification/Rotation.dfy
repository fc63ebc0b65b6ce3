/**
 * Inserting into a cache whose deleter inserts again, when the cache may be full: what `Reentry` says the nested calls
 * come to, one key at a time.
 */
module Rotation {
  import opened Lists
  import opened CacheModel
  import opened CacheInvariant
  import opened CacheTheorems
  import opened CacheCells
  import opened Reentry

  /** The cache is full, and its deleter would insert again. */
  predicate Crowded<V, R>(c: Config<V, R>, s: State<V, R>) { c.reentrant && |s.order| >= c.maxUnits }

  /** Inserting under a new key returns: there is room, or an eviction makes room, or the deleter drops some entry. */
  ghost predicate Returns<V, R>(c: Config<V, R>, s: State<V, R>, k: string, now: int) {
    && Idle(c, s) && EntryAt(s.order, k).None?
    && (Crowded(c, s) ==> FirstDropped(c, s.order, now) < |s.order|)
  }

  /** The cache after the insertion, where it returns. */
  function Inserted<V, R>(c: Config<V, R>, s: State<V, R>, k: string, v: V, now: int): State<V, R> {
    if Crowded(c, s) && FirstDropped(c, s.order, now) < |s.order| then Rotated(c, s, s.order, [], k, v, now)
    else Put(c, s, k, v, now)
  }

  /** That is what the nested calls return. */
  lemma InsertedReturns<V, R>(c: Config<V, R>, s: State<V, R>, k: string, v: V, now: int, fuel: nat)
    requires Returns(c, s, k, now) && c.reentrant && !c.lru && fuel >= 3 * |s.order| + 2
    ensures InsertF(c, s, k, v, now, fuel) == Some(Inserted(c, s, k, v, now))
  {
    hide *;
    ReturnsParts(c, s, k, now);
    IdleFacts(c, s);
    FindFails(s.order, k);
    CrowdedIs(c, s);
    InsertedIs(c, s, k, v, now);
    if Crowded(c, s) {
      IdleIsFull(c, s, k);
      FullInsertReturns(c, s, s.order, [], k, v, now, fuel);
    } else {
      ListedUnits(s);
      MayPutIntro(c, s, k);
      InsertIs(c, s, k, v, now);
      RoomyInsertReturns(c, s, k, v, now, fuel);
    }
  }

  lemma ReturnsParts<V, R>(c: Config<V, R>, s: State<V, R>, k: string, now: int)
    requires Returns(c, s, k, now)
    ensures Idle(c, s) && EntryAt(s.order, k).None? && (Crowded(c, s) ==> FirstDropped(c, s.order, now) < |s.order|)
  {
  }

  lemma CrowdedIs<V, R>(c: Config<V, R>, s: State<V, R>)
    ensures Crowded(c, s) <==> c.reentrant && |s.order| >= c.maxUnits
  {
  }

  lemma InsertedIs<V, R>(c: Config<V, R>, s: State<V, R>, k: string, v: V, now: int)
    ensures Inserted(c, s, k, v, now) ==
            if Crowded(c, s) && FirstDropped(c, s.order, now) < |s.order| then Rotated(c, s, s.order, [], k, v, now)
            else Put(c, s, k, v, now)
  {
  }

  lemma IdleIsFull<V, R>(c: Config<V, R>, s: State<V, R>, k: string)
    requires Idle(c, s) && Crowded(c, s) && EntryAt(s.order, k).None?
    ensures Full(c, s, s.order, []) && !HasKey(s.order, k) && s.order != []
  {
    FindFails(s.order, k);
    assert s.order + [] == s.order;
  }

  lemma MayPutIntro<V, R>(c: Config<V, R>, s: State<V, R>, k: string)
    requires Idle(c, s) && EntryAt(s.order, k).None? && !Crowded(c, s)
    ensures MayPut(c, s, k)
  {
  }

  // ----- One key in the rotated list -----

  lemma FirstEntry<V>(es: seq<Entry<V>>, k: string)
    requires es != []
    ensures EntryAt(es, k) == if es[0].key == k then Some(es[0]) else EntryAt(es[1..], k)
    ensures EntryAt<V>([], k) == None
  {
  }

  lemma {:induction false} EntryConcat<V>(a: seq<Entry<V>>, b: seq<Entry<V>>, k: string)
    ensures EntryAt(a + b, k) == if EntryAt(a, k).Some? then EntryAt(a, k) else EntryAt(b, k)
  {
    if a == [] {
      assert a + b == b;
    } else {
      hide EntryAt;
      FirstEntry(a, k);
      FirstEntry(a + b, k);
      assert (a + b)[1..] == a[1..] + b;
      EntryConcat(a[1..], b, k);
    }
  }

  lemma {:induction false} EntryAgain<V, R>(c: Config<V, R>, es: seq<Entry<V>>, k: string, now: int)
    requires forall i :: 0 <= i < |es| ==> c.Outcome(es[i].value, now).Keep?
    ensures EntryAt(Again(c, es, now), k) ==
            match EntryAt(es, k)
            case None => None
            case Some(e) => match c.Outcome(e.value, now)
                            case Keep(w, _) => Some(Entry(k, w, 0, 1, now))
                            case Drop(_) => None
  {
    if es != [] {
      hide EntryAt, Again, AgainOf;
      assert es == [es[0]] + es[1..];
      ConsFacts(c, es[0], es[1..], now);
      AgainIs(c, es[0], now);
      FirstEntry(es, k);
      FirstEntry(Again(c, es, now), k);
      assert Again(c, es, now)[1..] == Again(c, es[1..], now);
      EntryAgain(c, es[1..], k, now);
    }
  }

  lemma {:induction false} GoneConcat<V>(a: seq<(string, V)>, b: seq<(string, V)>, k: string)
    ensures GoneAt(a + b, k) == GoneAt(a, k) + GoneAt(b, k)
  {
    if b == [] {
      assert a + b == a;
    } else {
      GoneConcat(a, b[..|b| - 1], k);
      assert (a + b)[..|a + b| - 1] == a + b[..|b| - 1];
    }
  }

  lemma GoneOne<V>(p: (string, V), k: string)
    ensures GoneAt([p], k) == if p.0 == k then [p.1] else []
    ensures GoneAt<V>([], k) == []
  {
    assert [p][..0] == [];
  }

  lemma NoEntry<V>(es: seq<Entry<V>>, e: Entry<V>)
    requires UniqueKeys([e] + es)
    ensures EntryAt(es, e.key).None? && UniqueKeys(es)
  {
    var all := [e] + es;
    assert es == all[1..] && e == all[0];
    FindFails(es, e.key);
  }

  /** What the entries leave in the logs under one key. */
  lemma {:induction false} LogsAt<V, R>(c: Config<V, R>, es: seq<Entry<V>>, of: R -> string, k: string, now: int)
    requires UniqueKeys(es) && forall i :: 0 <= i < |es| ==> Bears(c, es[i].key, es[i].value, of, now)
    ensures GoneAt(Pairs(es), k) == match EntryAt(es, k) case None => [] case Some(e) => [e.value]
    ensures SentAt(EmittedBack(c, es, now), of, k)
         == match EntryAt(es, k) case None => [] case Some(e) => c.Outcome(e.value, now).out
  {
    hide *;
    if es == [] {
      NoLogs(c, of, k, now);
    } else {
      var e, rest := es[0], es[1..];
      assert es == [e] + rest;
      NoEntry(rest, e);
      FirstEntry(es, k);
      ConsFacts(c, e, rest, now);
      EmittedBackCons(c, e, rest, now);
      LogsAt(c, rest, of, k, now);
      GoneConcat([(e.key, e.value)], Pairs(rest), k);
      GoneOne((e.key, e.value), k);
      SentConcat(EmittedBack(c, rest, now), c.Outcome(e.value, now).out, of, k);
      BearsOut(c, e, of, now);
      SentAll(c.Outcome(e.value, now).out, of, k, e.key);
    }
  }

  lemma BearsOut<V, R>(c: Config<V, R>, e: Entry<V>, of: R -> string, now: int)
    requires Bears(c, e.key, e.value, of, now)
    ensures forall r <- c.Outcome(e.value, now).out :: of(r) == e.key
  {
  }

  lemma NoLogs<V, R>(c: Config<V, R>, of: R -> string, k: string, now: int)
    ensures Pairs<V>([]) == [] && EmittedBack(c, [], now) == [] && EntryAt<V>([], k) == None
    ensures GoneAt<V>([], k) == [] && SentAt([], of, k) == []
  {
  }

  lemma UniqueParts<V>(a: seq<Entry<V>>, b: seq<Entry<V>>, k: string)
    requires UniqueKeys(a + b)
    ensures UniqueKeys(a) && UniqueKeys(b) && (EntryAt(a, k).None? || EntryAt(b, k).None?)
  {
    var l := a + b;
    assert forall i :: 0 <= i < |a| ==> l[i] == a[i];
    assert forall i :: 0 <= i < |b| ==> l[|a| + i] == b[i];
    FindFails(a, k);
    FindFails(b, k);
    forall i, j | 0 <= i < |a| && 0 <= j < |b| ensures a[i].key != b[j].key {
      assert l[i] == a[i] && l[|a| + j] == b[j];
    }
  }

  /** The deleter's outcome for the entry under `k` among the first entries of the full list. */
  lemma RotatedEntry<V, R>(c: Config<V, R>, s: State<V, R>, k: string, v: V, j: string, now: int)
    requires UniqueKeys(s.order) && EntryAt(s.order, k).None? && FirstDropped(c, s.order, now) < |s.order|
    ensures var m := FirstDropped(c, s.order, now);
            EntryAt(Rotated(c, s, s.order, [], k, v, now).order, j) ==
            if j == k then Some(Entry(k, v, 0, 1, now))
            else match EntryAt(s.order[..m + 1], j)
                 case None => EntryAt(s.order, j)
                 case Some(e) => match c.Outcome(e.value, now)
                                 case Keep(w, _) => Some(Entry(j, w, 0, 1, now))
                                 case Drop(_) => None
  {
    var m := FirstDropped(c, s.order, now);
    var rest, e, again := s.order[m + 1..], Entry(k, v, 0, 1, now), Again(c, s.order[..m], now);
    hide *;
    RotatedOrder(c, s, k, v, now);
    KeptBefore(c, s.order, now);
    SplitEntry(s.order, m, j);
    SplitEntry(s.order, m, k);
    ThreeEntries(rest, e, again, j);
    EntryAgain(c, s.order[..m], j, now);
  }

  /** What is found in a list, by the part in which it is. */
  lemma SplitEntry<V>(es: seq<Entry<V>>, m: nat, k: string)
    requires UniqueKeys(es) && m < |es|
    ensures EntryAt(es, k) == if EntryAt(es[..m + 1], k).Some? then EntryAt(es[..m + 1], k) else EntryAt(es[m + 1..], k)
    ensures EntryAt(es[..m + 1], k).None? || EntryAt(es[m + 1..], k).None?
    ensures EntryAt(es[..m + 1], k)
         == if EntryAt(es[..m], k).Some? then EntryAt(es[..m], k) else if es[m].key == k then Some(es[m]) else None
    ensures EntryAt(es[..m], k).None? || es[m].key != k
  {
    hide *;
    var a := es[..m + 1];
    assert es == a + es[m + 1..] && a == es[..m] + [es[m]];
    UniqueParts(a, es[m + 1..], k);
    UniqueParts(es[..m], [es[m]], k);
    EntryConcat(a, es[m + 1..], k);
    EntryConcat(es[..m], [es[m]], k);
    FirstEntry([es[m]], k);
  }

  lemma ThreeEntries<V>(a: seq<Entry<V>>, e: Entry<V>, b: seq<Entry<V>>, k: string)
    ensures EntryAt(a + [] + [e] + b, k) ==
            if EntryAt(a, k).Some? then EntryAt(a, k) else if e.key == k then Some(e) else EntryAt(b, k)
  {
    hide *;
    assert a + [] + [e] + b == a + ([e] + b);
    EntryConcat(a, [e] + b, k);
    EntryConcat([e], b, k);
    FirstEntry([e], k);
  }

  lemma RotatedOrder<V, R>(c: Config<V, R>, s: State<V, R>, k: string, v: V, now: int)
    requires FirstDropped(c, s.order, now) < |s.order|
    ensures var m := FirstDropped(c, s.order, now);
            Rotated(c, s, s.order, [], k, v, now).order
            == s.order[m + 1..] + [] + [Entry(k, v, 0, 1, now)] + Again(c, s.order[..m], now)
  {
    hide Again, FirstDropped;
  }

  lemma KeptBefore<V, R>(c: Config<V, R>, es: seq<Entry<V>>, now: int)
    ensures var m := FirstDropped(c, es, now);
            && (forall i :: 0 <= i < m ==> c.Outcome(es[..m][i].value, now).Keep?)
            && (m < |es| ==> c.Outcome(es[m].value, now).Drop?)
  {
    hide FirstDropped;
  }

  /** Every entry up to the first that is dropped goes through the deleter once. */
  lemma RotatedCell<V, R>(c: Config<V, R>, s: State<V, R>, k: string, v: V, of: R -> string, j: string, now: int)
    requires UniqueKeys(s.order) && EntryAt(s.order, k).None? && FirstDropped(c, s.order, now) < |s.order|
    requires AllBear(c, s.order, of, now)
    ensures var x, y := CellAt(s, of, j), CellAt(Rotated(c, s, s.order, [], k, v, now), of, j);
            if j == k then y == x.(value := Some(v), since := now)
            else y == x || (x.value.Some? && y == Retired(c, x, now))
  {
    hide *;
    var m := FirstDropped(c, s.order, now);
    var gone := s.order[..m + 1];
    RotatedEntry(c, s, k, v, j, now);
    RotatedLogs(c, s, k, v, now);
    assert s.order == gone + s.order[m + 1..];
    UniqueParts(gone, s.order[m + 1..], j);
    EntryConcat(gone, s.order[m + 1..], j);
    AllBearEach(c, s.order, of, now);
    LogsAt(c, gone, of, j, now);
    GoneConcat(s.disposed, Pairs(gone), j);
    SentConcat(s.removed, EmittedBack(c, gone, now), of, j);
    CellIs(s, of, j);
    CellIs(Rotated(c, s, s.order, [], k, v, now), of, j);
    RetiredIs(c, CellAt(s, of, j), now);
    assert GoneAt(s.disposed, j) + [] == GoneAt(s.disposed, j)
        && SentAt(s.removed, of, j) + [] == SentAt(s.removed, of, j);
  }

  lemma RotatedLogs<V, R>(c: Config<V, R>, s: State<V, R>, k: string, v: V, now: int)
    requires FirstDropped(c, s.order, now) < |s.order|
    ensures var gone := s.order[..FirstDropped(c, s.order, now) + 1];
            var t := Rotated(c, s, s.order, [], k, v, now);
            t.disposed == s.disposed + Pairs(gone) && t.removed == s.removed + EmittedBack(c, gone, now)
  {
  }

  lemma AllBearEach<V, R>(c: Config<V, R>, es: seq<Entry<V>>, of: R -> string, now: int)
    requires AllBear(c, es, of, now) && UniqueKeys(es)
    ensures forall i :: 0 <= i < |es| ==> Bears(c, es[i].key, es[i].value, of, now)
  {
    hide Bears;
    forall i | 0 <= i < |es| ensures Bears(c, es[i].key, es[i].value, of, now) {
      FoundAt(es, i);
      assert ValueAt(es, es[i].key) == Some(es[i].value);
    }
  }

  lemma CellIs<V, R>(s: State<V, R>, of: R -> string, j: string)
    ensures CellAt(s, of, j) == Cell(match EntryAt(s.order, j) case Some(e) => Some(e.value) case None => None,
                                     match EntryAt(s.order, j) case Some(e) => e.lastUse case None => 0,
                                     GoneAt(s.disposed, j), SentAt(s.removed, of, j))
  {
  }

  lemma RetiredIs<V, R>(c: Config<V, R>, x: Cell<V, R>, now: int)
    ensures x.value.Some? ==>
              var f := c.Outcome(x.value.value, now);
              Retired(c, x, now) == Cell(match f case Keep(w, _) => Some(w) case Drop(_) => None,
                                       if f.Keep? then now else 0, x.gone + [x.value.value], x.sent + f.out)
  {
  }

  // ----- The whole list -----

  /** The keys are the old ones, the first of them moved behind the new key; so none occurs twice. */
  lemma RotatedUnique<V, R>(c: Config<V, R>, s: State<V, R>, k: string, v: V, now: int)
    requires UniqueKeys(s.order) && !HasKey(s.order, k) && FirstDropped(c, s.order, now) < |s.order|
    ensures UniqueKeys(Rotated(c, s, s.order, [], k, v, now).order)
  {
    var m := FirstDropped(c, s.order, now);
    var t, n := Rotated(c, s, s.order, [], k, v, now).order, |s.order| - m - 1;
    AgainKeys(c, s.order[..m], now);
    hide Again, AgainOf, FirstDropped;
    forall i, j | 0 <= i < j < |t| ensures t[i].key != t[j].key {
      KeyOfRotated(c, s, k, v, i, now);
      KeyOfRotated(c, s, k, v, j, now);
    }
  }

  lemma {:induction false} AgainKeys<V, R>(c: Config<V, R>, es: seq<Entry<V>>, now: int)
    requires forall i :: 0 <= i < |es| ==> c.Outcome(es[i].value, now).Keep?
    ensures |Again(c, es, now)| == |es|
    ensures forall i :: 0 <= i < |es| ==>
              var e := Again(c, es, now)[i]; e.key == es[i].key && e.pin == 0 && e.units == 1 && e.lastUse == now
  {
    if es != [] {
      AgainKeys(c, es[1..], now);
    }
  }

  /** Where the `i`-th entry of the rotated list comes from. */
  lemma KeyOfRotated<V, R>(c: Config<V, R>, s: State<V, R>, k: string, v: V, i: nat, now: int)
    requires FirstDropped(c, s.order, now) < |s.order|
    requires i < |Rotated(c, s, s.order, [], k, v, now).order|
    ensures |Rotated(c, s, s.order, [], k, v, now).order| == |s.order|
    ensures var m := FirstDropped(c, s.order, now);
            var e, n := Rotated(c, s, s.order, [], k, v, now).order[i], |s.order| - m - 1;
            && (i < n ==> e == s.order[m + 1 + i])
            && (i >= n ==> e.pin == 0 && e.units == 1 && e.lastUse == now)
            && (i == n ==> e.key == k)
            && (i > n ==> e.key == s.order[i - n - 1].key)
  {
    var m := FirstDropped(c, s.order, now);
    AgainKeys(c, s.order[..m], now);
  }

  lemma InsertedIdle<V, R>(c: Config<V, R>, s: State<V, R>, k: string, v: V, now: int)
    requires Returns(c, s, k, now)
    ensures Idle(c, Inserted(c, s, k, v, now))
  {
    hide *;
    ReturnsParts(c, s, k, now);
    CrowdedIs(c, s);
    InsertedIs(c, s, k, v, now);
    if Crowded(c, s) {
      FindFails(s.order, k);
      IdleUnique(c, s);
      RotatedUnique(c, s, k, v, now);
      RotatedIdle(c, s, k, v, now);
    } else {
      MayPutIntro(c, s, k);
      PutIdle(c, s, k, v, now);
    }
  }

  lemma RotatedIdle<V, R>(c: Config<V, R>, s: State<V, R>, k: string, v: V, now: int)
    requires Idle(c, s) && Crowded(c, s) && FirstDropped(c, s.order, now) < |s.order|
    requires UniqueKeys(Rotated(c, s, s.order, [], k, v, now).order)
    ensures Idle(c, Rotated(c, s, s.order, [], k, v, now))
  {
    var t := Rotated(c, s, s.order, [], k, v, now);
    forall i | 0 <= i < |t.order| ensures t.order[i].pin == 0 && t.order[i].units == 1 {
      KeyOfRotated(c, s, k, v, i, now);
    }
    IdleFacts(c, s);
    KeyOfRotated(c, s, k, v, 0, now) by {
      assert t.order != [];
    }
    hide Again, AgainOf, FirstDropped, UnitsOf, EmittedBack, Rotated;
    RotatedRest(c, s, k, v, now);
    ListedUnits(t);
  }

  lemma RotatedRest<V, R>(c: Config<V, R>, s: State<V, R>, k: string, v: V, now: int)
    requires FirstDropped(c, s.order, now) < |s.order|
    ensures var t := Rotated(c, s, s.order, [], k, v, now); t.off == s.off && t.deferred == s.deferred
  {
  }

  lemma InsertedInTime<V, R>(c: Config<V, R>, s: State<V, R>, k: string, v: V, now: int)
    requires Returns(c, s, k, now) && InTime(s.order, now)
    ensures InTime(Inserted(c, s, k, v, now).order, now)
  {
    ReturnsParts(c, s, k, now);
    CrowdedIs(c, s);
    InsertedIs(c, s, k, v, now);
    hide Idle, Again, AgainOf, FirstDropped, Crowded, Returns, Inserted, Put, EntryAt, Rotated;
    if Crowded(c, s) {
      var t := Rotated(c, s, s.order, [], k, v, now).order;
      forall i, j | 0 <= i < j < |t| ensures t[i].lastUse <= t[j].lastUse <= now {
        KeyOfRotated(c, s, k, v, i, now);
        KeyOfRotated(c, s, k, v, j, now);
      }
      forall i | 0 <= i < |t| ensures t[i].lastUse <= now {
        KeyOfRotated(c, s, k, v, i, now);
      }
    } else {
      PutInTime(c, s, k, v, now);
    }
  }

  /** Inserting under a new key sets its cell; the cell of any other key stays, or is retired, once. */
  lemma InsertedCell<V, R>(c: Config<V, R>, s: State<V, R>, k: string, v: V, of: R -> string, j: string, now: int)
    requires Returns(c, s, k, now) && AllBear(c, s.order, of, now)
    ensures var x, y := CellAt(s, of, j), CellAt(Inserted(c, s, k, v, now), of, j);
            if j == k then y == x.(value := Some(v), since := now)
            else y == x || (x.value.Some? && y == Retired(c, x, now))
  {
    hide *;
    ReturnsParts(c, s, k, now);
    CrowdedIs(c, s);
    InsertedIs(c, s, k, v, now);
    IdleUnique(c, s);
    if Crowded(c, s) {
      RotatedCell(c, s, k, v, of, j, now);
    } else {
      MayPutIntro(c, s, k);
      AllBearTagged(c, s.order, of, now, now);
      PutCell(c, s, k, v, of, j, now);
    }
  }
}
