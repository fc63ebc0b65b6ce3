module LruCache {
  import opened Lists
  import opened CacheModel
  import opened CacheInvariant
  import opened LruElem

  class Cache<V(==), R> {
    var config: Config<V, R>
    var units: int
    var pinnedUnits: int
    var table: map<string, Elem<V>>
    var defer: map<string, Elem<V>>
    const head: Elem<V>
    var removed: seq<R>

    ghost var disposed: seq<(string, V)>
    /** The table, or during `RemoveAll` what is left of it. */
    ghost var live: map<string, Elem<V>>
    ghost var order: seq<Elem<V>>
    ghost var off: seq<Elem<V>>
    ghost var deferred: seq<Elem<V>>
    ghost var rings: map<string, seq<Elem<V>>>
    ghost var repr: set<Elem<V>>

    // ----- The representation invariant -----

    ghost predicate Shape()
      reads this`order, this`off, this`deferred, this`rings, this`defer, this`live, this`repr, repr`next, repr`prev
    {
      && head in repr && Within(order, repr) && Within(off, repr) && Within(deferred, repr)
      && Located(head, live, order, off)
      && Aside(head, live, deferred, rings, defer)
      && IsRing([head] + order) && Unlinked(off) && AllRings(rings, repr)
    }

    ghost function Snapshot(): (s: State<V, R>)
      reads this`order, this`off, this`deferred, this`disposed, this`removed
      reads order`value, order`pin, order`units, order`lastUse, off`value, off`pin, off`units, off`lastUse
      reads deferred`value, deferred`pin, deferred`units, deferred`lastUse
      ensures s == State(Snap(order), Snap(off), Snap(deferred), disposed, removed)
    {
      State(Snap(order), Snap(off), Snap(deferred), disposed, removed)
    }

    ghost predicate Inv()
      reads this`config, this`units, this`pinnedUnits, this`order, this`off, this`deferred, this`rings, this`defer
      reads this`live, this`repr, this`disposed, this`removed, repr
    {
      && Shape()
      && Wf(config, Snapshot())
      && units == Units(Snapshot())
      && pinnedUnits == PinnedUnits(Snapshot())
    }

    ghost predicate Valid()
      reads this, repr
    {
      Inv() && live == table
    }

    /**
     * What `Valid` says of the two linked structures and the counters: the list is a circular doubly linked one of
     * exactly the unpinned table entries, or in age mode of all; each deferred ring holds that key's removed entries,
     * all pinned; no element is in two places; and the counters count.
     */
    lemma RepresentationInvariant()
      requires Valid()
      ensures IsRing([head] + order) && forall e <- order :: e.key in table && table[e.key] == e
      ensures forall k <- table :: table[k].key == k && (table[k] in order <==> (config.lru ==> table[k].pin == 0))
      ensures forall k <- defer :: k in rings && rings[k] != [] && rings[k][0] == defer[k] && IsRing(rings[k])
      ensures forall k <- defer :: forall e <- rings[k] ::
          e.key == k && e.pin > 0 && e !in order && !(k in table && table[k] == e)
      ensures forall e <- deferred :: e.key in defer && e in rings[e.key]
      ensures units == Units(Snapshot()) && pinnedUnits == PinnedUnits(Snapshot())
    {
      hide Units, PinnedUnits, UnitsOf, PinnedUnitsOf, IsRing;
      forall k <- table ensures table[k].key == k && (table[k] in order <==> (config.lru ==> table[k].pin == 0)) {
        ListedOrHeld(table[k]);
      }
      forall k <- defer, e <- rings[k] ensures e.key == k && e.pin > 0 && e !in order && !(k in table && table[k] == e)
      {
        DeferredPinned(e);
      }
    }

    lemma ListedOrHeld(e: Elem<V>)
      requires Valid() && (e in order || e in off)
      ensures e in order ==> e !in off && (config.lru ==> e.pin == 0)
      ensures e in off ==> config.lru && e.pin > 0
    {
      hide Units, PinnedUnits, UnitsOf, PinnedUnitsOf, IsRing, AllRings, Aside;
      if e in order {
        var i :| 0 <= i < |order| && order[i] == e;
        assert Snap(order)[i] == e.Entry();
      } else {
        var i :| 0 <= i < |off| && off[i] == e;
        assert Snap(off)[i] == e.Entry();
      }
    }

    lemma DeferredPinned(e: Elem<V>)
      requires Valid() && e in deferred
      ensures e.pin > 0 && e !in order
    {
      hide Units, PinnedUnits, UnitsOf, PinnedUnitsOf, IsRing, AllRings;
      var i :| 0 <= i < |deferred| && deferred[i] == e;
      assert Snap(deferred)[i] == e.Entry();
    }

    /** `e` belongs to the cache but to none of its structures. */
    ghost predicate Spare(e: Elem<V>)
      reads this`order, this`off, this`deferred, this`live, this`repr, e`next, e`prev
    {
      && e in repr && e != head && e.next == null && e.prev == null
      && e !in order && e !in off && e !in deferred && e.key !in live
    }

    /** The state between taking `e` out of the table and disposing of it. */
    ghost predicate InvWithout(e: Elem<V>)
      reads this`config, this`units, this`pinnedUnits, this`order, this`off, this`deferred, this`rings, this`defer
      reads this`live, this`repr, this`disposed, this`removed, repr, e
    {
      && Shape() && Spare(e)
      && Wf(config, Snapshot()) && Loose(config, Snapshot(), e.Entry())
      && units == Units(Snapshot()) + e.units
      && pinnedUnits == PinnedUnits(Snapshot()) + (if e.pin > 0 then e.units else 0)
    }

    lemma ShapeIntro()
      requires head in repr && Within(order, repr) && Within(off, repr) && Within(deferred, repr)
      requires Located(head, live, order, off)
      requires Aside(head, live, deferred, rings, defer)
      requires IsRing([head] + order) && Unlinked(off) && AllRings(rings, repr)
      ensures Shape()
    {
    }

    constructor (config: Config<V, R>, nobody: V)
      requires config.reentrant ==> config.maxUnits >= 0
      ensures Valid() && fresh(repr) && this.config == config
      ensures Snapshot() == State([], [], [], [], [])
    {
      this.config := config;
      units, pinnedUnits, table, defer, removed := 0, 0, map[], map[], [];
      var h := new Elem("", nobody, 0, 0, -1);
      head := h;
      disposed, live, order, off, deferred, rings := [], map[], [], [], [], map[];
      repr := {h};
      new;
      head.next := head;
      head.prev := head;
      EmptyValid();
    }

    lemma EmptyValid()
      requires order == [] && off == [] && deferred == [] && rings == map[] && defer == map[] && live == table == map[]
      requires head in repr && head.next == head && head.prev == head && units == 0 && pinnedUnits == 0
      requires config.reentrant ==> config.maxUnits >= 0
      ensures Valid()
    {
      EmptyShape();
      EmptyWf(Snapshot());
      hide *;
      InvIntro();
      ValidIntro();
    }

    lemma EmptyShape()
      requires order == [] && off == [] && deferred == [] && rings == map[] && defer == map[] && live == map[]
      requires head in repr && head.next == head && head.prev == head
      ensures Shape()
    {
    }

    lemma EmptyWf(s: State<V, R>)
      requires s.order == [] && s.off == [] && s.deferred == [] && (config.reentrant ==> config.maxUnits >= 0)
      ensures Wf(config, s) && Units(s) == 0 && PinnedUnits(s) == 0
    {
    }

    // ----- Where an element is -----

    ghost predicate Listed(e: Elem<V>, i: nat)
      reads this`order
    {
      i < |order| && order[i] == e
    }

    ghost predicate Held(e: Elem<V>, i: nat)
      reads this`off
    {
      i < |off| && off[i] == e
    }

    /** `e` is the `i`-th element of the age list or, unlinked, of those that LRU mode keeps off it. */
    ghost predicate At(e: Elem<V>, i: nat)
      reads this`order, this`off, e`next, e`prev
    {
      if e.next != null then Listed(e, i) else e.prev == null && Held(e, i)
    }

    lemma Whereabouts(e: Elem<V>) returns (i: nat)
      requires Shape() && e.key in live && live[e.key] == e
      ensures At(e, i)
    {
      if e in order {
        i :| 0 <= i < |order| && order[i] == e;
        assert ([head] + order)[i + 1] == e;
        RingNeighbours([head] + order, i + 1);
      } else {
        i :| 0 <= i < |off| && off[i] == e;
      }
    }

    lemma AtFacts(e: Elem<V>, i: nat)
      requires Shape() && At(e, i)
      ensures e.key in live && live[e.key] == e && e in repr && e != head && e !in deferred
      ensures e.next == null ==> e !in order
      ensures e.next != null ==> e !in off && e.next in repr && e.prev in repr
    {
      if e.next != null {
        assert e in order && ([head] + order)[i + 1] == e;
        RingNeighbours([head] + order, i + 1);
      } else {
        assert e in off;
      }
    }

    // ----- Taking an element out of the table -----

    lemma ListedFacts(e: Elem<V>, i: nat)
      requires Shape() && Listed(e, i)
      ensures head in repr && Within(Without(order, i), repr) && Within(off, repr) && Within(deferred, repr)
      ensures Located(head, live - {e.key}, Without(order, i), off)
      ensures Aside(head, live - {e.key}, deferred, rings, defer)
      ensures IsRing([head] + order) && Unlinked(off) && AllRings(rings, repr)
      ensures i < |order| && |[head] + order| == |order| + 1 && ([head] + order)[i + 1] == e
      ensures Without([head] + order, i + 1) == [head] + Without(order, i)
      ensures e in repr && e.prev in repr && e.next in repr
      ensures forall x <- [head] + order :: Clear([], rings, off, x)
      ensures e !in Without(order, i)
    {
      assert e in order;
      RingsApart(head, live, order, off, deferred, rings, defer);
      AsideSmallerTable(head, live, e.key, deferred, rings, defer);
      LocatedWithoutListed(head, live, order, off, i);
      assert ([head] + order)[i + 1] == e;
      RingNeighbours([head] + order, i + 1);
      assert Without([head] + order, i + 1) == [head] + Without(order, i);
    }

    lemma HeldFacts(e: Elem<V>, i: nat)
      requires Shape() && Held(e, i)
      ensures head in repr && Within(order, repr) && Within(Without(off, i), repr) && Within(deferred, repr)
      ensures Located(head, live - {e.key}, order, Without(off, i))
      ensures Aside(head, live - {e.key}, deferred, rings, defer)
      ensures IsRing([head] + order) && Unlinked(Without(off, i)) && AllRings(rings, repr)
      ensures i < |off| && e !in Without(off, i)
    {
      assert e in off;
      AsideSmallerTable(head, live, e.key, deferred, rings, defer);
      LocatedWithoutHeld(head, live, order, off, i);
      UnlinkedWithout(off, i);
    }

    method DetachListed(e: Elem<V>, ghost i: nat)
      requires Shape() && Listed(e, i)
      modifies this`order, this`live, repr`next, repr`prev
      ensures Shape() && e.next == null && e.prev == null
      ensures live == old(live) - {e.key} && i < |old(order)| && order == Without(old(order), i) && e !in order
    {
      hide *;
      ListedFacts(e, i);
      e.UnlinkApart([head] + order, i + 1, [], rings, repr, off);
      order := Without(order, i);
      live := live - {e.key};
      ShapeIntro();
    }

    ghost method DetachHeld(e: Elem<V>, i: nat)
      requires Shape() && Held(e, i)
      modifies this`off, this`live
      ensures Shape()
      ensures live == old(live) - {e.key} && i < |old(off)| && off == Without(old(off), i) && e !in off
    {
      hide *;
      HeldFacts(e, i);
      off := Without(off, i);
      live := live - {e.key};
      ShapeIntro();
    }

    /** Takes `e` off the list it is on, if any, and out of the logical table. */
    method Detach(e: Elem<V>, ghost i: nat)
      requires Shape() && At(e, i)
      modifies this`order, this`off, this`live, repr`next, repr`prev
      ensures Shape() && e.next == null && e.prev == null
      ensures live == old(live) - {e.key}
      ensures if old(e.next) != null then i < |old(order)| && order == Without(old(order), i) && off == old(off)
              else i < |old(off)| && off == Without(old(off), i) && order == old(order)
      ensures e !in order && e !in off
    {
      AtFacts(e, i);
      hide Shape;
      if e.next != null {
        DetachListed(e, i);
      } else {
        DetachHeld(e, i);
      }
    }

    // ----- Putting an element somewhere -----

    lemma SpareFacts(e: Elem<V>)
      requires Shape() && Spare(e)
      ensures head in repr && Within(order + [e], repr) && Within(off + [e], repr) && Within(deferred + [e], repr)
      ensures Within(order, repr) && Within(off, repr) && Within(deferred, repr)
      ensures Located(head, live, order, off) && Located(head, live[e.key := e], order + [e], off)
      ensures Located(head, live[e.key := e], order, off + [e])
      ensures Aside(head, live, deferred, rings, defer) && Aside(head, live[e.key := e], deferred, rings, defer)
      ensures IsRing([head] + order) && Unlinked(off) && AllRings(rings, repr) && Unlinked(off + [e])
      ensures AllRings(rings - {e.key}, repr)
      ensures e in repr && head.next in repr && e !in [head] + order
      ensures Clear([head] + order, rings - {e.key}, off, e) && Clear([], rings, off, e)
      ensures forall x <- [head] + order :: Clear([], rings, off, x)
    {
      RingsApart(head, live, order, off, deferred, rings, defer);
      AsideDefer(head, live, deferred, rings, defer, e);
      LocatedAppend(head, live, order, off, e);
      AsideLargerTable(head, live, e, deferred, rings, defer);
      AllRingsSmaller(rings, repr, e.key);
      UnlinkedAppend(off, e);
      RingNeighbours([head] + order, 0);
    }

    /** Links `e` into the age list as its newest element and enters it in the logical table. */
    method Enlist(e: Elem<V>)
      requires Shape() && Spare(e)
      modifies this`order, this`live, repr`next, repr`prev
      ensures Shape() && order == old(order) + [e] && live == old(live)[e.key := e]
    {
      hide *;
      SpareFacts(e);
      assert ([head] + order)[0] == head && [head] + order + [e] == [head] + (order + [e]);
      e.LinkApart(head, [head] + order, [], rings, repr, off);
      order := order + [e];
      live := live[e.key := e];
      ShapeIntro();
    }

    /** Enters `e` in the logical table without linking it. */
    ghost method Hold(e: Elem<V>)
      requires Shape() && Spare(e)
      modifies this`off, this`live
      ensures Shape() && off == old(off) + [e] && live == old(live)[e.key := e]
    {
      hide *;
      SpareFacts(e);
      off := off + [e];
      live := live[e.key := e];
      ShapeIntro();
    }

    lemma RingFacts(e: Elem<V>)
      requires Shape() && Spare(e)
      ensures e.key in rings <==> e.key in defer
      ensures e.key in rings ==>
                && IsRing(rings[e.key]) && rings[e.key][0] == defer[e.key] && e !in rings[e.key]
                && defer[e.key] in repr && defer[e.key].next in repr
                && Within(rings[e.key] + [e], repr)
                && (forall x <- rings[e.key] :: Clear([head] + order, rings - {e.key}, off, x))
                && Aside(head, live, deferred + [e], rings[e.key := rings[e.key] + [e]], defer)
      ensures e.key !in rings ==>
                Within([e], repr) && Aside(head, live, deferred + [e], rings[e.key := [e]], defer[e.key := e])
    {
      AsideDefer(head, live, deferred, rings, defer, e);
      RingsApart(head, live, order, off, deferred, rings, defer);
      if e.key in rings {
        RingNeighbours(rings[e.key], 0);
      }
    }

    /** The first deferred element of its key makes a ring of its own. */
    method StartRing(e: Elem<V>)
      requires Shape() && Spare(e) && e.key !in defer
      modifies this`defer, this`rings, this`deferred, repr`next, repr`prev
      ensures Shape() && deferred == old(deferred) + [e]
    {
      hide *;
      SpareFacts(e);
      RingFacts(e);
      e.LinkAlone([head] + order, rings - {e.key}, repr, off);
      AllRingsUpdate(rings, repr, e.key, [e]);
      defer := defer[e.key := e];
      rings := rings[e.key := [e]];
      deferred := deferred + [e];
      ShapeIntro();
    }

    /** A further deferred element joins the ring. */
    method JoinRing(e: Elem<V>)
      requires Shape() && Spare(e) && e.key in defer
      modifies this`rings, this`deferred, repr`next, repr`prev
      ensures Shape() && deferred == old(deferred) + [e]
    {
      hide *;
      SpareFacts(e);
      RingFacts(e);
      e.LinkApart(defer[e.key], rings[e.key], [head] + order, rings - {e.key}, repr, off);
      AllRingsUpdate(rings, repr, e.key, rings[e.key] + [e]);
      rings := rings[e.key := rings[e.key] + [e]];
      deferred := deferred + [e];
      ShapeIntro();
    }

    /** Puts a pinned element that was removed on the ring of its key. */
    method PutAside(e: Elem<V>)
      requires Shape() && Spare(e)
      modifies this`defer, this`rings, this`deferred, repr`next, repr`prev
      ensures Shape() && deferred == old(deferred) + [e]
    {
      hide *;
      if e.key !in defer {
        StartRing(e);
      } else {
        JoinRing(e);
      }
    }

    // ----- Removing and disposing -----

    lemma InvFacts()
      requires Inv()
      ensures Shape() && Wf(config, Snapshot())
      ensures units == Units(Snapshot()) && pinnedUnits == PinnedUnits(Snapshot())
    {
    }

    lemma InvIntro()
      requires Shape() && Wf(config, Snapshot())
      requires units == Units(Snapshot()) && pinnedUnits == PinnedUnits(Snapshot())
      ensures Inv()
    {
    }

    lemma LeavesAt(e: Elem<V>, i: nat, now: int)
      requires Shape() && Wf(config, Snapshot()) && At(e, i)
      ensures var s := Snapshot();
              if e.next != null then
                i < |s.order| && Leaves(config, s, e.Entry(), s.(order := Without(s.order, i)), now)
                    && Find(s.order, e.key) == i
              else
                i < |s.off| && Leaves(config, s, e.Entry(), s.(off := Without(s.off, i)), now)
                && Find(s.order, e.key) == |s.order| && Find(s.off, e.key) == i
    {
      hide Wf, Shape, Leaves;
      if e.next != null {
        LeavesListed(config, Snapshot(), i, now);
      } else {
        LeavesHeld(config, Snapshot(), i, now);
      }
    }

    lemma InvWithoutIntro(e: Elem<V>, s: State<V, R>, now: int)
      requires Shape() && Leaves(config, s, e.Entry(), Snapshot(), now)
      requires units == Units(s) && pinnedUnits == PinnedUnits(s)
      requires e in repr && e != head && e.next == null && e.prev == null
      requires e !in order && e !in off && e !in deferred && e.key !in live
      ensures InvWithout(e) && Retire(config, Snapshot(), e.Entry(), now) == CacheModel.Remove(config, s, e.key, now)
    {
      hide Wf, Loose, Shape;
    }

    /** The first half of `Remove(Elem*)`. */
    method TakeOut(e: Elem<V>, ghost i: nat, ghost now: int)
      requires Inv() && At(e, i)
      modifies this`order, this`off, this`live, repr`next, repr`prev
      ensures InvWithout(e)
      ensures live == old(live) - {e.key}
      ensures if old(e.next) != null then i < |old(order)| && order == Without(old(order), i) && off == old(off)
              else order == old(order)
      ensures var s := old(Snapshot());
              Snapshot() == if old(e.next) != null then s.(order := Without(s.order, i))
                  else s.(off := Without(s.off, i))
      ensures Retire(config, Snapshot(), e.Entry(), now) == CacheModel.Remove(config, old(Snapshot()), e.key, now)
    {
      hide *;
      InvFacts();
      AtFacts(e, i);
      LeavesAt(e, i, now);
      ghost var s, listed, was, held := Snapshot(), e.next != null, order, off;
      Detach(e, i);
      if listed {
        SnapWithout(was, i);
      } else {
        SnapWithout(held, i);
      }
      InvWithoutIntro(e, s, now);
    }

    lemma TableFacts(k: string)
      requires Shape()
      ensures InTable(Snapshot(), k) <==> k in live
      ensures k in live ==> TableEntry(Snapshot(), k) == live[k].Entry()
    {
      var s := Snapshot();
      if k in live {
        if live[k] in order {
          var i :| 0 <= i < |order| && order[i] == live[k];
          assert s.order[i].key == k;
        } else {
          var i :| 0 <= i < |off| && off[i] == live[k];
          assert s.off[i].key == k;
        }
      }
      if InTable(s, k) {
        if Find(s.order, k) < |s.order| {
          assert order[Find(s.order, k)] in order;
        } else {
          assert off[Find(s.off, k)] in off;
        }
      }
    }

    /** `e` is unpinned and in none of the structures; only `units` still counts it. */
    ghost predicate Disposable(e: Elem<V>)
      reads this`config, this`units, this`pinnedUnits, this`order, this`off, this`deferred, this`rings, this`defer
      reads this`live, this`repr, this`disposed, this`removed, repr, e
    {
      && Shape() && Wf(config, Snapshot()) && e.pin == 0 && Unowned(Snapshot(), e.key, e.value)
      && units == Units(Snapshot()) + e.units && pinnedUnits == PinnedUnits(Snapshot())
      && (config.reentrant ==>
           e.key !in live && !HasKey(Snapshot().deferred, e.key) && units - e.units < config.maxUnits)
    }

    lemma DisposableFacts(e: Elem<V>)
      requires Disposable(e)
      ensures Shape() && Wf(config, Snapshot()) && Unowned(Snapshot(), e.key, e.value)
      ensures units - e.units == Units(Snapshot()) && pinnedUnits == PinnedUnits(Snapshot())
      ensures config.reentrant ==>
          e.key !in live && !HasKey(Snapshot().deferred, e.key) && units - e.units < config.maxUnits
    {
    }

    lemma TakenOutDisposable(e: Elem<V>)
      requires InvWithout(e) && e.pin == 0
      ensures Disposable(e)
    {
    }

    lemma AfterLog(s: State<V, R>)
      requires Shape() && Wf(config, s) && units == Units(s) && pinnedUnits == PinnedUnits(s)
      requires Snapshot() == s.(disposed := Snapshot().disposed, removed := Snapshot().removed)
      ensures Inv()
    {
      WfLogs(config, s, Snapshot().disposed, Snapshot().removed);
      hide Wf, Shape;
    }

    lemma KeepReady(k: string, w: V, now: int)
      requires Inv() && config.reentrant && live == table && k !in live && !HasKey(Snapshot().deferred, k)
          && units < config.maxUnits
      ensures Valid() && MayInsert(config, Snapshot(), k, w, 1)
      ensures CacheModel.Insert(config, Snapshot(), k, w, 1, now)
           == Snapshot().(order := Snapshot().order + [CacheModel.Entry(k, w, 0, 1, now)])
    {
      hide *;
      ValidIntro();
      InvFacts();
      TableFacts(k);
      MayInsertOne(Snapshot(), k, w);
      ReenterInsert(config, Snapshot(), k, w, 1, now);
    }

    lemma MayInsertOne(s: State<V, R>, k: string, w: V)
      requires Units(s) < config.maxUnits && !InTable(s, k) && !HasKey(s.deferred, k)
      ensures MayInsert(config, s, k, w, 1)
    {
    }

    /**
     * The deleter is called when the cache no longer owns the value; `whole` says that the call is not made by
     * `RemoveAll`, and then everything that holds between calls holds here, so that the deleter may call the cache.
     */
    method RemoveElement(k: string, v: V, now: int, ghost whole: bool)
      requires Inv() && Unowned(Snapshot(), k, v) && (whole ==> Valid())
      requires config.reentrant ==> whole && k !in live && !HasKey(Snapshot().deferred, k) && units < config.maxUnits
      modifies this, repr
      ensures Inv() && fresh(repr - old(repr)) && config == old(config) && (whole ==> Valid())
      ensures Snapshot() == CacheModel.Discard(config, old(Snapshot()), k, v, now)
      ensures old(order) <= order
      ensures !config.reentrant ==> table == old(table) && live == old(live) && order == old(order) && off == old(off)
      decreases 2, 1
    {
      hide *;
      if whole {
        ValidFacts();
      }
      DiscardIs(config, Snapshot(), k, v, now);
      Record(k, v);
      match config.Outcome(v, now) {
        case Drop(out) =>
          Hand(out);
        case Keep(w, out) =>
          KeepReady(k, w, now);
          Insert(k, w, 1, now);
          ValidFacts();
          Hand(out);
      }
      if whole {
        ValidIntro();
      }
    }

    ghost method Record(k: string, v: V)
      requires Inv()
      modifies this`disposed
      ensures Inv() && Snapshot() == old(Snapshot()).(disposed := old(disposed) + [(k, v)])
    {
      hide *;
      InvFacts();
      ghost var s := Snapshot();
      disposed := disposed + [(k, v)];
      AfterLog(s);
    }

    /** `AddRemovedItem`, for each item. */
    method Hand(out: seq<R>)
      requires Inv()
      modifies this`removed
      ensures Inv() && Snapshot() == old(Snapshot()).(removed := old(removed) + out)
    {
      hide *;
      InvFacts();
      ghost var s := Snapshot();
      removed := removed + out;
      AfterLog(s);
    }

    /** `e` is unpinned and out of the table: forget its units and hand its value to the deleter. */
    method Discard(e: Elem<V>, now: int, ghost whole: bool)
      requires Disposable(e) && (whole ==> live == table) && (config.reentrant ==> whole)
      modifies this, repr
      ensures Inv() && fresh(repr - old(repr)) && config == old(config) && (whole ==> Valid())
      ensures Snapshot() == CacheModel.Discard(config, old(Snapshot()), e.key, old(e.value), now)
      ensures old(order) <= order
      ensures !config.reentrant ==> table == old(table) && live == old(live) && order == old(order) && off == old(off)
      decreases 2, 2
    {
      hide *;
      DisposableFacts(e);
      units := units - e.units;
      InvIntro();
      if whole {
        ValidIntro();
      }
      RemoveElement(e.key, e.value, now, whole);
    }

    lemma RetireIs(e: Elem<V>, now: int)
      ensures e.pin > 0 ==>
                Retire(config, Snapshot(), e.Entry(), now) == Snapshot().(deferred := Snapshot().deferred + [e.Entry()])
      ensures e.pin == 0 ==>
                Retire(config, Snapshot(), e.Entry(), now)
                    == CacheModel.Discard(config, Snapshot(), e.key, e.value, now)
    {
    }

    lemma InvWithoutFacts(e: Elem<V>)
      requires InvWithout(e)
      ensures Shape() && Spare(e) && e.key !in live
      ensures Wf(config, Snapshot()) && Loose(config, Snapshot(), e.Entry())
      ensures units == Units(Snapshot()) + e.units
      ensures e.pin > 0 ==> pinnedUnits - e.units == PinnedUnits(Snapshot())
    {
    }

    lemma AfterPutAside(s: State<V, R>, e: Elem<V>)
      requires Shape() && Wf(config, s) && Loose(config, s, e.Entry()) && e.pin > 0
      requires Snapshot() == s.(deferred := s.deferred + [e.Entry()])
      requires units == Units(s) + e.units && pinnedUnits == PinnedUnits(s)
      ensures Inv()
    {
      UnitsAppend(s.deferred, e.Entry());
      RetireWf(config, s, e.Entry(), 0);
      hide Wf, Shape;
    }

    /** `e` is pinned and out of the table: it waits on the ring of its key. */
    method DeferElem(e: Elem<V>)
      requires InvWithout(e) && e.pin > 0
      modifies this, repr`next, repr`prev
      ensures Inv() && repr == old(repr) && config == old(config)
      ensures Snapshot() == old(Snapshot().(deferred := Snapshot().deferred + [e.Entry()]))
      ensures table == old(table) && live == old(live) && order == old(order)
    {
      hide *;
      InvWithoutFacts(e);
      ghost var s, was := Snapshot(), deferred;
      pinnedUnits := pinnedUnits - e.units;
      PutAside(e);
      SnapAppend(was, e);
      AfterPutAside(s, e);
    }

    /** `Remove(Elem*)`: `e` goes to the deferred table if it is pinned and is discarded otherwise. */
    method RemoveElem(e: Elem<V>, ghost i: nat, now: int, ghost whole: bool)
      requires Inv() && At(e, i) && (whole ==> table == live - {e.key}) && (config.reentrant ==> whole)
      modifies this, repr
      ensures Inv() && fresh(repr - old(repr)) && config == old(config) && (whole ==> Valid())
      ensures Snapshot() == CacheModel.Remove(config, old(Snapshot()), e.key, now)
      ensures !config.reentrant ==> table == old(table) && live == old(live) - {e.key}
      ensures old(e.next) != null ==> i < |old(order)| && Without(old(order), i) <= order
      decreases 2, 3
    {
      hide *;
      TakeOut(e, i, now);
      InvWithoutFacts(e);
      RetireIs(e, now);
      if e.pin > 0 {
        DeferElem(e);
        if whole {
          ValidIntro();
        }
      } else {
        TakenOutDisposable(e);
        Discard(e, now, whole);
      }
    }

    lemma SameIndex(e: Elem<V>, i: nat)
      requires Shape() && At(e, i)
      ensures forall j: nat :: Listed(e, j) ==> e.next != null && j == i
    {
      assert e.next == null ==> e in off;
    }

    lemma ValidFacts()
      requires Valid()
      ensures Inv() && Shape() && live == table
    {
    }

    lemma ValidIntro()
      requires Inv() && live == table
      ensures Valid()
    {
    }

    method Remove(k: string, now: int)
      requires Valid()
      modifies this, repr
      ensures Valid() && fresh(repr - old(repr)) && config == old(config)
      ensures Snapshot() == CacheModel.Remove(config, old(Snapshot()), k, now)
      ensures old(k !in table) ==> order == old(order)
      ensures forall i: nat :: old(k in table && Listed(table[k], i)) ==>
          i < |old(order)| && Without(old(order), i) <= order
      decreases if k in table then 2 else 0, 4
    {
      hide *;
      ValidFacts();
      TableFacts(k);
      if k in table {
        var e := table[k];
        KeyOf(k);
        ghost var i := Whereabouts(e);
        SameIndex(e, i);
        table := table - {k};
        RemoveElem(e, i, now, true);
      } else {
        NotRemoved(k, now);
      }
    }

    lemma KeyOf(k: string)
      requires Shape() && k in live
      ensures live[k].key == k
    {
    }

    lemma NotRemoved(k: string, now: int)
      requires !InTable(Snapshot(), k)
      ensures CacheModel.Remove(config, Snapshot(), k, now) == Snapshot()
    {
    }

    // ----- Collecting -----

    lemma Walk(i: nat)
      requires Shape() && i < |order|
      ensures order[i] != head && order[i].prev == (if i + 1 < |order| then order[i + 1] else head) && At(order[i], i)
          && Listed(order[i], i)
      ensures order[i].key in live && live[order[i].key] == order[i] && Snapshot().order[i] == order[i].Entry()
    {
      assert ([head] + order)[i + 1] == order[i] && order[i] in order;
      RingNeighbours([head] + order, i + 1);
      if i + 1 < |order| {
        assert ([head] + order)[i + 2] == order[i + 1];
      }
    }

    lemma Oldest()
      requires Shape()
      ensures head.prev == (if |order| > 0 then order[0] else head)
    {
      RingNeighbours([head] + order, 0);
      if |order| > 0 {
        assert ([head] + order)[1] == order[0];
      }
    }

    lemma CollectStep(i: nat, now: int)
      requires Inv() && units > config.maxUnits && i < |order|
      ensures !config.reentrant
      ensures var s := Snapshot();
              CacheModel.Collect(config, s, i, now) ==
              if order[i].pin > 0 then CacheModel.Collect(config, s, i + 1, now)
              else CacheModel.Collect(
                     config, CacheModel.Discard(config, s.(order := Without(s.order, i)), order[i].key, order[i].value,
                         now), i, now)
    {
    }

    lemma CollectEnds(i: nat, now: int)
      requires Inv() && (units <= config.maxUnits || i >= |order|)
      ensures CacheModel.Collect(config, Snapshot(), i, now) == Snapshot()
    {
    }

    /** Erases, unlinks and discards an unpinned element. */
    method CollectOne(e: Elem<V>, ghost i: nat, now: int)
      requires Valid() && Listed(e, i) && At(e, i) && e.pin == 0 && !config.reentrant
      requires i < |Snapshot().order|
      modifies this, repr
      ensures Valid() && fresh(repr - old(repr)) && config == old(config)
      ensures i < |old(order)| && order == Without(old(order), i)
      ensures var s := old(Snapshot());
              Snapshot() == CacheModel.Discard(config, s.(order := Without(s.order, i)), e.key, old(e.value), now)
      decreases 2, 3
    {
      hide *;
      ValidFacts();
      AtListed(e, i);
      table := table - {e.key};
      TakeOut(e, i, now);
      TakenOutDisposable(e);
      Discard(e, now, true);
    }

    lemma AtListed(e: Elem<V>, i: nat)
      requires Shape() && Listed(e, i) && At(e, i)
      ensures e.next != null
    {
      assert e in order;
      assert e.next == null ==> e in off;
    }

    lemma ListedFromHead()
      requires Shape()
      ensures forall i :: 0 <= i < |order| ==> order[i] != head
    {
      assert forall i :: 0 <= i < |order| ==> order[i] in order;
    }

    /** Walks the age list from its oldest element and discards unpinned elements while the cache is overfull. */
    method GarbageCollect(now: int)
      requires Valid()
      modifies this, repr
      ensures Valid() && fresh(repr - old(repr)) && config == old(config)
      ensures Snapshot() == CacheModel.Collect(config, old(Snapshot()), 0, now)
      ensures old(units) <= config.maxUnits ==> order == old(order)
      decreases if units > config.maxUnits then 3 else 0, 0
    {
      hide *;
      ValidFacts();
      Oldest();
      ListedFromHead();
      var e := head.prev;
      ghost var i := 0;
      while units > config.maxUnits && e != head
        invariant Valid() && fresh(repr - old(repr)) && config == old(config)
        invariant i <= |order| && e == (if i < |order| then order[i] else head)
        invariant CacheModel.Collect(config, Snapshot(), i, now) == CacheModel.Collect(config, old(Snapshot()), 0, now)
        invariant old(units) <= config.maxUnits ==> units == old(units) && order == old(order)
        decreases |order| - i
      {
        ValidFacts();
        Walk(i);
        CollectStep(i, now);
        var prev := e.prev;
        if e.pin == 0 {
          CollectOne(e, i, now);
        } else {
          i := i + 1;
        }
        e := prev;
        ValidFacts();
      }
      ValidFacts();
      ListedFromHead();
      CollectEnds(i, now);
    }

    // ----- Pinning and unpinning -----

    lemma Others(e: Elem<V>, i: nat)
      requires Shape() && At(e, i)
      ensures if e.next != null
              then i < |order| && order[i] == e && forall j :: 0 <= j < |order| && j != i ==> order[j] != e
              else i < |off| && off[i] == e && forall j :: 0 <= j < |off| && j != i ==> off[j] != e
      ensures e.next != null ==> forall j :: 0 <= j < |off| ==> off[j] != e
      ensures e.next == null ==> forall j :: 0 <= j < |order| ==> order[j] != e
      ensures forall j :: 0 <= j < |deferred| ==> deferred[j] != e
    {
      AtFacts(e, i);
      assert forall j :: 0 <= j < |off| ==> off[j] in off;
      assert forall j :: 0 <= j < |order| ==> order[j] in order;
      assert forall j :: 0 <= j < |deferred| ==> deferred[j] in deferred;
    }

    /** The state in which the entry of `e`, at place `i`, reads `f`. */
    ghost function Replaced(s: State<V, R>, listed: bool, i: nat, f: Entry<V>): State<V, R>
      requires if listed then i < |s.order| else i < |s.off|
    {
      if listed then s.(order := s.order[i := f]) else s.(off := s.off[i := f])
    }

    /** The fields of a table element change, its links do not. */
    method Touch(e: Elem<V>, ghost i: nat, value: V, pin: nat, units: nat, lastUse: int)
      requires Shape() && At(e, i)
      modifies e`value, e`pin, e`units, e`lastUse
      ensures Shape() && At(e, i) && e.Entry() == CacheModel.Entry(e.key, value, pin, units, lastUse)
      ensures e.value == value && e.pin == pin && e.units == units && e.lastUse == lastUse
      ensures if e.next != null then i < |old(Snapshot()).order| else i < |old(Snapshot()).off|
      ensures Snapshot() == Replaced(old(Snapshot()), e.next != null, i, e.Entry())
    {
      hide *;
      Others(e, i);
      ghost var s := Snapshot();
      ReplacedIs(s, e.next != null, i, CacheModel.Entry(e.key, value, pin, units, lastUse));
      e.value, e.pin, e.units, e.lastUse := value, pin, units, lastUse;
      EntryOf(e);
      assert Snap(deferred) == s.deferred;
      assert e.next == null ==> Snap(order) == s.order;
      assert e.next != null ==> Snap(off) == s.off;
    }

    lemma ReplacedIs(s: State<V, R>, listed: bool, i: nat, f: Entry<V>)
      requires if listed then i < |s.order| else i < |s.off|
      ensures Replaced(s, listed, i, f) == if listed then s.(order := s.order[i := f]) else s.(off := s.off[i := f])
    {
    }

    /** `e` is new: it is not counted yet in the sums of the model, but already in the counters. */
    ghost predicate Entering(e: Elem<V>)
      reads this`config, this`units, this`pinnedUnits, this`order, this`off, this`deferred, this`rings, this`defer
      reads this`live, this`repr, this`disposed, this`removed, repr, e
    {
      && Shape() && Spare(e) && Wf(config, Snapshot()) && e.pin > 0
      && !HasKey(Snapshot().order, e.key) && !HasKey(Snapshot().off, e.key)
      && !Owns(Snapshot().deferred, e.key, e.value)
      && units == Units(Snapshot()) + e.units && pinnedUnits == PinnedUnits(Snapshot()) + e.units
      && (config.reentrant ==> e.units > 0 && units <= config.maxUnits && !HasKey(Snapshot().deferred, e.key))
    }

    lemma EnteringFacts(e: Elem<V>)
      requires Entering(e)
      ensures Shape() && Spare(e)
      ensures var s := Append(config, Snapshot(), e.Entry());
              Wf(config, s) && units == Units(s) && pinnedUnits == PinnedUnits(s)
      ensures Append(config, Snapshot(), e.Entry())
           == if config.lru then Snapshot().(off := Snapshot().off + [e.Entry()])
              else Snapshot().(order := Snapshot().order + [e.Entry()])
    {
      hide *;
      EnteringParts(e);
      EntryOf(e);
      AppendWf(config, Snapshot(), e.Entry());
      AppendPinned(config, Snapshot(), e.Entry());
    }

    lemma EnteringParts(e: Elem<V>)
      requires Entering(e)
      ensures Shape() && Spare(e) && Wf(config, Snapshot()) && e.pin > 0
      ensures !HasKey(Snapshot().order, e.key) && !HasKey(Snapshot().off, e.key)
          && !Owns(Snapshot().deferred, e.key, e.value)
      ensures units == Units(Snapshot()) + e.units && pinnedUnits == PinnedUnits(Snapshot()) + e.units
      ensures config.reentrant ==> e.units > 0 && units <= config.maxUnits && !HasKey(Snapshot().deferred, e.key)
    {
    }

    /** In age mode a new element goes on the list at once; in LRU mode the list has only unpinned elements. */
    method Enter(e: Elem<V>)
      requires Entering(e)
      modifies this`order, this`off, this`live, repr`next, repr`prev
      ensures Inv() && live == old(live)[e.key := e]
      ensures Snapshot() == Append(config, old(Snapshot()), e.Entry())
      ensures config.reentrant ==> old(order) <= order
    {
      hide *;
      EnteringFacts(e);
      ghost var was, held := order, off;
      if !config.lru {
        Enlist(e);
        SnapAppend(was, e);
      } else {
        Hold(e);
        SnapAppend(held, e);
      }
      InvIntro();
    }

    lemma EnteringIntro(e: Elem<V>, s: State<V, R>)
      requires Shape() && Spare(e) && e.pin > 0 && Snapshot() == s && Wf(config, s)
      requires !HasKey(s.order, e.key) && !HasKey(s.off, e.key) && !Owns(s.deferred, e.key, e.value)
      requires units == Units(s) + e.units && pinnedUnits == PinnedUnits(s) + e.units
      requires config.reentrant ==> e.units > 0 && units <= config.maxUnits && !HasKey(s.deferred, e.key)
      ensures Entering(e)
    {
    }

    lemma Unseen(e: Elem<V>)
      requires Shape() && e !in repr
      ensures e != head && e !in order && e !in off && e !in deferred
      ensures Within(order, repr + {e}) && Within(off, repr + {e}) && Within(deferred, repr + {e})
      ensures AllRings(rings, repr + {e})
      ensures head in repr && Located(head, live, order, off) && Aside(head, live, deferred, rings, defer)
      ensures IsRing([head] + order) && Unlinked(off)
    {
      AllRingsLarger(rings, repr, e);
    }

    ghost method Adopt(e: Elem<V>)
      requires Shape() && e !in repr && e.next == null && e.prev == null && e.key !in live
      modifies this`repr
      ensures Shape() && Spare(e) && repr == old(repr) + {e}
    {
      hide *;
      Unseen(e);
      repr := repr + {e};
      ShapeIntro();
      SpareIntro(e);
    }

    /** A new element joins the objects of the cache and is counted. */
    method Create(k: string, v: V, u: nat, now: int) returns (e: Elem<V>)
      requires Inv() && MayEnter(k, v, u)
      modifies this`repr, this`units, this`pinnedUnits
      ensures Entering(e) && fresh(e) && repr == old(repr) + {e}
      ensures e.key == k && e.Entry() == CacheModel.Entry(k, v, 1, u, now)
      ensures Snapshot() == old(Snapshot()) && units == old(units) + u
    {
      hide *;
      InvFacts();
      MayEnterFacts(k, v, u);
      ghost var s := Snapshot();
      e := new Elem(k, v, 1, u, now);
      assert Snapshot() == s;
      EntryOf(e);
      Adopt(e);
      units := units + u;
      pinnedUnits := pinnedUnits + u;
      EnteringIntro(e, s);
    }

    lemma SpareIntro(e: Elem<V>)
      requires e in repr && e != head && e.next == null && e.prev == null
      requires e !in order && e !in off && e !in deferred && e.key !in live
      ensures Spare(e)
    {
    }

    ghost predicate MayEnter(k: string, v: V, u: nat)
      reads this`config, this`units, this`order, this`off, this`deferred, this`disposed, this`removed
      reads order`value, order`pin, order`units, order`lastUse, off`value, off`pin, off`units, off`lastUse
      reads deferred`value, deferred`pin, deferred`units, deferred`lastUse
    {
      && !HasKey(Snapshot().order, k) && !HasKey(Snapshot().off, k) && !Owns(Snapshot().deferred, k, v)
      && (config.reentrant ==> u > 0 && units + u <= config.maxUnits && !HasKey(Snapshot().deferred, k))
    }

    lemma MayEnterFacts(k: string, v: V, u: nat)
      requires Shape() && MayEnter(k, v, u)
      ensures var s := Snapshot();
              !HasKey(s.order, k) && !HasKey(s.off, k) && !Owns(s.deferred, k, v) && k !in live
      ensures config.reentrant ==> u > 0 && units + u <= config.maxUnits && !HasKey(Snapshot().deferred, k)
    {
      TableFacts(k);
    }

    /** The element is made, counted, entered in the table and, in age mode, listed. */
    method EnterNew(k: string, v: V, u: nat, now: int)
      requires Valid() && MayEnter(k, v, u)
      modifies this, repr
      ensures Valid() && fresh(repr - old(repr)) && config == old(config)
      ensures Snapshot() == Append(config, old(Snapshot()), CacheModel.Entry(k, v, 1, u, now))
      ensures units == old(units) + u
      ensures config.reentrant ==> old(order) <= order
    {
      hide *;
      ValidFacts();
      var e := Create(k, v, u, now);
      table := table[k := e];
      Enter(e);
      ValidIntro();
    }

    lemma RemovedForInsert(s: State<V, R>, k: string, v: V, u: nat, now: int)
      requires Wf(config, s) && MayInsert(config, s, k, v, u)
      ensures Wf(config, CacheModel.Remove(config, s, k, now))
      ensures config.reentrant ==>
          CacheModel.Remove(config, s, k, now) == s && !InTable(s, k)
          && Units(s) + u <= config.maxUnits
    {
      RemoveWf(config, s, k, now);
    }

    lemma MayEnterIntro(s: State<V, R>, k: string, v: V, u: nat, now: int)
      requires Wf(config, s) && MayInsert(config, s, k, v, u)
      requires Snapshot() == CacheModel.Remove(config, s, k, now) && units == Units(Snapshot())
      ensures MayEnter(k, v, u)
    {
      RemoveWf(config, s, k, now);
    }

    method InsertPinned(k: string, v: V, u: nat, now: int)
      requires Valid() && MayInsert(config, Snapshot(), k, v, u)
      modifies this, repr
      ensures Valid() && fresh(repr - old(repr)) && config == old(config)
      ensures Snapshot() == CacheModel.InsertPinned(config, old(Snapshot()), k, v, u, now)
      ensures config.reentrant ==> old(order) <= order
      decreases if config.reentrant then 1 else 3, 1
    {
      hide *;
      ValidFacts();
      InvFacts();
      ghost var s := Snapshot();
      RemovedForInsert(s, k, v, u, now);
      TableFacts(k);
      Remove(k, now);
      ValidFacts();
      InvFacts();
      MayEnterIntro(s, k, v, u, now);
      EnterNew(k, v, u, now);
      InsertPinnedIs(config, s, k, v, u, now);
      GarbageCollect(now);
    }

    lemma EntryOf(e: Elem<V>)
      ensures e.Entry() == CacheModel.Entry(e.key, e.value, e.pin, e.units, e.lastUse)
    {
    }

    // ----- Deferred elements -----

    /** Searches the ring of `k` from its second-oldest element; the oldest comes last. */
    method FindDeferred(k: string, v: V) returns (e: Elem?<V>, ghost j: nat)
      requires Shape() && k in defer
      ensures e != null ==> k in rings && j < |rings[k]| && rings[k][j] == e && e.value == v
      ensures e == null ==> k in rings && forall x <- rings[k] :: x.value != v
    {
      ghost var ring := rings[k];
      var first := defer[k];
      RingNeighbours(ring, 0);
      var x := first.prev;
      j := 1;
      while x != first && x.value != v
        invariant 1 <= j <= |ring| && x == ring[if j < |ring| then j else 0]
        invariant forall i :: 1 <= i < j ==> ring[i].value != v
        decreases |ring| - j
      {
        RingNeighbours(ring, j);
        x := x.prev;
        j := j + 1;
      }
      if x.value == v {
        e := x;
        j := if j < |ring| then j else 0;
      } else {
        e := null;
      }
    }

    lemma DeferredAt(e: Elem<V>, j: nat) returns (d: nat)
      requires Inv() && e.key in rings && j < |rings[e.key]| && rings[e.key][j] == e
      ensures d < |deferred| && deferred[d] == e && e in repr && e.pin > 0
      ensures FindValue(Snapshot().deferred, e.key, e.value) == d
    {
      assert e in rings[e.key];
      d :| 0 <= d < |deferred| && deferred[d] == e;
      assert Snapshot().deferred[d] == e.Entry();
    }

    lemma NotDeferred(k: string, v: V)
      requires Shape() && (k in rings ==> forall x <- rings[k] :: x.value != v)
      ensures FindValue(Snapshot().deferred, k, v) == |deferred|
    {
      assert forall i :: 0 <= i < |deferred| ==> deferred[i] in deferred;
    }

    lemma DeferKeys()
      requires Shape()
      ensures rings.Keys == defer.Keys
    {
    }

    lemma ForgetFacts(e: Elem<V>, d: nat, j: nat)
      requires Shape() && d < |deferred| && deferred[d] == e
      requires e.key in rings && j < |rings[e.key]| && rings[e.key][j] == e
      ensures head in repr && Within(order, repr) && Within(off, repr) && Within(Without(deferred, d), repr)
      ensures Located(head, live, order, off) && IsRing([head] + order) && Unlinked(off)
      ensures IsRing(rings[e.key]) && AllRings(rings - {e.key}, repr)
      ensures forall x <- rings[e.key] :: Clear([head] + order, rings - {e.key}, off, x)
      ensures e.key in defer && e in repr && e.next in repr && e.prev in repr
      ensures e == defer[e.key] <==> j == 0
      ensures e.prev == rings[e.key][if j + 1 < |rings[e.key]| then j + 1 else 0]
      ensures e.prev == e <==> |rings[e.key]| == 1
      ensures Within(Without(rings[e.key], j), repr)
    {
      assert e in deferred && e in rings[e.key];
      RingsApart(head, live, order, off, deferred, rings, defer);
      AllRingsSmaller(rings, repr, e.key);
      RingNeighbours(rings[e.key], j);
      assert rings[e.key][0] == defer[e.key];
      assert e.prev in rings[e.key];
    }

    lemma ForgetAside(e: Elem<V>, d: nat, j: nat)
      requires Shape() && d < |deferred| && deferred[d] == e
      requires e.key in rings && j < |rings[e.key]| && rings[e.key][j] == e
      ensures |rings[e.key]| == 1 ==> Aside(head, live, Without(deferred, d), rings - {e.key}, defer - {e.key})
      ensures |rings[e.key]| > 1 ==>
                Aside(head, live, Without(deferred, d), rings[e.key := Without(rings[e.key], j)],
                      defer[e.key := Without(rings[e.key], j)[0]])
    {
      assert Distinct(rings[e.key]);
      AsideWithout(head, live, deferred, rings, defer, d, j);
    }

    /** The next-oldest element becomes the first of the ring, if `e` was. */
    method DropFirst(e: Elem<V>, ghost d: nat, ghost j: nat)
      requires Shape() && d < |deferred| && deferred[d] == e
      requires e.key in rings && j < |rings[e.key]| && rings[e.key][j] == e
      modifies this`defer
      ensures var rest := Without(rings[e.key], j);
              defer == if rest == [] then old(defer) - {e.key} else old(defer)[e.key := rest[0]]
    {
      ForgetFacts(e, d, j);
      hide *;
      if e == defer[e.key] {
        if e.prev != e {
          defer := defer[e.key := e.prev];
        } else {
          defer := defer - {e.key};
        }
      }
    }

    /** Takes an element off its ring and out of the deferred table. */
    method Forget(e: Elem<V>, ghost d: nat, ghost j: nat)
      requires Shape() && d < |deferred| && deferred[d] == e
      requires e.key in rings && j < |rings[e.key]| && rings[e.key][j] == e
      modifies this`defer, this`rings, this`deferred, repr`next, repr`prev
      ensures Shape() && d < |old(deferred)| && deferred == Without(old(deferred), d)
    {
      hide *;
      ForgetFacts(e, d, j);
      ForgetAside(e, d, j);
      ghost var rest := Without(rings[e.key], j);
      DropFirst(e, d, j);
      e.UnlinkApart(rings[e.key], j, [head] + order, rings - {e.key}, repr, off);
      CloseRing(e.key, d, rest);
    }

    /** What is left of the ring of `k`. */
    ghost method CloseRing(k: string, d: nat, rest: seq<Elem<V>>)
      requires d < |deferred| && head in repr && Within(order, repr) && Within(off, repr)
          && Within(Without(deferred, d), repr)
      requires Located(head, live, order, off) && IsRing([head] + order) && Unlinked(off)
      requires AllRings(rings - {k}, repr) && Within(rest, repr) && (rest != [] ==> IsRing(rest))
      requires Aside(head, live, Without(deferred, d), if rest == [] then rings - {k} else rings[k := rest], defer)
      modifies this`rings, this`deferred
      ensures Shape() && deferred == Without(old(deferred), d)
    {
      hide *;
      if rest == [] {
        rings := rings - {k};
      } else {
        AllRingsUpdate(rings, repr, k, rest);
        rings := rings[k := rest];
      }
      deferred := Without(deferred, d);
      ShapeIntro();
    }

    /** `e` is the `d`-th deferred element and the `j`-th of its ring. */
    ghost predicate Waits(e: Elem<V>, d: nat, j: nat)
      reads this`deferred, this`rings
    {
      && d < |deferred| && deferred[d] == e
      && e.key in rings && j < |rings[e.key]| && rings[e.key][j] == e
    }

    lemma DeferredOthers(e: Elem<V>, d: nat)
      requires Shape() && d < |deferred| && deferred[d] == e
      ensures forall i :: 0 <= i < |deferred| && i != d ==> deferred[i] != e
      ensures forall i :: 0 <= i < |order| ==> order[i] != e
      ensures forall i :: 0 <= i < |off| ==> off[i] != e
    {
      assert e in deferred;
      assert forall i :: 0 <= i < |order| ==> order[i] in order;
      assert forall i :: 0 <= i < |off| ==> off[i] in off;
    }

    /** The fields of a deferred element change, its links do not. */
    method TouchDeferred(e: Elem<V>, ghost d: nat, pin: nat, units: nat)
      requires Shape() && d < |deferred| && deferred[d] == e
      modifies e`pin, e`units
      ensures Shape() && e.pin == pin && e.units == units
      ensures d < |old(Snapshot()).deferred|
      ensures Snapshot() == old(Snapshot()).(deferred := old(Snapshot()).deferred[d := e.Entry()])
    {
      hide Shape;
      DeferredOthers(e, d);
      ghost var s := Snapshot();
      e.pin, e.units := pin, units;
      assert Snapshot().order == s.order && Snapshot().off == s.off;
    }

    lemma StillPinned(s: State<V, R>, e: Elem<V>, d: nat, now: int)
      requires Shape() && Wf(config, s) && d < |s.deferred| && s.deferred[d] == e.Entry().(pin := e.pin + 1)
          && e.pin > 0
      requires Snapshot() == s.(deferred := s.deferred[d := e.Entry()])
      requires units == Units(s) && pinnedUnits == PinnedUnits(s)
      requires FindValue(s.deferred, e.key, e.value) == d
      ensures Inv() && Snapshot() == CacheModel.Release(config, s, e.key, e.value, now)
    {
      SetDeferredWf(config, s, d, e.Entry());
      hide Wf, Shape;
    }

    lemma DisposableIntro(e: Elem<V>)
      requires Shape() && Wf(config, Snapshot()) && e.pin == 0 && Unowned(Snapshot(), e.key, e.value)
      requires units == Units(Snapshot()) + e.units && pinnedUnits == PinnedUnits(Snapshot())
      requires config.reentrant ==>
          e.key !in live && !HasKey(Snapshot().deferred, e.key) && units - e.units < config.maxUnits
      ensures Disposable(e)
    {
    }

    /** In the re-entrant regime the key of a deferred element is nowhere else. */
    lemma DeferredKeyFree(e: Elem<V>, s: State<V, R>, d: nat)
      requires Shape() && Snapshot() == s.(deferred := Snapshot().deferred)
      requires config.reentrant ==> Loose(config, Snapshot(), e.Entry().(pin := 1))
      ensures config.reentrant ==>
                && e.key !in live && !HasKey(Snapshot().deferred, e.key)
                && e.units > 0 && Units(Snapshot()) + e.units <= config.maxUnits
      ensures PinnedUnits(s) == PinnedUnits(Snapshot())
    {
      TableFacts(e.key);
    }

    lemma LastPinIs(s: State<V, R>, e: Elem<V>, d: nat, now: int)
      requires d < |s.deferred| && s.deferred[d] == e.Entry().(pin := 1) && FindValue(s.deferred, e.key, e.value) == d
      requires Snapshot() == s.(deferred := Without(s.deferred, d))
      ensures CacheModel.Release(config, s, e.key, e.value, now)
          == CacheModel.Discard(config, Snapshot(), e.key, e.value, now)
    {
    }

    lemma LastPin(s: State<V, R>, e: Elem<V>, d: nat, now: int)
      requires Shape() && Wf(config, s) && d < |s.deferred| && s.deferred[d] == e.Entry().(pin := 1) && e.pin == 0
      requires Snapshot() == s.(deferred := Without(s.deferred, d))
      requires units == Units(s) && pinnedUnits == PinnedUnits(s)
      requires FindValue(s.deferred, e.key, e.value) == d
      ensures Disposable(e)
      ensures CacheModel.Release(config, s, e.key, e.value, now)
          == CacheModel.Discard(config, Snapshot(), e.key, e.value, now)
    {
      hide *;
      TakeDeferred(config, s, d);
      EntryOf(e);
      DeferredKeyFree(e, s, d);
      DisposableIntro(e);
      LastPinIs(s, e, d, now);
    }

    method ReleaseDeferred(e: Elem<V>, ghost d: nat, ghost j: nat, now: int)
      requires Valid() && Waits(e, d, j) && e.pin > 0
      requires FindValue(Snapshot().deferred, e.key, e.value) == d
      modifies this, repr
      ensures Valid() && fresh(repr - old(repr)) && config == old(config)
      ensures Snapshot() == CacheModel.Release(config, old(Snapshot()), e.key, old(e.value), now)
      decreases 2, 3
    {
      hide *;
      ValidFacts();
      InvFacts();
      WaitsFacts(e, d, j);
      EntryOf(e);
      ghost var s, was := Snapshot(), deferred;
      TouchDeferred(e, d, e.pin - 1, e.units);
      EntryOf(e);
      if e.pin > 0 {
        StillPinned(s, e, d, now);
        ValidIntro();
      } else {
        assert Snap(was) == s.deferred[d := e.Entry()];
        WithoutUpdate(s.deferred, d, e.Entry());
        ForgetLast(e, d, j);
        LastPin(s, e, d, now);
        Discard(e, now, true);
      }
    }

    method ForgetLast(e: Elem<V>, ghost d: nat, ghost j: nat)
      requires Shape() && d < |deferred| && deferred[d] == e
      requires e.key in rings && j < |rings[e.key]| && rings[e.key][j] == e
      modifies this`defer, this`rings, this`deferred, repr`next, repr`prev
      ensures Shape() && d < |old(deferred)| && deferred == Without(old(deferred), d)
      ensures d < |old(Snapshot()).deferred|
      ensures Snapshot() == old(Snapshot()).(deferred := Without(old(Snapshot()).deferred, d))
    {
      hide *;
      ghost var was := deferred;
      Forget(e, d, j);
      SnapWithout(was, d);
    }

    lemma WaitsFacts(e: Elem<V>, d: nat, j: nat)
      requires Shape() && Waits(e, d, j)
      ensures d < |deferred| && deferred[d] == e && Snapshot().deferred[d] == e.Entry() && e in repr
      ensures e.key in rings && j < |rings[e.key]| && rings[e.key][j] == e
    {
      assert e in deferred;
    }

    // ----- Releasing -----

    /** The entry of `e` with one pin less; in LRU mode it was used now. */
    ghost function Released(e: Elem<V>, now: int): Entry<V>
      reads this`config, e`value, e`pin, e`units, e`lastUse
      requires e.pin > 0
    {
      CacheModel.Entry(e.key, e.value, e.pin - 1, e.units, if config.lru then now else e.lastUse)
    }

    lemma FoundIn(e: Elem<V>, i: nat)
      requires Shape() && Wf(config, Snapshot()) && At(e, i)
      ensures var s := Snapshot();
              && InTable(s, e.key) && TableEntry(s, e.key) == e.Entry()
              && (if e.next != null then i < |s.order| && Find(s.order, e.key) == i && s.order[i] == e.Entry()
                  else (
                    && Find(s.order, e.key) == |s.order|
                    && i < |s.off| && Find(s.off, e.key) == i && s.off[i] == e.Entry()))
    {
      var s := Snapshot();
      if e.next != null {
        assert s.order[i] == e.Entry();
        FoundAt(s.order, i);
      } else {
        assert s.off[i] == e.Entry();
        FoundAt(s.off, i);
      }
    }

    lemma SettleFacts(e: Elem<V>, i: nat, now: int)
      requires Shape() && Wf(config, Snapshot()) && At(e, i) && e.pin > 0
      ensures e.next != null <==> !config.lru
      ensures var s, f := Snapshot(), Released(e, now);
              && (if config.lru then i < |s.off| else i < |s.order|)
              && InTable(s, e.key) && TableEntry(s, e.key) == e.Entry()
              && Settle(config, s, e.key, now) == (if f.pin == 0 && config.lru
                   then s.(off := Without(s.off, i), order := s.order + [f]) else Replaced(s, !config.lru, i, f))
      ensures var t := Settle(config, Snapshot(), e.key, now);
              Wf(config, t) && Units(t) == Units(Snapshot())
              && PinnedUnits(t) == PinnedUnits(Snapshot()) - (if e.pin == 1 then e.units else 0)
    {
      hide Shape, UnitsOf, PinnedUnitsOf;
      FoundIn(e, i);
      SettleWf(config, Snapshot(), e.key, now);
    }

    /** In LRU mode an unpinned element returns to the newest end of the list. */
    method Relist(e: Elem<V>, ghost i: nat)
      requires Shape() && At(e, i) && e.next == null
      modifies this`order, this`off, this`live, repr`next, repr`prev
      ensures Shape() && live == old(live) && i < |old(Snapshot()).off|
      ensures Snapshot() == old(Snapshot()).(off := Without(old(Snapshot()).off, i),
          order := old(Snapshot()).order + [e.Entry()])
      ensures old(order) <= order
    {
      hide *;
      AtFacts(e, i);
      HeldAt(e, i);
      ghost var was, held := order, off;
      DetachHeld(e, i);
      SpareIntro(e);
      Enlist(e);
      SnapWithout(held, i);
      SnapAppend(was, e);
    }

    lemma HeldAt(e: Elem<V>, i: nat)
      requires At(e, i) && e.next == null
      ensures Held(e, i) && e.prev == null
    {
    }

    method SettleElem(e: Elem<V>, ghost i: nat, now: int)
      requires Inv() && At(e, i) && e.pin > 0
      modifies this`order, this`off, this`live, this`pinnedUnits, repr
      ensures Inv() && live == old(live) && e.pin == old(e.pin) - 1 && e.key in live && live[e.key] == e
      ensures InTable(old(Snapshot()), e.key) && TableEntry(old(Snapshot()), e.key) == old(e.Entry())
      ensures Snapshot() == Settle(config, old(Snapshot()), e.key, now)
      ensures old(order) <= order
    {
      hide *;
      InvFacts();
      AtFacts(e, i);
      SettleFacts(e, i, now);
      ReleasedIs(e, now);
      EntryOf(e);
      ghost var s, t := Snapshot(), Settle(config, Snapshot(), e.key, now);
      Touch(e, i, e.value, e.pin - 1, e.units, if config.lru then now else e.lastUse);
      if e.pin == 0 {
        if config.lru {
          Relist(e, i);
          WithoutReplaced(s, i, e.Entry());
        }
        pinnedUnits := pinnedUnits - e.units;
      }
      assert Snapshot() == t;
      InvIntro();
    }

    lemma ReleasedIs(e: Elem<V>, now: int)
      requires e.pin > 0
      ensures Released(e, now)
           == CacheModel.Entry(e.key, e.value, e.pin - 1, e.units, if config.lru then now else e.lastUse)
    {
    }

    lemma WithoutReplaced(s: State<V, R>, i: nat, f: Entry<V>)
      requires i < |s.off|
      ensures Replaced(s, false, i, f) == s.(off := s.off[i := f])
      ensures Without(s.off[i := f], i) == Without(s.off, i)
    {
    }

    lemma UnpinIs(s: State<V, R>, k: string, now: int)
      requires InTable(s, k) && TableEntry(s, k).pin > 0
      ensures Unpin(config, s, k, now)
           == (if TableEntry(s, k).pin == 1 && Units(Settle(config, s, k, now)) > config.maxUnits
               then CacheModel.Remove(config, Settle(config, s, k, now), k, now) else Settle(config, s, k, now))
    {
    }

    lemma OrderWhenReentrant()
      requires Inv() && config.reentrant
      ensures units <= config.maxUnits
    {
    }

    /** Releases a pin of a table entry; the last pin of an entry of an overfull cache removes it. */
    method ReleaseTable(k: string, now: int)
      requires Valid() && k in table && table[k].pin > 0
      modifies this, repr
      ensures Valid() && fresh(repr - old(repr)) && config == old(config)
      ensures InTable(old(Snapshot()), k) && TableEntry(old(Snapshot()), k).pin > 0
      ensures Snapshot() == Unpin(config, old(Snapshot()), k, now)
      ensures config.reentrant ==> old(order) <= order
      decreases if config.reentrant then 0 else 3, 0
    {
      hide *;
      ValidFacts();
      KeyOf(k);
      var e := table[k];
      EntryOf(e);
      ghost var i := Whereabouts(e);
      if config.reentrant {
        OrderWhenReentrant();
      }
      ghost var s := Snapshot();
      SettleElem(e, i, now);
      InvFacts();
      UnpinIs(s, k, now);
      ValidIntro();
      if e.pin == 0 && units > config.maxUnits {
        NotReentrantNow();
        Remove(k, now);
      }
    }

    lemma NotReentrantNow()
      requires Inv() && units > config.maxUnits
      ensures !config.reentrant
    {
    }

    lemma ReleaseIs(s: State<V, R>, k: string, v: V, now: int)
      requires CacheModel.Pinned(s, k, v) && FindValue(s.deferred, k, v) == |s.deferred|
      ensures InTable(s, k) && TableEntry(s, k).value == v && TableEntry(s, k).pin > 0
      ensures CacheModel.Release(config, s, k, v, now) == Unpin(config, s, k, now)
    {
    }

    /** A deferred value is released first; otherwise the value is in the table. */
    method Release(k: string, v: V, now: int)
      requires Valid() && CacheModel.Pinned(Snapshot(), k, v)
      modifies this, repr
      ensures Valid() && fresh(repr - old(repr)) && config == old(config)
      ensures Snapshot() == CacheModel.Release(config, old(Snapshot()), k, v, now)
      ensures config.reentrant && k !in old(defer) ==> old(order) <= order
      decreases if config.reentrant && k !in defer then 0 else 3, 1
    {
      hide *;
      ValidFacts();
      DeferKeys();
      if k in defer {
        var e, j := FindDeferred(k, v);
        if e != null {
          RingKeys(k, j);
          ghost var d := DeferredAt(e, j);
          WaitsIntro(e, d, j);
          ReleaseDeferred(e, d, j, now);
          return;
        }
      }
      NotDeferred(k, v);
      ReleaseIs(Snapshot(), k, v, now);
      TableFacts(k);
      EntryOf(live[k]);
      ReleaseTable(k, now);
    }

    lemma RingKeys(k: string, j: nat)
      requires Shape() && k in rings && j < |rings[k]|
      ensures rings[k][j].key == k
    {
      assert rings[k][j] in rings[k];
    }

    lemma WaitsIntro(e: Elem<V>, d: nat, j: nat)
      requires d < |deferred| && deferred[d] == e
      requires e.key in rings && j < |rings[e.key]| && rings[e.key][j] == e
      ensures Waits(e, d, j)
    {
    }

    lemma InsertReady(s: State<V, R>, k: string, v: V, u: nat, now: int)
      requires Wf(config, s) && MayInsert(config, s, k, v, u)
      ensures CacheModel.Pinned(CacheModel.InsertPinned(config, s, k, v, u, now), k, v)
      ensures CacheModel.Insert(config, s, k, v, u, now)
           == CacheModel.Release(config, CacheModel.InsertPinned(config, s, k, v, u, now), k, v, now)
      ensures config.reentrant ==> !HasKey(CacheModel.InsertPinned(config, s, k, v, u, now).deferred, k)
    {
      InsertPinnedFound(config, s, k, v, u, now);
    }

    method Insert(k: string, v: V, u: nat, now: int)
      requires Valid() && MayInsert(config, Snapshot(), k, v, u)
      modifies this, repr
      ensures Valid() && fresh(repr - old(repr)) && config == old(config)
      ensures config.reentrant ==> old(order) <= order
      ensures Snapshot() == CacheModel.Insert(config, old(Snapshot()), k, v, u, now)
      decreases if config.reentrant then 1 else 3, 2
    {
      hide *;
      ValidFacts();
      InvFacts();
      InsertReady(Snapshot(), k, v, u, now);
      InsertPinned(k, v, u, now);
      ValidFacts();
      NoneDeferred(k);
      Release(k, v, now);
    }

    lemma NoneDeferred(k: string)
      requires Shape() && (config.reentrant ==> !HasKey(Snapshot().deferred, k))
      ensures config.reentrant ==> k !in defer
    {
      if k in defer {
        DeferredKey(k);
      }
    }

    lemma DeferredKey(k: string)
      requires Shape() && k in defer
      ensures HasKey(Snapshot().deferred, k)
    {
      assert rings[k][0] in rings[k];
      assert rings[k][0] in deferred;
      var i :| 0 <= i < |deferred| && deferred[i] == rings[k][0];
      assert Snapshot().deferred[i].key == k;
    }

    // ----- Expiry and lookup -----

    lemma ExpireStepIs(threshold: int, now: int)
      requires Inv() && threshold <= now && |order| > 0 && order[0].lastUse < threshold
      ensures var s := Snapshot();
              && StaleCount(CacheModel.Remove(config, s, order[0].key, now).order, threshold) < StaleCount(s.order,
                   threshold)
              && Expire(config, CacheModel.Remove(config, s, order[0].key, now), threshold, now)
                 == Expire(config, s, threshold, now)
    {
      hide Shape;
      var s := Snapshot();
      FoundAt(s.order, 0);
      assert Without(s.order, 0) == s.order[1..];
      ExpireStepShrinks(config, s, threshold, now);
    }

    lemma ExpireEnds(threshold: int, now: int)
      requires threshold <= now && (|order| == 0 || order[0].lastUse >= threshold)
      ensures Expire(config, Snapshot(), threshold, now) == Snapshot()
    {
    }

    /** What follows the removal of the oldest element in the list, seen from the element after it. */
    lemma NextOldest(was: seq<Elem<V>>, threshold: int, s: State<V, R>, now: int)
      requires |was| > 0 && was[1..] <= order && threshold <= now
      requires Snapshot() == CacheModel.Remove(config, s, was[0].key, now)
      requires |s.order| == |was| && Find(s.order, was[0].key) == 0
      ensures |was| == 1 ==> |order| == 0 || order[0].lastUse >= threshold
      ensures |was| > 1 ==> |order| > 0 && order[0] == was[1]
    {
      assert |was| == 1 && |order| > 0 ==> Snapshot().order[0] == order[0].Entry();
    }

    lemma OldestFound()
      requires Inv() && |order| > 0
      ensures |Snapshot().order| == |order| && Find(Snapshot().order, order[0].key) == 0
      ensures order[0].key in live && live[order[0].key] == order[0] && Listed(order[0], 0)
      ensures Without(order, 0) == order[1..]
    {
      FoundAt(Snapshot().order, 0);
      assert order[0] in order;
    }

    /** One step of the walk: the oldest element leaves the table; `next` is the element after it. */
    method ExpireOldest(e: Elem<V>, threshold: int, now: int) returns (next: Elem<V>)
      requires Valid() && threshold <= now && |order| > 0 && order[0] == e && e.lastUse < threshold
      modifies this, repr
      ensures Valid() && fresh(repr - old(repr)) && config == old(config)
      ensures next == (if |old(order)| > 1 then old(order)[1] else head)
      ensures if |old(order)| > 1 then |order| > 0 && order[0] == next && next != head
              else |order| == 0 || order[0].lastUse >= threshold
      ensures Expire(config, Snapshot(), threshold, now) == Expire(config, old(Snapshot()), threshold, now)
      ensures StaleCount(Snapshot().order, threshold) < StaleCount(old(Snapshot()).order, threshold)
    {
      hide *;
      ValidFacts();
      Walk(0);
      ListedFromHead();
      OldestFound();
      ExpireStepIs(threshold, now);
      ghost var s, was := Snapshot(), order;
      next := e.prev;
      Remove(e.key, now);
      NextOldest(was, threshold, s, now);
    }

    /** Removes from the oldest end while the entry there was not used since the threshold. */
    method DiscardIdle(maxIdle: int, now: int)
      requires Valid()
      modifies this, repr
      ensures Valid() && fresh(repr - old(repr)) && config == old(config)
      ensures Snapshot() == if maxIdle < 0 then old(Snapshot()) else Expire(config, old(Snapshot()), now - maxIdle, now)
    {
      hide *;
      if maxIdle < 0 { return; }
      ValidFacts();
      Oldest();
      ListedFromHead();
      var e := head.prev;
      var threshold := now - maxIdle;
      while e != head && e.lastUse < threshold
        invariant Valid() && fresh(repr - old(repr)) && config == old(config)
        invariant e == head || (|order| > 0 && e == order[0])
        invariant e == head ==> |order| == 0 || order[0].lastUse >= threshold
        invariant Expire(config, Snapshot(), threshold, now) == Expire(config, old(Snapshot()), threshold, now)
        decreases StaleCount(Snapshot().order, threshold)
      {
        e := ExpireOldest(e, threshold, now);
      }
      ExpireEnds(threshold, now);
    }

    lemma RemoveExpiredIs(now: int)
      ensures RemoveExpired(config, Snapshot(), now)
           == (if config.maxIdle < 0 then Snapshot() else Expire(config, Snapshot(), now - config.maxIdle, now))
    {
    }

    method RemoveExpiredEntries(now: int)
      requires Valid()
      modifies this, repr
      ensures Valid() && fresh(repr - old(repr)) && config == old(config)
      ensures Snapshot() == RemoveExpired(config, old(Snapshot()), now)
    {
      RemoveExpiredIs(now);
      hide *;
      if config.maxIdle >= 0 {
        DiscardIdle(config.maxIdle, now);
      }
    }

    lemma PinIs(e: Elem<V>, i: nat)
      requires Shape() && Wf(config, Snapshot()) && At(e, i)
      ensures var s, f := Snapshot(), e.Entry().(pin := e.pin + 1);
              && (if e.next != null then i < |s.order| else i < |s.off|)
              && InTable(s, e.key) && TableEntry(s, e.key) == e.Entry()
              && Pin(config, s, e.key) == (if e.pin == 0 && config.lru
                   then (if e.next != null then s.(order := Without(s.order, i), off := s.off + [f]) else s)
                   else Replaced(s, e.next != null, i, f))
      ensures e.pin == 0 ==> e.next != null
      ensures var t := Pin(config, Snapshot(), e.key);
              Wf(config, t) && Units(t) == Units(Snapshot())
              && PinnedUnits(t) == PinnedUnits(Snapshot()) + (if e.pin == 0 then e.units else 0)
    {
      hide Shape, UnitsOf, PinnedUnitsOf;
      FoundIn(e, i);
      PinWf(config, Snapshot(), e.key);
    }

    /** In LRU mode an element leaves the list when it is pinned. */
    method Unlist(e: Elem<V>, ghost i: nat)
      requires Shape() && At(e, i) && e.next != null
      modifies this`order, this`off, this`live, e`pin, repr`next, repr`prev
      ensures Shape() && live == old(live) && i < |old(Snapshot()).order| && e.pin == old(e.pin) + 1
      ensures e.Entry() == old(e.Entry()).(pin := e.pin)
      ensures Snapshot() == old(Snapshot()).(order := Without(old(Snapshot()).order, i),
          off := old(Snapshot()).off + [e.Entry()])
    {
      hide *;
      AtFacts(e, i);
      ListedAt(e, i);
      EntryOf(e);
      ghost var was, held, s := order, off, Snapshot();
      DetachListed(e, i);
      SnapWithout(was, i);
      assert Snapshot() == s.(order := Without(s.order, i));
      SpareIntro(e);
      ghost var rest := order;
      e.pin := e.pin + 1;
      EntryOf(e);
      assert Snap(rest) == Without(s.order, i) && Snap(held) == s.off && Snap(deferred) == s.deferred;
      Hold(e);
      SnapAppend(held, e);
    }

    lemma ListedAt(e: Elem<V>, i: nat)
      requires At(e, i) && e.next != null
      ensures Listed(e, i)
    {
    }

    /** Pins a table element. */
    method PinElem(e: Elem<V>, ghost i: nat)
      requires Inv() && At(e, i)
      modifies this`order, this`off, this`live, this`pinnedUnits, repr
      ensures Inv() && live == old(live) && e.key in live && live[e.key] == e && e.value == old(e.value)
      ensures Snapshot() == Pin(config, old(Snapshot()), e.key)
    {
      hide *;
      InvFacts();
      AtFacts(e, i);
      PinIs(e, i);
      EntryOf(e);
      ghost var t := Pin(config, Snapshot(), e.key);
      if e.pin == 0 {
        pinnedUnits := pinnedUnits + e.units;
        if config.lru {
          Unlist(e, i);
          EntryOf(e);
          assert Snapshot() == t;
          InvIntro();
          return;
        }
      }
      Touch(e, i, e.value, e.pin + 1, e.units, e.lastUse);
      assert Snapshot() == t;
      InvIntro();
    }

    lemma LookupIs(s: State<V, R>, k: string, now: int)
      ensures CacheModel.Lookup(config, s, k, now) == Pin(config, RemoveExpired(config, s, now), k)
      ensures !InTable(s, k) ==> Pin(config, s, k) == s
    {
    }

    method Lookup(k: string, now: int) returns (r: Option<V>)
      requires Valid()
      modifies this, repr
      ensures Valid() && fresh(repr - old(repr)) && config == old(config)
      ensures Snapshot() == CacheModel.Lookup(config, old(Snapshot()), k, now)
      ensures r == if InTable(Snapshot(), k) then Some(TableEntry(Snapshot(), k).value) else None
    {
      hide *;
      RemoveExpiredEntries(now);
      ValidFacts();
      InvFacts();
      LookupIs(old(Snapshot()), k, now);
      LookupIs(Snapshot(), k, now);
      TableFacts(k);
      if k in table {
        KeyOf(k);
        var e := table[k];
        ghost var i := Whereabouts(e);
        PinElem(e, i);
        InvFacts();
        TableFacts(k);
        EntryOf(e);
        ValidIntro();
        r := Some(e.value);
      } else {
        r := None;
      }
    }

    /** The holder of a pin changes the value in place. */
    method Store(k: string, v: V)
      requires Valid() && InTable(Snapshot(), k) && !Owns(Snapshot().deferred, k, v)
      modifies repr
      ensures Valid() && Snapshot() == CacheModel.Store(old(Snapshot()), k, v)
    {
      hide *;
      ValidFacts();
      InvFacts();
      TableFacts(k);
      KeyOf(k);
      var e := table[k];
      EntryOf(e);
      ghost var i := Whereabouts(e);
      AtFacts(e, i);
      StoreIs(e, i, v);
      ghost var t := CacheModel.Store(Snapshot(), k, v);
      Touch(e, i, v, e.pin, e.units, e.lastUse);
      assert Snapshot() == t;
      InvIntro();
      ValidIntro();
    }

    lemma StoreIs(e: Elem<V>, i: nat, v: V)
      requires Shape() && Wf(config, Snapshot()) && At(e, i) && !Owns(Snapshot().deferred, e.key, v)
      ensures InTable(Snapshot(), e.key)
      ensures var s := Snapshot();
              (if e.next != null then i < |s.order| else i < |s.off|)
              && CacheModel.Store(s, e.key, v) == Replaced(s, e.next != null, i, e.Entry().(value := v))
      ensures var t := CacheModel.Store(Snapshot(), e.key, v);
              Wf(config, t) && Units(t) == Units(Snapshot()) && PinnedUnits(t) == PinnedUnits(Snapshot())
    {
      hide Shape, UnitsOf, PinnedUnitsOf;
      FoundIn(e, i);
      SetEntryWf(config, Snapshot(), e.Entry().(value := v));
    }

    // ----- For the owner of the cache -----

    /** More items for whoever collects what the deleter emits. */
    method Emit(items: seq<R>)
      requires Valid()
      modifies this`removed
      ensures Valid() && Snapshot() == old(Snapshot()).(removed := old(Snapshot()).removed + items)
    {
      hide *;
      ValidFacts();
      Hand(items);
      ValidIntro();
    }

    /** From now on the deleter drops what it is given. */
    method StopReentry(dropping: Config<V, R>)
      requires Valid() && dropping == config.(reentrant := false, deleter := dropping.deleter)
      modifies this`config
      ensures Valid() && config == dropping && Snapshot() == old(Snapshot())
    {
      hide *;
      ValidFacts();
      InvFacts();
      StillWf(dropping, Snapshot());
      config := dropping;
      InvIntro();
      ValidIntro();
    }

    lemma StillWf(dropping: Config<V, R>, s: State<V, R>)
      requires Wf(config, s) && dropping == config.(reentrant := false, deleter := dropping.deleter)
      ensures Wf(dropping, s)
    {
    }

    lemma InTableIffKey(k: string)
      requires Valid()
      ensures k in table <==> InTable(Snapshot(), k)
    {
      hide *;
      ValidFacts();
      InvFacts();
      TableFacts(k);
    }

    // ----- Removing many -----

    lemma RemoveEachIs(s: State<V, R>, ks: seq<string>, k: string, now: int)
      ensures RemoveEach(config, s, [], now) == s
      ensures RemoveEach(config, s, ks + [k], now) == CacheModel.Remove(config, RemoveEach(config, s, ks, now), k, now)
    {
      assert (ks + [k])[..|ks|] == ks;
    }

    /**
     * Walks the table, in whatever order it is hashed, while it still holds the elements already removed. That is why
     * the deleter must not insert again here; `ks` is the order that was met.
     */
    method RemoveAll(now: int) returns (ghost ks: seq<string>)
      requires Valid() && !config.reentrant
      modifies this, repr
      ensures Valid() && fresh(repr - old(repr)) && config == old(config) && table == map[]
      ensures Distinct(ks) && (forall k :: k in ks <==> k in old(table))
      ensures Snapshot() == RemoveEach(config, old(Snapshot()), ks, now)
    {
      hide *;
      ValidFacts();
      ks := [];
      RemoveEachIs(Snapshot(), [], "", now);
      var rest := table.Keys;
      while rest != {}
        invariant Inv() && fresh(repr - old(repr)) && config == old(config) && table == old(table)
        invariant live.Keys == rest && rest <= table.Keys && forall k <- rest :: live[k] == table[k]
        invariant (forall k :: k in ks <==> k in table && k !in rest)
        invariant forall i, j :: 0 <= i < j < |ks| ==> ks[i] != ks[j]
        invariant Snapshot() == RemoveEach(config, old(Snapshot()), ks, now)
        decreases rest
      {
        var k :| k in rest;
        InvFacts();
        KeyOf(k);
        ghost var i := Whereabouts(live[k]);
        RemoveEachIs(old(Snapshot()), ks, k, now);
        assert forall x <- ks :: x != k;
        RemoveElem(table[k], i, now, false);
        ks := ks + [k];
        rest := rest - {k};
      }
      DistinctIntro(ks);
      table := map[];
      ValidIntro();
    }

    lemma DistinctIntro(ks: seq<string>)
      requires forall i, j :: 0 <= i < j < |ks| ==> ks[i] != ks[j]
      ensures Distinct(ks)
    {
    }

    lemma WalkBack(n: nat)
      requires Shape() && 0 < n <= |order|
      ensures order[n - 1] != head && order[n - 1].next == (if n > 1 then order[n - 2] else head)
      ensures Listed(order[n - 1], n - 1) && order[n - 1].key in live && live[order[n - 1].key] == order[n - 1]
    {
      assert ([head] + order)[n] == order[n - 1] && order[n - 1] in order;
      RingNeighbours([head] + order, n);
    }

    lemma Newest()
      requires Shape()
      ensures head.next == (if |order| > 0 then order[|order| - 1] else head)
    {
      RingNeighbours([head] + order, 0);
    }

    lemma PurgeStep(n: nat, now: int)
      requires Inv() && 0 < n <= |order|
      ensures n <= |Snapshot().order|
      ensures order[n - 1].pin > 0 ==>
                Purge(config, Snapshot(), n, now) == Purge(config, Snapshot(), n - 1, now)
      ensures order[n - 1].pin == 0 ==>
                var t := CacheModel.Remove(config, Snapshot(), order[n - 1].key, now);
                n - 1 <= |t.order| && Purge(config, Snapshot(), n, now) == Purge(config, t, n - 1, now)
    {
      hide Shape;
      FoundAt(Snapshot().order, n - 1);
    }

    /** Walks from the newest element to the oldest. */
    method RemoveUnpinned(now: int)
      requires Valid()
      modifies this, repr
      ensures Valid() && fresh(repr - old(repr)) && config == old(config)
      ensures Snapshot() == Purge(config, old(Snapshot()), |old(Snapshot()).order|, now)
    {
      hide *;
      ValidFacts();
      Newest();
      ListedFromHead();
      var e := head.next;
      ghost var n: nat := |order|;
      while e != head
        invariant Valid() && fresh(repr - old(repr)) && config == old(config)
        invariant n <= |order| == |Snapshot().order| && e == (if n > 0 then order[n - 1] else head)
        invariant Purge(config, Snapshot(), n, now) == Purge(config, old(Snapshot()), |old(Snapshot()).order|, now)
        decreases n
      {
        ValidFacts();
        WalkBack(n);
        ListedFromHead();
        PurgeStep(n, now);
        var next := e.next;
        if e.pin == 0 {
          Remove(e.key, now);
        }
        e := next;
        n := n - 1;
      }
      ValidFacts();
      ListedFromHead();
      PurgeEnds(now);
    }

    lemma PurgeEnds(now: int)
      ensures Purge(config, Snapshot(), 0, now) == Snapshot()
    {
    }

    // ----- Resizing -----

    lemma TableResizeIs(e: Elem<V>, i: nat, k: string, v: Option<V>, u: nat)
      requires Shape() && Wf(config, Snapshot()) && At(e, i) && Names(e.Entry(), k, v)
      requires config.reentrant ==> u > 0 && Units(Snapshot()) - e.units + u <= config.maxUnits
      ensures var s := Snapshot();
              && (if e.next != null then i < |s.order| else i < |s.off|)
              && Resize(s, k, v, u) == Replaced(s, e.next != null, i, e.Entry().(units := u))
      ensures var s, t := Snapshot(), Resize(Snapshot(), k, v, u);
              && Wf(config, t) && Units(t) == Units(s) - e.units + u
              && PinnedUnits(t) == PinnedUnits(s) - (if e.pin > 0 then e.units else 0) + (if e.pin > 0 then u else 0)
    {
      hide Shape;
      FoundIn(e, i);
      ResizeTableWf(config, Snapshot(), k, v, u);
    }

    method ResizeTable(e: Elem<V>, ghost i: nat, k: string, v: Option<V>, u: nat)
      requires Inv() && At(e, i) && Names(e.Entry(), k, v)
      requires config.reentrant ==> u > 0 && Units(Snapshot()) - e.units + u <= config.maxUnits
      modifies this`units, this`pinnedUnits, repr
      ensures Inv() && Snapshot() == Resize(old(Snapshot()), k, v, u)
    {
      hide *;
      InvFacts();
      AtFacts(e, i);
      EntryOf(e);
      TableResizeIs(e, i, k, v, u);
      ghost var t := Resize(Snapshot(), k, v, u);
      units := units - e.units + u;
      if e.pin > 0 {
        pinnedUnits := pinnedUnits - e.units + u;
      }
      Touch(e, i, e.value, e.pin, u, e.lastUse);
      assert Snapshot() == t;
      InvIntro();
    }

    method ResizeElem(e: Elem<V>, ghost d: nat, u: nat)
      requires Inv() && d < |deferred| && deferred[d] == e
      requires config.reentrant ==> u > 0 && Units(Snapshot()) - e.units + u <= config.maxUnits
      modifies this`units, e`pin, e`units
      ensures Inv() && d < |old(Snapshot()).deferred|
      ensures Snapshot() == old(Snapshot()).(deferred := old(Snapshot()).deferred[d := old(e.Entry()).(units := u)])
    {
      hide *;
      InvFacts();
      EntryOf(e);
      ghost var s := Snapshot();
      ResizedWf(e, d, u);
      units := units - e.units;
      TouchDeferred(e, d, e.pin, u);
      EntryOf(e);
      units := units + e.units;
      InvIntro();
    }

    lemma ResizedWf(e: Elem<V>, d: nat, u: nat)
      requires Wf(config, Snapshot()) && d < |deferred| && deferred[d] == e
      requires config.reentrant ==> u > 0 && Units(Snapshot()) - e.units + u <= config.maxUnits
      ensures var s := Snapshot();
              var t := s.(deferred := s.deferred[d := e.Entry().(units := u)]);
              Wf(config, t) && Units(t) == Units(s) - e.units + u && PinnedUnits(t) == PinnedUnits(s)
    {
      SetDeferredWf(config, Snapshot(), d, e.Entry().(units := u));
    }

    /** The deferred entries with `members` of the ring of `k` resized. */
    ghost predicate Partly(s: State<V, R>, members: seq<Elem<V>>, k: string, v: Option<V>, u: nat)
      reads this`order, this`off, this`deferred, this`disposed, this`removed
      reads order`value, order`pin, order`units, order`lastUse, off`value, off`pin, off`units, off`lastUse
      reads deferred`value, deferred`pin, deferred`units, deferred`lastUse
    {
      && |s.deferred| == |deferred|
      && Snapshot() == s.(deferred := Snapshot().deferred)
      && forall i :: 0 <= i < |deferred| ==>
           Snapshot().deferred[i] ==
           if deferred[i] in members && Names(s.deferred[i], k, v) then s.deferred[i].(units := u) else s.deferred[i]
    }

    lemma PartlyStep(s: State<V, R>, t: State<V, R>, ring: seq<Elem<V>>, j: nat, d: nat, k: string, v: Option<V>,
                     u: nat)
      requires Distinct(deferred) && d < |deferred| && j < |ring| && ring[j] == deferred[d] && Distinct(ring)
      requires |s.deferred| == |deferred| && t == s.(deferred := t.deferred) && |t.deferred| == |deferred|
      requires forall i :: 0 <= i < |deferred| ==>
                 t.deferred[i] ==
                 if deferred[i] in ring[..j] && Names(s.deferred[i], k, v) then s.deferred[i].(units := u)
                     else s.deferred[i]
      requires Snapshot() == if Names(s.deferred[d], k, v) then
          t.(deferred := t.deferred[d := s.deferred[d].(units := u)]) else t
      ensures Partly(s, ring[..j + 1], k, v, u)
    {
      assert ring[..j + 1] == ring[..j] + [ring[j]];
    }

    lemma RingMember(k: string, j: nat)
      requires Inv() && k in rings && j < |rings[k]|
      ensures Waits(rings[k][j], WaitsAt(k, j), j) && rings[k][j].key == k
      ensures Distinct(deferred) && Distinct(rings[k]) && rings[k][j] in repr
      ensures rings[k][j].prev == rings[k][if j + 1 < |rings[k]| then j + 1 else 0]
      ensures rings[k][0] == defer[k]
    {
      RingKeys(k, j);
      var d := DeferredAt(rings[k][j], j);
      RingNeighbours(rings[k], j);
    }

    ghost function WaitsAt(k: string, j: nat): nat
      reads this`deferred, this`rings
      requires k in rings && j < |rings[k]|
    {
      if exists d: nat :: d < |deferred| && deferred[d] == rings[k][j]
      then var d: nat :| d < |deferred| && deferred[d] == rings[k][j]; d else 0
    }

    /** Resizes the `j`-th element of the ring if it is named. */
    method ResizeNext(ghost s: State<V, R>, e: Elem<V>, ghost j: nat, k: string, v: Option<V>, u: nat)
      requires Inv() && k in rings && j < |rings[k]| && rings[k][j] == e
      requires Partly(s, rings[k][..j], k, v, u) && Affords(s, k, v, u)
      modifies this`units, repr
      ensures Inv() && Partly(s, rings[k][..j + 1], k, v, u)
      ensures e.prev == rings[k][if j + 1 < |rings[k]| then j + 1 else 0] && rings[k][0] == defer[k]
    {
      hide *;
      RingMember(k, j);
      ghost var d, t := WaitsAt(k, j), Snapshot();
      InvFacts();
      WaitsFacts(e, d, j);
      PartlyFacts(s, rings[k][..j], k, v, u);
      EntryOf(e);
      NamesIs(e.Entry(), k, v);
      NotYet(s, t, rings[k], j, d, k, v, u);
      OnlyOne(s, j, d, k, v, u);
      if v.None? || v.value == e.value {
        ResizeElem(e, d, u);
      }
      PartlyStep(s, t, rings[k], j, d, k, v, u);
      RingMember(k, j);
    }

    /** In the re-entrant regime there must be room for the new size. */
    ghost predicate Affords(s: State<V, R>, k: string, v: Option<V>, u: nat)
      reads this`config
    {
      config.reentrant ==> u > 0 && Units(s.(deferred := ResizeDeferred(s.deferred, k, v, u))) <= config.maxUnits
    }

    /** In that regime no two deferred elements have the same key. */
    lemma OnlyOne(s: State<V, R>, j: nat, d: nat, k: string, v: Option<V>, u: nat)
      requires Inv() && k in rings && j < |rings[k]| && d < |deferred| && deferred[d] == rings[k][j]
      requires Partly(s, rings[k][..j], k, v, u) && Affords(s, k, v, u)
      ensures config.reentrant && Names(deferred[d].Entry(), k, v) ==>
                u > 0 && Units(Snapshot()) - deferred[d].units + u <= config.maxUnits
    {
      hide *;
      if config.reentrant && Names(deferred[d].Entry(), k, v) {
        RingAlone(k, j);
        assert rings[k][..0] == [];
        NoneResized(s, k, v, u);
        AffordsParts(s, k, v, u);
        SnapAt(d);
        ResizedOne(s, d, k, v, u);
      }
    }

    lemma SnapAt(d: nat)
      requires d < |deferred|
      ensures d < |Snapshot().deferred| && Snapshot().deferred[d] == deferred[d].Entry()
      ensures deferred[d].Entry().units == deferred[d].units
    {
    }

    lemma NoneResized(s: State<V, R>, k: string, v: Option<V>, u: nat)
      requires Partly(s, [], k, v, u)
      ensures Snapshot() == s
    {
      assert Snapshot().deferred == s.deferred;
    }

    lemma AffordsParts(s: State<V, R>, k: string, v: Option<V>, u: nat)
      requires config.reentrant && Affords(s, k, v, u)
      ensures u > 0 && Units(s.(deferred := ResizeDeferred(s.deferred, k, v, u))) <= config.maxUnits
    {
    }

    lemma RingAlone(k: string, j: nat)
      requires Inv() && config.reentrant && k in rings && j < |rings[k]|
      ensures j == 0 && UniqueKeys(Snapshot().deferred)
    {
      assert rings[k][0] in rings[k] && rings[k][j] in rings[k];
      assert rings[k][0] in deferred && rings[k][j] in deferred;
      var a :| 0 <= a < |deferred| && deferred[a] == rings[k][0];
      var b :| 0 <= b < |deferred| && deferred[b] == rings[k][j];
      assert Snapshot().deferred[a].key == k && Snapshot().deferred[b].key == k;
    }

    static lemma ResizedOne(s: State<V, R>, d: nat, k: string, v: Option<V>, u: nat)
      requires UniqueKeys(s.deferred) && d < |s.deferred| && Names(s.deferred[d], k, v)
      ensures Units(s.(deferred := ResizeDeferred(s.deferred, k, v, u))) == Units(s) - s.deferred[d].units + u
    {
      var e := s.deferred[d].(units := u);
      hide UnitsOf;
      UnitsUpdate(s.deferred, d, e);
      assert ResizeDeferred(s.deferred, k, v, u) == s.deferred[d := e];
    }

    lemma NamesIs(e: Entry<V>, k: string, v: Option<V>)
      ensures Names(e, k, v) <==> e.key == k && (v.None? || v.value == e.value)
    {
    }

    lemma NotYet(s: State<V, R>, t: State<V, R>, ring: seq<Elem<V>>, j: nat, d: nat, k: string, v: Option<V>, u: nat)
      requires j < |ring| && d < |deferred| && ring[j] == deferred[d] && Distinct(ring)
      requires |t.deferred| == |s.deferred| == |deferred|
      requires forall i :: 0 <= i < |deferred| ==>
                 t.deferred[i] ==
                 if deferred[i] in ring[..j] && Names(s.deferred[i], k, v) then s.deferred[i].(units := u)
                     else s.deferred[i]
      ensures t.deferred[d] == s.deferred[d]
    {
    }

    lemma PartlyFacts(s: State<V, R>, members: seq<Elem<V>>, k: string, v: Option<V>, u: nat)
      requires Partly(s, members, k, v, u)
      ensures |s.deferred| == |deferred| && Snapshot() == s.(deferred := Snapshot().deferred)
      ensures forall i :: 0 <= i < |deferred| ==>
                Snapshot().deferred[i] ==
                if deferred[i] in members && Names(s.deferred[i], k, v) then s.deferred[i].(units := u)
                    else s.deferred[i]
    {
    }

    /** Walks the ring of `k` once round. */
    method ResizeRing(k: string, v: Option<V>, u: nat)
      requires Inv() && k in defer && Affords(Snapshot(), k, v, u)
      modifies this`units, repr
      ensures config == old(config)
      ensures Inv() && Snapshot() == old(Snapshot()).(deferred := ResizeDeferred(old(Snapshot()).deferred, k, v, u))
    {
      hide *;
      InvFacts();
      DeferKeys();
      PartlyNone(k, v, u);
      RingMember0(k);
      DeferredKeys();
      ghost var s, ring := Snapshot(), rings[k];
      var first := defer[k];
      var e, again := first, true;
      ghost var j := 0;
      while again
        invariant Inv() && j <= |ring| && (again <==> j < |ring|) && (again ==> e == ring[j])
        invariant Partly(s, ring[..j], k, v, u) && Affords(s, k, v, u)
        decreases |ring| - j
      {
        ResizeNext(s, e, j, k, v, u);
        RingEnd(k, j);
        e := e.prev;
        again := e != first;
        j := j + 1;
      }
      assert ring[..j] == ring;
      InvFacts();
      PartlyAll(s, k, v, u);
    }

    lemma RingMember0(k: string)
      requires Shape() && k in rings
      ensures |rings[k]| > 0 && rings[k][0] == defer[k] && rings[k][..0] == []
    {
    }

    lemma DeferredKeys()
      ensures |Snapshot().deferred| == |deferred|
      ensures forall i :: 0 <= i < |deferred| ==> Snapshot().deferred[i].key == deferred[i].key
    {
    }

    lemma RingEnd(k: string, j: nat)
      requires Inv() && k in rings && j < |rings[k]|
      ensures j + 1 < |rings[k]| ==> rings[k][j + 1] != rings[k][0]
    {
    }

    lemma PartlyNone(k: string, v: Option<V>, u: nat)
      ensures Partly(Snapshot(), [], k, v, u)
    {
    }

    lemma PartlyAll(s: State<V, R>, k: string, v: Option<V>, u: nat)
      requires Shape() && k in rings && Partly(s, rings[k], k, v, u)
      requires forall i :: 0 <= i < |s.deferred| && i < |deferred| ==> s.deferred[i].key == deferred[i].key
      ensures Snapshot() == s.(deferred := ResizeDeferred(s.deferred, k, v, u))
    {
      hide *;
      PartlyParts(s, rings[k], k, v, u);
      var r := ResizeDeferred(s.deferred, k, v, u);
      forall i | 0 <= i < |deferred| ensures Snapshot().deferred[i] == r[i] {
        assert deferred[i] in deferred;
        RingHas(deferred[i], k);
        NamesKey(s.deferred[i], k, v);
      }
      assert Snapshot().deferred == r;
    }

    lemma PartlyParts(s: State<V, R>, members: seq<Elem<V>>, k: string, v: Option<V>, u: nat)
      requires Partly(s, members, k, v, u)
      ensures |s.deferred| == |deferred| == |Snapshot().deferred| && Snapshot() == s.(deferred := Snapshot().deferred)
      ensures forall i :: 0 <= i < |deferred| ==>
                Snapshot().deferred[i] == if deferred[i] in members && Names(s.deferred[i], k, v) then
                    s.deferred[i].(units := u) else s.deferred[i]
    {
    }

    lemma RingHas(e: Elem<V>, k: string)
      requires Shape() && e in deferred && k in rings
      ensures e in rings[k] <==> e.key == k
    {
    }

    lemma NamesKey(e: Entry<V>, k: string, v: Option<V>)
      ensures Names(e, k, v) ==> e.key == k
    {
    }

    lemma ResizeIs(s: State<V, R>, k: string, v: Option<V>, u: nat)
      requires !(InTable(s, k) && Names(TableEntry(s, k), k, v))
      ensures Resize(s, k, v, u) == s.(deferred := ResizeDeferred(s.deferred, k, v, u))
    {
    }

    lemma NoneNamed(k: string, v: Option<V>, u: nat)
      requires Shape() && k !in defer
      ensures ResizeDeferred(Snapshot().deferred, k, v, u) == Snapshot().deferred
    {
      assert forall i :: 0 <= i < |deferred| ==> deferred[i] in deferred;
    }

    method UpdateSize(k: string, v: Option<V>, u: nat, now: int)
      requires Valid()
      requires config.reentrant ==> u > 0 && Units(Resize(Snapshot(), k, v, u)) <= config.maxUnits
      modifies this, repr
      ensures Valid() && fresh(repr - old(repr)) && config == old(config)
      ensures Snapshot() == CacheModel.UpdateSize(config, old(Snapshot()), k, v, u, now)
    {
      hide *;
      ValidFacts();
      InvFacts();
      ghost var s := Snapshot();
      Sizes(s, k, v, u, now);
      TableFacts(k);
      if k in table && (v.None? || v.value == table[k].value) {
        var e := table[k];
        KeyOf(k);
        ghost var i := Whereabouts(e);
        EntryOf(e);
        NamesIs(e.Entry(), k, v);
        ResizedUnits(s, k, v, u);
        ResizeTable(e, i, k, v, u);
      } else {
        if k in table {
          EntryOf(live[k]);
          NamesIs(TableEntry(s, k), k, v);
        }
        ResizeIs(s, k, v, u);
        AffordsIntro(s, k, v, u);
        if k in defer {
          ResizeRing(k, v, u);
        } else {
          NoneNamed(k, v, u);
        }
      }
      ValidIntro();
      GarbageCollect(now);
    }

    lemma AffordsIntro(s: State<V, R>, k: string, v: Option<V>, u: nat)
      requires config.reentrant ==> u > 0 && Units(Resize(s, k, v, u)) <= config.maxUnits
      requires Resize(s, k, v, u) == s.(deferred := ResizeDeferred(s.deferred, k, v, u))
      ensures Affords(s, k, v, u)
    {
    }

    lemma ResizedUnits(s: State<V, R>, k: string, v: Option<V>, u: nat)
      requires InTable(s, k) && Names(TableEntry(s, k), k, v)
      ensures Units(Resize(s, k, v, u)) == Units(s) - TableEntry(s, k).units + u
    {
      SetEntryUnits(s, TableEntry(s, k).(units := u));
    }

    lemma Sizes(s: State<V, R>, k: string, v: Option<V>, u: nat, now: int)
      ensures CacheModel.UpdateSize(config, s, k, v, u, now) == Collect(config, Resize(s, k, v, u), 0, now)
    {
    }
  }
}
