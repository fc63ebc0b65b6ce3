/**
 * The elements of the cache and the two uses of their links: the age list, a ring behind a dummy head, and one ring
 * per key for the elements that were removed while pinned. A ring is written as the sequence met by following `prev`
 * from its first element, so linking behind the first element appends to the sequence.
 */
module LruElem {
  import opened Lists
  import opened CacheModel

  class Elem<V> {
    const key: string
    var value: V
    var pin: nat
    var units: nat
    var next: Elem?<V>
    var prev: Elem?<V>
    var lastUse: int

    constructor (key: string, value: V, pin: nat, units: nat, lastUse: int)
      ensures this.key == key && this.value == value && this.pin == pin
      ensures this.units == units && this.lastUse == lastUse
      ensures next == null && prev == null
    {
      this.key, this.value, this.pin, this.units, this.lastUse := key, value, pin, units, lastUse;
      next, prev := null, null;
    }

    ghost function Entry(): Entry<V>
      reads this`value, this`pin, this`units, this`lastUse
    {
      CacheModel.Entry(key, value, pin, units, lastUse)
    }

    /** On a ring, at place `i`, or on none. */
    ghost predicate On(ring: seq<Elem<V>>, i: nat)
      reads this`next, this`prev, ring`next, ring`prev
    {
      if next == null then prev == null && ring == [] else IsRing(ring) && i < |ring| && ring[i] == this
    }

    method Unlink(ghost ring: seq<Elem<V>>, ghost i: nat)
      requires On(ring, i)
      modifies this`next, this`prev, (if next == null then {} else {next})`prev,
          (if prev == null then {} else {prev})`next
      ensures next == null && prev == null
      ensures |ring| > 1 ==> i < |ring| && IsRing(Without(ring, i))
    {
      if next == null {
        return;
      }
      prev.next := next;
      next.prev := prev;
      prev := null;
      next := null;
    }

    method Link(head: Elem<V>, ghost ring: seq<Elem<V>>)
      requires IsRing(ring) && ring[0] == head && this !in ring
      modifies this`next, this`prev, head`next, head.next`prev
      ensures IsRing(ring + [this])
    {
      next := head.next;
      prev := head;
      next.prev := this;
      prev.next := this;
    }

    /** Unlinking leaves alone every other ring and every unlinked element. */
    method UnlinkApart(ghost ring: seq<Elem<V>>, ghost i: nat, ghost main: seq<Elem<V>>,
                       ghost rings: map<string, seq<Elem<V>>>, ghost repr: set<Elem<V>>, ghost off: seq<Elem<V>>)
      requires On(ring, i)
      requires main != [] ==> IsRing(main)
      requires AllRings(rings, repr) && Unlinked(off)
      requires forall x <- ring :: Clear(main, rings, off, x)
      modifies this`next, this`prev, (if next == null then {} else {next})`prev,
          (if prev == null then {} else {prev})`next
      ensures next == null && prev == null
      ensures |ring| > 1 ==> i < |ring| && IsRing(Without(ring, i))
      ensures main != [] ==> IsRing(main)
      ensures AllRings(rings, repr) && Unlinked(off)
    {
      if next == null {
        Unlink(ring, i);
        return;
      }
      RingNeighbours(ring, i);
      assert this in ring;
      assert Clear(main, rings, off, this) && Clear(main, rings, off, next) && Clear(main, rings, off, prev);
      Unlink(ring, i);
      forall k <- rings ensures IsRing(rings[k]) {
        assert forall x <- rings[k] :: x.next == old(x.next) && x.prev == old(x.prev);
      }
    }

    /** Linking leaves alone every other ring and every unlinked element. */
    method LinkApart(head: Elem<V>, ghost ring: seq<Elem<V>>, ghost main: seq<Elem<V>>,
                     ghost rings: map<string, seq<Elem<V>>>, ghost repr: set<Elem<V>>, ghost off: seq<Elem<V>>)
      requires IsRing(ring) && ring[0] == head && this !in ring
      requires main != [] ==> IsRing(main)
      requires AllRings(rings, repr) && Unlinked(off)
      requires Clear(main, rings, off, this) && forall x <- ring :: Clear(main, rings, off, x)
      modifies this`next, this`prev, head`next, head.next`prev
      ensures IsRing(ring + [this])
      ensures main != [] ==> IsRing(main)
      ensures AllRings(rings, repr) && Unlinked(off)
    {
      RingNeighbours(ring, 0);
      assert Clear(main, rings, off, head) && Clear(main, rings, off, head.next);
      Link(head, ring);
      forall k <- rings ensures IsRing(rings[k]) {
        assert forall x <- rings[k] :: x.next == old(x.next) && x.prev == old(x.prev);
      }
    }

    /** The first element of a new ring. */
    method LinkAlone(ghost main: seq<Elem<V>>, ghost rings: map<string, seq<Elem<V>>>,
                     ghost repr: set<Elem<V>>, ghost off: seq<Elem<V>>)
      requires IsRing(main) && AllRings(rings, repr) && Unlinked(off) && Clear(main, rings, off, this)
      modifies this`next, this`prev
      ensures IsRing([this]) && IsRing(main) && AllRings(rings, repr) && Unlinked(off)
    {
      prev := this;
      next := this;
      forall k <- rings ensures IsRing(rings[k]) {
        assert forall x <- rings[k] :: x.next == old(x.next) && x.prev == old(x.prev);
      }
    }
  }

  // ----- What the links say -----

  ghost predicate IsRing<V>(s: seq<Elem<V>>)
    reads s`next, s`prev
  {
    && |s| > 0
    && Distinct(s)
    && (forall i {:trigger s[i].prev} :: 0 <= i < |s| - 1 ==> s[i].prev == s[i + 1])
    && (forall i {:trigger s[i].next} :: 0 < i < |s| ==> s[i].next == s[i - 1])
    && s[|s| - 1].prev == s[0]
    && s[0].next == s[|s| - 1]
  }

  ghost predicate AllRings<V>(rings: map<string, seq<Elem<V>>>, repr: set<Elem<V>>)
    reads repr`next, repr`prev
  {
    forall k <- rings :: (forall i :: 0 <= i < |rings[k]| ==> rings[k][i] in repr) && IsRing(rings[k])
  }

  ghost predicate Unlinked<V>(s: seq<Elem<V>>)
    reads s`next, s`prev
  {
    forall e <- s :: e.next == null && e.prev == null
  }

  lemma RingNeighbours<V>(s: seq<Elem<V>>, i: nat)
    requires IsRing(s) && i < |s|
    ensures s[i].prev == s[if i + 1 < |s| then i + 1 else 0]
    ensures s[i].next == s[if i > 0 then i - 1 else |s| - 1]
    ensures s[i].prev in s && s[i].next in s
  {
  }

  lemma AllRingsUpdate<V>(rings: map<string, seq<Elem<V>>>, repr: set<Elem<V>>, k: string, ring: seq<Elem<V>>)
    requires AllRings(rings - {k}, repr) && IsRing(ring) && Within(ring, repr)
    ensures AllRings(rings[k := ring], repr)
  {
    var m := rings[k := ring];
    forall j <- m ensures (forall i :: 0 <= i < |m[j]| ==> m[j][i] in repr) && IsRing(m[j]) {
      assert j != k ==> j in rings - {k};
    }
  }

  lemma AllRingsSmaller<V>(rings: map<string, seq<Elem<V>>>, repr: set<Elem<V>>, k: string)
    requires AllRings(rings, repr)
    ensures AllRings(rings - {k}, repr)
  {
  }

  lemma AllRingsLarger<V>(rings: map<string, seq<Elem<V>>>, repr: set<Elem<V>>, e: Elem<V>)
    requires AllRings(rings, repr)
    ensures AllRings(rings, repr + {e})
  {
  }

  lemma UnlinkedWithout<V>(s: seq<Elem<V>>, i: nat)
    requires Unlinked(s) && i < |s|
    ensures Unlinked(Without(s, i))
  {
  }

  lemma UnlinkedAppend<V>(s: seq<Elem<V>>, e: Elem<V>)
    requires Unlinked(s) && e.next == null && e.prev == null
    ensures Unlinked(s + [e])
  {
  }

  // ----- Which element is where. Only identities and keys matter, so nothing of the heap is read. -----

  ghost predicate Within<V>(s: seq<Elem<V>>, repr: set<Elem<V>>) {
    forall e <- s :: e in repr
  }

  /** `e` is on none of these lists. */
  ghost predicate Clear<V>(main: seq<Elem<V>>, rings: map<string, seq<Elem<V>>>, off: seq<Elem<V>>, e: Elem<V>) {
    e !in main && e !in off && forall k <- rings :: e !in rings[k]
  }

  /** `live` is the table; `order` and `off` share its elements. */
  ghost predicate Located<V>(head: Elem<V>, live: map<string, Elem<V>>, order: seq<Elem<V>>, off: seq<Elem<V>>) {
    && Distinct(order) && Distinct(off)
    && (forall e <- order :: e.key in live && live[e.key] == e && e != head && e !in off)
    && (forall e <- off :: e.key in live && live[e.key] == e && e != head)
    && (forall k <- live :: live[k].key == k && (live[k] in order || live[k] in off))
  }

  /**
   * `deferred` are the elements outside the table; `rings` has one ring per key of them and `defer` its first element.
   */
  ghost predicate Aside<V>(head: Elem<V>, live: map<string, Elem<V>>, deferred: seq<Elem<V>>,
                           rings: map<string, seq<Elem<V>>>, defer: map<string, Elem<V>>)
  {
    && rings.Keys == defer.Keys
    && (forall k <- rings :: rings[k] != [] && rings[k][0] == defer[k])
    && Distinct(deferred)
    && (forall e <- deferred :: e != head && !(e.key in live && live[e.key] == e))
    && (forall e <- deferred :: e.key in rings && e in rings[e.key])
    && (forall k <- rings :: forall e <- rings[k] :: e.key == k && e in deferred)
  }

  lemma LocatedWithoutListed<V>(head: Elem<V>, live: map<string, Elem<V>>, order: seq<Elem<V>>, off: seq<Elem<V>>,
                                i: nat)
    requires Located(head, live, order, off) && i < |order|
    ensures Located(head, live - {order[i].key}, Without(order, i), off)
    ensures order[i] !in Without(order, i)
  {
    MembersWithout(order, i);
  }

  lemma LocatedWithoutHeld<V>(head: Elem<V>, live: map<string, Elem<V>>, order: seq<Elem<V>>, off: seq<Elem<V>>, i: nat)
    requires Located(head, live, order, off) && i < |off|
    ensures Located(head, live - {off[i].key}, order, Without(off, i))
    ensures off[i] !in Without(off, i)
  {
    MembersWithout(off, i);
  }

  lemma LocatedAppend<V>(head: Elem<V>, live: map<string, Elem<V>>, order: seq<Elem<V>>, off: seq<Elem<V>>, e: Elem<V>)
    requires Located(head, live, order, off) && e != head && e.key !in live
    ensures Located(head, live[e.key := e], order + [e], off)
    ensures Located(head, live[e.key := e], order, off + [e])
    ensures e !in order && e !in off
  {
  }

  lemma AsideSmallerTable<V>(head: Elem<V>, live: map<string, Elem<V>>, k: string, deferred: seq<Elem<V>>,
                             rings: map<string, seq<Elem<V>>>, defer: map<string, Elem<V>>)
    requires Aside(head, live, deferred, rings, defer)
    ensures Aside(head, live - {k}, deferred, rings, defer)
  {
  }

  lemma AsideLargerTable<V>(head: Elem<V>, live: map<string, Elem<V>>, e: Elem<V>, deferred: seq<Elem<V>>,
                            rings: map<string, seq<Elem<V>>>, defer: map<string, Elem<V>>)
    requires Aside(head, live, deferred, rings, defer) && e !in deferred
    ensures Aside(head, live[e.key := e], deferred, rings, defer)
  {
  }

  /** What is deferred shares nothing with the table and the age list. */
  lemma RingsApart<V>(head: Elem<V>, live: map<string, Elem<V>>, order: seq<Elem<V>>, off: seq<Elem<V>>,
                      deferred: seq<Elem<V>>,
                      rings: map<string, seq<Elem<V>>>, defer: map<string, Elem<V>>)
    requires Located(head, live, order, off) && Aside(head, live, deferred, rings, defer)
    ensures forall e <- [head] + order :: Clear([], rings, off, e) && e !in deferred
    ensures forall k <- rings :: forall e <- rings[k] :: Clear([head] + order, rings - {k}, off, e)
    ensures forall e <- off :: e !in deferred
  {
  }

  lemma AsideDefer<V>(head: Elem<V>, live: map<string, Elem<V>>, deferred: seq<Elem<V>>,
                      rings: map<string, seq<Elem<V>>>, defer: map<string, Elem<V>>, e: Elem<V>)
    requires Aside(head, live, deferred, rings, defer)
    requires e != head && e.key !in live && e !in deferred
    ensures forall k <- rings :: e !in rings[k]
    ensures e.key in rings <==> e.key in defer
    ensures e.key in rings ==>
              Aside(head, live, deferred + [e], rings[e.key := rings[e.key] + [e]], defer)
    ensures e.key !in rings ==> Aside(head, live, deferred + [e], rings[e.key := [e]], defer[e.key := e])
  {
    if e.key in rings {
      assert rings[e.key] != [];
      assert defer == defer[e.key := defer[e.key]];
    }
  }

  lemma AsideWithout<V>(head: Elem<V>, live: map<string, Elem<V>>, deferred: seq<Elem<V>>,
                        rings: map<string, seq<Elem<V>>>, defer: map<string, Elem<V>>, d: nat, j: nat)
    requires Aside(head, live, deferred, rings, defer) && d < |deferred|
    requires deferred[d].key in rings && j < |rings[deferred[d].key]| && rings[deferred[d].key][j] == deferred[d]
    requires Distinct(rings[deferred[d].key])
    ensures var k := deferred[d].key;
            var rest := Without(rings[k], j);
            if rest == [] then Aside(head, live, Without(deferred, d), rings - {k}, defer - {k})
            else Aside(head, live, Without(deferred, d), rings[k := rest], defer[k := rest[0]])
  {
    var k := deferred[d].key;
    MembersWithout(deferred, d);
    MembersWithout(rings[k], j);
    if Without(rings[k], j) == [] {
      forall x <- Without(deferred, d) ensures x.key != k {
        assert x in deferred && x in rings[x.key] && x != deferred[d];
      }
    }
  }

  // ----- What the model sees -----

  ghost function Snap<V>(s: seq<Elem<V>>): (r: seq<Entry<V>>)
    reads s`value, s`pin, s`units, s`lastUse
    ensures |r| == |s| && forall i :: 0 <= i < |s| ==> r[i] == s[i].Entry()
  {
    if s == [] then [] else [s[0].Entry()] + Snap(s[1..])
  }

  lemma SnapWithout<V>(s: seq<Elem<V>>, i: nat)
    requires i < |s|
    ensures Snap(Without(s, i)) == Without(Snap(s), i)
  {
  }

  lemma SnapAppend<V>(s: seq<Elem<V>>, e: Elem<V>)
    ensures Snap(s + [e]) == Snap(s) + [e.Entry()]
  {
  }
}
