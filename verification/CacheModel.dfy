module CacheModel {
  import opened Lists

  /** `SimpleCycleTimer` counts microseconds. */
  const CYCLES_PER_MS := 1000

  /** What the table, the age list and the deferred rings say about one element. */
  datatype Entry<+V> = Entry(key: string, value: V, pin: nat, units: nat, lastUse: int)

  /**
   * What `RemoveElement` does with a value: delete it, or insert it again under its key; `out` is handed to
   * `AddRemovedItem`.
   */
  datatype Fate<+V, +R> = Drop(out: seq<R>) | Keep(value: V, out: seq<R>)

  datatype Config<!V, !R> = Config(lru: bool, maxUnits: int, maxIdle: int, reentrant: bool,
      deleter: (V, int) -> Fate<V, R>)
  {
    function Outcome(v: V, now: int): (f: Fate<V, R>)
      ensures f.Keep? ==> reentrant
    {
      var f := deleter(v, now);
      if reentrant then f else Drop(f.out)
    }
  }

  /**
   * `order`: the list, oldest first; `off`: pinned table entries that LRU mode keeps off the list;
   * `deferred`: removed while pinned; `disposed`: every call of `RemoveElement`; `removed`: what the deleter emitted.
   */
  datatype State<V, R> = State(
    order: seq<Entry<V>>, off: seq<Entry<V>>, deferred: seq<Entry<V>>,
    disposed: seq<(string, V)>, removed: seq<R>)

  function UnitsOf<V>(es: seq<Entry<V>>): nat {
    if es == [] then 0 else es[0].units + UnitsOf(es[1..])
  }

  function PinnedUnitsOf<V>(es: seq<Entry<V>>): nat {
    if es == [] then 0 else (if es[0].pin > 0 then es[0].units else 0) + PinnedUnitsOf(es[1..])
  }

  function Units<V, R>(s: State<V, R>): nat { UnitsOf(s.order) + UnitsOf(s.off) + UnitsOf(s.deferred) }

  function PinnedUnits<V, R>(s: State<V, R>): nat { PinnedUnitsOf(s.order) + PinnedUnitsOf(s.off) }

  function Find<V>(es: seq<Entry<V>>, k: string): (i: nat)
    ensures i <= |es|
    ensures i < |es| ==> es[i].key == k
    ensures forall j :: 0 <= j < i ==> es[j].key != k
  {
    if es == [] || es[0].key == k then 0 else 1 + Find(es[1..], k)
  }

  function FindValue<V(==)>(es: seq<Entry<V>>, k: string, v: V): (i: nat)
    ensures i <= |es|
    ensures i < |es| ==> es[i].key == k && es[i].value == v
    ensures forall j :: 0 <= j < i ==> es[j].key != k || es[j].value != v
  {
    if es == [] || (es[0].key == k && es[0].value == v) then 0 else 1 + FindValue(es[1..], k, v)
  }

  // ----- The operations -----

  function Discard<V, R>(c: Config<V, R>, s: State<V, R>, k: string, v: V, now: int): State<V, R> {
    var t := s.(disposed := s.disposed + [(k, v)]);
    match c.Outcome(v, now)
    case Drop(out) => t.(removed := t.removed + out)
    case Keep(w, out) => t.(order := t.order + [Entry(k, w, 0, 1, now)], removed := t.removed + out)
  }

  function Retire<V, R>(c: Config<V, R>, s: State<V, R>, e: Entry<V>, now: int): State<V, R> {
    if e.pin > 0 then s.(deferred := s.deferred + [e]) else Discard(c, s, e.key, e.value, now)
  }

  function Remove<V, R>(c: Config<V, R>, s: State<V, R>, k: string, now: int): State<V, R> {
    var i, j := Find(s.order, k), Find(s.off, k);
    if i < |s.order| then Retire(c, s.(order := Without(s.order, i)), s.order[i], now)
    else if j < |s.off| then Retire(c, s.(off := Without(s.off, j)), s.off[j], now)
    else s
  }

  function Collect<V, R>(c: Config<V, R>, s: State<V, R>, i: nat, now: int): State<V, R>
    decreases |s.order| - i
  {
    if c.reentrant || Units(s) <= c.maxUnits || i >= |s.order| then s
    else if s.order[i].pin > 0 then Collect(c, s, i + 1, now)
    else Collect(c, Discard(c, s.(order := Without(s.order, i)), s.order[i].key, s.order[i].value, now), i, now)
  }

  function StaleCount<V>(es: seq<Entry<V>>, threshold: int): nat {
    if es == [] then 0 else (if es[0].lastUse < threshold then 1 else 0) + StaleCount(es[1..], threshold)
  }

  lemma {:induction false} StaleCountAppend<V>(es: seq<Entry<V>>, e: Entry<V>, threshold: int)
    requires e.lastUse >= threshold
    ensures StaleCount(es + [e], threshold) == StaleCount(es, threshold)
  {
    if es != [] {
      StaleCountAppend(es[1..], e, threshold);
      assert (es + [e])[1..] == es[1..] + [e];
    }
  }

  function Expire<V, R>(c: Config<V, R>, s: State<V, R>, threshold: int, now: int): State<V, R>
    requires threshold <= now
    decreases StaleCount(s.order, threshold)
  {
    if s.order == [] || s.order[0].lastUse >= threshold then s
    else
      var e, t := s.order[0], s.(order := s.order[1..]);
      (match c.Outcome(e.value, now)
       case Keep(w, _) => StaleCountAppend(t.order, Entry(e.key, w, 0, 1, now), threshold);
         Expire(c, Retire(c, t, e, now), threshold, now)
       case Drop(_) =>
         Expire(c, Retire(c, t, e, now), threshold, now))
  }

  function RemoveExpired<V, R>(c: Config<V, R>, s: State<V, R>, now: int): State<V, R> {
    if c.maxIdle >= 0 then Expire(c, s, now - c.maxIdle, now) else s
  }

  /** The table entry for `k`, wherever it is. */
  predicate InTable<V, R>(s: State<V, R>, k: string) {
    Find(s.order, k) < |s.order| || Find(s.off, k) < |s.off|
  }

  function TableEntry<V, R>(s: State<V, R>, k: string): (e: Entry<V>)
    requires InTable(s, k)
    ensures e.key == k
  {
    if Find(s.order, k) < |s.order| then s.order[Find(s.order, k)] else s.off[Find(s.off, k)]
  }

  function SetEntry<V, R>(s: State<V, R>, e: Entry<V>): State<V, R>
    requires InTable(s, e.key)
  {
    if Find(s.order, e.key) < |s.order| then s.(order := s.order[Find(s.order, e.key) := e])
    else s.(off := s.off[Find(s.off, e.key) := e])
  }

  function Pin<V, R>(c: Config<V, R>, s: State<V, R>, k: string): State<V, R> {
    var i := Find(s.order, k);
    if !InTable(s, k) then s
    else
      var e := TableEntry(s, k);
      var f := e.(pin := e.pin + 1);
      if e.pin == 0 && c.lru && i < |s.order| then s.(order := Without(s.order, i), off := s.off + [f])
      else SetEntry(s, f)
  }

  function Lookup<V, R>(c: Config<V, R>, s: State<V, R>, k: string, now: int): State<V, R> {
    Pin(c, RemoveExpired(c, s, now), k)
  }

  predicate Pinned<V(==), R>(s: State<V, R>, k: string, v: V) {
    FindValue(s.deferred, k, v) < |s.deferred|
    || (InTable(s, k) && TableEntry(s, k).value == v && TableEntry(s, k).pin > 0)
  }

  /** One pin less; in LRU mode the entry was used now and, without pins, goes back to the end of the list. */
  function Settle<V, R>(c: Config<V, R>, s: State<V, R>, k: string, now: int): State<V, R>
    requires InTable(s, k) && TableEntry(s, k).pin > 0
  {
    var e, j := TableEntry(s, k), Find(s.off, k);
    var f := e.(pin := e.pin - 1, lastUse := if c.lru then now else e.lastUse);
    if f.pin == 0 && c.lru && j < |s.off| then s.(off := Without(s.off, j), order := s.order + [f]) else SetEntry(s, f)
  }

  function Unpin<V, R>(c: Config<V, R>, s: State<V, R>, k: string, now: int): State<V, R>
    requires InTable(s, k) && TableEntry(s, k).pin > 0
  {
    var t := Settle(c, s, k, now);
    if TableEntry(s, k).pin == 1 && Units(t) > c.maxUnits then Remove(c, t, k, now) else t
  }

  function Release<V(==), R>(c: Config<V, R>, s: State<V, R>, k: string, v: V, now: int): State<V, R>
  {
    var d := FindValue(s.deferred, k, v);
    if !Pinned(s, k, v) then s
    else if d < |s.deferred| then
      var e := s.deferred[d];
      if e.pin > 1 then s.(deferred := s.deferred[d := e.(pin := e.pin - 1)])
      else Discard(c, s.(deferred := Without(s.deferred, d)), k, v, now)
    else Unpin(c, s, k, now)
  }

  function InsertPinned<V, R>(c: Config<V, R>, s: State<V, R>, k: string, v: V, u: nat, now: int): State<V, R>
  {
    Collect(c, Append(c, Remove(c, s, k, now), Entry(k, v, 1, u, now)), 0, now)
  }

  function Append<V, R>(c: Config<V, R>, s: State<V, R>, e: Entry<V>): State<V, R> {
    if c.lru then s.(off := s.off + [e]) else s.(order := s.order + [e])
  }

  function Insert<V(==), R>(c: Config<V, R>, s: State<V, R>, k: string, v: V, u: nat, now: int): State<V, R>
  {
    Release(c, InsertPinned(c, s, k, v, u, now), k, v, now)
  }

  /** The holder of a pinned value changed it in place. */
  function Store<V, R>(s: State<V, R>, k: string, v: V): State<V, R>
    requires InTable(s, k)
  {
    SetEntry(s, TableEntry(s, k).(value := v))
  }

  function RemoveEach<V, R>(c: Config<V, R>, s: State<V, R>, ks: seq<string>, now: int): State<V, R> {
    if ks == [] then s else Remove(c, RemoveEach(c, s, ks[..|ks| - 1], now), ks[|ks| - 1], now)
  }

  /** `RemoveUnpinned`, which walks from the newest entry: the `n` oldest are still to come. */
  function Purge<V, R>(c: Config<V, R>, s: State<V, R>, n: nat, now: int): State<V, R>
    requires n <= |s.order|
    decreases n
  {
    if n == 0 then s
    else if s.order[n - 1].pin > 0 then Purge(c, s, n - 1, now)
    else
      var t := s.(order := Without(s.order, n - 1));
      Purge(c, Discard(c, t, s.order[n - 1].key, s.order[n - 1].value, now), n - 1, now)
  }

  predicate Names<V(==)>(e: Entry<V>, k: string, v: Option<V>) {
    e.key == k && (v.None? || v.value == e.value)
  }

  function ResizeDeferred<V(==)>(es: seq<Entry<V>>, k: string, v: Option<V>, u: nat): (r: seq<Entry<V>>)
    ensures |r| == |es|
    ensures forall i :: 0 <= i < |es| ==> r[i] == if Names(es[i], k, v) then es[i].(units := u) else es[i]
  {
    if es == [] then []
    else [if Names(es[0], k, v) then es[0].(units := u) else es[0]] + ResizeDeferred(es[1..], k, v, u)
  }

  function Resize<V(==), R>(s: State<V, R>, k: string, v: Option<V>, u: nat): State<V, R> {
    if InTable(s, k) && Names(TableEntry(s, k), k, v) then SetEntry(s, TableEntry(s, k).(units := u))
    else s.(deferred := ResizeDeferred(s.deferred, k, v, u))
  }

  function UpdateSize<V(==), R>(c: Config<V, R>, s: State<V, R>, k: string, v: Option<V>, u: nat, now: int): State<V, R>
  {
    Collect(c, Resize(s, k, v, u), 0, now)
  }
}
