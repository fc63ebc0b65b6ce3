/** What the order of the list means: insertion in age mode, last use in LRU mode. */
module CacheOrder {
  import opened Lists
  import opened CacheModel
  import opened CacheInvariant
  import opened CacheTheorems
  import opened CacheRuns

  /** What put an entry where it is: a call, by its place in the run, an act of that call, and its time. */
  datatype Use = Use(at: nat, nth: nat, now: int)

  predicate Earlier(a: Use, b: Use) { a.at < b.at || (a.at == b.at && a.nth < b.nth) }

  /** The last of the values disposed of since `base` that was under `k` and was inserted again. */
  function BackAt<V, R>(c: Config<V, R>, disposed: seq<(string, V)>, base: nat, k: string, now: int): (r: Option<nat>)
    ensures r.Some? ==> base <= r.value < |disposed|
  {
    var n := |disposed|;
    if n <= base then None
    else if disposed[n - 1].0 == k && c.Outcome(disposed[n - 1].1, now).Keep? then Some(n - 1)
    else BackAt(c, disposed[..n - 1], base, k, now)
  }

  /**
   * What last put the table entry for `k` where it is: the call that inserted it or, in LRU mode, released it; or the
   * deleter, when it inserted it again.
   */
  function UsedBy<V(==), R>(c: Config<V, R>, es: seq<Event<V>>, k: string): (u: Option<Use>)
    ensures u.Some? ==> u.value.at < |es|
  {
    if es == [] then None
    else
      var init, e := es[..|es| - 1], es[|es| - 1];
      if Uses(c, Run(c, init), e, k) then Some(Use(|init|, 0, e.now))
      else
        match BackAt(c, Run(c, es).disposed, |Run(c, init).disposed|, k, e.now)
        case Some(d) => Some(Use(|init|, d + 1, e.now))
        case None => UsedBy(c, init, k)
  }

  /** The call inserts `k`, or it releases the table entry for `k` in LRU mode. */
  predicate Uses<V(==), R>(c: Config<V, R>, s: State<V, R>, e: Event<V>, k: string) {
    match e
    case DoInsertPinned(j, _, _, _) => j == k
    case DoInsert(j, _, _, _) => j == k
    case DoRelease(j, v, _) => j == k && c.lru && FindValue(s.deferred, j, v) == |s.deferred|
    case _ => false
  }

  type Stamps = string -> Option<Use>

  /** Each entry carries the time at which it was last put where it is. */
  ghost predicate Stamped<V>(es: seq<Entry<V>>, f: Stamps) {
    forall i :: 0 <= i < |es| ==> f(es[i].key).Some? && f(es[i].key).value.now == es[i].lastUse
  }

  /** The entries are in the order in which they were last put there, and no two were put there at once. */
  ghost predicate InOrder<V>(es: seq<Entry<V>>, f: Stamps) {
    forall i, j :: 0 <= i < j < |es| ==>
      f(es[i].key).Some? && f(es[j].key).Some? && Earlier(f(es[i].key).value, f(es[j].key).value)
  }

  ghost predicate TableStamped<V, R>(s: State<V, R>, f: Stamps) {
    Stamped(s.order, f) && Stamped(s.off, f) && InOrder(s.order, f)
  }

  /** The stamps of all keys but `k` are earlier. */
  ghost predicate Below(f: Stamps, u: Use, k: string) { forall j :: j != k && f(j).Some? ==> Earlier(f(j).value, u) }

  lemma WithoutStamped<V>(es: seq<Entry<V>>, i: nat, f: Stamps)
    requires Stamped(es, f) && i < |es|
    ensures Stamped(Without(es, i), f) && (InOrder(es, f) ==> InOrder(Without(es, i), f))
  {
  }

  lemma SetStamped<V>(es: seq<Entry<V>>, i: nat, e: Entry<V>, f: Stamps)
    requires Stamped(es, f) && i < |es| && e.key == es[i].key && e.lastUse == es[i].lastUse
    ensures Stamped(es[i := e], f) && (InOrder(es, f) ==> InOrder(es[i := e], f))
  {
  }

  lemma AppendStamped<V>(es: seq<Entry<V>>, e: Entry<V>, f: Stamps)
    requires Stamped(es, f) && f(e.key).Some? && f(e.key).value.now == e.lastUse
    ensures Stamped(es + [e], f)
  {
  }

  /** The stamps of all other keys stay. */
  ghost predicate Agree(f: Stamps, g: Stamps, k: string) { forall j :: j != k ==> f(j) == g(j) }

  lemma Restamped<V>(es: seq<Entry<V>>, f: Stamps, g: Stamps, k: string)
    requires Stamped(es, f) && Agree(f, g, k) && !HasKey(es, k)
    ensures Stamped(es, g) && (InOrder(es, f) ==> InOrder(es, g))
  {
  }

  /** A later act puts an entry behind all others. */
  lemma AppendInOrder<V>(es: seq<Entry<V>>, e: Entry<V>, f: Stamps, g: Stamps, u: Use)
    requires Stamped(es, f) && InOrder(es, f) && Below(f, u, e.key) && Agree(f, g, e.key) && !HasKey(es, e.key)
    requires g(e.key) == Some(u) && u.now == e.lastUse
    ensures Stamped(es + [e], g) && InOrder(es + [e], g)
  {
    Restamped(es, f, g, e.key);
    assert forall i :: 0 <= i < |es| ==> es[i].key != e.key && g(es[i].key) == f(es[i].key);
  }

  // ----- Within a call: what the deleter has inserted again so far -----

  /** A call that begins when `base` values have been disposed of. */
  datatype Call = Call(n: nat, now: int, base: nat)

  /** The stamps `f` from before the call, and those of what came back since. */
  function Marks<V, R>(c: Config<V, R>, disposed: seq<(string, V)>, call: Call, f: Stamps): Stamps {
    (k: string) =>
      match BackAt(c, disposed, call.base, k, call.now)
      case Some(d) => Some(Use(call.n, d + 1, call.now))
      case None => f(k)
  }

  ghost predicate Marked<V, R>(c: Config<V, R>, s: State<V, R>, call: Call, f: Stamps) {
    call.base <= |s.disposed| && TableStamped(s, Marks(c, s.disposed, call, f))
  }

  /** Stamps of calls before the `n`-th. */
  ghost predicate Past(f: Stamps, n: nat) { forall k :: f(k).Some? ==> f(k).value.at < n }

  lemma MarkSnoc<V, R>(c: Config<V, R>, disposed: seq<(string, V)>, d: (string, V), call: Call, f: Stamps, k: string)
    requires call.base <= |disposed|
    ensures Marks(c, disposed + [d], call, f)(k) ==
            if k == d.0 && c.Outcome(d.1, call.now).Keep? then Some(Use(call.n, |disposed| + 1, call.now))
            else Marks(c, disposed, call, f)(k)
  {
    assert (disposed + [d])[..|disposed|] == disposed;
    assert BackAt(c, disposed + [d], call.base, k, call.now) ==
           if d.0 == k && c.Outcome(d.1, call.now).Keep? then Some(|disposed|)
           else BackAt(c, disposed, call.base, k, call.now);
    hide BackAt;
  }

  /** Before anything is disposed of, and always when the deleter only drops, the stamps are the old ones. */
  lemma {:induction false} Unmarked<V, R>(c: Config<V, R>, disposed: seq<(string, V)>, call: Call, f: Stamps, k: string)
    requires !c.reentrant || |disposed| <= call.base
    ensures Marks(c, disposed, call, f)(k) == f(k)
  {
    NoneBack(c, disposed, call.base, k, call.now);
    hide BackAt;
  }

  lemma {:induction false} NoneBack<V, R>(c: Config<V, R>, disposed: seq<(string, V)>, base: nat, k: string, now: int)
    requires !c.reentrant || |disposed| <= base
    ensures BackAt(c, disposed, base, k, now) == None
  {
    if |disposed| > base {
      NoneBack(c, disposed[..|disposed| - 1], base, k, now);
    }
  }

  lemma MarksBelow<V, R>(c: Config<V, R>, disposed: seq<(string, V)>, call: Call, f: Stamps, k: string)
    requires Past(f, call.n)
    ensures Below(Marks(c, disposed, call, f), Use(call.n, |disposed| + 1, call.now), k)
  {
    hide BackAt;
  }

  /** What the deleter inserts again goes behind everything else. */
  lemma DiscardMarked<V, R>(c: Config<V, R>, s: State<V, R>, k: string, v: V, call: Call, f: Stamps)
    requires Marked(c, s, call, f)
    requires c.reentrant ==> Past(f, call.n) && !HasKey(s.order, k) && !HasKey(s.off, k)
    ensures Marked(c, Discard(c, s, k, v, call.now), call, f)
  {
    var t := Discard(c, s, k, v, call.now);
    var m, g := Marks(c, s.disposed, call, f), Marks(c, t.disposed, call, f);
    DiscardIs(c, s, k, v, call.now);
    hide *;
    MarkedParts(c, s, call, f);
    forall j
      ensures g(j) ==
              if j == k && c.Outcome(v, call.now).Keep? then Some(Use(call.n, |s.disposed| + 1, call.now)) else m(j)
    {
      MarkSnoc(c, s.disposed, (k, v), call, f, j);
    }
    match c.Outcome(v, call.now) {
      case Drop(_) =>
        Same(s, m, g);
        StampedParts(s, g);
        StampedIntro(t, g);
      case Keep(w, _) =>
        MarksBelow(c, s.disposed, call, f, k);
        StampedParts(s, m);
        AgreeIntro(m, g, k);
        Restamped(s.off, m, g, k);
        AppendInOrder(s.order, Entry(k, w, 0, 1, call.now), m, g, Use(call.n, |s.disposed| + 1, call.now));
        StampedIntro(t, g);
    }
    MarkedIntro(c, t, call, f);
  }

  lemma AgreeIntro(f: Stamps, g: Stamps, k: string)
    requires forall j :: j != k ==> f(j) == g(j)
    ensures Agree(f, g, k)
  {
  }

  lemma MarkedParts<V, R>(c: Config<V, R>, s: State<V, R>, call: Call, f: Stamps)
    requires Marked(c, s, call, f)
    ensures call.base <= |s.disposed| && TableStamped(s, Marks(c, s.disposed, call, f))
  {
  }

  lemma MarkedIntro<V, R>(c: Config<V, R>, s: State<V, R>, call: Call, f: Stamps)
    requires call.base <= |s.disposed| && TableStamped(s, Marks(c, s.disposed, call, f))
    ensures Marked(c, s, call, f)
  {
  }

  lemma RetireMarked<V, R>(c: Config<V, R>, s: State<V, R>, e: Entry<V>, call: Call, f: Stamps)
    requires Marked(c, s, call, f) && (c.reentrant ==> Past(f, call.n) && Loose(c, s, e))
    ensures Marked(c, Retire(c, s, e, call.now), call, f)
  {
    hide Marks, Stamped, InOrder, HasKey, Past;
    if e.pin == 0 {
      hide Marked;
      DiscardMarked(c, s, e.key, e.value, call, f);
    }
  }

  lemma TakeListedMarked<V, R>(c: Config<V, R>, s: State<V, R>, i: nat, call: Call, f: Stamps)
    requires Marked(c, s, call, f) && i < |s.order|
    ensures Marked(c, s.(order := Without(s.order, i)), call, f)
  {
    hide Marks, Stamped, InOrder;
    WithoutStamped(s.order, i, Marks(c, s.disposed, call, f));
  }

  lemma TakeHeldMarked<V, R>(c: Config<V, R>, s: State<V, R>, i: nat, call: Call, f: Stamps)
    requires Marked(c, s, call, f) && i < |s.off|
    ensures Marked(c, s.(off := Without(s.off, i)), call, f)
  {
    hide Marks, Stamped, InOrder;
    WithoutStamped(s.off, i, Marks(c, s.disposed, call, f));
  }

  /** Taking the `i`-th entry off the list, and through the deleter if it is not pinned. */
  lemma RetireListedMarked<V, R>(c: Config<V, R>, s: State<V, R>, i: nat, call: Call, f: Stamps)
    requires Wf(c, s) && Marked(c, s, call, f) && (c.reentrant ==> Past(f, call.n)) && i < |s.order|
    ensures var t := Retire(c, s.(order := Without(s.order, i)), s.order[i], call.now);
            Wf(c, t) && Marked(c, t, call, f)
  {
    hide *;
    TakeOrder(c, s, i);
    RetireWf(c, s.(order := Without(s.order, i)), s.order[i], call.now);
    TakeListedMarked(c, s, i, call, f);
    RetireMarked(c, s.(order := Without(s.order, i)), s.order[i], call, f);
  }

  lemma RemoveMarked<V, R>(c: Config<V, R>, s: State<V, R>, k: string, call: Call, f: Stamps)
    requires Wf(c, s) && Marked(c, s, call, f) && (c.reentrant ==> Past(f, call.n))
    ensures Wf(c, Remove(c, s, k, call.now)) && Marked(c, Remove(c, s, k, call.now), call, f)
  {
    hide Wf, Marked, Past, Retire, Find;
    RemoveWf(c, s, k, call.now);
    var i, j := Find(s.order, k), Find(s.off, k);
    if i < |s.order| {
      RetireListedMarked(c, s, i, call, f);
    } else if j < |s.off| {
      TakeOff(c, s, j);
      TakeHeldMarked(c, s, j, call, f);
      RetireMarked(c, s.(off := Without(s.off, j)), s.off[j], call, f);
    }
  }

  lemma {:induction false} CollectMarked<V, R>(c: Config<V, R>, s: State<V, R>, i: nat, call: Call, f: Stamps)
    requires Wf(c, s) && Marked(c, s, call, f)
    ensures Marked(c, Collect(c, s, i, call.now), call, f)
    decreases |s.order| - i
  {
    hide Wf, Marked, Past, Discard, Units, Retire;
    if c.reentrant || Units(s) <= c.maxUnits || i >= |s.order| {
    } else if s.order[i].pin > 0 {
      CollectMarked(c, s, i + 1, call, f);
    } else {
      var t := s.(order := Without(s.order, i));
      RetireListedMarked(c, s, i, call, f);
      RetireUnpinned(c, t, s.order[i], call.now);
      RetireDrops(c, t, s.order[i], call.now);
      CollectMarked(c, Discard(c, t, s.order[i].key, s.order[i].value, call.now), i, call, f);
    }
  }

  lemma RetireDrops<V, R>(c: Config<V, R>, s: State<V, R>, e: Entry<V>, now: int)
    requires !c.reentrant
    ensures Retire(c, s, e, now).order == s.order
  {
  }

  lemma {:induction false} ExpireMarked<V, R>(c: Config<V, R>, s: State<V, R>, threshold: int, call: Call, f: Stamps)
    requires Wf(c, s) && Marked(c, s, call, f) && (c.reentrant ==> Past(f, call.n)) && threshold <= call.now
    ensures Wf(c, Expire(c, s, threshold, call.now)) && Marked(c, Expire(c, s, threshold, call.now), call, f)
    decreases StaleCount(s.order, threshold)
  {
    hide Wf, Marked, Past, Retire, StaleCount;
    if s.order != [] && s.order[0].lastUse < threshold {
      assert s.order[1..] == Without(s.order, 0);
      RetireListedMarked(c, s, 0, call, f);
      ExpireStepShrinks(c, s, threshold, call.now);
      ExpireMarked(c, Retire(c, s.(order := s.order[1..]), s.order[0], call.now), threshold, call, f);
    }
  }

  lemma {:induction false} PurgeMarked<V, R>(c: Config<V, R>, s: State<V, R>, n: nat, call: Call, f: Stamps)
    requires Wf(c, s) && Marked(c, s, call, f) && (c.reentrant ==> Past(f, call.n)) && n <= |s.order|
    ensures Marked(c, Purge(c, s, n, call.now), call, f)
    decreases n
  {
    hide Wf, Marked, Past, Discard, Retire;
    if n == 0 {
    } else if s.order[n - 1].pin > 0 {
      PurgeMarked(c, s, n - 1, call, f);
    } else {
      var t := s.(order := Without(s.order, n - 1));
      RetireListedMarked(c, s, n - 1, call, f);
      RetireUnpinned(c, t, s.order[n - 1], call.now);
      PurgeOne(c, s, n, call.now);
      PurgeMarked(c, Discard(c, t, s.order[n - 1].key, s.order[n - 1].value, call.now), n - 1, call, f);
    }
  }

  lemma {:induction false} RemoveEachMarked<V, R>(c: Config<V, R>, s: State<V, R>, ks: seq<string>, call: Call,
                                                  f: Stamps)
    requires Wf(c, s) && Marked(c, s, call, f) && (c.reentrant ==> Past(f, call.n))
    ensures Wf(c, RemoveEach(c, s, ks, call.now)) && Marked(c, RemoveEach(c, s, ks, call.now), call, f)
    decreases |ks|
  {
    hide Wf, Marked, Past, Remove;
    if ks != [] {
      RemoveEachMarked(c, s, ks[..|ks| - 1], call, f);
      RemoveMarked(c, RemoveEach(c, s, ks[..|ks| - 1], call.now), ks[|ks| - 1], call, f);
    }
  }

  /** The stamps at the beginning of a call. */
  lemma MarkedFirst<V, R>(c: Config<V, R>, s: State<V, R>, call: Call, f: Stamps)
    requires TableStamped(s, f) && call.base == |s.disposed|
    ensures Marked(c, s, call, f)
  {
    hide TableStamped, Marks;
    forall k ensures f(k) == Marks(c, s.disposed, call, f)(k) {
      Unmarked(c, s.disposed, call, f, k);
    }
    Same(s, f, Marks(c, s.disposed, call, f));
  }

  /** A call that the deleter adds nothing to. */
  lemma MarkedStill<V, R>(c: Config<V, R>, s: State<V, R>, call: Call, f: Stamps)
    requires Marked(c, s, call, f) && (!c.reentrant || |s.disposed| <= call.base)
    ensures TableStamped(s, f)
  {
    hide TableStamped, Marks;
    forall k ensures f(k) == Marks(c, s.disposed, call, f)(k) {
      Unmarked(c, s.disposed, call, f, k);
    }
    Same(s, Marks(c, s.disposed, call, f), f);
  }

  // ----- The calls -----

  lemma FoundStamp<V, R>(s: State<V, R>, k: string, f: Stamps)
    requires TableStamped(s, f) && InTable(s, k)
    ensures f(k).Some? && f(k).value.now == TableEntry(s, k).lastUse
  {
  }

  lemma SetEntryStamped<V, R>(s: State<V, R>, e: Entry<V>, f: Stamps)
    requires TableStamped(s, f) && InTable(s, e.key) && e.lastUse == TableEntry(s, e.key).lastUse
    ensures TableStamped(SetEntry(s, e), f)
  {
    hide Stamped, InOrder;
    if Find(s.order, e.key) < |s.order| {
      SetStamped(s.order, Find(s.order, e.key), e, f);
    } else {
      SetStamped(s.off, Find(s.off, e.key), e, f);
    }
  }

  lemma PinStamped<V, R>(c: Config<V, R>, s: State<V, R>, k: string, f: Stamps)
    requires TableStamped(s, f)
    ensures TableStamped(Pin(c, s, k), f)
  {
    if InTable(s, k) {
      FoundStamp(s, k, f);
      hide Stamped, InOrder;
      var i, e := Find(s.order, k), TableEntry(s, k);
      var g := e.(pin := e.pin + 1);
      if e.pin == 0 && c.lru && i < |s.order| {
        WithoutStamped(s.order, i, f);
        AppendStamped(s.off, g, f);
      } else {
        SetEntryStamped(s, g, f);
      }
    }
  }

  /** The last release in LRU mode is a use; in age mode a release changes no stamp. */
  lemma SettleStamped<V, R>(c: Config<V, R>, s: State<V, R>, k: string, u: Use, f: Stamps, g: Stamps)
    requires Wf(c, s) && TableStamped(s, f) && Below(f, u, k) && InTable(s, k) && TableEntry(s, k).pin > 0
    requires Agree(f, g, k) && g(k) == if c.lru then Some(u) else f(k)
    ensures TableStamped(Settle(c, s, k, u.now), g)
  {
    FoundStamp(s, k, f);
    var i, j, e := Find(s.order, k), Find(s.off, k), TableEntry(s, k);
    var h := e.(pin := e.pin - 1, lastUse := if c.lru then u.now else e.lastUse);
    if !c.lru {
      SetEntryStamped(s, h, f);
      Same(SetEntry(s, h), f, g);
    } else {
      LruHolds(c, s, k);
      LacksKey(s.order, k);
      HeldUnique(c, s);
      hide Wf, TableStamped, InOrder, Stamped, Find, HasKey, Agree, Below;
      StampedParts(s, f);
      Restamped(s.order, f, g, k);
      RestStamped(s.off, j, f, g);
      SwapStamped(s.off, j, h, f, g);
      AppendInOrder(s.order, h, f, g, u);
      StampedIntro(Settle(c, s, k, u.now), g);
    }
  }

  lemma HeldUnique<V, R>(c: Config<V, R>, s: State<V, R>)
    requires Wf(c, s)
    ensures UniqueKeys(s.off)
  {
  }

  lemma StampedParts<V, R>(s: State<V, R>, f: Stamps)
    requires TableStamped(s, f)
    ensures Stamped(s.order, f) && Stamped(s.off, f) && InOrder(s.order, f)
  {
  }

  lemma StampedIntro<V, R>(s: State<V, R>, f: Stamps)
    requires Stamped(s.order, f) && Stamped(s.off, f) && InOrder(s.order, f)
    ensures TableStamped(s, f)
  {
  }

  lemma LacksKey<V>(es: seq<Entry<V>>, k: string)
    requires Find(es, k) == |es|
    ensures !HasKey(es, k)
  {
  }

  lemma RestStamped<V>(es: seq<Entry<V>>, i: nat, f: Stamps, g: Stamps)
    requires Stamped(es, f) && UniqueKeys(es) && i < |es| && Agree(f, g, es[i].key)
    ensures Stamped(Without(es, i), g)
  {
    WithoutStamped(es, i, f);
    assert !HasKey(Without(es, i), es[i].key);
    Restamped(Without(es, i), f, g, es[i].key);
  }

  lemma SwapStamped<V>(es: seq<Entry<V>>, i: nat, e: Entry<V>, f: Stamps, g: Stamps)
    requires Stamped(es, f) && UniqueKeys(es) && i < |es| && e.key == es[i].key && Agree(f, g, e.key)
    requires g(e.key).Some? && g(e.key).value.now == e.lastUse
    ensures Stamped(es[i := e], g)
  {
    var t := es[i := e];
    forall j | 0 <= j < |t| ensures g(t[j].key).Some? && g(t[j].key).value.now == t[j].lastUse {
      if j != i {
        assert es[j].key != e.key by {
          assert if j < i then es[j].key != es[i].key else es[i].key != es[j].key;
        }
      }
    }
  }

  /** Releasing a table entry. */
  lemma UnpinStamped<V, R>(c: Config<V, R>, s: State<V, R>, k: string, u: Use, f: Stamps, g: Stamps)
    requires Wf(c, s) && TableStamped(s, f) && Below(f, u, k) && InTable(s, k) && TableEntry(s, k).pin > 0
    requires Agree(f, g, k) && g(k) == if c.lru then Some(u) else f(k)
    ensures TableStamped(Unpin(c, s, k, u.now), g) && (c.reentrant ==> Unpin(c, s, k, u.now).disposed == s.disposed)
  {
    hide *;
    var t := Settle(c, s, k, u.now);
    SettleStamped(c, s, k, u, f, g);
    SettleWf(c, s, k, u.now);
    UnpinUnfolds(c, s, k, u.now);
    SettleDisposes(c, s, k, u.now);
    if c.reentrant {
      RoomInside(c, t);
    } else {
      var call := Call(0, u.now, |t.disposed|);
      MarkedFirst(c, t, call, g);
      RemoveMarked(c, t, k, call, g);
      MarkedStill(c, Remove(c, t, k, u.now), call, g);
    }
  }

  lemma RoomInside<V, R>(c: Config<V, R>, s: State<V, R>)
    requires Wf(c, s) && c.reentrant
    ensures Units(s) <= c.maxUnits
  {
  }

  /** Releasing a deferred value, which the deleter may insert again. */
  lemma DeferredMarked<V, R>(c: Config<V, R>, s: State<V, R>, k: string, v: V, call: Call, f: Stamps)
    requires Wf(c, s) && Marked(c, s, call, f) && Past(f, call.n) && FindValue(s.deferred, k, v) < |s.deferred|
    ensures Marked(c, Release(c, s, k, v, call.now), call, f)
  {
    var d := FindValue(s.deferred, k, v);
    var t := s.(deferred := Without(s.deferred, d));
    TakeDeferred(c, s, d);
    LooseKey(c, t, s.deferred[d]);
    hide Wf, Loose, Past, Marks, TableStamped, Discard, Units, HasKey;
    SameLists(c, s, t, call, f);
    SameLists(c, s, Release(c, s, k, v, call.now), call, f);
    if s.deferred[d].pin <= 1 {
      DiscardMarked(c, t, k, v, call, f);
    }
  }

  lemma LooseKey<V, R>(c: Config<V, R>, s: State<V, R>, e: Entry<V>)
    requires c.reentrant ==> Loose(c, s, e)
    ensures c.reentrant ==> !HasKey(s.order, e.key) && !HasKey(s.off, e.key)
  {
  }

  lemma SameLists<V, R>(c: Config<V, R>, s: State<V, R>, t: State<V, R>, call: Call, f: Stamps)
    requires Marked(c, s, call, f)
    ensures t.order == s.order && t.off == s.off && t.disposed == s.disposed ==> Marked(c, t, call, f)
  {
    hide Marks, Stamped, InOrder;
  }

  lemma InsertPinnedStamped<V, R>(c: Config<V, R>, s: State<V, R>, k: string, v: V, n: nat, u: Use, f: Stamps,
                                  g: Stamps)
    requires Wf(c, s) && MayInsert(c, s, k, v, n) && TableStamped(s, f)
    requires Below(f, u, k) && Agree(f, g, k) && g(k) == Some(u)
    ensures var t := InsertPinned(c, s, k, v, n, u.now);
            TableStamped(t, g) && (c.reentrant ==> t.disposed == s.disposed)
  {
    hide *;
    var r, e := Remove(c, s, k, u.now), Entry(k, v, 1, n, u.now);
    var a := Append(c, r, e);
    RemovedStamped(c, s, k, v, n, u.now, f);
    StampedParts(r, f);
    Restamped(r.order, f, g, k);
    Restamped(r.off, f, g, k);
    AppendInOrder(r.order, e, f, g, u);
    AppendStamped(r.off, e, g);
    AppendIs(c, r, e);
    StampedIntro(a, g);
    InsertPinnedIs(c, s, k, v, n, u.now);
    if !c.reentrant {
      var call := Call(0, u.now, |a.disposed|);
      MarkedFirst(c, a, call, g);
      CollectMarked(c, a, 0, call, g);
      MarkedStill(c, Collect(c, a, 0, u.now), call, g);
    } else {
      NotCollected(c, a, u.now);
    }
  }

  lemma NotCollected<V, R>(c: Config<V, R>, s: State<V, R>, now: int)
    requires c.reentrant
    ensures Collect(c, s, 0, now) == s
  {
  }

  lemma RemovedStamped<V, R>(c: Config<V, R>, s: State<V, R>, k: string, v: V, n: nat, now: int, f: Stamps)
    requires Wf(c, s) && MayInsert(c, s, k, v, n) && TableStamped(s, f)
    ensures var r, e := Remove(c, s, k, now), Entry(k, v, 1, n, now);
            && TableStamped(r, f) && !HasKey(r.order, k) && !HasKey(r.off, k) && Wf(c, Append(c, r, e))
            && (c.reentrant ==> r == s)
  {
    var r, e := Remove(c, s, k, now), Entry(k, v, 1, n, now);
    RemoveWf(c, s, k, now);
    AppendWf(c, r, e);
    hide TableStamped, Wf, Marked;
    if !c.reentrant {
      var call := Call(0, now, |s.disposed|);
      MarkedFirst(c, s, call, f);
      RemoveMarked(c, s, k, call, f);
      MarkedStill(c, r, call, f);
    }
  }

  lemma AppendIs<V, R>(c: Config<V, R>, s: State<V, R>, e: Entry<V>)
    ensures Append(c, s, e) == if c.lru then s.(off := s.off + [e]) else s.(order := s.order + [e])
  {
  }

  lemma ResizeStamped<V, R>(c: Config<V, R>, s: State<V, R>, k: string, who: Option<V>, u: nat, call: Call, f: Stamps)
    requires Wf(c, Resize(s, k, who, u)) && TableStamped(s, f) && call.base == |s.disposed|
    ensures Marked(c, UpdateSize(c, s, k, who, u, call.now), call, f)
  {
    hide Stamped, InOrder, Collect, SetEntry, ResizeDeferred, Marked, Wf;
    if InTable(s, k) && Names(TableEntry(s, k), k, who) {
      FoundStamp(s, k, f);
      SetEntryStamped(s, TableEntry(s, k).(units := u), f);
      SetEntryDisposes(s, TableEntry(s, k).(units := u));
    }
    MarkedFirst(c, Resize(s, k, who, u), call, f);
    CollectMarked(c, Resize(s, k, who, u), 0, call, f);
  }

  lemma SetEntryDisposes<V, R>(s: State<V, R>, e: Entry<V>)
    requires InTable(s, e.key)
    ensures SetEntry(s, e).disposed == s.disposed
  {
  }

  lemma ExpiredMarked<V, R>(c: Config<V, R>, s: State<V, R>, call: Call, f: Stamps)
    requires Wf(c, s) && Marked(c, s, call, f) && (c.reentrant ==> Past(f, call.n))
    ensures Marked(c, RemoveExpired(c, s, call.now), call, f)
  {
    hide Marked, Expire, Wf, Past;
    if c.maxIdle >= 0 {
      ExpireMarked(c, s, call.now - c.maxIdle, call, f);
    }
  }

  lemma LookupMarked<V, R>(c: Config<V, R>, s: State<V, R>, k: string, call: Call, f: Stamps)
    requires Wf(c, s) && Marked(c, s, call, f) && (c.reentrant ==> Past(f, call.n))
    ensures Marked(c, Lookup(c, s, k, call.now), call, f)
  {
    hide TableStamped, Marks, RemoveExpired, Wf, Past, Pin;
    var t := RemoveExpired(c, s, call.now);
    ExpiredMarked(c, s, call, f);
    PinStamped(c, t, k, Marks(c, t.disposed, call, f));
    PinDisposes(c, t, k);
  }

  /** What a call leaves, if it is not itself a use: the old stamps, and those of what came back. */
  lemma OtherMarked<V, R>(c: Config<V, R>, s: State<V, R>, e: Event<V>, call: Call, f: Stamps)
    requires Wf(c, s) && Allowed(c, s, e) && TableStamped(s, f) && Past(f, call.n)
    requires call.now == e.now && call.base == |s.disposed|
    requires !e.DoInsertPinned? && !e.DoInsert? && (e.DoRelease? ==> FindValue(s.deferred, e.k, e.v) < |s.deferred|)
    ensures Marked(c, Step(c, s, e), call, f)
  {
    MarkedFirst(c, s, call, f);
    if e.DoUpdateSize? {
      ResizeWf(c, s, e.k, e.who, e.u);
    }
    hide Wf, TableStamped, Marked, Past, Release, Remove, Purge, RemoveEach, UpdateSize, RemoveExpired, Lookup, Pinned,
        Resize, FindValue;
    match e {
      case DoRelease(k, v, now) => DeferredMarked(c, s, k, v, call, f);
      case DoRemove(k, now) => RemoveMarked(c, s, k, call, f);
      case DoRemoveUnpinned(now) => PurgeMarked(c, s, |s.order|, call, f);
      case DoRemoveAll(ks, now) => RemoveEachMarked(c, s, ks, call, f);
      case DoUpdateSize(k, who, u, now) => ResizeStamped(c, s, k, who, u, call, f);
      case DoRemoveExpired(now) => ExpiredMarked(c, s, call, f);
      case DoLookup(k, now) => LookupMarked(c, s, k, call, f);
    }
  }

  /** The stamps after a call. */
  ghost predicate Next<V, R>(c: Config<V, R>, s: State<V, R>, e: Event<V>, t: State<V, R>, n: nat, f: Stamps, g: Stamps)
  {
    forall k :: g(k) == if Uses(c, s, e, k) then Some(Use(n, 0, e.now))
        else Marks(c, t.disposed, Call(n, e.now, |s.disposed|), f)(k)
  }

  lemma StepStamped<V, R>(c: Config<V, R>, s: State<V, R>, e: Event<V>, n: nat, f: Stamps, g: Stamps)
    requires Wf(c, s) && Allowed(c, s, e) && TableStamped(s, f) && Past(f, n) && Next(c, s, e, Step(c, s, e), n, f, g)
    ensures TableStamped(Step(c, s, e), g)
  {
    var u, call, t := Use(n, 0, e.now), Call(n, e.now, |s.disposed|), Step(c, s, e);
    hide Wf, TableStamped, InsertPinned, Insert, Release, Remove, Purge, RemoveEach, UpdateSize, RemoveExpired, Lookup,
        Pin;
    hide Marks, FindValue, MayInsert, Pinned, BackAt;
    PastBelow(f, u, e);
    match e {
      case DoInsertPinned(k, v, w, now) =>
        UsedHere(f, u, k);
        InsertPinnedStamped(c, s, k, v, w, u, f, UsedNow(f, u, k));
        Reused(c, s, e, t, n, f, g, k);
      case DoInsert(k, v, w, now) =>
        InsertStamped(c, s, k, v, w, u, f);
        Reused(c, s, e, t, n, f, g, k);
      case DoRelease(k, v, now) =>
        if FindValue(s.deferred, k, v) < |s.deferred| {
          OtherMarked(c, s, e, call, f);
          NothingUsed(c, s, e, t, n, f, g);
        } else {
          ReleaseStamped(c, s, k, v, u, f);
          if c.lru {
            Reused(c, s, e, t, n, f, g, k);
          } else {
            Unused(c, s, e, t, n, f, g);
          }
        }
      case _ =>
        OtherMarked(c, s, e, call, f);
        NothingUsed(c, s, e, t, n, f, g);
    }
  }

  /** The stamps, with a new one for `k`. */
  function UsedNow(f: Stamps, u: Use, k: string): Stamps { (j: string) => if j == k then Some(u) else f(j) }

  lemma UsedHere(f: Stamps, u: Use, k: string)
    ensures Agree(f, UsedNow(f, u, k), k) && UsedNow(f, u, k)(k) == Some(u)
  {
  }

  lemma PastBelow<V>(f: Stamps, u: Use, e: Event<V>)
    requires Past(f, u.at)
    ensures forall k :: Below(f, u, k)
  {
  }

  lemma InsertStamped<V, R>(c: Config<V, R>, s: State<V, R>, k: string, v: V, w: nat, u: Use, f: Stamps)
    requires Wf(c, s) && MayInsert(c, s, k, v, w) && TableStamped(s, f) && Below(f, u, k)
    ensures var t := Insert(c, s, k, v, w, u.now);
            TableStamped(t, UsedNow(f, u, k)) && (c.reentrant ==> t.disposed == s.disposed)
  {
    hide *;
    var t, g := InsertPinned(c, s, k, v, w, u.now), UsedNow(f, u, k);
    UsedHere(f, u, k);
    InsertPinnedStamped(c, s, k, v, w, u, f, g);
    InsertedPinned(c, s, k, v, w, u.now);
    BelowStill(f, g, u, k);
    ReleaseUnpins(c, t, k, v, u.now);
    UnpinStamped(c, t, k, u, g, g);
  }

  lemma InsertedPinned<V, R>(c: Config<V, R>, s: State<V, R>, k: string, v: V, w: nat, now: int)
    requires Wf(c, s) && MayInsert(c, s, k, v, w)
    ensures var t := InsertPinned(c, s, k, v, w, now);
            && Wf(c, t) && Pinned(t, k, v) && FindValue(t.deferred, k, v) == |t.deferred|
            && Insert(c, s, k, v, w, now) == Release(c, t, k, v, now)
  {
    InsertPinnedFound(c, s, k, v, w, now);
    hide Wf;
  }

  lemma BelowStill(f: Stamps, g: Stamps, u: Use, k: string)
    requires Below(f, u, k) && Agree(f, g, k) && g(k) == Some(u)
    ensures Below(g, u, k) && Agree(g, g, k)
  {
  }

  lemma ReleaseStamped<V, R>(c: Config<V, R>, s: State<V, R>, k: string, v: V, u: Use, f: Stamps)
    requires Wf(c, s) && TableStamped(s, f) && Below(f, u, k)
    requires Pinned(s, k, v) && FindValue(s.deferred, k, v) == |s.deferred|
    ensures var t := Release(c, s, k, v, u.now);
            && TableStamped(t, if c.lru then UsedNow(f, u, k) else f) && (c.reentrant ==> t.disposed == s.disposed)
  {
    hide *;
    ReleaseUnpins(c, s, k, v, u.now);
    if c.lru {
      UsedHere(f, u, k);
      UnpinStamped(c, s, k, u, f, UsedNow(f, u, k));
    } else {
      AgreeIntro(f, f, k);
      UnpinStamped(c, s, k, u, f, f);
    }
  }

  lemma Reused<V, R>(c: Config<V, R>, s: State<V, R>, e: Event<V>, t: State<V, R>, n: nat, f: Stamps, g: Stamps,
                     k: string)
    requires Next(c, s, e, t, n, f, g) && (forall j :: Uses(c, s, e, j) <==> j == k)
    requires TableStamped(t, UsedNow(f, Use(n, 0, e.now), k)) && (c.reentrant ==> t.disposed == s.disposed)
    ensures TableStamped(t, g)
  {
    hide TableStamped, Marks, Uses;
    forall j ensures UsedNow(f, Use(n, 0, e.now), k)(j) == g(j) {
      Unmarked(c, t.disposed, Call(n, e.now, |s.disposed|), f, j);
    }
    Same(t, UsedNow(f, Use(n, 0, e.now), k), g);
  }

  lemma Unused<V, R>(c: Config<V, R>, s: State<V, R>, e: Event<V>, t: State<V, R>, n: nat, f: Stamps, g: Stamps)
    requires Next(c, s, e, t, n, f, g) && forall j :: !Uses(c, s, e, j)
    requires TableStamped(t, f) && (c.reentrant ==> t.disposed == s.disposed)
    ensures TableStamped(t, g)
  {
    hide TableStamped, Marks, Uses;
    forall j ensures f(j) == g(j) {
      Unmarked(c, t.disposed, Call(n, e.now, |s.disposed|), f, j);
    }
    Same(t, f, g);
  }

  lemma NothingUsed<V, R>(c: Config<V, R>, s: State<V, R>, e: Event<V>, t: State<V, R>, n: nat, f: Stamps, g: Stamps)
    requires Next(c, s, e, t, n, f, g) && (forall j :: !Uses(c, s, e, j))
        && Marked(c, t, Call(n, e.now, |s.disposed|), f)
    ensures TableStamped(t, g)
  {
    hide TableStamped, Marks, Uses;
    Same(t, Marks(c, t.disposed, Call(n, e.now, |s.disposed|), f), g);
  }

  lemma Same<V, R>(s: State<V, R>, f: Stamps, g: Stamps)
    requires TableStamped(s, f) && forall k :: f(k) == g(k)
    ensures TableStamped(s, g)
  {
  }

  function StampsOf<V(==), R>(c: Config<V, R>, es: seq<Event<V>>): Stamps { (k: string) => UsedBy(c, es, k) }

  /**
   * In every run the list is in the order of insertion, in age mode, and in the order of last release, in LRU mode; and
   * what the deleter inserted again counts as inserted then. That is, along the list the acts that put the entries
   * there come one strictly after the other. Every table entry carries the time of its act.
   */
  lemma {:induction false} OrderIsHistory<V, R>(c: Config<V, R>, es: seq<Event<V>>)
    requires c.maxUnits >= 0 && Legal(c, es)
    ensures TableStamped(Run(c, es), StampsOf(c, es)) && Sorted(Run(c, es).order)
    decreases |es|
  {
    EveryRun(c, es);
    if es != [] {
      var init, e := es[..|es| - 1], es[|es| - 1];
      EveryRun(c, init);
      OrderIsHistory(c, init);
      UsesPast(c, init);
      UsesNext(c, es);
      hide Run, Wf, TableStamped, Step, Uses, Timely, Capped, Balance, Inserted, InsertedAgain, Next, Past, StampsOf;
      RunUnfolds(c, es);
      StepStamped(c, Run(c, init), e, |init|, StampsOf(c, init), StampsOf(c, es));
    }
  }

  lemma UsesPast<V, R>(c: Config<V, R>, es: seq<Event<V>>)
    ensures Past(StampsOf(c, es), |es|)
  {
    hide UsedBy;
  }

  lemma UsesNext<V, R>(c: Config<V, R>, es: seq<Event<V>>)
    requires es != []
    ensures var init, e := es[..|es| - 1], es[|es| - 1];
            Next(c, Run(c, init), e, Run(c, es), |init|, StampsOf(c, init), StampsOf(c, es))
  {
    hide Run, Uses, BackAt;
  }

  lemma RunUnfolds<V, R>(c: Config<V, R>, es: seq<Event<V>>)
    requires es != []
    ensures Run(c, es) == Step(c, Run(c, es[..|es| - 1]), es[|es| - 1])
  {
  }

  // ----- Removing what is not pinned -----

  lemma WithPinSnoc<V>(es: seq<Entry<V>>, e: Entry<V>)
    ensures WithPin(es + [e]) == WithPin(es) + if e.pin == 0 then [] else [e]
    decreases |es|
  {
    if es == [] {
      assert [e][1..] == [];
    } else {
      WithPinSnoc(es[1..], e);
      assert (es + [e])[1..] == es[1..] + [e];
    }
  }

  /** What the deleter inserts again, where it is given the last entry first. */
  function AgainBack<V, R>(c: Config<V, R>, es: seq<Entry<V>>, now: int): seq<Entry<V>> {
    if es == [] then [] else AgainBack(c, es[1..], now) + AgainOf(c, es[0], now)
  }

  lemma {:induction false} AgainBackSnoc<V, R>(c: Config<V, R>, es: seq<Entry<V>>, e: Entry<V>, now: int)
    ensures AgainBack(c, es + [e], now) == AgainOf(c, e, now) + AgainBack(c, es, now)
    ensures !c.reentrant ==> AgainBack(c, es, now) == []
  {
    hide AgainOf;
    if es == [] {
      assert [e][1..] == [];
    } else {
      assert (es + [e])[1..] == es[1..] + [e];
      AgainBackSnoc(c, es[1..], e, now);
      assert AgainOf(c, e, now) + AgainBack(c, es[1..], now) + AgainOf(c, es[0], now)
          == AgainOf(c, e, now) + (AgainBack(c, es[1..], now) + AgainOf(c, es[0], now));
      NoneAgain(c, es[0], now);
    }
  }

  lemma NoneAgain<V, R>(c: Config<V, R>, e: Entry<V>, now: int)
    ensures !c.reentrant ==> AgainOf(c, e, now) == []
  {
  }

  lemma {:induction false} UnpinnedSnoc<V>(es: seq<Entry<V>>, e: Entry<V>)
    ensures Unpinned(es + [e]) == Unpinned(es) + if e.pin == 0 then [e] else []
  {
    if es == [] {
      assert [e][1..] == [];
    } else {
      UnpinnedSnoc(es[1..], e);
      assert (es + [e])[1..] == es[1..] + [e];
    }
  }

  /**
   * `RemoveUnpinned` leaves exactly the pinned entries, in their order, and behind them what the deleter inserted
   * again.
   */
  lemma {:induction false} PurgeKeepsPinned<V, R>(c: Config<V, R>, s: State<V, R>, n: nat, now: int)
    requires n <= |s.order|
    ensures Purge(c, s, n, now).order == WithPin(s.order[..n]) + s.order[n..]
        + AgainBack(c, Unpinned(s.order[..n]), now)
    ensures !c.reentrant ==> Purge(c, s, n, now).order == WithPin(s.order[..n]) + s.order[n..]
    decreases n
  {
    hide Discard, WithPin, Unpinned, AgainBack, AgainOf;
    if n == 0 {
      NoneWithPin(c, s.order, now);
    } else {
      var e, init := s.order[n - 1], s.order[..n - 1];
      assert s.order[..n] == init + [e];
      WithPinSnoc(init, e);
      UnpinnedSnoc(init, e);
      AgainBackSnoc(c, Unpinned(init), e, now);
      AgainBackSnoc(c, Unpinned(s.order[..n]), e, now);
      if e.pin > 0 {
        PurgeKeepsPinned(c, s, n - 1, now);
        assert s.order[n - 1..] == [e] + s.order[n..];
        assert WithPin(init) + ([e] + s.order[n..]) == WithPin(init) + [e] + s.order[n..];
        assert Unpinned(init) + [] == Unpinned(init);
      } else {
        PurgeOne(c, s, n, now);
        var u := Discard(c, s.(order := Without(s.order, n - 1)), e.key, e.value, now);
        PurgeKeepsPinned(c, u, n - 1, now);
        Behind(WithPin(init), s.order[n..], AgainOf(c, e, now), AgainBack(c, Unpinned(init), now));
      }
      Behind(WithPin(s.order[..n]), s.order[n..], [], []);
    }
  }

  lemma Behind<T>(a: seq<T>, b: seq<T>, c: seq<T>, d: seq<T>)
    ensures a + (b + c) + d == a + b + (c + d) && a + [] == a && a + b + [] == a + b
  {
  }

  lemma NoneWithPin<V, R>(c: Config<V, R>, es: seq<Entry<V>>, now: int)
    ensures WithPin(es[..0]) + es[0..] + AgainBack(c, Unpinned(es[..0]), now) == es
    ensures WithPin(es[..0]) + es[0..] == es
  {
  }

  lemma PurgeOne<V, R>(c: Config<V, R>, s: State<V, R>, n: nat, now: int)
    requires 0 < n <= |s.order| && s.order[n - 1].pin == 0
    ensures var e, t := s.order[n - 1], s.(order := Without(s.order, n - 1));
            var u := Discard(c, t, e.key, e.value, now);
            && n - 1 <= |u.order| && Purge(c, s, n, now) == Purge(c, u, n - 1, now)
            && u.order[..n - 1] == s.order[..n - 1] && u.order[n - 1..] == s.order[n..] + AgainOf(c, e, now)
  {
  }
}
