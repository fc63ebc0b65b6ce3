module CacheRuns {
  import opened Lists
  import opened CacheModel
  import opened CacheInvariant
  import opened CacheTheorems

  datatype Event<V> =
    | DoInsertPinned(k: string, v: V, u: nat, now: int)
    | DoInsert(k: string, v: V, u: nat, now: int)
    | DoLookup(k: string, now: int)
    | DoRelease(k: string, v: V, now: int)
    | DoRemove(k: string, now: int)
    | DoRemoveUnpinned(now: int)
    | DoRemoveAll(ks: seq<string>, now: int)
    | DoUpdateSize(k: string, who: Option<V>, u: nat, now: int)
    | DoRemoveExpired(now: int)

  function Step<V(==), R>(c: Config<V, R>, s: State<V, R>, e: Event<V>): State<V, R> {
    match e
    case DoInsertPinned(k, v, u, now) => InsertPinned(c, s, k, v, u, now)
    case DoInsert(k, v, u, now) => Insert(c, s, k, v, u, now)
    case DoLookup(k, now) => Lookup(c, s, k, now)
    case DoRelease(k, v, now) => Release(c, s, k, v, now)
    case DoRemove(k, now) => Remove(c, s, k, now)
    case DoRemoveUnpinned(now) => Purge(c, s, |s.order|, now)
    case DoRemoveAll(ks, now) => RemoveEach(c, s, ks, now)
    case DoUpdateSize(k, who, u, now) => UpdateSize(c, s, k, who, u, now)
    case DoRemoveExpired(now) => RemoveExpired(c, s, now)
  }

  /** What the cache asks of its callers. */
  ghost predicate Allowed<V, R>(c: Config<V, R>, s: State<V, R>, e: Event<V>) {
    match e
    case DoInsertPinned(k, v, u, _) => MayInsert(c, s, k, v, u)
    case DoInsert(k, v, u, _) => MayInsert(c, s, k, v, u)
    case DoRelease(k, v, _) => Pinned(s, k, v)
    case DoRemoveAll(ks, _) => !c.reentrant && Distinct(ks) && forall k :: k in ks <==> InTable(s, k)
    case DoUpdateSize(k, who, u, _) => c.reentrant ==> u > 0 && Units(Resize(s, k, who, u)) <= c.maxUnits
    case _ => true
  }

  function Run<V(==), R>(c: Config<V, R>, es: seq<Event<V>>): State<V, R> {
    if es == [] then State([], [], [], [], []) else Step(c, Run(c, es[..|es| - 1]), es[|es| - 1])
  }

  ghost predicate Legal<V, R>(c: Config<V, R>, es: seq<Event<V>>) {
    es != [] ==>
      && Legal(c, es[..|es| - 1])
      && Allowed(c, Run(c, es[..|es| - 1]), es[|es| - 1])
      && (|es| > 1 ==> es[|es| - 2].now <= es[|es| - 1].now)
  }

  // ----- What every step keeps -----

  ghost predicate Bounded<V>(es: seq<Entry<V>>, clock: int) {
    forall i :: 0 <= i < |es| ==> es[i].lastUse <= clock
  }

  /** The list is sorted by the time of last use, and no time lies in the future. */
  ghost predicate Timely<V, R>(s: State<V, R>, clock: int) {
    Sorted(s.order) && Bounded(s.order, clock) && Bounded(s.off, clock)
  }

  /** Within capacity, unless every table entry is pinned. */
  ghost predicate Capped<V, R>(c: Config<V, R>, s: State<V, R>) {
    Units(s) <= c.maxUnits || AllPinned(s.order)
  }

  /** Everything the cache holds or has handed to `RemoveElement`. */
  ghost function Balance<V, R>(s: State<V, R>): multiset<(string, V)> {
    multiset(Pairs(s.order)) + multiset(Pairs(s.off)) + multiset(Pairs(s.deferred)) + multiset(s.disposed)
  }

  lemma {:induction false} PairsWithout<V>(es: seq<Entry<V>>, i: nat)
    requires i < |es|
    ensures multiset(Pairs(es)) == multiset(Pairs(Without(es, i))) + multiset{(es[i].key, es[i].value)}
  {
    hide Pairs;
    var t := Without(es, i);
    PairsFirst(es);
    if i == 0 {
      assert t == es[1..];
    } else {
      PairsWithout(es[1..], i - 1);
      assert t[0] == es[0] && t[1..] == Without(es[1..], i - 1);
      PairsFirst(t);
    }
  }

  lemma PairsFirst<V>(es: seq<Entry<V>>)
    requires es != []
    ensures Pairs(es) == [(es[0].key, es[0].value)] + Pairs(es[1..])
  {
  }

  lemma PairsAppend<V>(es: seq<Entry<V>>, e: Entry<V>)
    ensures multiset(Pairs(es + [e])) == multiset(Pairs(es)) + multiset{(e.key, e.value)}
  {
    PairsWithout(es + [e], |es|);
    assert Without(es + [e], |es|) == es;
  }

  lemma PairsUpdate<V>(es: seq<Entry<V>>, i: nat, e: Entry<V>)
    requires i < |es| && es[i].key == e.key && es[i].value == e.value
    ensures multiset(Pairs(es[i := e])) == multiset(Pairs(es))
  {
    PairsWithout(es, i);
    PairsWithout(es[i := e], i);
    WithoutUpdate(es, i, e);
  }

  ghost function Pair<V>(e: Entry<V>): multiset<(string, V)> { multiset{(e.key, e.value)} }

  // ----- What the deleter inserts again -----

  ghost function Again1<V, R>(c: Config<V, R>, d: (string, V), now: int): multiset<(string, V)> {
    match c.Outcome(d.1, now)
    case Keep(w, _) => multiset{(d.0, w)}
    case Drop(_) => multiset{}
  }

  /** What the deleter inserts again when these values are disposed of. */
  ghost function Reborn<V, R>(c: Config<V, R>, ds: seq<(string, V)>, now: int): multiset<(string, V)> {
    if ds == [] then multiset{} else Reborn(c, ds[..|ds| - 1], now) + Again1(c, ds[|ds| - 1], now)
  }

  lemma {:induction false} RebornConcat<V, R>(c: Config<V, R>, a: seq<(string, V)>, b: seq<(string, V)>, now: int)
    ensures Reborn(c, a + b, now) == Reborn(c, a, now) + Reborn(c, b, now)
  {
    if b == [] {
      assert a + b == a;
    } else {
      hide Again1;
      RebornConcat(c, a, b[..|b| - 1], now);
      assert (a + b)[..|a + b| - 1] == a + b[..|b| - 1];
      AssociateBags(Reborn(c, a, now), Reborn(c, b[..|b| - 1], now), Again1(c, b[|b| - 1], now));
    }
  }

  lemma AssociateBags<T>(a: multiset<T>, b: multiset<T>, c: multiset<T>)
    ensures a + b + c == a + (b + c)
  {
  }

  /** From `s` to `t` the values `added` came in from outside, and nothing was lost. */
  ghost predicate Accounts<V, R>(c: Config<V, R>, s: State<V, R>, t: State<V, R>, added: multiset<(string, V)>,
                                 now: int)
  {
    && s.disposed <= t.disposed
    && Balance(t) == Balance(s) + added + Reborn(c, t.disposed[|s.disposed|..], now)
  }

  lemma AccountsTwice<V, R>(c: Config<V, R>, s: State<V, R>, t: State<V, R>, u: State<V, R>,
                            a: multiset<(string, V)>, b: multiset<(string, V)>, now: int)
    requires Accounts(c, s, t, a, now) && Accounts(c, t, u, b, now)
    ensures Accounts(c, s, u, a + b, now)
    ensures a == multiset{} ==> Accounts(c, s, u, b, now)
    ensures b == multiset{} ==> Accounts(c, s, u, a, now)
  {
    hide Balance, Reborn;
    var x, y := t.disposed[|s.disposed|..], u.disposed[|t.disposed|..];
    assert u.disposed[|s.disposed|..] == x + y;
    RebornConcat(c, x, y, now);
    assert (a == multiset{} ==> a + b == b) && (b == multiset{} ==> a + b == a);
  }

  /** Nothing was disposed of. */
  lemma AccountsStill<V, R>(c: Config<V, R>, s: State<V, R>, t: State<V, R>, added: multiset<(string, V)>, now: int)
    requires t.disposed == s.disposed && Balance(t) == Balance(s) + added
    ensures Accounts(c, s, t, added, now)
  {
  }

  /** What an operation at time `now`, on a cache that is `Timely`, leaves. */
  ghost predicate Keeps<V, R>(c: Config<V, R>, s: State<V, R>, t: State<V, R>, added: multiset<(string, V)>, now: int) {
    && Timely(t, now) && Accounts(c, s, t, added, now)
    && (!c.reentrant && Capped(c, s) ==> Capped(c, t))
  }

  lemma KeepsParts<V, R>(c: Config<V, R>, s: State<V, R>, t: State<V, R>, added: multiset<(string, V)>, now: int)
    requires Keeps(c, s, t, added, now)
    ensures Timely(t, now) && Accounts(c, s, t, added, now) && (!c.reentrant && Capped(c, s) ==> Capped(c, t))
  {
  }

  lemma KeepsIntro<V, R>(c: Config<V, R>, s: State<V, R>, t: State<V, R>, added: multiset<(string, V)>, now: int)
    requires Timely(t, now) && Accounts(c, s, t, added, now) && (!c.reentrant && Capped(c, s) ==> Capped(c, t))
    ensures Keeps(c, s, t, added, now)
  {
  }

  lemma KeepsTwice<V, R>(c: Config<V, R>, s: State<V, R>, t: State<V, R>, u: State<V, R>, now: int)
    requires Keeps(c, s, t, multiset{}, now) && Keeps(c, t, u, multiset{}, now)
    ensures Keeps(c, s, u, multiset{}, now)
  {
    hide Timely, Accounts, Capped;
    AccountsTwice(c, s, t, u, multiset{}, multiset{}, now);
  }

  lemma KeepsSelf<V, R>(c: Config<V, R>, s: State<V, R>, now: int)
    requires Timely(s, now)
    ensures Keeps(c, s, s, multiset{}, now)
  {
    hide Timely, Balance, Capped;
    AccountsStill(c, s, s, multiset{}, now);
  }

  // ----- Discarding -----

  lemma DiscardAccounts<V, R>(c: Config<V, R>, s: State<V, R>, e: Entry<V>, now: int)
    ensures Accounts(c, s, Discard(c, s, e.key, e.value, now), Pair(e), now)
  {
    var t := Discard(c, s, e.key, e.value, now);
    var d := (e.key, e.value);
    hide Pairs;
    assert t.disposed[|s.disposed|..] == [d] && [d][..0] == [];
    assert Reborn(c, [d], now) == Again1(c, d, now);
    match c.Outcome(e.value, now)
    case Keep(w, _) => PairsAppend(s.order, Entry(e.key, w, 0, 1, now));
    case Drop(_) =>
  }

  lemma DiscardTimely<V, R>(c: Config<V, R>, s: State<V, R>, k: string, v: V, now: int)
    requires Timely(s, now)
    ensures Timely(Discard(c, s, k, v, now), now)
    ensures !c.reentrant ==> Discard(c, s, k, v, now).order == s.order && Units(Discard(c, s, k, v, now)) == Units(s)
  {
  }

  lemma RetireKeeps<V, R>(c: Config<V, R>, s: State<V, R>, e: Entry<V>, now: int)
    requires Timely(s, now)
    ensures var t := Retire(c, s, e, now);
            && Timely(t, now) && Accounts(c, s, t, Pair(e), now)
            && (!c.reentrant ==> t.order == s.order && Units(t) <= Units(s) + e.units)
  {
    if e.pin == 0 {
      hide Timely, Accounts, Units;
      DiscardAccounts(c, s, e, now);
      DiscardTimely(c, s, e.key, e.value, now);
    } else {
      hide Pairs, UnitsOf;
      PairsAppend(s.deferred, e);
      UnitsAppend(s.deferred, e);
      AccountsStill(c, s, Retire(c, s, e, now), Pair(e), now);
    }
  }

  /** Taking the `i`-th entry off the list. */
  lemma TakeListed<V, R>(c: Config<V, R>, s: State<V, R>, i: nat, clock: int)
    requires Timely(s, clock) && i < |s.order|
    ensures var t := s.(order := Without(s.order, i));
            && Timely(t, clock) && Balance(s) == Balance(t) + Pair(s.order[i])
            && Units(s) == Units(t) + s.order[i].units
            && (AllPinned(s.order) ==> AllPinned(t.order))
  {
    hide Pairs, UnitsOf;
    PairsWithout(s.order, i);
    UnitsWithout(s.order, i);
  }

  lemma TakeHeld<V, R>(c: Config<V, R>, s: State<V, R>, i: nat, clock: int)
    requires Timely(s, clock) && i < |s.off|
    ensures var t := s.(off := Without(s.off, i));
            Timely(t, clock) && Balance(s) == Balance(t) + Pair(s.off[i]) && Units(s) == Units(t) + s.off[i].units
  {
    hide Pairs, UnitsOf;
    PairsWithout(s.off, i);
    UnitsWithout(s.off, i);
  }

  lemma SameTimes<V, R>(s: State<V, R>, t: State<V, R>, clock: int)
    requires Timely(s, clock) && s.order == t.order && s.off == t.off
    ensures Timely(t, clock)
  {
  }

  /** Out of one place, and through the deleter or into another. */
  lemma MovedAccounts<V, R>(c: Config<V, R>, s: State<V, R>, t: State<V, R>, u: State<V, R>, e: Entry<V>, now: int)
    requires t.disposed == s.disposed && Balance(s) == Balance(t) + Pair(e) && Accounts(c, t, u, Pair(e), now)
    ensures Accounts(c, s, u, multiset{}, now)
  {
    hide Balance, Pair, Reborn;
  }

  lemma RetireListedKeeps<V, R>(c: Config<V, R>, s: State<V, R>, i: nat, now: int)
    requires Timely(s, now) && i < |s.order|
    ensures var t := Retire(c, s.(order := Without(s.order, i)), s.order[i], now);
            Keeps(c, s, t, multiset{}, now) && (!c.reentrant ==> t.order == Without(s.order, i))
  {
    hide Timely, Balance, AllPinned, Retire, Pairs, UnitsOf, Units, Accounts;
    var u := s.(order := Without(s.order, i));
    TakeListed(c, s, i, now);
    RetireKeeps(c, u, s.order[i], now);
    MovedAccounts(c, s, u, Retire(c, u, s.order[i], now), s.order[i], now);
  }

  lemma RemoveKeeps<V, R>(c: Config<V, R>, s: State<V, R>, k: string, now: int)
    requires Timely(s, now)
    ensures Keeps(c, s, Remove(c, s, k, now), multiset{}, now)
  {
    hide Timely, Balance, AllPinned, Retire, Pairs, UnitsOf, Units, Accounts;
    var i, j := Find(s.order, k), Find(s.off, k);
    if i < |s.order| {
      RetireListedKeeps(c, s, i, now);
    } else if j < |s.off| {
      var u := s.(off := Without(s.off, j));
      TakeHeld(c, s, j, now);
      RetireKeeps(c, u, s.off[j], now);
      MovedAccounts(c, s, u, Retire(c, u, s.off[j], now), s.off[j], now);
    } else {
      KeepsSelf(c, s, now);
    }
  }

  lemma RetireUnpinned<V, R>(c: Config<V, R>, s: State<V, R>, e: Entry<V>, now: int)
    requires e.pin == 0
    ensures Retire(c, s, e, now) == Discard(c, s, e.key, e.value, now)
  {
  }

  lemma {:induction false} CollectKeeps<V, R>(c: Config<V, R>, s: State<V, R>, i: nat, now: int)
    requires Timely(s, now) && i <= |s.order| && AllPinned(s.order[..i])
    ensures var t := Collect(c, s, i, now);
            Keeps(c, s, t, multiset{}, now) && (!c.reentrant ==> Capped(c, t))
    decreases |s.order| - i
  {
    hide Timely, Balance, Retire, Discard, Pairs, UnitsOf, Units, Accounts, Keeps;
    if c.reentrant || Units(s) <= c.maxUnits || i >= |s.order| {
      KeepsSelf(c, s, now);
      assert s.order[..|s.order|] == s.order;
    } else if s.order[i].pin > 0 {
      assert s.order[..i + 1] == s.order[..i] + [s.order[i]];
      CollectKeeps(c, s, i + 1, now);
    } else {
      var t := s.(order := Without(s.order, i));
      var u := Discard(c, t, s.order[i].key, s.order[i].value, now);
      RetireListedKeeps(c, s, i, now);
      RetireUnpinned(c, t, s.order[i], now);
      KeepsParts(c, s, u, multiset{}, now);
      assert Without(s.order, i)[..i] == s.order[..i];
      CollectKeeps(c, u, i, now);
      KeepsTwice(c, s, u, Collect(c, u, i, now), now);
    }
  }

  lemma {:induction false} ExpireKeeps<V, R>(c: Config<V, R>, s: State<V, R>, threshold: int, now: int)
    requires Timely(s, now) && threshold <= now
    ensures Keeps(c, s, Expire(c, s, threshold, now), multiset{}, now)
    decreases StaleCount(s.order, threshold)
  {
    hide Timely, Balance, Retire, Pairs, UnitsOf, Units, Capped, StaleCount, Accounts, Keeps;
    if s.order != [] && s.order[0].lastUse < threshold {
      assert s.order[1..] == Without(s.order, 0);
      var u := Retire(c, s.(order := s.order[1..]), s.order[0], now);
      RetireListedKeeps(c, s, 0, now);
      KeepsParts(c, s, u, multiset{}, now);
      ExpireStepShrinks(c, s, threshold, now);
      ExpireKeeps(c, u, threshold, now);
      KeepsTwice(c, s, u, Expire(c, u, threshold, now), now);
    } else {
      KeepsSelf(c, s, now);
    }
  }

  lemma {:induction false} PurgeKeeps<V, R>(c: Config<V, R>, s: State<V, R>, n: nat, now: int)
    requires Timely(s, now) && n <= |s.order|
    ensures Keeps(c, s, Purge(c, s, n, now), multiset{}, now)
    decreases n
  {
    hide Timely, Balance, Retire, Discard, Pairs, UnitsOf, Units, Capped, Accounts, Keeps;
    if n == 0 {
      KeepsSelf(c, s, now);
    } else if s.order[n - 1].pin > 0 {
      PurgeKeeps(c, s, n - 1, now);
    } else {
      var t := s.(order := Without(s.order, n - 1));
      var u := Discard(c, t, s.order[n - 1].key, s.order[n - 1].value, now);
      RetireListedKeeps(c, s, n - 1, now);
      RetireUnpinned(c, t, s.order[n - 1], now);
      KeepsParts(c, s, u, multiset{}, now);
      DiscardLength(c, t, s.order[n - 1].key, s.order[n - 1].value, now);
      PurgeKeeps(c, u, n - 1, now);
      KeepsTwice(c, s, u, Purge(c, u, n - 1, now), now);
    }
  }

  lemma DiscardLength<V, R>(c: Config<V, R>, s: State<V, R>, k: string, v: V, now: int)
    ensures s.order <= Discard(c, s, k, v, now).order
  {
  }

  lemma {:induction false} RemoveEachKeeps<V, R>(c: Config<V, R>, s: State<V, R>, ks: seq<string>, now: int)
    requires Timely(s, now)
    ensures Keeps(c, s, RemoveEach(c, s, ks, now), multiset{}, now)
    decreases |ks|
  {
    hide Timely, Balance, Remove, Capped, Accounts, Keeps;
    if ks == [] {
      KeepsSelf(c, s, now);
    } else {
      var t := RemoveEach(c, s, ks[..|ks| - 1], now);
      RemoveEachKeeps(c, s, ks[..|ks| - 1], now);
      KeepsParts(c, s, t, multiset{}, now);
      RemoveKeeps(c, t, ks[|ks| - 1], now);
      KeepsTwice(c, s, t, RemoveEach(c, s, ks, now), now);
    }
  }

  lemma SetListedKeeps<V, R>(s: State<V, R>, i: nat, e: Entry<V>, clock: int)
    requires Timely(s, clock) && i < |s.order|
    requires e.key == s.order[i].key && e.value == s.order[i].value && e.lastUse == s.order[i].lastUse
    ensures var t := s.(order := s.order[i := e]); Timely(t, clock) && Balance(t) == Balance(s)
  {
    hide Pairs;
    PairsUpdate(s.order, i, e);
  }

  lemma SetHeldKeeps<V, R>(s: State<V, R>, i: nat, e: Entry<V>, clock: int)
    requires Timely(s, clock) && i < |s.off| && e.key == s.off[i].key && e.value == s.off[i].value && e.lastUse <= clock
    ensures var t := s.(off := s.off[i := e]); Timely(t, clock) && Balance(t) == Balance(s)
  {
    hide Pairs;
    PairsUpdate(s.off, i, e);
  }

  lemma PutListedKeeps<V, R>(s: State<V, R>, e: Entry<V>, clock: int)
    requires Timely(s, clock) && clock <= e.lastUse
    ensures var t := s.(order := s.order + [e]); Timely(t, e.lastUse) && Balance(t) == Balance(s) + Pair(e)
  {
    hide Pairs;
    PairsAppend(s.order, e);
  }

  lemma PutHeldKeeps<V, R>(s: State<V, R>, e: Entry<V>, clock: int)
    requires Timely(s, clock) && e.lastUse <= clock
    ensures var t := s.(off := s.off + [e]); Timely(t, clock) && Balance(t) == Balance(s) + Pair(e)
  {
    hide Pairs;
    PairsAppend(s.off, e);
  }

  lemma Later<V, R>(s: State<V, R>, clock: int, now: int)
    requires Timely(s, clock) && clock <= now
    ensures Timely(s, now)
  {
  }

  lemma EntryTime<V, R>(s: State<V, R>, k: string, clock: int)
    requires Timely(s, clock) && InTable(s, k)
    ensures TableEntry(s, k).lastUse <= clock
  {
  }

  lemma PinKeeps<V, R>(c: Config<V, R>, s: State<V, R>, k: string, clock: int)
    requires Timely(s, clock)
    ensures Timely(Pin(c, s, k), clock) && Balance(Pin(c, s, k)) == Balance(s)
  {
    hide Timely, Balance;
    if InTable(s, k) {
      var i, j, e := Find(s.order, k), Find(s.off, k), TableEntry(s, k);
      var f := e.(pin := e.pin + 1);
      EntryTime(s, k, clock);
      if e.pin == 0 && c.lru && i < |s.order| {
        TakeListed(c, s, i, clock);
        PutHeldKeeps(s.(order := Without(s.order, i)), f, clock);
      } else if i < |s.order| {
        SetListedKeeps(s, i, f, clock);
      } else {
        SetHeldKeeps(s, j, f, clock);
      }
    }
  }

  lemma SettleKeeps<V, R>(c: Config<V, R>, s: State<V, R>, k: string, now: int, clock: int)
    requires Timely(s, clock) && clock <= now && InTable(s, k) && TableEntry(s, k).pin > 0
    requires c.lru ==> Find(s.order, k) == |s.order|
    ensures Timely(Settle(c, s, k, now), now) && Balance(Settle(c, s, k, now)) == Balance(s)
  {
    hide Timely, Balance;
    var i, j, e := Find(s.order, k), Find(s.off, k), TableEntry(s, k);
    var f := e.(pin := e.pin - 1, lastUse := if c.lru then now else e.lastUse);
    EntryTime(s, k, clock);
    Later(s, clock, now);
    if f.pin == 0 && c.lru && j < |s.off| {
      TakeHeld(c, s, j, clock);
      PutListedKeeps(s.(off := Without(s.off, j)), f, clock);
    } else if i < |s.order| {
      SetListedKeeps(s, i, f, now);
    } else {
      SetHeldKeeps(s, j, f, now);
    }
  }

  lemma PinCaps<V, R>(c: Config<V, R>, s: State<V, R>, k: string)
    requires Wf(c, s) && Capped(c, s)
    ensures Capped(c, Pin(c, s, k))
  {
    hide UnitsOf, PinnedUnits;
    PinWf(c, s, k);
  }

  lemma UnpinCaps<V, R>(c: Config<V, R>, s: State<V, R>, k: string, now: int)
    requires !c.reentrant && Wf(c, s) && Capped(c, s) && InTable(s, k) && TableEntry(s, k).pin > 0
    ensures Capped(c, Unpin(c, s, k, now))
  {
    hide *;
    var t := Settle(c, s, k, now);
    SettleWf(c, s, k, now);
    SettledIn(c, s, k, now);
    UnpinUnfolds(c, s, k, now);
    if TableEntry(s, k).pin == 1 && Units(t) > c.maxUnits {
      RemovedCaps(c, s, k, now);
    } else {
      SettledCaps(c, s, k, now);
    }
  }

  lemma UnpinUnfolds<V, R>(c: Config<V, R>, s: State<V, R>, k: string, now: int)
    requires InTable(s, k) && TableEntry(s, k).pin > 0
    ensures var t := Settle(c, s, k, now);
            Unpin(c, s, k, now) ==
            if TableEntry(s, k).pin == 1 && Units(t) > c.maxUnits then Remove(c, t, k, now) else t
  {
  }

  lemma SettledCaps<V, R>(c: Config<V, R>, s: State<V, R>, k: string, now: int)
    requires Wf(c, s) && Capped(c, s) && InTable(s, k) && TableEntry(s, k).pin > 0
    requires Units(Settle(c, s, k, now)) == Units(s) && (TableEntry(s, k).pin > 1 || Units(s) <= c.maxUnits)
    ensures Capped(c, Settle(c, s, k, now))
  {
    hide UnitsOf, Units;
  }

  /** The list still holds only pinned entries when the one that lost its last pin is gone. */
  lemma RemovedCaps<V, R>(c: Config<V, R>, s: State<V, R>, k: string, now: int)
    requires !c.reentrant && Wf(c, s) && Capped(c, s) && InTable(s, k) && TableEntry(s, k).pin == 1
    requires Units(Settle(c, s, k, now)) == Units(s) > c.maxUnits && InTable(Settle(c, s, k, now), k)
    ensures Capped(c, Remove(c, Settle(c, s, k, now), k, now))
  {
    hide UnitsOf, Units, Retire;
    var t := Settle(c, s, k, now);
    var i := Find(t.order, k);
    if i < |t.order| {
      RetireOrder(c, t.(order := Without(t.order, i)), t.order[i], now);
    }
  }

  lemma RetireOrder<V, R>(c: Config<V, R>, s: State<V, R>, e: Entry<V>, now: int)
    requires !c.reentrant
    ensures Retire(c, s, e, now).order == s.order
  {
  }

  lemma LruHolds<V, R>(c: Config<V, R>, s: State<V, R>, k: string)
    requires Wf(c, s) && c.lru && InTable(s, k) && TableEntry(s, k).pin > 0
    ensures Find(s.order, k) == |s.order|
  {
  }

  lemma ReleaseKeeps<V, R>(c: Config<V, R>, s: State<V, R>, k: string, v: V, now: int)
    requires Wf(c, s) && Timely(s, now) && Pinned(s, k, v)
    ensures Keeps(c, s, Release(c, s, k, v, now), multiset{}, now)
  {
    hide *;
    var d := FindValue(s.deferred, k, v);
    if d < |s.deferred| {
      ReleaseDeferredKeeps(c, s, k, v, now);
    } else {
      ReleaseUnpins(c, s, k, v, now);
      if c.lru {
        LruHolds(c, s, k);
      }
      UnpinKeeps(c, s, k, now);
    }
  }

  lemma ReleaseUnpins<V, R>(c: Config<V, R>, s: State<V, R>, k: string, v: V, now: int)
    requires Pinned(s, k, v) && FindValue(s.deferred, k, v) == |s.deferred|
    ensures InTable(s, k) && TableEntry(s, k).pin > 0 && Release(c, s, k, v, now) == Unpin(c, s, k, now)
  {
  }

  lemma UnpinKeeps<V, R>(c: Config<V, R>, s: State<V, R>, k: string, now: int)
    requires Wf(c, s) && Timely(s, now) && InTable(s, k) && TableEntry(s, k).pin > 0
    requires c.lru ==> Find(s.order, k) == |s.order|
    ensures Keeps(c, s, Unpin(c, s, k, now), multiset{}, now)
  {
    hide *;
    var t := Settle(c, s, k, now);
    SettleKeeps(c, s, k, now, now);
    AccountsStill(c, s, t, multiset{}, now) by {
      SettleDisposes(c, s, k, now);
    }
    UnpinUnfolds(c, s, k, now);
    RemoveKeeps(c, t, k, now);
    KeepsParts(c, t, Remove(c, t, k, now), multiset{}, now);
    AccountsTwice(c, s, t, Remove(c, t, k, now), multiset{}, multiset{}, now);
    if !c.reentrant && Capped(c, s) {
      UnpinCaps(c, s, k, now);
    }
    KeepsIntro(c, s, Unpin(c, s, k, now), multiset{}, now);
  }

  lemma SettleDisposes<V, R>(c: Config<V, R>, s: State<V, R>, k: string, now: int)
    requires InTable(s, k) && TableEntry(s, k).pin > 0
    ensures Settle(c, s, k, now).disposed == s.disposed
  {
  }

  lemma ReleaseDeferredKeeps<V, R>(c: Config<V, R>, s: State<V, R>, k: string, v: V, now: int)
    requires Timely(s, now) && FindValue(s.deferred, k, v) < |s.deferred|
    ensures Keeps(c, s, Release(c, s, k, v, now), multiset{}, now)
  {
    hide Pairs, UnitsOf, Timely, Discard, Accounts, Units, Balance;
    var d := FindValue(s.deferred, k, v);
    var e := s.deferred[d];
    var t := s.(deferred := Without(s.deferred, d));
    TakeDeferredKeeps(s, d, e, now);
    if e.pin > 1 {
      TakeDeferredKeeps(s, d, e.(pin := e.pin - 1), now);
      AccountsStill(c, s, s.(deferred := s.deferred[d := e.(pin := e.pin - 1)]), multiset{}, now);
    } else {
      DiscardAccounts(c, t, e, now);
      DiscardTimely(c, t, k, v, now);
      MovedAccounts(c, s, t, Discard(c, t, k, v, now), e, now);
    }
  }

  lemma TakeDeferredKeeps<V, R>(s: State<V, R>, d: nat, e: Entry<V>, now: int)
    requires Timely(s, now) && d < |s.deferred|
    requires e.key == s.deferred[d].key && e.value == s.deferred[d].value && e.units == s.deferred[d].units
    ensures var t, u := s.(deferred := Without(s.deferred, d)), s.(deferred := s.deferred[d := e]);
            && Timely(t, now) && Timely(u, now) && Units(t) <= Units(s) && Units(u) == Units(s)
            && Balance(s) == Balance(t) + Pair(s.deferred[d]) && Balance(u) == Balance(s)
  {
    hide Pairs, UnitsOf;
    PairsWithout(s.deferred, d);
    UnitsWithout(s.deferred, d);
    PairsUpdate(s.deferred, d, e);
    UnitsUpdate(s.deferred, d, e);
  }

  lemma AppendKeeps<V, R>(c: Config<V, R>, s: State<V, R>, e: Entry<V>, now: int)
    requires Timely(s, now) && e.lastUse == now && e.pin > 0
    ensures var t := Append(c, s, e); Timely(t, now) && Accounts(c, s, t, Pair(e), now)
  {
    hide Timely, Balance, Accounts, Pair;
    if c.lru {
      PutHeldKeeps(s, e, now);
    } else {
      PutListedKeeps(s, e, now);
    }
    AccountsStill(c, s, Append(c, s, e), Pair(e), now);
  }

  lemma InsertPinnedKeeps<V, R>(c: Config<V, R>, s: State<V, R>, k: string, v: V, u: nat, now: int)
    requires Timely(s, now)
    ensures var t := InsertPinned(c, s, k, v, u, now);
            Keeps(c, s, t, multiset{(k, v)}, now) && (!c.reentrant ==> Capped(c, t))
  {
    hide Timely, Balance, Capped, Remove, Collect, Append, Accounts;
    var e, r := Entry(k, v, 1, u, now), Remove(c, s, k, now);
    var a := Append(c, r, e);
    RemoveKeeps(c, s, k, now);
    AppendKeeps(c, r, e, now);
    CollectKeeps(c, a, 0, now);
    AccountsTwice(c, s, r, a, multiset{}, Pair(e), now);
    AccountsTwice(c, s, a, Collect(c, a, 0, now), Pair(e), multiset{}, now);
  }

  lemma {:induction false} ResizedPairs<V>(es: seq<Entry<V>>, k: string, who: Option<V>, u: nat)
    ensures Pairs(ResizeDeferred(es, k, who, u)) == Pairs(es)
  {
    if es != [] {
      var r := ResizeDeferred(es, k, who, u);
      ResizedPairs(es[1..], k, who, u);
      assert r[1..] == ResizeDeferred(es[1..], k, who, u);
    }
  }

  lemma UpdateSizeKeeps<V, R>(c: Config<V, R>, s: State<V, R>, k: string, who: Option<V>, u: nat, now: int)
    requires Timely(s, now)
    ensures var t := UpdateSize(c, s, k, who, u, now);
            && Timely(t, now) && Accounts(c, s, t, multiset{}, now) && (!c.reentrant ==> Capped(c, t))
  {
    hide Accounts, Balance, Timely, Collect, Capped;
    var r := Resize(s, k, who, u);
    ResizeKeeps(s, k, who, u, now);
    AccountsStill(c, s, r, multiset{}, now);
    CollectKeeps(c, r, 0, now);
    AccountsTwice(c, s, r, Collect(c, r, 0, now), multiset{}, multiset{}, now);
  }

  lemma ResizeKeeps<V, R>(s: State<V, R>, k: string, who: Option<V>, u: nat, now: int)
    requires Timely(s, now)
    ensures var r := Resize(s, k, who, u); Timely(r, now) && Balance(r) == Balance(s) && r.disposed == s.disposed
  {
    var r := Resize(s, k, who, u);
    if InTable(s, k) && Names(TableEntry(s, k), k, who) {
      var i, j, e := Find(s.order, k), Find(s.off, k), TableEntry(s, k).(units := u);
      EntryTime(s, k, now);
      if i < |s.order| {
        SetListedKeeps(s, i, e, now);
      } else {
        SetHeldKeeps(s, j, e, now);
      }
    } else {
      ResizedPairs(s.deferred, k, who, u);
      SameTimes(s, r, now);
    }
  }

  // ----- Runs -----

  ghost function InsertedBy<V>(e: Event<V>): multiset<(string, V)> {
    match e
    case DoInsertPinned(k, v, _, _) => multiset{(k, v)}
    case DoInsert(k, v, _, _) => multiset{(k, v)}
    case _ => multiset{}
  }

  ghost function Inserted<V>(es: seq<Event<V>>): multiset<(string, V)> {
    if es == [] then multiset{} else Inserted(es[..|es| - 1]) + InsertedBy(es[|es| - 1])
  }

  /** What the last call disposed of. */
  function LastDisposed<V(==), R>(c: Config<V, R>, es: seq<Event<V>>): seq<(string, V)>
    requires es != []
  {
    var s, t := Run(c, es[..|es| - 1]), Run(c, es);
    if |s.disposed| <= |t.disposed| then t.disposed[|s.disposed|..] else []
  }

  /** What the deleter has inserted again, whenever it was called. */
  ghost function InsertedAgain<V, R>(c: Config<V, R>, es: seq<Event<V>>): multiset<(string, V)> {
    if es == [] then multiset{}
    else InsertedAgain(c, es[..|es| - 1]) + Reborn(c, LastDisposed(c, es), es[|es| - 1].now)
  }

  /** The invariant of the cache at the boundary of every public operation. */
  ghost predicate Sound<V, R>(c: Config<V, R>, s: State<V, R>, clock: int) {
    Wf(c, s) && Timely(s, clock) && Capped(c, s)
  }

  lemma {:induction false} PurgeWf<V, R>(c: Config<V, R>, s: State<V, R>, n: nat, now: int)
    requires Wf(c, s) && n <= |s.order|
    ensures Wf(c, Purge(c, s, n, now))
    decreases n
  {
    hide Wf, Loose;
    if n == 0 {
    } else if s.order[n - 1].pin > 0 {
      PurgeWf(c, s, n - 1, now);
    } else {
      TakeOrder(c, s, n - 1);
      DiscardWf(c, s.(order := Without(s.order, n - 1)), s.order[n - 1], now);
      PurgeWf(c, Discard(c, s.(order := Without(s.order, n - 1)), s.order[n - 1].key, s.order[n - 1].value, now),
          n - 1, now);
    }
  }

  lemma {:induction false} RemoveEachWf<V, R>(c: Config<V, R>, s: State<V, R>, ks: seq<string>, now: int)
    requires Wf(c, s)
    ensures Wf(c, RemoveEach(c, s, ks, now))
    decreases |ks|
  {
    hide Wf, Remove;
    if ks != [] {
      RemoveEachWf(c, s, ks[..|ks| - 1], now);
      RemoveWf(c, RemoveEach(c, s, ks[..|ks| - 1], now), ks[|ks| - 1], now);
    }
  }

  lemma ResizeWf<V, R>(c: Config<V, R>, s: State<V, R>, k: string, who: Option<V>, u: nat)
    requires Wf(c, s) && (c.reentrant ==> u > 0 && Units(Resize(s, k, who, u)) <= c.maxUnits)
    ensures Wf(c, Resize(s, k, who, u))
  {
    hide UnitsOf;
    if InTable(s, k) && Names(TableEntry(s, k), k, who) {
      SetEntryUnits(s, TableEntry(s, k).(units := u));
      ResizeTableWf(c, s, k, who, u);
    }
  }

  lemma StepWf<V, R>(c: Config<V, R>, s: State<V, R>, e: Event<V>)
    requires Wf(c, s) && Allowed(c, s, e)
    ensures Wf(c, Step(c, s, e))
  {
    hide Wf, MayInsert, Pinned, Resize, Units;
    match e
    case DoInsertPinned(k, v, u, now) => InsertPinnedWf(c, s, k, v, u, now);
    case DoInsert(k, v, u, now) =>
      InsertPinnedFound(c, s, k, v, u, now);
      ReleaseWf(c, InsertPinned(c, s, k, v, u, now), k, v, now);
    case DoLookup(k, now) =>
      RemoveExpiredWf(c, s, now);
      PinWf(c, RemoveExpired(c, s, now), k);
    case DoRelease(k, v, now) => ReleaseWf(c, s, k, v, now);
    case DoRemove(k, now) => RemoveWf(c, s, k, now);
    case DoRemoveUnpinned(now) => PurgeWf(c, s, |s.order|, now);
    case DoRemoveAll(ks, now) => RemoveEachWf(c, s, ks, now);
    case DoUpdateSize(k, who, u, now) =>
      ResizeWf(c, s, k, who, u);
      CollectWf(c, Resize(s, k, who, u), 0, now);
    case DoRemoveExpired(now) => RemoveExpiredWf(c, s, now);
  }

  lemma RemoveExpiredKeeps<V, R>(c: Config<V, R>, s: State<V, R>, now: int)
    requires Timely(s, now)
    ensures Keeps(c, s, RemoveExpired(c, s, now), multiset{}, now)
  {
    hide Timely, Keeps;
    if c.maxIdle >= 0 {
      ExpireKeeps(c, s, now - c.maxIdle, now);
    } else {
      KeepsSelf(c, s, now);
    }
  }

  lemma InsertKeeps<V, R>(c: Config<V, R>, s: State<V, R>, k: string, v: V, u: nat, now: int)
    requires Wf(c, s) && Timely(s, now) && MayInsert(c, s, k, v, u)
    ensures var t := Insert(c, s, k, v, u, now);
            Timely(t, now) && Accounts(c, s, t, multiset{(k, v)}, now) && (!c.reentrant ==> Capped(c, t))
  {
    hide Wf, Timely, Accounts, Capped, MayInsert, Pinned, Release, InsertPinned;
    var t := InsertPinned(c, s, k, v, u, now);
    InsertPinnedFound(c, s, k, v, u, now);
    InsertPinnedKeeps(c, s, k, v, u, now);
    ReleaseKeeps(c, t, k, v, now);
    AccountsTwice(c, s, t, Release(c, t, k, v, now), multiset{(k, v)}, multiset{}, now);
  }

  lemma LookupKeeps<V, R>(c: Config<V, R>, s: State<V, R>, k: string, now: int)
    requires Wf(c, s) && Timely(s, now) && Capped(c, s)
    ensures var t := Lookup(c, s, k, now);
            Timely(t, now) && Accounts(c, s, t, multiset{}, now) && (!c.reentrant ==> Capped(c, t))
  {
    hide Wf, Timely, Accounts, Balance, Capped, Pin, RemoveExpired;
    var t := RemoveExpired(c, s, now);
    RemoveExpiredWf(c, s, now);
    RemoveExpiredKeeps(c, s, now);
    PinKeeps(c, t, k, now);
    PinDisposes(c, t, k);
    AccountsStill(c, t, Pin(c, t, k), multiset{}, now);
    AccountsTwice(c, s, t, Pin(c, t, k), multiset{}, multiset{}, now);
    if !c.reentrant {
      PinCaps(c, t, k);
    }
  }

  lemma PinDisposes<V, R>(c: Config<V, R>, s: State<V, R>, k: string)
    ensures Pin(c, s, k).disposed == s.disposed
  {
  }

  /**
   * Every operation keeps the invariant; and what was held, comes in, or is inserted again, is held afterwards or
   * disposed of.
   */
  lemma StepKeeps<V, R>(c: Config<V, R>, s: State<V, R>, e: Event<V>, clock: int)
    requires Sound(c, s, clock) && Allowed(c, s, e) && clock <= e.now
    ensures Sound(c, Step(c, s, e), e.now)
    ensures Accounts(c, s, Step(c, s, e), InsertedBy(e), e.now)
  {
    StepWf(c, s, e);
    hide Wf, Timely, Accounts, Balance, Capped, MayInsert, Pinned, Units;
    hide Insert, InsertPinned, Lookup, Release, Remove, Purge, RemoveEach, UpdateSize, RemoveExpired;
    Later(s, clock, e.now);
    match e {
      case DoInsertPinned(k, v, u, now) => InsertPinnedKeeps(c, s, k, v, u, now);
      case DoInsert(k, v, u, now) => InsertKeeps(c, s, k, v, u, now);
      case DoLookup(k, now) => LookupKeeps(c, s, k, now);
      case DoRelease(k, v, now) => ReleaseKeeps(c, s, k, v, now);
      case DoRemove(k, now) => RemoveKeeps(c, s, k, now);
      case DoRemoveUnpinned(now) => PurgeKeeps(c, s, |s.order|, now);
      case DoRemoveAll(ks, now) => RemoveEachKeeps(c, s, ks, now);
      case DoUpdateSize(k, who, u, now) => UpdateSizeKeeps(c, s, k, who, u, now);
      case DoRemoveExpired(now) => RemoveExpiredKeeps(c, s, now);
    }
    if c.reentrant {
      RoomyCapped(c, Step(c, s, e));
    }
  }

  lemma RoomyCapped<V, R>(c: Config<V, R>, s: State<V, R>)
    requires c.reentrant && Wf(c, s)
    ensures Capped(c, s)
  {
  }

  /** The time of the last event. */
  function Clock<V>(es: seq<Event<V>>): int {
    if es == [] then 0 else es[|es| - 1].now
  }

  /**
   * After any run of allowed calls at non-decreasing times the cache is well formed, sorted by last use and within
   * capacity unless everything is pinned; and each value inserted, by a caller or again by the deleter, is in the
   * table, deferred, or was disposed of.
   */
  lemma {:induction false} EveryRun<V, R>(c: Config<V, R>, es: seq<Event<V>>)
    requires c.maxUnits >= 0 && Legal(c, es)
    ensures Sound(c, Run(c, es), Clock(es))
    ensures Balance(Run(c, es)) == Inserted(es) + InsertedAgain(c, es)
  {
    if es == [] {
      EmptySound(c, Run(c, es), Clock(es));
    } else {
      var init, e := es[..|es| - 1], es[|es| - 1];
      var s := Run(c, init);
      LastCall(c, es);
      EveryRun(c, init);
      hide *;
      if init == [] {
        EmptyRun(c, init);
        EmptySound(c, s, e.now);
        StepKeeps(c, s, e, e.now);
      } else {
        StepKeeps(c, s, e, Clock(init));
      }
      Accounted(c, es);
    }
  }

  lemma Accounted<V, R>(c: Config<V, R>, es: seq<Event<V>>)
    requires es != [] && Accounts(c, Run(c, es[..|es| - 1]), Run(c, es), InsertedBy(es[|es| - 1]), es[|es| - 1].now)
    requires Balance(Run(c, es[..|es| - 1])) == Inserted(es[..|es| - 1]) + InsertedAgain(c, es[..|es| - 1])
    ensures Balance(Run(c, es)) == Inserted(es) + InsertedAgain(c, es)
  {
    hide Run, Balance, Reborn, InsertedBy;
  }

  lemma LastCall<V, R>(c: Config<V, R>, es: seq<Event<V>>)
    requires es != [] && Legal(c, es)
    ensures var init, e := es[..|es| - 1], es[|es| - 1];
            && Legal(c, init) && Allowed(c, Run(c, init), e) && Run(c, es) == Step(c, Run(c, init), e)
            && Clock(es) == e.now && (init != [] ==> Clock(init) <= e.now)
  {
    hide Allowed, Step;
    var init := es[..|es| - 1];
    assert init != [] ==> init[|init| - 1] == es[|es| - 2];
  }

  lemma EmptyRun<V, R>(c: Config<V, R>, es: seq<Event<V>>)
    requires es == []
    ensures Run(c, es) == State([], [], [], [], [])
  {
  }

  lemma EmptySound<V, R>(c: Config<V, R>, s: State<V, R>, clock: int)
    requires c.maxUnits >= 0 && s == State([], [], [], [], [])
    ensures Sound(c, s, clock) && Balance(s) == multiset{}
  {
  }

  /** A value inserted once is disposed of at most once, and not while the cache still holds it. */
  lemma DisposedOnce<V, R>(c: Config<V, R>, es: seq<Event<V>>, k: string, v: V)
    requires c.maxUnits >= 0 && Legal(c, es) && (Inserted(es) + InsertedAgain(c, es))[(k, v)] == 1
    ensures var s := Run(c, es);
            var held := multiset(Pairs(s.order)) + multiset(Pairs(s.off)) + multiset(Pairs(s.deferred));
            multiset(s.disposed)[(k, v)] <= 1 && ((k, v) in s.disposed <==> (k, v) !in held)
  {
    EveryRun(c, es);
    var s := Run(c, es);
    var held := multiset(Pairs(s.order)) + multiset(Pairs(s.off)) + multiset(Pairs(s.deferred));
    assert Balance(s) == held + multiset(s.disposed);
    assert (k, v) in s.disposed <==> multiset(s.disposed)[(k, v)] > 0;
  }
}
