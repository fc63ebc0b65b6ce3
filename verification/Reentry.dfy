/**
 * What a nested `Insert` costs when there may be no room: `Insert`, `GarbageCollect`, `Discard` and the deleter call
 * each other. The functions below follow those calls and give up, with `None`, when they nest deeper than `fuel`.
 */
module Reentry {
  import opened Lists
  import opened CacheModel
  import opened CacheInvariant
  import opened CacheTheorems

  /** `Insert` of a key that is not in the table, in age mode. */
  function InsertF<V, R>(c: Config<V, R>, s: State<V, R>, k: string, v: V, now: int, fuel: nat): Option<State<V, R>>
    decreases fuel
  {
    if fuel == 0 then None
    else
      match CollectF(c, s.(order := s.order + [Entry(k, v, 1, 1, now)]), 0, now, fuel - 1)
      case None => None
      case Some(t) => ReleaseF(c, t, k, now, fuel - 1)
  }

  /** The walk of `GarbageCollect`; it cannot go on behind a victim whose nested insertion left the cache overfull. */
  function CollectF<V, R>(c: Config<V, R>, s: State<V, R>, i: nat, now: int, fuel: nat): Option<State<V, R>>
    decreases fuel
  {
    if fuel == 0 then None
    else if Units(s) <= c.maxUnits || i >= |s.order| then Some(s)
    else if s.order[i].pin > 0 then CollectF(c, s, i + 1, now, fuel - 1)
    else
      var e := s.order[i];
      match DiscardF(c, s.(order := Without(s.order, i)), e.key, e.value, now, fuel - 1)
      case None => None
      case Some(t) =>
        if Units(t) <= c.maxUnits then Some(t)
        else if c.Outcome(e.value, now).Drop? then CollectF(c, t, i, now, fuel - 1)
        else None
  }

  /** `Release` of the only pin of a table entry. */
  function ReleaseF<V, R>(c: Config<V, R>, s: State<V, R>, k: string, now: int, fuel: nat): Option<State<V, R>>
    decreases fuel
  {
    var i := Find(s.order, k);
    if fuel == 0 || i == |s.order| then None
    else if Units(s) > c.maxUnits then DiscardF(c, s.(order := Without(s.order, i)), k, s.order[i].value, now, fuel - 1)
    else Some(s.(order := s.order[i := s.order[i].(pin := 0)]))
  }

  function DiscardF<V, R>(c: Config<V, R>, s: State<V, R>, k: string, v: V, now: int, fuel: nat): Option<State<V, R>>
    decreases fuel
  {
    var t := s.(disposed := s.disposed + [(k, v)]);
    if fuel == 0 then None
    else
      match c.Outcome(v, now)
      case Drop(out) => Some(t.(removed := t.removed + out))
      case Keep(w, out) =>
        match InsertF(c, t, k, w, now, fuel - 1)
        case None => None
        case Some(u) => Some(u.(removed := u.removed + out))
  }

  // ----- A full cache -----

  /** The index of the oldest entry that the deleter does not insert again. */
  function FirstDropped<V, R>(c: Config<V, R>, es: seq<Entry<V>>, now: int): (m: nat)
    ensures m <= |es|
    ensures m < |es| ==> c.Outcome(es[m].value, now).Drop?
    ensures forall i :: 0 <= i < m ==> c.Outcome(es[i].value, now).Keep?
  {
    if es == [] || c.Outcome(es[0].value, now).Drop? then 0 else 1 + FirstDropped(c, es[1..], now)
  }

  /** Full, one unit each: `rest` is not pinned, and `held` is, by insertions that have not returned. */
  ghost predicate Full<V, R>(c: Config<V, R>, s: State<V, R>, rest: seq<Entry<V>>, held: seq<Entry<V>>) {
    && c.reentrant && s.off == [] && s.deferred == [] && s.order == rest + held
    && UniqueKeys(s.order) && Single(s.order) && NonePinned(rest) && AllPinned(held)
    && |s.order| == c.maxUnits
  }

  /** What the deleter emits for `es`, the newest of them first. */
  function EmittedBack<V, R>(c: Config<V, R>, es: seq<Entry<V>>, now: int): seq<R> {
    if es == [] then [] else EmittedBack(c, es[1..], now) + c.Outcome(es[0].value, now).out
  }

  /** The outcome of inserting `k` into a full cache whose entry `m` is the oldest to be dropped. */
  function Rotated<V, R>(c: Config<V, R>, s: State<V, R>, rest: seq<Entry<V>>, held: seq<Entry<V>>, k: string, v: V,
                         now: int): State<V, R>
    requires FirstDropped(c, rest, now) < |rest|
  {
    var m := FirstDropped(c, rest, now);
    s.(order := rest[m + 1..] + held + [Entry(k, v, 0, 1, now)] + Again(c, rest[..m], now),
       disposed := s.disposed + Pairs(rest[..m + 1]),
       removed := s.removed + EmittedBack(c, rest[..m + 1], now))
  }

  /** The state in which the oldest entry of a full cache is handed to the deleter. */
  ghost function Victimless<V, R>(s: State<V, R>, rest: seq<Entry<V>>, held: seq<Entry<V>>, e: Entry<V>): State<V, R>
    requires rest != []
  {
    s.(order := rest[1..] + (held + [e]), disposed := s.disposed + [(rest[0].key, rest[0].value)])
  }

  lemma VictimlessFull<V, R>(c: Config<V, R>, s: State<V, R>, rest: seq<Entry<V>>, held: seq<Entry<V>>, e: Entry<V>)
    requires Full(c, s, rest, held) && rest != [] && !HasKey(s.order, e.key) && e.pin > 0 && e.units == 1
    ensures Full(c, Victimless(s, rest, held, e), rest[1..], held + [e])
    ensures !HasKey(Victimless(s, rest, held, e).order, rest[0].key)
    ensures Without(s.order + [e], 0) == rest[1..] + (held + [e]) && (s.order + [e])[0] == rest[0] && rest[0].pin == 0
    ensures Units(s.(order := s.order + [e])) == c.maxUnits + 1
    ensures Units(Victimless(s, rest, held, e)) == c.maxUnits
  {
    var t := Victimless(s, rest, held, e);
    var u := s.(order := s.order + [e]);
    assert s.order[0] == rest[0] && u.order == s.order + [e];
    ListedUnits(u);
    assert t.order == u.order[1..];
    ListedUnits(t);
  }

  lemma {:induction false} FindMiddle<V>(a: seq<Entry<V>>, e: Entry<V>, b: seq<Entry<V>>)
    requires !HasKey(a, e.key)
    ensures Find(a + [e] + b, e.key) == |a|
  {
    if a != [] {
      assert (a + [e] + b)[1..] == a[1..] + [e] + b;
      FindMiddle(a[1..], e, b);
    }
  }

  lemma {:induction false} AgainSingle<V, R>(c: Config<V, R>, es: seq<Entry<V>>, now: int)
    requires forall i :: 0 <= i < |es| ==> c.Outcome(es[i].value, now).Keep?
    ensures |Again(c, es, now)| == |es| && Single(Again(c, es, now))
  {
    if es != [] {
      AgainSingle(c, es[1..], now);
    }
  }

  /** The last step of an insertion that has made room: the new entry is released. */
  lemma ReleasedAt<V, R>(c: Config<V, R>, s: State<V, R>, a: seq<Entry<V>>, e: Entry<V>, b: seq<Entry<V>>, now: int,
                         fuel: nat)
    requires s.order == a + [e] + b && !HasKey(a, e.key) && fuel > 0
    requires s.off == [] && s.deferred == [] && Single(s.order) && |s.order| == c.maxUnits
    ensures ReleaseF(c, s, e.key, now, fuel) == Some(s.(order := a + [e.(pin := 0)] + b))
  {
    FindMiddle(a, e, b);
    ListedUnits(s);
    assert s.order[|a|] == e && s.order[|a| := e.(pin := 0)] == a + [e.(pin := 0)] + b;
  }

  lemma DropNow<V, R>(c: Config<V, R>, s: State<V, R>, k: string, v: V, now: int, fuel: nat)
    requires fuel > 0 && c.Outcome(v, now).Drop?
    ensures DiscardF(c, s, k, v, now, fuel)
         == Some(s.(disposed := s.disposed + [(k, v)], removed := s.removed + c.Outcome(v, now).out))
  {
  }

  lemma KeepNow<V, R>(c: Config<V, R>, s: State<V, R>, k: string, v: V, now: int, fuel: nat)
    requires fuel > 0 && c.Outcome(v, now).Keep?
    ensures DiscardF(c, s, k, v, now, fuel) ==
            match InsertF(c, s.(disposed := s.disposed + [(k, v)]), k, c.Outcome(v, now).value, now, fuel - 1)
            case None => None
            case Some(u) => Some(u.(removed := u.removed + c.Outcome(v, now).out))
  {
  }

  /** Overfull by the new entry `e`: the oldest entry is the victim. */
  lemma CollectOldest<V, R>(c: Config<V, R>, s: State<V, R>, rest: seq<Entry<V>>, held: seq<Entry<V>>, e: Entry<V>,
                            now: int, fuel: nat)
    requires Full(c, s, rest, held) && rest != [] && !HasKey(s.order, e.key) && e.pin > 0 && e.units == 1 && fuel > 0
    ensures var t := s.(order := rest[1..] + (held + [e]));
            CollectF(c, s.(order := s.order + [e]), 0, now, fuel) ==
            match DiscardF(c, t, rest[0].key, rest[0].value, now, fuel - 1)
            case None => None
            case Some(u) =>
              if Units(u) <= c.maxUnits then Some(u)
              else if c.Outcome(rest[0].value, now).Drop? then CollectF(c, u, 0, now, fuel - 1)
              else None
  {
    VictimlessFull(c, s, rest, held, e);
    hide Units, UnitsOf, Full, HasKey, DiscardF;
  }

  lemma RotatedUnits<V, R>(c: Config<V, R>, s: State<V, R>, rest: seq<Entry<V>>, held: seq<Entry<V>>, k: string, v: V,
                           now: int)
    requires Full(c, s, rest, held) && FirstDropped(c, rest, now) < |rest|
    ensures var t := Rotated(c, s, rest, held, k, v, now);
            t.off == [] && t.deferred == [] && Single(t.order) && |t.order| == c.maxUnits
  {
    var m := FirstDropped(c, rest, now);
    AgainSingle(c, rest[..m], now);
    assert forall i :: 0 <= i < |rest| ==> s.order[i] == rest[i];
    assert forall i :: 0 <= i < |held| ==> s.order[|rest| + i] == held[i];
  }

  /** The nested insertion of the victim made room; so the new entry stays. */
  lemma RotatedStep<V, R>(c: Config<V, R>, s: State<V, R>, rest: seq<Entry<V>>, held: seq<Entry<V>>, k: string, v: V,
                          now: int)
    requires 0 < FirstDropped(c, rest, now) < |rest|
    ensures FirstDropped(c, rest[1..], now) == FirstDropped(c, rest, now) - 1
    ensures var e, f, m := Entry(k, v, 1, 1, now), c.Outcome(rest[0].value, now), FirstDropped(c, rest, now);
            var t := Rotated(c, Victimless(s, rest, held, e), rest[1..], held + [e], rest[0].key, f.value, now);
            var u := t.(removed := t.removed + f.out);
            && u.order == (rest[m + 1..] + held) + [e] + Again(c, rest[..m], now)
            && u.(order := (rest[m + 1..] + held) + [e.(pin := 0)] + Again(c, rest[..m], now))
            == Rotated(c, s, rest, held, k, v, now)
  {
    hide Again, Emitted, EmittedBack, Pairs, AgainOf, FirstDropped, Find;
    FirstDroppedRest(c, rest, now);
    var e, f, m := Entry(k, v, 1, 1, now), c.Outcome(rest[0].value, now), FirstDropped(c, rest, now);
    var x, r := Victimless(s, rest, held, e), rest[1..];
    var t := Rotated(c, x, r, held + [e], rest[0].key, f.value, now);
    SplitFirst(c, rest, m, now);
    Regroup(rest[m + 1..], held, e, Entry(rest[0].key, f.value, 0, 1, now), Again(c, r[..m - 1], now));
    Associate(s.disposed, [(rest[0].key, rest[0].value)], Pairs(r[..m]));
    Associate(s.removed, EmittedBack(c, r[..m], now), f.out);
  }

  lemma Regroup<T>(a: seq<T>, b: seq<T>, x: T, y: T, z: seq<T>)
    ensures a + (b + [x]) + [y] + z == (a + b) + [x] + ([y] + z)
  {
  }

  lemma FirstDroppedRest<V, R>(c: Config<V, R>, rest: seq<Entry<V>>, now: int)
    requires 0 < FirstDropped(c, rest, now)
    ensures rest != [] && c.Outcome(rest[0].value, now).Keep?
    ensures FirstDropped(c, rest[1..], now) == FirstDropped(c, rest, now) - 1
  {
  }

  lemma SplitFirst<V, R>(c: Config<V, R>, rest: seq<Entry<V>>, m: nat, now: int)
    requires 0 < m < |rest| && c.Outcome(rest[0].value, now).Keep?
    ensures var r, f := rest[1..], c.Outcome(rest[0].value, now);
            && r[m..] == rest[m + 1..]
            && Again(c, rest[..m], now) == [Entry(rest[0].key, f.value, 0, 1, now)] + Again(c, r[..m - 1], now)
            && Pairs(rest[..m + 1]) == [(rest[0].key, rest[0].value)] + Pairs(r[..m])
            && EmittedBack(c, rest[..m + 1], now) == EmittedBack(c, r[..m], now) + f.out
  {
    hide Again, Emitted, EmittedBack, Pairs, AgainOf;
    var r := rest[1..];
    assert rest[..m] == [rest[0]] + r[..m - 1] && rest[..m + 1] == [rest[0]] + r[..m];
    ConsFacts(c, rest[0], r[..m - 1], now);
    ConsFacts(c, rest[0], r[..m], now);
    AgainIs(c, rest[0], now);
    EmittedBackCons(c, rest[0], r[..m], now);
  }

  lemma EmittedBackCons<V, R>(c: Config<V, R>, e: Entry<V>, es: seq<Entry<V>>, now: int)
    ensures EmittedBack(c, [e] + es, now) == EmittedBack(c, es, now) + c.Outcome(e.value, now).out
  {
    assert ([e] + es)[1..] == es;
  }

  /**
   * Inserting into a full cache whose deleter drops some entry returns: the entries older than the first dropped one go
   * behind the new entry, and nothing else moves.
   */
  lemma {:induction false} FullInsertReturns<V, R>(c: Config<V, R>, s: State<V, R>, rest: seq<Entry<V>>,
                                                   held: seq<Entry<V>>,
                                                   k: string, v: V, now: int, fuel: nat)
    requires Full(c, s, rest, held) && !HasKey(s.order, k)
    requires FirstDropped(c, rest, now) < |rest| && fuel >= 3 * FirstDropped(c, rest, now) + 3
    ensures InsertF(c, s, k, v, now, fuel) == Some(Rotated(c, s, rest, held, k, v, now))
    decreases |rest|
  {
    hide *;
    var e, f := Entry(k, v, 1, 1, now), c.Outcome(rest[0].value, now);
    var x, t := Victimless(s, rest, held, e), s.(order := rest[1..] + (held + [e]));
    VictimlessIs(s, rest, held, e);
    InsertUnfolds(c, s, k, v, now, fuel);
    CollectOldest(c, s, rest, held, e, now, fuel - 1);
    VictimlessFull(c, s, rest, held, e);
    if FirstDropped(c, rest, now) == 0 {
      DropNow(c, t, rest[0].key, rest[0].value, now, fuel - 2);
      FullAfterDrop(c, s, rest, held, k, v, now, fuel);
    } else {
      FirstDroppedRest(c, rest, now);
      KeepNow(c, t, rest[0].key, rest[0].value, now, fuel - 2);
      FullInsertReturns(c, x, rest[1..], held + [e], rest[0].key, f.value, now, fuel - 3);
      FullAfterKeep(c, s, rest, held, k, v, now, fuel);
    }
  }

  lemma VictimlessIs<V, R>(s: State<V, R>, rest: seq<Entry<V>>, held: seq<Entry<V>>, e: Entry<V>)
    requires rest != []
    ensures var x := Victimless(s, rest, held, e);
            && s.(order := rest[1..] + (held + [e])).(disposed := s.disposed + [(rest[0].key, rest[0].value)]) == x
            && x.removed == s.removed
  {
  }

  lemma InsertUnfolds<V, R>(c: Config<V, R>, s: State<V, R>, k: string, v: V, now: int, fuel: nat)
    requires fuel > 0
    ensures InsertF(c, s, k, v, now, fuel) ==
            match CollectF(c, s.(order := s.order + [Entry(k, v, 1, 1, now)]), 0, now, fuel - 1)
            case None => None
            case Some(t) => ReleaseF(c, t, k, now, fuel - 1)
  {
  }

  lemma FullAfterKeep<V, R>(c: Config<V, R>, s: State<V, R>, rest: seq<Entry<V>>, held: seq<Entry<V>>, k: string, v: V,
                            now: int, fuel: nat)
    requires Full(c, s, rest, held) && !HasKey(s.order, k) && 0 < FirstDropped(c, rest, now) < |rest| && fuel >= 2
    ensures rest != [] && FirstDropped(c, rest[1..], now) < |rest| - 1
    ensures var e, f := Entry(k, v, 1, 1, now), c.Outcome(rest[0].value, now);
            var y := Rotated(c, Victimless(s, rest, held, e), rest[1..], held + [e], rest[0].key, f.value, now);
            var u := y.(removed := y.removed + f.out);
            Units(u) == c.maxUnits && ReleaseF(c, u, k, now, fuel - 1) == Some(Rotated(c, s, rest, held, k, v, now))
  {
    var e, f, m := Entry(k, v, 1, 1, now), c.Outcome(rest[0].value, now), FirstDropped(c, rest, now);
    hide *;
    FirstDroppedRest(c, rest, now);
    VictimlessFull(c, s, rest, held, e);
    var x := Victimless(s, rest, held, e);
    RotatedStep(c, s, rest, held, k, v, now);
    RotatedUnits(c, x, rest[1..], held + [e], rest[0].key, f.value, now);
    var y := Rotated(c, x, rest[1..], held + [e], rest[0].key, f.value, now);
    var u := y.(removed := y.removed + f.out);
    ListedUnits(u);
    FrontFree(c, s, rest, held, k, m);
    ReleasedAt(c, u, rest[m + 1..] + held, e, Again(c, rest[..m], now), now, fuel - 1);
  }

  lemma FrontFree<V, R>(c: Config<V, R>, s: State<V, R>, rest: seq<Entry<V>>, held: seq<Entry<V>>, k: string, m: nat)
    requires Full(c, s, rest, held) && !HasKey(s.order, k) && m < |rest|
    ensures !HasKey(rest[m + 1..] + held, k)
  {
    assert forall i :: 0 <= i < |rest| ==> s.order[i] == rest[i];
    assert forall i :: 0 <= i < |held| ==> s.order[|rest| + i] == held[i];
  }

  lemma FullAfterDrop<V, R>(c: Config<V, R>, s: State<V, R>, rest: seq<Entry<V>>, held: seq<Entry<V>>, k: string, v: V,
                            now: int, fuel: nat)
    requires Full(c, s, rest, held) && !HasKey(s.order, k) && rest != [] && FirstDropped(c, rest, now) == 0 && fuel >= 3
    ensures var e, f := Entry(k, v, 1, 1, now), c.Outcome(rest[0].value, now);
            var x := Victimless(s, rest, held, e);
            var t := x.(removed := x.removed + f.out);
            Units(t) == c.maxUnits && ReleaseF(c, t, k, now, fuel - 1) == Some(Rotated(c, s, rest, held, k, v, now))
  {
    hide CollectF, DiscardF, ReleaseF, Units, Again, EmittedBack, Pairs;
    var e, f := Entry(k, v, 1, 1, now), c.Outcome(rest[0].value, now);
    var x := Victimless(s, rest, held, e);
    var t := x.(removed := x.removed + f.out);
    VictimlessFull(c, s, rest, held, e);
    FrontFree(c, s, rest, held, k, 0);
    ListedUnits(t);
    assert t.order == (rest[1..] + held) + [e] + [];
    ReleasedAt(c, t, rest[1..] + held, e, [], now, fuel - 1);
    FirstOnly(c, rest, now);
    assert rest[1..] + held + [e.(pin := 0)] + [] == rest[1..] + held + [e.(pin := 0)];
  }

  lemma FirstOnly<V, R>(c: Config<V, R>, rest: seq<Entry<V>>, now: int)
    requires rest != []
    ensures Again(c, rest[..0], now) == [] && Pairs(rest[..1]) == [(rest[0].key, rest[0].value)]
    ensures EmittedBack(c, rest[..1], now) == c.Outcome(rest[0].value, now).out
  {
    assert rest[..1][1..] == [];
    assert [] + c.Outcome(rest[0].value, now).out == c.Outcome(rest[0].value, now).out;
  }

  // ----- Divergence -----

  /** The value after the deleter has inserted it again `n` times. */
  function AfterKeeps<V, R>(c: Config<V, R>, v: V, now: int, n: nat): V
    decreases n
  {
    if n == 0 then v
    else match c.Outcome(v, now) case Keep(w, _) => AfterKeeps(c, w, now, n - 1) case Drop(_) => v
  }

  /** The deleter never drops the value, however often it has inserted it again. */
  ghost predicate Endless<V, R>(c: Config<V, R>, v: V, now: int) {
    forall n: nat :: c.Outcome(AfterKeeps(c, v, now, n), now).Keep?
  }

  lemma EndlessStep<V, R>(c: Config<V, R>, v: V, now: int)
    requires Endless(c, v, now)
    ensures c.Outcome(v, now).Keep? && Endless(c, c.Outcome(v, now).value, now)
  {
    assert AfterKeeps(c, v, now, 0) == v;
    forall n: nat ensures c.Outcome(AfterKeeps(c, c.Outcome(v, now).value, now, n), now).Keep? {
      assert AfterKeeps(c, v, now, n + 1) == AfterKeeps(c, c.Outcome(v, now).value, now, n);
    }
  }

  /** What the deleter inserts again, it would insert again. */
  ghost predicate Stubborn<V(!new), R>(c: Config<V, R>, now: int) {
    forall v :: c.Outcome(v, now).Keep? ==> c.Outcome(c.Outcome(v, now).value, now).Keep?
  }

  lemma {:induction false} StubbornAfter<V(!new), R>(c: Config<V, R>, v: V, now: int, n: nat)
    requires Stubborn(c, now) && c.Outcome(v, now).Keep?
    ensures c.Outcome(AfterKeeps(c, v, now, n), now).Keep?
    decreases n
  {
    if n > 0 {
      StubbornAfter(c, c.Outcome(v, now).value, now, n - 1);
    }
  }

  lemma StubbornEndless<V(!new), R>(c: Config<V, R>, v: V, now: int)
    requires Stubborn(c, now) && c.Outcome(v, now).Keep?
    ensures Endless(c, v, now)
  {
    forall n: nat ensures c.Outcome(AfterKeeps(c, v, now, n), now).Keep? {
      StubbornAfter(c, v, now, n);
    }
  }

  /** The value that is handed to the deleter last, when no older one is dropped. */
  function Newest<V>(rest: seq<Entry<V>>, v: V): V { if rest == [] then v else rest[|rest| - 1].value }

  lemma NewestRest<V>(rest: seq<Entry<V>>, v: V, w: V)
    requires rest != []
    ensures Newest(rest[1..], w) == if |rest| == 1 then w else Newest(rest, v)
    ensures |rest| == 1 ==> Newest(rest, v) == rest[0].value
  {
  }

  /** A full cache whose deleter drops nothing, not even later: the insertion nests without end. */
  lemma {:induction false} FullInsertDiverges<V, R>(c: Config<V, R>, s: State<V, R>, rest: seq<Entry<V>>,
                                                    held: seq<Entry<V>>,
                                                    k: string, v: V, now: int, fuel: nat)
    requires Full(c, s, rest, held) && !HasKey(s.order, k)
    requires FirstDropped(c, rest, now) == |rest| && Endless(c, Newest(rest, v), now)
    ensures InsertF(c, s, k, v, now, fuel) == None
    decreases fuel
  {
    var e := Entry(k, v, 1, 1, now);
    hide *;
    if fuel == 0 {
      NoInsertFuel(c, s, k, v, now);
    } else {
      InsertUnfolds(c, s, k, v, now, fuel);
      EndlessStep(c, Newest(rest, v), now);
      if rest != [] {
        NoneDropped(c, rest, now);
        NewestRest(rest, v, c.Outcome(rest[0].value, now).value);
        VictimlessIs(s, rest, held, e);
        var t, x := s.(order := rest[1..] + (held + [e])), Victimless(s, rest, held, e);
        VictimlessFull(c, s, rest, held, e);
        if fuel == 1 {
          NoFuel(c, s.(order := s.order + [e]), now);
        } else {
          CollectOldest(c, s, rest, held, e, now, fuel - 1);
          if fuel == 2 {
            NoDiscardFuel(c, t, rest[0].key, rest[0].value, now);
          } else {
            KeepNow(c, t, rest[0].key, rest[0].value, now, fuel - 2);
            FullInsertDiverges(c, x, rest[1..], held + [e], rest[0].key, c.Outcome(rest[0].value, now).value, now,
                fuel - 3);
          }
        }
      } else {
        NewestNone(rest, v, c.Outcome(v, now).value);
        HeldStays(c, s, held, e, 0, now, fuel - 1);
        NoneAmong(c, rest, now);
        if fuel > 1 {
          HeldReleased(c, s, held, e, now, fuel - 1);
          if fuel == 2 {
            NoDiscardFuel(c, s, k, v, now);
          } else {
            KeepNow(c, s, k, v, now, fuel - 2);
            var x := s.(disposed := s.disposed + [(k, v)]);
            StillFull(c, s, x, held);
            FullInsertDiverges(c, x, rest, held, k, c.Outcome(v, now).value, now, fuel - 3);
          }
        }
      }
    }
  }

  lemma NewestNone<V>(rest: seq<Entry<V>>, v: V, w: V)
    requires rest == []
    ensures Newest(rest, v) == v && Newest(rest, w) == w
  {
  }

  lemma NoneDropped<V, R>(c: Config<V, R>, rest: seq<Entry<V>>, now: int)
    requires rest != [] && FirstDropped(c, rest, now) == |rest|
    ensures c.Outcome(rest[0].value, now).Keep? && FirstDropped(c, rest[1..], now) == |rest| - 1
  {
  }

  lemma NoneAmong<V, R>(c: Config<V, R>, rest: seq<Entry<V>>, now: int)
    requires rest == []
    ensures FirstDropped(c, rest, now) == |rest|
  {
  }

  lemma NoInsertFuel<V, R>(c: Config<V, R>, s: State<V, R>, k: string, v: V, now: int)
    ensures InsertF(c, s, k, v, now, 0) == None
  {
  }

  lemma NoFuel<V, R>(c: Config<V, R>, s: State<V, R>, now: int)
    ensures CollectF(c, s, 0, now, 0) == None
  {
  }

  lemma NoDiscardFuel<V, R>(c: Config<V, R>, s: State<V, R>, k: string, v: V, now: int)
    ensures DiscardF(c, s, k, v, now, 0) == None
  {
  }

  lemma StillFull<V, R>(c: Config<V, R>, s: State<V, R>, x: State<V, R>, held: seq<Entry<V>>)
    requires Full(c, s, [], held) && x == s.(disposed := x.disposed)
    ensures Full(c, x, [], held)
  {
  }

  /** Where every entry is pinned, the walk finds no victim. */
  lemma {:induction false} HeldStays<V, R>(c: Config<V, R>, s: State<V, R>, held: seq<Entry<V>>, e: Entry<V>, i: nat,
                                           now: int, fuel: nat)
    requires Full(c, s, [], held) && !HasKey(s.order, e.key) && e.pin == 1 && e.units == 1 && i <= |held| + 1
    ensures var t := s.(order := s.order + [e]);
            && (CollectF(c, t, i, now, fuel) == None || CollectF(c, t, i, now, fuel) == Some(t))
            && (i + fuel > |held| + 1 ==> CollectF(c, t, i, now, fuel) == Some(t))
    decreases fuel
  {
    if fuel > 0 && i <= |held| {
      var t := s.(order := s.order + [e]);
      assert t.order[i].pin > 0 by {
        assert t.order[i] == if i < |held| then held[i] else e;
      }
      HeldStays(c, s, held, e, i + 1, now, fuel - 1);
    }
  }

  /** The released entry is itself the one too many. */
  lemma HeldReleased<V, R>(c: Config<V, R>, s: State<V, R>, held: seq<Entry<V>>, e: Entry<V>, now: int, fuel: nat)
    requires Full(c, s, [], held) && !HasKey(s.order, e.key) && e.units == 1 && fuel > 0
    ensures ReleaseF(c, s.(order := s.order + [e]), e.key, now, fuel) == DiscardF(c, s, e.key, e.value, now, fuel - 1)
  {
    var t := s.(order := s.order + [e]);
    FindAppend(s.order, e);
    ListedUnits(t);
    assert Without(t.order, |s.order|) == s.order;
  }

  /** How deep the calls nest, when the deleter drops the newest value after inserting it again `n` times. */
  function Depth(rest: nat, held: nat, n: nat): nat { 3 * (rest + n) + rest + held + 4 }

  /** Where every entry is pinned, the new one is handed to the deleter until it is dropped. */
  lemma {:induction false} LateAlone<V, R>(c: Config<V, R>, s: State<V, R>, held: seq<Entry<V>>, k: string, v: V,
                                           now: int, n: nat, fuel: nat)
                                           returns (t: State<V, R>)
    requires Full(c, s, [], held) && !HasKey(s.order, k)
    requires c.Outcome(AfterKeeps(c, v, now, n), now).Drop? && fuel >= Depth(0, |held|, n)
    ensures InsertF(c, s, k, v, now, fuel) == Some(t) && t.off == [] && t.deferred == [] && t.order == held
    decreases n
  {
    var e := Entry(k, v, 1, 1, now);
    hide *;
    DepthIs(0, |held|, n);
    InsertUnfolds(c, s, k, v, now, fuel);
    FullParts(c, s, [], held);
    HeldStays(c, s, held, e, 0, now, fuel - 1);
    HeldReleased(c, s, held, e, now, fuel - 1);
    if c.Outcome(v, now).Drop? {
      DropNow(c, s, k, v, now, fuel - 2);
      t := s.(disposed := s.disposed + [(k, v)], removed := s.removed + c.Outcome(v, now).out);
    } else {
      KeptOnce(c, v, now, n);
      KeepNow(c, s, k, v, now, fuel - 2);
      var x := s.(disposed := s.disposed + [(k, v)]);
      StillFull(c, s, x, held);
      DepthIs(0, |held|, n - 1);
      var u := LateAlone(c, x, held, k, c.Outcome(v, now).value, now, n - 1, fuel - 3);
      t := u.(removed := u.removed + c.Outcome(v, now).out);
    }
  }

  /**
   * No entry is dropped at once, but the newest one is when it has been inserted again `n` times: then only that one
   * leaves.
   */
  lemma {:induction false} LateInsertReturns<V, R>(c: Config<V, R>, s: State<V, R>, rest: seq<Entry<V>>,
                                                   held: seq<Entry<V>>, k: string, v: V, now: int, n: nat, fuel: nat)
                                                   returns (t: State<V, R>)
    requires Full(c, s, rest, held) && !HasKey(s.order, k) && FirstDropped(c, rest, now) == |rest|
    requires c.Outcome(AfterKeeps(c, Newest(rest, v), now, n), now).Drop? && fuel >= Depth(|rest|, |held|, n)
    ensures InsertF(c, s, k, v, now, fuel) == Some(t) && t.off == [] && t.deferred == []
    ensures t.order ==
            if rest == [] then held else held + [Entry(k, v, 0, 1, now)] + Again(c, rest[..|rest| - 1], now)
    decreases |rest|
  {
    hide *;
    DepthIs(|rest|, |held|, n);
    if rest == [] {
      NewestNone(rest, v, v);
      t := LateAlone(c, s, held, k, v, now, n, fuel);
    } else {
      NoneDropped(c, rest, now);
      var e, f := Entry(k, v, 1, 1, now), c.Outcome(rest[0].value, now);
      NewestRest(rest, v, f.value);
      VictimlessFull(c, s, rest, held, e);
      if |rest| == 1 {
        KeptOnce(c, rest[0].value, now, n);
      }
      var m := if |rest| == 1 then n - 1 else n;
      DepthIs(|rest| - 1, |held| + 1, m);
      var u := LateInsertReturns(c, Victimless(s, rest, held, e), rest[1..], held + [e], rest[0].key, f.value, now, m,
          fuel - 3);
      t := LateStep(c, s, rest, held, k, v, now, u, fuel);
      NestedReturns(c, s, rest, held, k, v, now, u, fuel);
    }
  }

  /** The nested insertion of the oldest entry has returned `u`, and made room. */
  lemma NestedReturns<V, R>(c: Config<V, R>, s: State<V, R>, rest: seq<Entry<V>>, held: seq<Entry<V>>, k: string, v: V,
                            now: int, u: State<V, R>, fuel: nat)
    requires Full(c, s, rest, held) && rest != [] && !HasKey(s.order, k) && fuel >= 3
    requires var e, f := Entry(k, v, 1, 1, now), c.Outcome(rest[0].value, now);
             && f.Keep? && Units(u.(removed := u.removed + f.out)) <= c.maxUnits
             && InsertF(c, Victimless(s, rest, held, e), rest[0].key, f.value, now, fuel - 3) == Some(u)
    ensures InsertF(c, s, k, v, now, fuel)
         == ReleaseF(c, u.(removed := u.removed + c.Outcome(rest[0].value, now).out), k, now, fuel - 1)
  {
    hide *;
    var e := Entry(k, v, 1, 1, now);
    VictimlessIs(s, rest, held, e);
    InsertUnfolds(c, s, k, v, now, fuel);
    CollectOldest(c, s, rest, held, e, now, fuel - 1);
    KeepNow(c, s.(order := rest[1..] + (held + [e])), rest[0].key, rest[0].value, now, fuel - 2);
  }

  lemma DepthIs(rest: nat, held: nat, n: nat)
    ensures Depth(rest, held, n) == 3 * (rest + n) + rest + held + 4
  {
  }

  lemma FullParts<V, R>(c: Config<V, R>, s: State<V, R>, rest: seq<Entry<V>>, held: seq<Entry<V>>)
    requires Full(c, s, rest, held)
    ensures s.off == [] && s.deferred == [] && s.order == rest + held && Single(s.order)
        && |s.order| == c.maxUnits
  {
  }

  lemma KeptOnce<V, R>(c: Config<V, R>, v: V, now: int, n: nat)
    requires c.Outcome(v, now).Keep? && c.Outcome(AfterKeeps(c, v, now, n), now).Drop?
    ensures n > 0 && AfterKeeps(c, v, now, n) == AfterKeeps(c, c.Outcome(v, now).value, now, n - 1)
  {
  }

  /** The nested insertion of the oldest entry has returned. */
  lemma LateStep<V, R>(c: Config<V, R>, s: State<V, R>, rest: seq<Entry<V>>, held: seq<Entry<V>>, k: string, v: V,
                       now: int, u: State<V, R>, fuel: nat) returns (t: State<V, R>)
    requires Full(c, s, rest, held) && rest != [] && !HasKey(s.order, k) && c.Outcome(rest[0].value, now).Keep?
    requires fuel >= 2 && u.off == [] && u.deferred == [] && FirstDropped(c, rest, now) == |rest|
    requires var e, w := Entry(k, v, 1, 1, now), c.Outcome(rest[0].value, now).value;
             u.order == if |rest| == 1 then held + [e]
                        else held + [e] + [Entry(rest[0].key, w, 0, 1, now)] + Again(c, rest[1..][..|rest| - 2], now)
    ensures var x := u.(removed := u.removed + c.Outcome(rest[0].value, now).out);
            Units(x) <= c.maxUnits && ReleaseF(c, x, k, now, fuel - 1) == Some(t)
    ensures t.off == [] && t.deferred == []
    ensures t.order == held + [Entry(k, v, 0, 1, now)] + Again(c, rest[..|rest| - 1], now)
  {
    var e, b := Entry(k, v, 1, 1, now), Again(c, rest[..|rest| - 1], now);
    var x := u.(removed := u.removed + c.Outcome(rest[0].value, now).out);
    LateOrder(c, rest, now);
    NoneDropped(c, rest, now);
    hide *;
    FullParts(c, s, rest, held);
    assert u.order == held + [e] + b;
    HeldFree(c, s, rest, held, k);
    AgainAll(c, rest, now);
    assert Single(x.order) by {
      SingleParts(held, e, b);
    }
    ListedUnits(x);
    ReleasedAt(c, x, held, e, b, now, fuel - 1);
    t := x.(order := held + [e.(pin := 0)] + b);
  }

  /**
   * With a full cache and a new key, `Insert` returns if and only if the deleter drops some cached entry, at once or,
   * the newest one, after inserting it again. Otherwise it never does, however deep the calls may nest.
   */
  lemma FullInsertReturnsIff<V, R>(c: Config<V, R>, s: State<V, R>, k: string, v: V, now: int)
    requires Full(c, s, s.order, []) && s.order != [] && !HasKey(s.order, k)
    ensures var m, newest := FirstDropped(c, s.order, now), s.order[|s.order| - 1].value;
            && (m < |s.order| ==>
                  forall fuel: nat :: fuel >= 3 * m + 3 ==>
                    InsertF(c, s, k, v, now, fuel) == Some(Rotated(c, s, s.order, [], k, v, now)))
            && (m == |s.order| && Endless(c, newest, now) ==>
                  forall fuel: nat :: InsertF(c, s, k, v, now, fuel) == None)
            && (m == |s.order| && !Endless(c, newest, now) ==>
                  exists n :: forall fuel: nat :: fuel >= Depth(m, 0, n) ==> InsertF(c, s, k, v, now, fuel).Some?)
  {
    var newest := Newest(s.order, v);
    assert newest == s.order[|s.order| - 1].value;
    hide Full, HasKey, InsertF, Rotated, FirstDropped, AfterKeeps, Newest, Depth;
    var m := FirstDropped(c, s.order, now);
    if m < |s.order| {
      forall fuel: nat | fuel >= 3 * m + 3
        ensures InsertF(c, s, k, v, now, fuel) == Some(Rotated(c, s, s.order, [], k, v, now))
      {
        FullInsertReturns(c, s, s.order, [], k, v, now, fuel);
      }
    } else if Endless(c, newest, now) {
      forall fuel: nat ensures InsertF(c, s, k, v, now, fuel) == None {
        FullInsertDiverges(c, s, s.order, [], k, v, now, fuel);
      }
    } else {
      var n: nat :| c.Outcome(AfterKeeps(c, newest, now, n), now).Drop?;
      forall fuel: nat | fuel >= Depth(m, 0, n) ensures InsertF(c, s, k, v, now, fuel).Some? {
        var t := LateInsertReturns(c, s, s.order, [], k, v, now, n, fuel);
      }
      assert forall fuel: nat :: fuel >= Depth(m, 0, n) ==> InsertF(c, s, k, v, now, fuel).Some?;
    }
  }

  lemma LateOrder<V, R>(c: Config<V, R>, rest: seq<Entry<V>>, now: int)
    requires rest != [] && c.Outcome(rest[0].value, now).Keep?
    ensures Again(c, rest[..|rest| - 1], now) ==
            if |rest| == 1 then []
            else [Entry(rest[0].key, c.Outcome(rest[0].value, now).value, 0, 1, now)]
                 + Again(c, rest[1..][..|rest| - 2], now)
  {
    if |rest| > 1 {
      assert rest[..|rest| - 1][1..] == rest[1..][..|rest| - 2];
    }
  }

  lemma HeldFree<V, R>(c: Config<V, R>, s: State<V, R>, rest: seq<Entry<V>>, held: seq<Entry<V>>, k: string)
    requires Full(c, s, rest, held) && !HasKey(s.order, k)
    ensures !HasKey(held, k) && Single(held)
  {
    assert forall i :: 0 <= i < |held| ==> s.order[|rest| + i] == held[i];
  }

  lemma AgainAll<V, R>(c: Config<V, R>, rest: seq<Entry<V>>, now: int)
    requires rest != [] && FirstDropped(c, rest, now) == |rest|
    ensures |Again(c, rest[..|rest| - 1], now)| == |rest| - 1 && Single(Again(c, rest[..|rest| - 1], now))
  {
    hide Again;
    AgainSingle(c, rest[..|rest| - 1], now);
  }

  lemma SingleParts<V>(held: seq<Entry<V>>, e: Entry<V>, b: seq<Entry<V>>)
    requires Single(held) && e.units == 1 && Single(b)
    ensures Single(held + [e] + b)
  {
  }

  /** With room, `Insert` returns what the cache's own `Insert` does. */
  lemma RoomyInsertReturns<V, R>(c: Config<V, R>, s: State<V, R>, k: string, v: V, now: int, fuel: nat)
    requires Wf(c, s) && c.reentrant && !c.lru && MayInsert(c, s, k, v, 1) && fuel >= 2
    ensures InsertF(c, s, k, v, now, fuel) == Some(CacheModel.Insert(c, s, k, v, 1, now))
  {
    var e := Entry(k, v, 1, 1, now);
    var t := s.(order := s.order + [e]);
    ReenterInsert(c, s, k, v, 1, now);
    UnitsAppend(s.order, e);
    FindAppend(s.order, e);
    hide UnitsOf, Wf, CacheModel.Insert;
    assert CollectF(c, t, 0, now, fuel - 1) == Some(t);
    assert t.order[|s.order| := e.(pin := 0)] == s.order + [e.(pin := 0)];
  }
}
