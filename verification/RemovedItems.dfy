/**
 * `CacheRemovedItemsHandler`: how removed cache items get from the deleter, under the cache lock, to the flush
 * callback.
 */
module RemovedItems {
  import opened Lists

  /** `MergeItem`: the old item with the new one merged into it, if that may be done. */
  type Merger<!R> = (R, R) -> Option<R>

  function AddItem<R>(merge: Merger<R>, items: seq<R>, item: R): seq<R> {
    if items == [] then [item]
    else
      match merge(item, items[|items| - 1])
      case Some(m) => items[|items| - 1 := m]
      case None => items + [item]
  }

  /** What a `StackBuffer` holds after these items were removed. */
  function Batch<R>(merge: Merger<R>, rs: seq<R>): seq<R> {
    if rs == [] then [] else AddItem(merge, Batch(merge, rs[..|rs| - 1]), rs[|rs| - 1])
  }

  class StackBuffer<R> {
    const merge: Merger<R>
    var items: seq<R>

    constructor (merge: Merger<R>)
      ensures this.merge == merge && items == []
    {
      this.merge := merge;
      items := [];
    }

    method Add(item: R)
      modifies this
      ensures items == AddItem(merge, old(items), item)
    {
      if |items| > 0 {
        var merged := merge(item, items[|items| - 1]);
        if merged.Some? {
          items := items[|items| - 1 := merged.value];
          return;
        }
      }
      items := items + [item];
    }
  }

  /** The items that a call removed, through its buffer to the callback. */
  method Drain<R>(merge: Merger<R>, removed: seq<R>) returns (flushed: seq<R>)
    ensures flushed == Batch(merge, removed)
  {
    var buffer := new StackBuffer(merge);
    for i := 0 to |removed|
      invariant buffer.merge == merge && buffer.items == Batch(merge, removed[..i])
    {
      assert removed[..i + 1][..i] == removed[..i];
      buffer.Add(removed[i]);
    }
    assert removed[..|removed|] == removed;
    flushed := buffer.items;
  }

  // ----- The protocol, over all interleavings -----

  /**
   * Where a thread is in a call: its buffer is built; it holds the cache lock; its buffer is swapped in; it is swapped
   * out again; it has released the lock and is about to flush item `next`; it holds the callback lock for that item.
   */
  datatype Phase = Built | Locked | Swapped | Unswapped | Draining(next: nat) | Calling(next: nat)

  /** `removed`: the items that this call removed from the cache; `flushed`: the items it passed to the callback. */
  datatype Call<R> = Call(phase: Phase, items: seq<R>, removed: seq<R>, flushed: seq<R>)

  /**
   * `mutex`, `callback`: the holders of the two locks; `pointer`: the thread whose buffer `stack_buffer_` points to.
   */
  datatype System<R> = System(mutex: Option<nat>, callback: Option<nat>, pointer: Option<nat>,
      calls: map<nat, Call<R>>, done: seq<Call<R>>)

  datatype Act<R> =
    | Build(t: nat) | Lock(t: nat) | Swap(t: nat) | Evict(t: nat, r: R) | Unswap(t: nat) | Unlock(t: nat)
    | BeginFlush(t: nat) | EndFlush(t: nat) | Leave(t: nat)

  predicate At<R>(s: System<R>, t: nat, p: Phase) { t in s.calls && s.calls[t].phase == p }

  predicate Enabled<R>(s: System<R>, a: Act<R>) {
    match a
    case Build(t) => t !in s.calls
    case Lock(t) => At(s, t, Built) && s.mutex.None?
    case Swap(t) => At(s, t, Locked)
    case Evict(t, _) => At(s, t, Swapped)
    case Unswap(t) => At(s, t, Swapped)
    case Unlock(t) => At(s, t, Unswapped)
    case BeginFlush(t) =>
      t in s.calls && s.calls[t].phase.Draining? && s.calls[t].phase.next < |s.calls[t].items| && s.callback.None?
    case EndFlush(t) => t in s.calls && s.calls[t].phase.Calling? && s.calls[t].phase.next < |s.calls[t].items|
    case Leave(t) => t in s.calls && s.calls[t].phase.Draining? && s.calls[t].phase.next == |s.calls[t].items|
  }

  function SetPhase<R>(s: System<R>, t: nat, p: Phase): System<R>
    requires t in s.calls
  {
    s.(calls := s.calls[t := s.calls[t].(phase := p)])
  }

  /** The item goes to whichever buffer `stack_buffer_` points to, and nowhere if it is null. */
  function AddRemovedItem<R>(merge: Merger<R>, s: System<R>, r: R): System<R> {
    if s.pointer.None? || s.pointer.value !in s.calls then s
    else
      var b := s.calls[s.pointer.value];
      s.(calls := s.calls[s.pointer.value := b.(items := AddItem(merge, b.items, r))])
  }

  function Take<R>(merge: Merger<R>, s: System<R>, a: Act<R>): System<R>
    requires Enabled(s, a)
  {
    match a
    case Build(t) => s.(calls := s.calls[t := Call(Built, [], [], [])])
    case Lock(t) => SetPhase(s, t, Locked).(mutex := Some(t))
    case Swap(t) => SetPhase(s, t, Swapped).(pointer := Some(t))
    case Evict(t, r) => AddRemovedItem(merge,
        s.(calls := s.calls[t := s.calls[t].(removed := s.calls[t].removed + [r])]), r)
    case Unswap(t) => SetPhase(s, t, Unswapped).(pointer := None)
    case Unlock(t) => SetPhase(s, t, Draining(0)).(mutex := None)
    case BeginFlush(t) => SetPhase(s, t, Calling(s.calls[t].phase.next)).(callback := Some(t))
    case EndFlush(t) =>
      var c := s.calls[t];
      s.(calls := s.calls[t := c.(phase := Draining(c.phase.next + 1),
          flushed := c.flushed + [c.items[c.phase.next]])], callback := None)
    case Leave(t) => s.(calls := s.calls - {t}, done := s.done + [s.calls[t]])
  }

  /** An action that is not enabled is not taken. */
  function Next<R>(merge: Merger<R>, s: System<R>, a: Act<R>): System<R> {
    if Enabled(s, a) then Take(merge, s, a) else s
  }

  predicate HoldsMutex(p: Phase) { p == Locked || p == Swapped || p == Unswapped }

  ghost predicate InOrder<R>(merge: Merger<R>, c: Call<R>) {
    && c.items == Batch(merge, c.removed)
    && match c.phase
       case Draining(next) => next <= |c.items| && c.flushed == c.items[..next]
       case Calling(next) => next < |c.items| && c.flushed == c.items[..next]
       case Built => c.removed == [] && c.flushed == []
       case Locked => c.removed == [] && c.flushed == []
       case _ => c.flushed == []
  }

  ghost predicate ThreadKeeps<R>(merge: Merger<R>, s: System<R>, t: nat) {
    && (s.mutex == Some(t) <==> t in s.calls && HoldsMutex(s.calls[t].phase))
    && (s.pointer == Some(t) <==> t in s.calls && s.calls[t].phase == Swapped)
    && (s.callback == Some(t) <==> t in s.calls && s.calls[t].phase.Calling?)
    && (t in s.calls ==> InOrder(merge, s.calls[t]))
  }

  /**
   * A thread is between lock and unlock if and only if it holds `cache_mutex_`; `stack_buffer_` points to a buffer if
   * and only if that buffer's thread is swapped in; each buffer holds the batched removals of its own call, and each
   * finished call has flushed exactly those.
   */
  ghost predicate Protocol<R>(merge: Merger<R>, s: System<R>) {
    && (forall t :: ThreadKeeps(merge, s, t))
    && (forall i :: 0 <= i < |s.done| ==> s.done[i].flushed == Batch(merge, s.done[i].removed))
  }

  function Schedule<R>(merge: Merger<R>, acts: seq<Act<R>>): System<R> {
    if acts == [] then System(None, None, None, map[], [])
        else Next(merge, Schedule(merge, acts[..|acts| - 1]), acts[|acts| - 1])
  }

  lemma BatchAppend<R>(merge: Merger<R>, rs: seq<R>, r: R)
    ensures Batch(merge, rs + [r]) == AddItem(merge, Batch(merge, rs), r)
  {
    assert (rs + [r])[..|rs|] == rs;
  }

  lemma NoneRemoved<R>(merge: Merger<R>)
    ensures Batch(merge, []) == []
  {
  }

  lemma ActKeepsThread<R>(merge: Merger<R>, s: System<R>, a: Act<R>, t: nat)
    requires ThreadKeeps(merge, s, t) && ThreadKeeps(merge, s, a.t) && Enabled(s, a)
    ensures ThreadKeeps(merge, Take(merge, s, a), t)
  {
    hide Batch, AddItem;
    match a {
      case Evict(h, r) => BatchAppend(merge, s.calls[h].removed, r);
      case EndFlush(h) =>
        var c := s.calls[h];
        assert c.items[..c.phase.next + 1] == c.items[..c.phase.next] + [c.items[c.phase.next]];
      case BeginFlush(h) =>
      case _ => NoneRemoved(merge);
    }
  }

  lemma ActKeepsProtocol<R>(merge: Merger<R>, s: System<R>, a: Act<R>)
    requires Protocol(merge, s) && Enabled(s, a)
    ensures Protocol(merge, Take(merge, s, a))
  {
    hide Batch, AddItem, ThreadKeeps;
    forall t ensures ThreadKeeps(merge, Take(merge, s, a), t) {
      ActKeepsThread(merge, s, a, t);
    }
    if a.Leave? {
      LeavesFlushed(merge, s, a.t);
    }
  }

  lemma LeavesFlushed<R>(merge: Merger<R>, s: System<R>, t: nat)
    requires ThreadKeeps(merge, s, t) && Enabled(s, Leave(t))
    ensures s.calls[t].flushed == Batch(merge, s.calls[t].removed)
  {
    hide Batch;
    assert s.calls[t].items[..|s.calls[t].items|] == s.calls[t].items;
  }

  /**
   * Whatever the interleaving, the protocol holds, and each finished call has flushed exactly the batched items that it
   * removed.
   */
  lemma {:induction false} EveryScheduleFollowsProtocol<R>(merge: Merger<R>, acts: seq<Act<R>>)
    ensures Protocol(merge, Schedule(merge, acts))
    decreases |acts|
  {
    if acts != [] {
      var s, a := Schedule(merge, acts[..|acts| - 1]), acts[|acts| - 1];
      EveryScheduleFollowsProtocol(merge, acts[..|acts| - 1]);
      hide Protocol, Take, Enabled;
      if Enabled(s, a) {
        ActKeepsProtocol(merge, s, a);
      }
    }
  }

  /** A call flushes only after it has released the cache lock, and no step of another thread touches its buffer. */
  lemma DrainsUnlocked<R>(merge: Merger<R>, acts: seq<Act<R>>, a: Act<R>, t: nat)
    requires Enabled(Schedule(merge, acts), a)
    ensures var s, u := Schedule(merge, acts), Next(merge, Schedule(merge, acts), a);
            && (a == BeginFlush(t) || a == EndFlush(t) ==> s.mutex != Some(t) && u.mutex == s.mutex)
            && (t in s.calls && a.t != t ==> t in u.calls && u.calls[t] == s.calls[t])
  {
    EveryScheduleFollowsProtocol(merge, acts);
    hide Batch, AddItem, Schedule, InOrder;
    assert ThreadKeeps(merge, Schedule(merge, acts), t);
    assert ThreadKeeps(merge, Schedule(merge, acts), a.t);
  }

  /** Some thread can always go on: no thread waits for one lock while it holds the other. */
  lemma NeverStuck<R>(merge: Merger<R>, acts: seq<Act<R>>, t: nat) returns (a: Act<R>)
    requires t in Schedule(merge, acts).calls
    ensures Enabled(Schedule(merge, acts), a) && !a.Build? && !a.Evict?
  {
    EveryScheduleFollowsProtocol(merge, acts);
    var s := Schedule(merge, acts);
    hide Batch, AddItem, Schedule;
    assert ThreadKeeps(merge, s, t);
    if s.callback.Some? {
      assert ThreadKeeps(merge, s, s.callback.value);
      a := EndFlush(s.callback.value);
    } else if s.mutex.Some? {
      var h := s.mutex.value;
      assert ThreadKeeps(merge, s, h);
      a := if s.calls[h].phase == Locked then Swap(h) else if s.calls[h].phase == Swapped then Unswap(h) else Unlock(h);
    } else {
      var c := s.calls[t];
      a := if c.phase.Built? then Lock(t) else if c.phase.next < |c.items| then BeginFlush(t) else Leave(t);
    }
  }

  // ----- A whole call -----

  /** The actions one after the other, from `s`. */
  function Play<R>(merge: Merger<R>, s: System<R>, acts: seq<Act<R>>): System<R> {
    if acts == [] then s else Next(merge, Play(merge, s, acts[..|acts| - 1]), acts[|acts| - 1])
  }

  function Evictions<R>(t: nat, rs: seq<R>): seq<Act<R>> {
    if rs == [] then [] else Evictions(t, rs[..|rs| - 1]) + [Evict(t, rs[|rs| - 1])]
  }

  function Callbacks<R>(t: nat, n: nat): seq<Act<R>> {
    if n == 0 then [] else Callbacks(t, n - 1) + [BeginFlush(t), EndFlush(t)]
  }

  /** A call of thread `t` that removes `rs` and flushes `n` items. */
  function Whole<R>(t: nat, rs: seq<R>, n: nat): seq<Act<R>> {
    [Build(t), Lock(t), Swap(t)] + Evictions(t, rs) + [Unswap(t), Unlock(t)] + Callbacks(t, n) + [Leave(t)]
  }

  lemma {:induction false} PlayConcat<R>(merge: Merger<R>, s: System<R>, a: seq<Act<R>>, b: seq<Act<R>>)
    ensures Play(merge, s, a + b) == Play(merge, Play(merge, s, a), b)
  {
    hide Next;
    if b == [] {
      assert a + b == a;
    } else {
      PlayConcat(merge, s, a, b[..|b| - 1]);
      assert (a + b)[..|a + b| - 1] == a + b[..|b| - 1];
    }
  }

  lemma PlayOne<R>(merge: Merger<R>, s: System<R>, a: Act<R>)
    ensures Play(merge, s, [a]) == Next(merge, s, a)
  {
    hide Next;
    assert [a][..0] == [];
  }

  lemma PlayTwo<R>(merge: Merger<R>, s: System<R>, a: Act<R>, b: Act<R>)
    ensures Play(merge, s, [a, b]) == Next(merge, Next(merge, s, a), b)
  {
    hide Next;
    assert [a, b] == [a] + [b];
    PlayConcat(merge, s, [a], [b]);
    PlayOne(merge, s, a);
    PlayOne(merge, Next(merge, s, a), b);
  }

  /** Thread `t` holds the cache lock and has removed `rs`. */
  function Evicting<R>(merge: Merger<R>, s: System<R>, t: nat, rs: seq<R>): System<R> {
    s.(mutex := Some(t), pointer := Some(t), calls := s.calls[t := Call(Swapped, Batch(merge, rs), rs, [])])
  }

  /** Thread `t` holds no lock and has flushed the first `n` items of its buffer `b`. */
  function Flushing<R>(s: System<R>, t: nat, b: seq<R>, rs: seq<R>, n: nat): System<R>
    requires n <= |b|
  {
    s.(calls := s.calls[t := Call(Draining(n), b, rs, b[..n])])
  }

  ghost predicate Free<R>(s: System<R>, t: nat) {
    t !in s.calls && s.mutex.None? && s.callback.None? && s.pointer.None?
  }

  lemma Enters<R>(merge: Merger<R>, s: System<R>, t: nat)
    requires Free(s, t)
    ensures Play(merge, s, [Build(t), Lock(t), Swap(t)]) == Evicting(merge, s, t, [])
  {
    var built, locked := s.(calls := s.calls[t := Call(Built, [], [], [])]),
        s.(mutex := Some(t), calls := s.calls[t := Call(Locked, [], [], [])]);
    var first: seq<Act<R>> := [Build(t), Lock(t)];
    assert [Build(t), Lock(t), Swap(t)] == first + [Swap(t)];
    PlayConcat(merge, s, first, [Swap(t)]);
    PlayTwo(merge, s, Build(t), Lock(t));
    PlayOne(merge, locked, Swap(t));
    hide Play;
    assert Next(merge, s, Build(t)) == built;
    assert Next(merge, built, Lock(t)) == locked;
  }

  lemma {:induction false} Evicts<R>(merge: Merger<R>, s: System<R>, t: nat, rs: seq<R>)
    requires Free(s, t)
    ensures Play(merge, Evicting(merge, s, t, []), Evictions(t, rs)) == Evicting(merge, s, t, rs)
  {
    hide Next, Batch, Evicting;
    if rs != [] {
      var init, r := rs[..|rs| - 1], rs[|rs| - 1];
      Evicts(merge, s, t, init);
      PlayConcat(merge, Evicting(merge, s, t, []), Evictions(t, init), [Evict(t, r)]);
      PlayOne(merge, Evicting(merge, s, t, init), Evict(t, r));
      OneEvicted(merge, s, t, init, r);
      assert rs == init + [r];
    }
  }

  lemma OneEvicted<R>(merge: Merger<R>, s: System<R>, t: nat, rs: seq<R>, r: R)
    ensures Next(merge, Evicting(merge, s, t, rs), Evict(t, r)) == Evicting(merge, s, t, rs + [r])
  {
    BatchAppend(merge, rs, r);
    hide Batch, AddItem;
  }

  lemma Exits<R>(merge: Merger<R>, s: System<R>, t: nat, rs: seq<R>)
    requires Free(s, t)
    ensures Play(merge, Evicting(merge, s, t, rs), [Unswap(t), Unlock(t)]) == Flushing(s, t, Batch(merge, rs), rs, 0)
  {
    PlayTwo(merge, Evicting(merge, s, t, rs), Unswap(t), Unlock(t));
    hide Play, Batch;
    assert Batch(merge, rs)[..0] == [];
  }

  lemma {:induction false} Flushes<R>(merge: Merger<R>, s: System<R>, t: nat, b: seq<R>, rs: seq<R>, n: nat)
    requires Free(s, t) && n <= |b|
    ensures Play(merge, Flushing(s, t, b, rs, 0), Callbacks(t, n)) == Flushing(s, t, b, rs, n)
  {
    hide Next, Flushing;
    if n > 0 {
      Flushes(merge, s, t, b, rs, n - 1);
      PlayConcat(merge, Flushing(s, t, b, rs, 0), Callbacks(t, n - 1), [BeginFlush(t), EndFlush(t)]);
      PlayTwo(merge, Flushing(s, t, b, rs, n - 1), BeginFlush(t), EndFlush(t));
      OneFlushed(merge, s, t, b, rs, n - 1);
    }
  }

  lemma OneFlushed<R>(merge: Merger<R>, s: System<R>, t: nat, b: seq<R>, rs: seq<R>, n: nat)
    requires Free(s, t) && n < |b|
    ensures Next(merge, Next(merge, Flushing(s, t, b, rs, n), BeginFlush(t)), EndFlush(t))
         == Flushing(s, t, b, rs, n + 1)
  {
    var u := s.(callback := Some(t), calls := s.calls[t := Call(Calling(n), b, rs, b[..n])]);
    assert Next(merge, Flushing(s, t, b, rs, n), BeginFlush(t)) == u;
    assert b[..n + 1] == b[..n] + [b[n]];
    hide AddRemovedItem;
  }

  /**
   * A call that finds the locks free can run to its end, whatever it removes; it has then flushed the batched removals
   * and leaves nothing behind.
   */
  lemma CallRunsToItsEnd<R>(merge: Merger<R>, s: System<R>, t: nat, rs: seq<R>)
    requires Free(s, t)
    ensures var b := Batch(merge, rs);
            Play(merge, s, Whole(t, rs, |b|)) == s.(done := s.done + [Call(Draining(|b|), b, rs, b)])
  {
    var b := Batch(merge, rs);
    var u := Flushing(s, t, b, rs, |b|);
    Enters(merge, s, t);
    Evicts(merge, s, t, rs);
    Exits(merge, s, t, rs);
    Flushes(merge, s, t, b, rs, |b|);
    Leaves(merge, s, t, b, rs);
    hide Play, Evictions, Callbacks, Batch, Next, Evicting, Flushing;
    var enter, evict, exit := [Build(t), Lock(t), Swap(t)], Evictions(t, rs), [Unswap(t), Unlock(t)];
    PlayConcat(merge, s, enter + evict + exit + Callbacks(t, |b|), [Leave(t)]);
    PlayConcat(merge, s, enter + evict + exit, Callbacks(t, |b|));
    PlayConcat(merge, s, enter + evict, exit);
    PlayConcat(merge, s, enter, evict);
    PlayOne(merge, u, Leave(t));
  }

  lemma Leaves<R>(merge: Merger<R>, s: System<R>, t: nat, b: seq<R>, rs: seq<R>)
    requires Free(s, t)
    ensures Next(merge, Flushing(s, t, b, rs, |b|), Leave(t)) == s.(done := s.done + [Call(Draining(|b|), b, rs, b)])
  {
    assert b[..|b|] == b;
    assert s.calls[t := Call(Draining(|b|), b, rs, b)] - {t} == s.calls;
  }
}
