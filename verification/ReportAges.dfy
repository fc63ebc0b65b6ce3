/** Runs of the report aggregator in time: when an aggregate is sent, by age or by size. */
module ReportAges {
  import opened Lists
  import opened Proto
  import opened Signature
  import opened Operations
  import opened MergeAlgebra
  import opened CacheModel
  import opened CacheCells
  import CacheTheorems
  import opened ReportModel
  import opened ReportRuns

  /** Time does not go back. */
  predicate Timed(es: seq<Event>) { forall i, j :: 0 <= i < j < |es| ==> es[i].now <= es[j].now }

  function Clock(es: seq<Event>, start: int): int { if es == [] then start else es[|es| - 1].now }

  /** The present group of a signature. */
  function Group(o: Options, es: seq<Event>, k: string): seq<Operation> { Newest(GroupsOf(o, es, k)) }

  /** When the first operation of the present group was accepted. */
  function Born(o: Options, es: seq<Event>, k: string): int {
    if es == [] then 0
    else
      var gs, hs := GroupsOf(o, es, k), GroupsOf(o, es[..|es| - 1], k);
      if |gs| > |hs| || Newest(hs) == [] then es[|es| - 1].now else Born(o, es[..|es| - 1], k)
  }

  // ----- Ages within one call -----

  /**
   * Before the call the groups were `hs`, the last born at `born`; so far it has made the cell `w` and the groups `gs`.
   */
  ghost predicate Aged(hs: Groups, born: int, now: int, w: ReportCell, gs: Groups) {
    && hs != [] && |gs| >= |hs| && (|gs| == |hs| ==> Newest(hs) <= Newest(gs))
    && (w.value.Some? ==> w.since == if |gs| > |hs| || Newest(hs) == [] then now else born)
  }

  lemma AgedMoved(o: Options, k: string, hs: Groups, born: int, now: int, x: ReportCell, gs: Groups, y: ReportCell)
    requires Aged(hs, born, now, x, gs) && Moved(o, x, y, now)
    ensures Aged(hs, born, now, y, Regrouped(gs, x, y))
  {
    hide Retired;
    RetiredParts(o, x, now);
  }

  lemma AgedAdded(o: Options, k: string, hs: Groups, born: int, now: int, y: ReportCell, gs: Groups, op: Operation,
                  z: ReportCell)
    requires Aged(hs, born, now, y, gs) && Sound(o, k, y, gs) && Added(o, y, z, op, now)
    ensures Aged(hs, born, now, z, Regrouped(Joined(gs, op), y, z))
  {
    hide Retired, NextOf, TooBig, Small, Ripe, RequestsOf;
    var x := y.(value := Some(NextOf(o, y.value, op)), since := if y.value.None? then now else y.since);
    HeldBy(o, k, y, gs);
    NoneHeld(o, k, y.value, Newest(gs));
    RetiredParts(o, x, now);
    LastOfJoined(gs, op);
  }

  lemma LastOfJoined(gs: Groups, op: Operation)
    ensures gs != [] ==> |Joined(gs, op)| == |gs| && Newest(Joined(gs, op)) == Newest(gs) + [op]
  {
  }

  lemma AgedOne(o: Options, s: Reports, gs: string -> Groups, op: Operation, now: int, k: string, hs: Groups, born: int)
    requires Books(o, s, gs) && Aged(hs, born, now, CellAt(s, KeyOf, k), gs(k))
    ensures Aged(hs, born, now, CellAt(AddOperation(o, s, op, now), KeyOf, k), GroupsAdded(o, s, op, now, gs)(k))
  {
    hide *;
    var t, u := Fetched(o, s, now), AddOperation(o, s, op, now);
    var x, y, z := CellAt(s, KeyOf, k), CellAt(t, KeyOf, k), CellAt(u, KeyOf, k);
    FetchedMoves(o, s, gs, now, k);
    AgedMoved(o, k, hs, born, now, x, gs(k), y);
    MovedIs(s, t, gs, k);
    FetchedKept(o, s, gs, now);
    BooksParts(o, t, GroupsMoved(s, t, gs), now);
    AddCell(o, s, op, now, gs, k);
    AddedIs(o, s, op, now, gs, k);
    var g := Regrouped(gs(k), x, y);
    if k == ReportSignature(op) {
      AgedAdded(o, k, hs, born, now, y, g, op, z);
    } else {
      AgedMoved(o, k, hs, born, now, y, g, z);
    }
  }

  lemma FetchedMoves(o: Options, s: Reports, gs: string -> Groups, now: int, k: string)
    requires Books(o, s, gs)
    ensures Moved(o, CellAt(s, KeyOf, k), CellAt(Fetched(o, s, now), KeyOf, k), now)
  {
    hide *;
    BooksParts(o, s, gs, now);
    FetchedIs(o, s, now);
    RemoveExpiredCell(ConfigOf(o), s, KeyOf, k, now);
    MovedIntro(o, CellAt(s, KeyOf, k), CellAt(Fetched(o, s, now), KeyOf, k), now);
  }

  lemma {:induction false} AgedAll(o: Options, s: Reports, gs: string -> Groups, ops: seq<Operation>, now: int,
                                   k: string, hs: Groups, born: int)
    requires Books(o, s, gs) && Aged(hs, born, now, CellAt(s, KeyOf, k), gs(k))
    ensures Aged(hs, born, now, CellAt(AddOperations(o, s, ops, now), KeyOf, k), GroupsAddedAll(o, s, ops, now, gs)(k))
    decreases |ops|
  {
    hide *;
    if ops == [] {
      NoneAdded(o, s, gs, now, k);
    } else {
      var init, op := ops[..|ops| - 1], ops[|ops| - 1];
      AgedAll(o, s, gs, init, now, k, hs, born);
      AddAllKept(o, s, gs, init, now);
      AgedOne(o, AddOperations(o, s, init, now), GroupsAddedAll(o, s, init, now, gs), op, now, k, hs, born);
      AddedAllIs(o, s, ops, now, gs, k);
      AddLast(o, s, ops, now);
    }
  }

  lemma NoneAdded(o: Options, s: Reports, gs: string -> Groups, now: int, k: string)
    ensures AddOperations(o, s, [], now) == s && GroupsAddedAll(o, s, [], now, gs)(k) == gs(k)
  {
  }

  lemma AddLast(o: Options, s: Reports, ops: seq<Operation>, now: int)
    requires ops != []
    ensures AddOperations(o, s, ops, now)
         == AddOperation(o, AddOperations(o, s, ops[..|ops| - 1], now), ops[|ops| - 1], now)
  {
    hide AddOperation;
  }

  // ----- Ages over a run -----

  lemma {:induction false} RunAges(o: Options, es: seq<Event>, k: string)
    requires o.entries > 0 && Legal(o, es)
    ensures var x := CellAt(Run(o, es), KeyOf, k); x.value.Some? ==> x.since == Born(o, es, k)
  {
    hide *;
    EveryRunKeepsBooks(o, es);
    if es == [] {
      NothingCached(o, es, k);
    } else {
      var init, e := es[..|es| - 1], es[|es| - 1];
      var s, gs, hs := Run(o, init), GroupsAt(o, init), GroupsOf(o, init, k);
      var x, y, born := CellAt(s, KeyOf, k), CellAt(Run(o, es), KeyOf, k), Born(o, init, k);
      RunIs(o, es);
      RunAges(o, init, k);
      EveryRunKeepsBooks(o, init);
      BooksParts(o, s, gs, e.now);
      GroupsAtIs(o, init, k);
      GroupsAtIs(o, es, k);
      AgedFirst(o, k, x, hs, born, e.now);
      GroupsAre(o, es, k);
      GroupsNextIs(o, es, k);
      match e {
        case DoReport(r, now) =>
          if CodeOf(o, r) == Ok {
            AgedAll(o, s, gs, r.operations, now, k, hs, born);
          }
        case DoFlush(now) =>
          FetchedMoves(o, s, gs, now, k);
          MovedIs(s, Run(o, es), gs, k);
          AgedMoved(o, k, hs, born, now, x, hs, y);
        case DoFlushAll(ks, now) =>
          NothingListed(o, es, k);
      }
      AgedLast(o, es, k, y);
    }
  }

  lemma NothingCached(o: Options, es: seq<Event>, k: string)
    requires es == []
    ensures CellAt(Run(o, es), KeyOf, k).value.None?
  {
  }

  lemma NothingListed(o: Options, es: seq<Event>, k: string)
    requires Run(o, es).order == []
    ensures CellAt(Run(o, es), KeyOf, k).value.None?
  {
    hide Run;
  }

  lemma GroupsAtIs(o: Options, es: seq<Event>, k: string)
    ensures GroupsAt(o, es)(k) == GroupsOf(o, es, k)
  {
  }

  lemma AgedFirst(o: Options, k: string, x: ReportCell, hs: Groups, born: int, now: int)
    requires Sound(o, k, x, hs) && (x.value.Some? ==> x.since == born)
    ensures Aged(hs, born, now, x, hs)
  {
    hide Small, Ripe, RequestsOf;
    HeldBy(o, k, x, hs);
    NoneHeld(o, k, x.value, Newest(hs));
  }

  lemma AgedLast(o: Options, es: seq<Event>, k: string, y: ReportCell)
    requires es != []
    requires var init := es[..|es| - 1];
             || y.value.None?
             || Aged(GroupsOf(o, init, k), Born(o, init, k), es[|es| - 1].now, y, GroupsOf(o, es, k))
    ensures y.value.Some? ==> y.since == Born(o, es, k)
  {
    hide GroupsOf;
  }

  // ----- The list in time -----

  lemma AddInTime(o: Options, s: Reports, gs: string -> Groups, op: Operation, now: int)
    requires Books(o, s, gs) && InTime(s.order, now)
    ensures InTime(AddOperation(o, s, op, now).order, now)
  {
    hide *;
    var c, j, t := ConfigOf(o), ReportSignature(op), Fetched(o, s, now);
    BooksParts(o, s, gs, now);
    FetchedIs(o, s, now);
    RemoveExpiredInTime(c, s, now);
    RemoveExpiredCell(c, s, KeyOf, j, now);
    AddIs(o, s, op, now);
    CellEntry(t, j);
    if EntryAt(t.order, j).None? {
      PutInTime(c, t, j, Start(o.kinds, op), now);
    } else {
      var m := Operations.Merge(o.kinds, ValueAt(t.order, j).value, op);
      var u := Used(c, t, j, m, now);
      UsedInTime(c, t, j, m, now);
      UsedIdle(c, t, j, m, now);
      RemoveInTime(c, u, j, now);
    }
  }

  lemma RemoveInTime(c: Config<Aggregate, ReportRequest>, s: Reports, k: string, now: int)
    requires Idle(c, s) && InTime(s.order, now)
    ensures InTime(Remove(c, s, k, now).order, now)
  {
    hide *;
    IdleUnique(c, s);
    IdleFacts(c, s);
    RemoveIs(c, s, k, now);
    var i := Find(s.order, k);
    if i < |s.order| {
      RetireInTime(c, s, i, now);
    } else {
      FindFails(s.order, k);
      NoRemoval(c, s, k, now);
    }
  }

  lemma {:induction false} AddAllInTime(o: Options, s: Reports, gs: string -> Groups, ops: seq<Operation>, now: int)
    requires Books(o, s, gs) && InTime(s.order, now)
    ensures InTime(AddOperations(o, s, ops, now).order, now)
    decreases |ops|
  {
    hide *;
    if ops == [] {
      NoneAdded(o, s, gs, now, "");
    } else {
      var init := ops[..|ops| - 1];
      AddAllInTime(o, s, gs, init, now);
      AddAllKept(o, s, gs, init, now);
      AddInTime(o, AddOperations(o, s, init, now), GroupsAddedAll(o, s, init, now, gs), ops[|ops| - 1], now);
      AddLast(o, s, ops, now);
    }
  }

  lemma InTimeLater<V>(es: seq<Entry<V>>, clock: int, now: int)
    requires InTime(es, clock) && clock <= now
    ensures InTime(es, now)
    ensures InTime<V>([], now)
  {
  }

  lemma TimedInit(es: seq<Event>)
    requires Timed(es) && es != []
    ensures Timed(es[..|es| - 1]) && Clock(es[..|es| - 1], es[|es| - 1].now) <= es[|es| - 1].now
    ensures forall start :: Clock(es, start) == es[|es| - 1].now
  {
  }

  lemma {:induction false} RunInTime(o: Options, es: seq<Event>, start: int)
    requires o.entries > 0 && Legal(o, es) && Timed(es)
    ensures InTime(Run(o, es).order, Clock(es, start))
  {
    hide *;
    EveryRunKeepsBooks(o, es);
    if es == [] {
      NoRun(o, es);
      ClockOf(es, start);
      InTimeNone(Run(o, es).order, start);
    } else {
      var init, e := es[..|es| - 1], es[|es| - 1];
      var s, gs := Run(o, init), GroupsAt(o, init);
      TimedInit(es);
      RunIs(o, es);
      RunInTime(o, init, e.now);
      EveryRunKeepsBooks(o, init);
      BooksParts(o, s, gs, e.now);
      InTimeLater(s.order, Clock(init, e.now), e.now);
      match e {
        case DoReport(r, now) =>
          if CodeOf(o, r) == Ok {
            AddAllInTime(o, s, gs, r.operations, now);
          }
        case DoFlush(now) =>
          FetchedIs(o, s, now);
          RemoveExpiredInTime(ConfigOf(o), s, now);
        case DoFlushAll(ks, now) =>
          InTimeNone(Run(o, es).order, now);
      }
    }
  }

  lemma ClockOf(es: seq<Event>, start: int)
    ensures es == [] ==> Clock(es, start) == start
  {
  }

  lemma InTimeNone(es: seq<Entry<Aggregate>>, now: int)
    requires es == []
    ensures InTime(es, now)
  {
  }

  // ----- Results -----

  /** The present group is cached, and its first operation was accepted within the flush interval. */
  predicate Young(o: Options, es: seq<Event>, k: string, now: int) {
    Group(o, es, k) != [] && (o.flushMs < 0 || Born(o, es, k) >= now - o.flushMs * 1000)
  }

  lemma FetchedExact(o: Options, es: seq<Event>, k: string, now: int)
    requires o.entries > 0 && Legal(o, es) && Timed(es) && Clock(es, now) <= now
    ensures var x := CellAt(Run(o, es), KeyOf, k);
            CellAt(Fetched(o, Run(o, es), now), KeyOf, k)
            == if x.value.None? || Young(o, es, k, now) then x else Retired(ConfigOf(o), x, now)
    ensures var x := CellAt(Run(o, es), KeyOf, k);
            && x.sent == SentFor(o, es, k) && Sound(o, k, x, GroupsOf(o, es, k))
            && (x.value.Some? <==> Group(o, es, k) != [])
  {
    hide *;
    var s, c, gs := Run(o, es), ConfigOf(o), GroupsAt(o, es);
    var x := CellAt(s, KeyOf, k);
    EveryRunKeepsBooks(o, es);
    BooksParts(o, s, gs, now);
    GroupsAtIs(o, es, k);
    RunAges(o, es, k);
    RunInTime(o, es, now);
    InTimeLater(s.order, Clock(es, now), now);
    FetchedIs(o, s, now);
    HeldBy(o, k, x, gs(k));
    NoneHeld(o, k, x.value, Newest(gs(k)));
    YoungIs(o, es, k, now);
    SentCell(o, es, k);
    ExpiresBy(o, s, now);
    if o.flushMs >= 0 {
      var threshold := now - o.flushMs * 1000;
      IdleUnique(c, s);
      AllBearTagged(c, s.order, KeyOf, threshold, now);
      SortedBy(s.order, now);
      ExpireCellExact(c, s, threshold, KeyOf, k, now);
      StaleSince(s, k, threshold);
    }
  }

  lemma YoungIs(o: Options, es: seq<Event>, k: string, now: int)
    ensures Young(o, es, k, now)
       <==> Group(o, es, k) != [] && (o.flushMs < 0 || Born(o, es, k) >= now - o.flushMs * 1000)
    ensures Group(o, es, k) == Newest(GroupsOf(o, es, k))
  {
    hide GroupsOf, Born;
  }

  lemma SentCell(o: Options, es: seq<Event>, k: string)
    ensures var x := CellAt(Run(o, es), KeyOf, k); x.sent == SentFor(o, es, k) && x.value == HeldFor(o, es, k)
  {
  }

  lemma ExpiresBy(o: Options, s: Reports, now: int)
    ensures o.flushMs < 0 ==> RemoveExpired(ConfigOf(o), s, now) == s
    ensures o.flushMs >= 0 ==>
              now - o.flushMs * 1000 <= now
              && RemoveExpired(ConfigOf(o), s, now) == Expire(ConfigOf(o), s, now - o.flushMs * 1000, now)
  {
  }

  lemma SortedBy<V>(es: seq<Entry<V>>, now: int)
    requires InTime(es, now)
    ensures CacheTheorems.Sorted(es)
  {
  }

  lemma StaleSince(s: Reports, k: string, threshold: int)
    ensures var x := CellAt(s, KeyOf, k); StaleAt(s.order, k, threshold) <==> x.value.Some? && x.since < threshold
  {
  }

  /**
   * A flush sends an aggregate if and only if the first of its operations was accepted longer than the flush interval
   * ago; what it sends is what those operations add up to.
   */
  lemma FlushIsExact(o: Options, es: seq<Event>, k: string, now: int)
    requires o.entries > 0 && Legal(o, es) && Timed(es) && Clock(es, now) <= now
    ensures var fs, g, n := es + [DoFlush(now)], Group(o, es, k), |SentFor(o, es, k)|;
            && (HeldFor(o, es, k).Some? <==> g != []) && (HeldFor(o, fs, k).Some? <==> Young(o, es, k, now))
            && if g == [] || Young(o, es, k, now)
               then SentFor(o, fs, k) == SentFor(o, es, k) && HeldFor(o, fs, k) == HeldFor(o, es, k)
               else
                 && |SentFor(o, fs, k)| == n + 1 && SentFor(o, fs, k)[..n] == SentFor(o, es, k)
                 && Carries(o, SentFor(o, fs, k)[n], g)
  {
    hide *;
    var fs, g, x := es + [DoFlush(now)], Group(o, es, k), CellAt(Run(o, es), KeyOf, k);
    FetchedExact(o, es, k, now);
    YoungIs(o, es, k, now);
    AfterFlush(o, es, now);
    SentCell(o, es, k);
    SentCell(o, fs, k);
    if x.value.Some? && !Young(o, es, k, now) {
      RetiredParts(o, x, now);
      HeldGroup(o, k, x, GroupsOf(o, es, k));
      RequestReports(o, g);
    }
  }

  lemma AfterFlush(o: Options, es: seq<Event>, now: int)
    ensures Run(o, es + [DoFlush(now)]) == Fetched(o, Run(o, es), now)
  {
    hide Fetched;
    assert (es + [DoFlush(now)])[..|es|] == es;
  }

  lemma HeldGroup(o: Options, k: string, x: ReportCell, gs: Groups)
    requires Sound(o, k, x, gs) && x.value.Some?
    ensures Newest(gs) != [] && x.value.value == AggregateOf(o.kinds, Newest(gs))
  {
    hide AggregateOf, RequestsOf, ReportSignature, LogsOf;
  }

  /** A report of one operation of this service and low importance. */
  predicate Single(o: Options, r: ReportRequest, op: Operation) {
    r.service == o.service && op.importance == Low && r.operations == [op]
  }

  /**
   * One more operation: it joins a young group, which is sent if and only if it now has a hundred log entries or more;
   * otherwise it starts a new group, and what was left of the old one has been sent.
   */
  lemma OneMoreOperation(o: Options, es: seq<Event>, r: ReportRequest, op: Operation, now: int)
    requires o.entries > 0 && Legal(o, es) && Timed(es) && Clock(es, now) <= now && Single(o, r, op)
    ensures var k := ReportSignature(op);
            var fs, g, v := es + [DoReport(r, now)], Group(o, es, k), HeldFor(o, es + [DoReport(r, now)], k);
            var before, after := SentFor(o, es, k), SentFor(o, es + [DoReport(r, now)], k);
            if Young(o, es, k, now) then
              if |LogsOf(g + [op])| >= 100
              then v.None? && |after| == |before| + 1 && after[..|before|] == before
                  && Carries(o, after[|before|], g + [op])
              else v.Some? && SumsUp(ToProto(v.value), o.kinds, g + [op]) && after == before
            else
              && v.Some? && SumsUp(ToProto(v.value), o.kinds, [op])
              && if g == [] then after == before
                 else |after| == |before| + 1 && after[..|before|] == before && Carries(o, after[|before|], g)
  {
    hide *;
    var k := ReportSignature(op);
    var fs, s, gs := es + [DoReport(r, now)], Run(o, es), GroupsAt(o, es);
    var x, y, z := CellAt(s, KeyOf, k), CellAt(Fetched(o, s, now), KeyOf, k), CellAt(Run(o, fs), KeyOf, k);
    var g := Group(o, es, k);
    FetchedExact(o, es, k, now);
    YoungIs(o, es, k, now);
    AfterReport(o, es, r, op, now);
    SentCell(o, es, k);
    SentCell(o, fs, k);
    EveryRunKeepsBooks(o, es);
    AddCell(o, s, op, now, gs, k);
    GroupsAtIs(o, es, k);
    if x.value.Some? {
      HeldGroup(o, k, x, GroupsOf(o, es, k));
    }
    if Young(o, es, k, now) {
      AddedTo(o, k, y, z, GroupsOf(o, es, k), op, now);
      if |LogsOf(g + [op])| >= 100 {
        RequestReports(o, g + [op]);
      } else {
        AggregateSumsUp(o.kinds, g + [op]);
      }
    } else {
      if g != [] {
        RetiredParts(o, x, now);
        RequestReports(o, g);
      }
      AddedNew(o, y, z, op, now);
      AggregateSumsUp(o.kinds, [op]);
    }
  }

  lemma AfterReport(o: Options, es: seq<Event>, r: ReportRequest, op: Operation, now: int)
    requires o.entries > 0 && Single(o, r, op)
    ensures Run(o, es + [DoReport(r, now)]) == AddOperation(o, Run(o, es), op, now)
  {
    hide AddOperation;
    var fs, s := es + [DoReport(r, now)], Run(o, es);
    assert fs[..|fs| - 1] == es && [op][..0] == [] && CodeOf(o, r) == Ok;
    assert Run(o, fs) == AddOperations(o, s, [op], now);
    AddLast(o, s, [op], now);
    assert AddOperations(o, s, [], now) == s;
  }

  lemma AddedTo(o: Options, k: string, y: ReportCell, z: ReportCell, gs: Groups, op: Operation, now: int)
    requires Sound(o, k, y, gs) && y.value.Some? && ReportSignature(op) == k && Added(o, y, z, op, now)
    ensures var g, a := Newest(gs), AggregateOf(o.kinds, Newest(gs) + [op]);
            if |LogsOf(g + [op])| >= 100 then z.value.None? && z.sent == y.sent + [RequestOf(o, a)]
            else z.value == Some(a) && z.sent == y.sent
  {
    var g, a := Newest(gs), NextOf(o, y.value, op);
    HeldBy(o, k, y, gs);
    NextAggregate(o, k, y.value, g, op);
    RetiredParts(o, y.(value := Some(a), since := y.since), now);
    hide AggregateOf, RequestsOf, ReportSignature, LogsOf, Retired, NextOf, TooBig, RequestOf, Small, Ripe;
  }

  lemma AddedNew(o: Options, y: ReportCell, z: ReportCell, op: Operation, now: int)
    requires y.value.None? && Added(o, y, z, op, now)
    ensures z.value == Some(AggregateOf(o.kinds, [op])) && z.sent == y.sent
  {
    hide Start;
  }

  /** A request counts as its operations one by one. */
  lemma RequestsSplit(o: Options, es: seq<Event>, r: ReportRequest, a: seq<Operation>, b: seq<Operation>, now: int)
    requires r.operations == a + b && CodeOf(o, r) == Ok
    ensures Run(o, es + [DoReport(r, now)])
         == Run(o, es + [DoReport(r.(operations := a), now)] + [DoReport(r.(operations := b), now)])
  {
    var one, two := DoReport(r.(operations := a), now), DoReport(r.(operations := b), now);
    assert (es + [DoReport(r, now)])[..|es|] == es && (es + [one])[..|es|] == es;
    assert (es + [one] + [two])[..|es| + 1] == es + [one];
    assert (forall op <- a :: op in r.operations) && forall op <- b :: op in r.operations;
    hide AddOperations;
    AddSplit(o, Run(o, es), a, b, now);
  }

  lemma {:induction false} AddSplit(o: Options, s: Reports, a: seq<Operation>, b: seq<Operation>, now: int)
    ensures AddOperations(o, s, a + b, now) == AddOperations(o, AddOperations(o, s, a, now), b, now)
  {
    hide AddOperation;
    if b == [] {
      assert a + b == a;
    } else {
      AddSplit(o, s, a, b[..|b| - 1], now);
      assert (a + b)[..|a + b| - 1] == a + b[..|b| - 1];
    }
  }

  /** A request is aggregated if and only if it is of this service, there is a cache, and it has no urgent operation. */
  lemma AcceptedWhen(o: Options, es: seq<Event>, r: ReportRequest, now: int)
    ensures var ops := Accepted(o, es + [DoReport(r, now)]);
            if r.service == o.service && o.entries > 0 && forall op <- r.operations :: op.importance == Low
            then ops == Accepted(o, es) + r.operations
            else ops == Accepted(o, es) && Run(o, es + [DoReport(r, now)]) == Run(o, es)
  {
    hide AddOperations;
    assert (es + [DoReport(r, now)])[..|es|] == es;
    assert Accepted(o, es) + [] == Accepted(o, es);
  }
}
