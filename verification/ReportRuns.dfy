/** Runs of the report aggregator: what is sent for a signature is what was accepted for it, in groups. */
module ReportRuns {
  import opened Lists
  import opened Proto
  import opened Signature
  import opened Operations
  import opened DeltaAlgebra
  import opened MergeAlgebra
  import opened CacheModel
  import opened CacheCells
  import opened RemovedItems
  import opened ReportModel

  datatype Event =
    | DoReport(request: ReportRequest, now: int)
    | DoFlush(now: int)
    | DoFlushAll(ks: seq<string>, now: int)

  function Step(o: Options, s: Reports, e: Event): Reports {
    match e
    case DoReport(request, now) => Report(o, s, request, now)
    case DoFlush(now) => Fetched(o, s, now)
    case DoFlushAll(ks, now) => RemoveEach(ConfigOf(o), s, ks, now)
  }

  function Run(o: Options, es: seq<Event>): Reports {
    if es == [] then State([], [], [], [], []) else Step(o, Run(o, es[..|es| - 1]), es[|es| - 1])
  }

  /** `FlushAll` visits every key of the table. */
  ghost predicate Legal(o: Options, es: seq<Event>) {
    es != [] ==>
      && Legal(o, es[..|es| - 1])
      && (es[|es| - 1].DoFlushAll? ==> Covers(Run(o, es[..|es| - 1]), es[|es| - 1].ks))
  }

  // ----- What a run should do, read off the calls -----

  /** The operations of all accepted requests, in order. */
  function Accepted(o: Options, es: seq<Event>): seq<Operation> {
    if es == [] then []
    else
      var e := es[|es| - 1];
      Accepted(o, es[..|es| - 1]) + if e.DoReport? && CodeOf(o, e.request) == Ok then e.request.operations else []
  }

  /** The operations with a signature. */
  function For(ops: seq<Operation>, k: string): seq<Operation> {
    if ops == [] then []
    else
      var init, op := For(ops[..|ops| - 1], k), ops[|ops| - 1];
      if ReportSignature(op) == k then init + [op] else init
  }

  type Groups = seq<seq<Operation>>
  type ReportCell = Cell<Aggregate, ReportRequest>

  /** The operation is added to the last group. */
  function Joined(gs: Groups, op: Operation): Groups {
    if gs == [] then [[op]] else gs[|gs| - 1 := gs[|gs| - 1] + [op]]
  }

  /** The groups after one more operation of an accepted request. */
  function GroupsAfter(o: Options, s: Reports, op: Operation, now: int, k: string, gs: Groups): Groups {
    var x, y := CellAt(s, KeyOf, k), CellAt(Fetched(o, s, now), KeyOf, k);
    var g := Regrouped(gs, x, y);
    Regrouped(if ReportSignature(op) == k then Joined(g, op) else g, y, CellAt(AddOperation(o, s, op, now), KeyOf, k))
  }

  function GroupsAfterAll(o: Options, s: Reports, ops: seq<Operation>, now: int, k: string, gs: Groups): Groups {
    if ops == [] then gs
    else
      var init, op := ops[..|ops| - 1], ops[|ops| - 1];
      GroupsAfter(o, AddOperations(o, s, init, now), op, now, k, GroupsAfterAll(o, s, init, now, k, gs))
  }

  /**
   * The accepted operations with a signature, in groups: one for each aggregate that has left the cache, and a last one
   * for the present or next aggregate.
   */
  function GroupsOf(o: Options, es: seq<Event>, k: string): Groups {
    if es == [] then [[]]
    else
      var s, gs, e := Run(o, es[..|es| - 1]), GroupsOf(o, es[..|es| - 1], k), es[|es| - 1];
      match e
      case DoReport(r, now) => if CodeOf(o, r) == Ok then GroupsAfterAll(o, s, r.operations, now, k, gs) else gs
      case _ => Regrouped(gs, CellAt(s, KeyOf, k), CellAt(Run(o, es), KeyOf, k))
  }

  /** The requests that groups become. */
  function RequestsOf(o: Options, gs: Groups): seq<ReportRequest> {
    if gs == [] then []
    else
      var init, g := RequestsOf(o, gs[..|gs| - 1]), gs[|gs| - 1];
      if g == [] then init else init + [RequestOf(o, AggregateOf(o.kinds, g))]
  }

  /** More than one operation was merged only while there were fewer than a hundred log entries. */
  predicate Small(g: seq<Operation>) { |g| > 1 ==> |LogsOf(g)| < MAX_LOG_ENTRIES }

  /** What may leave the cache: operations of which all but the last were small together. */
  predicate Ripe(g: seq<Operation>) { g != [] && Small(g[..|g| - 1]) }

  // ----- One cell -----

  /** A cell, and the groups that its history says. */
  ghost predicate Fits(o: Options, k: string, x: ReportCell, gs: Groups) {
    && |gs| == |x.gone| + 1
    && x.sent == RequestsOf(o, gs[..|x.gone|])
    && (forall i :: 0 <= i < |x.gone| ==> Ripe(gs[i]))
    && Holds(o, k, x.value, gs[|x.gone|])
  }

  /** The last group is what is cached. */
  ghost predicate Holds(o: Options, k: string, v: Option<Aggregate>, g: seq<Operation>) {
    match v
    case None => g == []
    case Some(a) => Ripe(g) && a == AggregateOf(o.kinds, g) && ReportSignature(a.operation) == k
  }

  ghost predicate Sound(o: Options, k: string, x: ReportCell, gs: Groups) {
    Fits(o, k, x, gs) && Small(gs[|gs| - 1])
  }

  /** The next call may have retired the cell. */
  ghost predicate Moved(o: Options, x: ReportCell, y: ReportCell, now: int) {
    y == x || y == Retired(ConfigOf(o), x, now)
  }

  lemma RequestBears(o: Options, k: string, a: Aggregate, now: int)
    requires ReportSignature(a.operation) == k
    ensures Bears(ConfigOf(o), k, a, KeyOf, now)
  {
  }

  lemma RetiredParts(o: Options, x: ReportCell, now: int)
    ensures var y := Retired(ConfigOf(o), x, now);
            match x.value
            case None => y == x
            case Some(a) => y.value.None? && y.gone == x.gone + [a] && y.sent == x.sent + [RequestOf(o, a)]
  {
  }

  lemma RequestsSnoc(o: Options, gs: Groups, g: seq<Operation>)
    ensures RequestsOf(o, gs + [g])
         == if g == [] then RequestsOf(o, gs) else RequestsOf(o, gs) + [RequestOf(o, AggregateOf(o.kinds, g))]
  {
    assert (gs + [g])[..|gs|] == gs;
  }

  /** What leaves the cache is sent, and its group is closed. */
  lemma FitsRetired(o: Options, k: string, x: ReportCell, gs: Groups, now: int)
    requires Fits(o, k, x, gs) && x.value.Some?
    ensures var y := Retired(ConfigOf(o), x, now);
            Sound(o, k, y, gs + [[]]) && |y.gone| > |x.gone| && y.value.None?
  {
    hide RequestsOf, Retired, ConfigOf, RequestOf, AggregateOf, ReportSignature, LogsOf;
    var n := |x.gone|;
    RetiredParts(o, x, now);
    RequestsSnoc(o, gs[..n], gs[n]);
    assert gs[..n] + [gs[n]] == gs && (gs + [[]])[..n + 1] == gs;
  }

  lemma MovedKept(o: Options, k: string, x: ReportCell, y: ReportCell, gs: Groups, now: int)
    requires Sound(o, k, x, gs) && Moved(o, x, y, now)
    ensures Sound(o, k, y, Regrouped(gs, x, y))
  {
    hide Fits, Retired, Small;
    RetiredParts(o, x, now);
    if y != x {
      FitsRetired(o, k, x, gs, now);
    }
  }

  /** What the next operation makes of a cached aggregate. */
  function NextOf(o: Options, v: Option<Aggregate>, op: Operation): Aggregate {
    match v case None => Start(o.kinds, op) case Some(a) => Merge(o.kinds, a, op)
  }

  lemma NextAggregate(o: Options, k: string, v: Option<Aggregate>, g: seq<Operation>, op: Operation)
    requires Holds(o, k, v, g) && Small(g) && ReportSignature(op) == k
    ensures Holds(o, k, Some(NextOf(o, v, op)), g + [op])
    ensures TooBig(NextOf(o, v, op)) <==> |LogsOf(g + [op])| >= MAX_LOG_ENTRIES
  {
    hide MergeSets, LabelFields, Small, LogsOf;
    assert (g + [op])[..|g|] == g;
    AggregateLogs(o.kinds, g + [op]);
  }

  lemma FitsJoined(o: Options, k: string, x: ReportCell, gs: Groups, op: Operation, since: int)
    requires Sound(o, k, x, gs) && ReportSignature(op) == k
    ensures var a := NextOf(o, x.value, op);
            Fits(o, k, x.(value := Some(a), since := since), Joined(gs, op))
                && (!TooBig(a) ==> Small(Joined(gs, op)[|gs| - 1]))
    ensures x.value.None? ==> Small(Joined(gs, op)[|gs| - 1])
  {
    hide RequestsOf, Holds, Ripe, LogsOf, NextOf;
    var n := |x.gone|;
    NextAggregate(o, k, x.value, gs[n], op);
    NoneHeld(o, k, x.value, gs[n]);
    assert Joined(gs, op)[..n] == gs[..n];
  }

  lemma NoneHeld(o: Options, k: string, v: Option<Aggregate>, g: seq<Operation>)
    requires Holds(o, k, v, g)
    ensures v.None? <==> g == []
  {
  }

  // ----- Every cell -----

  ghost predicate Books(o: Options, s: Reports, gs: string -> Groups) {
    Idle(ConfigOf(o), s) && forall k :: Sound(o, k, CellAt(s, KeyOf, k), gs(k))
  }

  lemma KeptSignature(o: Options, k: string, x: ReportCell, gs: Groups)
    requires Sound(o, k, x, gs) && x.value.Some?
    ensures ReportSignature(x.value.value.operation) == k
  {
    hide RequestsOf, ReportSignature, AggregateOf;
  }

  lemma BooksParts(o: Options, s: Reports, gs: string -> Groups, now: int)
    requires Books(o, s, gs)
    ensures Idle(ConfigOf(o), s) && AllBear(ConfigOf(o), s.order, KeyOf, now) && !ConfigOf(o).reentrant
    ensures forall k :: Sound(o, k, CellAt(s, KeyOf, k), gs(k))
  {
    hide Sound, Idle, ReportSignature, Bears, ToProto;
    forall k | ValueAt(s.order, k).Some? ensures Bears(ConfigOf(o), k, ValueAt(s.order, k).value, KeyOf, now) {
      assert Sound(o, k, CellAt(s, KeyOf, k), gs(k));
      KeptSignature(o, k, CellAt(s, KeyOf, k), gs(k));
      RequestBears(o, k, ValueAt(s.order, k).value, now);
    }
  }

  lemma BooksIntro(o: Options, s: Reports, gs: string -> Groups)
    requires Idle(ConfigOf(o), s) && forall k :: Sound(o, k, CellAt(s, KeyOf, k), gs(k))
    ensures Books(o, s, gs)
  {
  }

  /** The groups after a call that retires some of the aggregates. */
  function GroupsMoved(s: Reports, t: Reports, gs: string -> Groups): string -> Groups {
    (k: string) => Regrouped(gs(k), CellAt(s, KeyOf, k), CellAt(t, KeyOf, k))
  }

  lemma MovedIs(s: Reports, t: Reports, gs: string -> Groups, k: string)
    ensures GroupsMoved(s, t, gs)(k) == Regrouped(gs(k), CellAt(s, KeyOf, k), CellAt(t, KeyOf, k))
  {
  }

  lemma MovedIntro(o: Options, x: ReportCell, y: ReportCell, now: int)
    requires y == x || y == Retired(ConfigOf(o), x, now)
    ensures Moved(o, x, y, now)
  {
  }

  lemma FetchedIs(o: Options, s: Reports, now: int)
    ensures Fetched(o, s, now) == RemoveExpired(ConfigOf(o), s, now)
  {
  }

  /** Expiry. */
  lemma FetchedKept(o: Options, s: Reports, gs: string -> Groups, now: int)
    requires Books(o, s, gs)
    ensures Books(o, Fetched(o, s, now), GroupsMoved(s, Fetched(o, s, now), gs))
  {
    hide *;
    var c, t := ConfigOf(o), Fetched(o, s, now);
    BooksParts(o, s, gs, now);
    FetchedIs(o, s, now);
    RemoveExpiredCell(c, s, KeyOf, "", now);
    forall k ensures Sound(o, k, CellAt(t, KeyOf, k), GroupsMoved(s, t, gs)(k)) {
      RemoveExpiredCell(c, s, KeyOf, k, now);
      MovedIntro(o, CellAt(s, KeyOf, k), CellAt(t, KeyOf, k), now);
      MovedKept(o, k, CellAt(s, KeyOf, k), CellAt(t, KeyOf, k), gs(k), now);
      MovedIs(s, t, gs, k);
    }
    BooksIntro(o, t, GroupsMoved(s, t, gs));
  }

  lemma FlushAllKept(o: Options, s: Reports, gs: string -> Groups, ks: seq<string>, now: int)
    requires Books(o, s, gs) && Covers(s, ks)
    ensures var t := RemoveEach(ConfigOf(o), s, ks, now); Books(o, t, GroupsMoved(s, t, gs)) && t.order == []
  {
    hide *;
    var c := ConfigOf(o);
    var t := RemoveEach(c, s, ks, now);
    BooksParts(o, s, gs, now);
    CoversParts(s, ks);
    RemoveAllCell(c, s, ks, KeyOf, "", now);
    forall k ensures Sound(o, k, CellAt(t, KeyOf, k), GroupsMoved(s, t, gs)(k)) {
      RemoveAllCell(c, s, ks, KeyOf, k, now);
      MovedIntro(o, CellAt(s, KeyOf, k), CellAt(t, KeyOf, k), now);
      MovedKept(o, k, CellAt(s, KeyOf, k), CellAt(t, KeyOf, k), gs(k), now);
      MovedIs(s, t, gs, k);
    }
    BooksIntro(o, t, GroupsMoved(s, t, gs));
  }

  lemma CoversParts(s: Reports, ks: seq<string>)
    requires Covers(s, ks)
    ensures forall k :: EntryAt(s.order, k).Some? ==> k in ks
  {
  }

  lemma CellEntry(s: Reports, k: string)
    ensures CellAt(s, KeyOf, k).value == ValueAt(s.order, k)
    ensures ValueAt(s.order, k).Some? <==> EntryAt(s.order, k).Some?
  {
  }

  lemma AddIs(o: Options, s: Reports, op: Operation, now: int)
    ensures var c, k, t := ConfigOf(o), ReportSignature(op), Fetched(o, s, now);
            && (EntryAt(t.order, k).None? ==> AddOperation(o, s, op, now) == Put(c, t, k, Start(o.kinds, op), now))
            && (EntryAt(t.order, k).Some? ==>
                  && ValueAt(t.order, k).Some?
                  && var m := Operations.Merge(o.kinds, ValueAt(t.order, k).value, op);
                     var u := Used(c, t, k, m, now);
                     AddOperation(o, s, op, now) == if TooBig(m) then Remove(c, u, k, now) else u)
  {
    hide Fetched, ReportSignature, Put, Used, Operations.Merge, Start, Remove, TooBig;
  }

  /**
   * One operation is added to the cell `y`, which becomes `z`: the aggregate is replaced, and retired if it is too big.
   */
  ghost predicate Added(o: Options, y: ReportCell, z: ReportCell, op: Operation, now: int) {
    var a := NextOf(o, y.value, op);
    var x := y.(value := Some(a), since := if y.value.None? then now else y.since);
    z == if y.value.Some? && TooBig(a) then Retired(ConfigOf(o), x, now) else x
  }

  lemma AddedKept(o: Options, k: string, y: ReportCell, z: ReportCell, gs: Groups, op: Operation, now: int)
    requires Sound(o, k, y, gs) && ReportSignature(op) == k && Added(o, y, z, op, now)
    ensures Sound(o, k, z, Regrouped(Joined(gs, op), y, z))
  {
    hide Fits, Retired, Small, NextOf, TooBig, RequestOf, ReportSignature;
    var a := NextOf(o, y.value, op);
    var x := y.(value := Some(a), since := if y.value.None? then now else y.since);
    KeptParts(o, k, y, gs);
    FitsJoined(o, k, y, gs, op, x.since);
    LastJoined(gs, op);
    if y.value.Some? && TooBig(a) {
      FitsRetired(o, k, x, Joined(gs, op), now);
      assert z == Retired(ConfigOf(o), x, now);
    } else {
      assert z == x && Small(Joined(gs, op)[|gs| - 1]);
      assert Sound(o, k, x, Joined(gs, op));
    }
  }

  lemma KeptParts(o: Options, k: string, x: ReportCell, gs: Groups)
    requires Sound(o, k, x, gs)
    ensures |gs| == |x.gone| + 1
  {
  }

  lemma LastJoined(gs: Groups, op: Operation)
    requires gs != []
    ensures |Joined(gs, op)| == |gs|
  {
  }

  /** The groups after one more operation. */
  function GroupsAdded(o: Options, s: Reports, op: Operation, now: int, gs: string -> Groups): string -> Groups {
    (k: string) => GroupsAfter(o, s, op, now, k, gs(k))
  }

  lemma AddedIs(o: Options, s: Reports, op: Operation, now: int, gs: string -> Groups, k: string)
    ensures var t, u := Fetched(o, s, now), AddOperation(o, s, op, now);
            var g := GroupsMoved(s, t, gs)(k);
            GroupsAdded(o, s, op, now, gs)(k)
            == Regrouped(if ReportSignature(op) == k then Joined(g, op) else g,
                         CellAt(t, KeyOf, k), CellAt(u, KeyOf, k))
  {
    hide Fetched, AddOperation, ReportSignature;
    MovedIs(s, Fetched(o, s, now), gs, k);
  }

  /**
   * One operation: merged, or inserted with an eviction where the cache is full, or flushed when the aggregate is too
   * big.
   */
  lemma AddCell(o: Options, s: Reports, op: Operation, now: int, gs: string -> Groups, k: string)
    requires Books(o, s, gs)
    ensures var y, z := CellAt(Fetched(o, s, now), KeyOf, k), CellAt(AddOperation(o, s, op, now), KeyOf, k);
            if k == ReportSignature(op) then Added(o, y, z, op, now) else Moved(o, y, z, now)
    ensures Idle(ConfigOf(o), AddOperation(o, s, op, now))
  {
    hide *;
    var c, j, t := ConfigOf(o), ReportSignature(op), Fetched(o, s, now);
    var hs := GroupsMoved(s, t, gs);
    FetchedKept(o, s, gs, now);
    BooksParts(o, t, hs, now);
    AddIs(o, s, op, now);
    IdleUnique(c, t);
    AllBearTagged(c, t.order, KeyOf, now, now);
    CellEntry(t, j);
    AgeMode(o);
    NextIs(o, CellAt(t, KeyOf, j), op);
    if EntryAt(t.order, j).None? {
      MayPutIntro(o, t, j);
      PutCell(c, t, j, Start(o.kinds, op), KeyOf, k, now);
      if k == j {
        AddedIntro(o, CellAt(t, KeyOf, k), op, now);
      } else {
        MovedIntro(o, CellAt(t, KeyOf, k), CellAt(AddOperation(o, s, op, now), KeyOf, k), now);
      }
    } else {
      var m := Operations.Merge(o.kinds, ValueAt(t.order, j).value, op);
      var u := Used(c, t, j, m, now);
      UsedCell(c, t, j, m, KeyOf, j, now);
      UsedCell(c, t, j, m, KeyOf, k, now);
      NextAggregate(o, j, CellAt(t, KeyOf, j).value, Newest(hs(j)), op) by {
        HeldBy(o, j, CellAt(t, KeyOf, j), hs(j));
      }
      HeldSignature(o, j, m, Newest(hs(j)) + [op]);
      CellEntry(u, j);
      RequestBears(o, j, m, now);
      StoredBears(o, u, j, m, now);
      RemoveCell(c, u, j, KeyOf, k, now);
      if k == j {
        AddedIntro(o, CellAt(t, KeyOf, k), op, now);
      } else {
        MovedIntro(o, CellAt(t, KeyOf, k), CellAt(AddOperation(o, s, op, now), KeyOf, k), now);
      }
    }
  }

  lemma AgeMode(o: Options)
    ensures !ConfigOf(o).lru
  {
  }

  function Newest(gs: Groups): seq<Operation> { if gs == [] then [] else gs[|gs| - 1] }

  lemma HeldBy(o: Options, k: string, x: ReportCell, gs: Groups)
    requires Sound(o, k, x, gs)
    ensures Holds(o, k, x.value, Newest(gs)) && Small(Newest(gs))
  {
    hide Holds, Small, RequestsOf, Ripe;
  }

  lemma HeldSignature(o: Options, k: string, a: Aggregate, g: seq<Operation>)
    requires Holds(o, k, Some(a), g)
    ensures ReportSignature(a.operation) == k
  {
  }

  lemma NextIs(o: Options, y: ReportCell, op: Operation)
    ensures NextOf(o, y.value, op) == match y.value
                                      case None => Start(o.kinds, op)
                                      case Some(a) => Operations.Merge(o.kinds, a, op)
  {
  }

  lemma AddedIntro(o: Options, y: ReportCell, op: Operation, now: int)
    ensures var a := NextOf(o, y.value, op);
            var x := y.(value := Some(a), since := if y.value.None? then now else y.since);
            Added(o, y, if y.value.Some? && TooBig(a) then Retired(ConfigOf(o), x, now) else x, op, now)
  {
  }

  lemma MayPutIntro(o: Options, t: Reports, k: string)
    requires Idle(ConfigOf(o), t) && EntryAt(t.order, k).None?
    ensures MayPut(ConfigOf(o), t, k)
  {
  }

  lemma StoredBears(o: Options, u: Reports, k: string, m: Aggregate, now: int)
    requires ValueAt(u.order, k) == Some(m) && Bears(ConfigOf(o), k, m, KeyOf, now)
    ensures EntryAt(u.order, k).Some? ==> Bears(ConfigOf(o), k, EntryAt(u.order, k).value.value, KeyOf, now)
  {
  }

  lemma AddKept(o: Options, s: Reports, gs: string -> Groups, op: Operation, now: int)
    requires Books(o, s, gs)
    ensures Books(o, AddOperation(o, s, op, now), GroupsAdded(o, s, op, now, gs))
  {
    hide *;
    var t, u := Fetched(o, s, now), AddOperation(o, s, op, now);
    var hs := GroupsMoved(s, t, gs);
    FetchedKept(o, s, gs, now);
    BooksParts(o, t, hs, now);
    AddCell(o, s, op, now, gs, "");
    forall k ensures Sound(o, k, CellAt(u, KeyOf, k), GroupsAdded(o, s, op, now, gs)(k)) {
      AddCell(o, s, op, now, gs, k);
      AddedIs(o, s, op, now, gs, k);
      if k == ReportSignature(op) {
        AddedKept(o, k, CellAt(t, KeyOf, k), CellAt(u, KeyOf, k), hs(k), op, now);
      } else {
        MovedKept(o, k, CellAt(t, KeyOf, k), CellAt(u, KeyOf, k), hs(k), now);
      }
    }
    BooksIntro(o, u, GroupsAdded(o, s, op, now, gs));
  }

  /** The groups after the operations of an accepted request. */
  function GroupsAddedAll(o: Options, s: Reports, ops: seq<Operation>, now: int, gs: string -> Groups): string -> Groups
  {
    (k: string) => GroupsAfterAll(o, s, ops, now, k, gs(k))
  }

  lemma SameBooks(o: Options, s: Reports, gs: string -> Groups, hs: string -> Groups)
    requires Books(o, s, gs) && forall k :: gs(k) == hs(k)
    ensures Books(o, s, hs)
  {
    hide Idle, Sound;
  }

  lemma AddedAllIs(o: Options, s: Reports, ops: seq<Operation>, now: int, gs: string -> Groups, k: string)
    requires ops != []
    ensures var init, op := ops[..|ops| - 1], ops[|ops| - 1];
            GroupsAddedAll(o, s, ops, now, gs)(k)
            == GroupsAdded(o, AddOperations(o, s, init, now), op, now, GroupsAddedAll(o, s, init, now, gs))(k)
  {
    var init, op := ops[..|ops| - 1], ops[|ops| - 1];
    assert GroupsAfterAll(o, s, ops, now, k, gs(k))
        == GroupsAfter(o, AddOperations(o, s, init, now), op, now, k, GroupsAfterAll(o, s, init, now, k, gs(k)));
    assert GroupsAddedAll(o, s, init, now, gs)(k) == GroupsAfterAll(o, s, init, now, k, gs(k));
    hide GroupsAfter, GroupsAfterAll, AddOperations;
  }

  lemma {:induction false} AddAllKept(o: Options, s: Reports, gs: string -> Groups, ops: seq<Operation>, now: int)
    requires Books(o, s, gs)
    ensures Books(o, AddOperations(o, s, ops, now), GroupsAddedAll(o, s, ops, now, gs))
    decreases |ops|
  {
    hide Books, AddOperation, GroupsAfter;
    if ops == [] {
      SameBooks(o, s, gs, GroupsAddedAll(o, s, ops, now, gs));
    } else {
      var init, op := ops[..|ops| - 1], ops[|ops| - 1];
      var t, hs := AddOperations(o, s, init, now), GroupsAddedAll(o, s, init, now, gs);
      AddAllKept(o, s, gs, init, now);
      AddKept(o, t, hs, op, now);
      forall k ensures GroupsAdded(o, t, op, now, hs)(k) == GroupsAddedAll(o, s, ops, now, gs)(k) {
        AddedAllIs(o, s, ops, now, gs, k);
      }
      SameBooks(o, AddOperation(o, t, op, now), GroupsAdded(o, t, op, now, hs), GroupsAddedAll(o, s, ops, now, gs));
    }
  }

  function GroupsAt(o: Options, es: seq<Event>): string -> Groups { (k: string) => GroupsOf(o, es, k) }

  lemma NothingYet(o: Options)
    requires o.entries > 0
    ensures Books(o, State([], [], [], [], []), GroupsAt(o, []))
  {
    hide ReportSignature;
    forall k ensures Sound(o, k, CellAt(State([], [], [], [], []), KeyOf, k), GroupsOf(o, [], k)) {
      assert GroupsOf(o, [], k)[..0] == [];
    }
  }

  /** The last call. */
  lemma RunIs(o: Options, es: seq<Event>)
    requires es != [] && Legal(o, es)
    ensures var s, t, e := Run(o, es[..|es| - 1]), Run(o, es), es[|es| - 1];
            && Legal(o, es[..|es| - 1])
            && (e.DoReport? ==> t == if CodeOf(o, e.request) == Ok then
                 AddOperations(o, s, e.request.operations, e.now) else s)
            && (e.DoFlush? ==> t == Fetched(o, s, e.now))
            && (e.DoFlushAll? ==> t == RemoveEach(ConfigOf(o), s, e.ks, e.now) && Covers(s, e.ks))
  {
    hide AddOperations, Fetched, RemoveEach, CodeOf, Covers;
  }

  lemma GroupsAre(o: Options, es: seq<Event>, k: string)
    requires es != []
    ensures GroupsAt(o, es)(k) == GroupsNext(o, es, k)
  {
    hide Run, CodeOf, CellAt;
  }

  /** The groups after the last call. */
  function GroupsNext(o: Options, es: seq<Event>, k: string): Groups
    requires es != []
  {
    var s, gs, e := Run(o, es[..|es| - 1]), GroupsAt(o, es[..|es| - 1]), es[|es| - 1];
    if !e.DoReport? then GroupsMoved(s, Run(o, es), gs)(k)
    else if CodeOf(o, e.request) == Ok then GroupsAddedAll(o, s, e.request.operations, e.now, gs)(k)
    else gs(k)
  }

  lemma GroupsNextIs(o: Options, es: seq<Event>, k: string)
    requires es != []
    ensures var s, gs, e := Run(o, es[..|es| - 1]), GroupsAt(o, es[..|es| - 1]), es[|es| - 1];
            && (!e.DoReport? ==> GroupsNext(o, es, k) == GroupsMoved(s, Run(o, es), gs)(k))
            && (e.DoReport? && CodeOf(o, e.request) == Ok ==>
                  GroupsNext(o, es, k) == GroupsAddedAll(o, s, e.request.operations, e.now, gs)(k))
            && (e.DoReport? && CodeOf(o, e.request) != Ok ==> GroupsNext(o, es, k) == gs(k))
  {
    hide Run, CodeOf, CellAt, GroupsMoved, GroupsAddedAll, GroupsAt;
  }

  lemma {:induction false} EveryRunKeepsBooks(o: Options, es: seq<Event>)
    requires o.entries > 0 && Legal(o, es)
    ensures Books(o, Run(o, es), GroupsAt(o, es))
    ensures es != [] && es[|es| - 1].DoFlushAll? ==> Run(o, es).order == []
  {
    hide *;
    if es == [] {
      NothingYet(o);
      NoRun(o, es);
    } else {
      var init, e := es[..|es| - 1], es[|es| - 1];
      var s, gs, hs := Run(o, init), GroupsAt(o, init), GroupsAt(o, es);
      RunIs(o, es);
      EveryRunKeepsBooks(o, init);
      forall k ensures hs(k) == GroupsNext(o, es, k) {
        GroupsAre(o, es, k);
      }
      match e {
        case DoReport(r, now) =>
          if CodeOf(o, r) == Ok {
            AddAllKept(o, s, gs, r.operations, now);
            NextBooks(o, es, GroupsAddedAll(o, s, r.operations, now, gs));
          } else {
            NextBooks(o, es, gs);
          }
        case DoFlush(now) =>
          FetchedKept(o, s, gs, now);
          NextBooks(o, es, GroupsMoved(s, Run(o, es), gs));
        case DoFlushAll(ks, now) =>
          FlushAllKept(o, s, gs, ks, now);
          NextBooks(o, es, GroupsMoved(s, Run(o, es), gs));
      }
    }
  }

  lemma NextBooks(o: Options, es: seq<Event>, gs: string -> Groups)
    requires es != [] && Books(o, Run(o, es), gs) && forall k :: GroupsAt(o, es)(k) == GroupsNext(o, es, k)
    requires var s, hs, e := Run(o, es[..|es| - 1]), GroupsAt(o, es[..|es| - 1]), es[|es| - 1];
             && (!e.DoReport? ==> gs == GroupsMoved(s, Run(o, es), hs))
             && (e.DoReport? && CodeOf(o, e.request) == Ok ==>
                  gs == GroupsAddedAll(o, s, e.request.operations, e.now, hs))
             && (e.DoReport? && CodeOf(o, e.request) != Ok ==> gs == hs)
    ensures Books(o, Run(o, es), GroupsAt(o, es))
  {
    hide *;
    forall k ensures gs(k) == GroupsAt(o, es)(k) {
      GroupsNextIs(o, es, k);
    }
    SameBooks(o, Run(o, es), gs, GroupsAt(o, es));
  }

  lemma NoRun(o: Options, es: seq<Event>)
    requires es == []
    ensures Run(o, es) == State([], [], [], [], []) && GroupsAt(o, es) == GroupsAt(o, [])
  {
  }

  // ----- Results -----

  /** The requests sent for operations with a signature. */
  function SentFor(o: Options, es: seq<Event>, k: string): seq<ReportRequest> { SentAt(Run(o, es).removed, KeyOf, k) }

  /** The aggregate cached under a signature. */
  function HeldFor(o: Options, es: seq<Event>, k: string): Option<Aggregate> { ValueAt(Run(o, es).order, k) }

  lemma RunFits(o: Options, es: seq<Event>, k: string) returns (x: ReportCell)
    requires o.entries > 0 && Legal(o, es)
    ensures x.sent == SentFor(o, es, k) && x.value == HeldFor(o, es, k) && Sound(o, k, x, GroupsOf(o, es, k))
    ensures es != [] && es[|es| - 1].DoFlushAll? ==> x.value.None?
  {
    hide Legal, Run, GroupsOf, Sound, Idle, SentAt, GoneAt, ReportSignature;
    EveryRunKeepsBooks(o, es);
    x := CellAt(Run(o, es), KeyOf, k);
    assert Sound(o, k, x, GroupsAt(o, es)(k));
  }

  lemma GroupsSent(o: Options, es: seq<Event>, k: string)
    requires o.entries > 0 && Legal(o, es)
    ensures var gs := GroupsOf(o, es, k);
            && |gs| > 0 && SentFor(o, es, k) == RequestsOf(o, gs[..|gs| - 1])
            && (forall i :: 0 <= i < |gs| - 1 ==> gs[i] != [])
            && HeldFor(o, es, k) == (if gs[|gs| - 1] == [] then None else Some(AggregateOf(o.kinds, gs[|gs| - 1])))
            && (es != [] && es[|es| - 1].DoFlushAll? ==> gs[|gs| - 1] == [])
  {
    hide Legal, GroupsOf, SentFor, HeldFor, RequestsOf, LogsOf, ReportSignature;
    var x := RunFits(o, es, k);
  }

  /** A request of this service with one operation, what the group adds up to. */
  ghost predicate Carries(o: Options, r: ReportRequest, g: seq<Operation>) {
    && r.service == o.service && r.configId == o.configId
    && |r.operations| == 1 && SumsUp(r.operations[0], o.kinds, g)
  }

  lemma RequestReports(o: Options, g: seq<Operation>)
    requires g != []
    ensures Carries(o, RequestOf(o, AggregateOf(o.kinds, g)), g)
  {
    hide SumsUp, ToProto, AggregateOf;
    AggregateSumsUp(o.kinds, g);
  }

  lemma {:induction false} RequestsReport(o: Options, gs: Groups)
    requires forall i :: 0 <= i < |gs| ==> gs[i] != []
    ensures |RequestsOf(o, gs)| == |gs|
    ensures forall i :: 0 <= i < |gs| ==> Carries(o, RequestsOf(o, gs)[i], gs[i])
  {
    hide Carries, RequestOf, AggregateOf;
    if gs != [] {
      RequestsReport(o, gs[..|gs| - 1]);
      RequestReports(o, gs[|gs| - 1]);
    }
  }

  /**
   * The accepted operations with a signature fall into groups. Each group but the last was sent, in order, as a request
   * of one operation, what the group adds up to; the last one is cached, if it is not empty. `FlushAll` leaves nothing
   * cached.
   */
  lemma AggregatesAreSent(o: Options, es: seq<Event>, k: string)
    requires o.entries > 0 && Legal(o, es)
    ensures var gs, sent, v := GroupsOf(o, es, k), SentFor(o, es, k), HeldFor(o, es, k);
            && |sent| == |gs| - 1 && (forall i :: 0 <= i < |sent| ==> gs[i] != [] && Carries(o, sent[i], gs[i]))
            && (v.Some? <==> gs[|gs| - 1] != []) && (v.Some? ==> SumsUp(ToProto(v.value), o.kinds, gs[|gs| - 1]))
            && (es != [] && es[|es| - 1].DoFlushAll? ==> v.None?)
  {
    hide *;
    GroupsSent(o, es, k);
    var gs := GroupsOf(o, es, k);
    RequestsReport(o, gs[..|gs| - 1]);
    if gs[|gs| - 1] != [] {
      AggregateSumsUp(o.kinds, gs[|gs| - 1]);
    }
  }

  lemma FlatRegrouped(gs: Groups, x: ReportCell, y: ReportCell)
    ensures Flat(Regrouped(gs, x, y)) == Flat(gs)
  {
    assert (gs + [[]])[..|gs|] == gs;
  }

  lemma FlatJoined(gs: Groups, op: Operation)
    ensures Flat(Joined(gs, op)) == Flat(gs) + [op]
  {
    if gs == [] {
      assert [[op]][..0] == [];
    } else {
      assert Joined(gs, op)[..|gs| - 1] == gs[..|gs| - 1];
    }
  }

  lemma ForSnoc(ops: seq<Operation>, op: Operation, k: string)
    ensures For(ops + [op], k) == For(ops, k) + if ReportSignature(op) == k then [op] else []
  {
    assert (ops + [op])[..|ops|] == ops;
  }

  lemma {:induction false} FlatAfterAll(o: Options, s: Reports, more: seq<Operation>, now: int, k: string, gs: Groups,
                                        ops: seq<Operation>)
    requires Flat(gs) == For(ops, k)
    ensures Flat(GroupsAfterAll(o, s, more, now, k, gs)) == For(ops + more, k)
    decreases |more|
  {
    hide Flat, For, Regrouped, Joined, Fetched, AddOperation, AddOperations, CellAt, ReportSignature;
    if more == [] {
      assert ops + more == ops;
    } else {
      var init, op := more[..|more| - 1], more[|more| - 1];
      var t, hs := AddOperations(o, s, init, now), GroupsAfterAll(o, s, init, now, k, gs);
      FlatAfterAll(o, s, init, now, k, gs, ops);
      assert ops + more == (ops + init) + [op];
      ForSnoc(ops + init, op, k);
      var x, y, z := CellAt(t, KeyOf, k), CellAt(Fetched(o, t, now), KeyOf, k),
          CellAt(AddOperation(o, t, op, now), KeyOf, k);
      var g := Regrouped(hs, x, y);
      FlatRegrouped(hs, x, y);
      FlatJoined(g, op);
      FlatRegrouped(if ReportSignature(op) == k then Joined(g, op) else g, y, z);
      assert For(ops + init, k) + [] == For(ops + init, k);
    }
  }

  /** The groups are the accepted operations with the signature, cut into lives. */
  lemma {:induction false} GroupsPartition(o: Options, es: seq<Event>, k: string)
    ensures Flat(GroupsOf(o, es, k)) == For(Accepted(o, es), k)
  {
    hide Flat, For, Regrouped, GroupsAfterAll, CodeOf, CellAt, Step;
    if es == [] {
      NoGroups(k);
    } else {
      var init, e := es[..|es| - 1], es[|es| - 1];
      GroupsPartition(o, init, k);
      assert Accepted(o, init) + [] == Accepted(o, init);
      if e.DoReport? {
        FlatAfterAll(o, Run(o, init), e.request.operations, e.now, k, GroupsOf(o, init, k), Accepted(o, init));
      } else {
        FlatRegrouped(GroupsOf(o, init, k), CellAt(Run(o, init), KeyOf, k), CellAt(Run(o, es), KeyOf, k));
      }
    }
  }

  lemma NoGroups(k: string)
    ensures Flat<Operation>([[]]) == [] && For([], k) == []
  {
    var gs: Groups := [[]];
    assert gs[..0] == [];
  }

  // ----- Log entries -----

  /** The log entries of requests of one operation. */
  function LogsSent(rs: seq<ReportRequest>): seq<string> {
    if rs == [] then [] else LogsSent(rs[..|rs| - 1]) + Only(rs[|rs| - 1]).logs
  }

  /** The operation of a request that has one. */
  function Only(r: ReportRequest): Operation {
    if r.operations == [] then Operation("", "", "", None, None, map[], [], [], Low) else r.operations[0]
  }

  function LogsHeld(v: Option<Aggregate>): seq<string> { if v.Some? then v.value.operation.logs else [] }

  lemma SentSnoc(o: Options, rs: seq<ReportRequest>, a: Aggregate, name: string, sig: string)
    ensures var r := RequestOf(o, a);
            && LogsSent(rs + [r]) == LogsSent(rs) + a.operation.logs
            && IntsSent(rs + [r], name, sig) == IntsSent(rs, name, sig) + OperationInts(ToProto(a), name, sig)
  {
    var r := RequestOf(o, a);
    assert (rs + [r])[..|rs|] == rs;
    ToProtoOperation(a);
  }

  lemma {:induction false} LogsOfGroups(o: Options, gs: Groups)
    ensures LogsSent(RequestsOf(o, gs)) == LogsOf(Flat(gs))
  {
    hide LogsSent, LogsOf, RequestOf, AggregateOf;
    if gs == [] {
      NoLogs();
    } else {
      var init, g := gs[..|gs| - 1], gs[|gs| - 1];
      LogsOfGroups(o, init);
      LogsConcat(Flat(init), g);
      if g == [] {
        assert Flat(init) + [] == Flat(init);
      } else {
        SentSnoc(o, RequestsOf(o, init), AggregateOf(o.kinds, g), "", "");
        AggregateLogs(o.kinds, g);
      }
    }
  }

  lemma NoLogs()
    ensures LogsSent([]) == [] && LogsOf([]) == []
  {
  }

  /**
   * The accepted log entries of a signature are those that were sent, in the order sent, and then those still cached.
   */
  lemma LogsConserved(o: Options, es: seq<Event>, k: string)
    requires o.entries > 0 && Legal(o, es)
    ensures LogsOf(For(Accepted(o, es), k)) == LogsSent(SentFor(o, es, k)) + LogsHeld(HeldFor(o, es, k))
  {
    hide Legal, Accepted, For, GroupsOf, SentFor, HeldFor, RequestsOf, LogsOf, LogsSent, AggregateOf;
    var gs := GroupsOf(o, es, k);
    GroupsSent(o, es, k);
    GroupsPartition(o, es, k);
    LogsOfGroups(o, gs[..|gs| - 1]);
    LogsConcat(Flat(gs[..|gs| - 1]), gs[|gs| - 1]);
    NoLogs();
    if gs[|gs| - 1] != [] {
      AggregateLogs(o.kinds, gs[|gs| - 1]);
    }
  }

  // ----- Sums -----

  /** The int64 sum of a metric in operations. */
  function IntsOf(ops: seq<Operation>, name: string, sig: string): int { Ints(AllValues(ops, name, sig)) }

  /** The same, of requests of one operation. */
  function IntsSent(rs: seq<ReportRequest>, name: string, sig: string): int {
    if rs == [] then 0 else IntsSent(rs[..|rs| - 1], name, sig) + OperationInts(Only(rs[|rs| - 1]), name, sig)
  }

  function IntsHeld(v: Option<Aggregate>, name: string, sig: string): int {
    if v.Some? then CellInt(CellOf(v.value.sets, name, sig)) else 0
  }

  /** All values of the metric are int64 deltas. */
  ghost predicate Matches(o: Options, ops: seq<Operation>, name: string, sig: string) {
    IsDelta(o.kinds, name) && forall op <- ops :: IntOperation(op, name, sig)
  }

  lemma IntsOfConcat(xs: seq<Operation>, ys: seq<Operation>, name: string, sig: string)
    ensures IntsOf(xs + ys, name, sig) == IntsOf(xs, name, sig) + IntsOf(ys, name, sig)
    ensures IntsOf([], name, sig) == 0
  {
    hide ValuesFor;
    AllValuesConcat(xs, ys, name, sig);
    SumsConcat(AllValues(xs, name, sig), AllValues(ys, name, sig));
  }

  lemma MatchesParts(o: Options, xs: seq<Operation>, ys: seq<Operation>, name: string, sig: string)
    requires Matches(o, xs + ys, name, sig)
    ensures Matches(o, xs, name, sig) && Matches(o, ys, name, sig)
  {
    hide IntOperation;
    assert (forall op <- xs :: op in xs + ys) && forall op <- ys :: op in xs + ys;
  }

  lemma GroupInts(o: Options, g: seq<Operation>, name: string, sig: string)
    requires g != [] && Matches(o, g, name, sig)
    ensures var a := AggregateOf(o.kinds, g);
            OperationInts(ToProto(a), name, sig) == CellInt(CellOf(a.sets, name, sig)) == IntsOf(g, name, sig)
  {
    hide Keyed, CellOf, AllValues, ToProto, AggregateOf, OperationInts, IntOperation;
    AggregateInts(o.kinds, g, name, sig);
    ToProtoInts(o.kinds, AggregateOf(o.kinds, g), name, sig);
  }

  lemma {:induction false} IntsOfGroups(o: Options, gs: Groups, name: string, sig: string)
    requires Matches(o, Flat(gs), name, sig)
    ensures IntsSent(RequestsOf(o, gs), name, sig) == IntsOf(Flat(gs), name, sig)
  {
    hide IntsSent, IntsOf, RequestOf, AggregateOf, Matches, ToProto;
    if gs == [] {
      IntsOfConcat([], [], name, sig);
      NoInts(name, sig);
    } else {
      var init, g := gs[..|gs| - 1], gs[|gs| - 1];
      MatchesParts(o, Flat(init), g, name, sig);
      IntsOfGroups(o, init, name, sig);
      IntsOfConcat(Flat(init), g, name, sig);
      if g == [] {
        assert Flat(init) + [] == Flat(init);
      } else {
        SentSnoc(o, RequestsOf(o, init), AggregateOf(o.kinds, g), name, sig);
        GroupInts(o, g, name, sig);
      }
    }
  }

  lemma NoInts(name: string, sig: string)
    ensures IntsSent([], name, sig) == 0
  {
  }

  /**
   * The int64 delta sum of a metric over the accepted operations of a signature is what was sent plus what is still
   * cached.
   */
  lemma SumsConserved(o: Options, es: seq<Event>, k: string, name: string, sig: string)
    requires o.entries > 0 && Legal(o, es) && Matches(o, For(Accepted(o, es), k), name, sig)
    ensures IntsOf(For(Accepted(o, es), k), name, sig)
         == IntsSent(SentFor(o, es, k), name, sig) + IntsHeld(HeldFor(o, es, k), name, sig)
  {
    hide Legal, Accepted, For, GroupsOf, SentFor, HeldFor, RequestsOf, IntsOf, IntsSent, AggregateOf, Matches, CellOf;
    var gs := GroupsOf(o, es, k);
    GroupsSent(o, es, k);
    GroupsPartition(o, es, k);
    var init, g := gs[..|gs| - 1], gs[|gs| - 1];
    MatchesParts(o, Flat(init), g, name, sig);
    IntsOfGroups(o, init, name, sig);
    IntsOfConcat(Flat(init), g, name, sig);
    if g != [] {
      GroupInts(o, g, name, sig);
    } else {
      IntsOfConcat([], [], name, sig);
    }
  }

  /** After `FlushAll` everything has been sent. */
  lemma FlushAllSendsEverything(o: Options, es: seq<Event>, k: string, name: string, sig: string)
    requires o.entries > 0 && Legal(o, es) && es != [] && es[|es| - 1].DoFlushAll?
    ensures var ops, sent := For(Accepted(o, es), k), SentFor(o, es, k);
            && LogsOf(ops) == LogsSent(sent)
            && (Matches(o, ops, name, sig) ==> IntsOf(ops, name, sig) == IntsSent(sent, name, sig))
  {
    hide Legal, Accepted, For, GroupsOf, SentFor, HeldFor, RequestsOf, IntsOf, IntsSent, LogsOf, LogsSent, AggregateOf,
        Matches;
    GroupsSent(o, es, k);
    LogsConserved(o, es, k);
    assert LogsSent(SentFor(o, es, k)) + [] == LogsSent(SentFor(o, es, k));
    if Matches(o, For(Accepted(o, es), k), name, sig) {
      SumsConserved(o, es, k, name, sig);
    }
  }

  /**
   * Between calls an aggregate that has absorbed a second operation has fewer than a hundred log entries; and whatever
   * was sent had fewer before its last operation came, if that was not the second.
   */
  lemma LogsBounded(o: Options, es: seq<Event>, k: string)
    requires o.entries > 0 && Legal(o, es)
    ensures var gs, v := GroupsOf(o, es, k), HeldFor(o, es, k);
            && |gs| > 0
            && (v.Some? && |gs[|gs| - 1]| > 1 ==> |v.value.operation.logs| < 100)
            && (forall i :: 0 <= i < |gs| - 1 && |gs[i]| > 2 ==> |LogsOf(gs[i][..|gs[i]| - 1])| < 100)
  {
    hide Legal, GroupsOf, SentFor, HeldFor, RequestsOf, LogsOf, ReportSignature, AggregateOf;
    var x := RunFits(o, es, k);
    var gs := GroupsOf(o, es, k);
    if x.value.Some? {
      AggregateLogs(o.kinds, gs[|gs| - 1]);
    }
    assert forall i :: 0 <= i < |gs| - 1 ==> Ripe(gs[i]);
  }

  /**
   * Whatever a call removes, it removes as requests of one operation; so what it flushes has at most ten operations a
   * request, is in the order of removal, and takes as few requests as possible.
   */
  lemma FlushesAreTight(o: Options, es: seq<Event>, from: nat)
    requires o.entries > 0 && Legal(o, es) && from <= |Run(o, es).removed|
    ensures var rs := Run(o, es).removed[from..];
            var bs := Batch(MergeItem, rs);
            && Flattened(bs) == Flattened(rs) && Packed(bs, o.service) && |bs| == (|rs| + 9) / 10
            && forall i :: 0 <= i < |bs| ==> bs[i].configId == o.configId
  {
    var removed := Run(o, es).removed;
    forall i | 0 <= i < |removed| ensures |removed[i].operations| == 1 && removed[i].service == o.service
        && removed[i].configId == o.configId
    {
      SingleRemoved(o, es, i);
    }
    hide Run, Legal;
    var rs := removed[from..];
    BatchingIsTight(rs, o.service);
    forall i | 0 <= i < |Batch(MergeItem, rs)| ensures Batch(MergeItem, rs)[i].configId == o.configId {
      BatchesAreParts(rs, o.service, i);
      SameConfig(Part(rs, i), o.configId);
    }
  }

  lemma {:induction false} RequestsSingle(o: Options, gs: Groups, r: ReportRequest)
    requires r in RequestsOf(o, gs)
    ensures |r.operations| == 1 && r.service == o.service && r.configId == o.configId
  {
    hide AggregateOf, ToProto;
    if r in RequestsOf(o, gs[..|gs| - 1]) {
      RequestsSingle(o, gs[..|gs| - 1], r);
    }
  }

  lemma SingleRemoved(o: Options, es: seq<Event>, i: nat)
    requires o.entries > 0 && Legal(o, es) && i < |Run(o, es).removed|
    ensures var r := Run(o, es).removed[i]; |r.operations| == 1 && r.service == o.service && r.configId == o.configId
  {
    hide Legal, Run, GroupsOf, RequestsOf, HeldFor, SentAt;
    var r := Run(o, es).removed[i];
    var gs := GroupsOf(o, es, KeyOf(r));
    GroupsSent(o, es, KeyOf(r));
    SentHas(Run(o, es).removed, KeyOf, i);
    RequestsSingle(o, gs[..|gs| - 1], r);
  }
}
