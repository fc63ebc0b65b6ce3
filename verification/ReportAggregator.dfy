/** The report aggregator: a cache of operation aggregators, and the calls that fill and flush it. */
module ReportAggregators {
  import opened Lists
  import opened Proto
  import opened Operations
  import opened OperationAggregators
  import opened CacheModel
  import opened CacheCells
  import opened CacheUse
  import opened LruCache
  import opened RemovedItems
  import opened ReportModel
  import Hashing
  import ReportRuns

  const NOBODY := Aggregate(Operation("", "", "", None, None, map[], [], [], Low), map[])

  class ReportAggregator {
    const options: Options
    const cache: Cache?<Aggregate, ReportRequest>

    ghost predicate Valid()
      reads this, cache, if cache != null then cache.repr else {}
    {
      && (cache != null <==> options.entries > 0)
      && (cache != null ==> AtRest(cache) && cache.config == ConfigOf(options))
    }

    ghost function Content(): Reports
      requires cache != null
      reads this, cache, cache.repr
      requires cache.Valid()
    {
      cache.Snapshot()
    }

    lemma ValidParts()
      requires Valid()
      ensures cache != null <==> options.entries > 0
      ensures cache != null ==>
                AtRest(cache) && cache.Valid() && Idle(cache.config, cache.Snapshot())
                    && cache.config == ConfigOf(options) && !cache.config.reentrant
    {
      NotReentrant(options);
      if cache != null {
        RestParts(cache);
      }
    }

    lemma ValidIntro()
      requires cache != null && options.entries > 0 && AtRest(cache) && cache.config == ConfigOf(options)
      ensures Valid()
    {
    }

    lemma ContentIs()
      requires cache != null && cache.Valid()
      ensures Content() == cache.Snapshot() && cache.removed == Content().removed
    {
    }

    lemma GrownIs(s: Reports, t: Reports)
      requires Grown(s, t)
      ensures s.removed <= t.removed
    {
    }

    constructor (options: Options)
      ensures Valid() && this.options == options
          && (cache != null ==> fresh(cache) && fresh(cache.repr) && Content() == State([], [], [], [], []))
    {
      this.options := options;
      if options.entries > 0 {
        var c := new Cache(ConfigOf(options), NOBODY);
        cache := c;
        EmptyIdle(options);
      } else {
        cache := null;
      }
    }

    static lemma EmptyIdle(o: Options)
      requires o.entries > 0
      ensures Idle(ConfigOf(o), State([], [], [], [], []))
    {
    }

    static method HasHighImportantOperation(request: ReportRequest) returns (high: bool)
      ensures high <==> exists operation <- request.operations :: operation.importance != Low
    {
      for i := 0 to |request.operations|
        invariant forall j :: 0 <= j < i ==> request.operations[j].importance == Low
      {
        if request.operations[i].importance != Low {
          return true;
        }
      }
      return false;
    }

    /** The requests that this call has to flush: the items removed since there were `before` of them, batched. */
    method Drained(before: nat) returns (flushed: seq<ReportRequest>)
      requires cache != null && before <= |cache.removed|
      ensures flushed == Batch(MergeItem, cache.removed[before..])
    {
      flushed := Drain(MergeItem, cache.removed[before..]);
    }

    method Report(request: ReportRequest, now: int) returns (code: Code, flushed: seq<ReportRequest>)
      requires Valid()
      modifies cache, if cache != null then cache.repr else {}
      ensures Valid()
      ensures code == if request.service != options.service then InvalidArgument
                      else if options.entries <= 0
                              || (exists operation <- request.operations :: operation.importance != Low) then NotFound
                      else Ok
      ensures code != Ok ==> flushed == [] && (cache != null ==> Content() == old(Content()))
      ensures code == Ok ==>
                && fresh(cache.repr - old(cache.repr))
                && Content() == ReportModel.Report(options, old(Content()), request, now)
                && old(Content()).removed <= Content().removed
                && flushed == Batch(MergeItem, Content().removed[|old(Content()).removed|..])
    {
      hide *;
      ValidParts();
      CodeIs(options, request);
      if request.service != options.service {
        if cache != null {
          ContentIs();
        }
        return InvalidArgument, [];
      }
      var high := HasHighImportantOperation(request);
      if high || cache == null {
        if cache != null {
          ContentIs();
        }
        return NotFound, [];
      }
      ContentIs();
      ghost var s := cache.Snapshot();
      var before := |cache.removed|;
      AddAll(request.operations, now);
      ValidParts();
      ContentIs();
      GrownIs(s, cache.Snapshot());
      ReportIs(options, s, request, now);
      flushed := Drained(before);
      return Ok, flushed;
    }

    static lemma CodeIs(o: Options, r: ReportRequest)
      ensures CodeOf(o, r) == if r.service != o.service then InvalidArgument
                              else if o.entries <= 0 || exists operation <- r.operations :: operation.importance != Low
                              then NotFound else Ok
    {
    }

    static lemma ReportIs(o: Options, s: Reports, r: ReportRequest, now: int)
      ensures CodeOf(o, r) == Ok ==> ReportModel.Report(o, s, r, now) == AddOperations(o, s, r.operations, now)
    {
    }

    method AddAll(operations: seq<Operation>, now: int)
      requires Valid() && cache != null
      modifies cache, cache.repr
      ensures Valid() && fresh(cache.repr - old(cache.repr))
      ensures Content() == AddOperations(options, old(Content()), operations, now) && Grown(old(Content()), Content())
    {
      hide *;
      ValidParts();
      ContentIs();
      ghost var s := cache.Snapshot();
      SelfGrown(s);
      AddNext(s, operations, 0, now);
      for i := 0 to |operations|
        invariant Valid() && cache.Valid() && fresh(cache.repr - old(cache.repr))
        invariant cache.Snapshot() == AddOperations(options, s, operations[..i], now) && Grown(s, cache.Snapshot())
      {
        AddNext(s, operations, i, now);
        ContentIs();
        ghost var t := cache.Snapshot();
        AddOne(operations[i], now);
        ValidParts();
        ContentIs();
        GrownTwice(s, t, cache.Snapshot());
      }
      assert operations[..|operations|] == operations;
      ContentIs();
    }

    lemma AddNext(s: Reports, operations: seq<Operation>, i: nat, now: int)
      requires i <= |operations|
      ensures AddOperations(options, s, operations[..0], now) == s
      ensures i < |operations| ==>
                AddOperations(options, s, operations[..i + 1], now)
                == AddOperation(options, AddOperations(options, s, operations[..i], now), operations[i], now)
    {
      hide AddOperation;
      if i < |operations| {
        assert operations[..i + 1][..i] == operations[..i];
      }
    }

    method AddOne(operation: Operation, now: int)
      requires Valid() && cache != null
      modifies cache, cache.repr
      ensures Valid() && fresh(cache.repr - old(cache.repr))
      ensures Content() == AddOperation(options, old(Content()), operation, now) && Grown(old(Content()), Content())
    {
      hide *;
      ValidParts();
      ContentIs();
      ghost var s := cache.Snapshot();
      ghost var t := Fetched(options, s, now);
      ReportRuns.FetchedIs(options, s, now);
      ReportRuns.AddIs(options, s, operation, now);
      var signature := Hashing.GenerateReportOperationSignature(operation);
      var found := BeginLookup(cache, signature, now);
      match found {
        case Some(a) =>
          MergeFound(t, a, operation, signature, now);
          RestParts(cache);
          GrownTwice(s, t, cache.Snapshot());
        case None =>
          RestIntro(cache);
          MayPutIntro(cache.config, t, signature);
          InsertFirst(operation, signature, now);
          RestParts(cache);
          GrownTwice(s, t, cache.Snapshot());
      }
      ValidIntro();
      ContentIs();
    }

    /** An operation is merged into the aggregate that a lookup has found and pinned. */
    method MergeFound(ghost t: Reports, a: Aggregate, operation: Operation, signature: string, now: int)
      requires cache != null && cache.Valid() && Idle(cache.config, t) && EntryAt(t.order, signature).Some?
      requires cache.Snapshot() == Pin(cache.config, t, signature)
      modifies cache, cache.repr
      ensures AtRest(cache) && cache.Valid() && fresh(cache.repr - old(cache.repr)) && cache.config == old(cache.config)
      ensures var m := Operations.Merge(options.kinds, a, operation);
              var u := Used(cache.config, t, signature, m, now);
              cache.Snapshot() == if Operations.TooBig(m) then Remove(cache.config, u, signature, now) else u
      ensures Grown(t, cache.Snapshot())
    {
      hide *;
      var merged := Absorb(a, operation);
      EndLookup(cache, t, signature, merged, now);
      RestParts(cache);
      SelfGrown(t);
      UsedGrows(cache.config, t, t, signature, merged, now);
      ghost var u := cache.Snapshot();
      DropTooBig(merged, signature, now);
      RestParts(cache);
      GrownTwice(t, u, cache.Snapshot());
    }

    /** A first operation starts an aggregate. */
    method InsertFirst(operation: Operation, signature: string, now: int)
      requires cache != null && AtRest(cache) && cache.Valid() && MayPut(cache.config, cache.Snapshot(), signature)
      modifies cache, cache.repr
      ensures AtRest(cache) && cache.Valid() && fresh(cache.repr - old(cache.repr)) && cache.config == old(cache.config)
      ensures cache.Snapshot() == Put(cache.config, old(cache.Snapshot()), signature, Start(options.kinds, operation),
          now)
      ensures Grown(old(cache.Snapshot()), cache.Snapshot())
    {
      hide *;
      var started := Begin(operation);
      PutIn(cache, signature, started, now);
      RestParts(cache);
    }

    /** A merged operation that is too big is removed, outside the scope of the lookup. */
    method DropTooBig(merged: Aggregate, signature: string, now: int)
      requires cache != null && AtRest(cache) && cache.Valid()
      modifies cache, cache.repr
      ensures AtRest(cache) && cache.Valid() && fresh(cache.repr - old(cache.repr)) && cache.config == old(cache.config)
      ensures var u := old(cache.Snapshot());
              && cache.Snapshot() == (if Operations.TooBig(merged) then Remove(cache.config, u, signature, now) else u)
              && Grown(u, cache.Snapshot())
    {
      hide *;
      SelfGrown(cache.Snapshot());
      if Operations.TooBig(merged) {
        TakeOut(cache, signature, now);
        RestParts(cache);
      }
    }

    static lemma NotReentrant(o: Options)
      ensures !ConfigOf(o).reentrant
    {
    }

    static lemma MayPutIntro(c: Config<Aggregate, ReportRequest>, t: Reports, k: string)
      requires Idle(c, t) && EntryAt(t.order, k).None? && !c.reentrant
      ensures MayPut(c, t, k)
    {
    }

    static lemma UsedGrows(c: Config<Aggregate, ReportRequest>, s: Reports, t: Reports, k: string, v: Aggregate,
                           now: int)
      requires Grown(s, t) && EntryAt(t.order, k).Some?
      ensures Grown(s, Used(c, t, k, v, now))
    {
    }

    method Absorb(a: Aggregate, operation: Operation) returns (m: Aggregate)
      ensures m == Operations.Merge(options.kinds, a, operation)
    {
      var aggregator := new OperationAggregator.Resume(a, options.kinds);
      aggregator.MergeOperation(operation);
      m := aggregator.Content();
    }

    method Begin(operation: Operation) returns (a: Aggregate)
      ensures a == Start(options.kinds, operation)
    {
      var aggregator := new OperationAggregator(operation, options.kinds);
      a := aggregator.Content();
    }

    method Flush(now: int) returns (flushed: seq<ReportRequest>)
      requires Valid()
      modifies cache, if cache != null then cache.repr else {}
      ensures Valid() && (cache == null ==> flushed == [])
      ensures cache != null ==>
                && fresh(cache.repr - old(cache.repr))
                && Content() == Fetched(options, old(Content()), now) && old(Content()).removed <= Content().removed
                && flushed == Batch(MergeItem, Content().removed[|old(Content()).removed|..])
    {
      hide *;
      ValidParts();
      flushed := [];
      if cache != null {
        ContentIs();
        ReportRuns.FetchedIs(options, cache.Snapshot(), now);
        ghost var s := cache.Snapshot();
        var before := |cache.removed|;
        TakeOutExpired(cache, now);
        GrownIs(s, cache.Snapshot());
        ValidIntro();
        ValidParts();
        ContentIs();
        flushed := Drained(before);
      }
    }

    method FlushAll(now: int) returns (flushed: seq<ReportRequest>, ghost ks: seq<string>)
      requires Valid()
      modifies cache, if cache != null then cache.repr else {}
      ensures Valid() && (cache == null ==> flushed == [])
      ensures cache != null ==>
                && fresh(cache.repr - old(cache.repr))
                && (forall k :: k in ks <==> EntryAt(old(Content()).order, k).Some?)
                && Content() == RemoveEach(ConfigOf(options), old(Content()), ks, now)
                && old(Content()).removed <= Content().removed
                && flushed == Batch(MergeItem, Content().removed[|old(Content()).removed|..])
    {
      hide *;
      ValidParts();
      flushed, ks := [], [];
      if cache != null {
        ContentIs();
        ghost var s := cache.Snapshot();
        var before := |cache.removed|;
        ks := TakeOutAll(cache, now);
        GrownIs(s, cache.Snapshot());
        ValidIntro();
        ValidParts();
        ContentIs();
        flushed := Drained(before);
      }
    }
  }
}
