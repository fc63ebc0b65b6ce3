/** The check aggregator: a cache of responses, with the operations aggregated under them. */
module CheckAggregators {
  import opened Lists
  import opened Proto
  import opened Signature
  import opened OperationAggregators
  import opened CacheModel
  import opened CacheCells
  import opened CacheUse
  import opened LruCache
  import opened RemovedItems
  import opened CheckModel
  import CheckRuns
  import Hashing

  const NOBODY := Elem("", None, NO_RESPONSE, 0, 0, false)

  /** Check requests are never merged. */
  function Never(item: Flushed, other: Flushed): Option<Flushed> { None }

  lemma {:induction false} NeverBatched(rs: seq<Flushed>)
    ensures Batch(Never, rs) == rs
  {
    if rs != [] {
      NeverBatched(rs[..|rs| - 1]);
    }
  }

  class CheckAggregator {
    const options: Options
    const cache: Cache?<Elem, Flushed>

    ghost predicate Valid()
      reads this, cache, if cache != null then cache.repr else {}
    {
      && (cache != null <==> options.entries > 0)
      && (cache != null ==> AtRest(cache) && cache.config == ConfigOf(options))
    }

    ghost function Content(): Checks
      requires cache != null
      reads this, cache, cache.repr
      requires cache.Valid()
    {
      cache.Snapshot()
    }

    lemma ValidParts()
      requires Valid()
      ensures cache != null <==> options.entries > 0
      ensures cache != null ==>
                AtRest(cache) && cache.Valid() && Idle(cache.config, cache.Snapshot())
                    && cache.config == ConfigOf(options) && !cache.config.reentrant
    {
      NotReentrant(options);
      if cache != null {
        RestParts(cache);
      }
    }

    lemma ValidIntro()
      requires cache != null && options.entries > 0 && AtRest(cache) && cache.config == ConfigOf(options)
      ensures Valid()
    {
    }

    lemma ContentIs()
      requires cache != null && cache.Valid()
      ensures Content() == cache.Snapshot() && cache.removed == Content().removed
    {
    }

    lemma GrownIs(s: Checks, t: Checks)
      requires Grown(s, t)
      ensures s.removed <= t.removed
    {
    }

    static lemma NotReentrant(o: Options)
      ensures !ConfigOf(o).reentrant
    {
    }

    constructor (options: Options)
      ensures Valid() && this.options == options
          && (cache != null ==> fresh(cache) && fresh(cache.repr) && Content() == State([], [], [], [], []))
    {
      this.options := options;
      if options.entries > 0 {
        var c := new Cache(ConfigOf(options), NOBODY);
        cache := c;
        EmptyIdle(options);
      } else {
        cache := null;
      }
    }

    static lemma EmptyIdle(o: Options)
      requires o.entries > 0
      ensures Idle(ConfigOf(o), State([], [], [], [], []))
    {
    }

    /** The requests that this call has to flush: what was removed since there were `before` items. */
    method Drained(before: nat) returns (flushed: seq<Flushed>)
      requires cache != null && before <= |cache.removed|
      ensures flushed == cache.removed[before..]
    {
      flushed := Drain(Never, cache.removed[before..]);
      NeverBatched(cache.removed[before..]);
    }

    /** What a check with a usable request does to the cache. */
    ghost predicate Served(s: Checks, t: Checks, r: CheckRequest, now: int, code: Code, response: CheckResponse,
                           flushed: seq<Flushed>)
    {
      && (t, code, response) == CheckModel.Check(options, s, r, now)
      && s.removed <= t.removed && flushed == t.removed[|s.removed|..]
    }

    method Check(request: CheckRequest, now: int) returns (code: Code, response: CheckResponse, flushed: seq<Flushed>)
      requires Valid()
      modifies cache, if cache != null then cache.repr else {}
      ensures Valid() && (cache != null ==> fresh(cache.repr - old(cache.repr)))
      ensures request.service != options.service || request.operation.None? ==> code == InvalidArgument
      ensures request.service == options.service && request.operation.Some? ==>
                && (request.operation.value.importance != Low || cache == null ==> code == NotFound)
                && (request.operation.value.importance == Low && cache != null ==>
                      Served(old(Content()), Content(), request, now, code, response, flushed))
      ensures cache != null
              && (request.service != options.service || request.operation.None?
                  || request.operation.value.importance != Low) ==>
                Content() == old(Content()) && flushed == []
    {
      hide *;
      ValidParts();
      response, flushed := CheckResponse("", []), [];
      if cache != null {
        ContentIs();
      }
      if request.service != options.service {
        return InvalidArgument, response, flushed;
      }
      if request.operation.None? {
        return InvalidArgument, response, flushed;
      }
      if request.operation.value.importance != Low || cache == null {
        return NotFound, response, flushed;
      }
      var before := |cache.removed|;
      ghost var s := cache.Snapshot();
      code, response := Consult(request, now);
      ValidParts();
      ContentIs();
      GrownIs(s, cache.Snapshot());
      flushed := Drained(before);
      ServedIntro(s, cache.Snapshot(), request, now, code, response, flushed);
    }

    lemma ServedIntro(s: Checks, t: Checks, r: CheckRequest, now: int, code: Code, response: CheckResponse,
                      flushed: seq<Flushed>)
      requires (t, code, response) == CheckModel.Check(options, s, r, now) && s.removed <= t.removed
          && flushed == t.removed[|s.removed|..]
      ensures Served(s, t, r, now, code, response, flushed)
    {
    }

    method Consult(request: CheckRequest, now: int) returns (code: Code, response: CheckResponse)
      requires Valid() && cache != null && request.operation.Some?
      modifies cache, cache.repr
      ensures Valid() && fresh(cache.repr - old(cache.repr))
      ensures (Content(), code, response) == CheckModel.Check(options, old(Content()), request, now)
          && Grown(old(Content()), Content())
    {
      hide *;
      ValidParts();
      ContentIs();
      ghost var s := cache.Snapshot();
      ghost var t := Fetched(options, s, now);
      CheckRuns.FetchedIs(options, s, now);
      ConsultIs(s, request, now);
      var signature := Hashing.GenerateCheckRequestSignature(request.operation.value);
      var found := BeginLookup(cache, signature, now);
      match found {
        case None =>
          RestIntro(cache);
          response := CheckResponse("", []);
          code := NotFound;
        case Some(e) =>
          var f;
          f, code := CheckElem(e, request.operation.value, now);
          response := if code == Ok then e.response else CheckResponse("", []);
          EndLookup(cache, t, signature, f, now);
          RestParts(cache);
          UsedGrows(cache.config, s, t, signature, f, now);
      }
      ValidIntro();
      ContentIs();
    }

    lemma ConsultIs(s: Checks, r: CheckRequest, now: int)
      requires r.operation.Some?
      ensures var c, k, t := ConfigOf(options), CheckSignature(r.operation.value), Fetched(options, s, now);
              && (ValueAt(t.order, k).None? ==>
                   CheckModel.Check(options, s, r, now)
                   == (t, NotFound, CheckResponse("", [])))
              && (ValueAt(t.order, k).Some? ==>
                    && EntryAt(t.order, k).Some?
                    && var (f, code) := Checked(options, ValueAt(t.order, k).value, r.operation.value, now);
                       CheckModel.Check(options, s, r, now)
                       == (Used(c, t, k, f, now), code,
                           if code == Ok then ValueAt(t.order, k).value.response else CheckResponse("", [])))
    {
      hide Fetched, Used, Checked, CheckSignature, ConfigOf;
    }

    static lemma UsedGrows(c: Config<Elem, Flushed>, s: Checks, t: Checks, k: string, v: Elem, now: int)
      requires Grown(s, t) && EntryAt(t.order, k).Some?
      ensures Grown(s, Used(c, t, k, v, now))
    {
    }

    /**
     * What a check does to the element that it found: aggregate the operation, and every so often ask the server again.
     */
    method CheckElem(e: Elem, operation: Operation, now: int) returns (f: Elem, code: Code)
      ensures (f, code) == Checked(options, e, operation, now)
    {
      f := e;
      if |f.response.errors| > 0 {
        if CheckModel.ShouldFlush(options, f, now) {
          f := f.(lastCheck := now);
          return f, NotFound;
        } else {
          return f, Ok;
        }
      } else {
        f := Aggregate(f, operation);
        if CheckModel.ShouldFlush(options, f, now) {
          f := f.(isFlushing := true);
          f := f.(lastCheck := now);
          return f, NotFound;
        }
      }
      return f, Ok;
    }

    method Aggregate(e: Elem, operation: Operation) returns (f: Elem)
      ensures f == Aggregated(options, e, operation)
    {
      if e.pending.None? {
        var aggregator := new OperationAggregator(operation, options.kinds);
        f := e.(pending := Some(aggregator.Content()));
      } else {
        var aggregator := new OperationAggregator.Resume(e.pending.value, options.kinds);
        aggregator.MergeOperation(operation);
        f := e.(pending := Some(aggregator.Content()));
      }
    }

    method CacheResponse(request: CheckRequest, response: CheckResponse, now: int) returns (flushed: seq<Flushed>)
      requires Valid()
      modifies cache, if cache != null then cache.repr else {}
      ensures Valid() && (cache == null ==> flushed == [])
      ensures cache != null ==>
                && fresh(cache.repr - old(cache.repr))
                && Content() == CheckModel.Respond(options, old(Content()), request, response, now)
                && old(Content()).removed <= Content().removed
                && flushed == Content().removed[|old(Content()).removed|..]
    {
      hide *;
      ValidParts();
      flushed := [];
      if cache != null {
        ContentIs();
        ghost var s := cache.Snapshot();
        var before := |cache.removed|;
        Store(request, response, now);
        ValidParts();
        ContentIs();
        GrownIs(s, cache.Snapshot());
        flushed := Drained(before);
      }
    }

    method Store(request: CheckRequest, response: CheckResponse, now: int)
      requires Valid() && cache != null
      modifies cache, cache.repr
      ensures Valid() && fresh(cache.repr - old(cache.repr))
      ensures Content() == CheckModel.Respond(options, old(Content()), request, response, now)
          && Grown(old(Content()), Content())
    {
      hide *;
      ValidParts();
      ContentIs();
      ghost var s := cache.Snapshot();
      ghost var t := Fetched(options, s, now);
      CheckRuns.FetchedIs(options, s, now);
      StoreIs(s, request, response, now);
      var signature := Hashing.GenerateCheckRequestSignature(OperationOf(request));
      var found := BeginLookup(cache, signature, now);
      match found {
        case Some(e) =>
          var f := e.(lastCheck := now);
          f := f.(response := response);
          f := f.(quotaScale := 0);
          f := f.(isFlushing := false);
          EndLookup(cache, t, signature, f, now);
          RestParts(cache);
          UsedGrows(cache.config, s, t, signature, f, now);
        case None =>
          RestIntro(cache);
          MayPutIntro(cache.config, t, signature);
          PutIn(cache, signature, Elem(signature, None, response, now, 0, false), now);
          RestParts(cache);
          GrownTwice(s, t, cache.Snapshot());
      }
      ValidIntro();
      ContentIs();
    }

    static lemma MayPutIntro(c: Config<Elem, Flushed>, t: Checks, k: string)
      requires Idle(c, t) && EntryAt(t.order, k).None? && !c.reentrant
      ensures MayPut(c, t, k)
    {
    }

    lemma StoreIs(s: Checks, r: CheckRequest, response: CheckResponse, now: int)
      ensures var c, k, t := ConfigOf(options), CheckSignature(OperationOf(r)), Fetched(options, s, now);
              && (ValueAt(t.order, k).None? ==>
                   Respond(options, s, r, response, now)
                   == Put(c, t, k, Elem(k, None, response, now, 0, false), now))
              && (ValueAt(t.order, k).Some? ==>
                    && EntryAt(t.order, k).Some?
                    && Respond(options, s, r, response, now)
                    == Used(c, t, k, ValueAt(t.order, k).value.(lastCheck := now, response := response,
                        quotaScale := 0, isFlushing := false), now))
    {
      hide Fetched, Used, Put, CheckSignature, ConfigOf, OperationOf;
    }

    method Flush(now: int) returns (flushed: seq<Flushed>)
      requires Valid()
      modifies cache, if cache != null then cache.repr else {}
      ensures Valid() && (cache == null ==> flushed == [])
      ensures cache != null ==>
                && fresh(cache.repr - old(cache.repr))
                && Content() == Fetched(options, old(Content()), now)
                && old(Content()).removed <= Content().removed
                && flushed == Content().removed[|old(Content()).removed|..]
    {
      hide *;
      ValidParts();
      flushed := [];
      if cache != null {
        ContentIs();
        CheckRuns.FetchedIs(options, cache.Snapshot(), now);
        ghost var s := cache.Snapshot();
        var before := |cache.removed|;
        TakeOutExpired(cache, now);
        GrownIs(s, cache.Snapshot());
        ValidIntro();
        ValidParts();
        ContentIs();
        flushed := Drained(before);
      }
    }

    method FlushAll(now: int) returns (flushed: seq<Flushed>, ghost ks: seq<string>)
      requires Valid()
      modifies cache, if cache != null then cache.repr else {}
      ensures Valid() && (cache == null ==> flushed == [])
      ensures cache != null ==>
                && fresh(cache.repr - old(cache.repr))
                && (forall k :: k in ks <==> EntryAt(old(Content()).order, k).Some?)
                && Content() == RemoveEach(ConfigOf(options), old(Content()), ks, now)
                && old(Content()).removed <= Content().removed
                && flushed == Content().removed[|old(Content()).removed|..]
    {
      hide *;
      ValidParts();
      flushed, ks := [], [];
      if cache != null {
        ContentIs();
        ghost var s := cache.Snapshot();
        var before := |cache.removed|;
        ks := TakeOutAll(cache, now);
        GrownIs(s, cache.Snapshot());
        ValidIntro();
        ValidParts();
        ContentIs();
        flushed := Drained(before);
      }
    }
  }
}
