/** The quota aggregator: a cache whose deleter refreshes elements and inserts them again. */
module QuotaAggregators {
  import opened Lists
  import opened Proto
  import opened Signature
  import opened QuotaOperations
  import opened CacheModel
  import opened CacheCells
  import opened CacheUse
  import opened LruCache
  import opened RemovedItems
  import opened QuotaModel
  import opened Rotation
  import Hashing

  const NOBODY := Elem(None, QuotaRequest("", "", None), EMPTY_RESPONSE, "", 0, false)

  /** Quota requests are never merged. */
  function Never(item: QuotaRequest, other: QuotaRequest): Option<QuotaRequest> { None }

  lemma NeverBatched(items: seq<QuotaRequest>, r: QuotaRequest)
    ensures AddItem(Never, items, r) == items + [r]
  {
  }

  class QuotaAggregator {
    const options: Options
    const cache: Cache?<Elem, Note>
    var inFlushAll: bool

    ghost predicate Valid()
      reads this, cache, if cache != null then cache.repr else {}
    {
      && (cache != null <==> options.entries > 0)
      && (cache != null ==> AtRest(cache) && cache.config == ConfigOf(options, inFlushAll))
    }

    ghost function Content(): QuotaState
      requires cache != null
      reads this, cache, cache.repr
      requires cache.Valid()
    {
      QuotaState(cache.Snapshot(), inFlushAll)
    }

    lemma ValidParts()
      requires Valid()
      ensures cache != null <==> options.entries > 0
      ensures cache != null ==>
                && AtRest(cache) && cache.Valid() && Idle(cache.config, cache.Snapshot())
                && cache.config == ConfigOf(options, inFlushAll) && (cache.config.reentrant <==> !inFlushAll)
    {
      if cache != null {
        RestParts(cache);
      }
    }

    lemma ValidIntro()
      requires cache != null && options.entries > 0 && AtRest(cache) && cache.config == ConfigOf(options, inFlushAll)
      ensures Valid()
    {
    }

    lemma ContentIs()
      requires cache != null && cache.Valid()
      ensures Content() == QuotaState(cache.Snapshot(), inFlushAll) && cache.removed == cache.Snapshot().removed
    {
    }

    lemma GrownIs(s: State<Elem, Note>, t: State<Elem, Note>)
      requires Grown(s, t)
      ensures s.removed <= t.removed
    {
    }

    constructor (options: Options)
      ensures Valid() && this.options == options && !inFlushAll
      ensures cache != null ==>
          fresh(cache) && fresh(cache.repr)
          && Content() == QuotaState(State([], [], [], [], []), false)
    {
      this.options := options;
      inFlushAll := false;
      if options.entries > 0 {
        var c := new Cache(ConfigOf(options, false), NOBODY);
        cache := c;
        EmptyIdle(options);
      } else {
        cache := null;
      }
    }

    static lemma EmptyIdle(o: Options)
      requires o.entries > 0
      ensures Idle(ConfigOf(o, false), State([], [], [], [], []))
    {
    }

    /** The requests that this call has to flush: those among the notes after the first `before`. */
    method Drained(before: nat) returns (flushed: seq<QuotaRequest>)
      requires cache != null && before <= |cache.removed|
      ensures flushed == Handed(cache.removed[before..])
    {
      var buffer := new StackBuffer(Never);
      var notes := cache.removed[before..];
      for i := 0 to |notes|
        invariant buffer.merge == Never && buffer.items == Handed(notes[..i])
      {
        assert notes[..i + 1][..i] == notes[..i];
        if !notes[i].Lost? {
          NeverBatched(buffer.items, notes[i].request);
          buffer.Add(notes[i].request);
        }
      }
      assert notes[..|notes|] == notes;
      flushed := buffer.items;
    }

    /** A signature that is not cached finds room, unless `FlushAll` was called. */
    ghost predicate Room(q: QuotaState, request: QuotaRequest, now: int) {
      EntryAt(Fetched(q, options, now).order, SignatureOf(request)).None? && !q.flushed ==>
          |Fetched(q, options, now).order| < options.entries
    }

    predicate Usable(request: QuotaRequest) {
      request.service == options.service && request.operation.Some? && options.entries > 0
    }

    method Quota(request: QuotaRequest, now: int)
                 returns (code: Code, response: QuotaResponse, flushed: seq<QuotaRequest>)
      requires Valid() && (Usable(request) && cache != null ==> Room(Content(), request, now))
      modifies cache, if cache != null then cache.repr else {}
      ensures Valid() && (cache != null ==> fresh(cache.repr - old(cache.repr)))
      ensures code == if request.service != options.service || request.operation.None? then InvalidArgument
                      else if options.entries <= 0 then NotFound else Ok
      ensures code != Ok ==> flushed == [] && (cache != null ==> Content() == old(Content()))
      ensures code == Ok ==>
                && (Content(), response) == Ask(options, old(Content()), request, now)
                && old(Content()).cache.removed <= Content().cache.removed
                && flushed == Handed(Content().cache.removed[|old(Content()).cache.removed|..])
    {
      hide *;
      ValidParts();
      response, flushed := QuotaResponse("", []), [];
      if cache != null {
        ContentIs();
      }
      if request.service != options.service {
        return InvalidArgument, response, flushed;
      }
      if request.operation.None? {
        return InvalidArgument, response, flushed;
      }
      if cache == null {
        return NotFound, response, flushed;
      }
      UsableIs(request);
      var before := |cache.removed|;
      ghost var s := cache.Snapshot();
      response := Consult(request, now);
      ValidParts();
      ContentIs();
      GrownIs(s, cache.Snapshot());
      flushed := Drained(before);
      return Ok, response, flushed;
    }

    lemma UsableIs(request: QuotaRequest)
      ensures Usable(request) <==> request.service == options.service && request.operation.Some? && options.entries > 0
    {
    }

    method Consult(request: QuotaRequest, now: int) returns (response: QuotaResponse)
      requires Valid() && cache != null && request.operation.Some? && Room(Content(), request, now)
      modifies cache, cache.repr
      ensures Valid() && fresh(cache.repr - old(cache.repr))
      ensures (Content(), response) == Ask(options, old(Content()), request, now)
          && Grown(old(Content()).cache, Content().cache)
    {
      hide *;
      ValidParts();
      ContentIs();
      ghost var s, q := cache.Snapshot(), Content();
      ghost var t := Fetched(q, options, now);
      FetchedIs(q, now);
      AskIs(q, request, now);
      var signature := Hashing.GenerateAllocateQuotaRequestSignature(request.operation.value);
      var found := BeginLookup(cache, signature, now);
      match found {
        case None =>
          RestIntro(cache);
          RoomIs(q, request, now);
          response := InsertFirst(request, signature, now);
          RestParts(cache);
          GrownTwice(s, t, cache.Snapshot());
        case Some(e) =>
          var f := e;
          if |f.response.errors| == 0 {
            f := Aggregate(f, request.operation.value);
          }
          response := f.response;
          ChargedIs(e, request.operation.value);
          EndLookup(cache, t, signature, f, now);
          RestParts(cache);
          UsedGrows(cache.config, s, t, signature, f, now);
      }
      ValidIntro();
      ContentIs();
    }

    /** A miss: a temporary positive element, in flight, and the request itself. */
    method InsertFirst(request: QuotaRequest, signature: string, now: int) returns (response: QuotaResponse)
      requires cache != null && AtRest(cache) && cache.Valid() && MayPut(cache.config, cache.Snapshot(), signature)
      modifies cache, cache.repr
      ensures AtRest(cache) && cache.Valid() && fresh(cache.repr - old(cache.repr)) && cache.config == old(cache.config)
      ensures var u := Put(cache.config, old(cache.Snapshot()), signature,
          Elem(None, request, QuotaResponse("", []), signature, now, true), now);
              cache.Snapshot() == u.(removed := u.removed + [First(request)]) && response == QuotaResponse("", [])
      ensures Grown(old(cache.Snapshot()), cache.Snapshot())
    {
      hide *;
      ghost var t := cache.Snapshot();
      var elem := Elem(None, request, QuotaResponse("", []), "", now, false);
      elem := elem.(signature := signature);
      elem := elem.(inFlight := true);
      PutIn(cache, signature, elem, now);
      RestParts(cache);
      EmitGrows(t, cache.Snapshot(), [First(request)]);
      EmitIdle(cache.config, cache.Snapshot(), [First(request)]);
      cache.Emit([First(request)]);
      RestIntro(cache);
      response := elem.response;
    }

    lemma FetchedIs(q: QuotaState, now: int)
      ensures Fetched(q, options, now) == RemoveExpired(ConfigOf(options, q.flushed), q.cache, now)
    {
    }

    lemma ChargedIs(e: Elem, op: QuotaOperation)
      ensures Charged(e, op).response == e.response
      ensures e.response.errors != [] ==> Charged(e, op) == e
    {
    }

    lemma AskIs(q: QuotaState, r: QuotaRequest, now: int)
      requires r.operation.Some?
      ensures var c, op, t := ConfigOf(options, q.flushed), r.operation.value, Fetched(q, options, now);
              var k := QuotaSignature(op);
              && SignatureOf(r) == k
              && (ValueAt(t.order, k).None? && !Crowded(c, t) ==>
                    var u := Put(c, t, k, Elem(None, r, QuotaResponse("", []), k, now, true), now);
                    Ask(options, q, r, now) == (q.(cache := u.(removed := u.removed + [First(r)])),
                        QuotaResponse("", [])))
              && (ValueAt(t.order, k).Some? ==>
                    && EntryAt(t.order, k).Some?
                    && var e := ValueAt(t.order, k).value;
                       Ask(options, q, r, now) == (q.(cache := Used(c, t, k, Charged(e, op), now)), e.response))
    {
      hide Fetched, Used, Put, Charged, QuotaSignature, ConfigOf;
    }

    lemma RoomIs(q: QuotaState, r: QuotaRequest, now: int)
      requires Room(q, r, now) && EntryAt(Fetched(q, options, now).order, SignatureOf(r)).None?
      requires Idle(ConfigOf(options, q.flushed), Fetched(q, options, now))
      ensures MayPut(ConfigOf(options, q.flushed), Fetched(q, options, now), SignatureOf(r))
      ensures !Crowded(ConfigOf(options, q.flushed), Fetched(q, options, now))
    {
      hide Fetched, SignatureOf, Idle;
    }

    static lemma UsedGrows(c: Config<Elem, Note>, s: State<Elem, Note>, t: State<Elem, Note>, k: string, v: Elem,
                           now: int)
      requires Grown(s, t) && EntryAt(t.order, k).Some?
      ensures Grown(s, Used(c, t, k, v, now))
    {
    }

    static lemma EmitGrows(s: State<Elem, Note>, t: State<Elem, Note>, notes: seq<Note>)
      requires Grown(s, t)
      ensures Grown(s, t.(removed := t.removed + notes))
    {
    }

    static method Aggregate(e: Elem, operation: QuotaOperation) returns (f: Elem)
      requires e.response.errors == []
      ensures f == Charged(e, operation)
    {
      if e.pending.None? {
        var aggregator := new QuotaOperationAggregator(operation);
        f := e.(pending := Some(aggregator.Content()));
      } else {
        var aggregator := new QuotaOperationAggregator.Resume(e.pending.value);
        aggregator.MergeOperation(operation);
        f := e.(pending := Some(aggregator.Content()));
      }
    }

    method CacheResponse(request: QuotaRequest, response: QuotaResponse, now: int) returns (flushed: seq<QuotaRequest>)
      requires Valid()
      modifies cache, if cache != null then cache.repr else {}
      ensures Valid() && (cache == null ==> flushed == [])
      ensures cache != null ==>
                && fresh(cache.repr - old(cache.repr))
                && Content() == Answer(options, old(Content()), request, response, now)
                && old(Content()).cache.removed <= Content().cache.removed
                && flushed == Handed(Content().cache.removed[|old(Content()).cache.removed|..])
    {
      hide *;
      ValidParts();
      flushed := [];
      if cache != null {
        ContentIs();
        ghost var s := cache.Snapshot();
        var before := |cache.removed|;
        Store(request, response, now);
        ValidParts();
        ContentIs();
        GrownIs(s, cache.Snapshot());
        flushed := Drained(before);
      }
    }

    method Store(request: QuotaRequest, response: QuotaResponse, now: int)
      requires Valid() && cache != null
      modifies cache, cache.repr
      ensures Valid() && fresh(cache.repr - old(cache.repr))
      ensures Content() == Answer(options, old(Content()), request, response, now)
          && Grown(old(Content()).cache, Content().cache)
    {
      hide *;
      ValidParts();
      ContentIs();
      ghost var s, q := cache.Snapshot(), Content();
      ghost var t := Fetched(q, options, now);
      FetchedIs(q, now);
      AnswerIs(q, request, response, now);
      var signature := Hashing.GenerateAllocateQuotaRequestSignature(OperationOf(request));
      var found := BeginLookup(cache, signature, now);
      match found {
        case None =>
          RestIntro(cache);
        case Some(e) =>
          var lost: seq<Note> := [];
          var f := e.(inFlight := false);
          f := f.(response := response);
          if |response.errors| > 0 {
            lost := LostWith(f);
            f := f.(pending := None);
          }
          LostSame(e, response);
          EndLookup(cache, t, signature, f, now);
          RestParts(cache);
          UsedGrows(cache.config, s, t, signature, f, now);
          EmitGrows(s, cache.Snapshot(), lost);
          EmitIdle(cache.config, cache.Snapshot(), lost);
          cache.Emit(lost);
          RestIntro(cache);
      }
      ValidIntro();
      ContentIs();
    }

    static lemma LostSame(e: Elem, response: QuotaResponse)
      ensures LostWith(e.(inFlight := false, response := response)) == LostWith(e)
    {
    }

    lemma AnswerIs(q: QuotaState, r: QuotaRequest, response: QuotaResponse, now: int)
      ensures var c, k, t := ConfigOf(options, q.flushed), QuotaSignature(OperationOf(r)), Fetched(q, options, now);
              && (ValueAt(t.order, k).None? ==> Answer(options, q, r, response, now) == q.(cache := t))
              && (ValueAt(t.order, k).Some? ==>
                    && EntryAt(t.order, k).Some?
                    && var e, bad := ValueAt(t.order, k).value, response.errors != [];
                       var f := e.(inFlight := false, response := response, pending := if bad then None else e.pending);
                       var u := Used(c, t, k, f, now);
                       Answer(options, q, r, response, now)
                           == q.(cache := u.(removed := u.removed + if bad then LostWith(e) else [])))
    {
      hide Fetched, Used, LostWith, QuotaSignature, ConfigOf, OperationOf;
    }

    method Flush(now: int) returns (flushed: seq<QuotaRequest>)
      requires Valid()
      modifies cache, if cache != null then cache.repr else {}
      ensures Valid() && (cache == null ==> flushed == [])
      ensures cache != null ==>
                && fresh(cache.repr - old(cache.repr))
                && Content() == QuotaModel.Flush(options, old(Content()), now)
                && old(Content()).cache.removed <= Content().cache.removed
                && flushed == Handed(Content().cache.removed[|old(Content()).cache.removed|..])
    {
      hide *;
      ValidParts();
      flushed := [];
      if cache != null {
        ContentIs();
        FlushIs(Content(), now);
        FetchedIs(Content(), now);
        ghost var s := cache.Snapshot();
        var before := |cache.removed|;
        TakeOutExpired(cache, now);
        GrownIs(s, cache.Snapshot());
        ValidIntro();
        ValidParts();
        ContentIs();
        flushed := Drained(before);
      }
    }

    lemma FlushIs(q: QuotaState, now: int)
      ensures QuotaModel.Flush(options, q, now) == q.(cache := Fetched(q, options, now))
    {
    }

    method FlushAll(now: int) returns (flushed: seq<QuotaRequest>, ghost ks: seq<string>)
      requires Valid()
      modifies this`inFlushAll, cache, if cache != null then cache.repr else {}
      ensures Valid() && inFlushAll && (cache == null ==> flushed == [])
      ensures cache != null ==>
                && fresh(cache.repr - old(cache.repr))
                && (forall k :: k in ks <==> EntryAt(old(Content()).cache.order, k).Some?)
                && Content() == QuotaModel.FlushAll(options, old(Content()), ks, now)
                && old(Content()).cache.removed <= Content().cache.removed
                && flushed == Handed(Content().cache.removed[|old(Content()).cache.removed|..])
    {
      hide *;
      ValidParts();
      flushed, ks := [], [];
      if cache == null {
        inFlushAll := true;
        StillAbsent();
      } else {
        ContentIs();
        ghost var s, q := cache.Snapshot(), Content();
        var before := |cache.removed|;
        Dropping(options, inFlushAll, s);
        inFlushAll := true;
        cache.StopReentry(ConfigOf(options, true));
        RestIntro(cache);
        ks := TakeOutAll(cache, now);
        GrownIs(s, cache.Snapshot());
        ValidIntro();
        ValidParts();
        ContentIs();
        FlushAllIs(q, ks, now);
        flushed := Drained(before);
      }
    }

    lemma StillAbsent()
      requires cache == null && options.entries <= 0
      ensures Valid()
    {
    }

    static lemma Dropping(o: Options, flushed: bool, s: State<Elem, Note>)
      ensures ConfigOf(o, true) == ConfigOf(o, flushed).(reentrant := false, deleter := ConfigOf(o, true).deleter)
      ensures Idle(ConfigOf(o, flushed), s) ==> Idle(ConfigOf(o, true), s)
    {
    }

    lemma FlushAllIs(q: QuotaState, ks: seq<string>, now: int)
      ensures QuotaModel.FlushAll(options, q, ks, now)
          == QuotaState(RemoveEach(ConfigOf(options, true), q.cache, ks, now), true)
    {
    }
  }
}
