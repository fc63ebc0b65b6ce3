/** The quota aggregator as a state machine over the cache, between calls. */
module QuotaModel {
  import opened Lists
  import opened Proto
  import opened Signature
  import opened QuotaOperations
  import opened CacheModel
  import opened CacheCells
  import opened Rotation

  datatype Options = Options(service: string, configId: string, entries: int, refreshMs: int, expirationMs: int)

  datatype Elem = Elem(
    pending: Option<Aggregate>, request: QuotaRequest, response: QuotaResponse, signature: string, lastRefresh: int,
        inFlight: bool)

  /**
   * What an element leaves behind: the first three are requests handed to `AddRemovedItem`; `Lost` records tokens that
   * go nowhere, when an element that holds them is dropped or gets a negative response.
   */
  datatype Note =
    | First(request: QuotaRequest)
    | Refresh(request: QuotaRequest)
    | Probe(request: QuotaRequest)
    | Lost(signature: string, tokens: seq<QuotaMetric>)

  /** The requests among the notes. */
  function Handed(notes: seq<Note>): seq<QuotaRequest> {
    if notes == [] then []
    else
      var init, n := Handed(notes[..|notes| - 1]), notes[|notes| - 1];
      if n.Lost? then init else init + [n.request]
  }

  const NO_OPERATION := QuotaOperation("", "", "", map[], [], Unspecified)
  const EMPTY_RESPONSE := QuotaResponse("", [])

  /** The operation of a request, or the default instance. */
  function OperationOf(r: QuotaRequest): QuotaOperation {
    match r.operation case Some(op) => op case None => NO_OPERATION
  }

  function SignatureOf(r: QuotaRequest): string { QuotaSignature(OperationOf(r)) }

  function KeyOf(n: Note): string {
    match n case Lost(signature, _) => signature case _ => SignatureOf(n.request)
  }

  function LostWith(e: Elem): seq<Note> {
    match e.pending case None => [] case Some(a) => [Lost(e.signature, ToProto(a).metrics)]
  }

  /** `ReturnAllocateQuotaRequestAndClear`: the aggregate, or else the stored initial request. */
  function Drained(o: Options, e: Elem): QuotaRequest {
    match e.pending
    case Some(a) => QuotaRequest(o.service, o.configId, Some(ToProto(a)))
    case None => e.request
  }

  function AsProbe(r: QuotaRequest): QuotaRequest { r.(operation := Some(OperationOf(r).(mode := CheckOnly))) }

  predicate ShouldDrop(o: Options, e: Elem, now: int) { now - e.lastRefresh >= o.expirationMs * CYCLES_PER_MS }

  /** `OnCacheEntryDelete`, before `FlushAll`. */
  function OnDelete(o: Options, e: Elem, now: int): Fate<Elem, Note> {
    if ShouldDrop(o, e, now) then Drop(LostWith(e))
    else if e.inFlight then Keep(e, [])
    else if e.pending.Some? || e.response.errors != [] then
      var request := Drained(o, e);
      Keep(e.(pending := None, inFlight := true, lastRefresh := now),
           [if e.response.errors != [] then Probe(AsProbe(request)) else Refresh(request)])
    else Keep(e, [])
  }

  /** `flushed`: `FlushAll` was called, and since then the deleter drops everything. */
  datatype QuotaState = QuotaState(cache: State<Elem, Note>, flushed: bool)

  function ConfigOf(o: Options, flushed: bool): Config<Elem, Note> {
    Config(false, o.entries, if o.refreshMs < 0 then -1 else o.refreshMs * CYCLES_PER_MS, !flushed,
           if flushed then ((e: Elem, now: int) => Drop(LostWith(e))) else ((e: Elem, now: int) => OnDelete(o, e, now)))
  }

  function Emit(s: State<Elem, Note>, notes: seq<Note>): State<Elem, Note> { s.(removed := s.removed + notes) }

  function Fetched(q: QuotaState, o: Options, now: int): State<Elem, Note> {
    RemoveExpired(ConfigOf(o, q.flushed), q.cache, now)
  }

  function Charged(e: Elem, op: QuotaOperation): Elem {
    if e.response.errors != [] then e
    else e.(pending := Some(match e.pending case None => Start(op) case Some(a) => Merge(a, op)))
  }

  function NewElem(request: QuotaRequest, now: int): Elem {
    Elem(None, request, EMPTY_RESPONSE, SignatureOf(request), now, true)
  }

  /** `Quota`, on a request for this service that has an operation. */
  function Ask(o: Options, q: QuotaState, request: QuotaRequest, now: int): (QuotaState, QuotaResponse) {
    var c, k, t := ConfigOf(o, q.flushed), SignatureOf(request), Fetched(q, o, now);
    match ValueAt(t.order, k)
    case None => (q.(cache := Emit(Inserted(c, t, k, NewElem(request, now), now), [First(request)])), EMPTY_RESPONSE)
    case Some(e) => (q.(cache := Used(c, t, k, Charged(e, OperationOf(request)), now)), e.response)
  }

  function Answered(e: Elem, response: QuotaResponse): Elem {
    e.(inFlight := false, response := response, pending := if response.errors != [] then None else e.pending)
  }

  /** `CacheResponse`. */
  function Answer(o: Options, q: QuotaState, request: QuotaRequest, response: QuotaResponse, now: int): QuotaState {
    var c, k, t := ConfigOf(o, q.flushed), SignatureOf(request), Fetched(q, o, now);
    match ValueAt(t.order, k)
    case None => q.(cache := t)
    case Some(e) =>
      q.(cache := Emit(Used(c, t, k, Answered(e, response), now), if response.errors != [] then LostWith(e) else []))
  }

  function Flush(o: Options, q: QuotaState, now: int): QuotaState { q.(cache := Fetched(q, o, now)) }

  /** `FlushAll`, where `ks` lists the keys of the table in the order of the hash table. */
  function FlushAll(o: Options, q: QuotaState, ks: seq<string>, now: int): QuotaState {
    QuotaState(RemoveEach(ConfigOf(o, true), q.cache, ks, now), true)
  }
}
