/** The check aggregator as a state machine over the cache, between calls. */
module CheckModel {
  import opened Lists
  import opened Proto
  import opened Signature
  import opened Operations
  import opened CacheModel
  import opened CacheCells

  datatype Options = Options(service: string, configId: string, entries: int, flushMs: int, expirationMs: int,
      kinds: Kinds)

  /** `signature` is for the record only: the key under which the element is cached. */
  datatype Elem = Elem(
    signature: string, pending: Option<Aggregate>, response: CheckResponse, lastCheck: int, quotaScale: int,
        isFlushing: bool)

  /** A request handed to `AddRemovedItem`, with the key of the element it was aggregated in. */
  datatype Flushed = Flushed(signature: string, request: CheckRequest)

  type Checks = State<Elem, Flushed>

  function OperationOf(r: CheckRequest): Operation {
    match r.operation case Some(op) => op case None => Operation("", "", "", None, None, map[], [], [], Low)
  }

  function SignatureOf(r: CheckRequest): string { CheckSignature(OperationOf(r)) }

  function KeyOf(f: Flushed): string { f.signature }

  function RequestOf(o: Options, a: Aggregate): CheckRequest { CheckRequest(o.service, o.configId, Some(ToProto(a))) }

  /** `OnCacheEntryDelete`. */
  function OnDelete(o: Options, e: Elem): Fate<Elem, Flushed> {
    match e.pending case None => Drop([]) case Some(a) => Drop([Flushed(e.signature, RequestOf(o, a))])
  }

  function ConfigOf(o: Options): Config<Elem, Flushed> {
    Config(true, o.entries, if o.expirationMs < 0 then -1 else o.expirationMs * CYCLES_PER_MS, false,
           (e: Elem, now: int) => OnDelete(o, e))
  }

  function Fetched(o: Options, s: Checks, now: int): Checks { RemoveExpired(ConfigOf(o), s, now) }

  predicate ShouldFlush(o: Options, e: Elem, now: int) { now - e.lastCheck >= o.flushMs * CYCLES_PER_MS }

  function Aggregated(o: Options, e: Elem, op: Operation): Elem {
    e.(pending := Some(match e.pending case None => Start(o.kinds, op) case Some(a) => Merge(o.kinds, a, op)))
  }

  /** What a check does to a cached element, and the code it returns. */
  function Checked(o: Options, e: Elem, op: Operation, now: int): (Elem, Code) {
    if e.response.errors != [] then
      if ShouldFlush(o, e, now) then (e.(lastCheck := now), NotFound) else (e, Ok)
    else if ShouldFlush(o, e, now) then (Aggregated(o, e, op).(isFlushing := true, lastCheck := now), NotFound)
    else (Aggregated(o, e, op), Ok)
  }

  const NO_RESPONSE := CheckResponse("", [])

  /** `Check`, on a request for this service that has an operation of low importance. */
  function Check(o: Options, s: Checks, r: CheckRequest, now: int): (Checks, Code, CheckResponse) {
    var c, k, t := ConfigOf(o), SignatureOf(r), Fetched(o, s, now);
    match ValueAt(t.order, k)
    case None => (t, NotFound, NO_RESPONSE)
    case Some(e) =>
      var (f, code) := Checked(o, e, OperationOf(r), now);
      (Used(c, t, k, f, now), code, if code == Ok then e.response else NO_RESPONSE)
  }

  function Responded(e: Elem, response: CheckResponse, now: int): Elem {
    e.(lastCheck := now, response := response, quotaScale := 0, isFlushing := false)
  }

  function NewElem(k: string, response: CheckResponse, now: int): Elem { Elem(k, None, response, now, 0, false) }

  /** `CacheResponse`. */
  function Respond(o: Options, s: Checks, r: CheckRequest, response: CheckResponse, now: int): Checks {
    var c, k, t := ConfigOf(o), SignatureOf(r), Fetched(o, s, now);
    match ValueAt(t.order, k)
    case None => Put(c, t, k, NewElem(k, response, now), now)
    case Some(e) => Used(c, t, k, Responded(e, response, now), now)
  }
}
