/** Runs of the quota aggregator: where tokens go, when requests are sent, and which answers are given. */
module QuotaRuns {
  import opened Lists
  import opened Proto
  import opened Signature
  import opened QuotaOperations
  import opened CacheModel
  import opened CacheInvariant
  import opened CacheCells
  import CacheTheorems
  import Reentry
  import opened Rotation
  import opened QuotaModel
  import opened QuotaAlgebra

  datatype Event =
    | DoAsk(request: QuotaRequest, now: int)
    | DoAnswer(request: QuotaRequest, response: QuotaResponse, now: int)
    | DoFlush(now: int)
    | DoFlushAll(ks: seq<string>, now: int)

  function Step(o: Options, q: QuotaState, e: Event): QuotaState {
    match e
    case DoAsk(request, now) => Ask(o, q, request, now).0
    case DoAnswer(request, response, now) => Answer(o, q, request, response, now)
    case DoFlush(now) => Flush(o, q, now)
    case DoFlushAll(ks, now) => FlushAll(o, q, ks, now)
  }

  function Run(o: Options, es: seq<Event>): QuotaState {
    if es == [] then QuotaState(State([], [], [], [], []), false) else Step(o, Run(o, es[..|es| - 1]), es[|es| - 1])
  }

  /** Requests are free of NUL; and when a new element is inserted into a full cache, the insertion returns. */
  ghost predicate Allowed(o: Options, q: QuotaState, e: Event) {
    match e
    case DoAsk(request, now) =>
      && request.operation.Some? && PlainQuota(OperationOf(request))
      && var c, t := ConfigOf(o, q.flushed), Fetched(q, o, now);
         EntryAt(t.order, SignatureOf(request)).None? && Crowded(c, t) ==>
             Reentry.FirstDropped(c, t.order, now) < |t.order|
    case DoFlushAll(ks, _) => Covers(q.cache, ks)
    case _ => true
  }

  ghost predicate Legal(o: Options, es: seq<Event>) {
    es != [] ==>
      && Legal(o, es[..|es| - 1])
      && Allowed(o, Run(o, es[..|es| - 1]), es[|es| - 1])
      && Clock(es[..|es| - 1], es[|es| - 1].now) <= es[|es| - 1].now
  }

  function Clock(es: seq<Event>, start: int): int { if es == [] then start else es[|es| - 1].now }

  // ----- What a run has emitted for a signature -----

  datatype Kind = IsFirst | IsRefresh | IsProbe | IsLost

  function KindOf(n: Note): Kind {
    match n case First(_) => IsFirst case Refresh(_) => IsRefresh case Probe(_) => IsProbe case Lost(_, _) => IsLost
  }

  function Asks(n: Note, metric: string): int {
    match n case Lost(_, tokens) => Tokens(tokens, metric) case _ => Tokens(OperationOf(n.request).metrics, metric)
  }

  /** Tokens of the notes of one kind. */
  function Sum(notes: seq<Note>, kind: Kind, metric: string): int {
    if notes == [] then 0
    else
      var n := notes[|notes| - 1];
      Sum(notes[..|notes| - 1], kind, metric) + if KindOf(n) == kind then Asks(n, metric) else 0
  }

  function Count(notes: seq<Note>, kind: Kind): nat {
    if notes == [] then 0 else Count(notes[..|notes| - 1], kind) + if KindOf(notes[|notes| - 1]) == kind then 1 else 0
  }

  /** How many requests were sent. */
  function Requests(notes: seq<Note>): nat { Count(notes, IsFirst) + Count(notes, IsRefresh) + Count(notes, IsProbe) }

  function CellOf(o: Options, es: seq<Event>, k: string): Cell<Elem, Note> { CellAt(Run(o, es).cache, KeyOf, k) }

  function SentFor(o: Options, es: seq<Event>, k: string): seq<Note> { CellOf(o, es, k).sent }

  function PendingTokens(v: Option<Elem>, metric: string): int {
    if v.Some? && v.value.pending.Some? then Held(v.value.pending.value.values, metric) else 0
  }

  // ----- What a run should do, read off the calls -----

  /** The response that the last call, an `Ask`, returned. */
  function Reply(o: Options, es: seq<Event>): QuotaResponse
    requires es != [] && es[|es| - 1].DoAsk?
  {
    Ask(o, Run(o, es[..|es| - 1]), es[|es| - 1].request, es[|es| - 1].now).1
  }

  /** Tokens of the requests that got a positive response. */
  function Admitted(o: Options, es: seq<Event>, k: string, metric: string): int {
    if es == [] then 0
    else
      var e := es[|es| - 1];
      Admitted(o, es[..|es| - 1], k, metric)
      + if e.DoAsk? && SignatureOf(e.request) == k && Reply(o, es).errors == [] then
          Tokens(OperationOf(e.request).metrics, metric) else 0
  }

  /** All values of the metric in requests with the signature are int64. */
  ghost predicate Counted(es: seq<Event>, k: string, metric: string) {
    es != [] ==>
      && Counted(es[..|es| - 1], k, metric)
      && var e := es[|es| - 1];
         e.DoAsk? && SignatureOf(e.request) == k ==> Countable(OperationOf(e.request).metrics, metric)
  }

  predicate Responds(e: Event, k: string) { e.DoAnswer? && SignatureOf(e.request) == k }

  /** A request for the signature was sent after the last response to it. */
  predicate Waiting(o: Options, es: seq<Event>, k: string) {
    && es != []
    && !Responds(es[|es| - 1], k)
    && (Requests(SentFor(o, es, k)) > Requests(SentFor(o, es[..|es| - 1], k)) || Waiting(o, es[..|es| - 1], k))
  }

  /** The last response given for the signature, or the empty one since the last miss. */
  function LastAnswer(o: Options, es: seq<Event>, k: string): QuotaResponse {
    if es == [] then EMPTY_RESPONSE
    else if Responds(es[|es| - 1], k) then es[|es| - 1].response
    else if Count(SentFor(o, es, k), IsFirst) > Count(SentFor(o, es[..|es| - 1], k), IsFirst) then EMPTY_RESPONSE
    else LastAnswer(o, es[..|es| - 1], k)
  }

  /** When a request for the signature was last sent. */
  function LastSent(o: Options, es: seq<Event>, k: string): int {
    if es == [] then 0
    else if Requests(SentFor(o, es, k)) > Requests(SentFor(o, es[..|es| - 1], k)) then es[|es| - 1].now
    else LastSent(o, es[..|es| - 1], k)
  }

  /** The request of the last miss. */
  function FirstRequest(notes: seq<Note>): Option<QuotaRequest> {
    if notes == [] then None
    else if notes[|notes| - 1].First? then Some(notes[|notes| - 1].request)
    else FirstRequest(notes[..|notes| - 1])
  }

  /** Operations are pending no longer once a request was sent or tokens were lost. */
  function Left<T>(ops: seq<T>, before: seq<Note>, after: seq<Note>): seq<T> {
    if Requests(after) > Requests(before) || Count(after, IsLost) > Count(before, IsLost) then [] else ops
  }

  /**
   * The operations that were admitted on a cached response since the last request was sent or tokens were lost: those
   * that are still to be sent.
   */
  function Unsent(o: Options, es: seq<Event>, k: string): seq<QuotaOperation> {
    if es == [] then []
    else
      var e, before, after := es[|es| - 1], SentFor(o, es[..|es| - 1], k), SentFor(o, es, k);
      var left := Left(Unsent(o, es[..|es| - 1], k), before, after);
      if e.DoAsk? && SignatureOf(e.request) == k && Reply(o, es).errors == []
          && Count(after, IsFirst) == Count(before, IsFirst)
      then left + [OperationOf(e.request)] else left
  }

  /** When the entry was last inserted, by a miss or by the deleter. */
  function Placed(o: Options, es: seq<Event>, k: string): int {
    if es == [] then 0
    else
      var x, z := CellOf(o, es[..|es| - 1], k), CellOf(o, es, k);
      if Count(z.sent, IsFirst) > Count(x.sent, IsFirst) || |z.gone| > |x.gone| then es[|es| - 1].now
      else Placed(o, es[..|es| - 1], k)
  }

  function PendingOf(ops: seq<QuotaOperation>): Option<Aggregate> { if ops == [] then None else Some(Gathered(ops)) }

  // ----- One element -----

  ghost predicate Good(k: string, e: Elem) {
    && e.signature == k && e.request.operation.Some? && PlainQuota(OperationOf(e.request))
    && SignatureOf(e.request) == k
    && (e.pending.Some? ==> e.response.errors == [] && RoutesTo(e.pending.value, k))
  }

  predicate PendingCounted(v: Option<Elem>, metric: string) {
    v.Some? && v.value.pending.Some? ==> CountableIn(v.value.pending.value.values, metric)
  }

  /** All the tokens that were not left pending. */
  function Spent(notes: seq<Note>, metric: string): int {
    Sum(notes, IsFirst, metric) + Sum(notes, IsRefresh, metric) + Sum(notes, IsLost, metric)
  }

  lemma {:induction false} SumConcat(a: seq<Note>, b: seq<Note>, kind: Kind, metric: string)
    ensures Sum(a + b, kind, metric) == Sum(a, kind, metric) + Sum(b, kind, metric)
    ensures Count(a + b, kind) == Count(a, kind) + Count(b, kind)
  {
    if b == [] {
      assert a + b == a;
    } else {
      SumConcat(a, b[..|b| - 1], kind, metric);
      assert (a + b)[..|a + b| - 1] == a + b[..|b| - 1];
    }
  }

  lemma SpentConcat(a: seq<Note>, b: seq<Note>, metric: string)
    ensures Spent(a + b, metric) == Spent(a, metric) + Spent(b, metric)
    ensures Requests(a + b) == Requests(a) + Requests(b)
    ensures Count(a + b, IsFirst) == Count(a, IsFirst) + Count(b, IsFirst)
  {
    SumConcat(a, b, IsFirst, metric);
    SumConcat(a, b, IsRefresh, metric);
    SumConcat(a, b, IsProbe, metric);
    SumConcat(a, b, IsLost, metric);
  }

  lemma SumOne(n: Note, metric: string)
    ensures Spent([n], metric) == if n.Probe? then 0 else Asks(n, metric)
    ensures Requests([n]) == if n.Lost? then 0 else 1
    ensures Count([n], IsFirst) == if n.First? then 1 else 0
    ensures Spent([], metric) == 0 && Requests([]) == 0 && Count([], IsFirst) == 0
  {
    KindOne(n, IsFirst, metric);
    KindOne(n, IsRefresh, metric);
    KindOne(n, IsProbe, metric);
    KindOne(n, IsLost, metric);
  }

  lemma {:induction false} FirstConcat(a: seq<Note>, b: seq<Note>)
    ensures FirstRequest(a + b) == if FirstRequest(b).Some? then FirstRequest(b) else FirstRequest(a)
  {
    if b == [] {
      assert a + b == a;
    } else {
      FirstConcat(a, b[..|b| - 1]);
      assert (a + b)[..|a + b| - 1] == a + b[..|b| - 1];
    }
  }

  lemma KindOne(n: Note, kind: Kind, metric: string)
    ensures Sum([n], kind, metric) == if KindOf(n) == kind then Asks(n, metric) else 0
    ensures Count([n], kind) == if KindOf(n) == kind then 1 else 0
  {
    assert [n][..0] == [];
  }

  /**
   * What the deleter does with a good element: it emits at most one note, under the element's key, and loses no token.
   */
  lemma DeleterKeeps(o: Options, flushed: bool, k: string, e: Elem, metric: string, now: int)
    requires Good(k, e)
    ensures var f := ConfigOf(o, flushed).Outcome(e, now);
            && Bears(ConfigOf(o, flushed), k, e, KeyOf, now)
            && Spent(f.out, metric) + PendingTokens(Kept(f), metric) == PendingTokens(Some(e), metric)
            && Count(f.out, IsFirst) == 0 && Requests(f.out) <= 1
            && (Requests(f.out) == 1 ==> f.Keep? && !e.inFlight)
            && (flushed ==> f.Drop?)
            && (PendingCounted(Some(e), metric) ==> PendingCounted(Kept(f), metric))
            && (f.Keep? ==>
                  && Good(k, f.value) && f.value.response == e.response
                  && (f.value.inFlight <==> e.inFlight || Requests(f.out) == 1)
                  && f.value.lastRefresh == if Requests(f.out) == 1 then now else e.lastRefresh)
  {
    hide Signature.QuotaSignature, Sum, Count, Tokens, Held, ToProto, RoutesTo, CountableIn, PlainQuota;
    var f := ConfigOf(o, flushed).Outcome(e, now);
    if e.pending.Some? {
      ToProtoKeeps(e.pending.value, metric);
      ToProtoRoutes(e.pending.value, k);
    }
    ProbeSame(e.request);
    if f.out != [] {
      assert f.out == [f.out[0]];
      SumOne(f.out[0], metric);
    } else {
      SumOne(First(e.request), metric);
    }
  }

  /** What the deleter does with the initial request and with the aggregate of an element. */
  lemma DeleterBooks(o: Options, flushed: bool, e: Elem, now: int)
    ensures var f := ConfigOf(o, flushed).Outcome(e, now);
            && FirstRequest(f.out) == None
            && (f.Keep? ==> f.value.request == e.request && Count(f.out, IsLost) == 0)
            && (f.Keep? ==> f.value.pending == if Requests(f.out) > 0 then None else e.pending)
            && (f.Drop? && e.pending.Some? ==> Count(f.out, IsLost) > 0)
            && (f.Drop? ==> Requests(f.out) == 0)
            && (e.pending.None? ==> Count(f.out, IsLost) == 0)
  {
    hide ToProto, Sum, Count, Tokens;
    var f := ConfigOf(o, flushed).Outcome(e, now);
    SumOne(First(e.request), "");
    KindOne(First(e.request), IsLost, "");
    NoCount(IsLost);
    if f.out != [] {
      assert f.out == [f.out[0]];
      SumOne(f.out[0], "");
      KindOne(f.out[0], IsLost, "");
      assert f.out[..0] == [];
    }
  }

  lemma NoCount(kind: Kind)
    ensures Count([], kind) == 0 && FirstRequest([]) == None
  {
  }

  lemma ProbeSame(r: QuotaRequest)
    ensures SignatureOf(AsProbe(r)) == SignatureOf(r)
  {
  }

  // ----- One cell, within one call -----

  /** Tokens of an int64 metric are spent or pending. */
  ghost predicate Balanced(o: Options, es: seq<Event>, k: string, x: Cell<Elem, Note>, metric: string) {
    Counted(es, k, metric) ==>
      PendingCounted(x.value, metric) && Admitted(o, es, k, metric)
          == Spent(x.sent, metric) + PendingTokens(x.value, metric)
  }

  /** The books of the cell after `es`. */
  ghost predicate CellKept(o: Options, es: seq<Event>, k: string, x: Cell<Elem, Note>) {
    && (x.value.Some? ==>
          && Good(k, x.value.value)
          && (x.value.value.inFlight <==> Waiting(o, es, k))
          && x.value.value.response == LastAnswer(o, es, k)
          && x.value.value.lastRefresh == LastSent(o, es, k))
    && Recalls(x, Unsent(o, es, k), Placed(o, es, k))
    && forall metric :: Balanced(o, es, k, x, metric)
  }

  /** The cell holds the operations `ops` and the request of the last miss, and was last inserted at `placed`. */
  ghost predicate Recalls(x: Cell<Elem, Note>, ops: seq<QuotaOperation>, placed: int) {
    match x.value
    case None => ops == []
    case Some(e) => e.pending == PendingOf(ops) && FirstRequest(x.sent) == Some(e.request) && x.since == placed
  }

  /** The cell was `x` after `es`, and the next call has so far made it `y`, by expiry or eviction. */
  ghost predicate CellMoved(o: Options, es: seq<Event>, k: string, x: Cell<Elem, Note>, y: Cell<Elem, Note>, now: int) {
    && (y.value.Some? ==>
          && x.value.Some? && Good(k, y.value.value)
          && (y.value.value.inFlight <==> Waiting(o, es, k) || Requests(y.sent) > Requests(x.sent))
          && y.value.value.response == LastAnswer(o, es, k)
          && y.value.value.lastRefresh == if Requests(y.sent) > Requests(x.sent) then now else LastSent(o, es, k))
    && StillRecalls(o, es, k, x, y, now)
    && (forall metric :: Balanced(o, es, k, y, metric))
    && Count(y.sent, IsFirst) == Count(x.sent, IsFirst)
    && Requests(x.sent) <= Requests(y.sent) <= Requests(x.sent) + 1
    && (Requests(y.sent) > Requests(x.sent) ==> !Waiting(o, es, k))
  }

  ghost predicate StillRecalls(o: Options, es: seq<Event>, k: string, x: Cell<Elem, Note>, y: Cell<Elem, Note>,
                               now: int)
  {
    && Recalls(y, Left(Unsent(o, es, k), x.sent, y.sent), if |y.gone| > |x.gone| then now else Placed(o, es, k))
    && |y.gone| >= |x.gone| && Count(y.sent, IsLost) >= Count(x.sent, IsLost)
    && (y.value.Some? ==> Count(y.sent, IsLost) == Count(x.sent, IsLost))
  }

  lemma NotMoved(o: Options, es: seq<Event>, k: string, x: Cell<Elem, Note>, now: int)
    requires CellKept(o, es, k, x)
    ensures CellMoved(o, es, k, x, x, now)
  {
  }

  /**
   * Retirement: an element that expiry has just refreshed is in flight, and sends nothing when it is evicted in the
   * same call.
   */
  lemma RetiredMoved(o: Options, es: seq<Event>, k: string, flushed: bool, x: Cell<Elem, Note>, y: Cell<Elem, Note>,
                     now: int)
    requires CellMoved(o, es, k, x, y, now)
    ensures CellMoved(o, es, k, x, Retired(ConfigOf(o, flushed), y, now), now)
    ensures var z := Retired(ConfigOf(o, flushed), y, now);
            && (flushed ==> Requests(z.sent) == Requests(y.sent))
            && (y == x && Requests(z.sent) > Requests(x.sent) ==> z.value.Some?)
  {
    hide *;
    var c := ConfigOf(o, flushed);
    var z := Retired(c, y, now);
    RetiredIs(c, y, now);
    MovedFacts(o, es, k, x, y, now);
    if y.value.Some? {
      var f := c.Outcome(y.value.value, now);
      DeleterKeeps(o, flushed, k, y.value.value, "", now);
      KeptIs(f);
      SpentConcat(y.sent, f.out, "");
      RetiredRecalls(o, es, k, flushed, x, y, now);
      forall metric ensures Balanced(o, es, k, z, metric) {
        BalanceRetired(o, es, k, flushed, y, metric, now);
      }
    }
    MovedIntro(o, es, k, x, z, now);
  }

  lemma RetiredRecalls(o: Options, es: seq<Event>, k: string, flushed: bool, x: Cell<Elem, Note>, y: Cell<Elem, Note>,
                       now: int)
    requires StillRecalls(o, es, k, x, y, now) && y.value.Some? && Requests(x.sent) <= Requests(y.sent)
    ensures StillRecalls(o, es, k, x, Retired(ConfigOf(o, flushed), y, now), now)
  {
    var c := ConfigOf(o, flushed);
    var f := c.Outcome(y.value.value, now);
    hide *;
    RecallsParts(o, es, k, x, y, now);
    RetiredIs(c, y, now);
    KeptIs(f);
    DeleterBooks(o, flushed, y.value.value, now);
    FirstConcat(y.sent, f.out);
    SpentConcat(y.sent, f.out, "");
    SumConcat(y.sent, f.out, IsLost, "");
    LeftIs(Unsent(o, es, k), x.sent, y.sent);
    LeftIs(Unsent(o, es, k), x.sent, y.sent + f.out);
    PendingIs(Left(Unsent(o, es, k), x.sent, y.sent));
    PendingIs([]);
    RecallsIntro(o, es, k, x, Retired(c, y, now), now);
  }

  lemma LeftIs<T>(ops: seq<T>, before: seq<Note>, after: seq<Note>)
    ensures Left(ops, before, after) ==
            if Requests(after) > Requests(before) || Count(after, IsLost) > Count(before, IsLost) then [] else ops
  {
  }

  lemma PendingIs(ops: seq<QuotaOperation>)
    ensures PendingOf(ops).None? <==> ops == []
  {
  }

  lemma RecallsParts(o: Options, es: seq<Event>, k: string, x: Cell<Elem, Note>, y: Cell<Elem, Note>, now: int)
    requires StillRecalls(o, es, k, x, y, now)
    ensures var left := Left(Unsent(o, es, k), x.sent, y.sent);
            match y.value
            case None => left == []
            case Some(e) =>
              && e.pending == PendingOf(left) && FirstRequest(y.sent) == Some(e.request)
              && y.since == (if |y.gone| > |x.gone| then now else Placed(o, es, k))
              && Count(y.sent, IsLost) == Count(x.sent, IsLost)
    ensures |y.gone| >= |x.gone| && Count(y.sent, IsLost) >= Count(x.sent, IsLost)
  {
  }

  lemma RecallsIntro(o: Options, es: seq<Event>, k: string, x: Cell<Elem, Note>, y: Cell<Elem, Note>, now: int)
    requires var left := Left(Unsent(o, es, k), x.sent, y.sent);
             match y.value
             case None => left == []
             case Some(e) =>
               && e.pending == PendingOf(left) && FirstRequest(y.sent) == Some(e.request)
               && y.since == (if |y.gone| > |x.gone| then now else Placed(o, es, k))
               && Count(y.sent, IsLost) == Count(x.sent, IsLost)
    requires |y.gone| >= |x.gone| && Count(y.sent, IsLost) >= Count(x.sent, IsLost)
    ensures StillRecalls(o, es, k, x, y, now)
  {
  }

  lemma KeptIs(f: Fate<Elem, Note>)
    ensures Kept(f) == if f.Keep? then Some(f.value) else None
  {
  }

  lemma RetiredIs(c: Config<Elem, Note>, y: Cell<Elem, Note>, now: int)
    ensures Retired(c, y, now) ==
            match y.value
            case None => y
            case Some(e) =>
              var f := c.Outcome(e, now);
              Cell(Kept(f), if Kept(f).Some? then now else 0, y.gone + [e], y.sent + f.out)
  {
  }

  lemma MovedIntro(o: Options, es: seq<Event>, k: string, x: Cell<Elem, Note>, y: Cell<Elem, Note>, now: int)
    requires y.value.Some? ==>
               && x.value.Some? && Good(k, y.value.value)
               && (y.value.value.inFlight <==> Waiting(o, es, k) || Requests(y.sent) > Requests(x.sent))
               && y.value.value.response == LastAnswer(o, es, k)
               && y.value.value.lastRefresh == if Requests(y.sent) > Requests(x.sent) then now else LastSent(o, es, k)
    requires StillRecalls(o, es, k, x, y, now)
    requires forall metric :: Balanced(o, es, k, y, metric)
    requires Count(y.sent, IsFirst) == Count(x.sent, IsFirst)
        && Requests(x.sent) <= Requests(y.sent) <= Requests(x.sent) + 1
    requires Requests(y.sent) > Requests(x.sent) ==> !Waiting(o, es, k)
    ensures CellMoved(o, es, k, x, y, now)
  {
  }

  lemma BalanceRetired(o: Options, es: seq<Event>, k: string, flushed: bool, y: Cell<Elem, Note>, metric: string,
                       now: int)
    requires y.value.Some? && Good(k, y.value.value) && Balanced(o, es, k, y, metric)
    ensures Balanced(o, es, k, Retired(ConfigOf(o, flushed), y, now), metric)
  {
    hide Good, Admitted, Spent, Requests, Count, ConfigOf, PendingTokens, PendingCounted;
    DeleterKeeps(o, flushed, k, y.value.value, metric, now);
    SpentConcat(y.sent, ConfigOf(o, flushed).Outcome(y.value.value, now).out, metric);
  }

  /** From one cell to the next, at most one request went out; and only a first one while another was unanswered. */
  ghost predicate Paced(o: Options, init: seq<Event>, k: string, x: Cell<Elem, Note>, z: Cell<Elem, Note>) {
    && Requests(x.sent) <= Requests(z.sent) <= Requests(x.sent) + 1
    && (Requests(z.sent) > Requests(x.sent) && Count(z.sent, IsFirst) == Count(x.sent, IsFirst) ==>
         !Waiting(o, init, k))
  }

  ghost predicate Follows(es: seq<Event>, init: seq<Event>) {
    es != [] && init == es[..|es| - 1]
  }

  predicate Concerns(e: Event, k: string) { (e.DoAsk? || e.DoAnswer?) && SignatureOf(e.request) == k }

  /** The books after one more call, in terms of the cells before and after it. */
  lemma BooksUnfold(o: Options, es: seq<Event>, init: seq<Event>, k: string)
    requires Follows(es, init)
    ensures var e, x, z := es[|es| - 1], CellOf(o, init, k), CellOf(o, es, k);
            && (Waiting(o, es, k) <==> !Responds(e, k) && (Requests(z.sent) > Requests(x.sent) || Waiting(o, init, k)))
            && LastAnswer(o, es, k) == (if Responds(e, k) then e.response
                                        else if Count(z.sent, IsFirst) > Count(x.sent, IsFirst) then EMPTY_RESPONSE
                                        else LastAnswer(o, init, k))
            && LastSent(o, es, k) == (if Requests(z.sent) > Requests(x.sent) then e.now else LastSent(o, init, k))
            && Placed(o, es, k) == (if Count(z.sent, IsFirst) > Count(x.sent, IsFirst) || |z.gone| > |x.gone| then e.now
                                    else Placed(o, init, k))
            && Unsent(o, es, k) == Left(Unsent(o, init, k), x.sent, z.sent)
                 + (if e.DoAsk? && SignatureOf(e.request) == k && Reply(o, es).errors == []
                       && Count(z.sent, IsFirst) == Count(x.sent, IsFirst) then [OperationOf(e.request)] else [])
    ensures es[|es| - 1].DoAsk? && SignatureOf(es[|es| - 1].request) == k ==>
              forall metric :: Admitted(o, es, k, metric) == Admitted(o, init, k, metric)
                + if Reply(o, es).errors == [] then Tokens(OperationOf(es[|es| - 1].request).metrics, metric) else 0
    ensures !(es[|es| - 1].DoAsk? && SignatureOf(es[|es| - 1].request) == k) ==>
              forall metric :: Admitted(o, es, k, metric) == Admitted(o, init, k, metric)
    ensures forall metric :: Counted(es, k, metric) ==>
              && Counted(init, k, metric)
              && (es[|es| - 1].DoAsk? && SignatureOf(es[|es| - 1].request) == k ==>
                    Countable(OperationOf(es[|es| - 1].request).metrics, metric))
  {
    hide CellOf, Requests, Count, Reply, Tokens, SignatureOf, Countable;
  }

  lemma MovedFacts(o: Options, es: seq<Event>, k: string, x: Cell<Elem, Note>, y: Cell<Elem, Note>, now: int)
    requires CellMoved(o, es, k, x, y, now)
    ensures y.value.Some? ==>
              && x.value.Some? && Good(k, y.value.value)
              && (y.value.value.inFlight <==> Waiting(o, es, k) || Requests(y.sent) > Requests(x.sent))
              && y.value.value.response == LastAnswer(o, es, k)
              && y.value.value.lastRefresh == if Requests(y.sent) > Requests(x.sent) then now else LastSent(o, es, k)
    ensures forall metric :: Balanced(o, es, k, y, metric)
    ensures StillRecalls(o, es, k, x, y, now)
    ensures Count(y.sent, IsFirst) == Count(x.sent, IsFirst) && Requests(x.sent) <= Requests(y.sent)
    ensures Requests(y.sent) > Requests(x.sent) ==> Requests(y.sent) == Requests(x.sent) + 1 && !Waiting(o, es, k)
  {
    hide Good, Waiting, LastAnswer, LastSent, Balanced, Requests, Count, StillRecalls;
  }

  lemma KeptIntro(o: Options, es: seq<Event>, k: string, x: Cell<Elem, Note>)
    requires x.value.Some? ==>
               && Good(k, x.value.value) && (x.value.value.inFlight <==> Waiting(o, es, k))
               && x.value.value.response == LastAnswer(o, es, k) && x.value.value.lastRefresh == LastSent(o, es, k)
    requires Recalls(x, Unsent(o, es, k), Placed(o, es, k))
    requires forall metric :: Balanced(o, es, k, x, metric)
    ensures CellKept(o, es, k, x)
  {
  }

  lemma PacedIntro(o: Options, init: seq<Event>, k: string, x: Cell<Elem, Note>, z: Cell<Elem, Note>)
    requires Requests(x.sent) <= Requests(z.sent) <= Requests(x.sent) + 1
    requires Requests(z.sent) > Requests(x.sent) && Count(z.sent, IsFirst) == Count(x.sent, IsFirst) ==>
        !Waiting(o, init, k)
    ensures Paced(o, init, k, x, z)
  {
  }

  /** A call that does not concern the signature. */
  lemma OtherKept(o: Options, es: seq<Event>, init: seq<Event>, k: string, x: Cell<Elem, Note>)
    requires Follows(es, init) && !Concerns(es[|es| - 1], k)
    requires CellMoved(o, init, k, x, CellOf(o, es, k), es[|es| - 1].now) && x == CellOf(o, init, k)
    ensures CellKept(o, es, k, CellOf(o, es, k)) && Paced(o, init, k, x, CellOf(o, es, k))
  {
    hide Good, Spent, Requests, Count, CellOf, PendingTokens, PendingCounted, Reply, Balanced, Counted, Admitted;
    BooksUnfold(o, es, init, k);
    OtherRecalls(o, es, init, k, x);
    forall metric ensures Balanced(o, es, k, CellOf(o, es, k), metric) {
      OtherBalanced(o, es, init, k, metric);
    }
  }

  lemma OtherRecalls(o: Options, es: seq<Event>, init: seq<Event>, k: string, x: Cell<Elem, Note>)
    requires Follows(es, init) && !Concerns(es[|es| - 1], k)
    requires CellMoved(o, init, k, x, CellOf(o, es, k), es[|es| - 1].now) && x == CellOf(o, init, k)
    ensures Recalls(CellOf(o, es, k), Unsent(o, es, k), Placed(o, es, k))
  {
    var e, z := es[|es| - 1], CellOf(o, es, k);
    var left := Left(Unsent(o, init, k), x.sent, z.sent);
    hide *;
    FollowsIs(es, init);
    ConcernsIs(e, k);
    MovedFacts(o, init, k, x, z, e.now);
    RecallsParts(o, init, k, x, z, e.now);
    BooksUnfold(o, es, init, k);
    assert left + [] == left;
    RecallIntro(z, Unsent(o, es, k), Placed(o, es, k));
  }

  lemma FollowsIs(es: seq<Event>, init: seq<Event>)
    requires Follows(es, init)
    ensures es != [] && init == es[..|es| - 1]
  {
  }

  lemma ConcernsIs(e: Event, k: string)
    ensures Concerns(e, k) <==> (e.DoAsk? || e.DoAnswer?) && SignatureOf(e.request) == k
  {
  }

  lemma RecallIntro(x: Cell<Elem, Note>, ops: seq<QuotaOperation>, placed: int)
    requires x.value.None? ==> ops == []
    requires x.value.Some? ==>
               && x.value.value.pending == PendingOf(ops) && FirstRequest(x.sent) == Some(x.value.value.request)
               && x.since == placed
    ensures Recalls(x, ops, placed)
  {
  }

  lemma OtherBalanced(o: Options, es: seq<Event>, init: seq<Event>, k: string, metric: string)
    requires Follows(es, init) && !Concerns(es[|es| - 1], k) && Balanced(o, init, k, CellOf(o, es, k), metric)
    ensures Balanced(o, es, k, CellOf(o, es, k), metric)
  {
    hide Spent, CellOf, PendingTokens, PendingCounted, Reply;
  }

  lemma BalancedParts(o: Options, es: seq<Event>, k: string, x: Cell<Elem, Note>, metric: string)
    requires Balanced(o, es, k, x, metric) && Counted(es, k, metric)
    ensures PendingCounted(x.value, metric)
    ensures Admitted(o, es, k, metric) == Spent(x.sent, metric) + PendingTokens(x.value, metric)
  {
  }

  lemma BalancedIntro(o: Options, es: seq<Event>, k: string, x: Cell<Elem, Note>, metric: string)
    requires Counted(es, k, metric) ==>
               && PendingCounted(x.value, metric)
               && Admitted(o, es, k, metric) == Spent(x.sent, metric) + PendingTokens(x.value, metric)
    ensures Balanced(o, es, k, x, metric)
  {
  }

  lemma HitKept(o: Options, es: seq<Event>, init: seq<Event>, k: string, x: Cell<Elem, Note>, y: Cell<Elem, Note>)
    requires Follows(es, init) && es[|es| - 1].DoAsk? && SignatureOf(es[|es| - 1].request) == k
    requires Allowed(o, Run(o, init), es[|es| - 1])
    requires CellMoved(o, init, k, x, y, es[|es| - 1].now) && x == CellOf(o, init, k) && y.value.Some?
        && Reply(o, es) == y.value.value.response
    requires CellOf(o, es, k) == y.(value := Some(Charged(y.value.value, OperationOf(es[|es| - 1].request))))
    ensures CellKept(o, es, k, CellOf(o, es, k)) && Reply(o, es) == LastAnswer(o, es, k)
    ensures Paced(o, init, k, x, CellOf(o, es, k))
  {
    var e, op, z := y.value.value, OperationOf(es[|es| - 1].request), CellOf(o, es, k);
    hide *;
    MovedFacts(o, init, k, x, y, es[|es| - 1].now);
    AskedFor(o, Run(o, init), es[|es| - 1]);
    FollowsConcerned(es, init, k);
    ChargedGood(k, e, op);
    BooksUnfold(o, es, init, k);
    HitRecalls(o, es, init, k, x, y);
    forall metric ensures Balanced(o, es, k, z, metric) {
      HitBalanced(o, es, init, k, y, metric);
    }
    KeptIntro(o, es, k, z);
    PacedIntro(o, init, k, x, z);
  }

  lemma HitRecalls(o: Options, es: seq<Event>, init: seq<Event>, k: string, x: Cell<Elem, Note>, y: Cell<Elem, Note>)
    requires Follows(es, init) && es[|es| - 1].DoAsk? && SignatureOf(es[|es| - 1].request) == k
    requires CellMoved(o, init, k, x, y, es[|es| - 1].now) && x == CellOf(o, init, k) && y.value.Some?
        && Reply(o, es) == y.value.value.response
    requires CellOf(o, es, k) == y.(value := Some(Charged(y.value.value, OperationOf(es[|es| - 1].request))))
    ensures Recalls(CellOf(o, es, k), Unsent(o, es, k), Placed(o, es, k))
  {
    var e, op, z := y.value.value, OperationOf(es[|es| - 1].request), CellOf(o, es, k);
    var left := Left(Unsent(o, init, k), x.sent, y.sent);
    hide *;
    FollowsIs(es, init);
    MovedFacts(o, init, k, x, y, es[|es| - 1].now);
    RecallsParts(o, init, k, x, y, es[|es| - 1].now);
    BooksUnfold(o, es, init, k);
    ChargedPending(e, op, left);
    assert left + [] == left;
    RecallIntro(z, Unsent(o, es, k), Placed(o, es, k));
  }

  lemma ChargedPending(e: Elem, op: QuotaOperation, ops: seq<QuotaOperation>)
    requires e.pending == PendingOf(ops)
    ensures Charged(e, op).pending == PendingOf(if e.response.errors == [] then ops + [op] else ops)
    ensures Charged(e, op).request == e.request
  {
    hide Start, Merge;
    assert (ops + [op])[..|ops|] == ops;
  }

  lemma HitBalanced(o: Options, es: seq<Event>, init: seq<Event>, k: string, y: Cell<Elem, Note>, metric: string)
    requires Follows(es, init) && es[|es| - 1].DoAsk? && SignatureOf(es[|es| - 1].request) == k
    requires Allowed(o, Run(o, init), es[|es| - 1])
    requires y.value.Some? && Good(k, y.value.value) && Balanced(o, init, k, y, metric)
        && Reply(o, es) == y.value.value.response
    ensures Balanced(o, es, k, y.(value := Some(Charged(y.value.value, OperationOf(es[|es| - 1].request)))), metric)
  {
    var e, op := y.value.value, OperationOf(es[|es| - 1].request);
    hide *;
    AskedFor(o, Run(o, init), es[|es| - 1]);
    AskedCounts(o, es, init, k, metric);
    if Counted(es, k, metric) {
      BalancedParts(o, init, k, y, metric);
      ChargedTokens(k, e, op, metric);
    }
    BalancedIntro(o, es, k, y.(value := Some(Charged(e, op))), metric);
  }

  lemma AskedCounts(o: Options, es: seq<Event>, init: seq<Event>, k: string, metric: string)
    requires Follows(es, init) && es[|es| - 1].DoAsk? && SignatureOf(es[|es| - 1].request) == k
    ensures Counted(es, k, metric) ==>
        Counted(init, k, metric) && Countable(OperationOf(es[|es| - 1].request).metrics, metric)
    ensures Admitted(o, es, k, metric) == Admitted(o, init, k, metric)
            + if Reply(o, es).errors == [] then Tokens(OperationOf(es[|es| - 1].request).metrics, metric) else 0
  {
    hide Tokens, Countable, Reply, SignatureOf;
  }

  lemma AskedFor(o: Options, q: QuotaState, e: Event)
    requires e.DoAsk? && Allowed(o, q, e)
    ensures PlainQuota(OperationOf(e.request)) && e.request.operation.Some?
    ensures SignatureOf(e.request) == QuotaSignature(OperationOf(e.request))
  {
  }

  lemma FollowsConcerned(es: seq<Event>, init: seq<Event>, k: string)
    requires Follows(es, init)
    ensures es != [] && (es[|es| - 1].DoAsk? ==> !Responds(es[|es| - 1], k))
    ensures es[|es| - 1].DoAnswer? && SignatureOf(es[|es| - 1].request) == k ==> Responds(es[|es| - 1], k)
    ensures Responds(es[|es| - 1], k) ==> es[|es| - 1].DoAnswer?
  {
  }

  lemma ChargedGood(k: string, e: Elem, op: QuotaOperation)
    requires Good(k, e) && PlainQuota(op) && QuotaSignature(op) == k
    ensures Good(k, Charged(e, op)) && Charged(e, op).inFlight == e.inFlight && Charged(e, op).response == e.response
    ensures Charged(e, op).lastRefresh == e.lastRefresh
  {
    hide QuotaSignature, Tokens, Held, RoutesTo, CountableIn, PlainQuota, Merge, Start;
    match e.pending
    case None => StartRoutes(op);
    case Some(a) => MergeRoutes(a, op);
  }

  lemma ChargedTokens(k: string, e: Elem, op: QuotaOperation, metric: string)
    requires Good(k, e) && PlainQuota(op) && QuotaSignature(op) == k
    requires PendingCounted(Some(e), metric) && Countable(op.metrics, metric)
    ensures PendingCounted(Some(Charged(e, op)), metric)
    ensures PendingTokens(Some(Charged(e, op)), metric)
         == PendingTokens(Some(e), metric) + if e.response.errors == [] then Tokens(op.metrics, metric) else 0
  {
    hide QuotaSignature, Tokens, Held, RoutesTo, CountableIn, Countable, PlainQuota, Merge, Start;
    match e.pending
    case None => StartRoutes(op);
    case Some(a) => MergeRoutes(a, op);
  }

  lemma MissKept(o: Options, es: seq<Event>, init: seq<Event>, k: string, x: Cell<Elem, Note>, y: Cell<Elem, Note>)
    requires Follows(es, init) && es[|es| - 1].DoAsk? && SignatureOf(es[|es| - 1].request) == k
    requires Allowed(o, Run(o, init), es[|es| - 1])
    requires CellMoved(o, init, k, x, y, es[|es| - 1].now) && x == CellOf(o, init, k) && y.value.None?
        && Reply(o, es) == EMPTY_RESPONSE
    requires Requests(y.sent) == Requests(x.sent)
    requires CellOf(o, es, k) == Cell(Some(NewElem(es[|es| - 1].request, es[|es| - 1].now)), es[|es| - 1].now, y.gone,
        y.sent + [First(es[|es| - 1].request)])
    ensures CellKept(o, es, k, CellOf(o, es, k)) && Reply(o, es) == LastAnswer(o, es, k)
    ensures Paced(o, init, k, x, CellOf(o, es, k))
  {
    var r, z := es[|es| - 1].request, CellOf(o, es, k);
    hide *;
    MovedFacts(o, init, k, x, y, es[|es| - 1].now);
    AskedFor(o, Run(o, init), es[|es| - 1]);
    FollowsConcerned(es, init, k);
    NewGood(k, r, es[|es| - 1].now);
    BooksUnfold(o, es, init, k);
    SpentConcat(y.sent, [First(r)], "");
    SumOne(First(r), "");
    MissRecalls(o, es, init, k, x, y);
    forall metric ensures Balanced(o, es, k, z, metric) {
      MissBalanced(o, es, init, k, y, metric);
    }
    KeptIntro(o, es, k, z);
    PacedIntro(o, init, k, x, z);
  }

  lemma MissRecalls(o: Options, es: seq<Event>, init: seq<Event>, k: string, x: Cell<Elem, Note>, y: Cell<Elem, Note>)
    requires Follows(es, init) && es[|es| - 1].DoAsk? && SignatureOf(es[|es| - 1].request) == k
    requires CellMoved(o, init, k, x, y, es[|es| - 1].now) && x == CellOf(o, init, k) && y.value.None?
    requires Requests(y.sent) == Requests(x.sent)
    requires CellOf(o, es, k) == Cell(Some(NewElem(es[|es| - 1].request, es[|es| - 1].now)), es[|es| - 1].now, y.gone,
        y.sent + [First(es[|es| - 1].request)])
    ensures Recalls(CellOf(o, es, k), Unsent(o, es, k), Placed(o, es, k))
  {
    var e, z := es[|es| - 1], CellOf(o, es, k);
    hide *;
    FollowsIs(es, init);
    MovedFacts(o, init, k, x, y, e.now);
    BooksUnfold(o, es, init, k);
    SpentConcat(y.sent, [First(e.request)], "");
    SumOne(First(e.request), "");
    FirstConcat(y.sent, [First(e.request)]);
    OneFirst(e.request);
    NewPends(e.request, e.now);
    LeftIs(Unsent(o, init, k), x.sent, z.sent);
    PendingIs([]);
    RecallIntro(z, Unsent(o, es, k), Placed(o, es, k));
  }

  lemma OneFirst(r: QuotaRequest)
    ensures FirstRequest([First(r)]) == Some(r)
  {
  }

  lemma MissBalanced(o: Options, es: seq<Event>, init: seq<Event>, k: string, y: Cell<Elem, Note>, metric: string)
    requires Follows(es, init) && es[|es| - 1].DoAsk? && SignatureOf(es[|es| - 1].request) == k
    requires y.value.None? && Balanced(o, init, k, y, metric) && Reply(o, es) == EMPTY_RESPONSE
    ensures var r := es[|es| - 1].request;
            Balanced(o, es, k, Cell(Some(NewElem(r, es[|es| - 1].now)), es[|es| - 1].now, y.gone, y.sent + [First(r)]),
                metric)
  {
    var r := es[|es| - 1].request;
    hide *;
    AskedCounts(o, es, init, k, metric);
    NewPends(r, es[|es| - 1].now);
    if Counted(es, k, metric) {
      BalancedParts(o, init, k, y, metric);
      SpentConcat(y.sent, [First(r)], metric);
      SumOne(First(r), metric);
      AsksFirst(r, metric);
      NonePending(y.value, NewElem(r, es[|es| - 1].now), metric);
    }
    BalancedIntro(o, es, k, Cell(Some(NewElem(r, es[|es| - 1].now)), es[|es| - 1].now, y.gone, y.sent + [First(r)]),
        metric);
  }

  lemma NewPends(r: QuotaRequest, now: int)
    ensures NewElem(r, now).pending.None? && NewElem(r, now).request == r
  {
  }

  lemma AsksFirst(r: QuotaRequest, metric: string)
    ensures Asks(First(r), metric) == Tokens(OperationOf(r).metrics, metric)
    ensures EMPTY_RESPONSE.errors == []
  {
  }

  lemma NonePending(v: Option<Elem>, e: Elem, metric: string)
    requires v.None? && e.pending.None?
    ensures PendingTokens(v, metric) == 0 && PendingTokens(Some(e), metric) == 0 && PendingCounted(Some(e), metric)
  {
  }

  lemma NewGood(k: string, r: QuotaRequest, now: int)
    requires r.operation.Some? && PlainQuota(OperationOf(r)) && SignatureOf(r) == k
    ensures var e := NewElem(r, now);
            Good(k, e) && e.inFlight && e.response == EMPTY_RESPONSE && e.pending.None? && e.lastRefresh == now
  {
  }

  lemma AnswerKept(o: Options, es: seq<Event>, init: seq<Event>, k: string, x: Cell<Elem, Note>, y: Cell<Elem, Note>,
                   lost: seq<Note>)
    requires Follows(es, init) && Responds(es[|es| - 1], k)
    requires CellMoved(o, init, k, x, y, es[|es| - 1].now) && x == CellOf(o, init, k)
    requires y.value.Some? ==>
               && lost == (if es[|es| - 1].response.errors != [] then LostWith(y.value.value) else [])
               && CellOf(o, es, k) == y.(value := Some(Answered(y.value.value, es[|es| - 1].response)),
                      sent := y.sent + lost)
    requires y.value.None? ==> CellOf(o, es, k) == y
    ensures CellKept(o, es, k, CellOf(o, es, k)) && Paced(o, init, k, x, CellOf(o, es, k))
  {
    hide *;
    var z := CellOf(o, es, k);
    FollowsConcerned(es, init, k);
    MovedFacts(o, init, k, x, y, es[|es| - 1].now);
    RespondsIs(es[|es| - 1], k);
    BooksUnfold(o, es, init, k);
    if y.value.Some? {
      AnsweredGood(k, y.value.value, es[|es| - 1].response);
      SpentConcat(y.sent, lost, "");
      AnsweredTokens(k, y.value.value, es[|es| - 1].response, "");
    }
    AnswerRecalls(o, es, init, k, x, y, lost);
    forall metric ensures Balanced(o, es, k, z, metric) {
      if Counted(es, k, metric) {
        BalancedParts(o, init, k, y, metric);
        if y.value.Some? {
          SpentConcat(y.sent, lost, metric);
          AnsweredTokens(k, y.value.value, es[|es| - 1].response, metric);
        }
      }
      BalancedIntro(o, es, k, z, metric);
    }
    KeptIntro(o, es, k, z);
    PacedIntro(o, init, k, x, z);
  }

  lemma AnswerRecalls(o: Options, es: seq<Event>, init: seq<Event>, k: string, x: Cell<Elem, Note>, y: Cell<Elem, Note>,
                      lost: seq<Note>)
    requires Follows(es, init) && Responds(es[|es| - 1], k)
    requires CellMoved(o, init, k, x, y, es[|es| - 1].now) && x == CellOf(o, init, k)
    requires y.value.Some? ==>
               && lost == (if es[|es| - 1].response.errors != [] then LostWith(y.value.value) else [])
               && CellOf(o, es, k) == y.(value := Some(Answered(y.value.value, es[|es| - 1].response)),
                      sent := y.sent + lost)
    requires y.value.None? ==> CellOf(o, es, k) == y
    ensures Recalls(CellOf(o, es, k), Unsent(o, es, k), Placed(o, es, k))
  {
    var e, z := es[|es| - 1], CellOf(o, es, k);
    var left := Left(Unsent(o, init, k), x.sent, y.sent);
    hide *;
    FollowsIs(es, init);
    FollowsConcerned(es, init, k);
    MovedFacts(o, init, k, x, y, e.now);
    RecallsParts(o, init, k, x, y, e.now);
    BooksUnfold(o, es, init, k);
    NothingAdded(Left(Unsent(o, init, k), x.sent, z.sent));
    if y.value.Some? {
      AnsweredLeft(Unsent(o, init, k), x.sent, y.sent, y.value.value, e.response);
      AnsweredCounts(y.sent, lost, y.value.value, e.response);
    }
    RecallIntro(z, Unsent(o, es, k), Placed(o, es, k));
  }

  lemma NothingAdded<T>(s: seq<T>)
    ensures s + [] == s
  {
  }

  lemma AnsweredCounts(sent: seq<Note>, lost: seq<Note>, e: Elem, response: QuotaResponse)
    requires lost == if response.errors != [] then LostWith(e) else []
    ensures FirstRequest(sent + lost) == FirstRequest(sent) && Requests(sent + lost) == Requests(sent)
    ensures Count(sent + lost, IsFirst) == Count(sent, IsFirst)
  {
    hide *;
    AnsweredBooks(e, response);
    FirstConcat(sent, lost);
    SpentConcat(sent, lost, "");
  }

  /** A negative response loses what is left; a positive one keeps it. */
  lemma AnsweredLeft(ops: seq<QuotaOperation>, before: seq<Note>, sent: seq<Note>, e: Elem, response: QuotaResponse)
    requires e.pending == PendingOf(Left(ops, before, sent)) && Count(sent, IsLost) == Count(before, IsLost)
    ensures var f, lost := Answered(e, response), if response.errors != [] then LostWith(e) else [];
            f.request == e.request && f.pending == PendingOf(Left(ops, before, sent + lost))
  {
    hide *;
    var lost := if response.errors != [] then LostWith(e) else [];
    AnsweredBooks(e, response);
    SpentConcat(sent, lost, "");
    SumConcat(sent, lost, IsLost, "");
    LeftIs(ops, before, sent);
    LeftIs(ops, before, sent + lost);
    PendingIs(Left(ops, before, sent));
    PendingIs([]);
  }

  lemma NoRequests()
    ensures Requests([]) == 0 && Count([], IsFirst) == 0
  {
  }

  lemma AnsweredBooks(e: Elem, response: QuotaResponse)
    ensures var f, lost := Answered(e, response), if response.errors != [] then LostWith(e) else [];
            && f.request == e.request && f.pending == (if response.errors != [] then None else e.pending)
            && FirstRequest(lost) == None && Requests(lost) == 0 && Count(lost, IsFirst) == 0
            && (Count(lost, IsLost) > 0 <==> response.errors != [] && e.pending.Some?)
  {
    hide Sum, Count, ToProto;
    NoCount(IsLost);
    NoRequests();
    if e.pending.Some? {
      var n := Lost(e.signature, ToProto(e.pending.value).metrics);
      KindOne(n, IsLost, "");
      SumOne(n, "");
      assert [n][..0] == [];
    }
  }

  lemma RespondsIs(e: Event, k: string)
    ensures Responds(e, k) <==> e.DoAnswer? && SignatureOf(e.request) == k
  {
  }

  lemma AnsweredGood(k: string, e: Elem, response: QuotaResponse)
    requires Good(k, e)
    ensures var f := Answered(e, response);
            Good(k, f) && !f.inFlight && f.response == response && f.lastRefresh == e.lastRefresh
  {
  }

  lemma AnsweredTokens(k: string, e: Elem, response: QuotaResponse, metric: string)
    requires Good(k, e)
    ensures var lost := if response.errors != [] then LostWith(e) else [];
            && Spent(lost, metric) + PendingTokens(Some(Answered(e, response)), metric)
                 == PendingTokens(Some(e), metric)
            && Requests(lost) == 0 && Count(lost, IsFirst) == 0
            && (PendingCounted(Some(e), metric) ==> PendingCounted(Some(Answered(e, response)), metric))
  {
    hide Good, Sum, Spent, Tokens, Held, ToProto, CountableIn;
    SumOne(First(e.request), metric);
    if e.pending.Some? {
      ToProtoKeeps(e.pending.value, metric);
      SumOne(Lost(e.signature, ToProto(e.pending.value).metrics), metric);
    }
  }

  // ----- Every cell, over a run -----

  /** What holds between calls. */
  ghost predicate Books(o: Options, es: seq<Event>, now: int) {
    var q := Run(o, es);
    && Idle(ConfigOf(o, q.flushed), q.cache) && InTime(q.cache.order, Clock(es, now))
    && forall k :: CellKept(o, es, k, CellOf(o, es, k))
  }

  lemma GoodBears(o: Options, flushed: bool, es: seq<Entry<Elem>>, now: int)
    requires forall k :: ValueAt(es, k).Some? ==> Good(k, ValueAt(es, k).value)
    ensures AllBear(ConfigOf(o, flushed), es, KeyOf, now)
  {
    hide Good, ConfigOf, Bears;
    forall k | ValueAt(es, k).Some? ensures Bears(ConfigOf(o, flushed), k, ValueAt(es, k).value, KeyOf, now) {
      DeleterKeeps(o, flushed, k, ValueAt(es, k).value, "", now);
    }
  }

  lemma KeptGood(o: Options, es: seq<Event>, k: string)
    requires CellKept(o, es, k, CellOf(o, es, k))
    ensures ValueAt(Run(o, es).cache.order, k).Some? ==> Good(k, ValueAt(Run(o, es).cache.order, k).value)
  {
    hide Good;
  }

  lemma BooksFacts(o: Options, es: seq<Event>, now: int)
    requires Books(o, es, now)
    ensures var q := Run(o, es);
            && Idle(ConfigOf(o, q.flushed), q.cache) && InTime(q.cache.order, Clock(es, now))
            && AllBear(ConfigOf(o, q.flushed), q.cache.order, KeyOf, now)
            && AllBear(ConfigOf(o, true), q.cache.order, KeyOf, now)
    ensures forall k :: CellKept(o, es, k, CellOf(o, es, k))
  {
    hide CellKept, AllBear, Idle, InTime, Run, CellOf;
    var q := Run(o, es);
    forall k ensures ValueAt(q.cache.order, k).Some? ==> Good(k, ValueAt(q.cache.order, k).value) {
      assert CellKept(o, es, k, CellOf(o, es, k));
      KeptGood(o, es, k);
    }
    GoodBears(o, q.flushed, q.cache.order, now);
    GoodBears(o, true, q.cache.order, now);
  }

  /** Expiry at the start of a call. */
  lemma FetchedMoved(o: Options, es: seq<Event>, k: string, now: int)
    requires Books(o, es, now)
    ensures var q, x := Run(o, es), CellOf(o, es, k);
            var t := Fetched(q, o, now);
            var y := CellAt(t, KeyOf, k);
            && Idle(ConfigOf(o, q.flushed), t)
            && CellMoved(o, es, k, x, y, now) && (y.value.None? || q.flushed ==> Requests(y.sent) == Requests(x.sent))
  {
    hide *;
    var q, x := Run(o, es), CellOf(o, es, k);
    BooksFacts(o, es, now);
    FetchedIs(o, es, k, now);
    RemoveExpiredCell(ConfigOf(o, q.flushed), q.cache, KeyOf, k, now);
    NotMoved(o, es, k, x, now);
    RetiredMoved(o, es, k, q.flushed, x, x, now);
    MovedFacts(o, es, k, x, CellAt(Fetched(q, o, now), KeyOf, k), now);
  }

  lemma FetchedIs(o: Options, es: seq<Event>, k: string, now: int)
    ensures var q := Run(o, es); Fetched(q, o, now) == RemoveExpired(ConfigOf(o, q.flushed), q.cache, now)
    ensures CellOf(o, es, k) == CellAt(Run(o, es).cache, KeyOf, k)
  {
  }

  lemma FetchedInTime(o: Options, es: seq<Event>, now: int)
    requires Books(o, es, now) && Clock(es, now) <= now
    ensures InTime(Fetched(Run(o, es), o, now).order, now)
  {
    hide Idle, CellKept, RemoveExpired, Run;
    InTimeLater(Run(o, es).cache.order, Clock(es, now), now);
    RemoveExpiredInTime(ConfigOf(o, Run(o, es).flushed), Run(o, es).cache, now);
  }

  lemma InTimeLater<V>(es: seq<Entry<V>>, clock: int, now: int)
    requires InTime(es, clock) && clock <= now
    ensures InTime(es, now)
  {
  }

  /** A good cell, seen as the value found by a lookup. */
  lemma MovedValue(o: Options, es: seq<Event>, k: string, now: int)
    requires Books(o, es, now)
    ensures var t := Fetched(Run(o, es), o, now);
            && CellAt(t, KeyOf, k).value == ValueAt(t.order, k)
            && (ValueAt(t.order, k).Some? <==> EntryAt(t.order, k).Some?)
            && AllBear(ConfigOf(o, Run(o, es).flushed), t.order, KeyOf, now)
  {
    var t := Fetched(Run(o, es), o, now);
    hide Good, Books, Fetched, CellMoved, Run, CellOf;
    forall k ensures ValueAt(t.order, k).Some? ==> Good(k, ValueAt(t.order, k).value) {
      FetchedMoved(o, es, k, now);
      MovedFacts(o, es, k, CellOf(o, es, k), CellAt(t, KeyOf, k), now);
    }
    GoodBears(o, Run(o, es).flushed, t.order, now);
  }

  // ----- One call -----

  ghost predicate Next(o: Options, es: seq<Event>, init: seq<Event>) {
    && Follows(es, init) && Books(o, init, es[|es| - 1].now) && Allowed(o, Run(o, init), es[|es| - 1])
    && Clock(init, es[|es| - 1].now) <= es[|es| - 1].now
  }

  lemma NextFacts(o: Options, es: seq<Event>, init: seq<Event>)
    requires Next(o, es, init)
    ensures es != [] && Follows(es, init) && Books(o, init, es[|es| - 1].now) && Allowed(o, Run(o, init), es[|es| - 1])
    ensures Clock(init, es[|es| - 1].now) <= es[|es| - 1].now
    ensures Run(o, es) == Step(o, Run(o, init), es[|es| - 1]) && Clock(es, es[|es| - 1].now) == es[|es| - 1].now
    ensures forall k :: CellOf(o, es, k) == CellAt(Run(o, es).cache, KeyOf, k)
  {
  }

  lemma AskIs(o: Options, es: seq<Event>, init: seq<Event>)
    requires Next(o, es, init) && es[|es| - 1].DoAsk?
    ensures var e, q := es[|es| - 1], Run(o, init);
            var c, k, t := ConfigOf(o, q.flushed), SignatureOf(e.request), Fetched(q, o, e.now);
            && (EntryAt(t.order, k).None? ==>
                  && (Idle(c, t) ==> Returns(c, t, k, e.now))
                  && Run(o, es) == q.(cache := Emit(Inserted(c, t, k, NewElem(e.request, e.now), e.now),
                       [First(e.request)]))
                  && Reply(o, es) == EMPTY_RESPONSE)
            && (EntryAt(t.order, k).Some? ==>
                  && ValueAt(t.order, k).Some?
                  && Run(o, es) == q.(cache := Used(c, t, k,
                       Charged(ValueAt(t.order, k).value, OperationOf(e.request)), e.now))
                  && Reply(o, es) == ValueAt(t.order, k).value.response)
  {
    hide Fetched, Inserted, Used, Charged, NewElem, Books, SignatureOf, Crowded, Idle, Reentry.FirstDropped;
    NextFacts(o, es, init);
  }

  lemma MissStep(o: Options, es: seq<Event>, init: seq<Event>, k: string)
    requires Next(o, es, init) && es[|es| - 1].DoAsk?
    requires EntryAt(Fetched(Run(o, init), o, es[|es| - 1].now).order, SignatureOf(es[|es| - 1].request)).None?
    ensures CellKept(o, es, k, CellOf(o, es, k)) && Paced(o, init, k, CellOf(o, init, k), CellOf(o, es, k))
    ensures k == SignatureOf(es[|es| - 1].request) ==> Reply(o, es) == LastAnswer(o, es, k)
    ensures Idle(ConfigOf(o, Run(o, es).flushed), Run(o, es).cache) && InTime(Run(o, es).cache.order, es[|es| - 1].now)
  {
    hide *;
    NextFacts(o, es, init);
    AskIs(o, es, init);
    var e, q := es[|es| - 1], Run(o, init);
    var c, j, t := ConfigOf(o, q.flushed), SignatureOf(e.request), Fetched(q, o, e.now);
    var x, y := CellOf(o, init, k), CellAt(t, KeyOf, k);
    FetchedMoved(o, init, k, e.now);
    FetchedInTime(o, init, e.now);
    MovedValue(o, init, j, e.now);
    MovedValue(o, init, k, e.now);
    var v := NewElem(e.request, e.now);
    var u := Inserted(c, t, j, v, e.now);
    InsertedCell(c, t, j, v, KeyOf, k, e.now);
    InsertedIdle(c, t, j, v, e.now);
    InsertedInTime(c, t, j, v, e.now);
    FirstEmitted(u, e.request, k);
    EmitIdle(c, u, [First(e.request)]);
    EmitIs(u, [First(e.request)]);
    if j == k {
      MissKept(o, es, init, k, x, y);
    } else {
      if y != CellAt(u, KeyOf, k) {
        RetiredMoved(o, init, k, q.flushed, x, y, e.now);
      }
      NotConcerned(es, k);
      OtherKept(o, es, init, k, x);
    }
  }

  lemma NotConcerned(es: seq<Event>, k: string)
    requires es != []
    ensures Concerns(es[|es| - 1], k) <==>
        (es[|es| - 1].DoAsk? || es[|es| - 1].DoAnswer?)
        && SignatureOf(es[|es| - 1].request) == k
  {
  }

  lemma EmitIs(s: State<Elem, Note>, notes: seq<Note>)
    ensures Emit(s, notes) == s.(removed := s.removed + notes)
  {
  }

  lemma FirstEmitted(s: State<Elem, Note>, r: QuotaRequest, k: string)
    ensures var x, y := CellAt(s, KeyOf, k), CellAt(Emit(s, [First(r)]), KeyOf, k);
            y == if k == SignatureOf(r) then x.(sent := x.sent + [First(r)]) else x
  {
    hide CellAt;
    EmitCell(s, [First(r)], KeyOf, SignatureOf(r), k);
  }

  lemma HitStep(o: Options, es: seq<Event>, init: seq<Event>, k: string)
    requires Next(o, es, init) && es[|es| - 1].DoAsk?
    requires EntryAt(Fetched(Run(o, init), o, es[|es| - 1].now).order, SignatureOf(es[|es| - 1].request)).Some?
    ensures CellKept(o, es, k, CellOf(o, es, k)) && Paced(o, init, k, CellOf(o, init, k), CellOf(o, es, k))
    ensures k == SignatureOf(es[|es| - 1].request) ==> Reply(o, es) == LastAnswer(o, es, k)
    ensures Idle(ConfigOf(o, Run(o, es).flushed), Run(o, es).cache) && InTime(Run(o, es).cache.order, es[|es| - 1].now)
  {
    hide *;
    NextFacts(o, es, init);
    AskIs(o, es, init);
    var e, q := es[|es| - 1], Run(o, init);
    var c, j, t := ConfigOf(o, q.flushed), SignatureOf(e.request), Fetched(q, o, e.now);
    var x, y := CellOf(o, init, k), CellAt(t, KeyOf, k);
    FetchedMoved(o, init, k, e.now);
    FetchedInTime(o, init, e.now);
    MovedValue(o, init, j, e.now);
    MovedValue(o, init, k, e.now);
    var v := Charged(ValueAt(t.order, j).value, OperationOf(e.request));
    AgeMode(o, q.flushed);
    UsedCell(c, t, j, v, KeyOf, k, e.now);
    UsedInTime(c, t, j, v, e.now);
    if j == k {
      HitKept(o, es, init, k, x, y);
    } else {
      NotConcerned(es, k);
      OtherKept(o, es, init, k, x);
    }
  }

  lemma AgeMode(o: Options, flushed: bool)
    ensures !ConfigOf(o, flushed).lru
  {
  }

  lemma AnswerIs(o: Options, es: seq<Event>, init: seq<Event>)
    requires Next(o, es, init) && es[|es| - 1].DoAnswer?
    ensures var e, q := es[|es| - 1], Run(o, init);
            var c, k, t := ConfigOf(o, q.flushed), SignatureOf(e.request), Fetched(q, o, e.now);
            && Responds(e, k)
            && (EntryAt(t.order, k).None? ==> Run(o, es) == q.(cache := t))
            && (EntryAt(t.order, k).Some? ==>
                  && ValueAt(t.order, k).Some?
                  && var v := ValueAt(t.order, k).value;
                     Run(o, es) == q.(cache := Emit(Used(c, t, k, Answered(v, e.response), e.now),
                                                    if e.response.errors != [] then LostWith(v) else [])))
  {
    hide Fetched, Used, Answered, LostWith, Books, SignatureOf;
    NextFacts(o, es, init);
  }

  lemma LostBears(k: string, e: Elem)
    requires Good(k, e)
    ensures forall n <- LostWith(e) :: KeyOf(n) == k
  {
  }

  lemma AnswerStep(o: Options, es: seq<Event>, init: seq<Event>, k: string)
    requires Next(o, es, init) && es[|es| - 1].DoAnswer?
    ensures CellKept(o, es, k, CellOf(o, es, k)) && Paced(o, init, k, CellOf(o, init, k), CellOf(o, es, k))
    ensures Idle(ConfigOf(o, Run(o, es).flushed), Run(o, es).cache) && InTime(Run(o, es).cache.order, es[|es| - 1].now)
  {
    hide *;
    NextFacts(o, es, init);
    AnswerIs(o, es, init);
    var e, q := es[|es| - 1], Run(o, init);
    var c, j, t := ConfigOf(o, q.flushed), SignatureOf(e.request), Fetched(q, o, e.now);
    var x, y := CellOf(o, init, k), CellAt(t, KeyOf, k);
    FetchedMoved(o, init, k, e.now);
    FetchedMoved(o, init, j, e.now);
    FetchedInTime(o, init, e.now);
    MovedValue(o, init, j, e.now);
    MovedValue(o, init, k, e.now);
    NotConcerned(es, k);
    FollowsConcerned(es, init, k);
    if EntryAt(t.order, j).Some? {
      var v := ValueAt(t.order, j).value;
      var u, lost := Used(c, t, j, Answered(v, e.response), e.now), if e.response.errors != [] then LostWith(v) else [];
      MovedFacts(o, init, j, CellOf(o, init, j), CellAt(t, KeyOf, j), e.now);
      LostBears(j, v);
      AgeMode(o, q.flushed);
      UsedCell(c, t, j, Answered(v, e.response), KeyOf, k, e.now);
      UsedInTime(c, t, j, Answered(v, e.response), e.now);
      EmitIs(u, lost);
      EmitCell(u, lost, KeyOf, j, k);
      EmitIdle(c, u, lost);
      if j == k {
        AnswerKept(o, es, init, k, x, y, lost);
      } else {
        OtherKept(o, es, init, k, x);
      }
    } else if j == k {
      AnswerKept(o, es, init, k, x, y, []);
    } else {
      OtherKept(o, es, init, k, x);
    }
  }

  lemma FlushStep(o: Options, es: seq<Event>, init: seq<Event>, k: string)
    requires Next(o, es, init) && (es[|es| - 1].DoFlush? || es[|es| - 1].DoFlushAll?)
    ensures CellKept(o, es, k, CellOf(o, es, k)) && Paced(o, init, k, CellOf(o, init, k), CellOf(o, es, k))
    ensures Idle(ConfigOf(o, Run(o, es).flushed), Run(o, es).cache) && InTime(Run(o, es).cache.order, es[|es| - 1].now)
    ensures es[|es| - 1].DoFlushAll? ==> Run(o, es).cache.order == []
  {
    hide *;
    NextFacts(o, es, init);
    FlushIs(o, es, init);
    var e, q, x := es[|es| - 1], Run(o, init), CellOf(o, init, k);
    if e.DoFlush? {
      FetchedMoved(o, init, k, e.now);
      FetchedInTime(o, init, e.now);
    } else {
      BooksFacts(o, init, e.now);
      AllFound(o, q, e);
      FlushedIdle(o, q);
      RemoveAllCell(ConfigOf(o, true), q.cache, e.ks, KeyOf, k, e.now);
      NotMoved(o, init, k, x, e.now);
      FetchedIs(o, init, k, e.now);
      RetiredMoved(o, init, k, true, x, x, e.now);
      EmptyInTime(Run(o, es).cache.order, e.now);
    }
    NotConcerned(es, k);
    OtherKept(o, es, init, k, x);
  }

  lemma AllFound(o: Options, q: QuotaState, e: Event)
    requires Allowed(o, q, e) && e.DoFlushAll?
    ensures forall k :: EntryAt(q.cache.order, k).Some? ==> k in e.ks
  {
  }

  lemma EmptyInTime(es: seq<Entry<Elem>>, now: int)
    requires es == []
    ensures InTime(es, now)
  {
  }

  lemma FlushedIdle(o: Options, q: QuotaState)
    requires Idle(ConfigOf(o, q.flushed), q.cache)
    ensures Idle(ConfigOf(o, true), q.cache) && !ConfigOf(o, true).reentrant
  {
  }

  lemma FlushIs(o: Options, es: seq<Event>, init: seq<Event>)
    requires Next(o, es, init) && (es[|es| - 1].DoFlush? || es[|es| - 1].DoFlushAll?)
    ensures var e, q := es[|es| - 1], Run(o, init);
            && (e.DoFlush? ==> Run(o, es) == q.(cache := Fetched(q, o, e.now)))
            && (e.DoFlushAll? ==> Run(o, es) == QuotaState(RemoveEach(ConfigOf(o, true), q.cache, e.ks, e.now), true))
  {
    hide Fetched, Books, RemoveEach;
    NextFacts(o, es, init);
  }

  lemma NextStep(o: Options, es: seq<Event>, init: seq<Event>, k: string)
    requires Next(o, es, init)
    ensures CellKept(o, es, k, CellOf(o, es, k)) && Paced(o, init, k, CellOf(o, init, k), CellOf(o, es, k))
    ensures Idle(ConfigOf(o, Run(o, es).flushed), Run(o, es).cache) && InTime(Run(o, es).cache.order, es[|es| - 1].now)
    ensures es[|es| - 1].DoAsk? && SignatureOf(es[|es| - 1].request) == k ==> Reply(o, es) == LastAnswer(o, es, k)
    ensures es[|es| - 1].DoFlushAll? ==> Run(o, es).cache.order == []
  {
    hide *;
    NextFacts(o, es, init);
    var e := es[|es| - 1];
    match e
    case DoAsk(request, now) =>
      if EntryAt(Fetched(Run(o, init), o, now).order, SignatureOf(request)).None? {
        MissStep(o, es, init, k);
      } else {
        HitStep(o, es, init, k);
      }
    case DoAnswer(_, _, _) => AnswerStep(o, es, init, k);
    case DoFlush(_) => FlushStep(o, es, init, k);
    case DoFlushAll(_, _) => FlushStep(o, es, init, k);
  }

  lemma {:induction false} EveryRunKeepsBooks(o: Options, es: seq<Event>, now: int)
    requires o.entries > 0 && Legal(o, es)
    ensures Books(o, es, now)
    ensures es != [] ==> Next(o, es, es[..|es| - 1])
    decreases |es|
  {
    if es == [] {
      NothingYet(o, now);
    } else {
      var init := es[..|es| - 1];
      EveryRunKeepsBooks(o, init, es[|es| - 1].now);
      assert Next(o, es, init) by {
        hide Books, Run, Allowed;
      }
      hide CellKept, Idle, InTime, CellOf, Run, Allowed, Legal;
      forall k ensures CellKept(o, es, k, CellOf(o, es, k)) {
        NextStep(o, es, init, k);
      }
      NextStep(o, es, init, "");
    }
  }

  lemma NothingYet(o: Options, now: int)
    requires o.entries > 0
    ensures Books(o, [], now)
  {
    forall k ensures CellKept(o, [], k, CellOf(o, [], k)) {
      forall metric ensures Balanced(o, [], k, Cell(None, 0, [], []), metric) {
      }
    }
  }

  // ----- Results -----

  /**
   * Over every legal run, per signature and int64 metric: the tokens admitted with a positive response went out in the
   * request of the first miss, went out in an aggregated refresh, are pending, or were lost to expiry, `FlushAll` or a
   * negative response.
   */
  lemma TokensConserved(o: Options, es: seq<Event>, k: string, metric: string)
    requires o.entries > 0 && Legal(o, es) && Counted(es, k, metric)
    ensures var notes := SentFor(o, es, k);
            Admitted(o, es, k, metric)
            == Sum(notes, IsFirst, metric) + Sum(notes, IsRefresh, metric) + Sum(notes, IsLost, metric)
             + PendingTokens(ValueAt(Run(o, es).cache.order, k), metric)
  {
    hide Legal, Admitted, Sum, PendingTokens, PendingCounted, Counted, Good, Waiting, LastAnswer, Run, Idle, InTime,
        ValueAt;
    EveryRunKeepsBooks(o, es, 0);
    assert CellKept(o, es, k, CellOf(o, es, k));
    assert Balanced(o, es, k, CellOf(o, es, k), metric);
  }

  /** `FlushAll` leaves no entry, and so no pending token. */
  lemma FlushAllEmpties(o: Options, es: seq<Event>, k: string, metric: string)
    requires o.entries > 0 && Legal(o, es) && es != [] && es[|es| - 1].DoFlushAll?
    ensures Run(o, es).cache.order == []
    ensures var notes := SentFor(o, es, k);
            Counted(es, k, metric) ==>
            Admitted(o, es, k, metric)
            == Sum(notes, IsFirst, metric) + Sum(notes, IsRefresh, metric) + Sum(notes, IsLost, metric)
  {
    hide Legal, Admitted, Sum, Run, Next, Books;
    EveryRunKeepsBooks(o, es, 0);
    NextStep(o, es, es[..|es| - 1], k);
    if Counted(es, k, metric) {
      TokensConserved(o, es, k, metric);
    }
  }

  /** At most one request per call for a signature, and none but a first one before the previous one was answered. */
  lemma OneRequestInFlight(o: Options, es: seq<Event>, k: string)
    requires o.entries > 0 && Legal(o, es) && es != []
    ensures var before, after := SentFor(o, es[..|es| - 1], k), SentFor(o, es, k);
            && Requests(after) <= Requests(before) + 1
            && (Requests(after) > Requests(before) && Count(after, IsFirst) == Count(before, IsFirst) ==>
                  !Waiting(o, es[..|es| - 1], k))
  {
    hide Legal, Run, Next, Books, CellOf, Count, Waiting, Requests;
    EveryRunKeepsBooks(o, es, 0);
    NextStep(o, es, es[..|es| - 1], k);
  }

  /** An answer of the cache is the last response for the signature, or the empty one if the entry was created since. */
  lemma AnswersAreLast(o: Options, es: seq<Event>)
    requires o.entries > 0 && Legal(o, es) && es != [] && es[|es| - 1].DoAsk?
    ensures Reply(o, es) == LastAnswer(o, es, SignatureOf(es[|es| - 1].request))
  {
    hide Legal, Run, Next, Books, LastAnswer, Reply;
    EveryRunKeepsBooks(o, es, 0);
    NextStep(o, es, es[..|es| - 1], SignatureOf(es[|es| - 1].request));
  }

  /**
   * A refresh recomputes to its entry's own signature; and a negative element holds no aggregate, so what it sends is
   * the stored initial request, to check only, and it loses nothing when it is dropped.
   */
  lemma RefreshesGoHome(o: Options, es: seq<Event>, k: string, now: int)
    requires o.entries > 0 && Legal(o, es) && ValueAt(Run(o, es).cache.order, k).Some?
    ensures var e := ValueAt(Run(o, es).cache.order, k).value;
            var out := OnDelete(o, e, now).out;
            && (forall n <- out :: KeyOf(n) == k)
            && (forall n <- out :: n.Refresh? ==> n.request.service == o.service && n.request.configId == o.configId)
            && (e.inFlight <==> Waiting(o, es, k))
            && (e.response.errors != [] ==> out == [] || out == [Probe(AsProbe(e.request))])
  {
    hide Legal, Run, Idle, InTime, RoutesTo, CountableIn, PlainQuota, Waiting, LastAnswer, Admitted, QuotaSignature,
        ValueAt;
    EveryRunKeepsBooks(o, es, 0);
    assert CellKept(o, es, k, CellOf(o, es, k));
    var e := ValueAt(Run(o, es).cache.order, k).value;
    DeleterKeeps(o, false, k, e, "", now);
  }

  /**
   * Refreshing by expiry: an entry survives unless it is stale and no request was sent for it for the expiration
   * interval; and the deleter is called once for each stale entry and for no other, although it inserts entries while
   * the list is walked.
   */
  lemma RefreshKeepsKeys(o: Options, es: seq<Event>, k: string, now: int)
    requires o.entries > 0 && o.refreshMs >= 0 && Legal(o, es) && Clock(es, now) <= now && !Run(o, es).flushed
    ensures var s, t := Run(o, es).cache, Fetched(Run(o, es), o, now);
            var stale := StaleAt(s.order, k, now - o.refreshMs * 1000);
            && (ValueAt(t.order, k).Some? <==>
                  ValueAt(s.order, k).Some? && !(stale && now - LastSent(o, es, k) >= o.expirationMs * 1000))
            && GoneAt(t.disposed, k) == if stale then GoneAt(s.disposed, k) + [EntryAt(s.order, k).value.value]
                 else GoneAt(s.disposed, k)
  {
    hide *;
    EveryRunKeepsBooks(o, es, now);
    BooksFacts(o, es, now);
    OverdueIs(o, es, k, now);
    var q, c := Run(o, es), ConfigOf(o, false);
    var s, threshold := q.cache, now - o.refreshMs * CYCLES_PER_MS;
    FetchedExpires(o, q, now);
    IdleUnique(c, s);
    InTimeSorted(s.order, Clock(es, now));
    AllBearTagged(c, s.order, KeyOf, threshold, now);
    ExpireCellExact(c, s, threshold, KeyOf, k, now);
    CellParts(s, k);
    CellParts(Fetched(q, o, now), k);
    StaleHasValue(s.order, k, threshold);
    if StaleAt(s.order, k, threshold) {
      RetiredParts(o, CellAt(s, KeyOf, k), now);
      CellSent(o, es, k, now);
    }
  }

  // ----- What a flush sends -----

  /** The entry has not been inserted, again, for longer than the refresh interval. */
  predicate Overdue(o: Options, es: seq<Event>, k: string, now: int) {
    o.refreshMs >= 0 && Placed(o, es, k) < now - o.refreshMs * 1000
  }

  predicate Expired(o: Options, es: seq<Event>, k: string, now: int) {
    now - LastSent(o, es, k) >= o.expirationMs * 1000
  }

  /** No request is under way, and there is something to ask: again after a negative response, or for what is unsent. */
  predicate Due(o: Options, es: seq<Event>, k: string) {
    !Waiting(o, es, k) && (LastAnswer(o, es, k).errors != [] || Unsent(o, es, k) != [])
  }

  /** The request of the last miss again, to check only. */
  predicate Probes(r: QuotaRequest, first: Option<QuotaRequest>) {
    && first.Some? && first.value.operation.Some? && r.operation.Some?
    && r.service == first.value.service && r.configId == first.value.configId
    && r.operation.value.mode == CheckOnly
    && r.operation.value.(mode := first.value.operation.value.mode) == first.value.operation.value
  }

  /** The note is the refresh that the history asks for. */
  ghost predicate Renews(o: Options, n: Note, first: Option<QuotaRequest>, answer: QuotaResponse,
                         ops: seq<QuotaOperation>)
  {
    if answer.errors != [] then n.Probe? && Probes(n.request, first)
    else
      && n.Refresh? && n.request.service == o.service && n.request.configId == o.configId
      && n.request.operation.Some? && Gathers(n.request.operation.value, ops)
  }

  /** What a flush does to one key. */
  ghost predicate FlushedExactly(o: Options, es: seq<Event>, k: string, x: Cell<Elem, Note>, y: Cell<Elem, Note>,
                                 now: int)
  {
    var n := |x.sent|;
    if x.value.None? || !Overdue(o, es, k, now) then y == x
    else if Expired(o, es, k, now) then
      y.value.None? && Requests(y.sent) == Requests(x.sent) && (y.sent == x.sent <==> Unsent(o, es, k) == [])
    else if Due(o, es, k) then
      && |y.sent| == n + 1 && y.sent[..n] == x.sent
      && Renews(o, y.sent[n], FirstRequest(x.sent), LastAnswer(o, es, k), Unsent(o, es, k))
      && y.value.Some? && y.value.value.pending.None? && y.value.value.inFlight
    else y.value == x.value && y.sent == x.sent
  }

  /**
   * A flush, key by key: an entry that was inserted no longer than the refresh interval ago is left alone. Of the
   * others one that was sent no request for the expiration interval is dropped. Another is sent one request if none is
   * under way and it has operations to send or its last response is negative: the operations gathered, or the first
   * request to check only; and then nothing is pending. Else nothing happens to it.
   */
  lemma FlushIsExact(o: Options, es: seq<Event>, k: string, now: int)
    requires o.entries > 0 && Legal(o, es) && Clock(es, now) <= now && !Run(o, es).flushed
    ensures FlushedExactly(o, es, k, CellOf(o, es, k), CellOf(o, es + [DoFlush(now)], k), now)
  {
    hide *;
    EveryRunKeepsBooks(o, es, now);
    BooksFacts(o, es, now);
    FlushCell(o, es, k, now);
    var x, y := CellOf(o, es, k), CellOf(o, es + [DoFlush(now)], k);
    CellKnown(o, es, k, x);
    OverdueIs(o, es, k, now);
    if x.value.None? || !Overdue(o, es, k, now) {
      NotFlushed(o, es, k, x, now);
    } else {
      FlushedOne(o, es, k, x, now);
    }
  }

  /** The requests with a signature. */
  function Bearing(rs: seq<QuotaRequest>, k: string): seq<QuotaRequest> {
    if rs == [] then []
    else
      var init, r := Bearing(rs[..|rs| - 1], k), rs[|rs| - 1];
      if SignatureOf(r) == k then init + [r] else init
  }

  lemma {:induction false} HandedFor(notes: seq<Note>, k: string)
    requires forall n <- notes :: !n.Lost? ==> KeyOf(n) == SignatureOf(n.request)
    ensures Bearing(Handed(notes), k) == Handed(SentAt(notes, KeyOf, k))
  {
    hide SignatureOf;
    if notes != [] {
      var init, n := notes[..|notes| - 1], notes[|notes| - 1];
      assert n in notes && forall m <- init :: m in notes;
      HandedFor(init, k);
      BearingSnoc(Handed(init), n, k);
      HandedSnoc(SentAt(init, KeyOf, k), n);
    }
  }

  lemma BearingSnoc(rs: seq<QuotaRequest>, n: Note, k: string)
    ensures n.Lost? || Bearing(rs + [n.request], k)
                    == if SignatureOf(n.request) == k then Bearing(rs, k) + [n.request] else Bearing(rs, k)
  {
    if !n.Lost? {
      assert (rs + [n.request])[..|rs|] == rs;
    }
  }

  lemma HandedSnoc(notes: seq<Note>, n: Note)
    ensures Handed(notes + [n]) == if n.Lost? then Handed(notes) else Handed(notes) + [n.request]
    ensures Handed([]) == []
  {
    assert (notes + [n])[..|notes|] == notes;
  }

  lemma {:induction false} HandedCount(notes: seq<Note>)
    ensures |Handed(notes)| == Requests(notes)
  {
    if notes != [] {
      var init, n := notes[..|notes| - 1], notes[|notes| - 1];
      assert notes == init + [n];
      HandedCount(init);
      SpentConcat(init, [n], "");
      SumOne(n, "");
      hide Requests;
    } else {
      NoRequests();
    }
  }

  /** The requests that a flush at `now` hands to the callback. */
  function FlushedAt(o: Options, es: seq<Event>, now: int): seq<QuotaRequest> {
    var s, t := Run(o, es).cache, Fetched(Run(o, es), o, now);
    if |s.removed| <= |t.removed| then Handed(t.removed[|s.removed|..]) else []
  }

  /** So a flush hands over, for each key, the one request that is due, or none. */
  lemma FlushHandsOver(o: Options, es: seq<Event>, k: string, now: int)
    requires o.entries > 0 && Legal(o, es) && Clock(es, now) <= now && !Run(o, es).flushed
    ensures var rs, x, n := Bearing(FlushedAt(o, es, now), k), CellOf(o, es, k), |SentFor(o, es, k)|;
            if x.value.Some? && Overdue(o, es, k, now) && !Expired(o, es, k, now) && Due(o, es, k)
            then
              var sent := SentFor(o, es + [DoFlush(now)], k);
              |sent| == n + 1 && !sent[n].Lost? && rs == [sent[n].request]
            else rs == []
  {
    var s, t := Run(o, es).cache, Fetched(Run(o, es), o, now);
    var x, y := CellOf(o, es, k), CellOf(o, es + [DoFlush(now)], k);
    hide *;
    FlushIsExact(o, es, k, now);
    EveryRunKeepsBooks(o, es, now);
    FlushGrows(o, es, now);
    AfterFlush(o, es, k, now);
    FetchedIs(o, es, k, now);
    CellParts(s, k);
    CellParts(t, k);
    SentIs(o, es, k);
    SentIs(o, es + [DoFlush(now)], k);
    var notes := t.removed[|s.removed|..];
    assert t.removed == s.removed + notes;
    SentConcat(s.removed, notes, KeyOf, k);
    KeysOf(notes);
    HandedFor(notes, k);
    var more := SentAt(notes, KeyOf, k);
    HandedCount(more);
    SpentConcat(x.sent, more, "");
    NoRequests();
    FlushedAtIs(o, es, now);
    assert y.sent == x.sent + more;
    MoreSent(o, es, k, x, y, more, now);
  }

  lemma SentIs(o: Options, es: seq<Event>, k: string)
    ensures SentFor(o, es, k) == CellOf(o, es, k).sent
  {
  }

  lemma KeysOf(notes: seq<Note>)
    ensures forall n <- notes :: !n.Lost? ==> KeyOf(n) == SignatureOf(n.request)
  {
    hide SignatureOf;
  }

  lemma FlushedAtIs(o: Options, es: seq<Event>, now: int)
    ensures var s, t := Run(o, es).cache, Fetched(Run(o, es), o, now);
            |s.removed| <= |t.removed| ==> FlushedAt(o, es, now) == Handed(t.removed[|s.removed|..])
  {
    hide Run, Fetched, Handed;
  }

  lemma FlushGrows(o: Options, es: seq<Event>, now: int)
    requires Books(o, es, now)
    ensures Run(o, es).cache.removed <= Fetched(Run(o, es), o, now).removed
  {
    hide *;
    BooksFacts(o, es, now);
    FetchedIs(o, es, "", now);
    RemoveExpiredIdle(ConfigOf(o, Run(o, es).flushed), Run(o, es).cache, now);
    GrownLogs(Run(o, es).cache, Fetched(Run(o, es), o, now));
  }

  lemma GrownLogs(s: State<Elem, Note>, t: State<Elem, Note>)
    requires Grown(s, t)
    ensures s.removed <= t.removed
  {
  }

  lemma MoreSent(o: Options, es: seq<Event>, k: string, x: Cell<Elem, Note>, y: Cell<Elem, Note>, more: seq<Note>,
                 now: int)
    requires FlushedExactly(o, es, k, x, y, now) && y.sent == x.sent + more
    requires Requests(y.sent) == Requests(x.sent) + |Handed(more)|
    ensures if x.value.Some? && Overdue(o, es, k, now) && !Expired(o, es, k, now) && Due(o, es, k)
            then |y.sent| == |x.sent| + 1 && !y.sent[|x.sent|].Lost? && Handed(more) == [y.sent[|x.sent|].request]
            else Handed(more) == []
  {
    hide Overdue, Expired, Due, Requests, Gathers;
    if |more| == 1 {
      HandedSnoc([], more[0]);
      assert [] + more == more && [] + [more[0]] == more;
    }
  }

  lemma OverdueIs(o: Options, es: seq<Event>, k: string, now: int)
    ensures Overdue(o, es, k, now) <==> o.refreshMs >= 0 && Placed(o, es, k) < now - o.refreshMs * 1000
    ensures CYCLES_PER_MS == 1000
  {
  }

  lemma FlushCell(o: Options, es: seq<Event>, k: string, now: int)
    requires o.entries > 0 && Books(o, es, now) && Clock(es, now) <= now && !Run(o, es).flushed
    ensures var x := CellOf(o, es, k);
            CellOf(o, es + [DoFlush(now)], k) ==
            if x.value.Some? && o.refreshMs >= 0 && x.since < now - o.refreshMs * 1000
            then Retired(ConfigOf(o, false), x, now) else x
  {
    hide *;
    BooksFacts(o, es, now);
    OverdueIs(o, es, k, now);
    var q, c := Run(o, es), ConfigOf(o, false);
    var s, threshold := q.cache, now - o.refreshMs * CYCLES_PER_MS;
    AfterFlush(o, es, k, now);
    CellParts(s, k);
    FetchedIs(o, es, k, now);
    if o.refreshMs >= 0 {
      FetchedExpires(o, q, now);
      IdleUnique(c, s);
      InTimeSorted(s.order, Clock(es, now));
      AllBearTagged(c, s.order, KeyOf, threshold, now);
      ExpireCellExact(c, s, threshold, KeyOf, k, now);
      StaleSince(s.order, k, threshold);
    } else {
      NeverExpires(o, q, now);
    }
  }

  lemma AfterFlush(o: Options, es: seq<Event>, k: string, now: int)
    ensures CellOf(o, es + [DoFlush(now)], k) == CellAt(Fetched(Run(o, es), o, now), KeyOf, k)
  {
    hide Fetched;
    assert (es + [DoFlush(now)])[..|es|] == es;
  }

  lemma NeverExpires(o: Options, q: QuotaState, now: int)
    requires o.refreshMs < 0
    ensures Fetched(q, o, now) == q.cache
  {
  }

  lemma StaleSince<V>(es: seq<Entry<V>>, k: string, threshold: int)
    ensures StaleAt(es, k, threshold) <==> ValueAt(es, k).Some? && SinceAt(es, k) < threshold
  {
  }

  lemma CellKnown(o: Options, es: seq<Event>, k: string, x: Cell<Elem, Note>)
    requires CellKept(o, es, k, x)
    ensures x.value.Some? ==>
              var e := x.value.value;
              && Good(k, e) && (e.inFlight <==> Waiting(o, es, k)) && e.response == LastAnswer(o, es, k)
              && e.lastRefresh == LastSent(o, es, k) && e.pending == PendingOf(Unsent(o, es, k))
              && FirstRequest(x.sent) == Some(e.request) && x.since == Placed(o, es, k)
  {
    hide Good, Waiting, LastAnswer, LastSent, Unsent, Placed, PendingOf, FirstRequest, Balanced;
  }

  lemma NotFlushed(o: Options, es: seq<Event>, k: string, x: Cell<Elem, Note>, now: int)
    requires x.value.None? || !Overdue(o, es, k, now)
    ensures FlushedExactly(o, es, k, x, x, now)
  {
    hide Overdue, Expired, Due, Renews, Requests;
  }

  /** An entry that goes through the deleter. */
  lemma FlushedOne(o: Options, es: seq<Event>, k: string, x: Cell<Elem, Note>, now: int)
    requires x.value.Some? && Overdue(o, es, k, now)
    requires var e := x.value.value;
             && Good(k, e) && (e.inFlight <==> Waiting(o, es, k)) && e.response == LastAnswer(o, es, k)
             && e.lastRefresh == LastSent(o, es, k) && e.pending == PendingOf(Unsent(o, es, k))
             && FirstRequest(x.sent) == Some(e.request)
    ensures FlushedExactly(o, es, k, x, Retired(ConfigOf(o, false), x, now), now)
  {
    var e, ops := x.value.value, Unsent(o, es, k);
    var f, y := OnDelete(o, e, now), Retired(ConfigOf(o, false), x, now);
    hide *;
    RetiredBy(o, x, now);
    OutcomeIs(o, e, now);
    PendingIs(ops);
    SpentConcat(x.sent, f.out, "");
    DeleterBooks(o, false, e, now);
    NoRequests();
    ExpiredIs(o, es, k, now);
    if ShouldDrop(o, e, now) {
      DroppedIntro(o, es, k, x, y, now);
    } else if e.inFlight || (ops == [] && e.response.errors == []) {
      NothingAdded(x.sent);
      StaysIntro(o, es, k, x, y, now);
    } else {
      RefreshOf(o, k, e, ops, now);
      RenewedIntro(o, es, k, x, y, f.out[0], now);
    }
  }

  lemma RetiredBy(o: Options, x: Cell<Elem, Note>, now: int)
    requires x.value.Some?
    ensures var f, y := OnDelete(o, x.value.value, now), Retired(ConfigOf(o, false), x, now);
            && ConfigOf(o, false).Outcome(x.value.value, now) == f
            && y.value == (if f.Keep? then Some(f.value) else None) && y.sent == x.sent + f.out
  {
    hide OnDelete;
  }

  lemma OutcomeIs(o: Options, e: Elem, now: int)
    ensures var f := OnDelete(o, e, now);
            && (ShouldDrop(o, e, now) ==> f == Drop(LostWith(e)) && (f.out == [] <==> e.pending.None?))
            && (!ShouldDrop(o, e, now) && (e.inFlight || (e.pending.None? && e.response.errors == [])) ==>
                 f == Keep(e, []))
  {
    hide ToProto;
  }

  /** What is sent for an element that is due. */
  lemma RefreshOf(o: Options, k: string, e: Elem, ops: seq<QuotaOperation>, now: int)
    requires Good(k, e) && e.pending == PendingOf(ops)
    requires !ShouldDrop(o, e, now) && !e.inFlight && (ops != [] || e.response.errors != [])
    ensures var f := OnDelete(o, e, now);
            && f.Keep? && |f.out| == 1 && f.value.pending.None? && f.value.inFlight
            && Renews(o, f.out[0], Some(e.request), e.response, ops)
  {
    hide ToProto, RoutesTo, PlainQuota, Signature.QuotaSignature, Gathers, Gathered;
    if ops != [] {
      GatheredGathers(ops);
    }
  }

  lemma ExpiredIs(o: Options, es: seq<Event>, k: string, now: int)
    ensures Expired(o, es, k, now) <==> now - LastSent(o, es, k) >= o.expirationMs * 1000
    ensures forall e: Elem :: e.lastRefresh == LastSent(o, es, k) ==>
        (ShouldDrop(o, e, now) <==> Expired(o, es, k, now))
    ensures Due(o, es, k) <==> !Waiting(o, es, k) && (LastAnswer(o, es, k).errors != [] || Unsent(o, es, k) != [])
  {
    hide LastSent, Waiting, LastAnswer, Unsent;
  }

  lemma DroppedIntro(o: Options, es: seq<Event>, k: string, x: Cell<Elem, Note>, y: Cell<Elem, Note>, now: int)
    requires x.value.Some? && Overdue(o, es, k, now) && Expired(o, es, k, now)
    requires y.value.None? && Requests(y.sent) == Requests(x.sent) && (y.sent == x.sent <==> Unsent(o, es, k) == [])
    ensures FlushedExactly(o, es, k, x, y, now)
  {
    hide Overdue, Expired, Requests, Unsent;
  }

  lemma StaysIntro(o: Options, es: seq<Event>, k: string, x: Cell<Elem, Note>, y: Cell<Elem, Note>, now: int)
    requires x.value.Some? && Overdue(o, es, k, now) && !Expired(o, es, k, now) && !Due(o, es, k)
    requires y.value == x.value && y.sent == x.sent
    ensures FlushedExactly(o, es, k, x, y, now)
  {
    hide Overdue, Expired, Due, Requests;
  }

  lemma RenewedIntro(o: Options, es: seq<Event>, k: string, x: Cell<Elem, Note>, y: Cell<Elem, Note>, n: Note, now: int)
    requires x.value.Some? && Overdue(o, es, k, now) && !Expired(o, es, k, now) && Due(o, es, k)
    requires y.sent == x.sent + [n] && y.value.Some? && y.value.value.pending.None? && y.value.value.inFlight
    requires Renews(o, n, FirstRequest(x.sent), LastAnswer(o, es, k), Unsent(o, es, k))
    ensures FlushedExactly(o, es, k, x, y, now)
  {
    hide Overdue, Expired, Due, Requests, Renews;
  }

  lemma CellSent(o: Options, es: seq<Event>, k: string, now: int)
    requires CellKept(o, es, k, CellOf(o, es, k)) && ValueAt(Run(o, es).cache.order, k).Some?
    ensures var e := ValueAt(Run(o, es).cache.order, k).value;
            ShouldDrop(o, e, now) <==> now - LastSent(o, es, k) >= o.expirationMs * CYCLES_PER_MS
  {
    hide Good, Waiting, LastAnswer, LastSent, Admitted, Spent, PendingTokens, Run, ValueAt;
  }

  lemma FetchedExpires(o: Options, q: QuotaState, now: int)
    requires o.refreshMs >= 0
    ensures var interval := o.refreshMs * CYCLES_PER_MS;
            0 <= interval && Fetched(q, o, now) == Expire(ConfigOf(o, q.flushed), q.cache, now - interval, now)
  {
  }

  lemma CellParts(s: State<Elem, Note>, k: string)
    ensures CellAt(s, KeyOf, k)
         == Cell(ValueAt(s.order, k), SinceAt(s.order, k), GoneAt(s.disposed, k), SentAt(s.removed, KeyOf, k))
  {
  }

  lemma StaleHasValue<V>(es: seq<Entry<V>>, k: string, threshold: int)
    ensures StaleAt(es, k, threshold) ==> EntryAt(es, k).Some? && ValueAt(es, k) == Some(EntryAt(es, k).value.value)
  {
  }

  lemma RetiredParts(o: Options, x: Cell<Elem, Note>, now: int)
    requires x.value.Some?
    ensures var y := Retired(ConfigOf(o, false), x, now);
            (y.value.Some? <==> !ShouldDrop(o, x.value.value, now)) && y.gone == x.gone + [x.value.value]
  {
  }

  lemma InTimeSorted<V>(es: seq<Entry<V>>, clock: int)
    requires InTime(es, clock)
    ensures CacheTheorems.Sorted(es)
  {
  }

  lemma QuotaIsStubborn(o: Options, now: int)
    requires o.expirationMs > 0
    ensures Reentry.Stubborn(ConfigOf(o, false), now)
  {
    hide ToProto;
  }

  lemma IdleFull(o: Options, s: State<Elem, Note>, k: string)
    requires Idle(ConfigOf(o, false), s) && |s.order| == o.entries && EntryAt(s.order, k).None?
    ensures Reentry.Full(ConfigOf(o, false), s, s.order, []) && s.order != [] && !HasKey(s.order, k)
  {
    FindFails(s.order, k);
    assert s.order + [] == s.order;
  }

  /**
   * A miss when the cache is full: the insertion of the new element returns if and only if some cached element has gone
   * without a refresh for the expiration interval. Otherwise the elements keep evicting and re-inserting each other.
   */
  lemma FullMissReturnsIff(o: Options, es: seq<Event>, k: string, e: Elem, now: int)
    requires o.entries > 0 && o.expirationMs > 0 && Legal(o, es) && !Run(o, es).flushed
    requires var t := Fetched(Run(o, es), o, now); EntryAt(t.order, k).None? && |t.order| == o.entries
    ensures var c, t := ConfigOf(o, false), Fetched(Run(o, es), o, now);
            var m := Reentry.FirstDropped(c, t.order, now);
            && (m < |t.order| ==>
                  && ShouldDrop(o, t.order[m].value, now)
                  && forall fuel: nat :: fuel >= 3 * m + 3 ==>
                       Reentry.InsertF(c, t, k, e, now, fuel) == Some(Reentry.Rotated(c, t, t.order, [], k, e, now)))
            && (m == |t.order| ==>
                  && (forall i :: 0 <= i < |t.order| ==> !ShouldDrop(o, t.order[i].value, now))
                  && forall fuel: nat :: Reentry.InsertF(c, t, k, e, now, fuel) == None)
  {
    var c, t := ConfigOf(o, false), Fetched(Run(o, es), o, now);
    hide *;
    EveryRunKeepsBooks(o, es, now);
    FetchedMoved(o, es, k, now);
    QuotaIsStubborn(o, now);
    IdleFull(o, t, k);
    Reentry.FullInsertReturnsIff(c, t, k, e, now);
    var m := Reentry.FirstDropped(c, t.order, now);
    if m == |t.order| {
      Reentry.StubbornEndless(c, t.order[m - 1].value, now);
    }
    if m < |t.order| {
      DropsOrKeeps(o, t.order[m].value, now);
    } else {
      forall i | 0 <= i < |t.order| ensures !ShouldDrop(o, t.order[i].value, now) {
        DropsOrKeeps(o, t.order[i].value, now);
      }
    }
  }

  const ONE_ENTRY := Options("s", "c", 1, 1, 1)

  /** A request for no tokens of a method. */
  function RequestFor(m: string): QuotaRequest {
    QuotaRequest("s", "c", Some(QuotaOperation("", m, "", map[], [], Normal)))
  }

  /** A run that gets there: a cache of one entry, and two methods asked for at the same time. */
  lemma FullMissDiverges()
    ensures var o, es, k := ONE_ENTRY, [DoAsk(RequestFor("a"), 0)], SignatureOf(RequestFor("b"));
            && Legal(o, es)
            && var t := Fetched(Run(o, es), o, 0);
               && EntryAt(t.order, k).None? && |t.order| == o.entries
               && forall fuel: nat ::
                    Reentry.InsertF(ConfigOf(o, false), t, k, NewElem(RequestFor("b"), 0), 0, fuel) == None
  {
    var o, es, k, e := ONE_ENTRY, [DoAsk(RequestFor("a"), 0)], SignatureOf(RequestFor("b")),
        NewElem(RequestFor("b"), 0);
    OneEntryRun();
    var t := Fetched(Run(o, es), o, 0);
    hide Fetched, Run, Legal, SignatureOf, NewElem, ConfigOf, EntryAt, Reentry.InsertF, Reentry.FirstDropped,
        Reentry.Rotated;
    FullMissReturnsIff(o, es, k, e, 0);
    assert !ShouldDrop(o, t.order[0].value, 0);
  }

  lemma OneEntryRun()
    ensures var o, es, k := ONE_ENTRY, [DoAsk(RequestFor("a"), 0)], SignatureOf(RequestFor("b"));
            && Legal(o, es) && !Run(o, es).flushed
            && var t := Fetched(Run(o, es), o, 0);
               && EntryAt(t.order, k).None? && |t.order| == 1 && t.order[0].value.lastRefresh == 0
  {
    var o, r := ONE_ENTRY, RequestFor("a");
    var es := [DoAsk(r, 0)];
    assert es[..0] == [];
    assert Legal(o, []) && Run(o, []) == QuotaState(State([], [], [], [], []), false);
    assert Legal(o, es) by {
      assert PlainQuota(OperationOf(r));
    }
    TwoSignatures();
    hide SignatureOf;
    assert Fetched(Run(o, []), o, 0) == Run(o, []).cache;
    assert Run(o, es).cache.order == [Entry(SignatureOf(r), NewElem(r, 0), 0, 1, 0)];
    assert Fetched(Run(o, es), o, 0) == Run(o, es).cache;
  }

  lemma TwoSignatures()
    ensures SignatureOf(RequestFor("a")) != SignatureOf(RequestFor("b"))
  {
    var a, b := OperationOf(RequestFor("a")), OperationOf(RequestFor("b"));
    assert PlainQuota(a) && PlainQuota(b);
    QuotaSignatureIdentifies(a, b);
    assert "a"[0] != "b"[0];
  }

  lemma DropsOrKeeps(o: Options, e: Elem, now: int)
    ensures ConfigOf(o, false).Outcome(e, now).Drop? <==> ShouldDrop(o, e, now)
  {
  }
}
