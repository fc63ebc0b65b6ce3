/**
 * Runs of the check aggregator: which answers are given, where aggregated operations go, and how often the server is
 * asked.
 */
module CheckRuns {
  import opened Lists
  import opened Proto
  import opened Operations
  import opened MergeAlgebra
  import opened CacheModel
  import opened CacheCells
  import opened CheckModel

  datatype Event =
    | DoCheck(request: CheckRequest, now: int)
    | DoRespond(request: CheckRequest, response: CheckResponse, now: int)
    | DoFlush(now: int)
    | DoFlushAll(ks: seq<string>, now: int)

  function Step(o: Options, s: Checks, e: Event): Checks {
    match e
    case DoCheck(request, now) => Check(o, s, request, now).0
    case DoRespond(request, response, now) => Respond(o, s, request, response, now)
    case DoFlush(now) => Fetched(o, s, now)
    case DoFlushAll(ks, now) => RemoveEach(ConfigOf(o), s, ks, now)
  }

  function Run(o: Options, es: seq<Event>): Checks {
    if es == [] then State([], [], [], [], []) else Step(o, Run(o, es[..|es| - 1]), es[|es| - 1])
  }

  function Clock(es: seq<Event>, start: int): int { if es == [] then start else es[|es| - 1].now }

  /** Time does not go back, and `FlushAll` visits every key of the table. */
  ghost predicate Legal(o: Options, es: seq<Event>) {
    es != [] ==>
      && Legal(o, es[..|es| - 1])
      && Clock(es[..|es| - 1], es[|es| - 1].now) <= es[|es| - 1].now
      && (es[|es| - 1].DoFlushAll? ==> Covers(Run(o, es[..|es| - 1]), es[|es| - 1].ks))
  }

  function CellFor(o: Options, es: seq<Event>, k: string): Cell<Elem, Flushed> { CellAt(Run(o, es), KeyOf, k) }

  /** How often an element has left the cache under this key. */
  function Lives(o: Options, es: seq<Event>, k: string): nat { |CellFor(o, es, k).gone| }

  predicate Responds(e: Event, k: string) { e.DoRespond? && SignatureOf(e.request) == k }

  predicate Queries(e: Event, k: string) { e.DoCheck? && SignatureOf(e.request) == k }

  /** The element that a check finds, if any. */
  function FoundBy(o: Options, init: seq<Event>, e: Event): Option<Elem>
    requires e.DoCheck?
  {
    ValueAt(Fetched(o, Run(o, init), e.now).order, SignatureOf(e.request))
  }

  /** What the last call, a check, returned. */
  function Reply(o: Options, es: seq<Event>): (Code, CheckResponse)
    requires es != [] && es[|es| - 1].DoCheck?
  {
    var r := Check(o, Run(o, es[..|es| - 1]), es[|es| - 1].request, es[|es| - 1].now);
    (r.1, r.2)
  }

  // ----- What a run should do, read off the calls -----

  /** The last response given for the signature. */
  function LastResponse(es: seq<Event>, k: string): Option<CheckResponse> {
    if es == [] then None
    else if Responds(es[|es| - 1], k) then Some(es[|es| - 1].response)
    else LastResponse(es[..|es| - 1], k)
  }

  /** The last call is a check that found an element with a positive response. */
  predicate Aggregates(o: Options, es: seq<Event>, k: string) {
    && es != [] && Queries(es[|es| - 1], k)
    && var found := FoundBy(o, es[..|es| - 1], es[|es| - 1]); found.Some? && found.value.response.errors == []
  }

  /**
   * The operations aggregated under the signature: one group for each life of an element, the last for the present or
   * next one.
   */
  function Groups(o: Options, es: seq<Event>, k: string): (g: seq<seq<Operation>>)
    ensures |g| > 0
  {
    if es == [] then [[]]
    else
      var init := Groups(o, es[..|es| - 1], k);
      var g := if Lives(o, es, k) > Lives(o, es[..|es| - 1], k) then init + [[]] else init;
      if Aggregates(o, es, k) then g[|g| - 1 := g[|g| - 1] + [OperationOf(es[|es| - 1].request)]] else g
  }

  /** The last call is a check that found an element and yet returned `NotFound`. */
  predicate Refreshes(o: Options, es: seq<Event>, k: string) {
    && es != [] && Queries(es[|es| - 1], k) && FoundBy(o, es[..|es| - 1], es[|es| - 1]).Some?
    && Reply(o, es).0 == NotFound
  }

  /** When a response for the signature was last given, or a check on a cached element was last sent on. */
  function LastTouch(o: Options, es: seq<Event>, k: string): int {
    if es == [] then 0
    else if Responds(es[|es| - 1], k) || Refreshes(o, es, k) then es[|es| - 1].now
    else LastTouch(o, es[..|es| - 1], k)
  }

  /** When the signature was last checked or given a response. */
  function LastCall(es: seq<Event>, k: string): int {
    if es == [] then 0
    else if Queries(es[|es| - 1], k) || Responds(es[|es| - 1], k) then es[|es| - 1].now
    else LastCall(es[..|es| - 1], k)
  }

  /** Since the last response, a check was sent on under a positive response. */
  predicate Flushing(o: Options, es: seq<Event>, k: string) {
    && es != [] && !Responds(es[|es| - 1], k)
    && ((Refreshes(o, es, k) && Aggregates(o, es, k)) || Flushing(o, es[..|es| - 1], k))
  }

  /** The requests that non-empty groups become. */
  function RequestsOf(o: Options, k: string, gs: seq<seq<Operation>>): seq<Flushed> {
    if gs == [] then []
    else
      var init, g := RequestsOf(o, k, gs[..|gs| - 1]), gs[|gs| - 1];
      if g == [] then init else init + [Flushed(k, RequestOf(o, AggregateOf(o.kinds, g)))]
  }

  function PendingOf(o: Options, g: seq<Operation>): Option<Aggregate> {
    if g == [] then None else Some(AggregateOf(o.kinds, g))
  }

  // ----- One cell -----

  /**
   * A cell, and what its history says: groups of operations, last response, last touch, and whether a check is under
   * way.
   */
  ghost predicate Fits(o: Options, k: string, x: Cell<Elem, Flushed>, gs: seq<seq<Operation>>,
                       last: Option<CheckResponse>,
                       touch: int, flushing: bool) {
    && |gs| == |x.gone| + 1
    && x.sent == RequestsOf(o, k, gs[..|x.gone|])
    && match x.value
       case None => gs[|x.gone|] == []
       case Some(e) =>
         && e.signature == k && Some(e.response) == last && e.pending == PendingOf(o, gs[|x.gone|])
         && e.lastCheck == touch && e.isFlushing == flushing
  }

  ghost predicate Booked(o: Options, es: seq<Event>, k: string, x: Cell<Elem, Flushed>) {
    && Fits(o, k, x, Groups(o, es, k), LastResponse(es, k), LastTouch(o, es, k), Flushing(o, es, k))
    && (x.value.Some? ==> x.since == LastCall(es, k))
  }

  /** The cell was `x` after `es`; by expiry or eviction the next call may have retired it. */
  ghost predicate Moved(o: Options, x: Cell<Elem, Flushed>, y: Cell<Elem, Flushed>, now: int) {
    y == x || (x.value.Some? && y == Retired(ConfigOf(o), x, now))
  }

  ghost predicate Follows(es: seq<Event>, init: seq<Event>) { es != [] && init == es[..|es| - 1] }

  lemma Unfolds(o: Options, es: seq<Event>, init: seq<Event>, k: string)
    requires Follows(es, init)
    ensures var e, x, z := es[|es| - 1], CellFor(o, init, k), CellFor(o, es, k);
            && LastResponse(es, k) == (if Responds(e, k) then Some(e.response) else LastResponse(init, k))
            && Groups(o, es, k) == (
                 var g := if |z.gone| > |x.gone| then Groups(o, init, k) + [[]] else Groups(o, init, k);
                 if Aggregates(o, es, k) then g[|g| - 1 := g[|g| - 1] + [OperationOf(e.request)]] else g)
            && LastTouch(o, es, k) == (if Responds(e, k) || Refreshes(o, es, k) then e.now else LastTouch(o, init, k))
            && (Flushing(o, es, k) <==>
                 !Responds(e, k)
                 && ((Refreshes(o, es, k) && Aggregates(o, es, k)) || Flushing(o, init, k)))
  {
    hide CellFor, OperationOf, SignatureOf;
  }

  lemma RetiredParts(o: Options, x: Cell<Elem, Flushed>, now: int)
    requires x.value.Some?
    ensures var y := Retired(ConfigOf(o), x, now);
            && y.value.None? && y.gone == x.gone + [x.value.value]
            && y.sent == x.sent + (match x.value.value.pending
                                   case None => []
                                   case Some(a) => [Flushed(x.value.value.signature, RequestOf(o, a))])
  {
    hide RequestOf;
  }

  lemma RequestsSnoc(o: Options, k: string, gs: seq<seq<Operation>>, g: seq<Operation>)
    ensures RequestsOf(o, k, gs + [g])
         == if g == [] then RequestsOf(o, k, gs)
             else RequestsOf(o, k, gs) + [Flushed(k, RequestOf(o, AggregateOf(o.kinds, g)))]
  {
    assert (gs + [g])[..|gs|] == gs;
  }

  lemma FitsRetired(o: Options, k: string, x: Cell<Elem, Flushed>, gs: seq<seq<Operation>>, last: Option<CheckResponse>,
                    touch: int, flushing: bool, now: int)
    requires Fits(o, k, x, gs, last, touch, flushing) && x.value.Some?
    ensures var y := Retired(ConfigOf(o), x, now);
            Fits(o, k, y, gs + [[]], last, touch, flushing) && |y.gone| > |x.gone| && y.value.None?
  {
    hide RequestsOf, Retired, ConfigOf, RequestOf, AggregateOf;
    RetiredParts(o, x, now);
    RequestsSnoc(o, k, gs[..|x.gone|], gs[|x.gone|]);
    assert gs[..|x.gone|] + [gs[|x.gone|]] == gs && (gs + [[]])[..|gs|] == gs;
  }

  /** A call that leaves the element alone, or retires it. */
  lemma MovedFits(o: Options, es: seq<Event>, k: string, x: Cell<Elem, Flushed>, y: Cell<Elem, Flushed>, now: int)
    requires Booked(o, es, k, x) && Moved(o, x, y, now)
    ensures Fits(o, k, y, Regrouped(Groups(o, es, k), x, y), LastResponse(es, k), LastTouch(o, es, k),
        Flushing(o, es, k))
  {
    hide Fits, Groups, LastResponse, LastTouch, Flushing, Retired, LastCall;
    if y != x {
      FitsRetired(o, k, x, Groups(o, es, k), LastResponse(es, k), LastTouch(o, es, k), Flushing(o, es, k), now);
    }
  }

  ghost predicate Unconcerned(o: Options, es: seq<Event>, k: string) {
    es != [] && !Responds(es[|es| - 1], k) && !Aggregates(o, es, k) && !Refreshes(o, es, k)
  }

  lemma OtherKept(o: Options, es: seq<Event>, init: seq<Event>, k: string, x: Cell<Elem, Flushed>, now: int)
    requires Follows(es, init) && Unconcerned(o, es, k)
    requires x == CellFor(o, init, k) && Booked(o, init, k, x) && Moved(o, x, CellFor(o, es, k), now)
    requires Queries(es[|es| - 1], k) ==> CellFor(o, es, k).value.None?
    ensures Booked(o, es, k, CellFor(o, es, k))
  {
    hide Fits, CellFor, Groups, LastResponse, LastTouch, Flushing, Retired, Aggregates, Refreshes, Responds,
        OperationOf,
        Queries;
    MovedFits(o, init, k, x, CellFor(o, es, k), now);
    RetiredNone(o, x, now);
    Unfolds(o, es, init, k);
    assert LastCall(es, k) == if Queries(es[|es| - 1], k) then es[|es| - 1].now else LastCall(init, k);
  }

  lemma RetiredNone(o: Options, x: Cell<Elem, Flushed>, now: int)
    ensures x.value.Some? ==> Retired(ConfigOf(o), x, now).value.None?
  {
    if x.value.Some? {
      RetiredParts(o, x, now);
    }
  }

  // ----- Calls on a found element -----

  lemma FitsChecked(o: Options, k: string, y: Cell<Elem, Flushed>, gs: seq<seq<Operation>>, last: Option<CheckResponse>,
                    touch: int, flushing: bool, op: Operation, now: int)
    requires Fits(o, k, y, gs, last, touch, flushing) && y.value.Some?
    ensures var e := y.value.value;
            var (f, code) := Checked(o, e, op, now);
            var n, positive := |gs| - 1, e.response.errors == [];
            && |gs| > 0 && Some(e.response) == last
            && code == (if now - touch >= o.flushMs * CYCLES_PER_MS then NotFound else Ok)
            && Fits(o, k, y.(value := Some(f), since := now), if positive then gs[n := gs[n] + [op]] else gs, last,
                    if code == NotFound then now else touch, flushing || (code == NotFound && positive))
  {
    hide RequestsOf, Start, Merge;
    var e, n := y.value.value, |gs| - 1;
    PendingSnoc(o, gs[n], op);
    assert gs[n := gs[n] + [op]][..n] == gs[..n];
  }

  lemma PendingSnoc(o: Options, g: seq<Operation>, op: Operation)
    ensures PendingOf(o, g + [op]) == Some(match PendingOf(o, g)
                                               case None => Start(o.kinds, op)
                                               case Some(a) => Merge(o.kinds, a, op))
  {
    hide Start, Merge;
    assert (g + [op])[..|g|] == g;
  }

  lemma FitsResponded(o: Options, k: string, y: Cell<Elem, Flushed>, gs: seq<seq<Operation>>,
                      last: Option<CheckResponse>,
                      touch: int, flushing: bool, response: CheckResponse, now: int)
    requires Fits(o, k, y, gs, last, touch, flushing)
    ensures var f := match y.value case None => NewElem(k, response, now) case Some(e) => Responded(e, response, now);
            Fits(o, k, y.(value := Some(f), since := now), gs, Some(response), now, false)
  {
    hide RequestsOf;
  }

  // ----- Every cell -----

  ghost predicate Books(o: Options, es: seq<Event>) {
    Idle(ConfigOf(o), Run(o, es)) && forall k :: Booked(o, es, k, CellFor(o, es, k))
  }

  lemma ElemBears(o: Options, k: string, e: Elem, now: int)
    requires e.signature == k
    ensures Bears(ConfigOf(o), k, e, KeyOf, now)
  {
  }

  lemma KeptSignature(o: Options, es: seq<Event>, k: string, x: Cell<Elem, Flushed>)
    requires Booked(o, es, k, x) && x.value.Some?
    ensures x.value.value.signature == k
  {
    hide RequestsOf, Groups, LastResponse, LastTouch, Flushing;
  }

  lemma BooksParts(o: Options, es: seq<Event>, now: int)
    requires Books(o, es)
    ensures Idle(ConfigOf(o), Run(o, es)) && AllBear(ConfigOf(o), Run(o, es).order, KeyOf, now)
        && !ConfigOf(o).reentrant
    ensures forall k :: Booked(o, es, k, CellFor(o, es, k)) && CellFor(o, es, k) == CellAt(Run(o, es), KeyOf, k)
  {
    hide Booked, Idle, Bears, Run, RequestOf;
    var s := Run(o, es);
    forall k | ValueAt(s.order, k).Some? ensures Bears(ConfigOf(o), k, ValueAt(s.order, k).value, KeyOf, now) {
      assert Booked(o, es, k, CellFor(o, es, k));
      KeptSignature(o, es, k, CellFor(o, es, k));
      ElemBears(o, k, ValueAt(s.order, k).value, now);
    }
  }

  /** Expiry at the start of a call. */
  lemma FetchedMoved(o: Options, es: seq<Event>, k: string, now: int)
    requires Books(o, es)
    ensures var t := Fetched(o, Run(o, es), now);
            && Idle(ConfigOf(o), t) && Moved(o, CellFor(o, es, k), CellAt(t, KeyOf, k), now)
            && CellAt(t, KeyOf, k).value == ValueAt(t.order, k)
            && (ValueAt(t.order, k).Some? <==> EntryAt(t.order, k).Some?)
            && (ValueAt(t.order, k).Some? ==> ValueAt(t.order, k).value.signature == k)
  {
    hide *;
    var c, s, t := ConfigOf(o), Run(o, es), Fetched(o, Run(o, es), now);
    BooksParts(o, es, now);
    FetchedIs(o, s, now);
    RemoveExpiredCell(c, s, KeyOf, k, now);
    CellEntry(t, k);
    CellEntry(s, k);
    MovedIntro(o, CellFor(o, es, k), CellAt(t, KeyOf, k), now);
    if ValueAt(s.order, k).Some? {
      KeptSignature(o, es, k, CellFor(o, es, k));
      RetiredParts(o, CellFor(o, es, k), now);
    } else {
      NothingRetired(o, CellFor(o, es, k), now);
    }
  }

  lemma NothingRetired(o: Options, x: Cell<Elem, Flushed>, now: int)
    requires x.value.None?
    ensures Retired(ConfigOf(o), x, now) == x
  {
  }

  lemma MovedIntro(o: Options, x: Cell<Elem, Flushed>, y: Cell<Elem, Flushed>, now: int)
    ensures y == x || y == Retired(ConfigOf(o), x, now) ==> Moved(o, x, y, now)
  {
    if x.value.None? {
      NothingRetired(o, x, now);
    }
  }

  lemma FetchedIs(o: Options, s: Checks, now: int)
    ensures Fetched(o, s, now) == RemoveExpired(ConfigOf(o), s, now)
  {
  }

  lemma CellEntry(s: Checks, k: string)
    ensures CellAt(s, KeyOf, k).value == ValueAt(s.order, k)
    ensures ValueAt(s.order, k).Some? <==> EntryAt(s.order, k).Some?
  {
  }

  lemma FetchedBears(o: Options, es: seq<Event>, now: int)
    requires Books(o, es)
    ensures AllBear(ConfigOf(o), Fetched(o, Run(o, es), now).order, KeyOf, now)
  {
    hide Books, Fetched, Run, Bears, ConfigOf, EntryAt;
    var t := Fetched(o, Run(o, es), now);
    forall k | ValueAt(t.order, k).Some? ensures Bears(ConfigOf(o), k, ValueAt(t.order, k).value, KeyOf, now) {
      FetchedMoved(o, es, k, now);
      ElemBears(o, k, ValueAt(t.order, k).value, now);
    }
  }

  ghost predicate Next(o: Options, es: seq<Event>, init: seq<Event>) {
    Follows(es, init) && Books(o, init) && Legal(o, es)
  }

  lemma NextParts(o: Options, es: seq<Event>, init: seq<Event>)
    requires Next(o, es, init)
    ensures es != [] && Follows(es, init) && Books(o, init)
    ensures Run(o, es) == Step(o, Run(o, init), es[|es| - 1])
    ensures es[|es| - 1].DoFlushAll? ==> Covers(Run(o, init), es[|es| - 1].ks)
    ensures forall k :: CellFor(o, es, k) == CellAt(Run(o, es), KeyOf, k)
  {
  }

  lemma Concerns(o: Options, es: seq<Event>, init: seq<Event>, k: string)
    requires Follows(es, init)
    ensures var e := es[|es| - 1];
            && (Responds(e, k) <==> e.DoRespond? && SignatureOf(e.request) == k)
            && (Aggregates(o, es, k) <==> e.DoCheck? && SignatureOf(e.request) == k && FoundBy(o, init, e).Some?
                                          && FoundBy(o, init, e).value.response.errors == [])
            && (Refreshes(o, es, k) <==>
                 e.DoCheck? && SignatureOf(e.request) == k && FoundBy(o, init, e).Some?
                 && Reply(o, es).0 == NotFound)
            && (e.DoCheck? ==>
                 FoundBy(o, init, e)
                 == ValueAt(Fetched(o, Run(o, init), e.now).order, SignatureOf(e.request)))
            && (Unconcerned(o, es, k) <==> !Responds(e, k) && !Aggregates(o, es, k) && !Refreshes(o, es, k))
  {
    hide Fetched, SignatureOf, Reply, Run;
  }

  lemma CheckIs(o: Options, es: seq<Event>, init: seq<Event>)
    requires Next(o, es, init) && es[|es| - 1].DoCheck?
    ensures var e := es[|es| - 1];
            var c, k, t := ConfigOf(o), SignatureOf(e.request), Fetched(o, Run(o, init), e.now);
            && (EntryAt(t.order, k).None? ==> Run(o, es) == t && Reply(o, es) == (NotFound, NO_RESPONSE))
            && (EntryAt(t.order, k).Some? ==>
                  && ValueAt(t.order, k).Some?
                  && var (f, code) := Checked(o, ValueAt(t.order, k).value, OperationOf(e.request), e.now);
                     Run(o, es) == Used(c, t, k, f, e.now)
                     && Reply(o, es) == (code, if code == Ok then ValueAt(t.order, k).value.response else NO_RESPONSE))
  {
    hide Fetched, Used, Checked, Books, SignatureOf;
    NextParts(o, es, init);
  }

  /**
   * The result of a check is what the history says: the last response if it is answered from the cache; and a found
   * element is sent on if and only if the flush interval has passed since the last response or the last check sent on.
   */
  ghost predicate Answers(o: Options, es: seq<Event>, init: seq<Event>, k: string)
    requires es != [] && es[|es| - 1].DoCheck?
  {
    && (Reply(o, es).0 == Ok ==> LastResponse(es, k) == Some(Reply(o, es).1))
    && (FoundBy(o, init, es[|es| - 1]).Some? ==>
          Reply(o, es).0 == if es[|es| - 1].now - LastTouch(o, init, k) >= o.flushMs * CYCLES_PER_MS then NotFound
              else Ok)
  }

  lemma CheckStep(o: Options, es: seq<Event>, init: seq<Event>, k: string)
    requires Next(o, es, init) && es[|es| - 1].DoCheck?
    ensures Booked(o, es, k, CellFor(o, es, k)) && Idle(ConfigOf(o), Run(o, es))
    ensures k == SignatureOf(es[|es| - 1].request) ==> Answers(o, es, init, k)
  {
    hide *;
    NextParts(o, es, init);
    CheckIs(o, es, init);
    var e := es[|es| - 1];
    var c, j, t := ConfigOf(o), SignatureOf(e.request), Fetched(o, Run(o, init), e.now);
    var x, y, z := CellFor(o, init, k), CellAt(t, KeyOf, k), CellFor(o, es, k);
    BooksParts(o, init, e.now);
    FetchedMoved(o, init, k, e.now);
    FetchedMoved(o, init, j, e.now);
    Concerns(o, es, init, k);
    CalledNow(es, k);
    if EntryAt(t.order, j).Some? {
      var f := Checked(o, ValueAt(t.order, j).value, OperationOf(e.request), e.now).0;
      LruMode(o);
      UsedCell(c, t, j, f, KeyOf, k, e.now);
      if j == k {
        MovedFits(o, init, k, x, y, e.now);
        CheckedKept(o, es, init, k, x, y);
      } else {
        OtherKept(o, es, init, k, x, e.now);
      }
    } else {
      OtherKept(o, es, init, k, x, e.now);
      if j == k {
        NoAnswer(o, es, init, k);
      }
    }
  }

  lemma NoAnswer(o: Options, es: seq<Event>, init: seq<Event>, k: string)
    requires es != [] && es[|es| - 1].DoCheck? && Reply(o, es).0 == NotFound && FoundBy(o, init, es[|es| - 1]).None?
    ensures Answers(o, es, init, k)
  {
  }

  lemma CheckedKept(o: Options, es: seq<Event>, init: seq<Event>, k: string, x: Cell<Elem, Flushed>,
                    y: Cell<Elem, Flushed>)
    requires Follows(es, init) && es[|es| - 1].DoCheck? && SignatureOf(es[|es| - 1].request) == k
        && x == CellFor(o, init, k)
    requires y.value.Some? && FoundBy(o, init, es[|es| - 1]) == y.value
    requires var (f, code) := Checked(o, y.value.value, OperationOf(es[|es| - 1].request), es[|es| - 1].now);
             CellFor(o, es, k) == y.(value := Some(f), since := es[|es| - 1].now)
                 && Reply(o, es) == (code, if code == Ok then y.value.value.response else NO_RESPONSE)
    requires Fits(o, k, y, Regrouped(Groups(o, init, k), x, y), LastResponse(init, k), LastTouch(o, init, k),
        Flushing(o, init, k))
    ensures Booked(o, es, k, CellFor(o, es, k)) && Answers(o, es, init, k)
  {
    hide Fits, CellFor, Groups, LastResponse, LastTouch, Flushing, Aggregates, Refreshes, OperationOf, Checked, Reply,
        FoundBy, SignatureOf;
    var e, g := es[|es| - 1], Regrouped(Groups(o, init, k), x, y);
    Concerns(o, es, init, k);
    Unfolds(o, es, init, k);
    FitsChecked(o, k, y, g, LastResponse(init, k), LastTouch(o, init, k), Flushing(o, init, k), OperationOf(e.request),
        e.now);
    CalledNow(es, k);
  }

  lemma CalledNow(es: seq<Event>, k: string)
    requires es != []
    ensures Responds(es[|es| - 1], k) || (es[|es| - 1].DoCheck? && SignatureOf(es[|es| - 1].request) == k) ==>
              LastCall(es, k) == es[|es| - 1].now
    ensures Queries(es[|es| - 1], k) <==> es[|es| - 1].DoCheck? && SignatureOf(es[|es| - 1].request) == k
  {
  }

  lemma LruMode(o: Options)
    ensures ConfigOf(o).lru
  {
  }

  lemma RespondIs(o: Options, es: seq<Event>, init: seq<Event>)
    requires Next(o, es, init) && es[|es| - 1].DoRespond?
    ensures var e := es[|es| - 1];
            var c, k, t := ConfigOf(o), SignatureOf(e.request), Fetched(o, Run(o, init), e.now);
            && (EntryAt(t.order, k).None? ==>
                  ValueAt(t.order, k).None? && Run(o, es) == Put(c, t, k, NewElem(k, e.response, e.now), e.now))
            && (EntryAt(t.order, k).Some? ==>
                  && ValueAt(t.order, k).Some?
                  && Run(o, es) == Used(c, t, k, Responded(ValueAt(t.order, k).value, e.response, e.now), e.now))
  {
    hide Fetched, Used, Put, Responded, NewElem, Books, SignatureOf;
    NextParts(o, es, init);
  }

  lemma RespondStep(o: Options, es: seq<Event>, init: seq<Event>, k: string)
    requires Next(o, es, init) && es[|es| - 1].DoRespond?
    ensures Booked(o, es, k, CellFor(o, es, k)) && Idle(ConfigOf(o), Run(o, es))
  {
    hide *;
    NextParts(o, es, init);
    RespondIs(o, es, init);
    var e := es[|es| - 1];
    var c, j, t := ConfigOf(o), SignatureOf(e.request), Fetched(o, Run(o, init), e.now);
    var x, y := CellFor(o, init, k), CellAt(t, KeyOf, k);
    BooksParts(o, init, e.now);
    FetchedMoved(o, init, k, e.now);
    FetchedMoved(o, init, j, e.now);
    FetchedBears(o, init, e.now);
    MovedFits(o, init, k, x, y, e.now);
    Concerns(o, es, init, k);
    CalledNow(es, k);
    if EntryAt(t.order, j).Some? {
      var f := Responded(ValueAt(t.order, j).value, e.response, e.now);
      LruMode(o);
      UsedCell(c, t, j, f, KeyOf, k, e.now);
      if j == k {
        RespondedKept(o, es, init, k, x, y);
      } else {
        OtherKept(o, es, init, k, x, e.now);
      }
    } else {
      IdleUnique(c, t);
      AllBearTagged(c, t.order, KeyOf, e.now, e.now);
      MayPutIntro(o, t, j);
      var f := NewElem(j, e.response, e.now);
      PutCell(c, t, j, f, KeyOf, k, e.now);
      if j == k {
        RespondedKept(o, es, init, k, x, y);
      } else {
        MovedTwice(o, x, y, CellFor(o, es, k), e.now);
        OtherKept(o, es, init, k, x, e.now);
      }
    }
  }

  lemma MayPutIntro(o: Options, t: Checks, k: string)
    requires Idle(ConfigOf(o), t) && EntryAt(t.order, k).None?
    ensures MayPut(ConfigOf(o), t, k)
  {
  }

  lemma MovedTwice(o: Options, x: Cell<Elem, Flushed>, y: Cell<Elem, Flushed>, z: Cell<Elem, Flushed>, now: int)
    requires Moved(o, x, y, now) && (z == y || (y.value.Some? && z == Retired(ConfigOf(o), y, now)))
    ensures Moved(o, x, z, now)
  {
    hide Retired;
    if y.value.Some? && y != x {
      RetiredParts(o, x, now);
    }
  }

  lemma RespondedKept(o: Options, es: seq<Event>, init: seq<Event>, k: string, x: Cell<Elem, Flushed>,
                      y: Cell<Elem, Flushed>)
    requires Follows(es, init) && Responds(es[|es| - 1], k) && x == CellFor(o, init, k)
    requires var e := es[|es| - 1];
             CellFor(o, es, k) == y.(value := Some(match y.value
                                                  case None => NewElem(k, e.response, e.now)
                                                  case Some(f) => Responded(f, e.response, e.now)), since := e.now)
    requires Fits(o, k, y, Regrouped(Groups(o, init, k), x, y), LastResponse(init, k), LastTouch(o, init, k),
        Flushing(o, init, k))
    ensures Booked(o, es, k, CellFor(o, es, k))
  {
    hide Fits, CellFor, Groups, LastResponse, LastTouch, Flushing, Aggregates, Refreshes, Responded, NewElem,
        OperationOf;
    var e, g := es[|es| - 1], Regrouped(Groups(o, init, k), x, y);
    NoCheck(o, es, k);
    Unfolds(o, es, init, k);
    FitsResponded(o, k, y, g, LastResponse(init, k), LastTouch(o, init, k), Flushing(o, init, k), e.response, e.now);
    CalledNow(es, k);
  }

  lemma NoCheck(o: Options, es: seq<Event>, k: string)
    requires es != [] && !es[|es| - 1].DoCheck?
    ensures !Aggregates(o, es, k) && !Refreshes(o, es, k)
  {
  }

  lemma FlushStep(o: Options, es: seq<Event>, init: seq<Event>, k: string)
    requires Next(o, es, init) && (es[|es| - 1].DoFlush? || es[|es| - 1].DoFlushAll?)
    ensures Booked(o, es, k, CellFor(o, es, k)) && Idle(ConfigOf(o), Run(o, es))
    ensures es[|es| - 1].DoFlushAll? ==> Run(o, es).order == []
  {
    hide *;
    NextParts(o, es, init);
    FlushIs(o, es, init);
    var e, c, s := es[|es| - 1], ConfigOf(o), Run(o, init);
    BooksParts(o, init, e.now);
    Concerns(o, es, init, k);
    CalledNow(es, k);
    NoCheck(o, es, k);
    if e.DoFlush? {
      FetchedMoved(o, init, k, e.now);
    } else {
      CoversParts(s, e.ks);
      RemoveAllCell(c, s, e.ks, KeyOf, k, e.now);
      MovedIntro(o, CellFor(o, init, k), CellFor(o, es, k), e.now);
    }
    OtherKept(o, es, init, k, CellFor(o, init, k), e.now);
  }

  lemma CoversParts(s: Checks, ks: seq<string>)
    requires Covers(s, ks)
    ensures forall k :: EntryAt(s.order, k).Some? ==> k in ks
  {
  }

  lemma FlushIs(o: Options, es: seq<Event>, init: seq<Event>)
    requires Next(o, es, init) && (es[|es| - 1].DoFlush? || es[|es| - 1].DoFlushAll?)
    ensures var e := es[|es| - 1];
            && (e.DoFlush? ==> Run(o, es) == Fetched(o, Run(o, init), e.now))
            && (e.DoFlushAll? ==> Run(o, es) == RemoveEach(ConfigOf(o), Run(o, init), e.ks, e.now))
  {
    hide Fetched, Books, RemoveEach;
    NextParts(o, es, init);
  }

  lemma NextStep(o: Options, es: seq<Event>, init: seq<Event>, k: string)
    requires Next(o, es, init)
    ensures Booked(o, es, k, CellFor(o, es, k)) && Idle(ConfigOf(o), Run(o, es))
    ensures es[|es| - 1].DoCheck? && k == SignatureOf(es[|es| - 1].request) ==> Answers(o, es, init, k)
    ensures es[|es| - 1].DoFlushAll? ==> Run(o, es).order == []
  {
    hide *;
    NextParts(o, es, init);
    match es[|es| - 1]
    case DoCheck(_, _) => CheckStep(o, es, init, k);
    case DoRespond(_, _, _) => RespondStep(o, es, init, k);
    case DoFlush(_) => FlushStep(o, es, init, k);
    case DoFlushAll(_, _) => FlushStep(o, es, init, k);
  }

  lemma NothingYet(o: Options)
    requires o.entries > 0
    ensures Books(o, [])
  {
    forall k ensures Booked(o, [], k, CellFor(o, [], k)) {
      assert Groups(o, [], k)[..0] == [];
    }
  }

  lemma {:induction false} EveryRunKeepsBooks(o: Options, es: seq<Event>)
    requires o.entries > 0 && Legal(o, es)
    ensures Books(o, es)
    ensures es != [] ==> Next(o, es, es[..|es| - 1])
    decreases |es|
  {
    if es == [] {
      NothingYet(o);
    } else {
      var init := es[..|es| - 1];
      EveryRunKeepsBooks(o, init);
      assert Next(o, es, init) by {
        hide Books, Run;
      }
      hide Booked, Idle, CellFor, Run, Legal, Next, Answers;
      forall k ensures Booked(o, es, k, CellFor(o, es, k)) {
        NextStep(o, es, init, k);
      }
      NextStep(o, es, init, "");
    }
  }

  // ----- Results -----

  /** A check that is answered from the cache gets the response last given for its signature. */
  lemma AnswersAreLast(o: Options, es: seq<Event>)
    requires o.entries > 0 && Legal(o, es) && es != [] && es[|es| - 1].DoCheck? && Reply(o, es).0 == Ok
    ensures LastResponse(es, SignatureOf(es[|es| - 1].request)) == Some(Reply(o, es).1)
  {
    hide Legal, Run, Next, Books, LastResponse, Reply, CellFor, LastTouch, FoundBy;
    EveryRunKeepsBooks(o, es);
    NextStep(o, es, es[..|es| - 1], SignatureOf(es[|es| - 1].request));
  }

  /**
   * A check that finds an element is sent on if and only if the flush interval has passed since the last response or
   * sending.
   */
  lemma SentOnWhenDue(o: Options, es: seq<Event>)
    requires o.entries > 0 && Legal(o, es) && es != [] && es[|es| - 1].DoCheck?
    requires FoundBy(o, es[..|es| - 1], es[|es| - 1]).Some?
    ensures var k, e := SignatureOf(es[|es| - 1].request), es[|es| - 1];
            Reply(o, es).0 == if e.now - LastTouch(o, es[..|es| - 1], k) >= o.flushMs * 1000 then NotFound
                else Ok
  {
    hide Legal, Run, Next, Books, LastResponse, Reply, CellFor, LastTouch, FoundBy;
    EveryRunKeepsBooks(o, es);
    NextStep(o, es, es[..|es| - 1], SignatureOf(es[|es| - 1].request));
  }

  lemma {:induction false} TouchedSince(o: Options, es: seq<Event>, n: nat, k: string)
    requires Legal(o, es) && 0 < n <= |es| && Refreshes(o, es[..n], k)
    ensures es[n - 1].now <= LastTouch(o, es, k) <= es[|es| - 1].now
    decreases |es|
  {
    hide Run, Refreshes, Responds;
    if n == |es| {
      assert es[..n] == es;
    } else {
      assert es[..|es| - 1][..n] == es[..n];
      TouchedSince(o, es[..|es| - 1], n, k);
    }
  }

  /** The checks on cached elements of a signature that are sent on are at least the flush interval apart. */
  lemma RefreshesAreSpaced(o: Options, es: seq<Event>, n: nat, k: string)
    requires o.entries > 0 && Legal(o, es) && Refreshes(o, es, k) && 0 < n < |es| && Refreshes(o, es[..n], k)
    ensures es[|es| - 1].now - es[n - 1].now >= o.flushMs * 1000
  {
    hide Run, Reply, LastTouch, FoundBy, SignatureOf;
    var init := es[..|es| - 1];
    assert init[..n] == es[..n];
    TouchedSince(o, init, n, k);
    SentOnWhenDue(o, es);
  }

  lemma GroupsSent(o: Options, es: seq<Event>, k: string)
    requires o.entries > 0 && Legal(o, es)
    ensures var gs, n := Groups(o, es, k), Lives(o, es, k);
            && |gs| == n + 1 && SentFor(o, es, k) == RequestsOf(o, k, gs[..n])
            && (match ValueAt(Run(o, es).order, k)
                case Some(e) => e.pending == PendingOf(o, gs[n])
                case None => gs[n] == [])
    ensures es != [] && es[|es| - 1].DoFlushAll? ==> Groups(o, es, k)[Lives(o, es, k)] == []
  {
    hide Legal, Run, Groups, RequestsOf, PendingOf, LastResponse, LastTouch, Flushing, Idle, ValueAt, SentAt, GoneAt,
        Next, Answers;
    EveryRunKeepsBooks(o, es);
    assert Booked(o, es, k, CellFor(o, es, k));
    if es != [] {
      NextStep(o, es, es[..|es| - 1], k);
      NothingCached(Run(o, es).order, k);
    }
  }

  /** The requests sent for operations aggregated under a signature. */
  function SentFor(o: Options, es: seq<Event>, k: string): seq<Flushed> { SentAt(Run(o, es).removed, KeyOf, k) }

  /** A request of this service with the operation that the group adds up to. */
  ghost predicate Carries(o: Options, k: string, f: Flushed, g: seq<Operation>) {
    && f.signature == k && f.request.service == o.service && f.request.configId == o.configId
    && f.request.operation.Some? && SumsUp(f.request.operation.value, o.kinds, g)
  }

  /** The groups that are not empty. */
  function Filled(gs: seq<seq<Operation>>): seq<seq<Operation>> {
    if gs == [] then []
    else
      var init, g := Filled(gs[..|gs| - 1]), gs[|gs| - 1];
      if g == [] then init else init + [g]
  }

  /** One request for each group, in order. */
  ghost predicate SentInTurn(o: Options, k: string, sent: seq<Flushed>, gs: seq<seq<Operation>>) {
    |sent| == |gs| && forall i :: 0 <= i < |sent| ==> Carries(o, k, sent[i], gs[i])
  }

  /** What the element would send is what the group adds up to. */
  ghost predicate Pends(o: Options, v: Option<Elem>, g: seq<Operation>) {
    && (g != [] <==> v.Some? && v.value.pending.Some?)
    && (g != [] ==> SumsUp(ToProto(v.value.pending.value), o.kinds, g))
  }

  lemma RequestCarries(o: Options, k: string, g: seq<Operation>)
    requires g != []
    ensures Carries(o, k, Flushed(k, RequestOf(o, AggregateOf(o.kinds, g))), g)
  {
    hide SumsUp, ToProto, AggregateOf;
    AggregateSumsUp(o.kinds, g);
  }

  lemma {:induction false} RequestsCarry(o: Options, k: string, gs: seq<seq<Operation>>)
    ensures SentInTurn(o, k, RequestsOf(o, k, gs), Filled(gs))
  {
    hide Carries, RequestOf, AggregateOf;
    if gs != [] {
      RequestsCarry(o, k, gs[..|gs| - 1]);
      if gs[|gs| - 1] != [] {
        RequestCarries(o, k, gs[|gs| - 1]);
      }
    }
  }

  /**
   * The operations aggregated under a signature fall into groups, one for each life of its element. The group of each
   * past life was sent, in order, as one request with what it adds up to; the last group is pending in the element.
   */
  lemma AggregatesAreSent(o: Options, es: seq<Event>, k: string)
    requires o.entries > 0 && Legal(o, es)
    ensures |Groups(o, es, k)| == Lives(o, es, k) + 1
    ensures var gs, n, v := Groups(o, es, k), Lives(o, es, k), ValueAt(Run(o, es).order, k);
            SentInTurn(o, k, SentFor(o, es, k), Filled(gs[..n])) && Pends(o, v, gs[n])
    ensures es != [] && es[|es| - 1].DoFlushAll? ==> Groups(o, es, k)[Lives(o, es, k)] == []
  {
    hide *;
    GroupsSent(o, es, k);
    var gs, n := Groups(o, es, k), Lives(o, es, k);
    RequestsCarry(o, k, gs[..n]);
    PendingIs(o, gs[n]);
    PendsIntro(o, ValueAt(Run(o, es).order, k), gs[n]);
  }

  lemma PendsIntro(o: Options, v: Option<Elem>, g: seq<Operation>)
    requires v.None? ==> g == []
    requires v.Some? ==> v.value.pending == if g == [] then None else Some(AggregateOf(o.kinds, g))
    ensures Pends(o, v, g)
  {
    hide SumsUp, ToProto, AggregateOf;
    if g != [] {
      AggregateSumsUp(o.kinds, g);
    }
  }

  lemma PendingIs(o: Options, g: seq<Operation>)
    ensures PendingOf(o, g) == if g == [] then None else Some(AggregateOf(o.kinds, g))
  {
  }

  lemma NothingCached(es: seq<Entry<Elem>>, k: string)
    ensures es == [] ==> ValueAt(es, k).None?
  {
  }

  /** All operations that were aggregated, in order. */
  function AggregatedOps(o: Options, es: seq<Event>, k: string): seq<Operation> {
    if es == [] then []
    else AggregatedOps(o, es[..|es| - 1], k) + if Aggregates(o, es, k) then [OperationOf(es[|es| - 1].request)] else []
  }

  /** The groups are those operations, cut into lives. */
  lemma {:induction false} GroupsPartition(o: Options, es: seq<Event>, k: string)
    ensures Flat(Groups(o, es, k)) == AggregatedOps(o, es, k)
  {
    hide FoundBy, Lives, OperationOf, SignatureOf;
    if es == [] {
      assert Groups(o, [], k)[..0] == [];
    } else {
      var init := Groups(o, es[..|es| - 1], k);
      GroupsPartition(o, es[..|es| - 1], k);
      assert (init + [[]])[..|init|] == init;
      var g := if Lives(o, es, k) > Lives(o, es[..|es| - 1], k) then init + [[]] else init;
      assert Flat(g) == Flat(init);
      if Aggregates(o, es, k) {
        var n, op := |g| - 1, OperationOf(es[|es| - 1].request);
        assert g[n := g[n] + [op]][..n] == g[..n];
      }
    }
  }
}
