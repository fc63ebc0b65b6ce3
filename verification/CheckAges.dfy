/** Runs of the check aggregator in time: when an element expires, and what is sent then. */
module CheckAges {
  import opened MergeAlgebra
  import opened CacheModel
  import opened CacheCells
  import CacheTheorems
  import opened CheckModel
  import opened CheckRuns

  // ----- The list in time -----

  lemma InTimeLater<V>(es: seq<Entry<V>>, clock: int, now: int)
    requires InTime(es, clock) && clock <= now
    ensures InTime(es, now)
  {
  }

  lemma InTimeNone<V>(es: seq<Entry<V>>, now: int)
    requires es == []
    ensures InTime(es, now)
  {
  }

  lemma ClockIs(o: Options, es: seq<Event>, start: int)
    requires Legal(o, es)
    ensures es == [] ==> Run(o, es).order == []
    ensures es != [] ==>
              && Legal(o, es[..|es| - 1]) && Clock(es[..|es| - 1], es[|es| - 1].now) <= es[|es| - 1].now
              && Clock(es, start) == es[|es| - 1].now
  {
    hide Step, Covers;
  }

  lemma StepInTime(o: Options, es: seq<Event>, init: seq<Event>)
    requires Next(o, es, init) && InTime(Run(o, init).order, es[|es| - 1].now)
    requires es[|es| - 1].DoFlushAll? ==> Run(o, es).order == []
    ensures InTime(Run(o, es).order, es[|es| - 1].now)
  {
    hide *;
    NextParts(o, es, init);
    var e, s, c := es[|es| - 1], Run(o, init), ConfigOf(o);
    var t := Fetched(o, s, e.now);
    BooksParts(o, init, e.now);
    FetchedIs(o, s, e.now);
    RemoveExpiredInTime(c, s, e.now);
    FetchedMoved(o, init, "", e.now);
    match e
    case DoCheck(r, now) =>
      CheckIs(o, es, init);
      if EntryAt(t.order, SignatureOf(r)).Some? {
        UsedInTime(c, t, SignatureOf(r), Checked(o, ValueAt(t.order, SignatureOf(r)).value, OperationOf(r), now).0,
            now);
      }
    case DoRespond(r, response, now) =>
      var k := SignatureOf(r);
      RespondIs(o, es, init);
      if EntryAt(t.order, k).Some? {
        UsedInTime(c, t, k, Responded(ValueAt(t.order, k).value, response, now), now);
      } else {
        PutInTime(c, t, k, NewElem(k, response, now), now);
      }
    case DoFlush(now) => FlushIs(o, es, init);
    case DoFlushAll(_, now) => InTimeNone(Run(o, es).order, now);
  }

  lemma {:induction false} RunInTime(o: Options, es: seq<Event>, start: int)
    requires o.entries > 0 && Legal(o, es)
    ensures InTime(Run(o, es).order, Clock(es, start))
  {
    hide *;
    ClockIs(o, es, start);
    if es == [] {
      InTimeNone(Run(o, es).order, Clock(es, start));
    } else {
      var init, e := es[..|es| - 1], es[|es| - 1];
      EveryRunKeepsBooks(o, es);
      RunInTime(o, init, e.now);
      InTimeLater(Run(o, init).order, Clock(init, e.now), e.now);
      NextStep(o, es, init, "");
      StepInTime(o, es, init);
    }
  }

  // ----- Results -----

  /** The signature was checked, or given a response, within the expiration interval. */
  predicate Recent(o: Options, es: seq<Event>, k: string, now: int) {
    o.expirationMs < 0 || LastCall(es, k) >= now - o.expirationMs * 1000
  }

  lemma FetchedExact(o: Options, es: seq<Event>, k: string, now: int)
    requires o.entries > 0 && Legal(o, es) && Clock(es, now) <= now
    ensures var x, y := CellFor(o, es, k), CellAt(Fetched(o, Run(o, es), now), KeyOf, k);
            && Booked(o, es, k, x)
            && y == if x.value.None? || Recent(o, es, k, now) then x else Retired(ConfigOf(o), x, now)
  {
    hide *;
    var s, c := Run(o, es), ConfigOf(o);
    EveryRunKeepsBooks(o, es);
    BooksParts(o, es, now);
    RunInTime(o, es, now);
    InTimeLater(s.order, Clock(es, now), now);
    FetchedIs(o, s, now);
    ExpiresBy(o, s, now);
    RecentIs(o, es, k, CellFor(o, es, k), now);
    if o.expirationMs >= 0 {
      var threshold := now - o.expirationMs * 1000;
      IdleUnique(c, s);
      AllBearTagged(c, s.order, KeyOf, threshold, now);
      SortedBy(s.order, now);
      ExpireCellExact(c, s, threshold, KeyOf, k, now);
      StaleSince(s, k, threshold);
    }
  }

  lemma ExpiresBy(o: Options, s: Checks, now: int)
    ensures o.expirationMs < 0 ==> RemoveExpired(ConfigOf(o), s, now) == s
    ensures o.expirationMs >= 0 ==>
              now - o.expirationMs * 1000 <= now
              && RemoveExpired(ConfigOf(o), s, now) == Expire(ConfigOf(o), s, now - o.expirationMs * 1000, now)
  {
  }

  lemma SortedBy<V>(es: seq<Entry<V>>, now: int)
    requires InTime(es, now)
    ensures CacheTheorems.Sorted(es)
  {
  }

  lemma StaleSince(s: Checks, k: string, threshold: int)
    ensures var x := CellAt(s, KeyOf, k); StaleAt(s.order, k, threshold) <==> x.value.Some? && x.since < threshold
  {
  }

  lemma RecentIs(o: Options, es: seq<Event>, k: string, x: Cell<Elem, Flushed>, now: int)
    requires Booked(o, es, k, x)
    ensures x.value.Some? ==>
              (Recent(o, es, k, now) <==> o.expirationMs < 0 || x.since >= now - o.expirationMs * 1000)
  {
    hide Fits, LastCall;
  }

  /** What is cached under a signature after a flush, and what has been sent for it. */
  ghost predicate FlushedExactly(o: Options, es: seq<Event>, k: string, y: Cell<Elem, Flushed>, now: int) {
    var x, gs := CellFor(o, es, k), Groups(o, es, k);
    var g, n := gs[|gs| - 1], |x.sent|;
    if x.value.None? || Recent(o, es, k, now) then y.value == x.value && y.sent == x.sent
    else
      && y.value.None?
      && if g == [] then y.sent == x.sent
         else |y.sent| == n + 1 && y.sent[..n] == x.sent && Carries(o, k, y.sent[n], g)
  }

  /**
   * A flush drops an element if and only if its signature was not checked and given no response for the expiration
   * interval; and then it sends what was aggregated in it, in one request, if there was anything. A check finds the
   * elements that a flush would leave.
   */
  lemma FlushIsExact(o: Options, es: seq<Event>, k: string, now: int)
    requires o.entries > 0 && Legal(o, es) && Clock(es, now) <= now
    ensures FlushedExactly(o, es, k, CellFor(o, es + [DoFlush(now)], k), now)
    ensures forall r :: SignatureOf(r) == k ==>
              (FoundBy(o, es, DoCheck(r, now)).Some? <==> CellFor(o, es, k).value.Some? && Recent(o, es, k, now))
  {
    hide *;
    var x := CellFor(o, es, k);
    FetchedExact(o, es, k, now);
    AfterFlush(o, es, k, now);
    FoundIs(o, es, k, now);
    GroupFits(o, es, k, x);
    if x.value.Some? && !Recent(o, es, k, now) {
      RetiredParts(o, x, now);
      RetiredExactly(o, es, k, x, now);
    } else {
      StaysExactly(o, es, k, now);
    }
  }

  lemma AfterFlush(o: Options, es: seq<Event>, k: string, now: int)
    ensures CellFor(o, es + [DoFlush(now)], k) == CellAt(Fetched(o, Run(o, es), now), KeyOf, k)
  {
    hide Fetched;
    assert (es + [DoFlush(now)])[..|es|] == es;
  }

  lemma FoundIs(o: Options, es: seq<Event>, k: string, now: int)
    ensures forall r :: SignatureOf(r) == k ==>
              FoundBy(o, es, DoCheck(r, now)) == CellAt(Fetched(o, Run(o, es), now), KeyOf, k).value
  {
    hide Fetched, SignatureOf;
  }

  lemma GroupFits(o: Options, es: seq<Event>, k: string, x: Cell<Elem, Flushed>)
    requires Booked(o, es, k, x)
    ensures var gs := Groups(o, es, k);
            && |gs| == |x.gone| + 1
            && (x.value.Some? ==>
                  x.value.value.signature == k && x.value.value.pending == PendingOf(o, gs[|gs| - 1]))
  {
    hide RequestsOf, LastCall;
  }

  lemma RetiredExactly(o: Options, es: seq<Event>, k: string, x: Cell<Elem, Flushed>, now: int)
    requires x == CellFor(o, es, k) && x.value.Some? && !Recent(o, es, k, now)
    requires var gs := Groups(o, es, k);
             x.value.value.signature == k && x.value.value.pending == PendingOf(o, gs[|gs| - 1])
    ensures FlushedExactly(o, es, k, Retired(ConfigOf(o), x, now), now)
  {
    hide CellFor, Groups, Recent, RequestOf, AggregateOf, Carries;
    var gs := Groups(o, es, k);
    RetiredParts(o, x, now);
    if gs[|gs| - 1] != [] {
      RequestCarries(o, k, gs[|gs| - 1]);
    }
  }

  lemma StaysExactly(o: Options, es: seq<Event>, k: string, now: int)
    requires CellFor(o, es, k).value.None? || Recent(o, es, k, now)
    ensures FlushedExactly(o, es, k, CellFor(o, es, k), now)
  {
    hide CellFor, Groups, Recent, Carries;
  }
}
