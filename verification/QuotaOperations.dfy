/** Merging quota operations: the pure meaning of `QuotaOperationAggregator`, and the class. */
module QuotaOperations {
  import opened Lists
  import opened Proto
  import opened Signature

  /** Times are widened, and int64 values are added; values of different kinds are left alone. */
  function MergeDelta(from: MetricValue, to: MetricValue): MetricValue {
    if !SameCase(to.value, from.value) then to
    else
      to.(start := Earlier(from.start, to.start), end := Later(from.end, to.end),
          value := if to.value.Int64Value? then Int64Value(to.value.i + from.value.i) else to.value)
  }

  type Values = map<string, MetricValue>

  function MergeMetric(m: Values, q: QuotaMetric): Values {
    m[q.name := if q.name in m then MergeDelta(q.value, m[q.name]) else q.value]
  }

  function MergeMetrics(m: Values, qs: seq<QuotaMetric>): Values {
    if qs == [] then m else MergeMetric(MergeMetrics(m, qs[..|qs| - 1]), qs[|qs| - 1])
  }

  datatype Aggregate = Aggregate(operation: QuotaOperation, values: Values)

  function Start(op: QuotaOperation): Aggregate { Aggregate(op, MergeMetrics(map[], op.metrics)) }

  function Merge(a: Aggregate, op: QuotaOperation): Aggregate { a.(values := MergeMetrics(a.values, op.metrics)) }

  function Listed(m: Values, ns: seq<string>): (r: seq<QuotaMetric>)
    requires forall n <- ns :: n in m
    ensures |r| == |ns| && forall i :: 0 <= i < |ns| ==> r[i] == QuotaMetric(ns[i], m[ns[i]])
  {
    if ns == [] then [] else Listed(m, ns[..|ns| - 1]) + [QuotaMetric(ns[|ns| - 1], m[ns[|ns| - 1]])]
  }

  function ToProto(a: Aggregate): QuotaOperation { a.operation.(metrics := Listed(a.values, Ordered(a.values.Keys))) }

  // ----- The class -----

  class QuotaOperationAggregator {
    const operation: QuotaOperation
    var metricValueSets: Values

    function Content(): Aggregate reads this { Aggregate(operation, metricValueSets) }

    constructor (operation: QuotaOperation)
      ensures Content() == Start(operation)
    {
      this.operation := operation;
      metricValueSets := map[];
      new;
      MergeOperation(operation);
    }

    /** Goes on from an aggregate that was kept as a value. */
    constructor Resume(a: Aggregate)
      ensures Content() == a
    {
      operation := a.operation;
      metricValueSets := a.values;
    }

    method MergeOperation(op: QuotaOperation)
      modifies this
      ensures Content() == Merge(old(Content()), op)
    {
      for i := 0 to |op.metrics|
        invariant Content() == Merge(old(Content()), op.(metrics := op.metrics[..i]))
      {
        var q := op.metrics[i];
        assert op.metrics[..i + 1][..i] == op.metrics[..i];
        if q.name !in metricValueSets {
          metricValueSets := metricValueSets[q.name := q.value];
        } else {
          var merged := MergeDeltaMetricValue(q.value, metricValueSets[q.name]);
          metricValueSets := metricValueSets[q.name := merged];
        }
      }
      assert op.metrics[..|op.metrics|] == op.metrics;
    }

    static method MergeDeltaMetricValue(from: MetricValue, to: MetricValue) returns (r: MetricValue)
      ensures r == MergeDelta(from, to)
    {
      r := to;
      if !SameCase(to.value, from.value) {
        return;
      }
      if from.start.Some? {
        if r.start.None? || Before(from.start.value, r.start.value) {
          r := r.(start := from.start);
        }
      }
      if from.end.Some? {
        if r.end.None? || Before(r.end.value, from.end.value) {
          r := r.(end := from.end);
        }
      }
      match r.value
      case Int64Value(i) => r := r.(value := Int64Value(i + from.value.i));
      case _ =>
    }

    method ToOperationProto() returns (op: QuotaOperation)
      ensures op == ToProto(Content())
    {
      op := operation.(metrics := []);
      var names := Ordered(metricValueSets.Keys);
      for i := 0 to |names|
        invariant op == operation.(metrics := Listed(metricValueSets, names[..i]))
      {
        assert names[..i + 1][..i] == names[..i];
        op := op.(metrics := op.metrics + [QuotaMetric(names[i], metricValueSets[names[i]])]);
      }
      assert names[..|names|] == names;
    }
  }

  // ----- Tokens -----

  function Amount(v: MetricValue): int { if v.value.Int64Value? then v.value.i else 0 }

  /** The tokens that an operation asks for under a metric name. */
  function Tokens(qs: seq<QuotaMetric>, n: string): int {
    if qs == [] then 0
    else
      var q := qs[|qs| - 1];
      Tokens(qs[..|qs| - 1], n) + if q.name == n then Amount(q.value) else 0
  }

  function Held(m: Values, n: string): int { if n in m then Amount(m[n]) else 0 }

  /** All values of the metric are int64. */
  predicate Countable(qs: seq<QuotaMetric>, n: string) { forall q <- qs :: q.name == n ==> q.value.value.Int64Value? }

  predicate CountableIn(m: Values, n: string) { n in m ==> m[n].value.Int64Value? }

  /** Merging adds the tokens of an int64 metric, and keeps exactly the metric names of both sides. */
  lemma {:induction false} MergeAdds(m: Values, qs: seq<QuotaMetric>, n: string)
    ensures CountableIn(m, n) && Countable(qs, n) ==>
              CountableIn(MergeMetrics(m, qs), n) && Held(MergeMetrics(m, qs), n) == Held(m, n) + Tokens(qs, n)
    ensures MergeMetrics(m, qs).Keys == m.Keys + MetricNames(qs)
    decreases |qs|
  {
    MergeNames(m, qs);
    if qs != [] {
      hide MetricNames, MergeDelta;
      var init, q := qs[..|qs| - 1], qs[|qs| - 1];
      MergeAdds(m, init, n);
      assert q in qs && forall x <- init :: x in qs;
      if q.name == n && Countable(qs, n) && CountableIn(m, n) && n in MergeMetrics(m, init) {
        MergeCounts(q.value, MergeMetrics(m, init)[n]);
      }
    }
  }

  lemma MergeCounts(from: MetricValue, to: MetricValue)
    requires from.value.Int64Value? && to.value.Int64Value?
    ensures var r := MergeDelta(from, to); r.value.Int64Value? && Amount(r) == Amount(to) + Amount(from)
  {
  }

  lemma {:induction false} MergeNames(m: Values, qs: seq<QuotaMetric>)
    ensures MergeMetrics(m, qs).Keys == m.Keys + MetricNames(qs)
    decreases |qs|
  {
    if qs == [] {
      assert MetricNames(qs) == {};
    } else {
      hide MergeDelta;
      var init, q := qs[..|qs| - 1], qs[|qs| - 1];
      assert qs == init + [q];
      MergeNames(m, init);
      assert MetricNames(qs) == MetricNames(init) + {q.name};
    }
  }

  lemma {:induction false} ListedTokens(m: Values, ns: seq<string>, n: string)
    requires (forall x <- ns :: x in m) && Distinct(ns)
    ensures Tokens(Listed(m, ns), n) == if n in ns then Held(m, n) else 0
    ensures MetricNames(Listed(m, ns)) == set x <- ns
    decreases |ns|
  {
    hide Tokens, MetricNames;
    NoTokens(n);
    if ns != [] {
      var init, x := ns[..|ns| - 1], ns[|ns| - 1];
      ListedTokens(m, init, n);
      TokensSnoc(Listed(m, init), QuotaMetric(x, m[x]), n);
      assert ns == init + [x];
      assert x !in init;
    }
  }

  lemma NoTokens(n: string)
    ensures Tokens([], n) == 0 && MetricNames([]) == {}
  {
  }

  lemma TokensSnoc(qs: seq<QuotaMetric>, q: QuotaMetric, n: string)
    ensures Tokens(qs + [q], n) == Tokens(qs, n) + if q.name == n then Amount(q.value) else 0
    ensures MetricNames(qs + [q]) == MetricNames(qs) + {q.name}
  {
    assert (qs + [q])[..|qs|] == qs;
  }

  /**
   * The operation sent for an aggregate carries its tokens, is of the same method and consumer, and has its metric
   * names.
   */
  lemma ToProtoKeeps(a: Aggregate, n: string)
    ensures Tokens(ToProto(a).metrics, n) == Held(a.values, n)
    ensures MetricNames(ToProto(a).metrics) == a.values.Keys
  {
    var ns := Ordered(a.values.Keys);
    ListedTokens(a.values, ns, n);
    assert n in ns <==> n in a.values.Keys;
    assert (set x <- ns) == a.values.Keys;
  }

  /**
   * An aggregate of operations with one signature has that signature, so the refresh it becomes is routed to its own
   * entry.
   */
  ghost predicate RoutesTo(a: Aggregate, signature: string) {
    PlainQuota(a.operation) && QuotaSignature(a.operation) == signature
        && a.values.Keys == MetricNames(a.operation.metrics)
  }

  lemma StartRoutes(op: QuotaOperation)
    requires PlainQuota(op)
    ensures RoutesTo(Start(op), QuotaSignature(op))
    ensures forall n :: Countable(op.metrics, n) ==>
              CountableIn(Start(op).values, n) && Held(Start(op).values, n) == Tokens(op.metrics, n)
  {
    hide Tokens, CountableIn, Countable, MergeMetrics, QuotaSignature, PlainQuota, MetricNames;
    MergeAdds(map[], op.metrics, "");
    forall n ensures Countable(op.metrics, n) ==>
                       CountableIn(Start(op).values, n) && Held(Start(op).values, n) == Tokens(op.metrics, n)
    {
      NothingHeld(n);
      MergeAdds(map[], op.metrics, n);
    }
  }

  lemma NothingHeld(n: string)
    ensures CountableIn(map[], n) && Held(map[], n) == 0
  {
  }

  /** Merging an operation with the same signature keeps the signature and adds the tokens of int64 metrics. */
  lemma MergeRoutes(a: Aggregate, op: QuotaOperation)
    requires RoutesTo(a, QuotaSignature(op)) && PlainQuota(op)
    ensures RoutesTo(Merge(a, op), QuotaSignature(op))
    ensures forall n :: CountableIn(a.values, n) && Countable(op.metrics, n) ==>
              CountableIn(Merge(a, op).values, n)
                  && Held(Merge(a, op).values, n) == Held(a.values, n) + Tokens(op.metrics, n)
  {
    hide Tokens, Held, CountableIn, Countable, MergeMetrics, QuotaSignature, PlainQuota, MetricNames;
    MergeAdds(a.values, op.metrics, "");
    QuotaSignatureIdentifies(a.operation, op);
    forall n ensures CountableIn(a.values, n) && Countable(op.metrics, n) ==>
                       && CountableIn(Merge(a, op).values, n)
                       && Held(Merge(a, op).values, n) == Held(a.values, n) + Tokens(op.metrics, n)
    {
      MergeAdds(a.values, op.metrics, n);
    }
  }

  lemma ToProtoRoutes(a: Aggregate, signature: string)
    requires RoutesTo(a, signature)
    ensures QuotaSignature(ToProto(a)) == signature
  {
    ToProtoKeeps(a, "");
  }
}
