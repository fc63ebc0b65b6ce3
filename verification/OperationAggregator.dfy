/** The operation aggregator, updated in place. */
module OperationAggregators {
  import opened Proto
  import opened Signature
  import opened Operations
  import opened DistributionHelper
  import Distributions
  import Hashing

  method MergeDistributions(from: Distribution, to: Distribution) returns (r: Distribution)
    ensures r == Distributions.Merge(from, to).1
  {
    var message := new DistributionMessage.Of(to);
    var _ := message.Merge(from);
    r := message.Content();
  }

  method MergeDeltaMetricValue(from: MetricValue, to: MetricValue) returns (r: MetricValue)
    ensures r == MergeDelta(from, to)
  {
    r := to;
    if !SameCase(to.value, from.value) {
      return;
    }
    if from.start.Some? {
      if r.start.None? || Before(from.start.value, r.start.value) {
        r := r.(start := from.start);
      }
    }
    if from.end.Some? {
      if r.end.None? || Before(r.end.value, from.end.value) {
        r := r.(end := from.end);
      }
    }
    match r.value
    case Int64Value(i) => r := r.(value := Int64Value(i + from.value.i));
    case DoubleValue(d) => r := r.(value := DoubleValue(d + from.value.d));
    case DistributionValue(d) =>
      var merged := MergeDistributions(from.value.dist, d);
      r := r.(value := DistributionValue(merged));
    case _ =>
  }

  method MergeCumulativeOrGaugeMetricValue(from: MetricValue, to: MetricValue) returns (r: MetricValue)
    ensures r == MergeCumulative(from, to)
  {
    if Before(EndOf(from), EndOf(to)) {
      return to;
    }
    return from;
  }

  method MergeMetricValue(kind: MetricKind, from: MetricValue, to: MetricValue) returns (r: MetricValue)
    ensures r == MergeMetric(kind, from, to)
  {
    if kind == Delta {
      r := MergeDeltaMetricValue(from, to);
    } else {
      r := MergeCumulativeOrGaugeMetricValue(from, to);
    }
  }

  lemma ListNext(m: Sets, ns: seq<string>, i: nat)
    requires i <= |ns| && forall n <- ns :: n in m
    ensures ListSets(m, ns[..0]) == []
    ensures i < |ns| ==>
              ListSets(m, ns[..i + 1]) == ListSets(m, ns[..i])
                  + [MetricValueSet(ns[i], ListValues(m[ns[i]], Ordered(m[ns[i]].Keys)))]
  {
    hide Ordered, ListValues;
    if i < |ns| {
      assert ns[..i + 1][..i] == ns[..i];
    }
  }

  lemma MergeNext(kind: MetricKind, s: Series, values: seq<MetricValue>, i: nat)
    requires i <= |values|
    ensures MergeValues(kind, s, values[..0]) == s
    ensures i < |values| ==>
        MergeValues(kind, s, values[..i + 1])
        == MergeValue(kind, MergeValues(kind, s, values[..i]), values[i])
  {
    hide MergeValue;
    if i < |values| {
      assert values[..i + 1][..i] == values[..i];
    }
  }

  class OperationAggregator {
    const kinds: Kinds
    var operation: Operation
    var metricValueSets: Sets

    function Content(): Aggregate reads this { Aggregate(operation, metricValueSets) }

    constructor (operation: Operation, kinds: Kinds)
      ensures this.kinds == kinds && Content() == Start(kinds, operation)
    {
      this.operation := operation;
      this.kinds := kinds;
      metricValueSets := map[];
      new;
      MergeMetricValueSets(operation);
      this.operation := this.operation.(metrics := []);
    }

    /** Goes on from an aggregate that was kept as a value. */
    constructor Resume(a: Aggregate, kinds: Kinds)
      ensures this.kinds == kinds && Content() == a
    {
      operation := a.operation;
      metricValueSets := a.sets;
      this.kinds := kinds;
    }

    method MergeOperation(op: Operation)
      modifies this
      ensures Content() == Merge(kinds, old(Content()), op)
    {
      if op.start.Some? {
        if operation.start.None? || Before(op.start.value, operation.start.value) {
          operation := operation.(start := op.start);
        }
      }
      if op.end.Some? {
        if operation.end.None? || Before(operation.end.value, op.end.value) {
          operation := operation.(end := op.end);
        }
      }
      MergeMetricValueSets(op);
      MergeLogEntries(op);
    }

    predicate TooBig()
      reads this
      ensures TooBig() <==> Operations.TooBig(Content())
    {
      |operation.logs| >= MAX_LOG_ENTRIES
    }

    method ToOperationProto() returns (op: Operation)
      ensures op == ToProto(Content())
    {
      hide Ordered, ListValues, ListSets;
      op := operation;
      var names := Ordered(metricValueSets.Keys);
      ListNext(metricValueSets, names, 0);
      for i := 0 to |names|
        invariant op == operation.(metrics := operation.metrics + ListSets(metricValueSets, names[..i]))
      {
        ListNext(metricValueSets, names, i);
        var values := ListAll(metricValueSets[names[i]]);
        op := op.(metrics := op.metrics + [MetricValueSet(names[i], values)]);
      }
      assert names[..|names|] == names;
    }

    static method ListAll(s: Series) returns (values: seq<MetricValue>)
      ensures values == ListValues(s, Ordered(s.Keys))
    {
      values := [];
      var ks := Ordered(s.Keys);
      for i := 0 to |ks|
        invariant values == ListValues(s, ks[..i])
      {
        assert ks[..i + 1][..i] == ks[..i];
        values := values + [s[ks[i]]];
      }
      assert ks[..|ks|] == ks;
    }

    method MergeLogEntries(op: Operation)
      modifies this`operation
      ensures operation == old(operation).(logs := old(operation).logs + op.logs)
    {
      for i := 0 to |op.logs|
        invariant operation == old(operation).(logs := old(operation).logs + op.logs[..i])
      {
        assert op.logs[..i + 1] == op.logs[..i] + [op.logs[i]];
        operation := operation.(logs := operation.logs + [op.logs[i]]);
      }
      assert op.logs[..|op.logs|] == op.logs;
    }

    method MergeMetricValueSets(op: Operation)
      modifies this`metricValueSets
      ensures metricValueSets == MergeSets(kinds, old(metricValueSets), op.metrics)
    {
      for i := 0 to |op.metrics|
        invariant metricValueSets == MergeSets(kinds, old(metricValueSets), op.metrics[..i])
      {
        assert op.metrics[..i + 1][..i] == op.metrics[..i];
        var x := op.metrics[i];
        var kind := Delta;
        if x.name in kinds {
          kind := kinds[x.name];
        }
        var merged := MergeAll(kind, SeriesOf(metricValueSets, x.name), x.values);
        metricValueSets := metricValueSets[x.name := merged];
      }
      assert op.metrics[..|op.metrics|] == op.metrics;
    }

    static method MergeAll(kind: MetricKind, s: Series, values: seq<MetricValue>) returns (r: Series)
      ensures r == MergeValues(kind, s, values)
    {
      hide MetricSignature, MergeMetric, MergeValues;
      MergeNext(kind, s, values, 0);
      r := s;
      for i := 0 to |values|
        invariant r == MergeValues(kind, s, values[..i])
      {
        MergeNext(kind, s, values, i);
        var signature := Hashing.GenerateReportMetricValueSignature(values[i]);
        if signature !in r {
          r := r[signature := values[i]];
        } else {
          var merged := MergeMetricValue(kind, values[i], r[signature]);
          r := r[signature := merged];
        }
      }
      assert values[..|values|] == values;
    }
  }
}
