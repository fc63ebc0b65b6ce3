/** What merging quota operations computes, and what an aggregate of them is sent as. */
module QuotaAlgebra {
  import opened Lists
  import opened Proto
  import opened Signature
  import opened Operations
  import opened DeltaAlgebra
  import Distributions
  import Quota = QuotaOperations

  /** The values of a metric in a quota operation, in order. */
  function NamedValues(qs: seq<QuotaMetric>, n: string): seq<MetricValue> {
    if qs == [] then []
    else
      var init, q := NamedValues(qs[..|qs| - 1], n), qs[|qs| - 1];
      if q.name == n then init + [q.value] else init
  }

  function HeldValue(m: Quota.Values, n: string): Option<MetricValue> { if n in m then Some(m[n]) else None }

  lemma FoldSnoc(c: Option<MetricValue>, vs: seq<MetricValue>, v: MetricValue)
    ensures FoldValues(Delta, c, vs + [v]) == Some(MergeInto(Delta, v, FoldValues(Delta, c, vs)))
  {
    hide MergeMetric;
    assert (vs + [v])[..|vs|] == vs;
  }

  /** On int64 values, merging quota metrics by name is folding delta values. */
  lemma {:induction false} QuotaIsFold(m: Quota.Values, qs: seq<QuotaMetric>, n: string)
    requires Quota.CountableIn(m, n) && Quota.Countable(qs, n)
    ensures HeldValue(Quota.MergeMetrics(m, qs), n) == FoldValues(Delta, HeldValue(m, n), NamedValues(qs, n))
    decreases |qs|
  {
    hide FoldValues;
    if qs == [] {
      NothingFolded(Delta, HeldValue(m, n));
    } else {
      var init, q := qs[..|qs| - 1], qs[|qs| - 1];
      assert q in qs && forall x <- init :: x in qs;
      QuotaIsFold(m, init, n);
      Quota.MergeAdds(m, init, n);
      if q.name == n {
        FoldSnoc(HeldValue(m, n), NamedValues(init, n), q.value);
      }
    }
  }

  /** So each quota metric of an aggregate has the earliest start, the latest end and the sum of its values. */
  lemma QuotaIsDelta(qs: seq<QuotaMetric>, n: string)
    requires Quota.Countable(qs, n) && NamedValues(qs, n) != []
    ensures var r, vs := HeldValue(Quota.MergeMetrics(map[], qs), n), NamedValues(qs, n);
            r.Some? && IsDeltaOf(r.value, vs) && Like(vs, vs[0].value) == vs && r.value.value == Int64Value(Ints(vs))
  {
    var vs := NamedValues(qs, n);
    QuotaIsFold(map[], qs, n);
    NamedInts(qs, n);
    hide FoldValues, IsEarliest, IsLatest, Like, NamedValues, Quota.MergeMetrics, Tame, Pool, Distributions.Summarizes;
    assert vs[0] in vs;
    FoldIsDelta(vs);
    LikeAll(vs, vs[0].value);
  }

  lemma {:induction false} NamedInts(qs: seq<QuotaMetric>, n: string)
    requires Quota.Countable(qs, n)
    ensures AllInts(NamedValues(qs, n))
  {
    if qs != [] {
      assert qs[|qs| - 1] in qs && forall x <- qs[..|qs| - 1] :: x in qs;
      NamedInts(qs[..|qs| - 1], n);
    }
  }

  /** The metrics of these operations, one after the other. */
  function AllMetrics(ops: seq<QuotaOperation>): seq<QuotaMetric> {
    if ops == [] then [] else AllMetrics(ops[..|ops| - 1]) + ops[|ops| - 1].metrics
  }

  /** The aggregate of these operations. */
  function Gathered(ops: seq<QuotaOperation>): Quota.Aggregate
    requires ops != []
  {
    if |ops| == 1 then Quota.Start(ops[0]) else Quota.Merge(Gathered(ops[..|ops| - 1]), ops[|ops| - 1])
  }

  lemma {:induction false} MetricsConcat(m: Quota.Values, a: seq<QuotaMetric>, b: seq<QuotaMetric>)
    ensures Quota.MergeMetrics(m, a + b) == Quota.MergeMetrics(Quota.MergeMetrics(m, a), b)
  {
    if b == [] {
      assert a + b == a;
    } else {
      hide Quota.MergeMetric;
      MetricsConcat(m, a, b[..|b| - 1]);
      assert (a + b)[..|a + b| - 1] == a + b[..|b| - 1];
    }
  }

  lemma {:induction false} GatheredIs(ops: seq<QuotaOperation>)
    requires ops != []
    ensures Gathered(ops) == Quota.Aggregate(ops[0], Quota.MergeMetrics(map[], AllMetrics(ops)))
  {
    hide Quota.MergeMetrics;
    var init, op := ops[..|ops| - 1], ops[|ops| - 1];
    if init == [] {
      assert AllMetrics(init) + op.metrics == op.metrics;
    } else {
      GatheredIs(init);
      MetricsConcat(map[], AllMetrics(init), op.metrics);
    }
  }

  lemma NamedSnoc(qs: seq<QuotaMetric>, q: QuotaMetric, n: string)
    ensures NamedValues(qs + [q], n) == if q.name == n then NamedValues(qs, n) + [q.value] else NamedValues(qs, n)
    ensures NamedValues([], n) == []
  {
    assert (qs + [q])[..|qs|] == qs;
  }

  lemma {:induction false} ListedNamed(m: Quota.Values, ns: seq<string>, n: string)
    requires (forall x <- ns :: x in m) && Distinct(ns)
    ensures NamedValues(Quota.Listed(m, ns), n) == if n in ns then [m[n]] else []
  {
    hide NamedValues;
    if ns == [] {
      NamedSnoc([], QuotaMetric(n, MetricValue(map[], None, None, NoValue)), n);
    } else {
      var init, x := ns[..|ns| - 1], ns[|ns| - 1];
      ListedNamed(m, init, n);
      NamedSnoc(Quota.Listed(m, init), QuotaMetric(x, m[x]), n);
      assert ns == init + [x] && x !in init;
    }
  }

  /**
   * What the operations `ops` should be sent as: one operation like the first, with their metric names, and under each
   * of int64 values one value, their sum over the earliest start and the latest end.
   */
  ghost predicate Gathers(op: QuotaOperation, ops: seq<QuotaOperation>) {
    && ops != [] && op.(metrics := ops[0].metrics) == ops[0]
    && (forall n :: n in MetricNames(op.metrics) <==> exists p <- ops :: n in MetricNames(p.metrics))
    && forall n :: Quota.Countable(AllMetrics(ops), n) ==> Adds(op.metrics, AllMetrics(ops), n)
  }

  /** Under the name there is one value, the sum of the int64 values of `qs`, if there are any. */
  ghost predicate Adds(rs: seq<QuotaMetric>, qs: seq<QuotaMetric>, n: string) {
    var us, vs := NamedValues(rs, n), NamedValues(qs, n);
    && Quota.Tokens(rs, n) == Quota.Tokens(qs, n)
    && if vs == [] then us == [] else |us| == 1 && IsDeltaOf(us[0], vs) && us[0].value == Int64Value(Ints(vs))
  }

  lemma {:induction false} AllNames(ops: seq<QuotaOperation>)
    ensures forall n :: n in MetricNames(AllMetrics(ops)) <==> exists p <- ops :: n in MetricNames(p.metrics)
  {
    if ops != [] {
      var init, op := ops[..|ops| - 1], ops[|ops| - 1];
      AllNames(init);
      NamesConcat(AllMetrics(init), op.metrics);
      hide MetricNames;
      assert ops == init + [op];
      forall n ensures n in MetricNames(AllMetrics(ops)) <==> exists p <- ops :: n in MetricNames(p.metrics) {
        assert (exists p <- ops :: n in MetricNames(p.metrics))
            <==> (exists p <- init :: n in MetricNames(p.metrics)) || n in MetricNames(op.metrics);
      }
    }
  }

  lemma NamesConcat(a: seq<QuotaMetric>, b: seq<QuotaMetric>)
    ensures MetricNames(a + b) == MetricNames(a) + MetricNames(b)
  {
  }

  lemma {:induction false} NamesOf(qs: seq<QuotaMetric>, n: string)
    ensures n in MetricNames(qs) <==> NamedValues(qs, n) != []
  {
    if qs != [] {
      var init, q := qs[..|qs| - 1], qs[|qs| - 1];
      assert qs == init + [q];
      NamesOf(init, n);
      NamesConcat(init, [q]);
      assert q in [q];
    }
  }

  /** What an aggregate of quota operations is sent as is what they add up to. */
  lemma GatheredGathers(ops: seq<QuotaOperation>)
    requires ops != []
    ensures Gathers(Quota.ToProto(Gathered(ops)), ops)
  {
    var a, qs := Gathered(ops), AllMetrics(ops);
    var op := Quota.ToProto(a);
    hide *;
    GatheredIs(ops);
    ToProtoRest(a);
    AllNames(ops);
    Quota.ToProtoKeeps(a, "");
    Quota.MergeNames(map[], qs);
    forall n | Quota.Countable(qs, n) ensures Adds(op.metrics, qs, n) {
      GatheredAdds(ops, n);
    }
    assert op.(metrics := ops[0].metrics) == ops[0];
    assert forall n :: n in MetricNames(op.metrics) <==> n in MetricNames(qs);
    GathersIntro(op, ops);
  }

  lemma ToProtoRest(a: Quota.Aggregate)
    ensures Quota.ToProto(a).(metrics := a.operation.metrics) == a.operation
    ensures Quota.ToProto(a).metrics == Quota.Listed(a.values, Ordered(a.values.Keys))
  {
  }

  lemma GathersIntro(op: QuotaOperation, ops: seq<QuotaOperation>)
    requires ops != [] && op.(metrics := ops[0].metrics) == ops[0]
    requires forall n :: n in MetricNames(op.metrics) <==> exists p <- ops :: n in MetricNames(p.metrics)
    requires forall n :: Quota.Countable(AllMetrics(ops), n) ==> Adds(op.metrics, AllMetrics(ops), n)
    ensures Gathers(op, ops)
  {
  }

  lemma GatheredAdds(ops: seq<QuotaOperation>, n: string)
    requires ops != [] && Quota.Countable(AllMetrics(ops), n)
    ensures Adds(Quota.ToProto(Gathered(ops)).metrics, AllMetrics(ops), n)
  {
    hide *;
    var qs := AllMetrics(ops);
    GatheredNamed(ops, n);
    GatheredTokens(ops, n);
    NamesOf(qs, n);
    if NamedValues(qs, n) != [] {
      QuotaIsDelta(qs, n);
    }
    AddsIntro(Quota.ToProto(Gathered(ops)).metrics, qs, n);
  }

  lemma GatheredNamed(ops: seq<QuotaOperation>, n: string)
    requires ops != []
    ensures var c := HeldValue(Quota.MergeMetrics(map[], AllMetrics(ops)), n);
            NamedValues(Quota.ToProto(Gathered(ops)).metrics, n) == match c case Some(v) => [v] case None => []
    ensures HeldValue(Quota.MergeMetrics(map[], AllMetrics(ops)), n).Some? <==> n in MetricNames(AllMetrics(ops))
  {
    var a := Gathered(ops);
    var ns := Ordered(a.values.Keys);
    hide *;
    GatheredIs(ops);
    ToProtoRest(a);
    ListedNamed(a.values, ns, n);
    assert n in ns <==> n in a.values.Keys;
    HeldIs(a.values, n);
    Quota.MergeNames(map[], AllMetrics(ops));
  }

  lemma GatheredTokens(ops: seq<QuotaOperation>, n: string)
    requires ops != [] && Quota.Countable(AllMetrics(ops), n)
    ensures Quota.Tokens(Quota.ToProto(Gathered(ops)).metrics, n) == Quota.Tokens(AllMetrics(ops), n)
  {
    hide *;
    GatheredIs(ops);
    Quota.ToProtoKeeps(Gathered(ops), n);
    Quota.NothingHeld(n);
    Quota.MergeAdds(map[], AllMetrics(ops), n);
  }

  lemma HeldIs(m: Quota.Values, n: string)
    ensures HeldValue(m, n) == if n in m then Some(m[n]) else None
  {
  }

  lemma AddsIntro(rs: seq<QuotaMetric>, qs: seq<QuotaMetric>, n: string)
    requires var us, vs := NamedValues(rs, n), NamedValues(qs, n);
             && Quota.Tokens(rs, n) == Quota.Tokens(qs, n)
             && if vs == [] then us == [] else |us| == 1 && IsDeltaOf(us[0], vs) && us[0].value == Int64Value(Ints(vs))
    ensures Adds(rs, qs, n)
  {
  }
}
