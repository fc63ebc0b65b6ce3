/** The functions that feed the hasher, field by field. */
module Hashing {
  import opened Lists
  import opened Proto
  import opened Signature

  /** A hasher, standing for MD5: `fed` is everything it was updated with, and its digest is free of collisions. */
  class Hasher {
    var fed: string

    constructor ()
      ensures fed == ""
    {
      fed := "";
    }

    method Update(data: string)
      modifies this
      ensures fed == old(fed) + data
    {
      fed := fed + data;
    }
  }

  lemma {:induction false} PairsAppend(labels: map<string, string>, ks: seq<string>, k: string)
    requires k in labels && forall x <- ks :: x in labels
    ensures Tail(PairsOf(labels, ks + [k])) == Tail(PairsOf(labels, ks)) + [NUL] + k + [NUL] + labels[k]
  {
    hide *;
    if ks == [] {
      PairsHead(labels, [k]);
      NoPairs(labels, ks);
      NoPairs(labels, [k][1..]);
      assert [] + [k] == [k];
    } else {
      PairsAppend(labels, ks[1..], k);
      assert (ks + [k])[1..] == ks[1..] + [k];
      PairsHead(labels, ks);
      PairsHead(labels, ks + [k]);
    }
  }

  lemma PairsHead(labels: map<string, string>, ks: seq<string>)
    requires ks != [] && forall x <- ks :: x in labels
    ensures Tail(PairsOf(labels, ks)) == [NUL] + ks[0] + [NUL] + labels[ks[0]] + Tail(PairsOf(labels, ks[1..]))
  {
    hide Tail;
    var rest := PairsOf(labels, ks[1..]);
    TailCons(labels[ks[0]], rest);
    TailCons(ks[0], [labels[ks[0]]] + rest);
    assert [ks[0], labels[ks[0]]] + rest == [ks[0]] + ([labels[ks[0]]] + rest);
  }

  lemma TailCons(f: string, rest: seq<string>)
    ensures Tail([f] + rest) == [NUL] + f + Tail(rest)
  {
    assert ([f] + rest)[1..] == rest;
  }

  lemma NoPairs(labels: map<string, string>, ks: seq<string>)
    requires ks == []
    ensures PairsOf(labels, ks) == [] && Tail([]) == ""
  {
  }

  method UpdateHashLabels(labels: map<string, string>, hasher: Hasher)
    modifies hasher
    ensures hasher.fed == old(hasher.fed) + Tail(LabelFields(labels))
  {
    hide Ordered, Tail, PairsOf;
    var ordered := Ordered(labels.Keys);
    NoPairs(labels, ordered[..0]);
    for i := 0 to |ordered|
      invariant hasher.fed == old(hasher.fed) + Tail(PairsOf(labels, ordered[..i]))
    {
      var k := ordered[i];
      PairsAppend(labels, ordered[..i], k);
      assert ordered[..i + 1] == ordered[..i] + [k];
      hasher.Update([NUL]);
      hasher.Update(k);
      hasher.Update([NUL]);
      hasher.Update(labels[k]);
    }
    assert ordered[..|ordered|] == ordered;
  }

  method GenerateReportOperationSignature(op: Operation) returns (signature: string)
    ensures signature == ReportSignature(op)
  {
    hide Tail, LabelFields, Join;
    var hasher := new Hasher();
    hasher.Update(op.consumer);
    hasher.Update([NUL]);
    hasher.Update(op.name);
    UpdateHashLabels(op.labels, hasher);
    JoinTwo(op.consumer, op.name, LabelFields(op.labels));
    return hasher.fed;
  }

  lemma JoinTwo(a: string, b: string, rest: seq<string>)
    ensures Join([a, b] + rest) == a + [NUL] + b + Tail(rest)
  {
    var fs := [a, b] + rest;
    assert fs[0] == a && fs[1..] == [b] + rest && ([b] + rest)[0] == b && ([b] + rest)[1..] == rest;
    assert Join(fs) == a + Tail([b] + rest);
    assert Tail([b] + rest) == [NUL] + b + Tail(rest);
    Associate(a, [NUL] + b, Tail(rest));
    Associate(a, [NUL], b);
  }

  method GenerateReportMetricValueSignature(v: MetricValue) returns (signature: string)
    ensures signature == MetricSignature(v)
  {
    var hasher := new Hasher();
    UpdateHashLabels(v.labels, hasher);
    return hasher.fed;
  }

  method GenerateAllocateQuotaRequestSignature(op: QuotaOperation) returns (signature: string)
    ensures signature == QuotaSignature(op)
  {
    hide Ordered, Tail, Join;
    var hasher := new Hasher();
    hasher.Update(op.methodName);
    hasher.Update([NUL]);
    hasher.Update(op.consumer);
    var names := CollectNames(op.metrics);
    var ordered := Ordered(names);
    UpdateHashNames(ordered, hasher);
    JoinTwo(op.methodName, op.consumer, ordered);
    return hasher.fed;
  }

  method CollectNames(metrics: seq<QuotaMetric>) returns (names: set<string>)
    ensures names == MetricNames(metrics)
  {
    names := {};
    for i := 0 to |metrics|
      invariant names == MetricNames(metrics[..i])
    {
      names := names + {metrics[i].name};
      assert metrics[..i + 1] == metrics[..i] + [metrics[i]];
    }
    assert metrics[..|metrics|] == metrics;
  }

  method UpdateHashNames(ordered: seq<string>, hasher: Hasher)
    modifies hasher
    ensures hasher.fed == old(hasher.fed) + Tail(ordered)
  {
    hide Tail;
    TailNone(ordered[..0]);
    for i := 0 to |ordered|
      invariant hasher.fed == old(hasher.fed) + Tail(ordered[..i])
    {
      assert ordered[..i + 1] == ordered[..i] + [ordered[i]];
      TailAppend(ordered[..i], [ordered[i]]);
      TailOne(ordered[i]);
      hasher.Update([NUL]);
      hasher.Update(ordered[i]);
    }
    assert ordered[..|ordered|] == ordered;
  }

  lemma TailNone(fs: seq<string>)
    requires fs == []
    ensures Tail(fs) == ""
  {
  }

  lemma TailOne(f: string)
    ensures Tail([f]) == [NUL] + f
  {
  }

  /** The fields of the metric value sets of a check request, and of the labels of their values. */
  method UpdateHashMetricSet(name: string, values: seq<MetricValue>, hasher: Hasher)
    modifies hasher
    ensures hasher.fed == old(hasher.fed) + Tail([name] + ValueFields(values))
  {
    hide Tail, ValueFields, LabelFields;
    hasher.Update([NUL]);
    hasher.Update(name);
    TailAppend([name], ValueFields(values));
    TailOne(name);
    NoValues(values[..0]);
    for i := 0 to |values|
      invariant hasher.fed == old(hasher.fed) + [NUL] + name + Tail(ValueFields(values[..i]))
    {
      assert values[..i + 1] == values[..i] + [values[i]];
      ValuesAppend(values[..i], values[i]);
      UpdateHashLabels(values[i].labels, hasher);
    }
    assert values[..|values|] == values;
  }

  lemma NoValues(values: seq<MetricValue>)
    requires values == []
    ensures Tail(ValueFields(values)) == ""
  {
  }

  lemma {:induction false} ValuesAppend(values: seq<MetricValue>, v: MetricValue)
    ensures Tail(ValueFields(values + [v])) == Tail(ValueFields(values)) + Tail(LabelFields(v.labels))
  {
    hide Tail, ValueFields, LabelFields;
    ValuesConcat(values, v);
    TailAppend(ValueFields(values), LabelFields(v.labels));
  }

  lemma {:induction false} ValuesConcat(values: seq<MetricValue>, v: MetricValue)
    ensures ValueFields(values + [v]) == ValueFields(values) + LabelFields(v.labels)
  {
    hide LabelFields;
    if values == [] {
      assert ValueFields([v]) == LabelFields(v.labels) + [];
    } else {
      ValuesConcat(values[1..], v);
      assert (values + [v])[1..] == values[1..] + [v];
    }
  }

  lemma SetsHead(sets: map<string, seq<MetricValue>>, n: string, rest: seq<string>)
    requires n in sets && forall x <- rest :: x in sets
    ensures SetFields(sets, [n] + rest) == [n] + ValueFields(sets[n]) + SetFields(sets, rest)
        && SetFields(sets, []) == []
  {
    hide ValueFields;
    assert ([n] + rest)[1..] == rest;
  }

  lemma {:induction false} SetsAppend(sets: map<string, seq<MetricValue>>, names: seq<string>, n: string)
    requires n in sets && forall x <- names :: x in sets
    ensures SetFields(sets, names + [n]) == SetFields(sets, names) + ([n] + ValueFields(sets[n]))
  {
    hide *;
    if names == [] {
      SetsHead(sets, n, []);
      assert names + [n] == [n] + [];
    } else {
      SetsAppend(sets, names[1..], n);
      SetsHead(sets, names[0], names[1..]);
      SetsHead(sets, names[0], names[1..] + [n]);
      assert [names[0]] + names[1..] == names && [names[0]] + (names[1..] + [n]) == names + [n];
      Associate([names[0]] + ValueFields(sets[names[0]]), SetFields(sets, names[1..]), [n] + ValueFields(sets[n]));
    }
  }

  method GenerateCheckRequestSignature(op: Operation) returns (signature: string)
    ensures signature == CheckSignature(op)
  {
    hide Ordered, SetsByName, Tail, LabelFields, SetFields, CheckSignature;
    var hasher := new Hasher();
    hasher.Update(op.name);
    hasher.Update([NUL]);
    hasher.Update(op.consumer);
    hasher.Update([NUL]);
    UpdateHashLabels(op.labels, hasher);
    var sets := CollectSets(op.metrics);
    UpdateHashSets(sets, Ordered(sets.Keys), hasher);
    hasher.Update([NUL]);
    CheckStream(op);
    return hasher.fed;
  }

  method CollectSets(metrics: seq<MetricValueSet>) returns (sets: map<string, seq<MetricValue>>)
    ensures sets == SetsByName(metrics)
  {
    sets := map[];
    for i := 0 to |metrics|
      invariant sets == SetsByName(metrics[..i])
    {
      assert metrics[..i + 1][..i] == metrics[..i];
      sets := sets[metrics[i].name := metrics[i].values];
    }
    assert metrics[..|metrics|] == metrics;
  }

  method UpdateHashSets(sets: map<string, seq<MetricValue>>, ordered: seq<string>, hasher: Hasher)
    requires forall n <- ordered :: n in sets
    modifies hasher
    ensures hasher.fed == old(hasher.fed) + Tail(SetFields(sets, ordered))
  {
    hide Tail, SetFields, ValueFields;
    NoSets(sets, ordered[..0]);
    for i := 0 to |ordered|
      invariant hasher.fed == old(hasher.fed) + Tail(SetFields(sets, ordered[..i]))
    {
      assert ordered[..i + 1] == ordered[..i] + [ordered[i]];
      SetsAppend(sets, ordered[..i], ordered[i]);
      TailAppend(SetFields(sets, ordered[..i]), [ordered[i]] + ValueFields(sets[ordered[i]]));
      UpdateHashMetricSet(ordered[i], sets[ordered[i]], hasher);
    }
    assert ordered[..|ordered|] == ordered;
  }

  lemma NoSets(sets: map<string, seq<MetricValue>>, names: seq<string>)
    requires names == []
    ensures Tail(SetFields(sets, names)) == ""
  {
  }

  lemma CheckFieldsAre(op: Operation)
    ensures CheckFields(op) == [op.name, op.consumer, ""] + LabelFields(op.labels) + MetricFields(op) + [""]
  {
    hide LabelFields, SetFields;
  }

  lemma CheckStream(op: Operation)
    ensures CheckSignature(op)
         == op.name + [NUL] + op.consumer + [NUL] + Tail(LabelFields(op.labels)) + Tail(MetricFields(op)) + [NUL]
  {
    hide Tail, LabelFields, MetricFields, Join;
    var l, m := LabelFields(op.labels), MetricFields(op);
    CheckFieldsAre(op);
    var rest := [""] + l + m + [""];
    assert CheckFields(op) == [op.name, op.consumer] + rest;
    JoinTwo(op.name, op.consumer, rest);
    TailAppend([""] + l + m, [""]);
    TailAppend([""] + l, m);
    TailAppend([""], l);
    TailOne("");
  }
}
