/** Merging report and check operations: the meaning of `OperationAggregator`. */
module Operations {
  import opened Lists
  import opened Proto
  import opened Signature
  import Distributions

  datatype MetricKind = UnspecifiedKind | Gauge | Delta | Cumulative

  type Kinds = map<string, MetricKind>

  function KindOf(kinds: Kinds, name: string): MetricKind { if name in kinds then kinds[name] else Delta }

  const MAX_LOG_ENTRIES := 100

  function EndOf(v: MetricValue): Timestamp { if v.end.Some? then v.end.value else Timestamp(0, 0) }

  /** The new value wins unless it ends earlier. */
  function MergeCumulative(from: MetricValue, to: MetricValue): MetricValue {
    if Before(EndOf(from), EndOf(to)) then to else from
  }

  /** Values of one kind are added; where nothing can be added, `to` is kept. */
  function AddValues(from: Value, to: Value): Value
    requires SameCase(to, from)
  {
    match to
    case Int64Value(i) => Int64Value(i + from.i)
    case DoubleValue(d) => DoubleValue(d + from.d)
    case DistributionValue(d) => DistributionValue(Distributions.Merge(from.dist, d).1)
    case _ => to
  }

  function MergeDelta(from: MetricValue, to: MetricValue): MetricValue {
    if !SameCase(to.value, from.value) then to
    else to.(start := Earlier(from.start, to.start), end := Later(from.end, to.end),
        value := AddValues(from.value, to.value))
  }

  function MergeMetric(kind: MetricKind, from: MetricValue, to: MetricValue): MetricValue {
    if kind == Delta then MergeDelta(from, to) else MergeCumulative(from, to)
  }

  /** The values of one metric, by signature; and of all metrics, by name. */
  type Series = map<string, MetricValue>
  type Sets = map<string, Series>

  function MergeValue(kind: MetricKind, s: Series, v: MetricValue): Series {
    var k := MetricSignature(v);
    s[k := if k in s then MergeMetric(kind, v, s[k]) else v]
  }

  function MergeValues(kind: MetricKind, s: Series, vs: seq<MetricValue>): Series {
    if vs == [] then s else MergeValue(kind, MergeValues(kind, s, vs[..|vs| - 1]), vs[|vs| - 1])
  }

  function SeriesOf(m: Sets, name: string): Series { if name in m then m[name] else map[] }

  function MergeSet(kinds: Kinds, m: Sets, x: MetricValueSet): Sets {
    m[x.name := MergeValues(KindOf(kinds, x.name), SeriesOf(m, x.name), x.values)]
  }

  function MergeSets(kinds: Kinds, m: Sets, xs: seq<MetricValueSet>): Sets {
    if xs == [] then m else MergeSet(kinds, MergeSets(kinds, m, xs[..|xs| - 1]), xs[|xs| - 1])
  }

  /** `operation` is everything but the metric value sets. */
  datatype Aggregate = Aggregate(operation: Operation, sets: Sets)

  function Start(kinds: Kinds, op: Operation): Aggregate {
    Aggregate(op.(metrics := []), MergeSets(kinds, map[], op.metrics))
  }

  function Merge(kinds: Kinds, a: Aggregate, op: Operation): Aggregate {
    Aggregate(a.operation.(start := Earlier(op.start, a.operation.start), end := Later(op.end, a.operation.end),
                           logs := a.operation.logs + op.logs),
              MergeSets(kinds, a.sets, op.metrics))
  }

  predicate TooBig(a: Aggregate) { |a.operation.logs| >= MAX_LOG_ENTRIES }

  function ListValues(s: Series, ks: seq<string>): (r: seq<MetricValue>)
    requires forall k <- ks :: k in s
    ensures |r| == |ks| && forall i :: 0 <= i < |ks| ==> r[i] == s[ks[i]]
  {
    if ks == [] then [] else ListValues(s, ks[..|ks| - 1]) + [s[ks[|ks| - 1]]]
  }

  function ListSet(m: Sets, n: string): MetricValueSet
    requires n in m
  {
    MetricValueSet(n, ListValues(m[n], Ordered(m[n].Keys)))
  }

  function ListSets(m: Sets, ns: seq<string>): (r: seq<MetricValueSet>)
    requires forall n <- ns :: n in m
    ensures |r| == |ns| && forall i :: 0 <= i < |ns| ==> r[i] == ListSet(m, ns[i])
  {
    if ns == [] then [] else ListSets(m, ns[..|ns| - 1]) + [ListSet(m, ns[|ns| - 1])]
  }

  function ToProto(a: Aggregate): Operation {
    a.operation.(metrics := a.operation.metrics + ListSets(a.sets, Ordered(a.sets.Keys)))
  }

  // ----- One metric value: the values that are merged into it -----

  function Matching(vs: seq<MetricValue>, sig: string): seq<MetricValue> {
    if vs == [] then []
    else
      var init, v := Matching(vs[..|vs| - 1], sig), vs[|vs| - 1];
      if MetricSignature(v) == sig then init + [v] else init
  }

  /** All values of a metric with a signature, in order. */
  function ValuesFor(xs: seq<MetricValueSet>, name: string, sig: string): seq<MetricValue> {
    if xs == [] then []
    else
      var init, x := ValuesFor(xs[..|xs| - 1], name, sig), xs[|xs| - 1];
      if x.name == name then init + Matching(x.values, sig) else init
  }

  function CellOf(m: Sets, name: string, sig: string): Option<MetricValue> {
    if name in m && sig in m[name] then Some(m[name][sig]) else None
  }

  function MergeInto(kind: MetricKind, v: MetricValue, c: Option<MetricValue>): MetricValue {
    match c case None => v case Some(x) => MergeMetric(kind, v, x)
  }

  function FoldValues(kind: MetricKind, c: Option<MetricValue>, vs: seq<MetricValue>): Option<MetricValue> {
    if vs == [] then c else Some(MergeInto(kind, vs[|vs| - 1], FoldValues(kind, c, vs[..|vs| - 1])))
  }

  lemma {:induction false} FoldConcat(kind: MetricKind, c: Option<MetricValue>, vs: seq<MetricValue>,
                                      ws: seq<MetricValue>)
    ensures FoldValues(kind, c, vs + ws) == FoldValues(kind, FoldValues(kind, c, vs), ws)
  {
    if ws == [] {
      assert vs + ws == vs;
    } else {
      FoldConcat(kind, c, vs, ws[..|ws| - 1]);
      assert (vs + ws)[..|vs + ws| - 1] == vs + ws[..|ws| - 1];
    }
  }

  lemma {:induction false} MergeValuesCell(kind: MetricKind, s: Series, vs: seq<MetricValue>, sig: string)
    ensures var c, t := if sig in s then Some(s[sig]) else None, MergeValues(kind, s, vs);
            (if sig in t then Some(t[sig]) else None) == FoldValues(kind, c, Matching(vs, sig))
  {
    hide MergeMetric, MetricSignature;
    if vs != [] {
      var init, v := vs[..|vs| - 1], vs[|vs| - 1];
      MergeValuesCell(kind, s, init, sig);
      if MetricSignature(v) == sig {
        assert Matching(vs, sig)[..|Matching(vs, sig)| - 1] == Matching(init, sig);
      }
    }
  }

  /** A merged metric value is the fold of the values with its metric name and signature, in order. */
  lemma {:induction false} MergeSetsCell(kinds: Kinds, m: Sets, xs: seq<MetricValueSet>, name: string, sig: string)
    ensures CellOf(MergeSets(kinds, m, xs), name, sig)
         == FoldValues(KindOf(kinds, name), CellOf(m, name, sig), ValuesFor(xs, name, sig))
  {
    hide MergeValues, FoldValues, Matching;
    if xs == [] {
      NothingFolded(KindOf(kinds, name), CellOf(m, name, sig));
    } else {
      var init, x := xs[..|xs| - 1], xs[|xs| - 1];
      MergeSetsCell(kinds, m, init, name, sig);
      if x.name == name {
        MergeValuesCell(KindOf(kinds, name), SeriesOf(MergeSets(kinds, m, init), name), x.values, sig);
        FoldConcat(KindOf(kinds, name), CellOf(m, name, sig), ValuesFor(init, name, sig), Matching(x.values, sig));
      }
    }
  }

  lemma NothingFolded(kind: MetricKind, c: Option<MetricValue>)
    ensures FoldValues(kind, c, []) == c
  {
  }

  /** Each merged value is kept under its own signature. */
  ghost predicate Keyed(m: Sets) {
    forall name, sig :: name in m && sig in m[name] ==> MetricSignature(m[name][sig]) == sig
  }

  lemma MergeKeepsSignature(kind: MetricKind, v: MetricValue, x: MetricValue)
    requires MetricSignature(v) == MetricSignature(x)
    ensures MetricSignature(MergeMetric(kind, v, x)) == MetricSignature(x)
  {
  }

  lemma {:induction false} MergeValuesKeyed(kind: MetricKind, s: Series, vs: seq<MetricValue>)
    requires forall k <- s :: MetricSignature(s[k]) == k
    ensures forall k <- MergeValues(kind, s, vs) :: MetricSignature(MergeValues(kind, s, vs)[k]) == k
  {
    hide MetricSignature, MergeMetric;
    if vs != [] {
      var t, v := MergeValues(kind, s, vs[..|vs| - 1]), vs[|vs| - 1];
      MergeValuesKeyed(kind, s, vs[..|vs| - 1]);
      if MetricSignature(v) in t {
        MergeKeepsSignature(kind, v, t[MetricSignature(v)]);
      }
    }
  }

  lemma {:induction false} MergeSetsKeyed(kinds: Kinds, m: Sets, xs: seq<MetricValueSet>)
    requires Keyed(m)
    ensures Keyed(MergeSets(kinds, m, xs))
  {
    hide MetricSignature, MergeValues;
    if xs != [] {
      var t, x := MergeSets(kinds, m, xs[..|xs| - 1]), xs[|xs| - 1];
      MergeSetsKeyed(kinds, m, xs[..|xs| - 1]);
      assert forall k <- SeriesOf(t, x.name) :: MetricSignature(SeriesOf(t, x.name)[k]) == k;
      MergeValuesKeyed(KindOf(kinds, x.name), SeriesOf(t, x.name), x.values);
    }
  }

  lemma {:induction false} MatchingListed(s: Series, ks: seq<string>, sig: string)
    requires (forall k <- ks :: k in s) && (forall k <- s :: MetricSignature(s[k]) == k) && Distinct(ks)
    ensures Matching(ListValues(s, ks), sig) == if sig in ks then [s[sig]] else []
  {
    hide *;
    if ks == [] {
      MatchingSnoc([], MetricValue(map[], None, None, NoValue), sig);
      NoneListed(s);
    } else {
      var init, k := ks[..|ks| - 1], ks[|ks| - 1];
      DistinctSnoc(ks);
      MatchingListed(s, init, sig);
      ListLast(s, ks);
      MatchingSnoc(ListValues(s, init), s[k], sig);
      assert ks == init + [k];
    }
  }

  lemma NoneListed(s: Series)
    ensures ListValues(s, []) == []
  {
  }

  lemma DistinctSnoc(ks: seq<string>)
    requires Distinct(ks) && ks != []
    ensures Distinct(ks[..|ks| - 1]) && ks[|ks| - 1] !in ks[..|ks| - 1]
  {
  }

  lemma ListLast(s: Series, ks: seq<string>)
    requires ks != [] && forall k <- ks :: k in s
    ensures ListValues(s, ks) == ListValues(s, ks[..|ks| - 1]) + [s[ks[|ks| - 1]]]
  {
  }

  lemma MatchingSnoc(vs: seq<MetricValue>, v: MetricValue, sig: string)
    ensures Matching(vs + [v], sig) == Matching(vs, sig) + if MetricSignature(v) == sig then [v] else []
    ensures Matching([], sig) == []
  {
    assert (vs + [v])[..|vs|] == vs;
  }

  lemma {:induction false} ListedFor(m: Sets, ns: seq<string>, name: string, sig: string)
    requires (forall n <- ns :: n in m) && Keyed(m) && Distinct(ns)
    ensures ValuesFor(ListSets(m, ns), name, sig)
         == if name in ns && sig in m[name] then [m[name][sig]] else []
  {
    hide MetricSignature, Ordered, Matching;
    if ns != [] {
      var init, n, r := ns[..|ns| - 1], ns[|ns| - 1], ListSets(m, ns);
      ListedFor(m, init, name, sig);
      assert r[..|r| - 1] == ListSets(m, init);
      assert ns == init + [n] && n !in init;
      if n == name {
        MatchingListed(m[n], Ordered(m[n].Keys), sig);
        assert sig in Ordered(m[n].Keys) <==> sig in m[n].Keys;
      }
    }
  }

  /** The operation sent for an aggregate lists exactly one value for each merged one. */
  lemma ToProtoLists(a: Aggregate, name: string, sig: string)
    requires Keyed(a.sets) && a.operation.metrics == []
    ensures ValuesFor(ToProto(a).metrics, name, sig)
         == match CellOf(a.sets, name, sig) case Some(v) => [v] case None => []
  {
    hide *;
    var ns := Ordered(a.sets.Keys);
    ListedFor(a.sets, ns, name, sig);
    ListedMetrics(a);
    CellIs(a.sets, name, sig);
    assert name in ns <==> name in a.sets.Keys;
  }

  lemma ListedMetrics(a: Aggregate)
    requires a.operation.metrics == []
    ensures ToProto(a).metrics == ListSets(a.sets, Ordered(a.sets.Keys))
  {
    hide Ordered, ListSets;
  }

  lemma CellIs(m: Sets, name: string, sig: string)
    ensures CellOf(m, name, sig) == if name in m && sig in m[name] then Some(m[name][sig]) else None
  {
  }
}
