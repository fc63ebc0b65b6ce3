/**
 * What merging computes, independent of how: last values, pooled samples, and whole operations; and when merging in
 * parts makes no difference.
 */
module MergeAlgebra {
  import opened Lists
  import opened Proto
  import opened Signature
  import opened Operations
  import opened DeltaAlgebra
  import Distributions

  // ----- Cumulative and gauge metrics -----

  /** `v` ends before `w`; a value without an end time ends at the epoch. */
  predicate EndsBefore(v: MetricValue, w: MetricValue) {
    match v.end
    case Some(a) => (match w.end case Some(b) => Before(a, b) case None => Before(a, Timestamp(0, 0)))
    case None => w.end.Some? && Before(Timestamp(0, 0), w.end.value)
  }

  lemma EndsBeforeIs()
    ensures forall v, w :: EndsBefore(v, w) <==> Before(EndOf(v), EndOf(w))
  {
  }

  /** `vs[i]` is the last of the values that end latest. */
  ghost predicate IsLastLatest(vs: seq<MetricValue>, i: nat) {
    && i < |vs|
    && (forall j :: 0 <= j < |vs| ==> !EndsBefore(vs[i], vs[j]))
    && (forall j :: i < j < |vs| ==> EndsBefore(vs[j], vs[i]))
  }

  /** Folding cumulative or gauge values gives the last of those that end latest. */
  lemma {:induction false} CumulativeIsLastLatest(kind: MetricKind, vs: seq<MetricValue>) returns (i: nat)
    requires vs != [] && kind != Delta
    ensures IsLastLatest(vs, i) && FoldValues(kind, None, vs) == Some(vs[i])
  {
    var init, v := vs[..|vs| - 1], vs[|vs| - 1];
    if init == [] {
      i := 0;
    } else {
      i := CumulativeIsLastLatest(kind, init);
      LastLatestStep(vs, i);
      EndsBeforeIs();
      if !Before(EndOf(v), EndOf(init[i])) {
        i := |vs| - 1;
      }
    }
  }

  lemma LastLatestStep(vs: seq<MetricValue>, i: nat)
    requires |vs| > 1 && IsLastLatest(vs[..|vs| - 1], i)
    ensures if Before(EndOf(vs[|vs| - 1]), EndOf(vs[i])) then IsLastLatest(vs, i) else IsLastLatest(vs, |vs| - 1)
  {
    var init := vs[..|vs| - 1];
    BeforeTransitive();
    EndsBeforeIs();
    hide EndOf, Before, EndsBefore;
    assert forall j :: 0 <= j < |init| ==> vs[j] == init[j];
    BeforeTotal(EndOf(vs[|vs| - 1]), EndOf(vs[i]));
    BeforeTotal(EndOf(vs[|vs| - 1]), EndOf(vs[|vs| - 1]));
  }

  // ----- Distributions -----

  ghost predicate Samples(v: MetricValue, o: BucketOption, xs: seq<real>) {
    v.value.DistributionValue? && v.value.dist.option == o && Distributions.Summarizes(v.value.dist, xs)
  }

  /** Merged delta distributions with one bucket option summarize all the samples together. */
  lemma {:induction false} DistributionsPool(o: BucketOption, vs: seq<MetricValue>, xss: seq<seq<real>>)
    requires Distributions.Usable(o) && vs != [] && |vs| == |xss|
    requires forall i :: 0 <= i < |vs| ==> Samples(vs[i], o, xss[i])
    ensures var r := FoldValues(Delta, None, vs); r.Some? && Samples(r.value, o, Flat(xss))
  {
    hide *;
    var last := |vs| - 1;
    var v := vs[last];
    FoldLast(Delta, vs);
    FlatLast(xss);
    if last == 0 {
      assert [] + xss[0] == xss[0];
    } else {
      DistributionsPool(o, vs[..last], xss[..last]);
      var x := FoldValues(Delta, None, vs[..last]).value;
      PoolTwo(o, v, x, xss[last], Flat(xss[..last]));
    }
  }

  lemma FlatLast<T>(xss: seq<seq<T>>)
    requires xss != []
    ensures Flat(xss) == Flat(xss[..|xss| - 1]) + xss[|xss| - 1]
    ensures |xss| == 1 ==> Flat(xss) == [] + xss[0]
  {
  }

  lemma PoolTwo(o: BucketOption, v: MetricValue, x: MetricValue, xs: seq<real>, ys: seq<real>)
    requires Distributions.Usable(o) && Samples(v, o, xs) && Samples(x, o, ys)
    ensures Samples(MergeInto(Delta, v, Some(x)), o, ys + xs)
  {
    hide Distributions.Usable, Distributions.Summarizes, Distributions.Merge;
    Distributions.MergeSummarizes(v.value.dist, x.value.dist, ys, xs);
    Distributions.MergeOption(v.value.dist, x.value.dist);
  }

  // ----- Merging in parts -----

  lemma CumulativeAssociative(kind: MetricKind, a: MetricValue, b: MetricValue, c: MetricValue)
    requires kind != Delta
    ensures MergeMetric(kind, MergeMetric(kind, c, b), a) == MergeMetric(kind, c, MergeMetric(kind, b, a))
  {
    BeforeTransitive();
  }

  lemma {:induction false} CumulativeInParts(kind: MetricKind, vs: seq<MetricValue>, ws: seq<MetricValue>)
    requires vs != [] && ws != [] && kind != Delta
    ensures var c, r := FoldValues(kind, None, vs), FoldValues(kind, None, ws);
            && c.Some? && r.Some?
            && Some(MergeMetric(kind, r.value, c.value)) == FoldValues(kind, None, vs + ws)
    decreases |ws|
  {
    hide MergeMetric;
    var init, w := ws[..|ws| - 1], ws[|ws| - 1];
    FoldSome(kind, vs);
    assert (vs + ws)[..|vs + ws| - 1] == vs + init;
    if init == [] {
      assert vs + init == vs;
    } else {
      CumulativeInParts(kind, vs, init);
      CumulativeAssociative(kind, FoldValues(kind, None, vs).value, FoldValues(kind, None, init).value, w);
    }
  }

  /** What decides whether merging `ws` in one part makes no difference; `c` is the merger of `vs`. */
  predicate PartsAgree(kind: MetricKind, vs: seq<MetricValue>, c: MetricValue, ws: seq<MetricValue>)
    requires vs != [] && ws != []
  {
    kind == Delta ==> Alike(vs[0].value, ws[0].value) || AddsNothing(c, ws)
  }

  /** Merging the merger of `ws` is merging `ws`: always for cumulative values, and for delta values as said above. */
  lemma MergeInParts(kind: MetricKind, vs: seq<MetricValue>, ws: seq<MetricValue>)
    requires vs != [] && ws != [] && (kind == Delta ==> Summable(vs + ws))
    ensures var c, r := FoldValues(kind, None, vs), FoldValues(kind, None, ws);
            && c.Some? && r.Some?
            && (FoldValues(kind, c, [r.value]) == FoldValues(kind, None, vs + ws)
                <==> PartsAgree(kind, vs, c.value, ws))
  {
    hide *;
    FoldSome(kind, vs);
    FoldSome(kind, ws);
    var c, r := FoldValues(kind, None, vs).value, FoldValues(kind, None, ws).value;
    OneFolded(kind, Some(c), r);
    MergesKind(kind, r, c);
    PartsIs(kind, vs, c, ws);
    if kind == Delta {
      DeltaInParts(vs, ws);
    } else {
      CumulativeInParts(kind, vs, ws);
    }
  }

  lemma MergesKind(kind: MetricKind, r: MetricValue, c: MetricValue)
    ensures MergeInto(kind, r, Some(c)) == MergeMetric(kind, r, c)
    ensures kind == Delta ==> MergeMetric(kind, r, c) == MergeDelta(r, c)
  {
    hide MergeDelta;
  }

  lemma PartsIs(kind: MetricKind, vs: seq<MetricValue>, c: MetricValue, ws: seq<MetricValue>)
    requires vs != [] && ws != []
    ensures PartsAgree(kind, vs, c, ws)
       <==> kind != Delta || Alike(vs[0].value, ws[0].value) || AddsNothing(c, ws)
  {
    hide AddsNothing;
  }

  // ----- Operations -----

  /** The aggregate of these operations. */
  function AggregateOf(kinds: Kinds, ops: seq<Operation>): Aggregate
    requires ops != []
  {
    if |ops| == 1 then Start(kinds, ops[0]) else Merge(kinds, AggregateOf(kinds, ops[..|ops| - 1]), ops[|ops| - 1])
  }

  function AllValues(ops: seq<Operation>, name: string, sig: string): seq<MetricValue> {
    if ops == [] then [] else AllValues(ops[..|ops| - 1], name, sig) + ValuesFor(ops[|ops| - 1].metrics, name, sig)
  }

  /** Each value of an aggregate is the fold of the values with its metric name and signature in the operations. */
  lemma {:induction false} AggregateCell(kinds: Kinds, ops: seq<Operation>, name: string, sig: string)
    requires ops != []
    ensures var a := AggregateOf(kinds, ops);
            && CellOf(a.sets, name, sig) == FoldValues(KindOf(kinds, name), None, AllValues(ops, name, sig))
            && Keyed(a.sets) && a.operation.metrics == []
  {
    hide Keyed, CellOf, FoldValues, MergeSets, ValuesFor;
    var init, op := ops[..|ops| - 1], ops[|ops| - 1];
    if |ops| == 1 {
      assert [] + ValuesFor(op.metrics, name, sig) == ValuesFor(op.metrics, name, sig);
      NothingKeyed(name, sig);
      MergeSetsCell(kinds, map[], op.metrics, name, sig);
      MergeSetsKeyed(kinds, map[], op.metrics);
    } else {
      AggregateCell(kinds, init, name, sig);
      var a := AggregateOf(kinds, init);
      MergeSetsCell(kinds, a.sets, op.metrics, name, sig);
      MergeSetsKeyed(kinds, a.sets, op.metrics);
      FoldConcat(KindOf(kinds, name), None, AllValues(init, name, sig), ValuesFor(op.metrics, name, sig));
    }
  }

  /** The log entries of these operations, in order. */
  function LogsOf(ops: seq<Operation>): seq<string> {
    if ops == [] then [] else LogsOf(ops[..|ops| - 1]) + ops[|ops| - 1].logs
  }

  lemma {:induction false} AggregateLogs(kinds: Kinds, ops: seq<Operation>)
    requires ops != []
    ensures AggregateOf(kinds, ops).operation.logs == LogsOf(ops)
  {
    hide MergeSets;
    if |ops| == 1 {
      assert LogsOf(ops[..0]) == [] && [] + ops[0].logs == ops[0].logs;
    } else {
      AggregateLogs(kinds, ops[..|ops| - 1]);
    }
  }

  function OpStarts(ops: seq<Operation>): (r: Times)
    ensures |r| == |ops| && forall i :: 0 <= i < |ops| ==> r[i] == ops[i].start
  {
    seq(|ops|, i requires 0 <= i < |ops| => ops[i].start)
  }

  function OpEnds(ops: seq<Operation>): (r: Times)
    ensures |r| == |ops| && forall i :: 0 <= i < |ops| ==> r[i] == ops[i].end
  {
    seq(|ops|, i requires 0 <= i < |ops| => ops[i].end)
  }

  /** An aggregate starts with the earliest of its operations and ends with the latest, as far as they say. */
  lemma {:induction false} AggregateSpan(kinds: Kinds, ops: seq<Operation>)
    requires ops != []
    ensures var a := AggregateOf(kinds, ops).operation;
            IsEarliest(a.start, OpStarts(ops)) && IsLatest(a.end, OpEnds(ops))
  {
    hide MergeSets, IsEarliest, IsLatest, Earlier, Later, OpStarts, OpEnds;
    var op := ops[|ops| - 1];
    if |ops| == 1 {
      OneTime(op.start);
      OneTime(op.end);
      assert OpStarts(ops) == [op.start] && OpEnds(ops) == [op.end];
    } else {
      var init := ops[..|ops| - 1];
      AggregateSpan(kinds, init);
      OneTime(op.start);
      OneTime(op.end);
      EarliestJoin(AggregateOf(kinds, init).operation.start, OpStarts(init), op.start, [op.start]);
      LatestJoin(AggregateOf(kinds, init).operation.end, OpEnds(init), op.end, [op.end]);
      assert OpStarts(ops) == OpStarts(init) + [op.start] && OpEnds(ops) == OpEnds(init) + [op.end];
    }
  }

  lemma {:induction false} LogsConcat(xs: seq<Operation>, ys: seq<Operation>)
    ensures LogsOf(xs + ys) == LogsOf(xs) + LogsOf(ys)
  {
    if ys == [] {
      assert xs + ys == xs;
    } else {
      var init, y := ys[..|ys| - 1], ys[|ys| - 1];
      LogsConcat(xs, init);
      assert (xs + ys)[..|xs + ys| - 1] == xs + init && (xs + ys)[|xs + ys| - 1] == y;
      Associate(LogsOf(xs), LogsOf(init), y.logs);
    }
  }

  /** Taking one operation out takes out its values and its log entries. */
  lemma ValuesRemove(ops: seq<Operation>, i: nat, name: string, sig: string)
    requires i < |ops|
    ensures var rest, op := Without(ops, i), ops[i];
            && multiset(AllValues(ops, name, sig))
               == multiset(AllValues(rest, name, sig)) + multiset(ValuesFor(op.metrics, name, sig))
            && multiset(LogsOf(ops)) == multiset(LogsOf(rest)) + multiset(op.logs)
  {
    var a, b, op := ops[..i], ops[i + 1..], ops[i];
    OneOperation(op, name, sig);
    hide AllValues, LogsOf, ValuesFor;
    SplitAt(ops, i);
    AllValuesConcat(a + [op], b, name, sig);
    AllValuesConcat(a, [op], name, sig);
    AllValuesConcat(a, b, name, sig);
    LogsConcat(a + [op], b);
    LogsConcat(a, [op]);
    LogsConcat(a, b);
  }

  lemma OneOperation(op: Operation, name: string, sig: string)
    ensures AllValues([op], name, sig) == ValuesFor(op.metrics, name, sig) && LogsOf([op]) == op.logs
  {
    hide ValuesFor;
    assert [op][..0] == [];
    assert AllValues([op], name, sig) == [] + ValuesFor(op.metrics, name, sig) && LogsOf([op]) == [] + op.logs;
  }

  lemma {:induction false} ValuesPermute(xs: seq<Operation>, ys: seq<Operation>, name: string, sig: string)
    requires multiset(xs) == multiset(ys)
    ensures multiset(AllValues(xs, name, sig)) == multiset(AllValues(ys, name, sig))
    ensures multiset(LogsOf(xs)) == multiset(LogsOf(ys))
    decreases |xs|
  {
    hide AllValues, LogsOf, ValuesFor;
    Permuted(xs, ys);
    if xs == [] {
      assert ys == [];
    } else {
      var init := xs[..|xs| - 1];
      var i := LastOf(xs, ys);
      assert init + xs[|xs|..] == init;
      ValuesRemove(ys, i, name, sig);
      ValuesRemove(xs, |xs| - 1, name, sig);
      ValuesPermute(init, Without(ys, i), name, sig);
    }
  }

  lemma SameOperationTimes(xs: seq<Operation>, ys: seq<Operation>)
    requires forall op :: op in xs ==> op in ys
    ensures forall t :: t in OpStarts(xs) ==> t in OpStarts(ys)
    ensures forall t :: t in OpEnds(xs) ==> t in OpEnds(ys)
  {
    forall i | 0 <= i < |xs| ensures xs[i].start in OpStarts(ys) && xs[i].end in OpEnds(ys) {
      assert xs[i] in xs;
      var j :| 0 <= j < |ys| && ys[j] == xs[i];
      assert OpStarts(ys)[j] == xs[i].start && OpEnds(ys)[j] == xs[i].end;
    }
  }

  /** No value ends later. */
  predicate EndsLatest(v: MetricValue, vs: seq<MetricValue>) { forall w <- vs :: !EndsBefore(v, w) }

  /** The values that end latest are all equal. */
  predicate OneLatest(vs: seq<MetricValue>) {
    forall v <- vs, w <- vs :: EndsLatest(v, vs) && EndsLatest(w, vs) ==> v == w
  }

  /** Cumulative values may be merged in any order if and only if those that end latest are equal. */
  lemma CumulativeOrderIndependent(kind: MetricKind, vs: seq<MetricValue>)
    requires vs != [] && kind != Delta
    ensures OneLatest(vs) <==>
            forall ws | multiset(ws) == multiset(vs) :: FoldValues(kind, None, ws) == FoldValues(kind, None, vs)
  {
    EndsBeforeIs();
    hide FoldValues, EndOf, Before, EndsBefore;
    if OneLatest(vs) {
      forall ws | multiset(ws) == multiset(vs) ensures FoldValues(kind, None, ws) == FoldValues(kind, None, vs) {
        Permuted(ws, vs);
        LatestFolded(kind, vs);
        LatestFolded(kind, ws);
      }
    } else {
      var v, w :| v in vs && w in vs && EndsLatest(v, vs) && EndsLatest(w, vs) && v != w;
      var xs := PutLast(kind, vs, v);
      var ys := PutLast(kind, vs, w);
      assert FoldValues(kind, None, xs) != FoldValues(kind, None, ys);
    }
  }

  lemma LatestFolded(kind: MetricKind, vs: seq<MetricValue>)
    requires vs != [] && kind != Delta
    ensures var r := FoldValues(kind, None, vs); r.Some? && r.value in vs && EndsLatest(r.value, vs)
  {
    var i := CumulativeIsLastLatest(kind, vs);
  }

  /** A value that ends latest wins if it comes last. */
  lemma PutLast(kind: MetricKind, vs: seq<MetricValue>, v: MetricValue) returns (ws: seq<MetricValue>)
    requires v in vs && EndsLatest(v, vs) && kind != Delta
    ensures multiset(ws) == multiset(vs) && FoldValues(kind, None, ws) == Some(v)
  {
    var i :| 0 <= i < |vs| && vs[i] == v;
    ws := Without(vs, i) + [v];
    Uncounted(vs, i);
    Permuted(ws, vs);
    EndsBeforeIs();
    hide FoldValues, EndOf, Before, EndsBefore;
    var j := CumulativeIsLastLatest(kind, ws);
    assert ws[j] in vs && ws[|ws| - 1] == v;
  }

  lemma {:induction false} MatchingSignature(vs: seq<MetricValue>, sig: string)
    ensures forall v <- Matching(vs, sig) :: MetricSignature(v) == sig
  {
    hide MetricSignature;
    if vs != [] {
      MatchingSignature(vs[..|vs| - 1], sig);
    }
  }

  lemma {:induction false} ValuesSignature(xs: seq<MetricValueSet>, name: string, sig: string)
    ensures forall v <- ValuesFor(xs, name, sig) :: MetricSignature(v) == sig
  {
    hide MetricSignature, Matching;
    if xs != [] {
      ValuesSignature(xs[..|xs| - 1], name, sig);
      MatchingSignature(xs[|xs| - 1].values, sig);
    }
  }

  lemma {:induction false} AllValuesSignature(ops: seq<Operation>, name: string, sig: string)
    ensures forall v <- AllValues(ops, name, sig) :: MetricSignature(v) == sig
  {
    hide MetricSignature, ValuesFor;
    if ops != [] {
      AllValuesSignature(ops[..|ops| - 1], name, sig);
      ValuesSignature(ops[|ops| - 1].metrics, name, sig);
    }
  }

  ghost predicate PlainValues(vs: seq<MetricValue>) { forall v <- vs :: PlainLabels(v.labels) }

  /** The values under a name and signature have one set of labels, if there is no NUL in them. */
  lemma SameCell(v: MetricValue, w: MetricValue, vs: seq<MetricValue>, sig: string)
    requires v in vs && w in vs && PlainValues(vs) && forall x <- vs :: MetricSignature(x) == sig
    ensures v.labels == w.labels
  {
    hide PlainLabels, MetricSignature;
    MetricSignatureIdentifies(v, w);
  }

  /**
   * What the order of its operations means for an aggregate: the span is the same, and so are the log entries but for
   * their order. A cumulative value is the same if those that end latest are equal. A delta value, number or
   * distribution, is the same if and only if the first values of both orders are alike and have something to add up, or
   * are equal.
   */
  lemma AggregateOrderIndependent(kinds: Kinds, xs: seq<Operation>, ys: seq<Operation>, name: string, sig: string)
    requires xs != [] && multiset(xs) == multiset(ys)
    ensures ys != []
    ensures var a, b := AggregateOf(kinds, xs).operation, AggregateOf(kinds, ys).operation;
            a.start == b.start && a.end == b.end && multiset(a.logs) == multiset(b.logs)
    ensures var c, d := CellOf(AggregateOf(kinds, xs).sets, name, sig), CellOf(AggregateOf(kinds, ys).sets, name, sig);
            var vs, ws, k := AllValues(xs, name, sig), AllValues(ys, name, sig), KindOf(kinds, name);
            && (vs == [] <==> ws == []) && (vs == [] ==> c == d)
            && (vs != [] && k == Delta && Summable(vs) ==> (c == d <==> SameStart(vs, ws)))
            && (vs != [] && k != Delta && OneLatest(vs) ==> c == d)
            && (vs != [] && PlainValues(vs) ==> vs[0].labels == ws[0].labels)
  {
    var vs, ws, k := AllValues(xs, name, sig), AllValues(ys, name, sig), KindOf(kinds, name);
    hide *;
    Permuted(xs, ys);
    AggregateSpan(kinds, xs);
    AggregateSpan(kinds, ys);
    SameOperationTimes(xs, ys);
    SameOperationTimes(ys, xs);
    TimesPermute(AggregateOf(kinds, xs).operation.start, AggregateOf(kinds, ys).operation.start, OpStarts(xs),
        OpStarts(ys));
    TimesPermute(AggregateOf(kinds, xs).operation.end, AggregateOf(kinds, ys).operation.end, OpEnds(xs), OpEnds(ys));
    AggregateLogs(kinds, xs);
    AggregateLogs(kinds, ys);
    ValuesPermute(xs, ys, name, sig);
    AggregateCell(kinds, xs, name, sig);
    AggregateCell(kinds, ys, name, sig);
    Permuted(vs, ws);
    if vs == [] {
      assert ws == [];
    } else {
      AllValuesSignature(xs, name, sig);
      if PlainValues(vs) {
        assert ws[0] in vs;
        SameCell(vs[0], ws[0], vs, sig);
      }
      if k == Delta && Summable(vs) {
        DeltaOrderIndependent(vs, ws);
      } else if k != Delta && OneLatest(vs) {
        CumulativeOrderIndependent(k, vs);
      }
    }
  }

  lemma NothingKeyed(name: string, sig: string)
    ensures Keyed(map[]) && CellOf(map[], name, sig) == None
  {
  }

  lemma {:induction false} AllValuesConcat(xs: seq<Operation>, ys: seq<Operation>, name: string, sig: string)
    ensures AllValues(xs + ys, name, sig) == AllValues(xs, name, sig) + AllValues(ys, name, sig)
  {
    if ys == [] {
      assert xs + ys == xs;
    } else {
      hide ValuesFor;
      var init, y := ys[..|ys| - 1], ys[|ys| - 1];
      AllValuesConcat(xs, init, name, sig);
      assert (xs + ys)[..|xs + ys| - 1] == xs + init && (xs + ys)[|xs + ys| - 1] == y;
      Associate(AllValues(xs, name, sig), AllValues(init, name, sig), ValuesFor(y.metrics, name, sig));
    }
  }

  /** The time span and the log entries of an aggregate merged with another. */
  function Combined(a: Operation, b: Operation): Operation {
    a.(start := Earlier(b.start, a.start), end := Later(b.end, a.end), logs := a.logs + b.logs)
  }

  lemma {:induction false} CombinedInParts(kinds: Kinds, xs: seq<Operation>, ys: seq<Operation>)
    requires xs != [] && ys != []
    ensures AggregateOf(kinds, xs + ys).operation
        == Combined(AggregateOf(kinds, xs).operation, AggregateOf(kinds, ys).operation)
    decreases |ys|
  {
    hide MergeSets, Earlier, Later;
    var zs, init, y := xs + ys, ys[..|ys| - 1], ys[|ys| - 1];
    assert zs[..|zs| - 1] == xs + init;
    if |ys| == 1 {
      assert xs + init == xs;
    } else {
      CombinedInParts(kinds, xs, init);
      var a, b := AggregateOf(kinds, xs).operation, AggregateOf(kinds, init).operation;
      EarlierLaws(y.start, b.start, a.start);
      EarlierLaws(y.end, b.end, a.end);
      Associate(a.logs, b.logs, y.logs);
    }
  }

  /**
   * Aggregating a flushed aggregate is aggregating its parts: times and log entries always, and a metric value if and
   * only if merging its values in parts makes no difference.
   */
  lemma ReaggregationIsAggregation(kinds: Kinds, xs: seq<Operation>, ys: seq<Operation>, name: string, sig: string)
    requires xs != [] && ys != []
    requires KindOf(kinds, name) == Delta ==> Summable(AllValues(xs, name, sig) + AllValues(ys, name, sig))
    ensures var a, vs, ws := AggregateOf(kinds, xs), AllValues(xs, name, sig), AllValues(ys, name, sig);
            var m, c := Merge(kinds, a, ToProto(AggregateOf(kinds, ys))), CellOf(a.sets, name, sig);
            && m.operation == AggregateOf(kinds, xs + ys).operation
            && (vs != [] ==> c.Some?)
            && (CellOf(m.sets, name, sig) == CellOf(AggregateOf(kinds, xs + ys).sets, name, sig)
                <==> vs == [] || ws == [] || PartsAgree(KindOf(kinds, name), vs, c.value, ws))
  {
    var k, a, b := KindOf(kinds, name), AggregateOf(kinds, xs), AggregateOf(kinds, ys);
    var vs, ws := AllValues(xs, name, sig), AllValues(ys, name, sig);
    hide *;
    CombinedInParts(kinds, xs, ys);
    AggregateCell(kinds, xs, name, sig);
    AggregateCell(kinds, ys, name, sig);
    AggregateCell(kinds, xs + ys, name, sig);
    AllValuesConcat(xs, ys, name, sig);
    ToProtoLists(b, name, sig);
    MergeSetsCell(kinds, a.sets, ToProto(b).metrics, name, sig);
    ToProtoOperation(b);
    MergeIs(kinds, a, ToProto(b));
    if ws == [] {
      assert vs + ws == vs;
      NothingFolded(k, None);
      NothingFolded(k, CellOf(a.sets, name, sig));
      if vs != [] {
        FoldSome(k, vs);
      }
    } else if vs == [] {
      assert vs + ws == ws;
      NothingFolded(k, None);
      FoldSome(k, ws);
      OneFolded(k, None, FoldValues(k, None, ws).value);
    } else {
      MergeInParts(k, vs, ws);
    }
  }

  lemma MergeIs(kinds: Kinds, a: Aggregate, op: Operation)
    ensures Merge(kinds, a, op) == Aggregate(Combined(a.operation, op), MergeSets(kinds, a.sets, op.metrics))
  {
    hide MergeSets, Earlier, Later;
  }

  lemma ToProtoOperation(a: Aggregate)
    ensures var op := ToProto(a);
            op.start == a.operation.start && op.end == a.operation.end && op.logs == a.operation.logs
  {
  }

  // ----- What is sent -----

  /** The kind of a metric, which is delta unless it is listed otherwise. */
  predicate IsDelta(kinds: Kinds, name: string) { name in kinds ==> kinds[name] == Delta }

  lemma KindIs(kinds: Kinds, name: string)
    ensures KindOf(kinds, name) == Delta <==> IsDelta(kinds, name)
  {
  }

  /** What a metric value should be after the values `vs`. */
  ghost predicate IsTotal(r: MetricValue, delta: bool, vs: seq<MetricValue>) {
    if delta then Summable(vs) ==> IsDeltaOf(r, vs)
    else exists i: nat :: i < |vs| && IsLastLatest(vs, i) && r == vs[i]
  }

  /**
   * What the operations `ops` should be sent as: one operation like the first, with the earliest start and the latest
   * end, all log entries, and under each metric name and signature one value, the sum of the delta values, or the last
   * of the others that end latest.
   */
  ghost predicate SumsUp(op: Operation, kinds: Kinds, ops: seq<Operation>) {
    && ops != [] && Likewise(op, ops[0])
    && IsEarliest(op.start, OpStarts(ops)) && IsLatest(op.end, OpEnds(ops)) && op.logs == LogsOf(ops)
    && forall name, sig :: Totalled(ValuesFor(op.metrics, name, sig), kinds, name, AllValues(ops, name, sig))
  }

  predicate Likewise(a: Operation, b: Operation) {
    && a.id == b.id && a.name == b.name && a.consumer == b.consumer && a.labels == b.labels
    && a.importance == b.importance
  }

  ghost predicate Totalled(rs: seq<MetricValue>, kinds: Kinds, name: string, vs: seq<MetricValue>) {
    if vs == [] then rs == [] else |rs| == 1 && IsTotal(rs[0], IsDelta(kinds, name), vs)
  }

  lemma FoldIsTotal(kinds: Kinds, name: string, vs: seq<MetricValue>)
    requires vs != []
    ensures var r := FoldValues(KindOf(kinds, name), None, vs); r.Some? && IsTotal(r.value, IsDelta(kinds, name), vs)
  {
    hide *;
    var k := KindOf(kinds, name);
    KindIs(kinds, name);
    FoldSome(k, vs);
    if k != Delta {
      var i := CumulativeIsLastLatest(k, vs);
      LastTotal(vs, i);
    } else if Summable(vs) {
      FoldIsDelta(vs);
      DeltaTotal(FoldValues(k, None, vs).value, vs);
    } else {
      AnyTotal(FoldValues(k, None, vs).value, vs);
    }
  }

  lemma LastTotal(vs: seq<MetricValue>, i: nat)
    requires IsLastLatest(vs, i)
    ensures i < |vs| && IsTotal(vs[i], false, vs)
  {
  }

  lemma DeltaTotal(r: MetricValue, vs: seq<MetricValue>)
    requires IsDeltaOf(r, vs)
    ensures IsTotal(r, true, vs)
  {
  }

  lemma AnyTotal(r: MetricValue, vs: seq<MetricValue>)
    requires !Summable(vs)
    ensures IsTotal(r, true, vs)
  {
  }

  lemma {:induction false} AggregateLikewise(kinds: Kinds, ops: seq<Operation>)
    requires ops != []
    ensures Likewise(AggregateOf(kinds, ops).operation, ops[0])
  {
    hide MergeSets, Earlier, Later;
    if |ops| > 1 {
      AggregateLikewise(kinds, ops[..|ops| - 1]);
    }
  }

  lemma ToProtoLikewise(a: Aggregate)
    ensures Likewise(ToProto(a), a.operation)
  {
  }

  /** What an aggregate is sent as is what its operations add up to. */
  lemma AggregateSumsUp(kinds: Kinds, ops: seq<Operation>)
    requires ops != []
    ensures SumsUp(ToProto(AggregateOf(kinds, ops)), kinds, ops)
  {
    var a := AggregateOf(kinds, ops);
    var op := ToProto(a);
    hide AggregateOf, ToProto, ValuesFor, AllValues, IsEarliest, IsLatest, OpStarts, OpEnds, LogsOf, IsTotal,
        FoldValues,
        KindOf, CellOf, Keyed;
    AggregateLikewise(kinds, ops);
    ToProtoLikewise(a);
    AggregateSpan(kinds, ops);
    AggregateLogs(kinds, ops);
    ToProtoOperation(a);
    forall name, sig
      ensures Totalled(ValuesFor(op.metrics, name, sig), kinds, name, AllValues(ops, name, sig))
    {
      AggregateCell(kinds, ops, name, sig);
      ToProtoLists(a, name, sig);
      var vs := AllValues(ops, name, sig);
      if vs == [] {
        NothingFolded(KindOf(kinds, name), None);
      } else {
        FoldIsTotal(kinds, name, vs);
      }
    }
  }

  /** A cumulative or gauge value of an aggregate is the last of those that end latest. */
  lemma AggregateLast(kinds: Kinds, ops: seq<Operation>, name: string, sig: string) returns (i: nat)
    requires ops != [] && name in kinds && kinds[name] != Delta && AllValues(ops, name, sig) != []
    ensures var vs := AllValues(ops, name, sig);
            IsLastLatest(vs, i) && CellOf(AggregateOf(kinds, ops).sets, name, sig) == Some(vs[i])
  {
    AggregateCell(kinds, ops, name, sig);
    i := CumulativeIsLastLatest(kinds[name], AllValues(ops, name, sig));
  }

  // ----- Sums that are conserved -----

  /** The int64 sum of an operation under a metric name and signature. */
  function OperationInts(op: Operation, name: string, sig: string): int { Ints(ValuesFor(op.metrics, name, sig)) }

  function CellInt(c: Option<MetricValue>): int { match c case Some(v) => IntOf(v) case None => 0 }

  predicate IntCell(c: Option<MetricValue>) { c.Some? ==> c.value.value.Int64Value? }

  lemma {:induction false} FoldAddsInts(c: Option<MetricValue>, vs: seq<MetricValue>)
    requires IntCell(c) && AllInts(vs)
    ensures IntCell(FoldValues(Delta, c, vs)) && CellInt(FoldValues(Delta, c, vs)) == CellInt(c) + Ints(vs)
  {
    if vs != [] {
      assert vs[|vs| - 1] in vs;
      FoldAddsInts(c, vs[..|vs| - 1]);
    }
  }

  ghost predicate IntAggregate(kinds: Kinds, a: Aggregate, name: string, sig: string) {
    Keyed(a.sets) && a.operation.metrics == [] && IsDelta(kinds, name) && IntCell(CellOf(a.sets, name, sig))
  }

  ghost predicate IntOperation(op: Operation, name: string, sig: string) { AllInts(ValuesFor(op.metrics, name, sig)) }

  lemma {:induction false} AllValuesInts(ops: seq<Operation>, name: string, sig: string)
    requires forall op <- ops :: IntOperation(op, name, sig)
    ensures AllInts(AllValues(ops, name, sig))
  {
    hide ValuesFor;
    if ops != [] {
      assert ops[|ops| - 1] in ops && forall op <- ops[..|ops| - 1] :: op in ops;
      AllValuesInts(ops[..|ops| - 1], name, sig);
    }
  }

  /** On int64 delta values an aggregate holds the sum. */
  lemma AggregateInts(kinds: Kinds, ops: seq<Operation>, name: string, sig: string)
    requires ops != [] && IsDelta(kinds, name) && forall op <- ops :: IntOperation(op, name, sig)
    ensures var a := AggregateOf(kinds, ops);
            IntAggregate(kinds, a, name, sig) && CellInt(CellOf(a.sets, name, sig)) == Ints(AllValues(ops, name, sig))
  {
    hide Keyed, CellOf, FoldValues, AllValues, AllInts, Ints, IntOperation;
    KindIs(kinds, name);
    AggregateCell(kinds, ops, name, sig);
    AllValuesInts(ops, name, sig);
    FoldAddsInts(None, AllValues(ops, name, sig));
  }

  lemma ToProtoInts(kinds: Kinds, a: Aggregate, name: string, sig: string)
    requires IntAggregate(kinds, a, name, sig)
    ensures OperationInts(ToProto(a), name, sig) == CellInt(CellOf(a.sets, name, sig))
  {
    hide Keyed, ToProto, CellOf, ValuesFor;
    ToProtoLists(a, name, sig);
    var c := CellOf(a.sets, name, sig);
    if c.Some? {
      SumsOfOne(c.value, NoBuckets);
    }
  }
}
