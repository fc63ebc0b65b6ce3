/**
 * The byte streams that are hashed into signatures. A digest is modelled as the stream itself, that is, as free of
 * collisions, so two signatures agree exactly when the streams do.
 */
module Signature {
  import opened Lists
  import opened Proto

  const NUL: char := '\0'

  // ----- Sorted keys: what iterating a std::map or std::set visits -----

  predicate Less(a: string, b: string) {
    b != [] && (a == [] || a[0] < b[0] || (a[0] == b[0] && Less(a[1..], b[1..])))
  }

  lemma {:induction false} LessTotal(a: string, b: string)
    ensures Less(a, b) || a == b || Less(b, a)
    ensures !(Less(a, b) && Less(b, a)) && !Less(a, a)
  {
    if a != [] && b != [] {
      LessTotal(a[1..], b[1..]);
      assert a == [a[0]] + a[1..] && b == [b[0]] + b[1..];
      if a == b {
        LessIrreflexive(a);
      }
    } else if a == b {
      LessIrreflexive(a);
    }
    LessIrreflexive(a);
  }

  lemma {:induction false} LessIrreflexive(a: string)
    ensures !Less(a, a)
  {
    if a != [] {
      LessIrreflexive(a[1..]);
    }
  }

  lemma {:induction false} LessTransitive(a: string, b: string, c: string)
    requires Less(a, b) && Less(b, c)
    ensures Less(a, c)
  {
    if a != [] && a[0] == b[0] == c[0] {
      LessTransitive(a[1..], b[1..], c[1..]);
    }
  }

  predicate IsLeast(m: string, s: set<string>) {
    m in s && forall x <- s :: x == m || Less(m, x)
  }

  lemma {:induction false} LeastExists(s: set<string>) returns (m: string)
    requires s != {}
    ensures IsLeast(m, s)
    decreases |s|
  {
    var x :| x in s;
    if s == {x} {
      m := x;
    } else {
      var n := LeastExists(s - {x});
      LessTotal(x, n);
      m := if Less(x, n) then x else n;
      forall y <- s ensures y == m || Less(m, y) {
        if y != x && y != n && m == x {
          LessTransitive(x, n, y);
        }
      }
    }
  }

  lemma LeastUnique(s: set<string>, m: string, n: string)
    requires IsLeast(m, s) && IsLeast(n, s)
    ensures m == n
  {
    LessTotal(m, n);
  }

  function Least(s: set<string>): (m: string)
    requires s != {}
    ensures IsLeast(m, s)
  {
    assert exists m :: m in s && IsLeast(m, s) by { var m := LeastExists(s); }
    assert forall m, n :: m in s && n in s && IsLeast(m, s) && IsLeast(n, s) ==> m == n by {
      forall m, n | m in s && n in s && IsLeast(m, s) && IsLeast(n, s) ensures m == n {
        LeastUnique(s, m, n);
      }
    }
    var m :| m in s && IsLeast(m, s);
    m
  }

  /** The elements of `s` in increasing order: what iterating a `std::set`, or a `std::map` with these keys, visits. */
  function Ordered(s: set<string>): (r: seq<string>)
    ensures |r| == |s| && Distinct(r) && (forall x :: x in r <==> x in s)
    decreases |s|
  {
    if s == {} then [] else [Least(s)] + Ordered(s - {Least(s)})
  }

  lemma {:induction false} OrderedIncreases(s: set<string>, i: nat, j: nat)
    requires i < j < |s|
    ensures Less(Ordered(s)[i], Ordered(s)[j])
    decreases |s|
  {
    hide *;
    var rest := Ordered(s - {Least(s)});
    OrderedFirst(s);
    if i == 0 {
      assert rest[j - 1] in rest;
      LeastBelow(s, rest[j - 1]);
    } else {
      OrderedIncreases(s - {Least(s)}, i - 1, j - 1);
    }
  }

  lemma OrderedFirst(s: set<string>)
    requires s != {}
    ensures Ordered(s) == [Least(s)] + Ordered(s - {Least(s)})
  {
  }

  lemma LeastBelow(s: set<string>, x: string)
    requires x in s && x != Least(s)
    ensures Less(Least(s), x)
  {
  }

  // ----- Streams -----

  predicate Plain(s: string) { NUL !in s }

  predicate AllPlain(fs: seq<string>) { forall f <- fs :: Plain(f) }

  /** Every field behind a delimiter. */
  function Tail(fs: seq<string>): string {
    if fs == [] then "" else [NUL] + fs[0] + Tail(fs[1..])
  }

  /** The first field, and every other field behind a delimiter. */
  function Join(fs: seq<string>): string
    requires fs != []
  {
    fs[0] + Tail(fs[1..])
  }

  lemma {:induction false} TailAppend(fs: seq<string>, gs: seq<string>)
    ensures Tail(fs + gs) == Tail(fs) + Tail(gs)
  {
    if fs == [] {
      assert fs + gs == gs;
    } else {
      TailAppend(fs[1..], gs);
      assert (fs + gs)[1..] == fs[1..] + gs;
      assert [NUL] + fs[0] + (Tail(fs[1..]) + Tail(gs)) == [NUL] + fs[0] + Tail(fs[1..]) + Tail(gs);
    }
  }

  /** A plain field ends where the delimiter, or the stream, does. */
  lemma {:induction false} FirstField(f: string, s: string, g: string, t: string)
    requires Plain(f) && Plain(g) && f + s == g + t
    requires (s == "" || s[0] == NUL) && (t == "" || t[0] == NUL)
    ensures f == g && s == t
  {
    if f == "" || g == "" {
      assert f == "" ==> f + s == s;
      assert g == "" ==> g + t == t;
    } else {
      assert (f + s)[0] == f[0] && (g + t)[0] == g[0];
      assert (f + s)[1..] == f[1..] + s && (g + t)[1..] == g[1..] + t;
      FirstField(f[1..], s, g[1..], t);
      assert f == [f[0]] + f[1..] && g == [g[0]] + g[1..];
    }
  }

  /** Streams of plain fields identify the fields. */
  lemma {:induction false} TailInjective(fs: seq<string>, gs: seq<string>)
    requires AllPlain(fs) && AllPlain(gs) && Tail(fs) == Tail(gs)
    ensures fs == gs
  {
    if fs == [] || gs == [] {
    } else {
      var s, t := Tail(fs[1..]), Tail(gs[1..]);
      assert Tail(fs)[1..] == fs[0] + s && Tail(gs)[1..] == gs[0] + t;
      assert Plain(fs[0]) && Plain(gs[0]);
      FirstField(fs[0], s, gs[0], t);
      assert AllPlain(fs[1..]) && AllPlain(gs[1..]);
      TailInjective(fs[1..], gs[1..]);
    }
  }

  lemma JoinInjective(fs: seq<string>, gs: seq<string>)
    requires fs != [] && gs != [] && AllPlain(fs) && AllPlain(gs) && Join(fs) == Join(gs)
    ensures fs == gs
  {
    assert Plain(fs[0]) && Plain(gs[0]) && AllPlain(fs[1..]) && AllPlain(gs[1..]);
    FirstField(fs[0], Tail(fs[1..]), gs[0], Tail(gs[1..]));
    TailInjective(fs[1..], gs[1..]);
  }

  // ----- Labels -----

  function PairsOf(labels: map<string, string>, ks: seq<string>): seq<string>
    requires forall k <- ks :: k in labels
  {
    if ks == [] then [] else [ks[0], labels[ks[0]]] + PairsOf(labels, ks[1..])
  }

  function LabelFields(labels: map<string, string>): seq<string> { PairsOf(labels, Ordered(labels.Keys)) }

  predicate PlainLabels(labels: map<string, string>) {
    forall k <- labels :: Plain(k) && Plain(labels[k])
  }

  lemma {:induction false} PairsPlain(labels: map<string, string>, ks: seq<string>)
    requires PlainLabels(labels) && forall k <- ks :: k in labels
    ensures AllPlain(PairsOf(labels, ks)) && |PairsOf(labels, ks)| == 2 * |ks|
  {
    if ks != [] {
      PairsPlain(labels, ks[1..]);
      assert ks[0] in labels;
    }
  }

  lemma {:induction false} PairsIdentify(a: map<string, string>, b: map<string, string>, ks: seq<string>,
                                         ls: seq<string>)
    requires (forall k <- ks :: k in a) && (forall k <- ls :: k in b)
    requires PairsOf(a, ks) == PairsOf(b, ls)
    ensures ks == ls && forall k <- ks :: a[k] == b[k]
  {
    if ks == [] || ls == [] {
    } else {
      var p, q := PairsOf(a, ks), PairsOf(b, ls);
      assert p[0] == ks[0] && p[1] == a[ks[0]] && q[0] == ls[0] && q[1] == b[ls[0]];
      assert p[2..] == PairsOf(a, ks[1..]) && q[2..] == PairsOf(b, ls[1..]);
      PairsIdentify(a, b, ks[1..], ls[1..]);
    }
  }

  lemma LabelFieldsIdentify(a: map<string, string>, b: map<string, string>)
    requires LabelFields(a) == LabelFields(b)
    ensures a == b
  {
    var ks, ls := Ordered(a.Keys), Ordered(b.Keys);
    hide Ordered, PairsOf;
    PairsIdentify(a, b, ks, ls);
    assert a.Keys == b.Keys by {
      assert forall k :: k in a.Keys <==> k in ks;
      assert forall k :: k in b.Keys <==> k in ls;
    }
  }

  // ----- Report operations and metric values -----

  function ReportSignature(op: Operation): string {
    Join([op.consumer, op.name] + LabelFields(op.labels))
  }

  lemma LabelsPlain(labels: map<string, string>)
    requires PlainLabels(labels)
    ensures AllPlain(LabelFields(labels)) && |LabelFields(labels)| == 2 * |labels|
  {
    hide PlainLabels;
    PairsPlain(labels, Ordered(labels.Keys));
  }

  function MetricSignature(v: MetricValue): string { Tail(LabelFields(v.labels)) }

  ghost predicate PlainOperation(op: Operation) { Plain(op.consumer) && Plain(op.name) && PlainLabels(op.labels) }

  /** Report operations with the same signature agree on consumer, name and labels, and conversely. */
  lemma ReportSignatureIdentifies(a: Operation, b: Operation)
    requires PlainOperation(a) && PlainOperation(b)
    ensures ReportSignature(a) == ReportSignature(b)
       <==> a.consumer == b.consumer && a.name == b.name && a.labels == b.labels
  {
    var fs, gs := [a.consumer, a.name] + LabelFields(a.labels), [b.consumer, b.name] + LabelFields(b.labels);
    LabelsPlain(a.labels);
    LabelsPlain(b.labels);
    hide LabelFields, Join, PlainLabels;
    if ReportSignature(a) == ReportSignature(b) {
      PlainConcat([a.consumer, a.name], LabelFields(a.labels));
      PlainConcat([b.consumer, b.name], LabelFields(b.labels));
      JoinInjective(fs, gs);
      assert fs[0] == a.consumer && fs[1] == a.name && gs[0] == b.consumer && gs[1] == b.name;
      assert fs[2..] == LabelFields(a.labels) && gs[2..] == LabelFields(b.labels);
      LabelFieldsIdentify(a.labels, b.labels);
    }
  }

  lemma MetricSignatureIdentifies(a: MetricValue, b: MetricValue)
    requires PlainLabels(a.labels) && PlainLabels(b.labels)
    ensures MetricSignature(a) == MetricSignature(b) <==> a.labels == b.labels
  {
    PairsPlain(a.labels, Ordered(a.labels.Keys));
    PairsPlain(b.labels, Ordered(b.labels.Keys));
    if MetricSignature(a) == MetricSignature(b) {
      TailInjective(LabelFields(a.labels), LabelFields(b.labels));
      LabelFieldsIdentify(a.labels, b.labels);
    }
  }

  // ----- Quota operations -----

  function MetricNames(metrics: seq<QuotaMetric>): set<string> { set m <- metrics :: m.name }

  function QuotaSignature(op: QuotaOperation): string {
    Join([op.methodName, op.consumer] + Ordered(MetricNames(op.metrics)))
  }

  ghost predicate PlainQuota(op: QuotaOperation) {
    Plain(op.methodName) && Plain(op.consumer) && forall m <- op.metrics :: Plain(m.name)
  }

  /** Quota operations with the same signature agree on method, consumer and set of metric names, and conversely. */
  lemma QuotaSignatureIdentifies(a: QuotaOperation, b: QuotaOperation)
    requires PlainQuota(a) && PlainQuota(b)
    ensures QuotaSignature(a) == QuotaSignature(b)
       <==> a.methodName == b.methodName && a.consumer == b.consumer && MetricNames(a.metrics) == MetricNames(b.metrics)
  {
    var m, n := Ordered(MetricNames(a.metrics)), Ordered(MetricNames(b.metrics));
    var fs, gs := [a.methodName, a.consumer] + m, [b.methodName, b.consumer] + n;
    if QuotaSignature(a) == QuotaSignature(b) {
      assert AllPlain(m) && AllPlain(n);
      JoinInjective(fs, gs);
      assert fs[0] == a.methodName && fs[1] == a.consumer && gs[0] == b.methodName && gs[1] == b.consumer;
      assert fs[2..] == m && gs[2..] == n;
      assert forall x :: x in MetricNames(a.metrics) <==> x in m;
      assert forall x :: x in MetricNames(b.metrics) <==> x in n;
    }
  }

  // ----- Check requests -----

  /** The labels of every value of a metric value set, one value after the other. */
  function ValueFields(values: seq<MetricValue>): seq<string> {
    if values == [] then [] else LabelFields(values[0].labels) + ValueFields(values[1..])
  }

  /** Metric value sets by name; of two with one name the later counts. */
  function SetsByName(sets: seq<MetricValueSet>): map<string, seq<MetricValue>> {
    if sets == [] then map[] else SetsByName(sets[..|sets| - 1])[sets[|sets| - 1].name := sets[|sets| - 1].values]
  }

  function SetFields(sets: map<string, seq<MetricValue>>, names: seq<string>): seq<string>
    requires forall n <- names :: n in sets
  {
    if names == [] then [] else [names[0]] + ValueFields(sets[names[0]]) + SetFields(sets, names[1..])
  }

  function CheckFields(op: Operation): (r: seq<string>)
    ensures |r| >= 4
  {
    var sets := SetsByName(op.metrics);
    [op.name, op.consumer, ""] + LabelFields(op.labels) + SetFields(sets, Ordered(sets.Keys)) + [""]
  }

  function CheckSignature(op: Operation): string { Join(CheckFields(op)) }

  ghost predicate PlainCheck(op: Operation) {
    && PlainOperation(op)
    && forall i :: 0 <= i < |op.metrics| ==>
         Plain(op.metrics[i].name) && forall v <- op.metrics[i].values :: PlainLabels(v.labels)
  }

  lemma {:induction false} ValuesPlain(values: seq<MetricValue>)
    requires forall v <- values :: PlainLabels(v.labels)
    ensures AllPlain(ValueFields(values))
  {
    if values != [] {
      PairsPlain(values[0].labels, Ordered(values[0].labels.Keys));
      ValuesPlain(values[1..]);
    }
  }

  ghost predicate PlainSets(sets: map<string, seq<MetricValue>>) {
    forall n <- sets :: Plain(n) && forall v <- sets[n] :: PlainLabels(v.labels)
  }

  lemma {:induction false} SetsByNamePlain(metrics: seq<MetricValueSet>)
    requires forall i :: 0 <= i < |metrics| ==>
               Plain(metrics[i].name) && forall v <- metrics[i].values :: PlainLabels(v.labels)
    ensures PlainSets(SetsByName(metrics))
  {
    if metrics != [] {
      SetsByNamePlain(metrics[..|metrics| - 1]);
    }
  }

  lemma {:induction false} SetsPlain(sets: map<string, seq<MetricValue>>, names: seq<string>)
    requires PlainSets(sets) && forall n <- names :: n in sets
    ensures AllPlain(SetFields(sets, names))
  {
    if names != [] {
      ValuesPlain(sets[names[0]]);
      SetsPlain(sets, names[1..]);
    }
  }

  function MetricFields(op: Operation): seq<string> {
    SetFields(SetsByName(op.metrics), Ordered(SetsByName(op.metrics).Keys))
  }

  lemma CheckFieldsPlain(op: Operation)
    requires PlainCheck(op)
    ensures AllPlain(CheckFields(op)) && |LabelFields(op.labels)| == 2 * |op.labels|
    ensures CheckFields(op) == [op.name, op.consumer, ""] + LabelFields(op.labels) + MetricFields(op) + [""]
  {
    var sets := SetsByName(op.metrics);
    PairsPlain(op.labels, Ordered(op.labels.Keys));
    SetsByNamePlain(op.metrics);
    SetsPlain(sets, Ordered(sets.Keys));
    hide LabelFields, SetFields, Ordered, PlainLabels;
    assert AllPlain([op.name, op.consumer, ""]) && AllPlain([""]);
    PlainConcat([op.name, op.consumer, ""], LabelFields(op.labels));
    PlainConcat([op.name, op.consumer, ""] + LabelFields(op.labels), MetricFields(op));
    PlainConcat([op.name, op.consumer, ""] + LabelFields(op.labels) + MetricFields(op), [""]);
  }

  lemma PlainConcat(fs: seq<string>, gs: seq<string>)
    requires AllPlain(fs) && AllPlain(gs)
    ensures AllPlain(fs + gs)
  {
  }

  lemma SplitFour<T>(h: seq<T>, l: seq<T>, m: seq<T>, g: seq<T>, k: seq<T>, n: seq<T>, t: seq<T>)
    requires |h| == |g| && |l| == |k| && h + l + m + t == g + k + n + t
    ensures h == g && l == k && m == n
  {
    var x, y := h + l + m + t, g + k + n + t;
    assert h == x[..|h|] == y[..|h|] == g;
    assert l == x[|h|..|h| + |l|] == y[|h|..|h| + |l|] == k;
    assert m == x[|h| + |l|..|x| - |t|] == y[|h| + |l|..|x| - |t|] == n;
  }

  /** For plain requests the stream is its fields. */
  lemma CheckSignatureIsFields(a: Operation, b: Operation)
    requires PlainCheck(a) && PlainCheck(b)
    ensures CheckSignature(a) == CheckSignature(b) <==> CheckFields(a) == CheckFields(b)
  {
    CheckFieldsPlain(a);
    CheckFieldsPlain(b);
    hide LabelFields, MetricFields, Join, AllPlain, PlainCheck, CheckFields;
    if CheckSignature(a) == CheckSignature(b) {
      JoinInjective(CheckFields(a), CheckFields(b));
    }
  }

  /** The labels of the values that have any; the others leave no trace in the stream. */
  function Labelled(values: seq<MetricValue>): seq<map<string, string>> {
    if values == [] then []
    else (if values[0].labels == map[] then [] else [values[0].labels]) + Labelled(values[1..])
  }

  /** What a check signature says of the metric value sets: the labels of their values, by metric name. */
  function MetricLabels(op: Operation): map<string, seq<map<string, string>>> {
    map n | n in SetsByName(op.metrics) :: Labelled(SetsByName(op.metrics)[n])
  }

  /** How many labels each of these has. */
  function Counts(ls: seq<map<string, string>>): seq<nat> {
    if ls == [] then [] else [|ls[0]|] + Counts(ls[1..])
  }

  function CountsByName(sets: map<string, seq<MetricValue>>, names: seq<string>): (r: seq<seq<nat>>)
    requires forall n <- names :: n in sets
    ensures |r| == |names|
  {
    if names == [] then [] else [Counts(Labelled(sets[names[0]]))] + CountsByName(sets, names[1..])
  }

  datatype Shape = Shape(labels: nat, metrics: seq<seq<nat>>)

  /** How many labels the operation has, and the values of each metric, in the order of the metric names. */
  function ShapeOf(op: Operation): Shape {
    var sets := SetsByName(op.metrics);
    Shape(|op.labels|, CountsByName(sets, Ordered(sets.Keys)))
  }

  lemma {:induction false} PairsLength(labels: map<string, string>, ks: seq<string>)
    requires forall k <- ks :: k in labels
    ensures |PairsOf(labels, ks)| == 2 * |ks|
  {
    if ks != [] {
      PairsLength(labels, ks[1..]);
    }
  }

  lemma LabelsLength(labels: map<string, string>)
    ensures |LabelFields(labels)| == 2 * |labels|
  {
    PairsLength(labels, Ordered(labels.Keys));
  }

  lemma SplitTwo<T>(a: seq<T>, s: seq<T>, b: seq<T>, t: seq<T>)
    requires a + s == b + t && |a| == |b|
    ensures a == b && s == t
  {
    assert a == (a + s)[..|a|] && b == (b + t)[..|b|] && s == (a + s)[|a|..] && t == (b + t)[|b|..];
  }

  lemma FirstValue(xs: seq<MetricValue>)
    requires xs != []
    ensures var l := xs[0].labels;
            && ValueFields(xs) == LabelFields(l) + ValueFields(xs[1..])
            && (l == map[] ==> Labelled(xs) == Labelled(xs[1..]) && ValueFields(xs) == ValueFields(xs[1..]))
            && (l != map[] ==> Labelled(xs) == [l] + Labelled(xs[1..])
                               && Counts(Labelled(xs)) == [|l|] + Counts(Labelled(xs[1..])))
  {
    LabelsLength(xs[0].labels);
    if xs[0].labels != map[] {
      assert Labelled(xs)[1..] == Labelled(xs[1..]);
    }
  }

  lemma NoValues()
    ensures Labelled([]) == [] && ValueFields([]) == [] && Counts([]) == []
  {
  }

  /** Two values with labels, at the head of what is left of the streams. */
  lemma HeadsIdentify(l: map<string, string>, m: map<string, string>, cs: seq<nat>, ds: seq<nat>, s: seq<string>,
                      t: seq<string>)
    requires [|l|] + cs == [|m|] + ds && LabelFields(l) + s == LabelFields(m) + t
    ensures l == m && cs == ds && s == t
  {
    hide LabelFields;
    SplitTwo([|l|], cs, [|m|], ds);
    assert [|l|][0] == [|m|][0];
    LabelsLength(l);
    LabelsLength(m);
    SplitTwo(LabelFields(l), s, LabelFields(m), t);
    LabelFieldsIdentify(l, m);
  }

  /** Values with the same fields and the same numbers of labels have the same labels. */
  lemma {:induction false} ValuesIdentify(xs: seq<MetricValue>, ys: seq<MetricValue>, s: seq<string>, t: seq<string>)
    requires Counts(Labelled(xs)) == Counts(Labelled(ys)) && ValueFields(xs) + s == ValueFields(ys) + t
    ensures Labelled(xs) == Labelled(ys) && s == t
    decreases |xs| + |ys|
  {
    hide *;
    NoValues();
    if xs != [] && xs[0].labels == map[] {
      FirstValue(xs);
      ValuesIdentify(xs[1..], ys, s, t);
    } else if ys != [] && ys[0].labels == map[] {
      FirstValue(ys);
      ValuesIdentify(xs, ys[1..], s, t);
    } else if xs == [] || ys == [] {
      if xs != [] {
        FirstValue(xs);
      }
      if ys != [] {
        FirstValue(ys);
      }
      assert [] + s == s && [] + t == t;
    } else {
      var l, m := xs[0].labels, ys[0].labels;
      FirstValue(xs);
      FirstValue(ys);
      Associate(LabelFields(l), ValueFields(xs[1..]), s);
      Associate(LabelFields(m), ValueFields(ys[1..]), t);
      HeadsIdentify(l, m, Counts(Labelled(xs[1..])), Counts(Labelled(ys[1..])), ValueFields(xs[1..]) + s,
          ValueFields(ys[1..]) + t);
      ValuesIdentify(xs[1..], ys[1..], s, t);
    }
  }

  lemma FirstSet(sets: map<string, seq<MetricValue>>, ns: seq<string>)
    requires ns != [] && forall n <- ns :: n in sets
    ensures SetFields(sets, ns) == [ns[0]] + (ValueFields(sets[ns[0]]) + SetFields(sets, ns[1..]))
    ensures CountsByName(sets, ns) == [Counts(Labelled(sets[ns[0]]))] + CountsByName(sets, ns[1..])
  {
    Associate([ns[0]], ValueFields(sets[ns[0]]), SetFields(sets, ns[1..]));
  }

  lemma HeadAndRest<T>(x: T, s: seq<T>, y: T, t: seq<T>)
    requires [x] + s == [y] + t
    ensures x == y && s == t
  {
    SplitTwo([x], s, [y], t);
    assert [x][0] == [y][0];
  }

  lemma {:induction false} SetsIdentify(a: map<string, seq<MetricValue>>, b: map<string, seq<MetricValue>>,
                                        ns: seq<string>, ms: seq<string>)
    requires (forall n <- ns :: n in a) && (forall n <- ms :: n in b)
    requires CountsByName(a, ns) == CountsByName(b, ms) && SetFields(a, ns) == SetFields(b, ms)
    ensures ns == ms && forall n <- ns :: Labelled(a[n]) == Labelled(b[n])
  {
    hide *;
    assert |ns| == |CountsByName(a, ns)| == |CountsByName(b, ms)| == |ms|;
    if ns != [] {
      var x, y := a[ns[0]], b[ms[0]];
      var s, t := SetFields(a, ns[1..]), SetFields(b, ms[1..]);
      FirstSet(a, ns);
      FirstSet(b, ms);
      HeadAndRest(ns[0], ValueFields(x) + s, ms[0], ValueFields(y) + t);
      HeadAndRest(Counts(Labelled(x)), CountsByName(a, ns[1..]), Counts(Labelled(y)), CountsByName(b, ms[1..]));
      ValuesIdentify(x, y, s, t);
      SetsIdentify(a, b, ns[1..], ms[1..]);
      assert ns == [ns[0]] + ns[1..] && ms == [ms[0]] + ms[1..];
    }
  }

  lemma {:induction false} SameLabelsSameFields(xs: seq<MetricValue>, ys: seq<MetricValue>)
    requires Labelled(xs) == Labelled(ys)
    ensures ValueFields(xs) == ValueFields(ys)
    decreases |xs| + |ys|
  {
    if xs != [] && xs[0].labels == map[] {
      FirstValue(xs);
      SameLabelsSameFields(xs[1..], ys);
    } else if ys != [] && ys[0].labels == map[] {
      FirstValue(ys);
      SameLabelsSameFields(xs, ys[1..]);
    } else if xs != [] && ys != [] {
      hide LabelFields, ValueFields, Labelled, Counts;
      FirstValue(xs);
      FirstValue(ys);
      HeadAndRest(xs[0].labels, Labelled(xs[1..]), ys[0].labels, Labelled(ys[1..]));
      SameLabelsSameFields(xs[1..], ys[1..]);
    } else {
      hide LabelFields;
    }
  }

  lemma {:induction false} SameSetFields(a: map<string, seq<MetricValue>>, b: map<string, seq<MetricValue>>,
                                         ns: seq<string>)
    requires (forall n <- ns :: n in a && n in b && Labelled(a[n]) == Labelled(b[n]))
    ensures SetFields(a, ns) == SetFields(b, ns) && CountsByName(a, ns) == CountsByName(b, ns)
  {
    hide ValueFields, Labelled, Counts;
    if ns != [] {
      SameLabelsSameFields(a[ns[0]], b[ns[0]]);
      SameSetFields(a, b, ns[1..]);
    }
  }

  /** Metric labels are determined by the fields and the shape, and determine them. */
  lemma MetricsIdentify(a: Operation, b: Operation)
    ensures MetricFields(a) == MetricFields(b) && ShapeOf(a).metrics == ShapeOf(b).metrics
       <==> MetricLabels(a) == MetricLabels(b)
  {
    var x, y := SetsByName(a.metrics), SetsByName(b.metrics);
    var ns, ms := Ordered(x.Keys), Ordered(y.Keys);
    hide *;
    MetricsAre(a);
    MetricsAre(b);
    if MetricFields(a) == MetricFields(b) && ShapeOf(a).metrics == ShapeOf(b).metrics {
      SetsIdentify(x, y, ns, ms);
      assert MetricLabels(a) == MetricLabels(b);
    }
    if MetricLabels(a) == MetricLabels(b) {
      assert forall n <- ns :: Labelled(x[n]) == MetricLabels(a)[n] == Labelled(y[n]);
      assert x.Keys == y.Keys;
      SameSetFields(x, y, ns);
    }
  }

  lemma MetricsAre(a: Operation)
    ensures var x := SetsByName(a.metrics);
            var ns := Ordered(x.Keys);
            && (forall n :: n in ns <==> n in x) && MetricLabels(a).Keys == x.Keys
            && (forall n <- x :: MetricLabels(a)[n] == Labelled(x[n]))
            && MetricFields(a) == SetFields(x, ns) && ShapeOf(a).metrics == CountsByName(x, ns)
  {
    hide SetsByName, SetFields, Labelled, CountsByName, Ordered;
  }

  /**
   * Check requests have the same signature and the same shape if and only if they agree on name, consumer, labels, and
   * the labels of the values of each metric. With different shapes they may differ and yet have the same signature
   * (`CheckSignatureCollides`).
   */
  lemma CheckSignatureIdentifies(a: Operation, b: Operation)
    requires PlainCheck(a) && PlainCheck(b)
    ensures CheckSignature(a) == CheckSignature(b) && ShapeOf(a) == ShapeOf(b)
       <==> a.name == b.name && a.consumer == b.consumer && a.labels == b.labels && MetricLabels(a) == MetricLabels(b)
  {
    CheckSignatureIsFields(a, b);
    CheckFieldsPlain(a);
    CheckFieldsPlain(b);
    MetricsIdentify(a, b);
    ShapeLabels(a);
    ShapeLabels(b);
    hide LabelFields, MetricFields, Join, AllPlain, PlainCheck, CheckFields, ShapeOf, MetricLabels, CheckSignature;
    if CheckFields(a) == CheckFields(b) && ShapeOf(a) == ShapeOf(b) {
      var h, g := [a.name, a.consumer, ""], [b.name, b.consumer, ""];
      SplitFour(h, LabelFields(a.labels), MetricFields(a), g, LabelFields(b.labels), MetricFields(b), [""]);
      assert h[0] == g[0] && h[1] == g[1];
      LabelFieldsIdentify(a.labels, b.labels);
    }
  }

  lemma ShapeLabels(a: Operation)
    ensures ShapeOf(a).labels == |a.labels|
  {
  }

  /** No metric value has labels. */
  ghost predicate Unlabelled(op: Operation) { forall n <- MetricLabels(op) :: MetricLabels(op)[n] == [] }

  lemma {:induction false} UnlabelledFields(sets: map<string, seq<MetricValue>>, names: seq<string>)
    requires forall n <- names :: n in sets && Labelled(sets[n]) == []
    ensures SetFields(sets, names) == names
  {
    if names != [] {
      SameLabelsSameFields(sets[names[0]], []);
      UnlabelledFields(sets, names[1..]);
    }
  }

  /** Without labelled metric values it is enough to have equally many labels. */
  lemma UnlabelledCheckIdentifies(a: Operation, b: Operation)
    requires PlainCheck(a) && PlainCheck(b) && Unlabelled(a) && Unlabelled(b) && |a.labels| == |b.labels|
    ensures CheckSignature(a) == CheckSignature(b)
       <==> a.name == b.name && a.consumer == b.consumer && a.labels == b.labels && MetricLabels(a) == MetricLabels(b)
  {
    UnlabelledNames(a);
    UnlabelledNames(b);
    CheckSignatureIdentifies(a, b);
    CheckSignatureIsFields(a, b);
    CheckFieldsPlain(a);
    CheckFieldsPlain(b);
    hide LabelFields, MetricFields, Join, AllPlain, PlainCheck, CheckFields, ShapeOf, MetricLabels, CheckSignature,
        Unlabelled;
    if CheckFields(a) == CheckFields(b) {
      var h, g := [a.name, a.consumer, ""], [b.name, b.consumer, ""];
      SplitFour(h, LabelFields(a.labels), MetricFields(a), g, LabelFields(b.labels), MetricFields(b), [""]);
      assert h[0] == g[0] && h[1] == g[1];
      LabelFieldsIdentify(a.labels, b.labels);
      SameNames(a, b);
    }
  }

  lemma UnlabelledNames(a: Operation)
    requires Unlabelled(a)
    ensures MetricFields(a) == Ordered(MetricLabels(a).Keys)
  {
    var sets := SetsByName(a.metrics);
    hide Ordered, SetsByName, SetFields, Labelled;
    assert MetricLabels(a).Keys == sets.Keys;
    assert forall n <- sets :: MetricLabels(a)[n] == Labelled(sets[n]);
    UnlabelledFields(sets, Ordered(sets.Keys));
  }

  lemma SameNames(a: Operation, b: Operation)
    requires Unlabelled(a) && Unlabelled(b) && Ordered(MetricLabels(a).Keys) == Ordered(MetricLabels(b).Keys)
    ensures MetricLabels(a) == MetricLabels(b)
  {
    hide MetricLabels, Ordered;
    var m, n := MetricLabels(a), MetricLabels(b);
    assert forall x :: x in m.Keys <==> x in Ordered(m.Keys);
    assert forall x :: x in n.Keys <==> x in Ordered(n.Keys);
  }

  const LABELLED := Operation("", "n", "c", None, None, map["a" := "b"], [], [], Low)
  const METERED := Operation("", "n", "c", None, None, map[], [MetricValueSet("a", []), MetricValueSet("b", [])], [],
      Low)

  lemma LabelledFields()
    ensures CheckFields(LABELLED) == ["n", "c", "", "a", "b", ""]
  {
    var one := map["a" := "b"];
    OrderedOne("a");
    assert one.Keys == {"a"};
    assert PairsOf(one, ["a"]) == ["a", "b"] + PairsOf(one, ["a"][1..]);
    assert LabelFields(one) == ["a", "b"];
    assert SetsByName([]).Keys == {};
  }

  lemma MeteredFields()
    ensures CheckFields(METERED) == ["n", "c", "", "a", "b", ""]
  {
    OrderedTwo("a", "b");
    MeteredSets();
    TwoSets(SetsByName(METERED.metrics));
    hide SetsByName, SetFields, Ordered;
    var none: map<string, string> := map[];
    assert none.Keys == {} && LabelFields(none) == [] by {
      NoLabels();
    }
  }

  lemma MeteredSets()
    ensures SetsByName(METERED.metrics) == map["a" := [], "b" := []] && SetsByName(METERED.metrics).Keys == {"a", "b"}
  {
    assert METERED.metrics[..1] == [MetricValueSet("a", [])] && METERED.metrics[..1][..0] == [];
    assert SetsByName([MetricValueSet("a", [])]) == map["a" := []];
  }

  lemma TwoSets(sets: map<string, seq<MetricValue>>)
    requires sets == map["a" := [], "b" := []]
    ensures SetFields(sets, ["a", "b"]) == ["a", "b"]
  {
    assert SetFields(sets, ["b"]) == ["b"] + ValueFields([]) + SetFields(sets, []);
    assert ["a", "b"][1..] == ["b"];
    assert SetFields(sets, ["a", "b"]) == ["a"] + ValueFields([]) + SetFields(sets, ["b"]);
  }

  lemma NoLabels()
    ensures var none: map<string, string> := map[]; none.Keys == {} && LabelFields(none) == []
  {
  }

  const VALUED := Operation("", "n", "c", None, None, map[], [MetricValueSet("a", [LABELLED_VALUE])], [], Low)
  const LABELLED_VALUE := MetricValue(map["b" := "c"], None, None, NoValue)
  const THREE_METRICS := Operation(
    "", "n", "c", None, None, map[], [MetricValueSet("a", []), MetricValueSet("b", []), MetricValueSet("c", [])], [],
        Low)

  lemma ValuedFields()
    ensures CheckFields(VALUED) == ["n", "c", "", "a", "b", "c", ""] && "c" !in MetricLabels(VALUED)
  {
    var sets := SetsByName(VALUED.metrics);
    NoLabels();
    OrderedOne("a");
    ValuedSets();
    hide SetsByName, Ordered, LabelFields, SetFields;
    ValuedSetFields(sets);
  }

  lemma ValuedSets()
    ensures SetsByName(VALUED.metrics) == map["a" := [LABELLED_VALUE]] && SetsByName(VALUED.metrics).Keys == {"a"}
  {
    assert VALUED.metrics[..0] == [];
  }

  lemma ValuedSetFields(sets: map<string, seq<MetricValue>>)
    requires sets == map["a" := [LABELLED_VALUE]]
    ensures SetFields(sets, ["a"]) == ["a", "b", "c"]
  {
    var one := map["b" := "c"];
    OrderedOne("b");
    assert one.Keys == {"b"} && PairsOf(one, ["b"]) == ["b", "c"] + PairsOf(one, ["b"][1..]);
    hide Ordered, PairsOf;
    assert ValueFields([LABELLED_VALUE]) == ["b", "c"] + ValueFields([]);
    assert SetFields(sets, ["a"]) == ["a"] + ["b", "c"] + SetFields(sets, []);
  }

  lemma ThreeMetricsFields()
    ensures CheckFields(THREE_METRICS) == ["n", "c", "", "a", "b", "c", ""] && "c" in MetricLabels(THREE_METRICS)
  {
    ThreeSets();
    ThreeOrdered();
    NoLabels();
    hide SetsByName, SetFields, Ordered, LabelFields, Labelled;
    ThreeSetFields(SetsByName(THREE_METRICS.metrics));
  }

  lemma ThreeOrdered()
    ensures Ordered({"a", "b", "c"}) == ["a", "b", "c"]
  {
    OrderedThree("a", "b", "c");
  }

  lemma ThreeSets()
    ensures SetsByName(THREE_METRICS.metrics) == map["a" := [], "b" := [], "c" := []]
    ensures SetsByName(THREE_METRICS.metrics).Keys == {"a", "b", "c"}
  {
    MeteredSets();
    assert THREE_METRICS.metrics[..2] == METERED.metrics;
  }

  lemma ThreeSetFields(sets: map<string, seq<MetricValue>>)
    requires sets == map["a" := [], "b" := [], "c" := []]
    ensures SetFields(sets, ["a", "b", "c"]) == ["a", "b", "c"]
  {
    assert SetFields(sets, ["c"]) == ["c"] + ValueFields([]) + SetFields(sets, []);
    assert ["b", "c"][1..] == ["c"] && ["a", "b", "c"][1..] == ["b", "c"];
    assert SetFields(sets, ["b", "c"]) == ["b"] + ValueFields([]) + SetFields(sets, ["c"]);
    assert SetFields(sets, ["a", "b", "c"]) == ["a"] + ValueFields([]) + SetFields(sets, ["b", "c"]);
  }

  /**
   * One label pair and two metric names without values give the same stream, though the requests differ; and so do one
   * labelled value and three metric names, though both requests have equally many labels.
   */
  lemma CheckSignatureCollides()
    ensures PlainCheck(LABELLED) && PlainCheck(METERED) && LABELLED.labels != METERED.labels
    ensures CheckSignature(LABELLED) == CheckSignature(METERED)
    ensures PlainCheck(VALUED) && PlainCheck(THREE_METRICS) && VALUED.labels == THREE_METRICS.labels
    ensures MetricLabels(VALUED) != MetricLabels(THREE_METRICS)
        && CheckSignature(VALUED) == CheckSignature(THREE_METRICS)
  {
    CollidersPlain();
    LabelledFields();
    MeteredFields();
    ValuedFields();
    ThreeMetricsFields();
    assert "a" in LABELLED.labels;
    hide CheckFields, PlainCheck, Join, MetricLabels;
  }

  lemma CollidersPlain()
    ensures PlainCheck(LABELLED) && PlainCheck(METERED) && PlainCheck(VALUED) && PlainCheck(THREE_METRICS)
  {
  }

  lemma OrderedOne(x: string)
    ensures Ordered({x}) == [x]
  {
    assert {x} - {x} == {};
  }

  lemma OrderedTwo(x: string, y: string)
    requires Less(x, y)
    ensures Ordered({x, y}) == [x, y]
  {
    LessTotal(x, y);
    assert Least({x, y}) == x;
    assert {x, y} - {x} == {y};
    OrderedOne(y);
  }

  lemma OrderedThree(x: string, y: string, z: string)
    requires Less(x, y) && Less(y, z)
    ensures Ordered({x, y, z}) == [x, y, z]
  {
    LessTotal(x, y);
    LessTotal(y, z);
    LessTransitive(x, y, z);
    LessTotal(x, z);
    assert Least({x, y, z}) == x;
    assert {x, y, z} - {x} == {y, z};
    OrderedTwo(y, z);
  }
}
