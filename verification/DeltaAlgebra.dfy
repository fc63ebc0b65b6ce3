/**
 * What folding delta metric values computes: sums, time spans and pooled distributions; when their order makes no
 * difference, and when merging in parts makes none.
 */
module DeltaAlgebra {
  import opened Lists
  import opened Proto
  import opened Operations
  import Distributions

  // ----- Timestamps -----

  lemma BeforeTotal(a: Timestamp, b: Timestamp)
    ensures Before(a, b) || a == b || Before(b, a)
    ensures !(Before(a, b) && Before(b, a)) && !Before(a, a)
  {
  }

  const BILLION := 1_000_000_000

  /** Times with nanos below a second are in the order of the nanoseconds that they count. */
  lemma BeforeIsLess(a: Timestamp, b: Timestamp)
    requires 0 <= a.nanos < BILLION && 0 <= b.nanos < BILLION
    ensures Before(a, b) <==> a.seconds * BILLION + a.nanos < b.seconds * BILLION + b.nanos
  {
  }

  lemma EarlierLaws(a: Option<Timestamp>, b: Option<Timestamp>, c: Option<Timestamp>)
    ensures Earlier(a, b) == Earlier(b, a) && Earlier(a, Earlier(b, c)) == Earlier(Earlier(a, b), c)
        && Earlier(a, None) == a
    ensures Later(a, b) == Later(b, a) && Later(a, Later(b, c)) == Later(Later(a, b), c) && Later(a, None) == a
  {
  }

  type Times = seq<Option<Timestamp>>

  /** `r` is the earliest of the times that are present, and `None` if there is none. */
  ghost predicate IsEarliest(r: Option<Timestamp>, ts: Times) {
    && (r.None? <==> forall t <- ts :: t.None?)
    && (r.Some? ==> r in ts && forall t <- ts :: t.Some? ==> !Before(t.value, r.value))
  }

  ghost predicate IsLatest(r: Option<Timestamp>, ts: Times) {
    && (r.None? <==> forall t <- ts :: t.None?)
    && (r.Some? ==> r in ts && forall t <- ts :: t.Some? ==> !Before(r.value, t.value))
  }

  lemma BeforeTransitive()
    ensures forall a, b, c :: Before(a, b) && !Before(c, b) ==> Before(a, c)
    ensures forall a, b, c :: Before(b, a) && !Before(b, c) ==> Before(c, a)
  {
  }

  lemma EarliestJoin(r: Option<Timestamp>, ts: Times, s: Option<Timestamp>, us: Times)
    requires IsEarliest(r, ts) && IsEarliest(s, us)
    ensures IsEarliest(Earlier(s, r), ts + us)
  {
    BeforeTransitive();
    assert (forall t <- ts :: t in ts + us) && (forall u <- us :: u in ts + us);
    assert forall t <- ts + us :: t in ts || t in us;
  }

  lemma LatestJoin(r: Option<Timestamp>, ts: Times, s: Option<Timestamp>, us: Times)
    requires IsLatest(r, ts) && IsLatest(s, us)
    ensures IsLatest(Later(s, r), ts + us)
  {
    BeforeTransitive();
    assert (forall t <- ts :: t in ts + us) && (forall u <- us :: u in ts + us);
    assert forall t <- ts + us :: t in ts || t in us;
  }

  /** More times leave the earliest where it is if and only if none of them is earlier. */
  lemma EarliestStays(r: Option<Timestamp>, ts: Times, us: Times)
    requires IsEarliest(r, ts)
    ensures IsEarliest(r, ts + us) <==> forall u <- us :: u.Some? ==> r.Some? && !Before(u.value, r.value)
  {
    assert (forall t <- ts :: t in ts + us) && (forall u <- us :: u in ts + us);
    assert forall t <- ts + us :: t in ts || t in us;
  }

  lemma LatestStays(r: Option<Timestamp>, ts: Times, us: Times)
    requires IsLatest(r, ts)
    ensures IsLatest(r, ts + us) <==> forall u <- us :: u.Some? ==> r.Some? && !Before(r.value, u.value)
  {
    assert (forall t <- ts :: t in ts + us) && (forall u <- us :: u in ts + us);
    assert forall t <- ts + us :: t in ts || t in us;
  }

  lemma OneTime(t: Option<Timestamp>)
    ensures IsEarliest(t, [t]) && IsLatest(t, [t])
  {
  }

  /** The same times in another order. */
  lemma TimesPermute(r: Option<Timestamp>, s: Option<Timestamp>, ts: Times, us: Times)
    requires forall t :: t in ts <==> t in us
    ensures IsEarliest(r, ts) && IsEarliest(s, us) ==> r == s
    ensures IsLatest(r, ts) && IsLatest(s, us) ==> r == s
  {
    if r.Some? && s.Some? {
      BeforeTotal(r.value, s.value);
    }
  }

  function StartsOf(vs: seq<MetricValue>): (r: Times)
    ensures |r| == |vs| && forall i :: 0 <= i < |vs| ==> r[i] == vs[i].start
  {
    seq(|vs|, i requires 0 <= i < |vs| => vs[i].start)
  }

  function EndsOf(vs: seq<MetricValue>): (r: Times)
    ensures |r| == |vs| && forall i :: 0 <= i < |vs| ==> r[i] == vs[i].end
  {
    seq(|vs|, i requires 0 <= i < |vs| => vs[i].end)
  }

  // ----- Delta metrics -----

  function IntOf(v: MetricValue): int { if v.value.Int64Value? then v.value.i else 0 }

  function RealOf(v: MetricValue): real { if v.value.DoubleValue? then v.value.d else 0.0 }

  /** The sum of the int64 values, and of the double values. */
  function Ints(vs: seq<MetricValue>): int { if vs == [] then 0 else Ints(vs[..|vs| - 1]) + IntOf(vs[|vs| - 1]) }

  function Reals(vs: seq<MetricValue>): real { if vs == [] then 0.0 else Reals(vs[..|vs| - 1]) + RealOf(vs[|vs| - 1]) }

  predicate Bucketed(v: MetricValue, o: BucketOption) { v.value.DistributionValue? && v.value.dist.option == o }

  /** The samples of the distributions with a bucket option. */
  ghost function Pool(vs: seq<MetricValue>, o: BucketOption): seq<real> {
    if vs == [] then [] else Pool(vs[..|vs| - 1], o) + SamplesIn(vs[|vs| - 1], o)
  }

  ghost function SamplesIn(v: MetricValue, o: BucketOption): seq<real> {
    if Bucketed(v, o) then Distributions.SamplesOf(v.value.dist) else []
  }

  /** The values of one kind, in order. */
  function Like(vs: seq<MetricValue>, k: Value): seq<MetricValue> {
    if vs == [] then []
    else
      var init, v := Like(vs[..|vs| - 1], k), vs[|vs| - 1];
      if SameCase(k, v.value) then init + [v] else init
  }

  predicate AllInts(vs: seq<MetricValue>) { forall v <- vs :: v.value.Int64Value? }

  /** Two values that can be added: of one kind, and distributions with one bucket option. */
  predicate Alike(a: Value, b: Value) {
    SameCase(a, b) && (a.DistributionValue? ==> a.dist.option == b.dist.option)
  }

  /** The distributions summarize samples, and any two of them have the same buckets or buckets that do not match. */
  ghost predicate Tame(vs: seq<MetricValue>) {
    && (forall v <- vs :: v.value.DistributionValue? ==> Distributions.Exact(v.value.dist))
    && forall v <- vs, w <- vs :: v.value.DistributionValue? && w.value.DistributionValue? ==>
         || v.value.dist.option == w.value.dist.option
         || !Distributions.BucketsApproximatelyEqual(v.value.dist.option, w.value.dist.option)
  }

  /** What is asked of delta values: nothing, unless they add up to a distribution. */
  ghost predicate Summable(vs: seq<MetricValue>) { vs != [] && vs[0].value.DistributionValue? ==> Tame(vs) }

  /** The sum of the values that can be added to the first. */
  ghost predicate IsSum(r: Value, vs: seq<MetricValue>)
    requires vs != []
  {
    match vs[0].value
    case Int64Value(_) => r == Int64Value(Ints(vs))
    case DoubleValue(_) => r == DoubleValue(Reals(vs))
    case DistributionValue(d) =>
      && r.DistributionValue? && r.dist.option == d.option && Distributions.Summarizes(r.dist, Pool(vs, d.option))
      && (Pool(vs, d.option) == [] ==> r == vs[0].value)
    case _ => r == vs[0].value
  }

  /** What a delta metric should be after these values: those that are not of the kind of the first one are ignored. */
  ghost predicate IsDeltaOf(r: MetricValue, vs: seq<MetricValue>) {
    && vs != [] && r.labels == vs[0].labels && IsSum(r.value, vs)
    && IsEarliest(r.start, StartsOf(Like(vs, vs[0].value))) && IsLatest(r.end, EndsOf(Like(vs, vs[0].value)))
  }

  lemma LikeIs(vs: seq<MetricValue>, k: Value, v: MetricValue)
    ensures Like([], k) == []
    ensures Like(vs + [v], k) == if SameCase(k, v.value) then Like(vs, k) + [v] else Like(vs, k)
  {
    assert (vs + [v])[..|vs|] == vs;
  }

  lemma {:induction false} LikeMembers(vs: seq<MetricValue>, k: Value)
    ensures forall v :: v in Like(vs, k) <==> v in vs && SameCase(k, v.value)
  {
    if vs != [] {
      var init, v := vs[..|vs| - 1], vs[|vs| - 1];
      assert vs == init + [v];
      LikeMembers(init, k);
    }
  }

  lemma {:induction false} LikeConcat(vs: seq<MetricValue>, ws: seq<MetricValue>, k: Value)
    ensures Like(vs + ws, k) == Like(vs, k) + Like(ws, k)
  {
    if ws == [] {
      assert vs + ws == vs;
    } else {
      LikeConcat(vs, ws[..|ws| - 1], k);
      assert (vs + ws)[..|vs + ws| - 1] == vs + ws[..|ws| - 1];
    }
  }

  lemma {:induction false} LikeSame(vs: seq<MetricValue>, k: Value, l: Value)
    requires SameCase(k, l)
    ensures Like(vs, k) == Like(vs, l)
  {
    if vs != [] {
      LikeSame(vs[..|vs| - 1], k, l);
    }
  }

  lemma {:induction false} LikeAll(vs: seq<MetricValue>, k: Value)
    requires forall v <- vs :: SameCase(k, v.value)
    ensures Like(vs, k) == vs
  {
    if vs != [] {
      assert vs[|vs| - 1] in vs;
      LikeAll(vs[..|vs| - 1], k);
    }
  }

  lemma TimesConcat(vs: seq<MetricValue>, ws: seq<MetricValue>)
    ensures StartsOf(vs + ws) == StartsOf(vs) + StartsOf(ws) && EndsOf(vs + ws) == EndsOf(vs) + EndsOf(ws)
  {
  }

  lemma {:induction false} SumsConcat(vs: seq<MetricValue>, ws: seq<MetricValue>)
    ensures Ints(vs + ws) == Ints(vs) + Ints(ws) && Reals(vs + ws) == Reals(vs) + Reals(ws)
    ensures Ints([]) == 0 && Reals([]) == 0.0
  {
    if ws == [] {
      assert vs + ws == vs;
    } else {
      SumsConcat(vs, ws[..|ws| - 1]);
      assert (vs + ws)[..|vs + ws| - 1] == vs + ws[..|ws| - 1];
    }
  }

  lemma SumsOfOne(v: MetricValue, o: BucketOption)
    ensures Ints([v]) == IntOf(v) && Reals([v]) == RealOf(v) && Pool([v], o) == SamplesIn(v, o)
  {
    hide Distributions.SamplesOf, SamplesIn;
    assert [v][..0] == [];
    assert Pool([v], o) == Pool([], o) + SamplesIn(v, o);
  }

  lemma {:induction false} PoolConcat(vs: seq<MetricValue>, ws: seq<MetricValue>, o: BucketOption)
    ensures Pool(vs + ws, o) == Pool(vs, o) + Pool(ws, o)
  {
    hide SamplesIn;
    if ws == [] {
      assert vs + ws == vs;
    } else {
      var init, w := ws[..|ws| - 1], ws[|ws| - 1];
      PoolConcat(vs, init, o);
      assert (vs + ws)[..|vs + ws| - 1] == vs + init && (vs + ws)[|vs + ws| - 1] == w;
      Associate(Pool(vs, o), Pool(init, o), SamplesIn(w, o));
    }
  }

  /** No distribution with the bucket option has a sample. */
  predicate NoSamples(vs: seq<MetricValue>, o: BucketOption) {
    forall v <- vs :: Bucketed(v, o) ==> v.value.dist.count == 0
  }

  lemma {:induction false} PoolEmpty(vs: seq<MetricValue>, o: BucketOption)
    requires Tame(vs)
    ensures Pool(vs, o) == [] <==> NoSamples(vs, o)
  {
    if vs != [] {
      var init, v := vs[..|vs| - 1], vs[|vs| - 1];
      assert vs == init + [v] && v in vs && forall w <- init :: w in vs;
      hide Distributions.SamplesOf, Distributions.Exact, Distributions.BucketsApproximatelyEqual;
      PoolEmpty(init, o);
      assert NoSamples(vs, o) <==> NoSamples(init, o) && (Bucketed(v, o) ==> v.value.dist.count == 0);
    }
  }

  // ----- What one sequence of values adds to another -----

  /** The time span of `w` lies within that of `c`. */
  predicate Within(w: MetricValue, c: MetricValue) {
    && (w.start.Some? ==> c.start.Some? && !Before(w.start.value, c.start.value))
    && (w.end.Some? ==> c.end.Some? && !Before(c.end.value, w.end.value))
  }

  /** What can be added to `v` sums up to nothing. */
  predicate NoSum(v: Value, ws: seq<MetricValue>) {
    && (v.Int64Value? ==> Ints(ws) == 0)
    && (v.DoubleValue? ==> Reals(ws) == 0.0)
    && (v.DistributionValue? ==> NoSamples(ws, v.dist.option))
  }

  /** Each value of the kind of `c` lies within its span. */
  predicate NoSpan(c: MetricValue, ws: seq<MetricValue>) {
    forall w <- ws :: SameCase(c.value, w.value) ==> Within(w, c)
  }

  lemma SpanStays(c: MetricValue, vs: seq<MetricValue>, ws: seq<MetricValue>, k: Value)
    requires SameCase(k, c.value)
    requires IsEarliest(c.start, StartsOf(Like(vs, k))) && IsLatest(c.end, EndsOf(Like(vs, k)))
    ensures NoSpan(c, ws) <==>
            IsEarliest(c.start, StartsOf(Like(vs + ws, k))) && IsLatest(c.end, EndsOf(Like(vs + ws, k)))
  {
    var ls, ms := Like(vs, k), Like(ws, k);
    hide Like, IsEarliest, IsLatest, StartsOf, EndsOf, Before;
    LikeConcat(vs, ws, k);
    TimesConcat(ls, ms);
    EarliestStays(c.start, StartsOf(ls), StartsOf(ms));
    LatestStays(c.end, EndsOf(ls), EndsOf(ms));
    LikeMembers(ws, k);
    TimesOf(ms);
    assert NoSpan(c, ws) <==> forall m <- ms :: Within(m, c);
  }

  lemma TimesOf(vs: seq<MetricValue>)
    ensures forall t :: t in StartsOf(vs) <==> exists v <- vs :: v.start == t
    ensures forall t :: t in EndsOf(vs) <==> exists v <- vs :: v.end == t
  {
    forall i | 0 <= i < |vs| ensures vs[i].start in StartsOf(vs) && vs[i].end in EndsOf(vs) {
      assert StartsOf(vs)[i] == vs[i].start && EndsOf(vs)[i] == vs[i].end;
    }
  }

  lemma SpanJoins(c: MetricValue, vs: seq<MetricValue>, r: MetricValue, ws: seq<MetricValue>, k: Value, l: Value)
    requires SameCase(k, l)
    requires IsEarliest(c.start, StartsOf(Like(vs, k))) && IsLatest(c.end, EndsOf(Like(vs, k)))
    requires IsEarliest(r.start, StartsOf(Like(ws, l))) && IsLatest(r.end, EndsOf(Like(ws, l)))
    ensures IsEarliest(Earlier(r.start, c.start), StartsOf(Like(vs + ws, k)))
    ensures IsLatest(Later(r.end, c.end), EndsOf(Like(vs + ws, k)))
  {
    hide *;
    LikeSame(ws, k, l);
    LikeConcat(vs, ws, k);
    TimesConcat(Like(vs, k), Like(ws, k));
    EarliestJoin(c.start, StartsOf(Like(vs, k)), r.start, StartsOf(Like(ws, k)));
    LatestJoin(c.end, EndsOf(Like(vs, k)), r.end, EndsOf(Like(ws, k)));
  }

  lemma SumStays(c: Value, vs: seq<MetricValue>, ws: seq<MetricValue>)
    requires vs != [] && IsSum(c, vs) && Summable(vs + ws)
    ensures IsSum(c, vs + ws) <==> NoSum(c, ws)
  {
    assert (vs + ws)[0] == vs[0];
    SumsConcat(vs, ws);
    match vs[0].value
    case DistributionValue(d) =>
      hide Tame, NoSamples, Pool, Distributions.Summarizes;
      PoolConcat(vs, ws, d.option);
      TameParts(vs, ws);
      PoolEmpty(ws, d.option);
      SummaryCount(c.dist, Pool(vs, d.option));
      SummaryCount(c.dist, Pool(vs + ws, d.option));
      assert Pool(ws, d.option) == [] ==> Pool(vs + ws, d.option) == Pool(vs, d.option);
    case _ =>
  }

  lemma SummaryCount(d: Distribution, xs: seq<real>)
    ensures Distributions.Summarizes(d, xs) ==> d.count == |xs|
  {
  }

  lemma TameParts(vs: seq<MetricValue>, ws: seq<MetricValue>)
    requires Tame(vs + ws)
    ensures Tame(vs) && Tame(ws)
  {
    hide Distributions.Exact, Distributions.BucketsApproximatelyEqual;
    assert (forall v <- vs :: v in vs + ws) && (forall w <- ws :: w in vs + ws);
  }

  lemma SumJoins(c: Value, vs: seq<MetricValue>, r: Value, ws: seq<MetricValue>)
    requires vs != [] && ws != [] && IsSum(c, vs) && IsSum(r, ws) && Alike(vs[0].value, ws[0].value)
    requires Summable(vs + ws)
    ensures SameCase(c, r) && IsSum(AddValues(r, c), vs + ws)
  {
    assert (vs + ws)[0] == vs[0];
    SumsConcat(vs, ws);
    match vs[0].value
    case DistributionValue(d) =>
      assert vs[0] in vs + ws;
      assert Distributions.Usable(d.option);
      hide Tame, Pool, Distributions.Summarizes, Distributions.Merge, Distributions.Usable;
      var xs, ys := Pool(vs, d.option), Pool(ws, d.option);
      PoolConcat(vs, ws, d.option);
      Distributions.MergeSummarizes(r.dist, c.dist, xs, ys);
      Distributions.MergeOption(r.dist, c.dist);
      SummaryCount(r.dist, ys);
      if ys == [] {
        Distributions.MergeNothing(r.dist, c.dist);
      }
    case _ =>
  }

  // ----- Folding delta values -----

  lemma SumCase(r: Value, vs: seq<MetricValue>)
    requires vs != [] && IsSum(r, vs)
    ensures SameCase(vs[0].value, r) && (r.DistributionValue? ==> r.dist.option == vs[0].value.dist.option)
  {
    hide Distributions.Summarizes, Pool, Ints, Reals;
  }

  lemma CaseLaws(a: Value, b: Value, c: Value)
    ensures SameCase(a, a) && (SameCase(a, b) <==> SameCase(b, a))
    ensures SameCase(a, b) && SameCase(b, c) ==> SameCase(a, c)
  {
  }

  lemma MergesDelta(r: MetricValue, c: MetricValue)
    ensures MergeInto(Delta, r, Some(c)) == MergeDelta(r, c)
    ensures !SameCase(c.value, r.value) ==> MergeDelta(r, c) == c
    ensures SameCase(c.value, r.value) ==>
              MergeDelta(r, c) == c.(start := Earlier(r.start, c.start), end := Later(r.end, c.end),
                                     value := AddValues(r.value, c.value))
  {
    hide AddValues;
  }

  lemma DeltaParts(c: MetricValue, vs: seq<MetricValue>)
    requires IsDeltaOf(c, vs)
    ensures vs != [] && c.labels == vs[0].labels && IsSum(c.value, vs)
    ensures IsEarliest(c.start, StartsOf(Like(vs, vs[0].value))) && IsLatest(c.end, EndsOf(Like(vs, vs[0].value)))
  {
  }

  lemma DeltaIs(c: MetricValue, vs: seq<MetricValue>)
    requires vs != [] && c.labels == vs[0].labels
    ensures var k := vs[0].value;
            && (IsDeltaOf(c, vs) ==> IsSum(c.value, vs))
            && (IsSum(c.value, vs) ==>
                  (IsDeltaOf(c, vs)
                   <==> IsEarliest(c.start, StartsOf(Like(vs, k))) && IsLatest(c.end, EndsOf(Like(vs, k)))))
  {
  }

  /** Values that are not added, because they cannot be or because they sum up to nothing. */
  lemma DeltaStays(c: MetricValue, vs: seq<MetricValue>, ws: seq<MetricValue>)
    requires IsDeltaOf(c, vs) && Summable(vs + ws)
    ensures IsDeltaOf(c, vs + ws) <==> NoSpan(c, ws) && NoSum(c.value, ws)
  {
    hide *;
    DeltaParts(c, vs);
    assert (vs + ws)[0] == vs[0];
    SumCase(c.value, vs);
    SpanStays(c, vs, ws, vs[0].value);
    SumStays(c.value, vs, ws);
    DeltaIs(c, vs + ws);
  }

  lemma DeltaJoins(c: MetricValue, vs: seq<MetricValue>, r: MetricValue, ws: seq<MetricValue>)
    requires IsDeltaOf(c, vs) && IsDeltaOf(r, ws) && Summable(vs + ws) && vs != [] && ws != []
    requires SameCase(vs[0].value, ws[0].value)
    ensures IsDeltaOf(MergeDelta(r, c), vs + ws) <==> Alike(vs[0].value, ws[0].value) || NoSum(c.value, ws)
  {
    hide *;
    var k, l, m := vs[0].value, ws[0].value, MergeDelta(r, c);
    DeltaParts(c, vs);
    DeltaParts(r, ws);
    assert (vs + ws)[0] == vs[0];
    SumCase(c.value, vs);
    SumCase(r.value, ws);
    CaseLaws(k, c.value, k);
    CaseLaws(c.value, k, l);
    CaseLaws(c.value, l, r.value);
    MergesDelta(r, c);
    SpanJoins(c, vs, r, ws, k, l);
    DeltaIs(m, vs + ws);
    if Alike(k, l) {
      SumJoins(c.value, vs, r.value, ws);
    } else {
      SumStays(c.value, vs, ws);
      NotAdded(c.value, vs, r.value, ws);
    }
  }

  /** Distributions whose buckets do not match. */
  lemma NotAdded(c: Value, vs: seq<MetricValue>, r: Value, ws: seq<MetricValue>)
    requires vs != [] && ws != [] && Summable(vs + ws) && IsSum(c, vs) && IsSum(r, ws)
    requires SameCase(vs[0].value, ws[0].value) && !Alike(vs[0].value, ws[0].value)
    ensures SameCase(c, r) && AddValues(r, c) == c
  {
    assert (vs + ws)[0] == vs[0] && (vs + ws)[|vs|] == ws[0];
    SumCase(c, vs);
    SumCase(r, ws);
    hide Distributions.Exact, Distributions.BucketsApproximatelyEqual, IsSum, Distributions.Merge;
    Distributions.MergeApart(r.dist, c.dist);
  }

  /**
   * Folding delta values gives, over the values of the kind of the first one: their sum, the earliest start and the
   * latest end that are present; distributions are summed up with those that have the same buckets.
   */
  lemma {:induction false} FoldIsDelta(vs: seq<MetricValue>)
    requires vs != [] && Summable(vs)
    ensures var r := FoldValues(Delta, None, vs); r.Some? && IsDeltaOf(r.value, vs)
  {
    hide *;
    var init, v := vs[..|vs| - 1], vs[|vs| - 1];
    assert vs == init + [v];
    FoldLast(Delta, vs);
    if init == [] {
      assert vs == [v];
      OneDelta(v);
    } else {
      SummableInit(init, [v]);
      FoldIsDelta(init);
      DeltaStep(FoldValues(Delta, None, init).value, init, v);
    }
  }

  lemma SummableInit(vs: seq<MetricValue>, ws: seq<MetricValue>)
    requires vs != [] && Summable(vs + ws)
    ensures Summable(vs)
    ensures ws != [] && SameCase(vs[0].value, ws[0].value) ==> Summable(ws)
  {
    hide Tame;
    assert (vs + ws)[0] == vs[0];
    if vs[0].value.DistributionValue? {
      TameParts(vs, ws);
    }
  }

  lemma OneDelta(v: MetricValue)
    requires Summable([v])
    ensures IsDeltaOf(v, [v])
  {
    assert [v][0] == v && v in [v] && [] + [v] == [v];
    OneTime(v.start);
    OneTime(v.end);
    LikeIs([], v.value, v);
    CaseLaws(v.value, v.value, v.value);
    assert StartsOf([v]) == [v.start] && EndsOf([v]) == [v.end];
    hide IsEarliest, IsLatest, StartsOf, EndsOf, Like, Ints, Reals, Pool, Distributions.Summarizes;
    SumsOfOne(v, if v.value.DistributionValue? then v.value.dist.option else NoBuckets);
  }

  lemma DeltaStep(c: MetricValue, vs: seq<MetricValue>, v: MetricValue)
    requires IsDeltaOf(c, vs) && Summable(vs + [v])
    ensures IsDeltaOf(MergeInto(Delta, v, Some(c)), vs + [v])
  {
    hide *;
    DeltaParts(c, vs);
    SumCase(c.value, vs);
    CaseLaws(vs[0].value, c.value, v.value);
    CaseLaws(c.value, vs[0].value, v.value);
    MergesDelta(v, c);
    SummableInit(vs, [v]);
    if SameCase(vs[0].value, v.value) {
      OneDelta(v);
      DeltaJoins(c, vs, v, [v]);
      NothingLike(c, vs[0].value, v);
    } else {
      DeltaStays(c, vs, [v]);
      NothingLike(c, vs[0].value, v);
    }
  }

  /** A value that cannot be added to `c` adds nothing. */
  lemma NothingLike(c: MetricValue, k: Value, v: MetricValue)
    requires SameCase(k, c.value) && (c.value.DistributionValue? ==> c.value.dist.option == k.dist.option)
    ensures !Alike(k, v.value) ==> NoSum(c.value, [v])
    ensures !SameCase(k, v.value) ==> NoSum(c.value, [v]) && NoSpan(c, [v])
  {
    SumsOfOne(v, NoBuckets);
    hide Pool, Ints, Reals;
  }

  lemma OneSum(r: Value, s: Value, vs: seq<MetricValue>)
    requires vs != [] && IsSum(r, vs) && IsSum(s, vs)
    ensures r == s
  {
    hide Pool, Distributions.Summarizes;
    match vs[0].value
    case DistributionValue(d) =>
      if Pool(vs, d.option) != [] {
        Distributions.OneSummary(r.dist, s.dist, Pool(vs, d.option));
      }
    case _ =>
  }

  /** There is one such value. */
  lemma DeltaUnique(r: MetricValue, s: MetricValue, vs: seq<MetricValue>)
    requires IsDeltaOf(r, vs) && IsDeltaOf(s, vs)
    ensures r == s
  {
    hide IsEarliest, IsLatest, IsSum, Like;
    OneSum(r.value, s.value, vs);
    var ls := Like(vs, vs[0].value);
    TimesPermute(r.start, s.start, StartsOf(ls), StartsOf(ls));
    TimesPermute(r.end, s.end, EndsOf(ls), EndsOf(ls));
  }

  lemma {:induction false} FoldCase(vs: seq<MetricValue>)
    requires vs != []
    ensures var r := FoldValues(Delta, None, vs);
            r.Some? && SameCase(vs[0].value, r.value.value) && r.value.labels == vs[0].labels
  {
    hide *;
    FoldLast(Delta, vs);
    var init, v := vs[..|vs| - 1], vs[|vs| - 1];
    CaseLaws(v.value, v.value, v.value);
    if init != [] {
      FoldCase(init);
      var c := FoldValues(Delta, None, init).value;
      MergesDelta(v, c);
      if SameCase(c.value, v.value) {
        SumKeepsCase(v.value, c.value);
        CaseLaws(vs[0].value, c.value, AddValues(v.value, c.value));
      }
    } else {
      assert vs == [v];
    }
  }

  lemma SumKeepsCase(from: Value, to: Value)
    requires SameCase(to, from)
    ensures SameCase(to, AddValues(from, to))
  {
    hide Distributions.Merge;
  }

  lemma FoldLast(kind: MetricKind, vs: seq<MetricValue>)
    requires vs != []
    ensures FoldValues(kind, None, vs) == Some(MergeInto(kind, vs[|vs| - 1], FoldValues(kind, None, vs[..|vs| - 1])))
    ensures |vs| == 1 ==> FoldValues(kind, None, vs) == Some(vs[0])
  {
    hide MergeMetric;
  }

  // ----- The order of delta values -----

  lemma SumsRemove(vs: seq<MetricValue>, i: nat, o: BucketOption)
    requires i < |vs|
    ensures var rest := Without(vs, i);
            && Ints(vs) == Ints(rest) + IntOf(vs[i]) && Reals(vs) == Reals(rest) + RealOf(vs[i])
            && multiset(Pool(vs, o)) == multiset(Pool(rest, o)) + multiset(SamplesIn(vs[i], o))
  {
    hide *;
    var a, b, v := vs[..i], vs[i + 1..], vs[i];
    SplitAt(vs, i);
    SumsOfOne(v, o);
    SumsConcat(a + [v], b);
    SumsConcat(a, [v]);
    SumsConcat(a, b);
    PoolConcat(a + [v], b, o);
    PoolConcat(a, [v], o);
    PoolConcat(a, b, o);
  }

  lemma {:induction false} SumsPermute(vs: seq<MetricValue>, ws: seq<MetricValue>, o: BucketOption)
    requires multiset(vs) == multiset(ws)
    ensures Ints(vs) == Ints(ws) && Reals(vs) == Reals(ws) && multiset(Pool(vs, o)) == multiset(Pool(ws, o))
    decreases |vs|
  {
    hide *;
    Permuted(vs, ws);
    if vs == [] {
      assert ws == [];
    } else {
      var i := LastOf(vs, ws);
      SumsPermute(vs[..|vs| - 1], Without(ws, i), o);
      SumsRemove(ws, i, o);
      SumsRemove(vs, |vs| - 1, o);
      SplitAt(vs, |vs| - 1);
      assert vs[..|vs| - 1] + vs[|vs|..] == vs[..|vs| - 1];
    }
  }

  lemma SameTimes(vs: seq<MetricValue>, ws: seq<MetricValue>)
    requires forall v :: v in vs <==> v in ws
    ensures forall t :: t in StartsOf(vs) <==> t in StartsOf(ws)
    ensures forall t :: t in EndsOf(vs) <==> t in EndsOf(ws)
  {
    TimesOf(vs);
    TimesOf(ws);
  }

  /** The sum does not depend on which value came first: numbers, and distributions with some sample. */
  predicate OrderFree(vs: seq<MetricValue>)
    requires vs != []
  {
    match vs[0].value
    case Int64Value(_) => true
    case DoubleValue(_) => true
    case DistributionValue(d) => !NoSamples(vs, d.option)
    case _ => false
  }

  lemma SumPermutes(r: Value, vs: seq<MetricValue>, s: Value, ws: seq<MetricValue>)
    requires vs != [] && ws != [] && multiset(vs) == multiset(ws) && Summable(vs) && IsSum(r, vs) && IsSum(s, ws)
    requires Alike(vs[0].value, ws[0].value)
    ensures r == s <==> OrderFree(vs) || vs[0].value == ws[0].value
  {
    match vs[0].value
    case Int64Value(_) => SumsPermute(vs, ws, NoBuckets);
    case DoubleValue(_) => SumsPermute(vs, ws, NoBuckets);
    case DistributionValue(d) =>
      hide Tame, Pool, NoSamples, Distributions.Summarizes;
      SumsPermute(vs, ws, d.option);
      var xs, ys := Pool(vs, d.option), Pool(ws, d.option);
      Permuted(xs, ys);
      PoolEmpty(vs, d.option);
      if xs != [] {
        Distributions.SummaryPermutes(r.dist, xs, ys);
        Distributions.OneSummary(r.dist, s.dist, ys);
      }
    case _ =>
  }

  lemma TamePermutes(vs: seq<MetricValue>, ws: seq<MetricValue>)
    requires Tame(vs) && forall w <- ws :: w in vs
    ensures Tame(ws)
  {
    hide Distributions.Exact, Distributions.BucketsApproximatelyEqual;
  }

  lemma SpanPermutes(r: MetricValue, vs: seq<MetricValue>, s: MetricValue, ws: seq<MetricValue>)
    requires IsDeltaOf(r, vs) && IsDeltaOf(s, ws) && multiset(vs) == multiset(ws)
    requires SameCase(vs[0].value, ws[0].value)
    ensures r.start == s.start && r.end == s.end
  {
    hide *;
    DeltaParts(r, vs);
    DeltaParts(s, ws);
    var k := vs[0].value;
    LikeSame(ws, k, ws[0].value);
    Permuted(vs, ws);
    LikeMembers(vs, k);
    LikeMembers(ws, k);
    SameTimes(Like(vs, k), Like(ws, k));
    TimesPermute(r.start, s.start, StartsOf(Like(vs, k)), StartsOf(Like(ws, k)));
    TimesPermute(r.end, s.end, EndsOf(Like(vs, k)), EndsOf(Like(ws, k)));
  }

  /** What decides whether two orders of the same delta values come to the same. */
  predicate SameStart(vs: seq<MetricValue>, ws: seq<MetricValue>)
    requires vs != [] && ws != []
  {
    && vs[0].labels == ws[0].labels && Alike(vs[0].value, ws[0].value)
    && (OrderFree(vs) || vs[0].value == ws[0].value)
  }

  /**
   * Delta values of any kinds, in two orders, come to the same if and only if the first values can be added, and are
   * numbers, or distributions not all without samples, or else equal.
   */
  lemma DeltaOrderIndependent(vs: seq<MetricValue>, ws: seq<MetricValue>)
    requires vs != [] && Summable(vs) && multiset(vs) == multiset(ws)
    ensures ws != [] && (FoldValues(Delta, None, vs) == FoldValues(Delta, None, ws) <==> SameStart(vs, ws))
  {
    Permuted(vs, ws);
    hide FoldValues, IsDeltaOf, OrderFree, Tame;
    FoldCase(vs);
    FoldCase(ws);
    FoldIsDelta(vs);
    var r, s := FoldValues(Delta, None, vs).value, FoldValues(Delta, None, ws).value;
    CaseLaws(vs[0].value, r.value, ws[0].value);
    CaseLaws(vs[0].value, s.value, ws[0].value);
    CaseLaws(ws[0].value, s.value, vs[0].value);
    if SameCase(vs[0].value, ws[0].value) {
      if vs[0].value.DistributionValue? {
        TamePermutes(vs, ws);
      }
      FoldIsDelta(ws);
      SpanPermutes(r, vs, s, ws);
      DeltaParts(r, vs);
      DeltaParts(s, ws);
      hide IsSum;
      SumCase(r.value, vs);
      SumCase(s.value, ws);
      if Alike(vs[0].value, ws[0].value) {
        SumPermutes(r.value, vs, s.value, ws);
      }
    }
  }

  // ----- Merging delta values in parts -----

  /** Merging the merger of `ws` into `c` adds nothing that merging `ws` would add. */
  predicate AddsNothing(c: MetricValue, ws: seq<MetricValue>)
    requires ws != []
  {
    (SameCase(c.value, ws[0].value) || NoSpan(c, ws)) && NoSum(c.value, ws)
  }

  /**
   * Merging the merger of delta values `ws` into that of `vs` is merging them one by one if and only if the first
   * values of both can be added, or `ws` has nothing to add: its values of the kind of `vs[0]` do not widen the time
   * span and sum up to nothing.
   */
  lemma DeltaInParts(vs: seq<MetricValue>, ws: seq<MetricValue>)
    requires vs != [] && ws != [] && Summable(vs + ws)
    ensures var c, r := FoldValues(Delta, None, vs), FoldValues(Delta, None, ws);
            && c.Some? && r.Some?
            && (Some(MergeDelta(r.value, c.value)) == FoldValues(Delta, None, vs + ws)
                <==> Alike(vs[0].value, ws[0].value) || AddsNothing(c.value, ws))
  {
    hide *;
    FoldCase(vs);
    FoldCase(ws);
    SummableInit(vs, ws);
    FoldIsDelta(vs);
    FoldIsDelta(vs + ws);
    var c, r, all := FoldValues(Delta, None, vs).value, FoldValues(Delta, None, ws).value,
        FoldValues(Delta, None, vs + ws).value;
    var m := MergeDelta(r, c);
    CaseLaws(vs[0].value, c.value, ws[0].value);
    CaseLaws(c.value, vs[0].value, ws[0].value);
    CaseLaws(ws[0].value, r.value, c.value);
    CaseLaws(c.value, r.value, ws[0].value);
    MergesDelta(r, c);
    if SameCase(vs[0].value, ws[0].value) {
      FoldIsDelta(ws);
      DeltaJoins(c, vs, r, ws);
    } else {
      DeltaStays(c, vs, ws);
    }
    AddsIs(vs, c, ws);
    if IsDeltaOf(m, vs + ws) {
      DeltaUnique(m, all, vs + ws);
    }
  }

  lemma AddsIs(vs: seq<MetricValue>, c: MetricValue, ws: seq<MetricValue>)
    requires vs != [] && ws != [] && (SameCase(vs[0].value, ws[0].value) <==> SameCase(c.value, ws[0].value))
    ensures SameCase(vs[0].value, ws[0].value) ==> (AddsNothing(c, ws) <==> NoSum(c.value, ws))
    ensures !SameCase(vs[0].value, ws[0].value) ==>
              !Alike(vs[0].value, ws[0].value) && (AddsNothing(c, ws) <==> NoSpan(c, ws) && NoSum(c.value, ws))
  {
    hide NoSpan, NoSum;
  }

  /** Parts do matter: a double is ignored behind an int64, but keeps the next int64 out if it comes first. */
  lemma MixedKindsDiffer()
    ensures var n, d := MetricValue(map[], None, None, Int64Value(1)), MetricValue(map[], None, None, DoubleValue(2.0));
            && FoldValues(Delta, None, [n] + [d, n]) == Some(n.(value := Int64Value(2)))
            && FoldValues(Delta, None, [d, n]) == Some(d)
            && FoldValues(Delta, FoldValues(Delta, None, [n]), [d]) == Some(n)
  {
    var n, d := MetricValue(map[], None, None, Int64Value(1)), MetricValue(map[], None, None, DoubleValue(2.0));
    var all := [n] + [d, n];
    assert all[..2][..1] == [n] && all[..2] == [n, d] && all[2] == n;
    assert [n][..0] == [] && [d][..0] == [] && [d, n][..1] == [d];
    OneFolded(Delta, None, n);
    OneFolded(Delta, None, d);
    OneFolded(Delta, Some(n), d);
    assert FoldValues(Delta, None, [n, d]) == Some(n);
    assert FoldValues(Delta, None, all) == Some(MergeInto(Delta, n, Some(n)));
  }

  /** One sample in a distribution with one finite bucket of this width. */
  function Close(width: real): MetricValue {
    var d := Distribution(1, 0.5, 0.5, 0.5, 0.0, Linear(1, width, 0.0), [0, 1, 0]);
    MetricValue(map[], None, None, DistributionValue(d))
  }

  /**
   * Parts also matter where buckets match without being the same: the third distribution matches the second, which
   * matches the first, but the third does not match the first.
   */
  lemma CloseBucketsDiffer()
    ensures var a, b, c := Close(1.0), Close(1.00001), Close(1.00002);
            var r, all := FoldValues(Delta, None, [b, c]), FoldValues(Delta, None, [a] + [b, c]);
            && r.Some? && all.Some? && all.value.value.DistributionValue? && all.value.value.dist.count == 2
            && var m := MergeDelta(r.value, a); m.value.DistributionValue? && m.value.dist.count == 3
  {
    var a, b, c := Close(1.0), Close(1.00001), Close(1.00002);
    var all := [a] + [b, c];
    assert all[..2][..1] == [a] && all[..2] == [a, b] && all[2] == c && [b, c][..1] == [b];
    CloseMerged(1.0, 1.00001, 1.00002);
    hide MergeDelta, Close;
    FoldLast(Delta, [b]);
    FoldLast(Delta, [b, c]);
    FoldLast(Delta, [a]);
    FoldLast(Delta, [a, b]);
    FoldLast(Delta, all);
  }

  lemma CloseMerged(v: real, w: real, x: real)
    requires v == 1.0 && w == 1.00001 && x == 1.00002
    ensures var ab := MergeDelta(Close(w), Close(v));
            ab.value.DistributionValue? && ab.value.dist.count == 2 && MergeDelta(Close(x), ab) == ab
    ensures var m := MergeDelta(MergeDelta(Close(x), Close(w)), Close(v));
            m.value.DistributionValue? && m.value.dist.count == 3
  {
  }

  lemma OneFolded(kind: MetricKind, c: Option<MetricValue>, w: MetricValue)
    ensures FoldValues(kind, c, [w]) == Some(MergeInto(kind, w, c))
  {
    assert [w][..0] == [];
  }

  lemma FoldSome(kind: MetricKind, vs: seq<MetricValue>)
    requires vs != []
    ensures FoldValues(kind, None, vs).Some?
  {
  }
}
