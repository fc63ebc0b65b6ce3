/** Streaming statistics and histograms, over exact reals, and their merge. */
module Distributions {
  import opened Lists
  import opened Proto

  // ----- What a distribution should say about its samples -----

  function Total(xs: seq<real>): real { if xs == [] then 0.0 else Total(xs[..|xs| - 1]) + xs[|xs| - 1] }

  function Square(x: real): real { x * x }

  /** Sum of squared deviations from `c`. */
  function Spread(xs: seq<real>, c: real): real {
    if xs == [] then 0.0 else Spread(xs[..|xs| - 1], c) + Square(xs[|xs| - 1] - c)
  }

  function Min(x: real, y: real): real { if x < y then x else y }

  function Max(x: real, y: real): real { if x < y then y else x }

  function Smallest(xs: seq<real>): real
    requires xs != []
  {
    if |xs| == 1 then xs[0] else Min(xs[|xs| - 1], Smallest(xs[..|xs| - 1]))
  }

  function Largest(xs: seq<real>): real
    requires xs != []
  {
    if |xs| == 1 then xs[0] else Max(xs[|xs| - 1], Largest(xs[..|xs| - 1]))
  }

  function Mean(xs: seq<real>): real
    requires xs != []
  {
    Total(xs) / |xs| as real
  }

  function Power(b: real, n: nat): real { if n == 0 then 1.0 else Power(b, n - 1) * b }

  function LinearBounds(width: real, offset: real, n: nat): (r: seq<real>)
    ensures |r| == n && forall i :: 0 <= i < n ==> r[i] == offset + i as real * width
  {
    if n == 0 then [] else LinearBounds(width, offset, n - 1) + [offset + (n - 1) as real * width]
  }

  function ExponentialBounds(growth: real, scale: real, n: nat): (r: seq<real>)
    ensures |r| == n && forall i :: 0 <= i < n ==> r[i] == scale * Power(growth, i)
  {
    if n == 0 then [] else ExponentialBounds(growth, scale, n - 1) + [scale * Power(growth, n - 1)]
  }

  /** The values at which one bucket ends and the next begins. */
  function Bounds(o: BucketOption): seq<real> {
    match o
    case NoBuckets => []
    case Linear(n, width, offset) => if n < 0 then [] else LinearBounds(width, offset, n + 1)
    case Exponential(n, growth, scale) => if n < 0 then [] else ExponentialBounds(growth, scale, n + 1)
    case Explicit(bounds) => bounds
  }

  predicate Increasing(bs: seq<real>) { forall i, j :: 0 <= i < j < |bs| ==> bs[i] < bs[j] }

  predicate ValidOption(o: BucketOption) {
    match o
    case NoBuckets => false
    case Linear(n, width, _) => n > 0 && width > 0.0
    case Exponential(n, growth, scale) => n > 0 && growth > 1.0 && scale > 0.0
    case Explicit(bounds) => Increasing(bounds)
  }

  /** Bucket `i` lies between bounds `i - 1` and `i`; the first and the last are open. */
  predicate InBucket(bs: seq<real>, i: int, v: real) {
    0 <= i <= |bs| && (i > 0 ==> bs[i - 1] <= v) && (i < |bs| ==> v < bs[i])
  }

  function InBucketCount(bs: seq<real>, i: int, xs: seq<real>): nat {
    if xs == [] then 0 else InBucketCount(bs, i, xs[..|xs| - 1]) + if InBucket(bs, i, xs[|xs| - 1]) then 1 else 0
  }

  /** `d` is the exact summary of `xs`. */
  ghost predicate Summarizes(d: Distribution, xs: seq<real>) {
    && d.count == |xs|
    && (xs != [] ==>
          && d.mean == Mean(xs) && d.minimum == Smallest(xs) && d.maximum == Largest(xs)
          && d.squares == Spread(xs, Mean(xs)))
    && |d.buckets| == |Bounds(d.option)| + 1
    && forall i :: 0 <= i < |d.buckets| ==> d.buckets[i] == InBucketCount(Bounds(d.option), i, xs)
  }

  // ----- The operations -----

  function Zeros(n: nat): (r: seq<int>)
    ensures |r| == n && forall i :: 0 <= i < n ==> r[i] == 0
  {
    if n == 0 then [] else Zeros(n - 1) + [0]
  }

  function Fresh(o: BucketOption): Distribution { Distribution(0, 0.0, 0.0, 0.0, 0.0, o, Zeros(|Bounds(o)| + 1)) }

  function UpdateGeneralStatistics(v: real, d: Distribution): Distribution
    requires d.count >= 0
  {
    if d.count == 0 then d.(count := 1, maximum := v, minimum := v, mean := v, squares := 0.0)
    else
      var mean := (d.count as real * d.mean + v) / (d.count + 1) as real;
      d.(squares := d.squares + (v - d.mean) * (v - mean), count := d.count + 1,
         minimum := Min(v, d.minimum), maximum := Max(v, d.maximum), mean := mean)
  }

  function LinearIndex(n: int, width: real, offset: real, v: real): int
    requires width != 0.0
  {
    if v < offset then 0
    else if v >= offset + n as real * width then n + 1
    else 1 + ((v - offset) / width).Floor
  }

  /** How many of the leading bounds are not above `v`. */
  function Passed(bs: seq<real>, v: real): (i: nat)
    ensures i <= |bs|
  {
    if bs == [] || v < bs[0] then 0 else 1 + Passed(bs[1..], v)
  }

  function IndexOf(o: BucketOption, v: real): int
    requires ValidOption(o)
  {
    match o
    case Linear(n, width, offset) => LinearIndex(n, width, offset, v)
    case _ => Passed(Bounds(o), v)
  }

  /** A distribution that can take samples: it has bounds, if they are explicit, and a count for every bucket. */
  predicate Ready(d: Distribution) {
    Usable(d.option) && d.count >= 0 && |d.buckets| == |Bounds(d.option)| + 1
  }

  predicate Usable(o: BucketOption) { ValidOption(o) && (o.Explicit? ==> o.bounds != []) }

  function AddSample(d: Distribution, v: real): (r: (Code, Distribution))
    requires d.option.NoBuckets? || Ready(d)
    ensures r.1.option == d.option && |r.1.buckets| == |d.buckets|
    ensures Ready(d) ==> Ready(r.1) && r.1.count == d.count + 1
  {
    if d.option.NoBuckets? then (InvalidArgument, d)
    else
      var i := IndexOf(d.option, v);
      IndexContains(d.option, v);
      (Ok, UpdateGeneralStatistics(v, d).(buckets := d.buckets[i := d.buckets[i] + 1]))
  }

  function Abs(x: real): real { if x < 0.0 then -x else x }

  const EPSILON := 0.00001

  predicate IsCloseEnough(x: real, y: real) { Abs(x - y) <= EPSILON * Abs(x) }

  predicate BucketsApproximatelyEqual(a: BucketOption, b: BucketOption) {
    match a
    case NoBuckets => false
    case Linear(n, width, offset) =>
      b.Linear? && n == b.numFinite && IsCloseEnough(width, b.width) && IsCloseEnough(offset, b.offset)
    case Exponential(n, growth, scale) =>
      b.Exponential? && n == b.numFiniteExp && IsCloseEnough(growth, b.growth) && IsCloseEnough(scale, b.scale)
    case Explicit(bounds) =>
      b.Explicit? && |bounds| == |b.bounds| && forall i :: 0 <= i < |bounds| ==> IsCloseEnough(bounds[i], b.bounds[i])
  }

  function SumCounts(a: seq<int>, b: seq<int>): (r: seq<int>)
    requires |a| == |b|
    ensures |r| == |a| && forall i :: 0 <= i < |a| ==> r[i] == a[i] + b[i]
  {
    if a == [] then [] else SumCounts(a[..|a| - 1], b[..|b| - 1]) + [a[|a| - 1] + b[|b| - 1]]
  }

  /** What moving the mean of `n` samples from `a` to `w` adds to their squared deviations. */
  function Shift(n: real, w: real, a: real): real { n * (w - a) * (w - a) }

  function Merged(from: Distribution, to: Distribution): Distribution
    requires from.count > 0 && to.count > 0 && |from.buckets| == |to.buckets|
  {
    var n, m := to.count as real, from.count as real;
    var mean := (n * to.mean + m * from.mean) / (to.count + from.count) as real;
    to.(count := to.count + from.count, minimum := Min(from.minimum, to.minimum),
        maximum := Max(from.maximum, to.maximum),
        mean := mean,
        squares := to.squares + from.squares + Shift(n, mean, to.mean) + Shift(m, mean, from.mean),
        buckets := SumCounts(to.buckets, from.buckets))
  }

  function Merge(from: Distribution, to: Distribution): (Code, Distribution) {
    if !BucketsApproximatelyEqual(from.option, to.option) || |from.buckets| != |to.buckets| then (InvalidArgument, to)
    else if from.count <= 0 then (Ok, to)
    else if to.count <= 0 then (Ok, from)
    else (Ok, Merged(from, to))
  }

  lemma {:induction false} PassedContains(bs: seq<real>, v: real)
    requires Increasing(bs)
    ensures InBucket(bs, Passed(bs, v), v)
  {
    if bs != [] && v >= bs[0] {
      PassedContains(bs[1..], v);
    }
  }

  lemma FloorTimes(x: real, w: real)
    requires w > 0.0 && x >= 0.0
    ensures 0 <= (x / w).Floor && (x / w).Floor as real * w <= x < ((x / w).Floor + 1) as real * w
  {
    var q := x / w;
    assert q * w == x;
    assert q >= 0.0 && (q.Floor + 1) as real == q.Floor as real + 1.0;
    assert q.Floor as real <= q < (q.Floor + 1) as real;
    MulMono(q.Floor as real, q, w);
    MulMono(q, (q.Floor + 1) as real, w);
    assert x < (q.Floor + 1) as real * w;
  }

  lemma MulMono(a: real, b: real, w: real)
    requires w > 0.0
    ensures a <= b ==> a * w <= b * w
    ensures a < b ==> a * w < b * w
  {
    if a < b {
      assert (b - a) * w > 0.0;
    }
  }

  lemma MulCancel(a: int, b: int, w: real)
    requires w > 0.0 && a as real * w < b as real * w
    ensures a < b
  {
    if b <= a {
      MulMono(b as real, a as real, w);
    }
  }

  /** A sample falls into the bucket whose bounds contain it. */
  lemma IndexContains(o: BucketOption, v: real)
    requires ValidOption(o)
    ensures InBucket(Bounds(o), IndexOf(o, v), v)
  {
    match o
    case Linear(n, width, offset) => LinearContains(o, v);
    case Exponential(n, growth, scale) =>
      hide Increasing, InBucket, ExponentialBounds, Passed;
      ExponentialIncreases(growth, scale, n + 1);
      PassedContains(Bounds(o), v);
    case Explicit(bounds) => PassedContains(bounds, v);
  }

  lemma LinearContains(o: BucketOption, v: real)
    requires ValidOption(o) && o.Linear?
    ensures InBucket(Bounds(o), LinearIndex(o.numFinite, o.width, o.offset, v), v)
  {
    var n, width, offset, bs := o.numFinite, o.width, o.offset, Bounds(o);
    if v < offset {
      assert bs[0] == offset + 0.0 * width;
    } else if v >= offset + n as real * width {
      assert bs[n] == offset + n as real * width;
    } else {
      FloorTimes(v - offset, width);
      var f := ((v - offset) / width).Floor;
      MulCancel(f, n, width);
      assert bs[f] == offset + f as real * width && bs[f + 1] == offset + (f + 1) as real * width;
    }
  }

  lemma {:induction false} PowerGrows(b: real, i: nat, j: nat)
    requires b > 1.0 && i < j
    ensures 0.0 < Power(b, i) < Power(b, j)
    decreases j
  {
    PowerPositive(b, i);
    PowerPositive(b, j - 1);
    MulMono(1.0, b, Power(b, j - 1));
    if i < j - 1 {
      PowerGrows(b, i, j - 1);
    }
  }

  lemma {:induction false} PowerPositive(b: real, i: nat)
    requires b > 1.0
    ensures Power(b, i) > 0.0
  {
    if i > 0 {
      PowerPositive(b, i - 1);
    }
  }

  lemma ExponentialIncreases(growth: real, scale: real, n: nat)
    requires growth > 1.0 && scale > 0.0
    ensures Increasing(ExponentialBounds(growth, scale, n))
  {
    var bs := ExponentialBounds(growth, scale, n);
    hide ExponentialBounds, Power, Increasing;
    forall i, j | 0 <= i < j < n ensures bs[i] < bs[j] {
      BoundIs(growth, scale, n, i);
      BoundIs(growth, scale, n, j);
      PowerGrows(growth, i, j);
      MulMono(Power(growth, i), Power(growth, j), scale);
    }
    IncreasingIntro(bs);
  }

  lemma BoundIs(growth: real, scale: real, n: nat, i: nat)
    requires i < n
    ensures ExponentialBounds(growth, scale, n)[i] == Power(growth, i) * scale
  {
    hide Power;
    assert ExponentialBounds(growth, scale, n)[i] == scale * Power(growth, i);
    Commutes(scale, Power(growth, i));
  }

  lemma Commutes(a: real, b: real)
    ensures a * b == b * a
  {
  }

  lemma IncreasingIntro(bs: seq<real>)
    requires forall i, j :: 0 <= i < j < |bs| ==> bs[i] < bs[j]
    ensures Increasing(bs)
  {
  }

  // ----- Exact statistics -----

  /** The samples, one after the other. */
  function Fold(o: BucketOption, xs: seq<real>): (d: Distribution)
    requires Usable(o)
    ensures d.option == o && Ready(d)
  {
    if xs == [] then Fresh(o) else AddSample(Fold(o, xs[..|xs| - 1]), xs[|xs| - 1]).1
  }

  lemma {:induction false} SpreadExpands(xs: seq<real>, c: real)
    ensures Spread(xs, c) == Spread(xs, 0.0) - 2.0 * c * Total(xs) + |xs| as real * Square(c)
  {
    if xs != [] {
      var init, x := xs[..|xs| - 1], xs[|xs| - 1];
      SpreadExpands(init, c);
      hide Spread, Total;
      SpreadLast(xs, c);
      SpreadLast(xs, 0.0);
      ExpandOne(x, c, Total(init), |init| as real);
    }
  }

  lemma SpreadLast(xs: seq<real>, c: real)
    requires xs != []
    ensures var init, x := xs[..|xs| - 1], xs[|xs| - 1];
            Spread(xs, c) == Spread(init, c) + Square(x - c) && Total(xs) == Total(init) + x
  {
    hide Square;
  }

  lemma ExpandOne(x: real, c: real, t: real, n: real)
    ensures Square(x - c) == Square(x - 0.0) - 2.0 * c * x + Square(c)
    ensures 2.0 * c * (t + x) == 2.0 * c * t + 2.0 * c * x && (n + 1.0) * Square(c) == n * Square(c) + Square(c)
  {
  }

  lemma MeanTimes(xs: seq<real>)
    requires xs != []
    ensures Mean(xs) * |xs| as real == Total(xs)
  {
  }

  /** The sum of squared deviations from the mean, without the mean's own square. */
  lemma SpreadAtMean(xs: seq<real>)
    requires xs != []
    ensures Spread(xs, Mean(xs)) == Spread(xs, 0.0) - |xs| as real * Square(Mean(xs))
  {
    hide *;
    var q, r := |xs| as real * Square(Mean(xs)), 2.0 * Mean(xs) * Total(xs);
    MeanTimes(xs);
    AtMean(Mean(xs), |xs| as real, Total(xs), q, r);
    SpreadExpands(xs, Mean(xs));
  }

  lemma AtMean(m: real, n: real, t: real, q: real, r: real)
    requires m * n == t && q == n * Square(m) && r == 2.0 * m * t
    ensures r == q + q
  {
    assert m * (m * n) == n * (m * m);
  }

  /** The update of the squared deviations: `n m == t` and `(n + 1) w == t + v`. */
  lemma Welford(n: real, m: real, t: real, v: real, w: real)
    requires m * n == t && w * (n + 1.0) == t + v
    ensures Square(v) - (n + 1.0) * Square(w) == (v - m) * (v - w) - n * Square(m)
  {
    assert (n + 1.0) * Square(w) == w * (w * (n + 1.0)) == w * (m * n + v);
    assert m * (w * (n + 1.0)) == m * (m * n + v);
    assert m * (w * (n + 1.0)) == w * (m * n) + m * w;
  }

  lemma AddSampleExact(d: Distribution, xs: seq<real>, v: real)
    requires Ready(d) && Summarizes(d, xs)
    ensures Summarizes(AddSample(d, v).1, xs + [v])
  {
    var ys := xs + [v];
    assert ys[..|ys| - 1] == xs;
    StatisticsExact(d, xs, v);
    CountsExact(d, xs, v);
    hide Spread, Mean, Smallest, Largest, InBucketCount, IndexOf;
  }

  lemma StatisticsExact(d: Distribution, xs: seq<real>, v: real)
    requires d.count == |xs|
    requires xs != [] ==>
        d.mean == Mean(xs) && d.minimum == Smallest(xs) && d.maximum == Largest(xs)
        && d.squares == Spread(xs, Mean(xs))
    ensures var e, ys := UpdateGeneralStatistics(v, d), xs + [v];
            && e.count == |ys| && e.mean == Mean(ys) && e.minimum == Smallest(ys) && e.maximum == Largest(ys)
            && e.squares == Spread(ys, Mean(ys))
  {
    hide *;
    Appended(xs, v);
    UpdateIs(v, d);
    if xs != [] {
      MeanTimes(xs);
      MeanTimes(xs + [v]);
      SpreadAtMean(xs);
      SpreadAtMean(xs + [v]);
      Welford(|xs| as real, Mean(xs), Total(xs), v, Mean(xs + [v]));
    }
  }

  lemma Appended(xs: seq<real>, v: real)
    ensures var ys := xs + [v];
            && ys != [] && Total(ys) == Total(xs) + v && Spread(ys, 0.0) == Spread(xs, 0.0) + Square(v)
            && Mean(ys) == (Total(xs) + v) / (|xs| + 1) as real
            && Smallest(ys) == (if xs == [] then v else Min(v, Smallest(xs)))
            && Largest(ys) == (if xs == [] then v else Max(v, Largest(xs)))
            && (xs == [] ==> Mean(ys) == v && Spread(ys, v) == 0.0)
  {
    var ys := xs + [v];
    assert ys[..|ys| - 1] == xs;
  }

  lemma UpdateIs(v: real, d: Distribution)
    requires d.count >= 0
    ensures var e := UpdateGeneralStatistics(v, d);
            && e.count == d.count + 1
            && (d.count == 0 ==> e.maximum == v && e.minimum == v && e.mean == v && e.squares == 0.0)
            && (d.count > 0 ==>
                  && e.mean == (d.count as real * d.mean + v) / (d.count + 1) as real
                  && e.squares == d.squares + (v - d.mean) * (v - e.mean)
                  && e.minimum == Min(v, d.minimum) && e.maximum == Max(v, d.maximum))
  {
  }

  lemma InOneBucket(bs: seq<real>, i: int, j: int, v: real)
    requires Increasing(bs) && InBucket(bs, i, v) && InBucket(bs, j, v)
    ensures i == j
  {
  }

  lemma BoundsIncrease(o: BucketOption)
    requires ValidOption(o)
    ensures Increasing(Bounds(o))
  {
    match o
    case Linear(n, width, offset) =>
      var bs := Bounds(o);
      forall i, j | 0 <= i < j < |bs| ensures bs[i] < bs[j] {
        MulMono(i as real, j as real, width);
      }
    case Exponential(n, growth, scale) => ExponentialIncreases(growth, scale, n + 1);
    case Explicit(_) =>
  }

  lemma CountsExact(d: Distribution, xs: seq<real>, v: real)
    requires Ready(d) && Summarizes(d, xs)
    ensures var e, bs := AddSample(d, v).1, Bounds(d.option);
            |e.buckets| == |bs| + 1 && forall i :: 0 <= i < |e.buckets| ==>
                e.buckets[i] == InBucketCount(bs, i, xs + [v])
  {
    var e, bs, k := AddSample(d, v).1, Bounds(d.option), IndexOf(d.option, v);
    IndexContains(d.option, v);
    BoundsIncrease(d.option);
    hide IndexOf, Bounds, Increasing, UpdateGeneralStatistics, InBucket;
    forall i | 0 <= i < |e.buckets| ensures e.buckets[i] == InBucketCount(bs, i, xs + [v]) {
      assert (xs + [v])[..|xs|] == xs;
      if InBucket(bs, i, v) {
        InOneBucket(bs, i, k, v);
      }
    }
  }

  /** Folding samples gives their exact count, mean, extremes, squared deviations and histogram. */
  lemma {:induction false} FoldSummarizes(o: BucketOption, xs: seq<real>)
    requires Usable(o)
    ensures Summarizes(Fold(o, xs), xs)
  {
    if xs == [] {
      assert forall i :: InBucketCount(Bounds(o), i, []) == 0;
    } else {
      FoldSummarizes(o, xs[..|xs| - 1]);
      AddSampleExact(Fold(o, xs[..|xs| - 1]), xs[..|xs| - 1], xs[|xs| - 1]);
      assert xs == xs[..|xs| - 1] + [xs[|xs| - 1]];
    }
  }

  // ----- Merging -----

  lemma {:induction false} ConcatTotals(xs: seq<real>, ys: seq<real>)
    ensures Total(xs + ys) == Total(xs) + Total(ys) && Spread(xs + ys, 0.0) == Spread(xs, 0.0) + Spread(ys, 0.0)
  {
    if ys == [] {
      assert xs + ys == xs;
    } else {
      ConcatTotals(xs, ys[..|ys| - 1]);
      assert (xs + ys)[..|xs + ys| - 1] == xs + ys[..|ys| - 1];
    }
  }

  lemma {:induction false} ConcatExtremes(xs: seq<real>, ys: seq<real>)
    requires xs != [] && ys != []
    ensures Smallest(xs + ys) == Min(Smallest(ys), Smallest(xs)) && Largest(xs + ys) == Max(Largest(ys), Largest(xs))
  {
    assert (xs + ys)[..|xs + ys| - 1] == xs + ys[..|ys| - 1];
    if |ys| == 1 {
      assert xs + ys[..0] == xs;
    } else {
      ConcatExtremes(xs, ys[..|ys| - 1]);
    }
  }

  lemma {:induction false} ConcatCounts(bs: seq<real>, i: int, xs: seq<real>, ys: seq<real>)
    ensures InBucketCount(bs, i, xs + ys) == InBucketCount(bs, i, xs) + InBucketCount(bs, i, ys)
  {
    if ys == [] {
      assert xs + ys == xs;
    } else {
      ConcatCounts(bs, i, xs, ys[..|ys| - 1]);
      assert (xs + ys)[..|xs + ys| - 1] == xs + ys[..|ys| - 1];
    }
  }

  lemma Expand(n: real, a: real, t: real, w: real)
    requires a * n == t
    ensures n * (w - a) * (w - a) == n * Square(w) - 2.0 * (w * t) + n * Square(a)
  {
    assert n * (w - a) * (w - a) == n * (w * w) - 2.0 * (w * (a * n)) + n * (a * a);
  }

  /** The squared deviations of two groups around their common mean. */
  lemma Pooled(n: real, a: real, t: real, m: real, b: real, u: real, w: real)
    requires a * n == t && b * m == u && w * (n + m) == t + u
    ensures -(n + m) * Square(w) == -(n * Square(a)) - m * Square(b) + n * (w - a) * (w - a) + m * (w - b) * (w - b)
  {
    Expand(n, a, t, w);
    Expand(m, b, u, w);
    assert w * (w * (n + m)) == w * t + w * u;
    assert (n + m) * Square(w) == w * (w * (n + m));
    assert n * Square(w) + m * Square(w) == (n + m) * Square(w);
  }

  ghost predicate SameStatistics(d: Distribution, xs: seq<real>)
    requires xs != []
  {
    d.count == |xs| && d.mean == Mean(xs) && d.minimum == Smallest(xs) && d.maximum == Largest(xs)
        && d.squares == Spread(xs, Mean(xs))
  }

  lemma MergedStatistics(from: Distribution, to: Distribution, xs: seq<real>, ys: seq<real>)
    requires xs != [] && ys != [] && SameStatistics(to, xs) && SameStatistics(from, ys)
        && |from.buckets| == |to.buckets|
    ensures SameStatistics(Merged(from, to), xs + ys)
  {
    hide *;
    var zs, n, m := xs + ys, |xs| as real, |ys| as real;
    StatisticsAre(to, xs);
    StatisticsAre(from, ys);
    MergedIs(from, to, n, m);
    MeanTimes(xs);
    MeanTimes(ys);
    MeanTimes(zs);
    ConcatTotals(xs, ys);
    ConcatExtremes(xs, ys);
    MeanOfBoth(xs, ys);
    SpreadAtMean(xs);
    SpreadAtMean(ys);
    SpreadAtMean(zs);
    Pooled(n, Mean(xs), Total(xs), m, Mean(ys), Total(ys), Mean(zs));
    StatisticsIntro(Merged(from, to), zs);
  }

  lemma StatisticsAre(d: Distribution, xs: seq<real>)
    requires xs != [] && SameStatistics(d, xs)
    ensures d.count == |xs| > 0 && d.mean == Mean(xs) && d.minimum == Smallest(xs) && d.maximum == Largest(xs)
        && d.squares == Spread(xs, Mean(xs))
  {
  }

  lemma StatisticsIntro(d: Distribution, xs: seq<real>)
    requires xs != []
    requires d.count == |xs| && d.mean == Mean(xs) && d.minimum == Smallest(xs) && d.maximum == Largest(xs)
        && d.squares == Spread(xs, Mean(xs))
    ensures SameStatistics(d, xs)
  {
  }

  lemma MergedIs(from: Distribution, to: Distribution, n: real, m: real)
    requires from.count > 0 && to.count > 0 && |from.buckets| == |to.buckets| && n == to.count as real
        && m == from.count as real
    ensures var d := Merged(from, to);
            && d.count == to.count + from.count
            && d.minimum == Min(from.minimum, to.minimum) && d.maximum == Max(from.maximum, to.maximum)
            && d.mean == (n * to.mean + m * from.mean) / (to.count + from.count) as real
            && d.squares == to.squares + from.squares + n * (d.mean - to.mean) * (d.mean - to.mean)
                          + m * (d.mean - from.mean) * (d.mean - from.mean)
  {
  }

  lemma MeanOfBoth(xs: seq<real>, ys: seq<real>)
    requires xs != [] && ys != []
    ensures Mean(xs + ys) == (|xs| as real * Mean(xs) + |ys| as real * Mean(ys)) / (|xs| + |ys|) as real
  {
    ConcatTotals(xs, ys);
    MeanTimes(xs);
    MeanTimes(ys);
  }

  lemma SameOption(o: BucketOption)
    requires ValidOption(o)
    ensures BucketsApproximatelyEqual(o, o)
  {
    assert forall x: real :: x - x == 0.0 && EPSILON * Abs(x) >= 0.0;
  }

  /** Merging the summaries of two sample sequences gives the summary of both. */
  lemma MergeSummarizes(from: Distribution, to: Distribution, xs: seq<real>, ys: seq<real>)
    requires Usable(to.option) && from.option == to.option && Summarizes(to, xs) && Summarizes(from, ys)
    ensures Merge(from, to).0 == Ok && Summarizes(Merge(from, to).1, xs + ys)
  {
    SameOption(to.option);
    var bs := Bounds(to.option);
    hide Mean, Spread, Smallest, Largest, Bounds, BucketsApproximatelyEqual, InBucketCount, ValidOption;
    if ys == [] {
      assert xs + ys == xs;
    } else if xs == [] {
      assert xs + ys == ys;
    } else {
      MergedStatistics(from, to, xs, ys);
      forall i ensures InBucketCount(bs, i, xs + ys) == InBucketCount(bs, i, xs) + InBucketCount(bs, i, ys) {
        ConcatCounts(bs, i, xs, ys);
      }
    }
  }

  /** `Merge` is a homomorphism: merging two folds is folding all the samples, field by field. */
  lemma MergeIsHomomorphism(o: BucketOption, xs: seq<real>, ys: seq<real>)
    requires Usable(o)
    ensures Merge(Fold(o, ys), Fold(o, xs)) == (Ok, Fold(o, xs + ys))
  {
    FoldSummarizes(o, xs);
    FoldSummarizes(o, ys);
    FoldSummarizes(o, xs + ys);
    MergeSummarizes(Fold(o, ys), Fold(o, xs), xs, ys);
    if xs + ys == [] {
      assert xs == [] && ys == [];
    } else {
      MergeOption(Fold(o, ys), Fold(o, xs));
      OneSummary(Merge(Fold(o, ys), Fold(o, xs)).1, Fold(o, xs + ys), xs + ys);
    }
  }

  lemma MergeOption(from: Distribution, to: Distribution)
    requires from.option == to.option
    ensures Merge(from, to).1.option == to.option
  {
  }

  lemma OneSummary(d: Distribution, e: Distribution, xs: seq<real>)
    requires xs != [] && d.option == e.option && Summarizes(d, xs) && Summarizes(e, xs)
    ensures d == e
  {
    assert d.buckets == e.buckets;
  }

  // ----- The order of the samples -----

  /** What a sample adds does not depend on where it stands. */
  lemma SampleAdds(xs: seq<real>, i: nat)
    requires i < |xs|
    ensures var rest := Without(xs, i);
            Total(xs) == Total(rest) + xs[i] && Spread(xs, 0.0) == Spread(rest, 0.0) + Square(xs[i])
  {
    var a, b, x := xs[..i], xs[i + 1..], xs[i];
    OneSample(x);
    hide *;
    SplitAt(xs, i);
    ConcatTotals(a + [x], b);
    ConcatTotals(a, [x]);
    ConcatTotals(a, b);
  }

  lemma SampleCounts(bs: seq<real>, j: int, xs: seq<real>, i: nat)
    requires i < |xs|
    ensures InBucketCount(bs, j, xs) == InBucketCount(bs, j, Without(xs, i)) + InBucketCount(bs, j, [xs[i]])
  {
    hide *;
    var a, b, x := xs[..i], xs[i + 1..], xs[i];
    SplitAt(xs, i);
    ConcatCounts(bs, j, a + [x], b);
    ConcatCounts(bs, j, a, [x]);
    ConcatCounts(bs, j, a, b);
  }

  lemma OneSample(x: real)
    ensures Total([x]) == x && Spread([x], 0.0) == Square(x)
  {
    assert [x][..0] == [];
  }

  lemma {:induction false} SamplesPermute(xs: seq<real>, ys: seq<real>)
    requires multiset(xs) == multiset(ys)
    ensures Total(xs) == Total(ys) && Spread(xs, 0.0) == Spread(ys, 0.0)
    decreases |xs|
  {
    hide Total, Spread, Square;
    Permuted(xs, ys);
    if xs != [] {
      var i := LastOf(xs, ys);
      SamplesPermute(xs[..|xs| - 1], Without(ys, i));
      SampleAdds(ys, i);
      SampleAdds(xs, |xs| - 1);
      assert Without(xs, |xs| - 1) == xs[..|xs| - 1];
    } else {
      assert ys == [];
    }
  }

  lemma {:induction false} CountsPermute(bs: seq<real>, j: int, xs: seq<real>, ys: seq<real>)
    requires multiset(xs) == multiset(ys)
    ensures InBucketCount(bs, j, xs) == InBucketCount(bs, j, ys)
    decreases |xs|
  {
    hide InBucketCount;
    Permuted(xs, ys);
    if xs != [] {
      var i := LastOf(xs, ys);
      CountsPermute(bs, j, xs[..|xs| - 1], Without(ys, i));
      SampleCounts(bs, j, ys, i);
      SampleCounts(bs, j, xs, |xs| - 1);
      assert Without(xs, |xs| - 1) == xs[..|xs| - 1];
    } else {
      assert ys == [];
    }
  }

  lemma {:induction false} ExtremesAre(xs: seq<real>)
    requires xs != []
    ensures Smallest(xs) in xs && Largest(xs) in xs && forall x <- xs :: Smallest(xs) <= x <= Largest(xs)
  {
    var init, x := xs[..|xs| - 1], xs[|xs| - 1];
    if init != [] {
      ExtremesAre(init);
      assert xs == init + [x];
    }
  }

  lemma ExtremesPermute(xs: seq<real>, ys: seq<real>)
    requires xs != [] && ys != [] && forall x :: x in xs <==> x in ys
    ensures Smallest(xs) == Smallest(ys) && Largest(xs) == Largest(ys)
  {
    hide Smallest, Largest;
    ExtremesAre(xs);
    ExtremesAre(ys);
  }

  lemma SpreadPermutes(xs: seq<real>, ys: seq<real>)
    requires xs != [] && multiset(xs) == multiset(ys)
    ensures ys != [] && Mean(xs) == Mean(ys) && Spread(xs, Mean(xs)) == Spread(ys, Mean(ys))
  {
    hide *;
    Permuted(xs, ys);
    SamplesPermute(xs, ys);
    SameMean(xs, ys);
    SpreadAtMean(xs);
    SpreadAtMean(ys);
  }

  lemma SameMean(xs: seq<real>, ys: seq<real>)
    requires xs != [] && |xs| == |ys| && Total(xs) == Total(ys)
    ensures Mean(xs) == Mean(ys)
  {
    hide Total;
  }

  /** A summary says nothing about the order of the samples. */
  lemma SummaryPermutes(d: Distribution, xs: seq<real>, ys: seq<real>)
    requires multiset(xs) == multiset(ys) && Summarizes(d, xs)
    ensures Summarizes(d, ys)
  {
    hide Total, Spread, Mean, InBucketCount, Square, Smallest, Largest, Bounds;
    Permuted(xs, ys);
    forall j ensures InBucketCount(Bounds(d.option), j, xs) == InBucketCount(Bounds(d.option), j, ys) {
      CountsPermute(Bounds(d.option), j, xs, ys);
    }
    if xs != [] {
      ExtremesPermute(xs, ys);
      SpreadPermutes(xs, ys);
    }
  }

  // ----- Distributions that come from samples -----

  /** `d` can take samples and is the exact summary of some. */
  ghost predicate Exact(d: Distribution) { Usable(d.option) && exists xs :: Summarizes(d, xs) }

  /** Some samples that `d` summarizes. */
  ghost function SamplesOf(d: Distribution): (xs: seq<real>)
    ensures Exact(d) ==> Summarizes(d, xs) && |xs| == d.count
  {
    if Exact(d) then var xs :| Summarizes(d, xs); xs else []
  }

  /** Distributions with bucket options that do not match are not merged. */
  lemma MergeApart(from: Distribution, to: Distribution)
    requires !BucketsApproximatelyEqual(from.option, to.option)
    ensures Merge(from, to) == (InvalidArgument, to)
  {
  }

  /** Merging in no samples changes nothing. */
  lemma MergeNothing(from: Distribution, to: Distribution)
    requires from.count <= 0
    ensures Merge(from, to).1 == to
  {
  }

  // ----- Which distributions are merged -----

  /** `y` differs from `x` by at most a hundred-thousandth of `x`. */
  predicate Near(x: real, y: real) {
    if x >= 0.0 then 0.99999 * x <= y <= 1.00001 * x else 1.00001 * x <= y <= 0.99999 * x
  }

  /** Bucket options of one kind and size whose parameters are near each other. */
  predicate Matching(a: BucketOption, b: BucketOption) {
    || (a.Linear? && b.Linear? && a.numFinite == b.numFinite && Near(a.width, b.width) && Near(a.offset, b.offset))
    || (a.Exponential? && b.Exponential? && a.numFiniteExp == b.numFiniteExp && Near(a.growth, b.growth)
        && Near(a.scale, b.scale))
    || (a.Explicit? && b.Explicit? && |a.bounds| == |b.bounds|
        && forall i :: 0 <= i < |a.bounds| ==> Near(a.bounds[i], b.bounds[i]))
  }

  lemma CloseIsNear(x: real, y: real)
    ensures IsCloseEnough(x, y) <==> Near(x, y)
  {
  }

  lemma EqualIsMatching(a: BucketOption, b: BucketOption)
    ensures BucketsApproximatelyEqual(a, b) <==> Matching(a, b)
  {
    hide IsCloseEnough, Near;
    match a
    case NoBuckets =>
    case Linear(_, width, offset) =>
      if b.Linear? {
        CloseIsNear(width, b.width);
        CloseIsNear(offset, b.offset);
      }
    case Exponential(_, growth, scale) =>
      if b.Exponential? {
        CloseIsNear(growth, b.growth);
        CloseIsNear(scale, b.scale);
      }
    case Explicit(bounds) =>
      if b.Explicit? && |bounds| == |b.bounds| {
        forall i | 0 <= i < |bounds| ensures IsCloseEnough(bounds[i], b.bounds[i]) <==> Near(bounds[i], b.bounds[i]) {
          CloseIsNear(bounds[i], b.bounds[i]);
        }
      }
  }

  /** The counts, the extremes and the weighted mean of both. */
  predicate Combines(r: Distribution, from: Distribution, to: Distribution) {
    && r.option == to.option && r.count == to.count + from.count
    && |r.buckets| == |to.buckets| == |from.buckets|
    && (forall i :: 0 <= i < |r.buckets| ==> r.buckets[i] == to.buckets[i] + from.buckets[i])
    && r.minimum <= to.minimum && r.minimum <= from.minimum && (r.minimum == to.minimum || r.minimum == from.minimum)
    && r.maximum >= to.maximum && r.maximum >= from.maximum && (r.maximum == to.maximum || r.maximum == from.maximum)
    && r.mean * r.count as real == to.mean * to.count as real + from.mean * from.count as real
  }

  /**
   * `Merge` succeeds if and only if there are equally many counts and the bucket options match; otherwise it changes
   * nothing.
   */
  lemma MergesWhen(from: Distribution, to: Distribution)
    ensures var (code, r) := Merge(from, to);
            && code == (
                 if |from.buckets| == |to.buckets| && Matching(from.option, to.option) then Ok else InvalidArgument)
            && (code != Ok || from.count <= 0 ==> r == to)
            && (code == Ok && from.count > 0 ==> if to.count <= 0 then r == from else Combines(r, from, to))
  {
    hide BucketsApproximatelyEqual, Matching, Combines;
    EqualIsMatching(from.option, to.option);
    if |from.buckets| == |to.buckets| && from.count > 0 && to.count > 0 {
      hide Merged;
      MergedCombines(from, to);
    }
  }

  lemma MergedCombines(from: Distribution, to: Distribution)
    requires |from.buckets| == |to.buckets| && from.count > 0 && to.count > 0
    ensures Combines(Merged(from, to), from, to)
  {
    var n, m, r := to.count as real, from.count as real, Merged(from, to);
    MergedIs(from, to, n, m);
    hide Merged;
    WeightedMean(n, m, to.mean, from.mean, r.mean);
    MergedCounts(from, to);
  }

  lemma WeightedMean(n: real, m: real, a: real, b: real, w: real)
    requires n > 0.0 && m > 0.0 && w == (n * a + m * b) / (n + m)
    ensures w * (n + m) == a * n + b * m
  {
  }

  lemma MergedCounts(from: Distribution, to: Distribution)
    requires |from.buckets| == |to.buckets| && from.count > 0 && to.count > 0
    ensures var r := Merged(from, to);
            && r.option == to.option && |r.buckets| == |to.buckets|
            && forall i :: 0 <= i < |r.buckets| ==> r.buckets[i] == to.buckets[i] + from.buckets[i]
  {
    hide Shift;
  }

  function SumOf(ns: seq<int>): int { if ns == [] then 0 else SumOf(ns[..|ns| - 1]) + ns[|ns| - 1] }

  lemma {:induction false} SumUpdate(ns: seq<int>, i: nat)
    requires i < |ns|
    ensures SumOf(ns[i := ns[i] + 1]) == SumOf(ns) + 1
  {
    var last := |ns| - 1;
    if i < last {
      SumUpdate(ns[..last], i);
      assert ns[i := ns[i] + 1][..last] == ns[..last][i := ns[i] + 1];
    } else {
      assert ns[i := ns[i] + 1][..last] == ns[..last];
    }
  }

  lemma {:induction false} SumZeros(n: nat)
    ensures SumOf(Zeros(n)) == 0
  {
    if n > 0 {
      SumZeros(n - 1);
      assert Zeros(n)[..n - 1] == Zeros(n - 1);
    }
  }

  /** Every sample is counted in exactly one bucket. */
  lemma {:induction false} CountsAddUp(o: BucketOption, xs: seq<real>)
    requires Usable(o)
    ensures SumOf(Fold(o, xs).buckets) == Fold(o, xs).count == |xs|
  {
    if xs == [] {
      SumZeros(|Bounds(o)| + 1);
    } else {
      var d, v := Fold(o, xs[..|xs| - 1]), xs[|xs| - 1];
      hide SumOf, AddSample, Bounds, IndexOf;
      CountsAddUp(o, xs[..|xs| - 1]);
      CountedOnce(d, v);
      SumUpdate(d.buckets, IndexOf(o, v));
    }
  }

  lemma CountedOnce(d: Distribution, v: real)
    requires Ready(d)
    ensures var i := IndexOf(d.option, v);
            0 <= i < |d.buckets| && AddSample(d, v).1.buckets == d.buckets[i := d.buckets[i] + 1]
  {
    hide UpdateGeneralStatistics, IndexOf, Bounds;
    IndexContains(d.option, v);
  }
}
