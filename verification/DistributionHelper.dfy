/** The distribution message and the helper that updates it in place. */
module DistributionHelper {
  import opened Proto
  import opened Distributions

  function Resized(ns: seq<int>, n: nat): (r: seq<int>)
    ensures |r| == n
  {
    if n <= |ns| then ns[..n] else ns + Zeros(n - |ns|)
  }

  /** The first bound above `v`, as `std::upper_bound` finds it. */
  method UpperBound(bs: seq<real>, v: real) returns (i: nat)
    ensures i == Passed(bs, v)
  {
    i := 0;
    while i < |bs| && bs[i] <= v
      invariant i <= |bs| && Passed(bs, v) == i + Passed(bs[i..], v)
    {
      assert bs[i..][1..] == bs[i + 1..];
      i := i + 1;
    }
  }

  lemma PowerNext(scale: real, growth: real, i: nat)
    ensures scale * Power(growth, i) * growth == scale * Power(growth, i + 1)
  {
  }

  /** One more than the rounded-down logarithm of `v / scale` to base `growth`, but at most `n + 1`; 0 below `scale`. */
  method ExponentialIndex(n: nat, growth: real, scale: real, v: real) returns (i: nat)
    ensures i == Passed(ExponentialBounds(growth, scale, n + 1), v)
  {
    hide *;
    ghost var bs := ExponentialBounds(growth, scale, n + 1);
    i := 0;
    var bound := scale;
    PowerZero(scale, growth);
    assert bs[0..] == bs;
    while i <= n && bound <= v
      invariant i <= n + 1 && bound == scale * Power(growth, i) && Passed(bs, v) == i + Passed(bs[i..], v)
    {
      PowerNext(scale, growth, i);
      PassedFrom(bs, v, i);
      bound := bound * growth;
      i := i + 1;
    }
    PassedFrom(bs, v, i);
  }

  lemma PowerZero(scale: real, growth: real)
    ensures scale * Power(growth, 0) == scale
  {
  }

  lemma PassedFrom(bs: seq<real>, v: real, i: nat)
    requires i <= |bs|
    ensures Passed(bs[i..], v) == if i == |bs| || v < bs[i] then 0 else 1 + Passed(bs[i + 1..], v)
  {
    assert i < |bs| ==> bs[i..][1..] == bs[i + 1..];
  }

  lemma MergedBuckets(from: Distribution, to: Distribution)
    requires from.count > 0 && to.count > 0 && |from.buckets| == |to.buckets|
    ensures Merged(from, to).buckets == SumCounts(to.buckets, from.buckets)
  {
  }

  class DistributionMessage {
    var count: int
    var mean: real
    var minimum: real
    var maximum: real
    var sumOfSquaredDeviation: real
    var option: BucketOption
    var bucketCounts: seq<int>

    function Content(): Distribution reads this {
      Distribution(count, mean, minimum, maximum, sumOfSquaredDeviation, option, bucketCounts)
    }

    constructor ()
      ensures Content() == Distribution(0, 0.0, 0.0, 0.0, 0.0, NoBuckets, [])
    {
      count, mean, minimum, maximum, sumOfSquaredDeviation, option, bucketCounts := 0, 0.0, 0.0, 0.0, 0.0, NoBuckets,
          [];
    }

    constructor Of(d: Distribution)
      ensures Content() == d
    {
      count, mean, minimum, maximum := d.count, d.mean, d.minimum, d.maximum;
      sumOfSquaredDeviation, option, bucketCounts := d.squares, d.option, d.buckets;
    }

    method InitExponential(numFiniteBuckets: int, growthFactor: real, scale: real) returns (code: Code)
      modifies this
      ensures var o := Exponential(numFiniteBuckets, growthFactor, scale);
              && (code == Ok <==> ValidOption(o))
                   && (code != Ok ==> code == InvalidArgument && Content() == old(Content()))
              && (code == Ok ==> Content() == old(Content()).(option := o,
                   buckets := Resized(old(bucketCounts), |Bounds(o)| + 1)))
    {
      if numFiniteBuckets <= 0 || growthFactor <= 1.0 || scale <= 0.0 {
        return InvalidArgument;
      }
      option := Exponential(numFiniteBuckets, growthFactor, scale);
      bucketCounts := Resized(bucketCounts, numFiniteBuckets + 2);
      return Ok;
    }

    method InitLinear(numFiniteBuckets: int, width: real, offset: real) returns (code: Code)
      modifies this
      ensures var o := Linear(numFiniteBuckets, width, offset);
              && (code == Ok <==> ValidOption(o))
                   && (code != Ok ==> code == InvalidArgument && Content() == old(Content()))
              && (code == Ok ==> Content() == old(Content()).(option := o,
                   buckets := Resized(old(bucketCounts), |Bounds(o)| + 1)))
    {
      if numFiniteBuckets <= 0 || width <= 0.0 {
        return InvalidArgument;
      }
      option := Linear(numFiniteBuckets, width, offset);
      bucketCounts := Resized(bucketCounts, numFiniteBuckets + 2);
      return Ok;
    }

    /** The bounds are appended to those of an option that is explicit already. */
    method InitExplicit(bounds: seq<real>) returns (code: Code)
      modifies this
      ensures code == Ok <==> Increasing(bounds)
      ensures code != Ok ==> code == InvalidArgument && Content() == old(Content())
      ensures code == Ok ==>
                var former := if old(option).Explicit? then old(option).bounds else [];
                Content() == old(Content()).(option := Explicit(former + bounds),
                    buckets := Resized(old(bucketCounts), |bounds| + 1))
    {
      for i := 0 to |bounds|
        invariant Increasing(bounds[..i])
        invariant Content() == old(Content())
      {
        if i > 0 && bounds[i] <= bounds[i - 1] {
          return InvalidArgument;
        }
        assert forall j :: 0 <= j < i - 1 ==> bounds[..i][j] < bounds[..i][i - 1];
        assert bounds[..i + 1] == bounds[..i] + [bounds[i]];
      }
      assert bounds[..|bounds|] == bounds;
      option := Explicit((if option.Explicit? then option.bounds else []) + bounds);
      bucketCounts := Resized(bucketCounts, |bounds| + 1);
      return Ok;
    }

    method UpdateGeneralStatistics(value: real)
      requires count >= 0
      modifies this
      ensures Content() == Distributions.UpdateGeneralStatistics(value, old(Content()))
    {
      if count == 0 {
        count := 1;
        maximum := value;
        minimum := value;
        mean := value;
        sumOfSquaredDeviation := 0.0;
      } else {
        var newMean := (count as real * mean + value) / (count + 1) as real;
        sumOfSquaredDeviation := sumOfSquaredDeviation + (value - mean) * (value - newMean);
        count := count + 1;
        minimum := Min(value, minimum);
        maximum := Max(value, maximum);
        mean := newMean;
      }
    }

    method BucketIndex(value: real) returns (i: int)
      requires Ready(Content())
      ensures i == IndexOf(option, value)
    {
      match option
      case Linear(n, width, offset) =>
        var upper, lower := offset + n as real * width, offset;
        if value < lower {
          i := 0;
        } else if value >= upper {
          i := n + 1;
        } else {
          i := 1 + ((value - lower) / width).Floor;
        }
      case Exponential(n, growth, scale) => i := ExponentialIndex(n, growth, scale, value);
      case Explicit(bounds) =>
        i := 0;
        if value >= bounds[0] {
          i := UpperBound(bounds, value);
        }
    }

    method AddSample(value: real) returns (code: Code)
      requires option.NoBuckets? || Ready(Content())
      modifies this
      ensures (code, Content()) == Distributions.AddSample(old(Content()), value)
    {
      if option.NoBuckets? {
        return InvalidArgument;
      }
      UpdateGeneralStatistics(value);
      var i := BucketIndex(value);
      IndexContains(option, value);
      bucketCounts := bucketCounts[i := bucketCounts[i] + 1];
      return Ok;
    }

    static method BucketsEqual(first: BucketOption, second: BucketOption) returns (equal: bool)
      ensures equal <==> BucketsApproximatelyEqual(first, second)
    {
      hide IsCloseEnough;
      match first
      case NoBuckets => return false;
      case Linear(n, width, offset) =>
        return second.Linear? && n == second.numFinite && IsCloseEnough(width, second.width)
            && IsCloseEnough(offset, second.offset);
      case Exponential(n, growth, scale) =>
        return second.Exponential? && n == second.numFiniteExp && IsCloseEnough(growth, second.growth)
            && IsCloseEnough(scale, second.scale);
      case Explicit(bounds) =>
        if !second.Explicit? || |bounds| != |second.bounds| {
          return false;
        }
        for i := 0 to |bounds|
          invariant forall j :: 0 <= j < i ==> IsCloseEnough(bounds[j], second.bounds[j])
        {
          if !IsCloseEnough(bounds[i], second.bounds[i]) {
            return false;
          }
        }
        return true;
    }

    method Merge(from: Distribution) returns (code: Code)
      modifies this
      ensures (code, Content()) == Distributions.Merge(from, old(Content()))
    {
      hide BucketsApproximatelyEqual, Bounds, Merged, SumCounts;
      if |from.buckets| == |bucketCounts| && from.count > 0 && count > 0 {
        MergedBuckets(from, Content());
      }
      var equal := BucketsEqual(from.option, option);
      if !equal {
        return InvalidArgument;
      }
      if |from.buckets| != |bucketCounts| {
        return InvalidArgument;
      }
      if from.count <= 0 {
        return Ok;
      }
      if count <= 0 {
        count, mean, minimum, maximum := from.count, from.mean, from.minimum, from.maximum;
        sumOfSquaredDeviation, option, bucketCounts := from.squares, from.option, from.buckets;
        return Ok;
      }
      AddStatistics(from);
      AddCounts(from.buckets);
      return Ok;
    }

    method AddStatistics(from: Distribution)
      requires from.count > 0 && count > 0 && |from.buckets| == |bucketCounts|
      modifies this`count, this`minimum, this`maximum, this`mean, this`sumOfSquaredDeviation
      ensures Content() == Merged(from, old(Content())).(buckets := bucketCounts)
    {
      hide Shift;
      var n, m, formerMean := count as real, from.count as real, mean;
      var newMean := (n * formerMean + m * from.mean) / (count + from.count) as real;
      count := count + from.count;
      minimum := Min(from.minimum, minimum);
      maximum := Max(from.maximum, maximum);
      mean := newMean;
      sumOfSquaredDeviation := sumOfSquaredDeviation + from.squares
        + Shift(n, newMean, formerMean) + Shift(m, newMean, from.mean);
    }

    method AddCounts(counts: seq<int>)
      requires |counts| == |bucketCounts|
      modifies this`bucketCounts
      ensures bucketCounts == SumCounts(old(bucketCounts), counts)
    {
      ghost var former := bucketCounts;
      for i := 0 to |counts|
        invariant |bucketCounts| == |counts|
        invariant forall j :: 0 <= j < |counts| ==>
            bucketCounts[j] == if j < i then former[j] + counts[j] else former[j]
      {
        bucketCounts := bucketCounts[i := bucketCounts[i] + counts[i]];
      }
    }
  }

  /**
   * A new message, initialised with usable bucket options, is the summary of no samples: where a fold over samples
   * starts.
   */
  lemma InitializedIsFresh(o: BucketOption)
    requires Usable(o)
    ensures var d := Distribution(0, 0.0, 0.0, 0.0, 0.0, NoBuckets, []);
            d.(option := o, buckets := Resized(d.buckets, |Bounds(o)| + 1)) == Fold(o, [])
    ensures Summarizes(Fold(o, []), [])
  {
    hide Bounds;
    assert [] + Zeros(|Bounds(o)| + 1) == Zeros(|Bounds(o)| + 1);
    FoldSummarizes(o, []);
  }
}
