/** What `data_reduction` promises its callers, stated over the function
    `Reduce` that models it. */
module ReductionProperties {
  import opened Results
  import opened Aggregates
  import opened NdArray
  import opened Reduction

  /** A `method` argument that is not a string is a TypeError, whatever the
      factor and the data. */
  lemma NonStringIsTypeError(factor: int, x: seq<real>, y: seq<real>)
    ensures Reduce(NotStr, factor, x, y) == Err(TypeError)
  {
  }

  /** A string that names none of the five methods is a ValueError, whatever
      the factor and the data. */
  lemma UnknownMethodIsValueError(name: string, factor: int, x: seq<real>, y: seq<real>)
    requires name !in Methods
    ensures Reduce(Str(name), factor, x, y) == Err(ValueError)
  {
  }

  /** r holds s[0], s[n], s[2n], ...: ceil(|s| / n) elements, element i
      being s[i * n]. */
  ghost predicate IsStride(r: seq<real>, s: seq<real>, n: nat)
    requires n >= 1
  {
    && |r| == (|s| + n - 1) / n
    && forall i :: 0 <= i < |r| ==> i * n < |s| && r[i] == s[i * n]
  }

  /** `decimate` with a positive factor n keeps x[0], x[n], x[2n], ... (and
      the same positions of y), for any length N. */
  lemma DecimateSpec(n: int, x: seq<real>, y: seq<real>)
    requires n >= 1
    ensures Reduce(Str("decimate"), n, x, y).Ok?
    ensures IsStride(Reduce(Str("decimate"), n, x, y).value.0, x, n)
    ensures IsStride(Reduce(Str("decimate"), n, x, y).value.1, y, n)
  {
    var xs, ys := Stride(x, n), Stride(y, n);
    assert Reduce(Str("decimate"), n, x, y) == Ok((xs, ys));
    assert IsStride(xs, x, n);
    assert IsStride(ys, y, n);
  }

  /** `decimate` with a zero factor fails as Python's zero slice step does. */
  lemma DecimateZeroIsValueError(x: seq<real>, y: seq<real>)
    ensures Reduce(Str("decimate"), 0, x, y) == Err(ValueError)
  {
  }

  /** r holds s[N-1], s[N-1-k], s[N-1-2k], ...: ceil(N / k) elements, the
      slice `s[::-k]`. */
  ghost predicate IsReverseStride(r: seq<real>, s: seq<real>, k: nat)
    requires k >= 1
  {
    && |r| == (|s| + k - 1) / k
    && forall i :: 0 <= i < |r| ==> i * k < |s| && r[i] == s[|s| - 1 - i * k]
  }

  /** `decimate` with a negative factor -k walks each series backwards from
      its last element in steps of k. */
  lemma DecimateNegativeSpec(n: int, x: seq<real>, y: seq<real>)
    requires n <= -1
    ensures Reduce(Str("decimate"), n, x, y).Ok?
    ensures IsReverseStride(Reduce(Str("decimate"), n, x, y).value.0, x, -n)
    ensures IsReverseStride(Reduce(Str("decimate"), n, x, y).value.1, y, -n)
  {
    assert Reduce(Str("decimate"), n, x, y) == DecimatePair(n, x, y);
    SliceSpec(x, n);
    SliceSpec(y, n);
    assert IsReverseStride(Slice(x, n).value, x, -n);
    assert IsReverseStride(Slice(y, n).value, y, -n);
  }

  /** The single-aggregate binning methods and the numpy reduction each one
      applies. */
  function BinningAggregate(name: string): Option<Aggregate>
  {
    if name == "average" then Some(MeanOf)
    else if name == "min" then Some(MinOf)
    else if name == "max" then Some(MaxOf)
    else None
  }

  /** `average`, `min` and `max` succeed exactly when the factor is positive
      and divides both lengths; any other factor is the reshape's failure. */
  lemma BinningSucceedsIff(name: string, n: int, x: seq<real>, y: seq<real>)
    requires BinningAggregate(name).Some?
    ensures Reduce(Str(name), n, x, y).Ok? <==> n >= 1 && |x| % n == 0 && |y| % n == 0
    ensures Reduce(Str(name), n, x, y).Err? ==> Reduce(Str(name), n, x, y).kind == ShapeError
  {
    var agg := BinningAggregate(name).value;
    assert Reduce(Str(name), n, x, y) == BinPair(n, x, y, agg);
    BinReduceSpec(x, n, agg);
    BinReduceSpec(y, n, agg);
  }

  /** r holds one value per bin of width n of s, value i being the mean of
      bin i, which lies between the bin's minimum and maximum. */
  ghost predicate BinMeans(r: seq<real>, s: seq<real>, n: nat)
    requires n >= 1
  {
    && |r| == |s| / n
    && forall i :: 0 <= i < |r| ==>
         && i * n + n <= |s|
         && r[i] == Mean(Bin(s, n, i))
         && Min(Bin(s, n, i)) <= r[i] <= Max(Bin(s, n, i))
  }

  /** `average`: N / n values, value i the mean of bin i. */
  lemma AverageSpec(n: int, x: seq<real>, y: seq<real>)
    requires Reduce(Str("average"), n, x, y).Ok?
    ensures n >= 1
    ensures BinMeans(Reduce(Str("average"), n, x, y).value.0, x, n)
    ensures BinMeans(Reduce(Str("average"), n, x, y).value.1, y, n)
  {
    assert Reduce(Str("average"), n, x, y) == BinPair(n, x, y, MeanOf);
    BinReduceSpec(x, n, MeanOf);
    BinReduceSpec(y, n, MeanOf);
    BinMeansOf(BinReduce(x, n, MeanOf).value, x, n);
    BinMeansOf(BinReduce(y, n, MeanOf).value, y, n);
  }

  /** Per-bin means are bin means in the sense of BinMeans. */
  lemma BinMeansOf(r: seq<real>, s: seq<real>, n: nat)
    requires n >= 1 && |r| == |s| / n
    requires forall i :: 0 <= i < |r| ==> i * n + n <= |s| && r[i] == Mean(Bin(s, n, i))
    ensures BinMeans(r, s, n)
  {
    forall i | 0 <= i < |r|
      ensures Min(Bin(s, n, i)) <= r[i] <= Max(Bin(s, n, i))
    {
      MeanWithinRange(Bin(s, n, i));
    }
  }

  /** r holds one value per bin of width n of s, value i being the minimum of
      bin i: it occurs in the bin and is at most each of its elements. */
  ghost predicate BinMinima(r: seq<real>, s: seq<real>, n: nat)
    requires n >= 1
  {
    && |r| == |s| / n
    && forall i :: 0 <= i < |r| ==>
         && i * n + n <= |s|
         && r[i] in Bin(s, n, i)
         && forall j :: i * n <= j < i * n + n ==> r[i] <= s[j]
  }

  /** r holds one value per bin of width n of s, value i being the maximum of
      bin i: it occurs in the bin and is at least each of its elements. */
  ghost predicate BinMaxima(r: seq<real>, s: seq<real>, n: nat)
    requires n >= 1
  {
    && |r| == |s| / n
    && forall i :: 0 <= i < |r| ==>
         && i * n + n <= |s|
         && r[i] in Bin(s, n, i)
         && forall j :: i * n <= j < i * n + n ==> s[j] <= r[i]
  }

  /** `min`: N / n values, each one the minimum of its bin. */
  lemma MinSpec(n: int, x: seq<real>, y: seq<real>)
    requires Reduce(Str("min"), n, x, y).Ok?
    ensures n >= 1
    ensures BinMinima(Reduce(Str("min"), n, x, y).value.0, x, n)
    ensures BinMinima(Reduce(Str("min"), n, x, y).value.1, y, n)
  {
    assert Reduce(Str("min"), n, x, y) == BinPair(n, x, y, MinOf);
    BinReduceSpec(x, n, MinOf);
    BinReduceSpec(y, n, MinOf);
    BinMinimaOf(BinReduce(x, n, MinOf).value, x, n);
    BinMinimaOf(BinReduce(y, n, MinOf).value, y, n);
  }

  /** `max`: N / n values, each one the maximum of its bin. */
  lemma MaxSpec(n: int, x: seq<real>, y: seq<real>)
    requires Reduce(Str("max"), n, x, y).Ok?
    ensures n >= 1
    ensures BinMaxima(Reduce(Str("max"), n, x, y).value.0, x, n)
    ensures BinMaxima(Reduce(Str("max"), n, x, y).value.1, y, n)
  {
    assert Reduce(Str("max"), n, x, y) == BinPair(n, x, y, MaxOf);
    BinReduceSpec(x, n, MaxOf);
    BinReduceSpec(y, n, MaxOf);
    BinMaximaOf(BinReduce(x, n, MaxOf).value, x, n);
    BinMaximaOf(BinReduce(y, n, MaxOf).value, y, n);
  }

  /** Per-bin values computed with Min are bin minima. */
  lemma BinMinimaOf(r: seq<real>, s: seq<real>, n: nat)
    requires n >= 1 && |r| == |s| / n
    requires forall i :: 0 <= i < |r| ==> i * n + n <= |s| && r[i] == Min(Bin(s, n, i))
    ensures BinMinima(r, s, n)
  {
    forall i, j | 0 <= i < |r| && i * n <= j < i * n + n
      ensures r[i] <= s[j]
    {
      assert s[j] == Bin(s, n, i)[j - i * n];
    }
  }

  /** Per-bin values computed with Max are bin maxima. */
  lemma BinMaximaOf(r: seq<real>, s: seq<real>, n: nat)
    requires n >= 1 && |r| == |s| / n
    requires forall i :: 0 <= i < |r| ==> i * n + n <= |s| && r[i] == Max(Bin(s, n, i))
    ensures BinMaxima(r, s, n)
  {
    forall i, j | 0 <= i < |r| && i * n <= j < i * n + n
      ensures s[j] <= r[i]
    {
      assert s[j] == Bin(s, n, i)[j - i * n];
    }
  }

  /** `min/max` with a factor below 2 is a ValueError for every input: the
      check precedes the reshape, so it wins over a length the factor does
      not divide. */
  lemma MinMaxSmallFactorIsValueError(n: int, x: seq<real>, y: seq<real>)
    requires n < 2
    ensures Reduce(Str("min/max"), n, x, y) == Err(ValueError)
  {
  }

  /** `min/max` succeeds exactly when n >= 2 divides both lengths; with
      n >= 2 the only failure left is the reshape's. */
  lemma MinMaxSucceedsIff(n: int, x: seq<real>, y: seq<real>)
    ensures Reduce(Str("min/max"), n, x, y).Ok? <==> n >= 2 && |x| % n == 0 && |y| % n == 0
    ensures n >= 2 && Reduce(Str("min/max"), n, x, y).Err? ==>
      Reduce(Str("min/max"), n, x, y).kind == ShapeError
  {
    assert Reduce(Str("min/max"), n, x, y) == MinMaxPair(n, x, y);
    BinReduceSpec(x, n, MinOf);
    BinReduceSpec(x, n, MaxOf);
    BinReduceSpec(y, n, MinOf);
    BinReduceSpec(y, n, MaxOf);
  }

  /** r holds two values per bin of width n of s, in bin order: value 2i is
      the minimum and value 2i+1 the maximum of bin i, so each pair is
      ordered. */
  ghost predicate BinMinMaxPairs(r: seq<real>, s: seq<real>, n: nat)
    requires n >= 1
  {
    && |r| == 2 * (|s| / n)
    && forall i :: 0 <= i < |s| / n ==>
         && i * n + n <= |s|
         && r[2 * i] == Min(Bin(s, n, i))
         && r[2 * i + 1] == Max(Bin(s, n, i))
         && r[2 * i] <= r[2 * i + 1]
  }

  /** `min/max`: 2 * N / n values, a (minimum, maximum) pair per bin. */
  lemma MinMaxSpec(n: int, x: seq<real>, y: seq<real>)
    requires Reduce(Str("min/max"), n, x, y).Ok?
    ensures n >= 2
    ensures BinMinMaxPairs(Reduce(Str("min/max"), n, x, y).value.0, x, n)
    ensures BinMinMaxPairs(Reduce(Str("min/max"), n, x, y).value.1, y, n)
  {
    assert Reduce(Str("min/max"), n, x, y) == MinMaxPair(n, x, y);
    MinMaxOfSeries(x, n);
    MinMaxOfSeries(y, n);
  }

  /** The min/max interleaving of one series, for a width at which it can be
      reshaped. */
  lemma MinMaxOfSeries(s: seq<real>, n: int)
    requires BinReduce(s, n, MinOf).Ok?
    ensures n >= 1 && BinReduce(s, n, MaxOf).Ok?
    ensures BinMinMaxPairs(Interleave(BinReduce(s, n, MinOf).value, BinReduce(s, n, MaxOf).value), s, n)
  {
    BinReduceSpec(s, n, MinOf);
    BinReduceSpec(s, n, MaxOf);
    MinMaxPairsOf(BinReduce(s, n, MinOf).value, BinReduce(s, n, MaxOf).value, s, n);
  }

  /** Interleaving per-bin minima with per-bin maxima gives the min/max pairs. */
  lemma MinMaxPairsOf(mins: seq<real>, maxs: seq<real>, s: seq<real>, n: nat)
    requires n >= 1 && |mins| == |s| / n && |maxs| == |s| / n
    requires forall i :: 0 <= i < |mins| ==> i * n + n <= |s| && mins[i] == Min(Bin(s, n, i))
    requires forall i :: 0 <= i < |maxs| ==> i * n + n <= |s| && maxs[i] == Max(Bin(s, n, i))
    ensures BinMinMaxPairs(Interleave(mins, maxs), s, n)
  {
    var r := Interleave(mins, maxs);
    forall i | 0 <= i < |s| / n
      ensures r[2 * i] <= r[2 * i + 1]
    {
      MinAtMostMax(Bin(s, n, i));
    }
  }

  /** Series of equal length reduce to outputs of equal length, whatever the
      method; index i of both outputs comes from the same bin or stride
      position, as the per-method lemmas above state. */
  lemma AlignedOutputs(strategy: MethodArg, n: int, x: seq<real>, y: seq<real>)
    requires |x| == |y|
    requires Reduce(strategy, n, x, y).Ok?
    ensures |Reduce(strategy, n, x, y).value.0| == |Reduce(strategy, n, x, y).value.1|
  {
    var name := strategy.name;
    if name == "decimate" {
      assert Reduce(strategy, n, x, y) == DecimatePair(n, x, y);
      SliceSpec(x, n);
      SliceSpec(y, n);
    } else if BinningAggregate(name).Some? {
      var agg := BinningAggregate(name).value;
      assert Reduce(strategy, n, x, y) == BinPair(n, x, y, agg);
      BinReduceSpec(x, n, agg);
      BinReduceSpec(y, n, agg);
    } else {
      assert Reduce(strategy, n, x, y) == MinMaxPair(n, x, y);
      BinReduceSpec(x, n, MinOf);
      BinReduceSpec(x, n, MaxOf);
      BinReduceSpec(y, n, MinOf);
      BinReduceSpec(y, n, MaxOf);
    }
  }
}
