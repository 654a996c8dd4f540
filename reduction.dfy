/** The five data-reduction strategies of `DataAnalysis.data_reduction`, as a
    function of the method argument, the reduction factor and the two series,
    together with the properties the strategies promise. */
module Reduction {
  import opened Results
  import opened Aggregates
  import opened NdArray

  /** The `method` argument: Python accepts any object, and only a `str` gets
      past the first check. */
  datatype MethodArg = Str(name: string) | NotStr

  /** The method names the reduction recognises. */
  const Methods: set<string> := {"decimate", "average", "min", "max", "min/max"}

  /** A reduced (x, y) pair. */
  type Pair = (seq<real>, seq<real>)

  /** Which numpy reduction is applied to each bin. */
  datatype Aggregate = MeanOf | MinOf | MaxOf

  /** Bin i of a series for bin width n: the n elements from index i * n on. */
  function Bin(s: seq<real>, n: nat, i: nat): seq<real>
    requires i * n + n <= |s|
  {
    s[i * n .. i * n + n]
  }

  /** `np.mean / np.amin / np.amax (s.reshape(-1, n), axis=1)`: fails as the
      reshape does; otherwise one aggregate per bin. */
  function BinReduce(s: seq<real>, n: int, agg: Aggregate): Result<seq<real>>
  {
    var rows :- Reshape(s, n);
    assert NonEmptyRows(rows);
    match agg
    case MeanOf => Ok(RowMeans(rows))
    case MinOf => Ok(RowMins(rows))
    case MaxOf => Ok(RowMaxs(rows))
  }

  /** Element by element description of BinReduce: it succeeds exactly when
      n >= 1 divides |s|, and then yields |s| / n values, value i being the
      aggregate of bin i. */
  lemma BinReduceSpec(s: seq<real>, n: int, agg: Aggregate)
    ensures BinReduce(s, n, agg).Ok? <==> n >= 1 && |s| % n == 0
    ensures BinReduce(s, n, agg).Err? ==> BinReduce(s, n, agg).kind == ShapeError
    ensures BinReduce(s, n, agg).Ok? ==>
      var r := BinReduce(s, n, agg).value;
      |r| == |s| / n &&
      forall i :: 0 <= i < |r| ==>
        i * n + n <= |s| &&
        r[i] == match agg
                case MeanOf => Mean(Bin(s, n, i))
                case MinOf => Min(Bin(s, n, i))
                case MaxOf => Max(Bin(s, n, i))
  {
  }

  /** The pairs of a Python `zip(a, b)` loop, flattened: a[0], b[0], a[1],
      b[1], ... up to the shorter of the two. */
  function Interleave(a: seq<real>, b: seq<real>): (r: seq<real>)
    ensures |r| == 2 * (if |a| <= |b| then |a| else |b|)
    ensures forall i :: 0 <= i < |r| / 2 ==> r[2 * i] == a[i] && r[2 * i + 1] == b[i]
  {
    if |a| == 0 || |b| == 0 then []
    else [a[0], b[0]] + Interleave(a[1..], b[1..])
  }

  /** The index-wise description of Interleave determines it: any sequence
      with that length and those elements is the interleaving. */
  lemma {:induction false} InterleaveUnique(out: seq<real>, a: seq<real>, b: seq<real>)
    requires |out| == 2 * (if |a| <= |b| then |a| else |b|)
    requires forall i :: 0 <= i < |out| / 2 ==> out[2 * i] == a[i] && out[2 * i + 1] == b[i]
    ensures out == Interleave(a, b)
  {
    if |out| > 0 {
      var rest := out[2..];
      forall i | 0 <= i < |rest| / 2
        ensures rest[2 * i] == a[1..][i] && rest[2 * i + 1] == b[1..][i]
      {
        assert rest[2 * i] == out[2 * (i + 1)];
        assert rest[2 * i + 1] == out[2 * (i + 1) + 1];
      }
      InterleaveUnique(rest, a[1..], b[1..]);
      assert out == [out[0], out[1]] + rest;
    }
  }

  /** `decimate`: both series sliced with the factor as step. */
  function DecimatePair(n: int, x: seq<real>, y: seq<real>): Result<Pair>
  {
    var xs :- Slice(x, n);
    var ys :- Slice(y, n);
    Ok((xs, ys))
  }

  /** `average`, `min`, `max`: both series reduced bin by bin. */
  function BinPair(n: int, x: seq<real>, y: seq<real>, agg: Aggregate): Result<Pair>
  {
    var xs :- BinReduce(x, n, agg);
    var ys :- BinReduce(y, n, agg);
    Ok((xs, ys))
  }

  /** `min/max`: refused below a factor of 2; otherwise the per-bin minima
      and maxima of each series, interleaved. */
  function MinMaxPair(n: int, x: seq<real>, y: seq<real>): Result<Pair>
  {
    if n >= 2 then
      var xmins :- BinReduce(x, n, MinOf);
      var xmaxs :- BinReduce(x, n, MaxOf);
      var ymins :- BinReduce(y, n, MinOf);
      var ymaxs :- BinReduce(y, n, MaxOf);
      Ok((Interleave(xmins, xmaxs), Interleave(ymins, ymaxs)))
    else
      Err(ValueError)
  }

  /** `DataAnalysis.data_reduction(method, reduction_factor)` on the series
      x and y. The checks come in the source's order: the type of `method`,
      then its value, then (for min/max) the factor; the reshape that every
      binning method performs fails last. */
  function Reduce(strategy: MethodArg, factor: int, x: seq<real>, y: seq<real>): Result<Pair>
  {
    match strategy
    case NotStr => Err(TypeError)
    case Str(name) =>
      if name == "decimate" then DecimatePair(factor, x, y)
      else if name == "average" then BinPair(factor, x, y, MeanOf)
      else if name == "min" then BinPair(factor, x, y, MinOf)
      else if name == "max" then BinPair(factor, x, y, MaxOf)
      else if name == "min/max" then MinMaxPair(factor, x, y)
      else Err(ValueError)
  }
}
