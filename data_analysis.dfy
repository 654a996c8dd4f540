/** The `DataAnalysis` class: it keeps references to the x and y arrays it
    was built with and reduces them on request. */
module DrTest {
  import opened Results
  import opened NdArray
  import opened Reduction

  class DataAnalysis {
    var xdata: array<real>
    var ydata: array<real>

    /** Stores the two arrays themselves, not copies of them. */
    constructor (xdata: array<real>, ydata: array<real>)
      ensures this.xdata == xdata && this.ydata == ydata
    {
      this.xdata := xdata;
      this.ydata := ydata;
    }

    /** The `min/max` loop: for each (min, max) pair of `zip(mins, maxs)`,
        append the minimum and then the maximum to a list that starts empty. */
    static method ZipMinMax(mins: seq<real>, maxs: seq<real>) returns (out: seq<real>)
      ensures |out| == 2 * (if |mins| <= |maxs| then |mins| else |maxs|)
      ensures forall k :: 0 <= k < |out| / 2 ==> out[2 * k] == mins[k] && out[2 * k + 1] == maxs[k]
    {
      out := [];
      var i := 0;
      while i < |mins| && i < |maxs|
        invariant 0 <= i <= |mins| && i <= |maxs|
        invariant |out| == 2 * i
        invariant forall k :: 0 <= k < i ==> out[2 * k] == mins[k] && out[2 * k + 1] == maxs[k]
      {
        out := out + [mins[i]];
        out := out + [maxs[i]];
        i := i + 1;
      }
    }

    /** `data_reduction(method, reduction_factor)`: the outcome is the one
        `Reduce` describes for the stored series. The method has no frame to
        write in, so the stored arrays and fields keep their contents. */
    method DataReduction(strategy: MethodArg, factor: int) returns (r: Result<Pair>)
      ensures r == Reduce(strategy, factor, xdata[..], ydata[..])
    {
      var x, y := xdata[..], ydata[..];
      if !strategy.Str? {
        return Err(TypeError);
      }
      var name := strategy.name;
      if name == "decimate" {
        var xreduced :- Slice(x, factor);
        var yreduced :- Slice(y, factor);
        return Ok((xreduced, yreduced));
      } else if name == "average" {
        var xsa :- BinReduce(x, factor, MeanOf);
        var ysa :- BinReduce(y, factor, MeanOf);
        return Ok((xsa, ysa));
      } else if name == "min" {
        var xmin :- BinReduce(x, factor, MinOf);
        var ymin :- BinReduce(y, factor, MinOf);
        return Ok((xmin, ymin));
      } else if name == "max" {
        var xmax :- BinReduce(x, factor, MaxOf);
        var ymax :- BinReduce(y, factor, MaxOf);
        return Ok((xmax, ymax));
      } else if name == "min/max" {
        if factor >= 2 {
          var xminvals :- BinReduce(x, factor, MinOf);
          var xmaxvals :- BinReduce(x, factor, MaxOf);
          var yminvals :- BinReduce(y, factor, MinOf);
          var ymaxvals :- BinReduce(y, factor, MaxOf);

          var xminmax := ZipMinMax(xminvals, xmaxvals);
          var yminmax := ZipMinMax(yminvals, ymaxvals);
          InterleaveUnique(xminmax, xminvals, xmaxvals);
          InterleaveUnique(yminmax, yminvals, ymaxvals);
          return Ok((xminmax, yminmax));
        } else {
          return Err(ValueError);
        }
      } else {
        return Err(ValueError);
      }
    }
  }
}
