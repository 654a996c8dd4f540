/** The numpy reductions applied to one bin: `np.mean`, `np.amin`, `np.amax`.
    Values are reals, so the mean is exact. */
module Aggregates {

  /** Sum of the elements, left to right. */
  function Sum(s: seq<real>): real
  {
    if |s| == 0 then 0.0 else s[0] + Sum(s[1..])
  }

  /** Arithmetic mean of a non-empty bin. */
  function Mean(s: seq<real>): real
    requires |s| > 0
  {
    Sum(s) / (|s| as real)
  }

  /** Smallest element: it occurs in the bin and no element is below it. */
  function Min(s: seq<real>): (m: real)
    requires |s| > 0
    ensures m in s
    ensures forall i :: 0 <= i < |s| ==> m <= s[i]
  {
    if |s| == 1 then s[0]
    else
      var rest := Min(s[1..]);
      if s[0] <= rest then s[0] else rest
  }

  /** Largest element: it occurs in the bin and no element is above it. */
  function Max(s: seq<real>): (m: real)
    requires |s| > 0
    ensures m in s
    ensures forall i :: 0 <= i < |s| ==> s[i] <= m
  {
    if |s| == 1 then s[0]
    else
      var rest := Max(s[1..]);
      if s[0] >= rest then s[0] else rest
  }

  /** A sum of elements that all lie in [lo, hi] lies in [|s|*lo, |s|*hi]. */
  lemma {:induction false} SumBounds(s: seq<real>, lo: real, hi: real)
    requires forall i :: 0 <= i < |s| ==> lo <= s[i] <= hi
    ensures (|s| as real) * lo <= Sum(s) <= (|s| as real) * hi
  {
    if |s| > 0 {
      SumBounds(s[1..], lo, hi);
      assert (|s| as real) * lo == lo + ((|s| - 1) as real) * lo;
      assert (|s| as real) * hi == hi + ((|s| - 1) as real) * hi;
    }
  }

  /** The mean of a bin whose elements all lie in [lo, hi] lies in [lo, hi]. */
  lemma MeanBounds(s: seq<real>, lo: real, hi: real)
    requires |s| > 0
    requires forall i :: 0 <= i < |s| ==> lo <= s[i] <= hi
    ensures lo <= Mean(s) <= hi
  {
    SumBounds(s, lo, hi);
    QuotientBounds(Sum(s), |s| as real, lo, hi);
  }

  /** The mean of a bin lies between its minimum and its maximum. */
  lemma MeanWithinRange(s: seq<real>)
    requires |s| > 0
    ensures Min(s) <= Mean(s) <= Max(s)
  {
    MeanBounds(s, Min(s), Max(s));
  }

  /** Dividing k*lo <= a <= k*hi by a positive k keeps lo and hi as bounds. */
  lemma QuotientBounds(a: real, k: real, lo: real, hi: real)
    requires k > 0.0 && k * lo <= a <= k * hi
    ensures lo <= a / k <= hi
  {
    assert a == k * (a / k);
  }

  /** The minimum of a bin never exceeds its maximum. */
  lemma MinAtMostMax(s: seq<real>)
    requires |s| > 0
    ensures Min(s) <= Max(s)
  {
    assert Min(s) <= s[0] <= Max(s);
  }
}
