/** The numpy array operations `data_reduction` relies on: basic slicing with
    a step (`a[::step]`), `reshape(-1, n)` and the row-wise reductions taken
    with `axis=1`. One-dimensional arrays are sequences of reals. */
module NdArray {
  import opened Results
  import opened Aggregates

  /** Every n-th element starting at index 0: `a[::n]` for a positive n.
      The result has ceil(|s| / n) elements, element i being s[i * n]. */
  function Stride(s: seq<real>, n: nat): (r: seq<real>)
    requires n >= 1
    ensures |r| == (|s| + n - 1) / n
    ensures forall i :: 0 <= i < |r| ==> i * n < |s| && r[i] == s[i * n]
    decreases |s|
  {
    if |s| == 0 then
      DivUnique(n - 1, n, 0, n - 1);
      []
    else if |s| <= n then
      DivUnique(|s| + n - 1, n, 1, |s| - 1);
      [s[0]]
    else
      var rest := Stride(s[n..], n);
      StrideStep(s, n, rest);
      [s[0]] + rest
  }

  /** One step of Stride: s[0] followed by the stride of s[n..] is the
      stride of s. */
  lemma StrideStep(s: seq<real>, n: nat, rest: seq<real>)
    requires n >= 1 && |s| > n
    requires |rest| == (|s| - n + n - 1) / n
    requires forall i :: 0 <= i < |rest| ==> i * n < |s| - n && rest[i] == s[n..][i * n]
    ensures |[s[0]] + rest| == (|s| + n - 1) / n
    ensures forall i :: 0 <= i < |rest| + 1 ==> i * n < |s| && ([s[0]] + rest)[i] == s[i * n]
  {
    DivShift(|s| + n - 1, n);
    forall i | 1 <= i < |rest| + 1
      ensures i * n < |s| && ([s[0]] + rest)[i] == s[i * n]
    {
      MulShift(i, n);
    }
  }

  /** (i - 1) * n + n == i * n */
  lemma MulShift(i: int, n: int)
    ensures (i - 1) * n + n == i * n
  {
  }

  /** Removing n from a numerator a >= n removes one from the quotient and
      keeps the remainder. */
  lemma DivShift(a: int, n: int)
    requires n >= 1 && a >= n
    ensures (a - n) / n + 1 == a / n
    ensures (a - n) % n == a % n
  {
    var q, r := a / n, a % n;
    assert a == q * n + r;
    assert a - n == (q - 1) * n + r;
    DivUnique(a - n, n, q - 1, r);
  }

  /** Euclidean division has a unique quotient. */
  lemma DivUnique(a: int, n: int, q: int, r: int)
    requires n >= 1 && 0 <= r < n && a == q * n + r
    ensures a / n == q
  {
    var q', r' := a / n, a % n;
    assert a == q' * n + r';
    assert (q - q') * n == r' - r;
    if q' < q {
      MulAtLeast(q - q', n);
    } else if q < q' {
      MulAtLeast(q' - q, n);
    }
  }

  /** A positive number that n divides is at least n. */
  lemma MultipleAtLeast(a: int, n: int)
    requires n >= 1 && a > 0 && a % n == 0
    ensures a >= n
  {
    var q := a / n;
    assert a == q * n;
    assert q >= 1;
    MulAtLeast(q, n);
  }

  /** A positive multiple of n is at least n. */
  lemma MulAtLeast(k: int, n: int)
    requires k >= 1 && n >= 1
    ensures k * n >= n
  {
  }

  /** The elements in reverse order: `a[::-1]`. */
  function Reverse(s: seq<real>): (r: seq<real>)
    ensures |r| == |s|
    ensures forall i :: 0 <= i < |s| ==> r[i] == s[|s| - 1 - i]
  {
    if |s| == 0 then [] else Reverse(s[1..]) + [s[0]]
  }

  /** Basic slicing `a[::step]`: a zero step is a ValueError, a negative step
      walks backwards from the last element. */
  function Slice(s: seq<real>, step: int): Result<seq<real>>
  {
    if step == 0 then Err(ValueError)
    else if step > 0 then Ok(Stride(s, step))
    else Ok(Stride(Reverse(s), -step))
  }

  /** Slicing fails exactly for a zero step; otherwise element i of the slice
      is the element |step| * i positions away from the starting end, and the
      slice has ceil(|s| / |step|) elements. */
  lemma SliceSpec(s: seq<real>, step: int)
    ensures Slice(s, step).Err? <==> step == 0
    ensures Slice(s, step).Err? ==> Slice(s, step).kind == ValueError
    ensures step > 0 ==>
      var r := Slice(s, step).value;
      |r| == (|s| + step - 1) / step &&
      forall i :: 0 <= i < |r| ==> i * step < |s| && r[i] == s[i * step]
    ensures step < 0 ==>
      var r := Slice(s, step).value;
      |r| == (|s| - step - 1) / (-step) &&
      forall i :: 0 <= i < |r| ==> i * (-step) < |s| && r[i] == s[|s| - 1 - i * (-step)]
  {
    if step < 0 {
      var rev := Reverse(s);
      var r := Stride(rev, -step);
      forall i | 0 <= i < |r|
        ensures i * (-step) < |s| && r[i] == s[|s| - 1 - i * (-step)]
      {
        assert r[i] == rev[i * (-step)];
      }
    }
  }

  /** The rows of `a.reshape(-1, n)` for an n that divides |s|: |s| / n rows of
      n consecutive elements, row i being s[i*n .. i*n + n). */
  function Rows(s: seq<real>, n: nat): (rows: seq<seq<real>>)
    requires n >= 1 && |s| % n == 0
    ensures |rows| == |s| / n
    ensures forall i :: 0 <= i < |rows| ==> i * n + n <= |s| && rows[i] == s[i * n .. i * n + n]
    decreases |s|
  {
    if |s| == 0 then
      DivUnique(0, n, 0, 0);
      []
    else
      MultipleAtLeast(|s|, n);
      DivShift(|s|, n);
      var rest := Rows(s[n..], n);
      RowsStep(s, n, rest);
      [s[..n]] + rest
  }

  /** One step of Rows: the first row followed by the rows of s[n..] are the
      rows of s. */
  lemma RowsStep(s: seq<real>, n: nat, rest: seq<seq<real>>)
    requires n >= 1 && |s| >= n && |s| % n == 0
    requires |rest| == (|s| - n) / n
    requires forall i :: 0 <= i < |rest| ==> i * n + n <= |s| - n && rest[i] == s[n..][i * n .. i * n + n]
    ensures |[s[..n]] + rest| == |s| / n
    ensures forall i :: 0 <= i < |rest| + 1 ==>
      i * n + n <= |s| && ([s[..n]] + rest)[i] == s[i * n .. i * n + n]
  {
    DivShift(|s|, n);
    forall i | 1 <= i < |rest| + 1
      ensures i * n + n <= |s| && ([s[..n]] + rest)[i] == s[i * n .. i * n + n]
    {
      MulShift(i, n);
    }
  }

  /** `a.reshape(-1, n)`: numpy refuses a width below 1 and a width that does
      not divide the number of elements. */
  function Reshape(s: seq<real>, n: int): Result<seq<seq<real>>>
  {
    if n >= 1 && |s| % n == 0 then Ok(Rows(s, n)) else Err(ShapeError)
  }

  /** The elements of the rows, row after row (`ravel`). */
  function Flatten(rows: seq<seq<real>>): seq<real>
  {
    if |rows| == 0 then [] else rows[0] + Flatten(rows[1..])
  }

  /** Reshaping loses and reorders nothing: flattening the rows gives back the
      series. */
  lemma {:induction false} FlattenRows(s: seq<real>, n: nat)
    requires n >= 1 && |s| % n == 0
    ensures Flatten(Rows(s, n)) == s
  {
    if |s| > 0 {
      var rows := Rows(s, n);
      assert rows[1..] == Rows(s[n..], n);
      FlattenRows(s[n..], n);
      assert s == s[..n] + s[n..];
    }
  }

  /** Reshape succeeds exactly for a width n >= 1 that divides |s|. */
  lemma ReshapeSpec(s: seq<real>, n: int)
    ensures Reshape(s, n).Ok? <==> n >= 1 && |s| % n == 0
    ensures Reshape(s, n).Err? ==> Reshape(s, n).kind == ShapeError
    ensures Reshape(s, n).Ok? ==> Flatten(Reshape(s, n).value) == s
  {
    if n >= 1 && |s| % n == 0 {
      FlattenRows(s, n);
    }
  }

  /** Every row holds at least one element. */
  ghost predicate NonEmptyRows(rows: seq<seq<real>>)
  {
    forall i :: 0 <= i < |rows| ==> |rows[i]| > 0
  }

  /** `np.mean(rows, axis=1)`. */
  function RowMeans(rows: seq<seq<real>>): seq<real>
    requires NonEmptyRows(rows)
  {
    seq(|rows|, i requires 0 <= i < |rows| => Mean(rows[i]))
  }

  /** `np.amin(rows, axis=1)`. */
  function RowMins(rows: seq<seq<real>>): seq<real>
    requires NonEmptyRows(rows)
  {
    seq(|rows|, i requires 0 <= i < |rows| => Min(rows[i]))
  }

  /** `np.amax(rows, axis=1)`. */
  function RowMaxs(rows: seq<seq<real>>): seq<real>
    requires NonEmptyRows(rows)
  {
    seq(|rows|, i requires 0 <= i < |rows| => Max(rows[i]))
  }
}
