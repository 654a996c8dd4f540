# drtest data reduction, modelled in Dafny

This project models `DataAnalysis` from `src/drtest.py`. The class stores an x and a y
series (numpy arrays). Its `data_reduction(method, reduction_factor)` downsamples both
series in lock-step with one of five strategies:

- `decimate` keeps every n-th element from index 0. It is the Python slice `a[::n]`.
- `average` replaces each bin of n consecutive elements with the bin's mean.
- `min` replaces each bin with its minimum.
- `max` replaces each bin with its maximum.
- `min/max` emits each bin's minimum and then its maximum, bin after bin.

The call checks its arguments in a fixed order:

1. A `method` that is not a `str` raises a TypeError.
2. A string outside the five names raises a ValueError.
3. For `min/max`, a factor below 2 raises a ValueError.
4. Last, the binning strategies call `reshape(-1, n)`. numpy refuses this when n does not
   divide the length.

Files:

- `results.dfy` holds the error kinds and a `Result` type. `ShapeError` is numpy's reshape
  failure, which Python raises as a ValueError.
- `aggregates.dfy` holds the per-bin reductions `Sum`, `Mean`, `Min` and `Max` over reals.
- `ndarray.dfy` holds the numpy operations the code uses:
  - step slicing, including the zero step and negative steps;
  - `reshape(-1, n)` and the round trip proving it keeps every element in order;
  - row-wise mean, minimum and maximum.
- `reduction.dfy` holds `Reduce`, a function giving the outcome of `data_reduction` for
  every method argument, factor and pair of series. It also holds the `zip` interleaving.
- `properties.dfy` holds what callers are promised. Examples: output lengths, each output
  element as a function of its bin or stride position, the validation order, and x/y
  alignment.
- `data_analysis.dfy` holds the class `DataAnalysis`, over two `array<real>` fields.
  - Its method `DataReduction` is proved to return exactly `Reduce` of the stored arrays.
  - It has no `modifies` clause, so it cannot write the stored data.
  - The `min/max` loops that append to a list are the method `ZipMinMax`, proved element
    by element.

Where the code and its documentation disagree, the model follows the code:

- The docstring says `decimate` "eliminates the last element" of each subset. The code
  performs stride sampling, and so does the model.
- The log messages say the `min/max` factor must be "greater than 2". The code accepts 2,
  and so does the model.
- Nothing in the code requires a positive factor. A zero factor makes `decimate` fail,
  as Python's zero slice step does. A negative factor makes it walk the series backwards.
  Every binning strategy fails at the reshape for a factor below 1. The model keeps all
  of this, so `Reduce` has no precondition.
- Equal x/y lengths are not checked by the code. The outputs are aligned only when the
  inputs have equal lengths. `AlignedOutputs` proves that case.

## Model

| member | source | states |
|---|---|---|
| `Aggregates.Min` | src/drtest.py:119-120 | the `np.amin` of a non-empty bin occurs in the bin and is at most each of its elements |
| `Aggregates.Max` | src/drtest.py:128-129 | the `np.amax` of a non-empty bin occurs in the bin and is at least each of its elements |
| `Aggregates.MeanBounds` | src/drtest.py:110-111 | the mean of a bin whose elements lie in [lo, hi] lies in [lo, hi] |
| `Aggregates.MeanWithinRange` | src/drtest.py:110-111 | the `np.mean` of a bin lies between the bin's minimum and maximum |
| `Aggregates.MinAtMostMax` | src/drtest.py:138-141 | a bin's minimum never exceeds its maximum, so each min/max pair is ordered |
| `NdArray.Stride` | src/drtest.py:101-102 | `a[::n]` for n >= 1 has ceil(N/n) elements, and element i is a[i*n] |
| `NdArray.Reverse` | src/drtest.py:101-102 | the reversed series used by a negative slice step: same length, element i is a[N-1-i] |
| `NdArray.SliceSpec` | src/drtest.py:101-102 | `a[::step]` fails exactly for step 0, with a ValueError. A positive step samples from the front and a negative one from the back. Both give ceil(N/abs(step)) elements |
| `NdArray.Rows` | src/drtest.py:110 | `reshape(-1, n)` gives N/n rows, and row i is a[i*n .. i*n+n) |
| `NdArray.FlattenRows` | src/drtest.py:110 | flattening the reshaped rows gives back the series: reshape drops and reorders nothing |
| `NdArray.ReshapeSpec` | src/drtest.py:110 | reshape succeeds exactly when n >= 1 divides N, fails with a shape error otherwise, and round-trips on success |
| `Reduction.BinReduceSpec` | src/drtest.py:108-133 | a row-wise mean/min/max succeeds exactly when n >= 1 divides N. It then gives N/n values, and value i is the aggregate of bin i |
| `Reduction.Interleave` | src/drtest.py:143-150 | the zip-append loop's list has 2*min(len) elements: element 2i is the i-th minimum and element 2i+1 the i-th maximum |
| `Reduction.InterleaveUnique` | src/drtest.py:143-150 | that element-wise description determines the interleaved list |
| `ReductionProperties.NonStringIsTypeError` | src/drtest.py:97-166 | a non-string method is a TypeError whatever the factor and data |
| `ReductionProperties.UnknownMethodIsValueError` | src/drtest.py:163-164 | a string outside the five names is a ValueError whatever the factor and data |
| `ReductionProperties.DecimateSpec` | src/drtest.py:100-106 | `decimate` with n >= 1 always succeeds. It gives ceil(N/n) elements per series, and element i is x[i*n] (resp. y[i*n]), for any N |
| `ReductionProperties.DecimateZeroIsValueError` | src/drtest.py:101 | `decimate` with factor 0 fails with a ValueError, as the zero slice step does |
| `ReductionProperties.DecimateNegativeSpec` | src/drtest.py:101-102 | `decimate` with factor -k succeeds. Element i is x[N-1-i*k] (resp. y) |
| `ReductionProperties.BinningSucceedsIff` | src/drtest.py:108-133 | `average`/`min`/`max` succeed if and only if n >= 1 divides both lengths. Otherwise they fail with the reshape error |
| `ReductionProperties.AverageSpec` | src/drtest.py:108-115 | `average` gives N/n values per series. Value i is the mean of bin i and lies between the bin's minimum and maximum |
| `ReductionProperties.BinMeansOf` | src/drtest.py:110-111 | row-wise means meet that per-bin description |
| `ReductionProperties.MinSpec` | src/drtest.py:117-124 | `min` gives N/n values per series. Value i occurs in bin i and is at most every element of it |
| `ReductionProperties.MaxSpec` | src/drtest.py:126-133 | `max` gives N/n values per series. Value i occurs in bin i and is at least every element of it |
| `ReductionProperties.BinMinimaOf` | src/drtest.py:119-120 | row-wise minima meet that per-bin description |
| `ReductionProperties.BinMaximaOf` | src/drtest.py:128-129 | row-wise maxima meet that per-bin description |
| `ReductionProperties.MinMaxSmallFactorIsValueError` | src/drtest.py:136-162 | `min/max` with factor < 2 is a ValueError for every input, even one the reshape would refuse |
| `ReductionProperties.MinMaxSucceedsIff` | src/drtest.py:136-162 | `min/max` succeeds if and only if n >= 2 divides both lengths. With n >= 2 the only failure is the reshape's |
| `ReductionProperties.MinMaxSpec` | src/drtest.py:136-154 | `min/max` gives 2*N/n values per series. Value 2i is the minimum of bin i and value 2i+1 its maximum, so value 2i <= value 2i+1 |
| `ReductionProperties.MinMaxOfSeries` | src/drtest.py:138-150 | for one series, interleaving the per-bin minima and maxima gives those pairs |
| `ReductionProperties.MinMaxPairsOf` | src/drtest.py:143-150 | interleaving lists of bin minima and bin maxima gives the ordered (min, max) pairs in bin order |
| `ReductionProperties.AlignedOutputs` | src/drtest.py:60-166 | when len(x) = len(y), every successful method returns x and y outputs of equal length |
| `DrTest.DataAnalysis.constructor` | src/drtest.py:54-57 | the object keeps the very arrays it was given |
| `DrTest.DataAnalysis.ZipMinMax` | src/drtest.py:143-150 | the zip-append loop gives 2*min(len) elements, with element 2k the k-th minimum and element 2k+1 the k-th maximum |
| `DrTest.DataAnalysis.DataReduction` | src/drtest.py:60-166 | `data_reduction` returns exactly what `Reduce` prescribes for the stored series. It writes nothing, so `xdata`/`ydata` are unchanged |

## Left out

- Logging is not modelled. This covers the logger setup, the `STRM_LOG`/`DEBUG_LOG` flags and every `logger.info`/`logger.warning` call (src/drtest.py:18-27, 103-105, 112-114, 121-123, 130-132, 151-153, 156-160). It is diagnostic output only.
- The `DataPlotting` class (src/drtest.py:169-299) is not modelled. It is matplotlib rendering, file saving and a sleep-driven rotation animation.
- Floating point is not modelled. Values are reals, so `np.mean` divides exactly, with no rounding. NaN handling of `np.amin`/`np.amax` and integer versus float result dtypes are not represented.
- Views are not modelled. In numpy, `a[::n]` is a view that shares memory with the stored array. The model returns its contents as a value.
- Only one-dimensional numpy arrays of numbers are modelled. Lists passed as `xdata`/`ydata` would fail on `.reshape` in Python. A non-integer `reduction_factor` is outside the model, which takes an `int`.
- The exception messages are not modelled, only the exception kinds.
