# awesome-pi: Monte Carlo and series estimates of pi, modelled in Dafny

The repository estimates pi in four programs:

- **Buffon's needle** (`src/buffon/buffon.cpp`) counts needles that cross a line.
- **Point in circle** (`src/circle/circle.cpp`) counts random points of the square that fall inside the inscribed circle.
- **Integral** (`src/integral/integral.cpp`) averages 1 / (1 + x^2) over random points of [0, 1].
- **Leibniz series** (`src/leibniz/series.py`) sums the Leibniz series, in an alternating and a paired form. It also accelerates the partial sums with Wynn's epsilon algorithm.

The three C++ programs share one statistical core. They split the samples into `blocks` blocks of `R = points / blocks` samples, and each block gives one estimate. A prefix loop then turns those estimates into a cumulative mean (`sum_prog`) and a cumulative standard error (`err_prog`). The error is computed by `error(AV, AV2, n)`, which is 0 at n = 0 and otherwise sqrt((AV2[n] - AV[n]^2) / n).

The model has five modules, one file each:

| file | module | models |
|---|---|---|
| `BlockStatistics.dfy` | `BlockStatistics` | `error` and the prefix loop, which are identical in the three C++ files; the block partition `k = j + i R` |
| `Buffon.dfy` | `Buffon` | `hit_line`, the block loop and the whole computation after sampling |
| `Circle.dfy` | `Circle` | the in-circle test, the block loop, the whole computation |
| `Integral.dfy` | `Integral` | `f`, the block loop, the two `std::transform` rescalings, the whole computation |
| `Series.dfy` | `Series` | `leibniz`, `nonalternating_leibniz`, `list_leibniz_terms`, `wynn_epsilon`, `weps_leibniz` |

Every quantity is an exact `real`. The random samples are inputs, and the vectors `main` allocates are fresh arrays returned by the methods. Loops are `while` loops, each proved against a specification function:

- `Sum`, `Mean` and `PrefixMeans` (the curve);
- `CurveRadicand` (the squared error);
- `Hits`, `Inside` and `SumF` (the block counts and sums);
- `LeibnizSum` and `PairSum`;
- `Eps`, the epsilon table.

The lemmas then prove what the programs promise about these functions.

## Model

| member | source | states |
|---|---|---|
| BlockStatistics.ErrorRadicand | src/buffon/buffon.cpp:17-20 | `error` before its square root: at n = 0 the result is 0, whatever the curves hold |
| BlockStatistics.RadicandNonNegative | src/buffon/buffon.cpp:19 | the radicand of `error` on the curve of any series is never negative, so the square root is always defined over exact reals |
| BlockStatistics.MeanSquareBound | src/buffon/buffon.cpp:19 | the mean of the squares is at least the square of the mean (variance >= 0), which is why the radicand is non-negative |
| BlockStatistics.DeviationExpansion | src/buffon/buffon.cpp:19 | sum (s[i] - m)^2 equals sum s[i]^2 - 2 m sum s[i] + n m^2, the identity behind the variance bound |
| BlockStatistics.Accumulate | src/buffon/buffon.cpp:126 | `accumulate` from 0 over a range returns the sum of that range |
| BlockStatistics.MeanOfFirst | src/buffon/buffon.cpp:126 | accumulating the first i + 1 estimates and dividing by i + 1 gives entry i of the cumulative-mean curve |
| BlockStatistics.PrefixStatistics | src/buffon/buffon.cpp:124-129 | the prefix loop, the same in all three programs: sum_prog is the curve of the estimates, su2_prog the curve of their squares, entry i of the error array is `error(sum_prog, su2_prog, i)` squared; three fresh distinct arrays of length blocks |
| BlockStatistics.LastMeanIsFullMean | src/circle/circle.cpp:95 | the last entry of the curve is the mean of all block estimates |
| BlockStatistics.PrefixMeanBounds | src/circle/circle.cpp:95 | if every block estimate lies in [lo, hi], so does every cumulative mean |
| BlockStatistics.MeanBounds | src/circle/circle.cpp:95 | the mean of values in [lo, hi] lies in [lo, hi] |
| BlockStatistics.SumBounds | src/circle/circle.cpp:95 | the sum of n values in [lo, hi] lies in [n lo, n hi] |
| BlockStatistics.ConstantSeries | src/circle/circle.cpp:94-98 | constant block estimates c give the curve c at every index and a zero error everywhere |
| BlockStatistics.ThreeBlockExample | src/circle/circle.cpp:94-98 | the estimates 3.0, 3.2, 2.8 give the curve 3.0, 3.1, 3.0, the mean of squares 9.62 at index 1, and the squared errors 0.01 and 1/75 at indices 1 and 2 |
| BlockStatistics.BlockFits | src/circle/circle.cpp:61 | block i (i < blocks) ends at (i + 1) R <= points |
| BlockStatistics.SampleIndex | src/circle/circle.cpp:82-83 | the index k = j + i R read by block i lies in [i R, (i + 1) R) and below points |
| BlockStatistics.BlocksCover | src/circle/circle.cpp:61 | the blocks R samples the blocks cover fit within points, and fewer than blocks samples are left over |
| BlockStatistics.ScaledCurveAll | src/integral/integral.cpp:99-107 | rescaling after averaging, as integral.cpp does, gives the curve of the rescaled estimates; the squared error is multiplied by c^2 |
| BlockStatistics.ScaledCurve | src/integral/integral.cpp:106-107 | the same at one index: curve entry times c, squared error times c^2 |
| BlockStatistics.ScaledMean | src/integral/integral.cpp:106 | the mean of c v is c times the mean of v |
| BlockStatistics.SumScaled | src/integral/integral.cpp:106 | the sum of c v is c times the sum of v |
| Buffon.HitLine | src/buffon/buffon.cpp:24-38 | a needle hits exactly when its half-projection (L/2) cos(theta) reaches the nearer line, min(x0, d - x0) |
| Buffon.HitLineMonotoneInLength | src/buffon/buffon.cpp:24-38 | at a non-negative cosine a longer needle hits whenever a shorter one does |
| Buffon.Hits | src/buffon/buffon.cpp:113-118 | the number of hits among n needles is at most n |
| Buffon.BlockHits | src/buffon/buffon.cpp:111-118 | the hits of a block are at most R |
| Buffon.BlockEstimate | src/buffon/buffon.cpp:120 | the block estimate solves Buffon's relation pi d (hits / R) = 2 L, and is at least 2 L / d for positive L and d |
| Buffon.HitsLocal | src/buffon/buffon.cpp:113-118 | the count over a range depends on the samples in that range only |
| Buffon.TailNeverRead | src/buffon/buffon.cpp:79 | samples at index blocks R and beyond never change any block's hit count |
| Buffon.CountBlockHits | src/buffon/buffon.cpp:111-118 | the inner loop returns the hit count of block i |
| Buffon.RunBlocks | src/buffon/buffon.cpp:109-122 | the block loop fills v_pi with the block estimates and v_pi2 with their squares |
| Buffon.Simulate | src/buffon/buffon.cpp:109-129 | after sampling, sum_prog is the curve of the block estimates, every squared error is non-negative, and the last entry of sum_prog is the mean of all blocks |
| Circle.InCircle | src/circle/circle.cpp:85 | the strict test: a point inside has both coordinates strictly within r, and a point on the circle does not count |
| Circle.Inside | src/circle/circle.cpp:82-87 | the number of points inside among n points is at most n |
| Circle.BlockHits | src/circle/circle.cpp:80-87 | the hits of a block are at most R |
| Circle.BlockEstimate | src/circle/circle.cpp:89 | the block estimate times R is 4 hits, and it lies in [0, 4] |
| Circle.Estimates | src/circle/circle.cpp:78-91 | there are blocks block estimates, each in [0, 4] |
| Circle.CurveInRange | src/circle/circle.cpp:94-96 | every cumulative mean lies in [0, 4] |
| Circle.CountBlockHits | src/circle/circle.cpp:80-87 | the inner loop returns the hit count of block i |
| Circle.RunBlocks | src/circle/circle.cpp:78-91 | the block loop fills v_pi with the block estimates and v_pi2 with their squares |
| Circle.Simulate | src/circle/circle.cpp:78-98 | sum_prog is the curve of the block estimates and lies in [0, 4]; every squared error is non-negative, and the first is 0 |
| Integral.F | src/integral/integral.cpp:49-52 | the integrand lies in (0, 1] and equals 1 only at x = 0; on [x_min, x_max] it is at least 1/2 |
| Integral.SumF | src/integral/integral.cpp:89-92 | the sum of f over a non-empty range is positive |
| Integral.SumFBounds | src/integral/integral.cpp:89-92 | with every sample in [x_min, x_max], the sum over n samples lies in [n/2, n] |
| Integral.BlockEstimate | src/integral/integral.cpp:94 | when the block sum lies in [R/2, R], as it does for samples in [x_min, x_max], the block estimate lies in [1/2, 1]; a positive block sum gives a positive estimate |
| Integral.EstimatesInRange | src/integral/integral.cpp:85-96 | with every sample in [x_min, x_max], each block estimate of the integral lies in [1/2, 1] |
| Integral.SumBlock | src/integral/integral.cpp:86-92 | the inner loop returns the sum of f over block i |
| Integral.RunBlocks | src/integral/integral.cpp:85-96 | the block loop fills I with the block estimates and I2 with their squares |
| Integral.Scale | src/integral/integral.cpp:106-107 | `std::transform` with x -> c x multiplies every entry in place |
| Integral.Simulate | src/integral/integral.cpp:84-107 | the final sum_prog is both 4 times the curve and the curve of 4 I; the final squared errors are 16 times those of I and equal those of 4 I; every one is non-negative and the first is 0 |
| Series.Leibniz | src/leibniz/series.py:7-21 | `leibniz(order)` is 4 times the sum of the first order + 1 Leibniz terms; `leibniz(0)` is 4 |
| Series.NonalternatingLeibniz | src/leibniz/series.py:24-35 | `nonalternating_leibniz(order)` is 4 times the sum of the first order + 1 paired terms |
| Series.PairTermIsTwoTerms | src/leibniz/series.py:33 | 2 / ((4k + 1)(4k + 3)) equals the Leibniz terms 2k and 2k + 1 added together |
| Series.PairSumIsLeibnizSum | src/leibniz/series.py:30-33 | the first n paired terms add up to the first 2n Leibniz terms |
| Series.NonalternatingIsLeibniz | src/leibniz/series.py:24-35 | `nonalternating_leibniz(order)` equals `leibniz(2 order + 1)` |
| Series.ListLeibnizTerms | src/leibniz/series.py:38-52 | the list has order + 1 entries, starts with 4, and entry k is 4 (-1)^k / (2k + 1) |
| Series.PartialSumsAreLeibniz | src/leibniz/series.py:83-84 | entry i of the partial sums of the term list is `leibniz(i)` |
| Series.FillEpsilonTable | src/leibniz/series.py:62-73 | the table has len(seq) rows and n + 1 columns; column 0 is zero, column 1 is the sequence, unwritten entries stay zero, and every entry is the epsilon table entry |
| Series.FillColumn | src/leibniz/series.py:71-73 | the inner loop fills column i with the recurrence and changes no other column |
| Series.EpsStep | src/leibniz/series.py:73 | an entry the loops write has a nonzero denominator and follows e[j, i] = e[j + 1, i - 2] + 1 / (e[j + 1, i - 1] - e[j, i - 1]) |
| Series.SliceColumnsFit | src/leibniz/series.py:75 | every column kept by the slice `1 : m + 1 : 2` exists in the table |
| Series.OddColumns | src/leibniz/series.py:75 | the slice keeps the odd columns: column c of the result is column 2c + 1 of the table |
| Series.WynnEpsilon | src/leibniz/series.py:55-75 | the result has len(seq) rows, and column c holds epsilon column 2c + 1 |
| Series.WepsLeibniz | src/leibniz/series.py:78-88 | with fewer than 2 iteration + 2 terms the row does not exist (None); otherwise the result is the deepest entry of epsilon column 2 iteration + 1 of the partial sums |
| Series.ThirdColumnIsAitken | src/leibniz/series.py:60 | epsilon column 3 is Aitken's delta-squared transform, the first Shanks transformation, of three consecutive partial sums |
| Series.ShanksExactOnGeometric | src/leibniz/series.py:55-61 | on a sequence whose error shrinks geometrically, epsilon column 3 is exactly the limit |

## Left out

- Command-line handling is not part of this model: `main`'s argument checks, `atof`/`strtol`, and `argparse`/`positiveint` in `series.py`.
- Random sampling is not part of this model: `std::mt19937`, the uniform distributions, and the rejection loop that draws the needle's cosine. The samples are parameters.
- `print_to_file` and the Python `main` are output only and are left out.
- Floating point is not modelled: `float` samples, `double` sums and `pow` all become exact `real`s.
- BlockStatistics.ErrorRadicand: returns the squared error, because the square root has no counterpart over `real`. `RadicandNonNegative` shows that the root always exists.
- BlockStatistics.PrefixStatistics: the third array holds squared errors (err_prog squared) for the same reason.
- Integral.Simulate: multiplies the squared errors by 16, which is the same as `std::transform` multiplying the errors by 4.
- There is no clamp of a negative radicand: the code has none, and over exact reals the radicand is never negative. `ThreeBlockExample` shows that the estimates 3.0, 3.2, 2.8 give 9.62 as the mean of squares at index 1, and a positive radicand of 0.01.
- Buffon.RunBlocks: requires at least one hit in every block (`EveryBlockHits`). In `double`, a block without hits divides by zero and gives infinity.
- Buffon.RunBlocks: requires `len < d`. main aborts on the long-needle case before the loop runs.
- Circle.Estimates, Integral.Estimates: require `blocks <= points`. Otherwise R = 0 and the estimate divides by zero.
- Series.WynnEpsilon: requires `NoBreakdown`, meaning no denominator of the table is zero. numpy would give infinity or NaN there.
- Series.WepsLeibniz: the IndexError of a too-short sequence becomes `None`.
- Series.Leibniz, Series.NonalternatingLeibniz, Series.ListLeibnizTerms, Series.WynnEpsilon, Series.WepsLeibniz: the Python `assert order >= 0` and `assert iteration >= 1` (series.py lines 11, 28, 40 and 62) become `requires`; the AssertionError path is not modelled.
- Buffon.RunBlocks, Circle.RunBlocks, Integral.RunBlocks: require `blocks > 0`. In the C++ code `points/blocks` (buffon.cpp line 79, circle.cpp line 61, integral.cpp line 67) is an integer division by zero when blocks is 0, which has no defined behaviour to model.
- The 32-bit `int` counters (`hits`, `k`) in the C++ loops are unbounded here; overflow for more than 2^31 samples is not modelled.
- `np.sum` may add in a different order than a left fold; over exact reals the order does not matter.
- The inner loops of the block loops, and the column loops of `wynn_epsilon`, are separate methods (`CountBlockHits`, `SumBlock`, `FillColumn`, `CopyColumn`). Each keeps its loop and its invariant.
- The `ensures` on `Squares`, `Scaled`, `PrefixMeans`, `PartialSums` and `LeibnizTerms` state only lengths and element shapes. Their meaning is carried by the lemmas above.
