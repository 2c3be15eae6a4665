/**
 * Block averaging ("data blocking"), shared by the three Monte Carlo
 * programs: from a series of per-block estimates v[0..blocks-1] it
 * computes, for every i, the running mean of v[0..i], the running mean
 * of the squares v[0..i]^2, and the statistical uncertainty
 * sqrt((<v^2> - <v>^2) / i), which is 0 at i = 0.
 *
 * Everything is over exact `real` arithmetic. The square root is not
 * modelled: the error is represented by its radicand (the squared error).
 */
module BlockStatistics {

  /** Left-to-right sum, the order in which std::accumulate adds. */
  function Sum(s: seq<real>): real
  {
    if |s| == 0 then 0.0 else Sum(s[..|s| - 1]) + s[|s| - 1]
  }

  /** Arithmetic mean of a non-empty series. */
  function Mean(s: seq<real>): real
    requires |s| > 0
  {
    Sum(s) / (|s| as real)
  }

  /** Element-wise square: the vector v_pi2 (resp. I2) built beside v_pi (resp. I). */
  function Squares(s: seq<real>): (r: seq<real>)
    ensures |r| == |s|
    ensures forall i :: 0 <= i < |s| ==> r[i] == s[i] * s[i]
  {
    seq(|s|, i requires 0 <= i < |s| => s[i] * s[i])
  }

  /** Element-wise multiplication by a constant. */
  function Scaled(s: seq<real>, c: real): (r: seq<real>)
    ensures |r| == |s|
    ensures forall i :: 0 <= i < |s| ==> r[i] == c * s[i]
  {
    seq(|s|, i requires 0 <= i < |s| => c * s[i])
  }

  /** The cumulative curve: entry i is the mean of the first i + 1 values. */
  function PrefixMeans(s: seq<real>): (r: seq<real>)
    ensures |r| == |s|
  {
    seq(|s|, i requires 0 <= i < |s| => Mean(s[..i + 1]))
  }

  /**
   * The function `error(AV, AV2, n)` without its square root: 0 at
   * n == 0, whatever the vectors hold; otherwise (AV2[n] - AV[n]^2) / n.
   */
  function ErrorRadicand(av: seq<real>, av2: seq<real>, n: nat): (r: real)
    requires n < |av| && n < |av2|
    ensures n == 0 ==> r == 0.0
  {
    if n == 0 then 0.0 else (av2[n] - av[n] * av[n]) / (n as real)
  }

  /** The squared error at index i of the curve computed from the series v. */
  function CurveRadicand(v: seq<real>, i: nat): real
    requires i < |v|
  {
    ErrorRadicand(PrefixMeans(v), PrefixMeans(Squares(v)), i)
  }

  // ---------------------------------------------------------------------
  // Facts about Sum and Mean
  // ---------------------------------------------------------------------

  lemma SumStep(s: seq<real>, k: nat)
    requires k < |s|
    ensures Sum(s[..k + 1]) == Sum(s[..k]) + s[k]
  {
    assert s[..k + 1][..k] == s[..k];
  }

  /** Every value in [lo, hi] bounds the sum between |s|*lo and |s|*hi. */
  lemma {:induction false} SumBounds(s: seq<real>, lo: real, hi: real)
    requires forall i :: 0 <= i < |s| ==> lo <= s[i] <= hi
    ensures (|s| as real) * lo <= Sum(s) <= (|s| as real) * hi
  {
    if |s| > 0 {
      SumBounds(s[..|s| - 1], lo, hi);
    }
  }

  /** A mean lies within any bounds that hold for every value. */
  lemma MeanBounds(s: seq<real>, lo: real, hi: real)
    requires |s| > 0
    requires forall i :: 0 <= i < |s| ==> lo <= s[i] <= hi
    ensures lo <= Mean(s) <= hi
  {
    SumBounds(s, lo, hi);
    var n := |s| as real;
    assert Mean(s) * n == Sum(s);
  }

  lemma {:induction false} SumScaled(s: seq<real>, c: real)
    ensures Sum(Scaled(s, c)) == c * Sum(s)
  {
    if |s| > 0 {
      ScaledPrefix(s, c, |s| - 1);
      SumScaled(s[..|s| - 1], c);
    }
  }

  lemma {:induction false} SumConstant(s: seq<real>, c: real)
    requires forall i :: 0 <= i < |s| ==> s[i] == c
    ensures Sum(s) == (|s| as real) * c
  {
    if |s| > 0 {
      SumConstant(s[..|s| - 1], c);
    }
  }

  /** Sum of the squares, accumulated directly. */
  function SumSq(s: seq<real>): real
  {
    if |s| == 0 then 0.0 else SumSq(s[..|s| - 1]) + s[|s| - 1] * s[|s| - 1]
  }

  lemma {:induction false} SumSqIsSumOfSquares(s: seq<real>)
    ensures SumSq(s) == Sum(Squares(s))
  {
    if |s| > 0 {
      SumSqIsSumOfSquares(s[..|s| - 1]);
      SquaresPrefix(s, |s| - 1);
    }
  }

  /** Sum of the squared deviations from m. */
  function SumDev(s: seq<real>, m: real): real
  {
    if |s| == 0 then 0.0 else SumDev(s[..|s| - 1], m) + (s[|s| - 1] - m) * (s[|s| - 1] - m)
  }

  lemma {:induction false} SumDevNonNegative(s: seq<real>, m: real)
    ensures SumDev(s, m) >= 0.0
  {
    if |s| > 0 {
      SumDevNonNegative(s[..|s| - 1], m);
      var y := s[|s| - 1] - m;
      assert y * y >= 0.0;
    }
  }

  /** The right-hand side of the expansion: sq - 2 m sum + n m^2. */
  function Expanded(sq: real, sum: real, n: real, m: real): real
  {
    sq - 2.0 * m * sum + n * m * m
  }

  /**
   * Expanding the squared deviations from m:
   * sum (s[i] - m)^2 == sum s[i]^2 - 2 m sum s[i] + |s| m^2.
   */
  lemma {:induction false} DeviationExpansion(s: seq<real>, m: real)
    ensures SumDev(s, m) == Expanded(SumSq(s), Sum(s), |s| as real, m)
    decreases |s|
  {
    if |s| > 0 {
      var p, x := s[..|s| - 1], s[|s| - 1];
      DeviationExpansion(p, m);
      SumsStep(s, m);
      ExpansionStep(SumDev(s, m), SumSq(s), Sum(s), SumSq(p), Sum(p), SumDev(p, m), x, m, |p| as real, |s| as real);
    } else {
      ExpansionBase(m);
    }
  }

  lemma ExpansionBase(m: real)
    ensures Expanded(0.0, 0.0, 0.0, m) == 0.0
  {
  }

  /** One unfolding of each of the three sums, kept apart from the arithmetic. */
  lemma SumsStep(s: seq<real>, m: real)
    requires |s| > 0
    ensures SumDev(s, m) == SumDev(s[..|s| - 1], m) + (s[|s| - 1] - m) * (s[|s| - 1] - m)
    ensures SumSq(s) == SumSq(s[..|s| - 1]) + s[|s| - 1] * s[|s| - 1]
    ensures Sum(s) == Sum(s[..|s| - 1]) + s[|s| - 1]
  {
  }

  /** The arithmetic of one induction step of DeviationExpansion. */
  lemma ExpansionStep(dev: real, sq: real, sum: real, a: real, b: real, d: real, x: real, m: real,
                      k: real, n: real)
    requires d == Expanded(a, b, k, m) && n == k + 1.0
    requires dev == d + (x - m) * (x - m) && sq == a + x * x && sum == b + x
    ensures dev == Expanded(sq, sum, n, m)
  {
    assert (x - m) * (x - m) == x * x - 2.0 * m * x + m * m;
    assert 2.0 * m * (b + x) == 2.0 * m * b + 2.0 * m * x;
    assert (k + 1.0) * m * m == k * m * m + m * m;
  }

  lemma SquareAt(s: seq<real>, i: nat, x: real)
    requires i < |s| && s[i] == x
    ensures Squares(s)[i] == x * x
  {
  }

  lemma SquaresPrefix(s: seq<real>, k: nat)
    requires k <= |s|
    ensures Squares(s)[..k] == Squares(s[..k])
  {
    forall i | 0 <= i < k ensures Squares(s)[..k][i] == Squares(s[..k])[i] { }
  }

  lemma ScaledPrefix(s: seq<real>, c: real, k: nat)
    requires k <= |s|
    ensures Scaled(s, c)[..k] == Scaled(s[..k], c)
  {
    forall i | 0 <= i < k ensures Scaled(s, c)[..k][i] == Scaled(s[..k], c)[i] { }
  }

  /**
   * The mean of the squares is at least the square of the mean: over
   * exact reals the variance of a series is never negative.
   */
  lemma MeanSquareBound(s: seq<real>)
    requires |s| > 0
    ensures Mean(s) * Mean(s) <= Mean(Squares(s))
  {
    var n, m, mq := |s| as real, Mean(s), Mean(Squares(s));
    var q, sum, dev := SumSq(s), Sum(s), SumDev(s, m);
    assert mq == q / n by { MeanOfSquares(s); }
    assert dev == Expanded(q, sum, n, m) by { DeviationExpansion(s, m); }
    assert dev >= 0.0 by { SumDevNonNegative(s, m); }
    VarianceArithmetic(q, sum, n, m, mq, dev);
  }

  lemma MeanOfSquares(s: seq<real>)
    requires |s| > 0
    ensures Mean(Squares(s)) == SumSq(s) / (|s| as real)
  {
    SumSqIsSumOfSquares(s);
  }

  /** The arithmetic behind MeanSquareBound: n q - S^2 = n dev >= 0. */
  lemma VarianceArithmetic(q: real, sum: real, n: real, m: real, mq: real, dev: real)
    requires n > 0.0 && m == sum / n && mq == q / n
    requires dev == Expanded(q, sum, n, m) && dev >= 0.0
    ensures m * m <= mq
  {
    assert m * n == sum;
    assert sum == n * m;
    assert dev == q - n * (m * m);
    assert q >= n * (m * m);
    assert mq * n == q;
    if mq < m * m {
      MulLessRight(mq, m * m, n);
    }
  }

  lemma MulLessRight(a: real, b: real, r: real)
    requires a < b && r > 0.0
    ensures a * r < b * r
  {
    assert (b - a) * r > 0.0;
  }

  lemma DivNonNegative(a: real, b: real)
    requires a >= 0.0 && b > 0.0
    ensures a / b >= 0.0
  {
    var x := a / b;
    assert x * b == a;
    if x < 0.0 {
      MulLessRight(x, 0.0, b);
    }
  }

  // ---------------------------------------------------------------------
  // Block partitioning: R = points / blocks samples per block, and sample
  // j of block i sits at index k = j + i R.
  // ---------------------------------------------------------------------

  /** Block i ends at (i + 1) R, within the points samples. */
  lemma BlockFits(points: nat, blocks: nat, i: nat)
    requires i < blocks
    ensures i * (points / blocks) + points / blocks <= points
  {
    var R := points / blocks;
    assert blocks * R <= points;
    assert (i + 1) * R <= blocks * R by { MulMonotone(i + 1, blocks, R); }
  }

  lemma MulMonotone(a: nat, b: nat, c: nat)
    requires a <= b
    ensures a * c <= b * c
  {
  }

  /** Every index read by block i lies in [i R, (i + 1) R) and below points. */
  lemma SampleIndex(points: nat, blocks: nat, i: nat, j: nat)
    requires i < blocks && j < points / blocks
    ensures i * (points / blocks) <= j + i * (points / blocks) < i * (points / blocks) + points / blocks
    ensures j + i * (points / blocks) < points
  {
    BlockFits(points, blocks, i);
  }

  /** The blocks together read exactly the first blocks * R samples. */
  lemma BlocksCover(points: nat, blocks: nat)
    requires blocks > 0
    ensures blocks * (points / blocks) <= points < blocks * (points / blocks) + blocks
  {
  }

  // ---------------------------------------------------------------------
  // Facts about the cumulative curve
  // ---------------------------------------------------------------------

  /** The squared error is never negative, so the error is defined at every index. */
  lemma RadicandNonNegative(v: seq<real>, i: nat)
    requires i < |v|
    ensures CurveRadicand(v, i) >= 0.0
  {
    if i > 0 {
      var u := v[..i + 1];
      var m, q := Mean(u), Mean(Squares(u));
      SquaresPrefix(v, i + 1);
      RadicandAt(v, i, m, q);
      MeanSquareBound(u);
      DivNonNegative(q - m * m, i as real);
    }
  }

  /** The last entry of the curve is the mean of the whole series. */
  lemma LastMeanIsFullMean(v: seq<real>)
    requires |v| > 0
    ensures PrefixMeans(v)[|v| - 1] == Mean(v)
  {
    assert v[..|v|] == v;
  }

  /** Entry i of the curve, written out: the sum of the first i + 1 values over i + 1. */
  lemma PrefixMeanAt(s: seq<real>, i: nat)
    requires i < |s|
    ensures PrefixMeans(s)[i] == Sum(s[..i + 1]) / ((i + 1) as real)
  {
  }

  /** The squared error at index i > 0, written in terms of the two curve entries. */
  lemma RadicandAt(v: seq<real>, i: nat, m: real, q: real)
    requires 0 < i < |v|
    requires PrefixMeans(v)[i] == m && PrefixMeans(Squares(v))[i] == q
    ensures CurveRadicand(v, i) == (q - m * m) / (i as real)
  {
    var av, av2 := PrefixMeans(v), PrefixMeans(Squares(v));
    assert CurveRadicand(v, i) == ErrorRadicand(av, av2, i);
    RadicandFormula(av, av2, i, m, q);
  }

  lemma RadicandFormula(av: seq<real>, av2: seq<real>, i: nat, m: real, q: real)
    requires 0 < i < |av| && i < |av2| && av[i] == m && av2[i] == q
    ensures ErrorRadicand(av, av2, i) == (q - m * m) / (i as real)
  {
  }

  lemma ConstantMean(s: seq<real>, c: real)
    requires |s| > 0
    requires forall k :: 0 <= k < |s| ==> s[k] == c
    ensures Mean(s) == c
  {
    SumConstant(s, c);
    QuotientOfProduct(Sum(s), |s| as real, c);
  }

  /** A constant series has a constant curve and a zero error everywhere. */
  lemma ConstantSeries(v: seq<real>, c: real, i: nat)
    requires i < |v|
    requires forall k :: 0 <= k < |v| ==> v[k] == c
    ensures PrefixMeans(v)[i] == c
    ensures CurveRadicand(v, i) == 0.0
  {
    var u := v[..i + 1];
    ConstantMean(u, c);
    SquaresPrefix(v, i + 1);
    ConstantMean(Squares(u), c * c);
    if i > 0 {
      RadicandAt(v, i, c, c * c);
    }
  }

  /**
   * Three blocks 3.0, 3.2, 2.8: the curve is 3.0, 3.1, 3.0 and the squared
   * errors are 0, 0.01 and 1/75, none of them negative.
   */
  lemma ThreeBlockExample()
    ensures PrefixMeans([3.0, 3.2, 2.8]) == [3.0, 3.1, 3.0]
    ensures PrefixMeans(Squares([3.0, 3.2, 2.8]))[1] == 9.62
    ensures CurveRadicand([3.0, 3.2, 2.8], 1) == 0.01
    ensures CurveRadicand([3.0, 3.2, 2.8], 2) == 1.0 / 75.0
  {
    var v := [3.0, 3.2, 2.8];
    var sq := Squares(v);
    assert sq == [9.0, 10.24, 7.84];
    assert v[..1] == [3.0] && v[..2] == [3.0, 3.2] && v[..3] == v;
    assert sq[..1] == [9.0] && sq[..2] == [9.0, 10.24] && sq[..3] == sq;
    assert [3.0, 3.2][..1] == [3.0] && v[..2] == [3.0, 3.2];
    assert [9.0, 10.24][..1] == [9.0] && sq[..2] == [9.0, 10.24];
    assert Sum([3.0]) == 3.0 && Sum([3.0, 3.2]) == 6.2 && Sum(v) == 9.0;
    assert Sum([9.0]) == 9.0 && Sum([9.0, 10.24]) == 19.24 && Sum(sq) == 27.08;
    RadicandAt(v, 1, 3.1, 9.62);
    RadicandAt(v, 2, 3.0, 27.08 / 3.0);
  }

  lemma QuotientOfProduct(a: real, n: real, c: real)
    requires n > 0.0 && a == n * c
    ensures a / n == c
  {
  }

  /** Bounds on every block value carry over to every cumulative mean. */
  lemma PrefixMeanBounds(v: seq<real>, lo: real, hi: real)
    requires forall k :: 0 <= k < |v| ==> lo <= v[k] <= hi
    ensures forall i :: 0 <= i < |v| ==> lo <= PrefixMeans(v)[i] <= hi
  {
    forall i | 0 <= i < |v|
      ensures lo <= PrefixMeans(v)[i] <= hi
    {
      MeanBounds(v[..i + 1], lo, hi);
    }
  }

  lemma ScaledMean(s: seq<real>, c: real)
    requires |s| > 0
    ensures Mean(Scaled(s, c)) == c * Mean(s)
  {
    var n, a := |s| as real, Sum(s);
    assert Mean(Scaled(s, c)) == Sum(Scaled(s, c)) / n;
    SumScaled(s, c);
    assert Mean(Scaled(s, c)) == (c * a) / n;
    ScaledQuotient(a, n, c);
    assert Mean(s) == a / n;
  }

  /** Scaling the series scales its curve by the same factor. */
  lemma ScaledCurveMean(v: seq<real>, c: real, i: nat)
    requires i < |v|
    ensures PrefixMeans(Scaled(v, c))[i] == c * PrefixMeans(v)[i]
  {
    ScaledPrefix(v, c, i + 1);
    ScaledMean(v[..i + 1], c);
  }

  /**
   * Scaling after averaging agrees with averaging the scaled series:
   * the curve of c*v is c times the curve of v, and its squared error
   * is c^2 times the squared error of v.
   */
  lemma ScaledCurve(v: seq<real>, c: real, i: nat)
    requires i < |v|
    ensures PrefixMeans(Scaled(v, c))[i] == c * PrefixMeans(v)[i]
    ensures CurveRadicand(Scaled(v, c), i) == c * c * CurveRadicand(v, i)
  {
    ScaledCurveMean(v, c, i);
    if i > 0 {
      ScaledCurveRadicand(v, c, i);
    }
  }

  lemma ScaledCurveRadicand(v: seq<real>, c: real, i: nat)
    requires 0 < i < |v|
    ensures CurveRadicand(Scaled(v, c), i) == c * c * CurveRadicand(v, i)
  {
    ScaledCurveMean(v, c, i);
    ScaledCurveMeanSquares(v, c, i);
    ScaledErrorRadicand(PrefixMeans(v), PrefixMeans(Squares(v)),
      PrefixMeans(Scaled(v, c)), PrefixMeans(Squares(Scaled(v, c))), c, i);
  }

  lemma ScaledCurveMeanSquares(v: seq<real>, c: real, i: nat)
    requires i < |v|
    ensures PrefixMeans(Squares(Scaled(v, c)))[i] == c * c * PrefixMeans(Squares(v))[i]
  {
    SquaresOfScaled(v, c);
    ScaledCurveMean(Squares(v), c * c, i);
  }

  lemma ScaledErrorRadicand(av: seq<real>, av2: seq<real>, sw: seq<real>, sw2: seq<real>, c: real, i: nat)
    requires 0 < i < |av| && i < |av2| && i < |sw| && i < |sw2|
    requires sw[i] == c * av[i] && sw2[i] == c * c * av2[i]
    ensures ErrorRadicand(sw, sw2, i) == c * c * ErrorRadicand(av, av2, i)
  {
    ScaledRadicand(av[i], av2[i], c, i as real);
  }

  /** ScaledCurve at every index at once. */
  lemma ScaledCurveAll(v: seq<real>, c: real)
    ensures PrefixMeans(Scaled(v, c)) == Scaled(PrefixMeans(v), c)
    ensures forall i :: 0 <= i < |v| ==> CurveRadicand(Scaled(v, c), i) == c * c * CurveRadicand(v, i)
  {
    ScaledCurveMeans(v, c);
    ScaledCurveRadicands(v, c);
  }

  lemma ScaledCurveMeans(v: seq<real>, c: real)
    ensures PrefixMeans(Scaled(v, c)) == Scaled(PrefixMeans(v), c)
  {
    forall i | 0 <= i < |v|
      ensures PrefixMeans(Scaled(v, c))[i] == Scaled(PrefixMeans(v), c)[i]
    {
      ScaledCurveMean(v, c, i);
    }
  }

  lemma ScaledCurveRadicands(v: seq<real>, c: real)
    ensures forall i :: 0 <= i < |v| ==> CurveRadicand(Scaled(v, c), i) == c * c * CurveRadicand(v, i)
  {
    forall i | 0 <= i < |v|
      ensures CurveRadicand(Scaled(v, c), i) == c * c * CurveRadicand(v, i)
    {
      ScaledCurve(v, c, i);
    }
  }

  lemma SquaresOfScaled(s: seq<real>, c: real)
    ensures Squares(Scaled(s, c)) == Scaled(Squares(s), c * c)
  {
    forall i | 0 <= i < |s|
      ensures Squares(Scaled(s, c))[i] == Scaled(Squares(s), c * c)[i]
    {
      assert (c * s[i]) * (c * s[i]) == c * c * (s[i] * s[i]);
    }
  }

  lemma ScaledQuotient(a: real, n: real, c: real)
    requires n > 0.0
    ensures (c * a) / n == c * (a / n)
  {
  }

  lemma ScaledRadicand(m: real, q: real, c: real, n: real)
    requires n > 0.0
    ensures (c * c * q - (c * m) * (c * m)) / n == c * c * ((q - m * m) / n)
  {
    assert c * c * q - (c * m) * (c * m) == c * c * (q - m * m);
  }

  /** The squared error at n depends only on entry n of each curve. */
  lemma SameEntriesSameRadicand(av: seq<real>, av2: seq<real>, sw: seq<real>, sw2: seq<real>, n: nat)
    requires n < |av| && n < |av2| && n < |sw| && n < |sw2|
    requires av[n] == sw[n] && av2[n] == sw2[n]
    ensures ErrorRadicand(av, av2, n) == ErrorRadicand(sw, sw2, n)
  {
  }

  // ---------------------------------------------------------------------
  // The prefix-statistics loop
  // ---------------------------------------------------------------------

  /** std::accumulate over a range of values, starting from 0. */
  method Accumulate(a: seq<real>) returns (total: real)
    ensures total == Sum(a)
  {
    total := 0.0;
    var k := 0;
    while k < |a|
      invariant k <= |a|
      invariant total == Sum(a[..k])
    {
      SumStep(a, k);
      total := total + a[k];
      k := k + 1;
    }
    assert a[..k] == a;
  }

  /** accumulate over the first n values, divided by n: entry n - 1 of the curve. */
  method MeanOfFirst(vs: seq<real>, n: nat) returns (mean: real)
    requires 0 < n <= |vs|
    ensures mean == PrefixMeans(vs)[n - 1]
  {
    var s := Accumulate(vs[..n]);
    mean := s / (n as real);
    PrefixMeanAt(vs, n - 1);
  }

  /**
   * The loop that fills sum_prog, su2_prog and err_prog index by index
   * from v (the block estimates) and v2 (their squares). errSq holds the
   * squared error in place of err_prog: entry i is error(sum_prog,
   * su2_prog, i) before its square root.
   */
  method PrefixStatistics(v: array<real>, v2: array<real>)
    returns (sumProg: array<real>, su2Prog: array<real>, errSq: array<real>)
    requires v2.Length == v.Length
    ensures fresh(sumProg) && fresh(su2Prog) && fresh(errSq)
    ensures sumProg != su2Prog && sumProg != errSq && su2Prog != errSq
    ensures sumProg.Length == su2Prog.Length == errSq.Length == v.Length
    ensures sumProg[..] == PrefixMeans(v[..])
    ensures su2Prog[..] == PrefixMeans(v2[..])
    ensures forall i :: 0 <= i < v.Length ==> errSq[i] == ErrorRadicand(sumProg[..], su2Prog[..], i)
  {
    var blocks := v.Length;
    var vs, vs2 := v[..], v2[..];
    ghost var means, means2 := PrefixMeans(vs), PrefixMeans(vs2);
    ghost var errs := seq(blocks, k requires 0 <= k < blocks => ErrorRadicand(means, means2, k));
    sumProg := new real[blocks];
    su2Prog := new real[blocks];
    errSq := new real[blocks];
    var i := 0;
    while i < blocks
      invariant i <= blocks
      invariant forall k :: 0 <= k < i ==> sumProg[k] == means[k] && su2Prog[k] == means2[k] && errSq[k] == errs[k]
    {
      var mean := MeanOfFirst(vs, i + 1);
      var mean2 := MeanOfFirst(vs2, i + 1);
      sumProg[i] := mean;
      su2Prog[i] := mean2;
      var e := ErrorRadicand(sumProg[..], su2Prog[..], i);
      SameEntriesSameRadicand(sumProg[..], su2Prog[..], means, means2, i);
      errSq[i] := e;
      i := i + 1;
    }
    assert sumProg[..] == means;
    assert su2Prog[..] == means2;
    assert forall k :: 0 <= k < blocks ==> errSq[k] == errs[k] == ErrorRadicand(means, means2, k);
  }
}
