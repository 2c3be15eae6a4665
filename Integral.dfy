/**
 * Pi as 4 times the integral of 1 / (1 + x^2) over [0, 1], by plain
 * Monte Carlo integration. The sample points x0[k] are inputs; they are
 * split into blocks of R = points / blocks points, and block i estimates
 * the integral as (x_max - x_min) * sum / R. After the prefix statistics
 * both the cumulative means and the errors are multiplied by 4 in place.
 */
module Integral {
  import opened BlockStatistics

  /** The integration bounds. */
  const XMin: real := 0.0
  const XMax: real := 1.0

  /** x * x, with the sign facts the integrand needs. */
  function Square(x: real): (r: real)
    ensures r >= 0.0
    ensures x != 0.0 ==> r > 0.0
    ensures -1.0 <= x <= 1.0 ==> r <= 1.0
  {
    SquareNonNegative(x, x * x);
    SquarePositive(x, x * x);
    SquareAtMostOne(x, x * x);
    x * x
  }
  lemma SquareNonNegative(x: real, r: real)
    requires r == x * x
    ensures r >= 0.0
  {
    if x < 0.0 {
      assert r == (-x) * (-x);
    }
  }
  lemma SquarePositive(x: real, r: real)
    requires r == x * x
    ensures x != 0.0 ==> r > 0.0
  {
    if x > 0.0 {
      MulPositive(x, x, r);
    } else if x < 0.0 {
      MulPositive(-x, -x, r);
    }
  }
  lemma MulPositive(a: real, b: real, r: real)
    requires a > 0.0 && b > 0.0 && r == a * b
    ensures r > 0.0
  {
  }
  lemma SquareAtMostOne(x: real, r: real)
    requires r == x * x
    ensures -1.0 <= x <= 1.0 ==> r <= 1.0
  {
    if -1.0 <= x <= 1.0 {
      var a := if x < 0.0 then -x else x;
      assert r == a * a;
      assert a * a <= a * 1.0;
    }
  }

  lemma Reciprocal(q: real)
    requires q >= 1.0
    ensures 0.0 < 1.0 / q <= 1.0
    ensures q > 1.0 ==> 1.0 / q < 1.0
    ensures q <= 2.0 ==> 1.0 / q >= 0.5
  {
    var y := 1.0 / q;
    assert y * q == 1.0;
    if y <= 0.0 {
      MulNonPositive(y, q);
    }
    if y > 1.0 {
      MulLessRight(1.0, y, q);
    }
    if q > 1.0 && y >= 1.0 {
      MulLessRight(1.0, q, y);
    }
    if q <= 2.0 && y < 0.5 {
      MulLessRight(y, 0.5, q);
    }
  }

  lemma MulNonPositive(a: real, b: real)
    requires a <= 0.0 && b > 0.0
    ensures a * b <= 0.0
  {
    if a < 0.0 {
      MulPositive(-a, b, (-a) * b);
    }
  }

  /**
   * The integrand 1 / (1 + x^2): positive, at most 1, and 1 only at x = 0;
   * on the integration interval it stays in [1/2, 1].
   */
  function F(x: real): (y: real)
    ensures 0.0 < y <= 1.0
    ensures y == 1.0 <==> x == 0.0
    ensures XMin <= x <= XMax ==> 0.5 <= y
  {
    Reciprocal(1.0 + Square(x));
    1.0 / (1.0 + Square(x))
  }

  /** Sum of the integrand over the n samples starting at index lo. */
  function SumF(x0: seq<real>, lo: nat, n: nat): (s: real)
    requires lo + n <= |x0|
    ensures 0.0 < s || n == 0
  {
    if n == 0 then 0.0 else SumF(x0, lo, n - 1) + F(x0[lo + n - 1])
  }

  /** With every sample in [x_min, x_max], the sum over n samples lies in [n/2, n]. */
  lemma {:induction false} SumFBounds(x0: seq<real>, lo: nat, n: nat)
    requires lo + n <= |x0|
    requires forall k :: lo <= k < lo + n ==> XMin <= x0[k] <= XMax
    ensures 0.5 * (n as real) <= SumF(x0, lo, n) <= n as real
  {
    if n > 0 {
      SumFBounds(x0, lo, n - 1);
    }
  }

  /** Sum of the integrand over block i, which holds samples i R .. i R + R - 1. */
  function BlockSum(x0: seq<real>, blocks: nat, i: nat): real
    requires i < blocks
  {
    var R := |x0| / blocks;
    BlockFits(|x0|, blocks, i);
    SumF(x0, i * R, R)
  }

  /**
   * Block estimate (x_max - x_min) * sum / R: the mean of the integrand
   * times the interval length. When the block sum lies in [R/2, R], as it
   * does for samples in [x_min, x_max], the estimate lies in [1/2, 1].
   */
  function BlockEstimate(R: nat, sum: real): (integral: real)
    requires 0 < R
    ensures 0.5 * (R as real) <= sum <= R as real ==> 0.5 <= integral <= 1.0
    ensures sum > 0.0 ==> integral > 0.0
  {
    MeanInRange(sum, R as real);
    (XMax - XMin) * sum / (R as real)
  }

  /** The series I of block estimates; R >= 1 needs at least as many points as blocks. */
  function Estimates(x0: seq<real>, blocks: nat): (v: seq<real>)
    requires 0 < blocks <= |x0|
    ensures |v| == blocks
  {
    seq(blocks, i requires 0 <= i < blocks => BlockEstimate(|x0| / blocks, BlockSum(x0, blocks, i)))
  }

  /** With every sample in [x_min, x_max], each block estimate lies in [1/2, 1]. */
  lemma EstimatesInRange(x0: seq<real>, blocks: nat)
    requires 0 < blocks <= |x0|
    requires forall k :: 0 <= k < |x0| ==> XMin <= x0[k] <= XMax
    ensures forall i :: 0 <= i < blocks ==> 0.5 <= Estimates(x0, blocks)[i] <= 1.0
  {
    var R := |x0| / blocks;
    forall i | 0 <= i < blocks
      ensures 0.5 <= Estimates(x0, blocks)[i] <= 1.0
    {
      BlockFits(|x0|, blocks, i);
      SumFBounds(x0, i * R, R);
    }
  }

  lemma MeanInRange(s: real, r: real)
    requires r > 0.0
    ensures 0.5 * r <= s <= r ==> 0.5 <= (XMax - XMin) * s / r <= 1.0
    ensures s > 0.0 ==> (XMax - XMin) * s / r > 0.0
  {
    if 0.5 * r <= s <= r {
      MeanBetween(s, r);
    }
    if s > 0.0 {
      var t := s / r;
      assert t * r == s;
      if t <= 0.0 {
        MulNonPositive(t, r);
      }
    }
  }

  lemma MeanBetween(s: real, r: real)
    requires r > 0.0 && 0.5 * r <= s <= r
    ensures 0.5 <= (XMax - XMin) * s / r <= 1.0
  {
    var t := s / r;
    assert (XMax - XMin) * s / r == t;
    assert t * r == s;
    if t < 0.5 {
      MulLessRight(t, 0.5, r);
    }
    if t > 1.0 {
      MulLessRight(1.0, t, r);
    }
  }

  /** The inner loop of block i: sum f over the samples at k = j + i R, 0 <= j < R. */
  method SumBlock(x0: seq<real>, blocks: nat, i: nat) returns (sum: real)
    requires i < blocks
    ensures sum == BlockSum(x0, blocks, i)
  {
    var points := |x0|;
    var R := points / blocks;
    BlockFits(points, blocks, i);
    sum := 0.0;
    var j := 0;
    while j < R
      invariant j <= R
      invariant sum == SumF(x0, i * R, j)
    {
      var k := j + i * R;
      SampleIndex(points, blocks, i, j);
      sum := sum + F(x0[k]);
      j := j + 1;
    }
  }

  /** The block loop: sum f over each block, then store the estimate and its square. */
  method RunBlocks(x0: seq<real>, blocks: nat) returns (integral: array<real>, integral2: array<real>)
    requires 0 < blocks <= |x0|
    ensures fresh(integral) && fresh(integral2)
    ensures integral[..] == Estimates(x0, blocks)
    ensures integral2[..] == Squares(integral[..])
  {
    var points := |x0|;
    var R := points / blocks;
    ghost var v := Estimates(x0, blocks);
    ghost var sq := Squares(v);
    integral := new real[blocks];
    integral2 := new real[blocks];
    var i := 0;
    while i < blocks
      invariant i <= blocks
      invariant forall k :: 0 <= k < i ==> integral[k] == v[k] && integral2[k] == sq[k]
    {
      var sum := SumBlock(x0, blocks, i);
      var estimate := BlockEstimate(R, sum);
      assert estimate == v[i];
      SquareAt(v, i, estimate);
      integral[i] := estimate;
      integral2[i] := estimate * estimate;
      i := i + 1;
    }
    assert integral[..] == v;
    assert integral2[..] == sq;
  }

  /** std::transform with x -> c x, overwriting the vector in place. */
  method Scale(a: array<real>, c: real)
    modifies a
    ensures a[..] == Scaled(old(a[..]), c)
  {
    var i := 0;
    while i < a.Length
      invariant i <= a.Length
      invariant forall k :: 0 <= k < i ==> a[k] == c * old(a[k])
      invariant forall k :: i <= k < a.Length ==> a[k] == old(a[k])
    {
      a[i] := c * a[i];
      i := i + 1;
    }
    forall k | 0 <= k < a.Length
      ensures a[..][k] == Scaled(old(a[..]), c)[k]
    {
      assert old(a[..])[k] == old(a[k]);
    }
  }

  /**
   * The whole computation after sampling: block loop, prefix statistics,
   * then the two rescalings by 4. Multiplying the error by 4 multiplies
   * its radicand by 16. Rescaling after averaging gives the curve and the
   * squared errors of the rescaled series 4 I.
   */
  method Simulate(x0: seq<real>, blocks: nat) returns (sumProg: array<real>, errSq: array<real>)
    requires 0 < blocks <= |x0|
    ensures fresh(sumProg) && fresh(errSq)
    ensures sumProg[..] == Scaled(PrefixMeans(Estimates(x0, blocks)), 4.0)
    ensures sumProg[..] == PrefixMeans(Scaled(Estimates(x0, blocks), 4.0))
    ensures errSq.Length == blocks
    ensures forall i :: 0 <= i < blocks ==> errSq[i] == 16.0 * CurveRadicand(Estimates(x0, blocks), i)
    ensures forall i :: 0 <= i < blocks ==> errSq[i] == CurveRadicand(Scaled(Estimates(x0, blocks), 4.0), i)
    ensures forall i :: 0 <= i < blocks ==> errSq[i] >= 0.0
    ensures errSq[0] == 0.0
  {
    var integral, integral2 := RunBlocks(x0, blocks);
    var su2Prog;
    sumProg, su2Prog, errSq := PrefixStatistics(integral, integral2);
    ghost var v := integral[..];
    ghost var radicands := errSq[..];
    assert forall i :: 0 <= i < blocks ==> radicands[i] == CurveRadicand(v, i);
    Scale(sumProg, 4.0);
    Scale(errSq, 16.0);
    ScaledCurveAll(v, 4.0);
    forall i | 0 <= i < blocks
      ensures errSq[i] >= 0.0
    {
      RadicandNonNegative(v, i);
    }
  }
}
