/**
 * Pi from the fraction of points of the square [-r, r]^2 that fall
 * strictly inside the circle of radius r. The points (x0[k], y0[k]) are
 * inputs; they are split into blocks of R = points / blocks points, and
 * block i estimates pi as 4 hits / R.
 */
module Circle {
  import opened BlockStatistics

  /** The test of the block loop: strictly inside, so points on the circle do not count. */
  function InCircle(x: real, y: real, r: real): (inside: bool)
    ensures inside ==> x * x < r * r && y * y < r * r
    ensures x * x + y * y == r * r ==> !inside
  {
    x * x + y * y < r * r
  }

  /** Number of points inside the circle among the n starting at index lo. */
  function Inside(x0: seq<real>, y0: seq<real>, r: real, lo: nat, n: nat): (h: nat)
    requires lo + n <= |x0| && lo + n <= |y0|
    ensures h <= n
  {
    if n == 0 then 0
    else Inside(x0, y0, r, lo, n - 1) + (if InCircle(x0[lo + n - 1], y0[lo + n - 1], r) then 1 else 0)
  }

  /** Hits in block i, which holds points i R .. i R + R - 1 with R = |x0| / blocks. */
  function BlockHits(x0: seq<real>, y0: seq<real>, r: real, blocks: nat, i: nat): (h: nat)
    requires i < blocks && |y0| == |x0|
    ensures h <= |x0| / blocks
  {
    var R := |x0| / blocks;
    BlockFits(|x0|, blocks, i);
    Inside(x0, y0, r, i * R, R)
  }

  /**
   * Block estimate 4 hits / R: the fraction of points inside is pi / 4,
   * and since 0 <= hits <= R the estimate lies in [0, 4].
   */
  function BlockEstimate(R: nat, hits: nat): (pi: real)
    requires 0 < R && hits <= R
    ensures pi * (R as real) == 4.0 * (hits as real)
    ensures 0.0 <= pi <= 4.0
  {
    FractionBounds(hits as real, R as real);
    4.0 * (hits as real) / (R as real)
  }

  lemma FractionBounds(h: real, r: real)
    requires 0.0 <= h <= r && 0.0 < r
    ensures 0.0 <= 4.0 * h / r <= 4.0
  {
    assert 4.0 * h / r * r == 4.0 * h;
  }

  /** The series v_pi of block estimates; R >= 1 needs at least as many points as blocks. */
  function Estimates(x0: seq<real>, y0: seq<real>, r: real, blocks: nat): (v: seq<real>)
    requires |y0| == |x0| && 0 < blocks <= |x0|
    ensures |v| == blocks
    ensures forall i :: 0 <= i < blocks ==> 0.0 <= v[i] <= 4.0
  {
    seq(blocks, i requires 0 <= i < blocks => BlockEstimate(|x0| / blocks, BlockHits(x0, y0, r, blocks, i)))
  }

  /** Every cumulative mean of the block estimates lies in [0, 4]. */
  lemma CurveInRange(x0: seq<real>, y0: seq<real>, r: real, blocks: nat, i: nat)
    requires |y0| == |x0| && 0 < blocks <= |x0| && i < blocks
    ensures 0.0 <= PrefixMeans(Estimates(x0, y0, r, blocks))[i] <= 4.0
  {
    PrefixMeanBounds(Estimates(x0, y0, r, blocks), 0.0, 4.0);
  }

  /** The inner loop of block i: count the points at k = j + i R, 0 <= j < R, inside the circle. */
  method CountBlockHits(x0: seq<real>, y0: seq<real>, r: real, blocks: nat, i: nat) returns (hits: nat)
    requires |y0| == |x0| && i < blocks
    ensures hits == BlockHits(x0, y0, r, blocks, i)
  {
    var points := |x0|;
    var R := points / blocks;
    BlockFits(points, blocks, i);
    hits := 0;
    var j := 0;
    while j < R
      invariant j <= R
      invariant hits == Inside(x0, y0, r, i * R, j)
    {
      var k := j + i * R;
      SampleIndex(points, blocks, i, j);
      if InCircle(x0[k], y0[k], r) {
        hits := hits + 1;
      }
      j := j + 1;
    }
  }

  /** The block loop: count the hits of each block, then store the estimate and its square. */
  method RunBlocks(x0: seq<real>, y0: seq<real>, r: real, blocks: nat)
    returns (vPi: array<real>, vPi2: array<real>)
    requires |y0| == |x0| && 0 < blocks <= |x0|
    ensures fresh(vPi) && fresh(vPi2)
    ensures vPi[..] == Estimates(x0, y0, r, blocks)
    ensures vPi2[..] == Squares(vPi[..])
  {
    var points := |x0|;
    var R := points / blocks;
    ghost var v := Estimates(x0, y0, r, blocks);
    ghost var sq := Squares(v);
    vPi := new real[blocks];
    vPi2 := new real[blocks];
    var i := 0;
    while i < blocks
      invariant i <= blocks
      invariant forall k :: 0 <= k < i ==> vPi[k] == v[k] && vPi2[k] == sq[k]
    {
      var hits := CountBlockHits(x0, y0, r, blocks, i);
      var estimate := BlockEstimate(R, hits);
      assert estimate == v[i];
      SquareAt(v, i, estimate);
      vPi[i] := estimate;
      vPi2[i] := estimate * estimate;
      i := i + 1;
    }
    assert vPi[..] == v;
    assert vPi2[..] == sq;
  }

  /**
   * The whole computation after sampling: block loop, then the
   * prefix-statistics loop. Every cumulative mean lies in [0, 4], every
   * squared error is non-negative and the first one is 0.
   */
  method Simulate(x0: seq<real>, y0: seq<real>, r: real, blocks: nat)
    returns (sumProg: array<real>, errSq: array<real>)
    requires |y0| == |x0| && 0 < blocks <= |x0|
    ensures fresh(sumProg) && fresh(errSq)
    ensures sumProg[..] == PrefixMeans(Estimates(x0, y0, r, blocks))
    ensures errSq.Length == blocks
    ensures forall i :: 0 <= i < blocks ==> errSq[i] == CurveRadicand(Estimates(x0, y0, r, blocks), i)
    ensures forall i :: 0 <= i < blocks ==> 0.0 <= sumProg[i] <= 4.0 && errSq[i] >= 0.0
    ensures errSq[0] == 0.0
  {
    var vPi, vPi2 := RunBlocks(x0, y0, r, blocks);
    var su2Prog;
    sumProg, su2Prog, errSq := PrefixStatistics(vPi, vPi2);
    ghost var v := vPi[..];
    forall i | 0 <= i < blocks
      ensures errSq[i] == CurveRadicand(v, i) && errSq[i] >= 0.0
    {
      RadicandNonNegative(v, i);
    }
    PrefixMeanBounds(v, 0.0, 4.0);
  }
}
