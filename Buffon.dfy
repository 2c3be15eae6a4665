/**
 * Buffon's needle: lines a distance d apart, needles of length L < d.
 * A needle is given by the distance x0 in [0, d] of its centre from the
 * line below and by the cosine of its angle with the vertical. The
 * samples are inputs (the random generator is not modelled). The points
 * samples are split into blocks of R = points / blocks needles; block i
 * counts its hits and estimates pi as 2 L R / (hits d).
 */
module Buffon {
  import opened BlockStatistics

  function Min(a: real, b: real): real
  {
    if a <= b then a else b
  }

  /**
   * hit_line: the needle crosses the line above when x0 is in the upper
   * half of the strip and the line below otherwise; either way it crosses
   * exactly when its half-projection (L/2) cos(theta) reaches the nearer line.
   */
  function HitLine(x0: real, cosTheta: real, d: real, len: real): (hit: bool)
    ensures hit <==> (len / 2.0) * cosTheta >= Min(x0, d - x0)
  {
    if x0 >= d / 2.0 then (len / 2.0) * cosTheta >= d - x0
    else (len / 2.0) * cosTheta >= x0
  }

  /** A longer needle (at a non-negative cosine) hits whenever a shorter one does. */
  lemma HitLineMonotoneInLength(x0: real, cosTheta: real, d: real, len: real, len': real)
    requires cosTheta >= 0.0 && len <= len'
    requires HitLine(x0, cosTheta, d, len)
    ensures HitLine(x0, cosTheta, d, len')
  {
    assert (len / 2.0) * cosTheta <= (len' / 2.0) * cosTheta;
  }

  /** Number of hits among the n samples starting at index lo. */
  function Hits(x0: seq<real>, cosTheta: seq<real>, d: real, len: real, lo: nat, n: nat): (h: nat)
    requires lo + n <= |x0| && lo + n <= |cosTheta|
    ensures h <= n
  {
    if n == 0 then 0
    else Hits(x0, cosTheta, d, len, lo, n - 1)
         + (if HitLine(x0[lo + n - 1], cosTheta[lo + n - 1], d, len) then 1 else 0)
  }

  /** Hits in block i, which holds samples i R .. i R + R - 1 with R = |x0| / blocks. */
  function BlockHits(x0: seq<real>, cosTheta: seq<real>, d: real, len: real, blocks: nat, i: nat): (h: nat)
    requires i < blocks && |cosTheta| == |x0|
    ensures h <= |x0| / blocks
  {
    var R := |x0| / blocks;
    BlockFits(|x0|, blocks, i);
    Hits(x0, cosTheta, d, len, i * R, R)
  }

  /**
   * Block estimate 2 L R / (hits d). It solves Buffon's relation: the hit
   * frequency hits / R equals 2 L / (pi d).
   */
  function BlockEstimate(len: real, d: real, R: nat, hits: nat): (pi: real)
    requires 0 < hits <= R && d != 0.0
    ensures pi * d * ((hits as real) / (R as real)) == 2.0 * len
    ensures 0.0 < len && 0.0 < d ==> pi >= 2.0 * len / d
  {
    EstimateArithmetic(len, d, R as real, hits as real);
    2.0 * len * (R as real) / ((hits as real) * d)
  }

  lemma EstimateArithmetic(len: real, d: real, r: real, h: real)
    requires 0.0 < h <= r && d != 0.0
    ensures 2.0 * len * r / (h * d) * d * (h / r) == 2.0 * len
    ensures 0.0 < len && 0.0 < d ==> 2.0 * len * r / (h * d) >= 2.0 * len / d
  {
    var pi := 2.0 * len * r / (h * d);
    assert pi * (h * d) == 2.0 * len * r;
    assert pi * d * (h / r) * r == 2.0 * len * r;
    if 0.0 < len && 0.0 < d {
      assert pi * d * h == 2.0 * len * r;
      assert pi * d * h >= 2.0 * len * h;
    }
  }

  /** Every block has at least one hit, so no estimate divides by zero. */
  predicate EveryBlockHits(x0: seq<real>, cosTheta: seq<real>, d: real, len: real, blocks: nat)
    requires |cosTheta| == |x0|
  {
    forall i :: 0 <= i < blocks ==> BlockHits(x0, cosTheta, d, len, blocks, i) > 0
  }

  /** The series v_pi of block estimates. */
  function Estimates(x0: seq<real>, cosTheta: seq<real>, d: real, len: real, blocks: nat): (v: seq<real>)
    requires |cosTheta| == |x0| && d != 0.0
    requires EveryBlockHits(x0, cosTheta, d, len, blocks)
    ensures |v| == blocks
  {
    seq(blocks, i requires 0 <= i < blocks =>
      BlockEstimate(len, d, |x0| / blocks, BlockHits(x0, cosTheta, d, len, blocks, i)))
  }

  /** The count over a range depends on the samples in that range only. */
  lemma {:induction false} HitsLocal(x0: seq<real>, cosTheta: seq<real>, y0: seq<real>, cosPhi: seq<real>,
                                      d: real, len: real, lo: nat, n: nat)
    requires lo + n <= |x0| && lo + n <= |cosTheta| && lo + n <= |y0| && lo + n <= |cosPhi|
    requires x0[lo..lo + n] == y0[lo..lo + n] && cosTheta[lo..lo + n] == cosPhi[lo..lo + n]
    ensures Hits(x0, cosTheta, d, len, lo, n) == Hits(y0, cosPhi, d, len, lo, n)
  {
    if n > 0 {
      assert x0[lo + n - 1] == x0[lo..lo + n][n - 1];
      assert y0[lo + n - 1] == y0[lo..lo + n][n - 1];
      assert cosTheta[lo + n - 1] == cosTheta[lo..lo + n][n - 1];
      assert cosPhi[lo + n - 1] == cosPhi[lo..lo + n][n - 1];
      assert x0[lo..lo + n - 1] == x0[lo..lo + n][..n - 1];
      assert y0[lo..lo + n - 1] == y0[lo..lo + n][..n - 1];
      assert cosTheta[lo..lo + n - 1] == cosTheta[lo..lo + n][..n - 1];
      assert cosPhi[lo..lo + n - 1] == cosPhi[lo..lo + n][..n - 1];
      HitsLocal(x0, cosTheta, y0, cosPhi, d, len, lo, n - 1);
    }
  }

  /**
   * The samples at indices blocks * R and beyond are never read: two
   * sample sets of the same size that agree below blocks * R give the
   * same hit count in every block.
   */
  lemma TailNeverRead(x0: seq<real>, cosTheta: seq<real>, y0: seq<real>, cosPhi: seq<real>,
                      d: real, len: real, blocks: nat, i: nat)
    requires |cosTheta| == |x0| == |y0| == |cosPhi| && i < blocks
    requires x0[..blocks * (|x0| / blocks)] == y0[..blocks * (|x0| / blocks)]
    requires cosTheta[..blocks * (|x0| / blocks)] == cosPhi[..blocks * (|x0| / blocks)]
    ensures BlockHits(x0, cosTheta, d, len, blocks, i) == BlockHits(y0, cosPhi, d, len, blocks, i)
  {
    var R := |x0| / blocks;
    BlockInsidePrefix(|x0|, blocks, i);
    AgreeOnRange(x0, y0, blocks * R, i * R, R);
    AgreeOnRange(cosTheta, cosPhi, blocks * R, i * R, R);
    HitsLocal(x0, cosTheta, y0, cosPhi, d, len, i * R, R);
  }

  lemma BlockInsidePrefix(points: nat, blocks: nat, i: nat)
    requires i < blocks
    ensures i * (points / blocks) + points / blocks <= blocks * (points / blocks) <= points
  {
    MulMonotone(i + 1, blocks, points / blocks);
  }

  lemma AgreeOnRange(s: seq<real>, t: seq<real>, end: nat, lo: nat, n: nat)
    requires lo + n <= end <= |s| && end <= |t| && s[..end] == t[..end]
    ensures s[lo..lo + n] == t[lo..lo + n]
  {
    assert s[lo..lo + n] == s[..end][lo..lo + n];
    assert t[lo..lo + n] == t[..end][lo..lo + n];
  }

  /** The inner loop of block i: count the hits of the needles at k = j + i R, 0 <= j < R. */
  method CountBlockHits(x0: seq<real>, cosTheta: seq<real>, d: real, len: real, blocks: nat, i: nat)
    returns (hits: nat)
    requires |cosTheta| == |x0| && i < blocks
    ensures hits == BlockHits(x0, cosTheta, d, len, blocks, i)
  {
    var points := |x0|;
    var R := points / blocks;
    BlockFits(points, blocks, i);
    hits := 0;
    var j := 0;
    while j < R
      invariant j <= R
      invariant hits == Hits(x0, cosTheta, d, len, i * R, j)
    {
      var k := j + i * R;
      SampleIndex(points, blocks, i, j);
      if HitLine(x0[k], cosTheta[k], d, len) {
        hits := hits + 1;
      }
      j := j + 1;
    }
  }

  /**
   * The block loop: for each block, count the hits of its R needles at
   * indices k = j + i R, then store the estimate and its square.
   * The guard len < d is the one main checks before it aborts.
   */
  method RunBlocks(x0: seq<real>, cosTheta: seq<real>, d: real, len: real, blocks: nat)
    returns (vPi: array<real>, vPi2: array<real>)
    requires |cosTheta| == |x0| && blocks > 0
    requires 0.0 < d && len < d
    requires EveryBlockHits(x0, cosTheta, d, len, blocks)
    ensures fresh(vPi) && fresh(vPi2)
    ensures vPi[..] == Estimates(x0, cosTheta, d, len, blocks)
    ensures vPi2[..] == Squares(vPi[..])
  {
    var points := |x0|;
    var R := points / blocks;
    ghost var v := Estimates(x0, cosTheta, d, len, blocks);
    ghost var sq := Squares(v);
    vPi := new real[blocks];
    vPi2 := new real[blocks];
    var i := 0;
    while i < blocks
      invariant i <= blocks
      invariant forall k :: 0 <= k < i ==> vPi[k] == v[k] && vPi2[k] == sq[k]
    {
      var hits := CountBlockHits(x0, cosTheta, d, len, blocks, i);
      var estimate := BlockEstimate(len, d, R, hits);
      assert estimate == v[i];
      SquareAt(v, i, estimate);
      vPi[i] := estimate;
      vPi2[i] := estimate * estimate;
      i := i + 1;
    }
    assert vPi[..] == v;
    assert vPi2[..] == sq;
  }

  /**
   * The whole computation after sampling: block loop, then the
   * prefix-statistics loop. The final cumulative mean is the mean of all
   * block estimates, and every squared error is non-negative.
   */
  method Simulate(x0: seq<real>, cosTheta: seq<real>, d: real, len: real, blocks: nat)
    returns (sumProg: array<real>, errSq: array<real>)
    requires |cosTheta| == |x0| && blocks > 0
    requires 0.0 < d && len < d
    requires EveryBlockHits(x0, cosTheta, d, len, blocks)
    ensures fresh(sumProg) && fresh(errSq)
    ensures sumProg[..] == PrefixMeans(Estimates(x0, cosTheta, d, len, blocks))
    ensures errSq.Length == blocks
    ensures forall i :: 0 <= i < blocks ==> errSq[i] == CurveRadicand(Estimates(x0, cosTheta, d, len, blocks), i)
    ensures forall i :: 0 <= i < blocks ==> errSq[i] >= 0.0
    ensures sumProg[blocks - 1] == Mean(Estimates(x0, cosTheta, d, len, blocks))
  {
    var vPi, vPi2 := RunBlocks(x0, cosTheta, d, len, blocks);
    var su2Prog;
    sumProg, su2Prog, errSq := PrefixStatistics(vPi, vPi2);
    ghost var v := vPi[..];
    forall i | 0 <= i < blocks
      ensures errSq[i] == CurveRadicand(v, i) && errSq[i] >= 0.0
    {
      RadicandNonNegative(v, i);
    }
    LastMeanIsFullMean(v);
  }
}
