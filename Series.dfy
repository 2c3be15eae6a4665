/**
 * Pi from the Leibniz series 4 * sum_k (-1)^k / (2k + 1): the plain
 * partial sums, the non-alternating variant that adds consecutive terms
 * in pairs, the list of terms, and Wynn's epsilon algorithm applied to
 * the partial sums to accelerate their convergence.
 */
module Series {
  import opened BlockStatistics

  datatype Option<T> = None | Some(value: T)

  // ---------------------------------------------------------------------
  // The series
  // ---------------------------------------------------------------------

  /** (-1)^k as the loops compute it: 1 for even k, -1 for odd k. */
  function Sign(k: nat): real
  {
    if k % 2 == 0 then 1.0 else -1.0
  }

  /** Term k of the Leibniz series, (-1)^k / (2k + 1). */
  function Term(k: nat): real
  {
    Sign(k) / ((2 * k + 1) as real)
  }

  /** Sum of the first n terms of the Leibniz series. */
  function LeibnizSum(n: nat): real
  {
    if n == 0 then 0.0 else LeibnizSum(n - 1) + Term(n - 1)
  }

  /** Term k of the non-alternating series, 2 / ((4k + 1)(4k + 3)). */
  function PairTerm(k: nat): real
  {
    2.0 / (((4 * k + 1) as real) * ((4 * k + 3) as real))
  }

  /** Sum of the first n terms of the non-alternating series. */
  function PairSum(n: nat): real
  {
    if n == 0 then 0.0 else PairSum(n - 1) + PairTerm(n - 1)
  }

  /**
   * leibniz: start from the term for k = 0, which is 1, add the terms for
   * k = 1 .. order, and multiply by 4.
   */
  method Leibniz(order: int) returns (r: real)
    requires order >= 0
    ensures r == 4.0 * LeibnizSum(order + 1)
    ensures order == 0 ==> r == 4.0
  {
    var s := 1.0;
    var k := 1;
    while k < order + 1
      invariant 1 <= k <= order + 1
      invariant s == LeibnizSum(k)
    {
      var sgn := if k % 2 == 0 then 1.0 else -1.0;
      var term := sgn / ((2 * k + 1) as real);
      s := s + term;
      k := k + 1;
    }
    r := 4.0 * s;
  }

  /** nonalternating_leibniz: add 2 / ((4k + 1)(4k + 3)) for k = 0 .. order, and multiply by 4. */
  method NonalternatingLeibniz(order: int) returns (r: real)
    requires order >= 0
    ensures r == 4.0 * PairSum(order + 1)
  {
    var s := 0.0;
    var k := 0;
    while k < order + 1
      invariant 0 <= k <= order + 1
      invariant s == PairSum(k)
    {
      s := s + 2.0 / (((4 * k + 1) as real) * ((4 * k + 3) as real));
      k := k + 1;
    }
    r := 4.0 * s;
  }

  /** 1/a - 1/(a + 2) == 2 / (a (a + 2)). */
  lemma ReciprocalDifference(a: real, b: real)
    requires a > 0.0 && b == a + 2.0
    ensures 1.0 / a + -1.0 / b == 2.0 / (a * b)
  {
    var x, y, z := 1.0 / a, -1.0 / b, 2.0 / (a * b);
    assert x * a == 1.0;
    assert y * b == -1.0;
    assert z * (a * b) == 2.0;
    assert (x + y) * (a * b) == (x * a) * b + (y * b) * a;
    Cancel(x + y, z, a * b);
  }

  lemma Cancel(u: real, v: real, w: real)
    requires w != 0.0 && u * w == v * w
    ensures u == v
  {
    assert (u - v) * w == 0.0;
  }

  /** A term of the non-alternating series is two consecutive Leibniz terms. */
  lemma PairTermIsTwoTerms(k: nat)
    ensures PairTerm(k) == Term(2 * k) + Term(2 * k + 1)
  {
    assert Sign(2 * k) == 1.0 && Sign(2 * k + 1) == -1.0;
    var a, b := (4 * k + 1) as real, (4 * k + 3) as real;
    assert Term(2 * k) == 1.0 / a;
    assert Term(2 * k + 1) == -1.0 / b;
    ReciprocalDifference(a, b);
  }

  /** The first n paired terms add up to the first 2n Leibniz terms. */
  lemma {:induction false} PairSumIsLeibnizSum(n: nat)
    ensures PairSum(n) == LeibnizSum(2 * n)
  {
    if n > 0 {
      PairSumIsLeibnizSum(n - 1);
      PairTermIsTwoTerms(n - 1);
      assert LeibnizSum(2 * n) == LeibnizSum(2 * n - 1) + Term(2 * n - 1);
      assert LeibnizSum(2 * n - 1) == LeibnizSum(2 * (n - 1)) + Term(2 * (n - 1));
    }
  }

  /** nonalternating_leibniz(order) computes the same value as leibniz(2 order + 1). */
  lemma NonalternatingIsLeibniz(order: nat)
    ensures 4.0 * PairSum(order + 1) == 4.0 * LeibnizSum(2 * order + 1 + 1)
  {
    PairSumIsLeibnizSum(order + 1);
  }

  // ---------------------------------------------------------------------
  // The list of terms and its partial sums
  // ---------------------------------------------------------------------

  /** The first order + 1 terms of the series, each multiplied by 4. */
  function LeibnizTerms(order: nat): (terms: seq<real>)
    ensures |terms| == order + 1
  {
    seq(order + 1, k requires 0 <= k <= order => 4.0 * Term(k))
  }

  /** list_leibniz_terms: the list [4.0] extended by 4 (-1)^k / (2k + 1) for k = 1 .. order. */
  method ListLeibnizTerms(order: int) returns (terms: seq<real>)
    requires order >= 0
    ensures terms == LeibnizTerms(order)
    ensures |terms| == order + 1 && terms[0] == 4.0
  {
    terms := [4.0];
    var k := 1;
    while k < order + 1
      invariant 1 <= k <= order + 1
      invariant terms == LeibnizTerms(k - 1)
    {
      var sgn := if k % 2 == 0 then 1.0 else -1.0;
      var term := 4.0 * sgn / ((2 * k + 1) as real);
      ScaledQuotient(sgn, (2 * k + 1) as real, 4.0);
      terms := terms + [term];
      k := k + 1;
    }
  }

  /** The comprehension of weps_leibniz: entry i is the sum of the first i + 1 entries. */
  function PartialSums(terms: seq<real>): (sums: seq<real>)
    ensures |sums| == |terms|
  {
    seq(|terms|, i requires 0 <= i < |terms| => Sum(terms[..i + 1]))
  }

  lemma {:induction false} SumOfTerms(order: nat, n: nat)
    requires n <= order + 1
    ensures Sum(LeibnizTerms(order)[..n]) == 4.0 * LeibnizSum(n)
  {
    if n > 0 {
      var t := LeibnizTerms(order);
      SumOfTerms(order, n - 1);
      assert t[..n][..n - 1] == t[..n - 1];
    }
  }

  /** The partial sums of the term list are the values leibniz(i) for i = 0 .. order. */
  lemma PartialSumsAreLeibniz(order: nat, i: nat)
    requires i <= order
    ensures PartialSums(LeibnizTerms(order))[i] == 4.0 * LeibnizSum(i + 1)
  {
    SumOfTerms(order, i + 1);
  }

  // ---------------------------------------------------------------------
  // Wynn's epsilon algorithm
  // ---------------------------------------------------------------------

  /** 1 / x, and 0 where x is 0 (a case NoBreakdown rules out for every entry used). */
  function Inverse(x: real): real
  {
    if x == 0.0 then 0.0 else 1.0 / x
  }

  /**
   * Entry (j, i) of the epsilon table of s: column 0 is 0, column 1 is s,
   * and for i >= 2 the entries with j + i < |s| follow the recurrence
   * e[j, i] = e[j + 1, i - 2] + 1 / (e[j + 1, i - 1] - e[j, i - 1]); the
   * others are never written and stay 0.
   */
  function Eps(s: seq<real>, j: nat, i: nat): real
    requires j < |s|
    decreases i
  {
    if i == 0 then 0.0
    else if i == 1 then s[j]
    else if j + i < |s| then Eps(s, j + 1, i - 2) + Inverse(Eps(s, j + 1, i - 1) - Eps(s, j, i - 1))
    else 0.0
  }

  /** No entry of the table up to column n divides by zero. */
  predicate NoBreakdown(s: seq<real>, n: nat)
  {
    forall c: nat, j: nat :: 1 <= c < n && j + c + 1 < |s| ==> Eps(s, j + 1, c) != Eps(s, j, c)
  }

  /**
   * The two loops of wynn_epsilon that fill the table e of |s| rows and
   * n + 1 columns: column 1 is the sequence, then columns 2 .. n in turn.
   */
  method FillEpsilonTable(s: seq<real>, n: nat) returns (e: array2<real>)
    requires n >= 1
    requires NoBreakdown(s, n)
    ensures fresh(e)
    ensures e.Length0 == |s| && e.Length1 == n + 1
    ensures forall j, i :: 0 <= j < |s| && 0 <= i <= n ==> e[j, i] == Eps(s, j, i)
    ensures forall j :: 0 <= j < |s| ==> e[j, 0] == 0.0 && e[j, 1] == s[j]
    ensures forall j, i :: 0 <= j < |s| && 2 <= i <= n && j + i >= |s| ==> e[j, i] == 0.0
  {
    var m := |s|;
    e := new real[m, n + 1]((_, _) => 0.0);
    var r := 0;
    while r < m
      invariant r <= m
      invariant forall j, c :: 0 <= j < m && 0 <= c <= n && c != 1 ==> e[j, c] == 0.0
      invariant forall j :: 0 <= j < r ==> e[j, 1] == s[j]
    {
      e[r, 1] := s[r];
      r := r + 1;
    }
    var i := 2;
    while i < n + 1
      invariant 2 <= i <= n + 1
      invariant forall j, c :: 0 <= j < m && 0 <= c < i ==> e[j, c] == Eps(s, j, c)
      invariant forall j, c :: 0 <= j < m && i <= c <= n ==> e[j, c] == 0.0
    {
      FillColumn(e, s, n, i);
      i := i + 1;
    }
  }

  /** The inner loop for column i: e[j, i] for the rows j < |s| - i; nothing else changes. */
  method FillColumn(e: array2<real>, s: seq<real>, n: nat, i: nat)
    requires 2 <= i <= n && NoBreakdown(s, n)
    requires e.Length0 == |s| && e.Length1 == n + 1
    requires forall j, c :: 0 <= j < |s| && 0 <= c < i ==> e[j, c] == Eps(s, j, c)
    requires forall j :: 0 <= j < |s| ==> e[j, i] == 0.0
    modifies e
    ensures forall j, c :: 0 <= j < |s| && 0 <= c <= n && c != i ==> e[j, c] == old(e[j, c])
    ensures forall j :: 0 <= j < |s| ==> e[j, i] == Eps(s, j, i)
  {
    var m := |s|;
    var j := 0;
    while j < m - i
      invariant 0 <= j && (j == 0 || j <= m - i)
      invariant forall jj, c :: 0 <= jj < m && 0 <= c <= n && c != i ==> e[jj, c] == old(e[jj, c])
      invariant forall jj :: 0 <= jj < j ==> e[jj, i] == Eps(s, jj, i)
      invariant forall jj :: j <= jj < m ==> e[jj, i] == 0.0
    {
      EpsStep(s, n, j, i, e[j + 1, i - 2], e[j + 1, i - 1], e[j, i - 1]);
      e[j, i] := e[j + 1, i - 2] + 1.0 / (e[j + 1, i - 1] - e[j, i - 1]);
      j := j + 1;
    }
    forall jj | 0 <= jj < m && jj + i >= m
      ensures Eps(s, jj, i) == 0.0
    {
    }
  }

  /** An entry the loops write follows the recurrence with a nonzero denominator. */
  lemma EpsStep(s: seq<real>, n: nat, j: nat, i: nat, a: real, b: real, c: real)
    requires NoBreakdown(s, n) && 2 <= i <= n && j + i < |s|
    requires a == Eps(s, j + 1, i - 2) && b == Eps(s, j + 1, i - 1) && c == Eps(s, j, i - 1)
    ensures b - c != 0.0 && Eps(s, j, i) == a + 1.0 / (b - c)
  {
  }

  /** Number of columns of e[:, 1 : m + 1 : 2] for a table with n + 1 columns. */
  function SliceColumns(m: nat, n: nat): nat
  {
    if m < n then (m + 1) / 2 else (n + 1) / 2
  }

  lemma SliceColumnsFit(m: nat, n: nat, c: nat)
    requires c < SliceColumns(m, n)
    ensures 2 * c + 1 <= n && 2 * c + 1 <= m
  {
  }

  /**
   * wynn_epsilon: n = 2 iteration + 1 columns after column 0; the result
   * keeps the odd columns 1, 3, 5, ... below m + 1, so column c of the
   * result is column 2c + 1 of the table.
   */
  method WynnEpsilon(s: seq<real>, iteration: int) returns (res: array2<real>)
    requires iteration >= 1
    requires NoBreakdown(s, 2 * iteration + 1)
    ensures fresh(res)
    ensures res.Length0 == |s| && res.Length1 == SliceColumns(|s|, 2 * iteration + 1)
    ensures forall j, c :: 0 <= j < |s| && 0 <= c < res.Length1 ==> res[j, c] == Eps(s, j, 2 * c + 1)
  {
    var n := 2 * iteration + 1;
    var m := |s|;
    var e := FillEpsilonTable(s, n);
    var cols := SliceColumns(m, n);
    if cols > 0 {
      SliceColumnsFit(m, n, cols - 1);
    }
    res := OddColumns(e, cols);
    forall j, c | 0 <= j < m && 0 <= c < cols
      ensures res[j, c] == Eps(s, j, 2 * c + 1)
    {
      SliceColumnsFit(m, n, c);
    }
  }

  /** e[:, 1 : 2 cols : 2]: column c of the result is column 2c + 1 of e. */
  method OddColumns(e: array2<real>, cols: nat) returns (res: array2<real>)
    requires 2 * cols <= e.Length1
    ensures fresh(res)
    ensures res.Length0 == e.Length0 && res.Length1 == cols
    ensures forall j, c :: 0 <= j < e.Length0 && 0 <= c < cols ==> res[j, c] == e[j, 2 * c + 1]
  {
    res := new real[e.Length0, cols]((_, _) => 0.0);
    var c := 0;
    while c < cols
      invariant c <= cols
      invariant forall j, cc :: 0 <= j < e.Length0 && 0 <= cc < c ==> res[j, cc] == e[j, 2 * cc + 1]
    {
      CopyColumn(res, e, c, 2 * c + 1);
      c := c + 1;
    }
  }

  /** Copy column src of e into column c of res; the other columns of res stay as they are. */
  method CopyColumn(res: array2<real>, e: array2<real>, c: nat, src: nat)
    requires res != e && res.Length0 == e.Length0
    requires c < res.Length1 && src < e.Length1
    modifies res
    ensures forall j, cc :: 0 <= j < res.Length0 && 0 <= cc < res.Length1 && cc != c ==> res[j, cc] == old(res[j, cc])
    ensures forall j :: 0 <= j < res.Length0 ==> res[j, c] == e[j, src]
  {
    var j := 0;
    while j < res.Length0
      invariant j <= res.Length0
      invariant forall jj, cc :: 0 <= jj < res.Length0 && 0 <= cc < res.Length1 && cc != c ==> res[jj, cc] == old(res[jj, cc])
      invariant forall jj :: 0 <= jj < j ==> res[jj, c] == e[jj, src]
    {
      res[j, c] := e[j, src];
      j := j + 1;
    }
  }

  /**
   * weps_leibniz: the partial sums of the order + 1 terms go through
   * wynn_epsilon; the answer is row -(2 iteration + 2) of result column
   * `iteration`, i.e. the deepest entry of table column 2 iteration + 1.
   * With fewer than 2 iteration + 2 partial sums that row does not exist
   * (Python raises IndexError): the result is None.
   */
  method WepsLeibniz(order: int, iteration: int) returns (r: Option<real>)
    requires order >= 0 && iteration >= 1
    requires NoBreakdown(PartialSums(LeibnizTerms(order)), 2 * iteration + 1)
    ensures order < 2 * iteration + 1 ==> r == None
    ensures order >= 2 * iteration + 1 ==>
              r == Some(Eps(PartialSums(LeibnizTerms(order)), order - 2 * iteration - 1, 2 * iteration + 1))
  {
    var terms := ListLeibnizTerms(order);
    var sums := PartialSums(terms);
    var res := WynnEpsilon(sums, iteration);
    var back := 2 * (iteration - 1) + 4;
    if back > res.Length0 {
      r := None;
    } else {
      r := Some(res[res.Length0 - back, iteration]);
    }
  }

  // ---------------------------------------------------------------------
  // What the third column computes
  // ---------------------------------------------------------------------

  /**
   * Aitken's delta-squared transform of three consecutive terms:
   * x2 - (x2 - x1)^2 / (x2 - 2 x1 + x0).
   */
  function Aitken(x0: real, x1: real, x2: real): real
    requires x2 - x1 != x1 - x0
  {
    x2 - (x2 - x1) * (x2 - x1) / ((x2 - x1) - (x1 - x0))
  }

  /**
   * Column 3 is Aitken's delta-squared transform of s, whenever the two
   * differences are nonzero and distinct.
   */
  lemma ThirdColumnIsAitken(s: seq<real>, j: nat)
    requires j + 3 < |s|
    requires s[j + 1] - s[j] != 0.0 && s[j + 2] - s[j + 1] != 0.0
    requires s[j + 2] - s[j + 1] != s[j + 1] - s[j]
    ensures Eps(s, j, 3) == Aitken(s[j], s[j + 1], s[j + 2])
  {
    var x0, x1, x2 := s[j], s[j + 1], s[j + 2];
    assert Eps(s, j, 2) == Inverse(x1 - x0);
    assert Eps(s, j + 1, 2) == Inverse(x2 - x1);
    assert Eps(s, j, 3) == x1 + Inverse(Inverse(x2 - x1) - Inverse(x1 - x0));
    AitkenArithmetic(x0, x1, x2);
  }

  lemma AitkenArithmetic(x0: real, x1: real, x2: real)
    requires x1 - x0 != 0.0 && x2 - x1 != 0.0 && x2 - x1 != x1 - x0
    ensures x1 + Inverse(Inverse(x2 - x1) - Inverse(x1 - x0)) == Aitken(x0, x1, x2)
  {
    var d0, d1 := x1 - x0, x2 - x1;
    var u, v := 1.0 / d1, 1.0 / d0;
    assert u * d1 == 1.0 && v * d0 == 1.0;
    assert (u - v) * (d0 * d1) == d0 - d1;
    var w := 1.0 / (u - v);
    assert w * (u - v) == 1.0;
    assert w * (d0 - d1) == d0 * d1;
    var t := d1 * d1 / (d1 - d0);
    assert t * (d1 - d0) == d1 * d1;
    Cancel(w, d1 - t, d0 - d1);
  }

  /**
   * Shanks' transform is exact on a geometric sequence: if every error
   * s[j] - L is q times the previous one (q not 0 or 1, s[j] != L), the
   * third column of the table holds the limit L.
   */
  lemma ShanksExactOnGeometric(s: seq<real>, limit: real, q: real, j: nat)
    requires j + 3 < |s|
    requires q != 0.0 && q != 1.0 && s[j] != limit
    requires forall k :: 0 <= k < |s| - 1 ==> s[k + 1] - limit == q * (s[k] - limit)
    ensures Eps(s, j, 3) == limit
  {
    assert s[j + 1] - limit == q * (s[j] - limit);
    assert s[j + 2] - limit == q * (s[j + 1] - limit);
    GeometricDifferences(s[j], s[j + 1], s[j + 2], limit, q);
    ThirdColumnIsAitken(s, j);
    GeometricAitken(s[j], s[j + 1], s[j + 2], limit, q);
  }

  lemma GeometricDifferences(x0: real, x1: real, x2: real, limit: real, q: real)
    requires q != 0.0 && q != 1.0 && x0 != limit
    requires x1 - limit == q * (x0 - limit) && x2 - limit == q * (x1 - limit)
    ensures x1 - x0 != 0.0 && x2 - x1 != 0.0 && x2 - x1 != x1 - x0
  {
    var a := x0 - limit;
    assert x1 - x0 == (q - 1.0) * a;
    assert x2 - x1 == q * ((q - 1.0) * a);
    MulNonZero(q - 1.0, a);
    MulNonZero(q, (q - 1.0) * a);
    assert (x2 - x1) - (x1 - x0) == (q - 1.0) * ((q - 1.0) * a);
    MulNonZero(q - 1.0, (q - 1.0) * a);
  }

  lemma MulNonZero(a: real, b: real)
    requires a != 0.0 && b != 0.0
    ensures a * b != 0.0
  {
  }

  lemma GeometricAitken(x0: real, x1: real, x2: real, limit: real, q: real)
    requires q != 0.0 && q != 1.0 && x0 != limit
    requires x1 - limit == q * (x0 - limit) && x2 - limit == q * (x1 - limit)
    requires x2 - x1 != x1 - x0
    ensures Aitken(x0, x1, x2) == limit
  {
    var a := x0 - limit;
    var d0 := (q - 1.0) * a;
    assert x1 - x0 == d0;
    assert x2 - x1 == q * d0;
    var den := (x2 - x1) - (x1 - x0);
    assert den == (q - 1.0) * d0;
    assert den != 0.0;
    var t := (x2 - x1) * (x2 - x1) / den;
    assert t * den == (q * d0) * (q * d0);
    assert (q * q * a) * den == (q * d0) * (q * d0);
    Cancel(t, q * q * a, den);
    assert x2 - limit == q * q * a;
  }
}
