/** The autocorrelation statistics of `scripts/correlations.py`: the lag check and
    slicing shared by both statistics, the Pearson statistic summed over the
    dimensions, and the cosine statistic averaged over the pairs whose norms are
    both positive. Real arithmetic is exact; `sqrt` is a parameter, and the final
    Pearson quotient is kept symbolic. */
module Correlations {
  import opened Common

  /** What `_prepare_data_for_autocorrelation` returns: the unshifted series `Su`,
      the lagged series `Sl`, and the number of pairs `M`. */
  datatype Slices = Slices(su: seq<Vector>, sl: seq<Vector>, m: nat)

  /** The input series: a dense NumPy array or a SciPy sparse matrix, row by row. */
  datatype Series = Dense(rows: seq<Vector>) | Sparse(rows: seq<Vector>)

  /** The Pearson statistic: `float('nan')`, or `cov / sqrt(varSu * varSl)` with the
      square root and the division left symbolic. */
  datatype PearsonValue = PearsonNaN | Ratio(cov: real, varSu: real, varSl: real)

  /** `_prepare_data_for_autocorrelation(x, L)`: a lag outside `[1, N)` raises
      `ValueError`; otherwise pair `i` is row `i` with row `i + L`. */
  function PrepareData(x: seq<Vector>, lag: int): (r: Result<Slices>)
    ensures r.Raise? <==> lag < 1 || lag >= |x|
    ensures r.Raise? ==> r.error == ValueError
    ensures r.Ok? ==> r.value.m == |x| - lag && |r.value.su| == r.value.m && |r.value.sl| == r.value.m
    ensures r.Ok? ==> forall i :: 0 <= i < r.value.m ==> r.value.su[i] == x[i] && r.value.sl[i] == x[i + lag]
  {
    if lag < 1 || lag >= |x| then Raise(ValueError)
    else
      var m := |x| - lag;
      Ok(Slices(x[0..m], x[lag..m + lag], m))
  }

  // ---------------------------------------------------------------- Pearson

  /** Column `j` of a series, `S[:, j]`. */
  function Column(x: seq<Vector>, j: nat): (c: seq<real>)
    requires forall i :: 0 <= i < |x| ==> j < |x[i]|
    ensures |c| == |x| && forall i :: 0 <= i < |x| ==> c[i] == x[i][j]
  {
    seq(|x|, i requires 0 <= i < |x| => x[i][j])
  }

  /** One entry of `cov_c = mean(Su * Sl) - mean(Su) * mean(Sl)`; with `b == a` it is
      the entry `mean(Su ** 2) - mean(Su) ** 2` of `var_Su_c`. */
  function ColumnCovariance(a: seq<real>, b: seq<real>): real
    requires |a| == |b| > 0
  {
    Mean(Multiply(a, b)) - Mean(a) * Mean(b)
  }

  /** The vector `cov_c` of column-wise covariances over the first `d` dimensions. */
  function Covariances(u: seq<Vector>, l: seq<Vector>, d: nat): (c: seq<real>)
    requires |u| == |l| > 0
    requires forall i :: 0 <= i < |u| ==> d <= |u[i]| && d <= |l[i]|
    ensures |c| == d
  {
    seq(d, j requires 0 <= j < d => ColumnCovariance(Column(u, j), Column(l, j)))
  }

  /** `np.sum(cov_c)`. */
  function CovarianceSum(u: seq<Vector>, l: seq<Vector>, d: nat): real
    requires |u| == |l| > 0
    requires forall i :: 0 <= i < |u| ==> d <= |u[i]| && d <= |l[i]|
  {
    Sum(Covariances(u, l, d))
  }

  /** The number of columns of a two-dimensional array. */
  function Width(x: seq<Vector>): nat
  {
    if |x| == 0 then 0 else |x[0]|
  }

  /** `calculate_pearson_correlation(x, L)`. */
  function PearsonCorrelation(x: seq<Vector>, lag: int): (r: Result<PearsonValue>)
    requires Rectangular(x)
    ensures r.Raise? <==> lag < 1 || lag >= |x|
    ensures r.Raise? ==> r.error == ValueError
  {
    match PrepareData(x, lag)
    case Raise(e) => Raise(e)
    case Ok(s) =>
      var d := Width(x);
      var varSu := CovarianceSum(s.su, s.su, d);
      var varSl := CovarianceSum(s.sl, s.sl, d);
      var cov := CovarianceSum(s.su, s.sl, d);
      if varSu == 0.0 || varSl == 0.0 then Ok(PearsonNaN) else Ok(Ratio(cov, varSu, varSl))
  }

  /** The sum of cross deviations `sum_i (a[i] - ma) * (b[i] - mb)`. */
  function CrossDeviation(a: seq<real>, b: seq<real>, ma: real, mb: real): real
    requires |a| == |b|
  {
    if |a| == 0 then 0.0
    else CrossDeviation(a[..|a| - 1], b[..|b| - 1], ma, mb) + (a[|a| - 1] - ma) * (b[|b| - 1] - mb)
  }

  /** The sum of squared deviations from `m`, `sum_i (a[i] - m) ** 2`. */
  function SquaredDeviation(a: seq<real>, m: real): real
  {
    CrossDeviation(a, a, m, m)
  }

  lemma {:induction false} SquaredDeviationNonNegative(a: seq<real>, m: real)
    ensures SquaredDeviation(a, m) >= 0.0
  {
    if |a| > 0 {
      SquaredDeviationNonNegative(a[..|a| - 1], m);
      var e := a[|a| - 1] - m;
      assert e * e >= 0.0;
    }
  }

  lemma {:induction false} CrossDeviationExpand(a: seq<real>, b: seq<real>, ma: real, mb: real)
    requires |a| == |b|
    ensures CrossDeviation(a, b, ma, mb) == Dot(a, b) - mb * Sum(a) - ma * Sum(b) + (|a| as real) * ma * mb
  {
    if |a| > 0 {
      CrossDeviationExpand(a[..|a| - 1], b[..|b| - 1], ma, mb);
      ExpandSnoc(a, b, ma, mb);
    } else {
      ExpandBase(CrossDeviation(a, b, ma, mb), Dot(a, b), Sum(a), Sum(b), |a| as real, ma, mb);
    }
  }

  /** The expansion of `CrossDeviationExpand` carries over from all pairs but the
      last to all pairs. */
  lemma ExpandSnoc(a: seq<real>, b: seq<real>, ma: real, mb: real)
    requires |a| == |b| > 0
    requires var p, q := a[..|a| - 1], b[..|b| - 1];
      CrossDeviation(p, q, ma, mb) == Dot(p, q) - mb * Sum(p) - ma * Sum(q) + (|p| as real) * ma * mb
    ensures CrossDeviation(a, b, ma, mb) == Dot(a, b) - mb * Sum(a) - ma * Sum(b) + (|a| as real) * ma * mb
  {
    var p, q := a[..|a| - 1], b[..|b| - 1];
    ExpandStep(CrossDeviation(p, q, ma, mb), Dot(p, q), Sum(p), Sum(q), |p| as real, ma, mb, a[|a| - 1], b[|b| - 1],
      CrossDeviation(a, b, ma, mb), Dot(a, b), Sum(a), Sum(b), |a| as real);
  }

  /** The expansion of `CrossDeviationExpand` for no pairs. */
  lemma ExpandBase(c: real, d: real, sa: real, sb: real, n: real, ma: real, mb: real)
    requires c == 0.0 && d == 0.0 && sa == 0.0 && sb == 0.0 && n == 0.0
    ensures c == d - mb * sa - ma * sb + n * ma * mb
  {
  }

  /** One more pair `(x, y)` keeps the expansion of `CrossDeviationExpand`: the
      primed values are the unprimed ones after the pair. */
  lemma ExpandStep(c: real, d: real, sa: real, sb: real, n: real, ma: real, mb: real, x: real, y: real,
                   c': real, d': real, sa': real, sb': real, n': real)
    requires c == d - mb * sa - ma * sb + n * ma * mb
    requires c' == c + (x - ma) * (y - mb) && d' == d + x * y && sa' == sa + x && sb' == sb + y && n' == n + 1.0
    ensures c' == d' - mb * sa' - ma * sb' + n' * ma * mb
  {
    assert (x - ma) * (y - mb) == x * y - mb * x - ma * y + ma * mb;
    assert n' * ma * mb == n * ma * mb + ma * mb;
    assert mb * sa' == mb * sa + mb * x && ma * sb' == ma * sb + ma * y;
  }

  /** With `Sa = n * ma` and `Sb = n * mb`, the sum of cross deviations is
      `D - n * ma * mb`. */
  lemma CrossDeviationCentred(a: seq<real>, b: seq<real>, ma: real, mb: real)
    requires |a| == |b| > 0
    requires Sum(a) == (|a| as real) * ma && Sum(b) == (|a| as real) * mb
    ensures CrossDeviation(a, b, ma, mb) == Dot(a, b) - (|a| as real) * ma * mb
  {
    CrossDeviationExpand(a, b, ma, mb);
  }

  /** The sum is the length times the mean. */
  lemma MeanTimesLength(a: seq<real>, n: real)
    requires |a| > 0 && n == |a| as real
    ensures Sum(a) == n * Mean(a)
  {
  }

  /** `CrossDeviationCentred` at the means of `a` and `b`. */
  lemma CrossDeviationAtMeans(a: seq<real>, b: seq<real>, ma: real, mb: real)
    requires |a| == |b| > 0 && ma == Mean(a) && mb == Mean(b)
    ensures CrossDeviation(a, b, ma, mb) == Dot(a, b) - (|a| as real) * ma * mb
  {
    MeanTimesLength(a, |a| as real);
    MeanTimesLength(b, |a| as real);
    CrossDeviationCentred(a, b, ma, mb);
  }

  /** Dividing `q == d - n * ma * mb` by `n`. */
  lemma CovarianceAlgebra(d: real, n: real, ma: real, mb: real, q: real)
    requires n > 0.0 && q == d - n * ma * mb
    ensures q / n == d / n - ma * mb
  {
  }

  /** `D / n - ma * mb` at the means is the mean cross deviation. */
  lemma CovarianceAtMeans(a: seq<real>, b: seq<real>, ma: real, mb: real)
    requires |a| == |b| > 0 && ma == Mean(a) && mb == Mean(b)
    ensures Dot(a, b) / (|a| as real) - ma * mb == CrossDeviation(a, b, ma, mb) / (|a| as real)
  {
    CrossDeviationAtMeans(a, b, ma, mb);
    CovarianceAlgebra(Dot(a, b), |a| as real, ma, mb, CrossDeviation(a, b, ma, mb));
  }

  /** The mean of the element-wise products is the dot product over the length. */
  lemma MeanOfProducts(a: seq<real>, b: seq<real>)
    requires |a| == |b| > 0
    ensures Mean(Multiply(a, b)) == Dot(a, b) / (|a| as real)
  {
    DotIsSumOfProducts(a, b);
  }

  /** `mean(a * b) - mean(a) * mean(b)` is the mean cross deviation from the means. */
  lemma ColumnCovarianceIsMeanCrossDeviation(a: seq<real>, b: seq<real>)
    requires |a| == |b| > 0
    ensures ColumnCovariance(a, b) == CrossDeviation(a, b, Mean(a), Mean(b)) / (|a| as real)
  {
    MeanOfProducts(a, b);
    CovarianceAtMeans(a, b, Mean(a), Mean(b));
  }

  /** Each entry `mean(Su ** 2) - mean(Su) ** 2` of `var_Su_c` is the mean squared
      deviation from the mean, so it is never negative. */
  lemma ColumnVarianceNonNegative(a: seq<real>)
    requires |a| > 0
    ensures ColumnCovariance(a, a) == SquaredDeviation(a, Mean(a)) / (|a| as real)
    ensures ColumnCovariance(a, a) >= 0.0
  {
    ColumnCovarianceIsMeanCrossDeviation(a, a);
    SquaredDeviationNonNegative(a, Mean(a));
  }

  // ---------------------------------------------------------------- Cauchy-Schwarz

  /** Multiplying inequalities between non-negative numbers. */
  lemma MultiplyBounds(p: real, q: real, r: real, s: real)
    requires 0.0 <= p <= q && 0.0 <= r <= s
    ensures p * r <= q * s
  {
    assert p * r <= q * r;
    assert q * r <= q * s;
  }

  /** A number whose square is at most the square of a non-negative `s` is at most `s`. */
  lemma SquareBound(t: real, s: real)
    requires s >= 0.0 && t * t <= s * s
    ensures t <= s
  {
    DifferenceOfSquares(s, t);
    if t > 0.0 {
      CancelPositive(0.0, s - t, s + t);
    }
  }

  lemma DifferenceOfSquares(s: real, t: real)
    ensures (s - t) * (s + t) == s * s - t * t
  {
  }

  /** The arithmetic-geometric mean inequality: `w * w <= p * q` gives `2 * w <= p + q`. */
  lemma TwiceBelowSum(p: real, q: real, w: real)
    requires p >= 0.0 && q >= 0.0 && w * w <= p * q
    ensures 2.0 * w <= p + q
  {
    assert (p + q) * (p + q) == 4.0 * (p * q) + (p - q) * (p - q);
    assert (2.0 * w) * (2.0 * w) == 4.0 * (w * w);
    SquareBound(2.0 * w, p + q);
  }

  /** One more term keeps `C * C <= A * B` when it satisfies the same bound. */
  lemma CauchySchwarzStep(a: real, b: real, c: real, u: real, v: real, w: real)
    requires a >= 0.0 && b >= 0.0 && u >= 0.0 && v >= 0.0
    requires c * c <= a * b && w * w <= u * v
    ensures (c + w) * (c + w) <= (a + u) * (b + v)
  {
    assert c * c >= 0.0 && w * w >= 0.0;
    MultiplyBounds(c * c, a * b, w * w, u * v);
    assert (c * w) * (c * w) == (c * c) * (w * w);
    assert (a * b) * (u * v) == (a * v) * (u * b);
    assert a * v >= 0.0 && u * b >= 0.0;
    TwiceBelowSum(a * v, u * b, c * w);
    assert (c + w) * (c + w) == c * c + 2.0 * (c * w) + w * w;
    assert (a + u) * (b + v) == a * b + a * v + u * b + u * v;
  }

  /** The Cauchy-Schwarz inequality for deviations:
      `(sum (a - ma)(b - mb)) ** 2 <= sum (a - ma) ** 2 * sum (b - mb) ** 2`. */
  lemma {:induction false} DeviationCauchySchwarz(a: seq<real>, b: seq<real>, ma: real, mb: real)
    requires |a| == |b|
    ensures CrossDeviation(a, b, ma, mb) * CrossDeviation(a, b, ma, mb) <= SquaredDeviation(a, ma) * SquaredDeviation(b, mb)
  {
    if |a| > 0 {
      var p, q := a[..|a| - 1], b[..|b| - 1];
      var x, y := a[|a| - 1] - ma, b[|b| - 1] - mb;
      DeviationCauchySchwarz(p, q, ma, mb);
      SquaredDeviationNonNegative(p, ma);
      SquaredDeviationNonNegative(q, mb);
      assert x * x >= 0.0 && y * y >= 0.0;
      assert (x * y) * (x * y) == (x * x) * (y * y);
      CauchySchwarzStep(SquaredDeviation(p, ma), SquaredDeviation(q, mb), CrossDeviation(p, q, ma, mb), x * x, y * y, x * y);
    }
  }

  /** The Cauchy-Schwarz inequality for sums of bounded terms: if every
      `c[i] ** 2 <= a[i] * b[i]`, then `sum(c) ** 2 <= sum(a) * sum(b)`. */
  lemma {:induction false} SumCauchySchwarz(a: seq<real>, b: seq<real>, c: seq<real>)
    requires |a| == |b| == |c|
    requires forall i :: 0 <= i < |c| ==> a[i] >= 0.0 && b[i] >= 0.0 && c[i] * c[i] <= a[i] * b[i]
    ensures Sum(c) * Sum(c) <= Sum(a) * Sum(b)
  {
    if |c| > 0 {
      var n := |c| - 1;
      SumCauchySchwarz(a[..n], b[..n], c[..n]);
      SumNonNegative(a[..n]);
      SumNonNegative(b[..n]);
      SnocBound(Sum(a[..n]), Sum(b[..n]), Sum(c[..n]), a[n], b[n], c[n], Sum(a), Sum(b), Sum(c));
    } else {
      BoundTransfer(0.0, 0.0, 0.0, Sum(c), Sum(a), Sum(b));
    }
  }

  /** `CauchySchwarzStep` with the extended sums named: `a' = a + u`, `b' = b + v`
      and `c' = c + w`. */
  lemma SnocBound(a: real, b: real, c: real, u: real, v: real, w: real, a': real, b': real, c': real)
    requires a >= 0.0 && b >= 0.0 && u >= 0.0 && v >= 0.0
    requires c * c <= a * b && w * w <= u * v
    requires a' == a + u && b' == b + v && c' == c + w
    ensures c' * c' <= a' * b'
  {
    CauchySchwarzStep(a, b, c, u, v, w);
  }

  /** Dividing both sides of `x * x <= y * z` by `n` twice. */
  lemma DivideSquares(x: real, y: real, z: real, n: real)
    requires n > 0.0 && x * x <= y * z
    ensures (x / n) * (x / n) <= (y / n) * (z / n)
  {
    QuotientProduct(x, x, n);
    QuotientProduct(y, z, n);
    DivideMonotone(x * x, y * z, n);
    DivideMonotone((x * x) / n, (y * z) / n, n);
  }

  /** `(x / n) * (y / n) == ((x * y) / n) / n`. */
  lemma QuotientProduct(x: real, y: real, n: real)
    requires n != 0.0
    ensures (x / n) * (y / n) == ((x * y) / n) / n
  {
    var p, q := x / n, y / n;
    assert x == p * n && y == q * n;
    assert x * y == ((p * q) * n) * n;
    assert (x * y) / n == (p * q) * n;
  }

  /** Dividing by a positive number keeps the order. */
  lemma DivideMonotone(a: real, b: real, m: real)
    requires m > 0.0 && a <= b
    ensures a / m <= b / m
  {
  }

  /** A positive factor can be cancelled from both sides of an inequality. */
  lemma CancelPositive(p: real, q: real, k: real)
    requires k > 0.0 && p * k <= q * k
    ensures p <= q
  {
  }

  /** The covariance of two columns is bounded by their variances:
      `cov ** 2 <= var_a * var_b`. */
  lemma ColumnCauchySchwarz(a: seq<real>, b: seq<real>)
    requires |a| == |b| > 0
    ensures ColumnCovariance(a, b) * ColumnCovariance(a, b) <= ColumnCovariance(a, a) * ColumnCovariance(b, b)
  {
    ColumnCovarianceIsMeanCrossDeviation(a, b);
    ColumnCovarianceIsMeanCrossDeviation(a, a);
    ColumnCovarianceIsMeanCrossDeviation(b, b);
    DeviationCauchySchwarz(a, b, Mean(a), Mean(b));
    DivideSquares(CrossDeviation(a, b, Mean(a), Mean(b)), SquaredDeviation(a, Mean(a)), SquaredDeviation(b, Mean(b)), |a| as real);
  }

  /** The Cauchy-Schwarz inequality for vectors, `(a . b) ** 2 <= (a . a) * (b . b)`. */
  lemma DotCauchySchwarz(a: Vector, b: Vector)
    requires |a| == |b|
    ensures Dot(a, b) * Dot(a, b) <= Dot(a, a) * Dot(b, b)
  {
    CrossDeviationExpand(a, b, 0.0, 0.0);
    CrossDeviationExpand(a, a, 0.0, 0.0);
    CrossDeviationExpand(b, b, 0.0, 0.0);
    DeviationCauchySchwarz(a, b, 0.0, 0.0);
  }

  /** Every summed variance is non-negative. */
  lemma VarianceSumNonNegative(u: seq<Vector>, d: nat)
    requires |u| > 0
    requires forall i :: 0 <= i < |u| ==> d <= |u[i]|
    ensures CovarianceSum(u, u, d) >= 0.0
  {
    var v := Covariances(u, u, d);
    forall j | 0 <= j < d
      ensures v[j] >= 0.0
    {
      ColumnVarianceNonNegative(Column(u, j));
    }
    SumNonNegative(v);
  }

  /** The Pearson statistic is NaN exactly when one of the summed variances is
      zero; otherwise both are positive, so `sqrt(varSu * varSl)` is of a positive
      number. */
  lemma PearsonNaNIffZeroVariance(x: seq<Vector>, lag: int)
    requires Rectangular(x)
    requires 1 <= lag < |x|
    ensures PearsonCorrelation(x, lag).Ok?
    ensures var s := PrepareData(x, lag).value;
      PearsonCorrelation(x, lag).value.PearsonNaN? <==>
        CovarianceSum(s.su, s.su, Width(x)) == 0.0 || CovarianceSum(s.sl, s.sl, Width(x)) == 0.0
    ensures var p := PearsonCorrelation(x, lag).value;
      p.Ratio? ==> p.varSu > 0.0 && p.varSl > 0.0
  {
    var s := PrepareData(x, lag).value;
    VarianceSumNonNegative(s.su, Width(x));
    VarianceSumNonNegative(s.sl, Width(x));
  }

  /** Each column's covariance is bounded by its variances, which are non-negative. */
  lemma ColumnBounds(a: seq<real>, b: seq<real>, va: real, vb: real, c: real)
    requires |a| == |b| > 0
    requires va == ColumnCovariance(a, a) && vb == ColumnCovariance(b, b) && c == ColumnCovariance(a, b)
    ensures va >= 0.0 && vb >= 0.0 && c * c <= va * vb
  {
    ColumnVarianceNonNegative(a);
    ColumnVarianceNonNegative(b);
    ColumnCauchySchwarz(a, b);
  }

  /** Column by column, the covariances satisfy Cauchy-Schwarz, and so do their sums:
      `cov ** 2 <= varSu * varSl`. */
  lemma CovarianceSumCauchySchwarz(u: seq<Vector>, l: seq<Vector>, d: nat)
    requires |u| == |l| > 0
    requires forall i :: 0 <= i < |u| ==> d <= |u[i]| && d <= |l[i]|
    ensures CovarianceSum(u, l, d) * CovarianceSum(u, l, d) <= CovarianceSum(u, u, d) * CovarianceSum(l, l, d)
  {
    var vuu, vll, vul := Covariances(u, u, d), Covariances(l, l, d), Covariances(u, l, d);
    CovariancesBounded(u, l, d, vuu, vll, vul);
    SummedBounds(vuu, vll, vul, CovarianceSum(u, u, d), CovarianceSum(l, l, d), CovarianceSum(u, l, d));
  }

  /** `SumCauchySchwarz` with the three sums named. */
  lemma SummedBounds(a: seq<real>, b: seq<real>, c: seq<real>, sa: real, sb: real, sc: real)
    requires |a| == |b| == |c|
    requires forall i :: 0 <= i < |c| ==> a[i] >= 0.0 && b[i] >= 0.0 && c[i] * c[i] <= a[i] * b[i]
    requires sa == Sum(a) && sb == Sum(b) && sc == Sum(c)
    ensures sc * sc <= sa * sb
  {
    SumCauchySchwarz(a, b, c);
    BoundTransfer(Sum(c), Sum(a), Sum(b), sc, sa, sb);
  }

  /** `c * c <= a * b` carries over to equal values. */
  lemma BoundTransfer(c: real, a: real, b: real, c': real, a': real, b': real)
    requires c * c <= a * b && c' == c && a' == a && b' == b
    ensures c' * c' <= a' * b'
  {
  }

  /** The column-wise bounds of `ColumnBounds`, for every dimension. */
  lemma CovariancesBounded(u: seq<Vector>, l: seq<Vector>, d: nat, vuu: seq<real>, vll: seq<real>, vul: seq<real>)
    requires |u| == |l| > 0
    requires forall i :: 0 <= i < |u| ==> d <= |u[i]| && d <= |l[i]|
    requires vuu == Covariances(u, u, d) && vll == Covariances(l, l, d) && vul == Covariances(u, l, d)
    ensures forall j :: 0 <= j < d ==> vuu[j] >= 0.0 && vll[j] >= 0.0 && vul[j] * vul[j] <= vuu[j] * vll[j]
  {
    forall j | 0 <= j < d
      ensures vuu[j] >= 0.0 && vll[j] >= 0.0 && vul[j] * vul[j] <= vuu[j] * vll[j]
    {
      ColumnBounds(Column(u, j), Column(l, j), vuu[j], vll[j], vul[j]);
    }
  }

  /** The Pearson statistic `cov / sqrt(varSu * varSl)` lies in `[-1, 1]`: its
      numerator squared is at most the product under the square root. */
  lemma PearsonCauchySchwarz(x: seq<Vector>, lag: int)
    requires Rectangular(x)
    requires 1 <= lag < |x|
    ensures PearsonCorrelation(x, lag).Ok?
    ensures var p := PearsonCorrelation(x, lag).value;
      p.Ratio? ==> p.cov * p.cov <= p.varSu * p.varSl
  {
    var s := PrepareData(x, lag).value;
    var p := PearsonCorrelation(x, lag).value;
    PearsonParts(x, lag);
    if p.Ratio? {
      RatioBound(s.su, s.sl, Width(x), p.cov, p.varSu, p.varSl);
    }
  }

  /** The three sums a `Ratio` holds, and the widths they are taken over. */
  lemma PearsonParts(x: seq<Vector>, lag: int)
    requires Rectangular(x)
    requires 1 <= lag < |x|
    ensures var s := PrepareData(x, lag).value;
      |s.su| == |s.sl| > 0 && forall i :: 0 <= i < |s.su| ==> Width(x) <= |s.su[i]| && Width(x) <= |s.sl[i]|
    ensures var s, p := PrepareData(x, lag).value, PearsonCorrelation(x, lag).value;
      p.Ratio? ==> (p.cov == CovarianceSum(s.su, s.sl, Width(x)) &&
        p.varSu == CovarianceSum(s.su, s.su, Width(x)) && p.varSl == CovarianceSum(s.sl, s.sl, Width(x)))
  {
  }

  /** `CovarianceSumCauchySchwarz` on the three values a `Ratio` holds. */
  lemma RatioBound(u: seq<Vector>, l: seq<Vector>, d: nat, cov: real, vu: real, vl: real)
    requires |u| == |l| > 0
    requires forall i :: 0 <= i < |u| ==> d <= |u[i]| && d <= |l[i]|
    requires cov == CovarianceSum(u, l, d) && vu == CovarianceSum(u, u, d) && vl == CovarianceSum(l, l, d)
    ensures cov * cov <= vu * vl
  {
    CovarianceSumCauchySchwarz(u, l, d);
    BoundTransfer(CovarianceSum(u, l, d), CovarianceSum(u, u, d), CovarianceSum(l, l, d), cov, vu, vl);
  }

  /** The column-wise covariance of a constant column with itself is zero. */
  lemma ConstantColumnHasNoVariance(a: seq<real>, c: real)
    requires |a| > 0
    requires forall i :: 0 <= i < |a| ==> a[i] == c
    ensures ColumnCovariance(a, a) == 0.0
  {
    SumConstant(a, c);
    SumConstant(Multiply(a, a), c * c);
  }

  /** If every row equals `v`, every summed variance is zero. */
  lemma ConstantRowsHaveNoVariance(u: seq<Vector>, v: Vector, d: nat)
    requires |u| > 0 && d <= |v|
    requires forall i :: 0 <= i < |u| ==> u[i] == v
    ensures CovarianceSum(u, u, d) == 0.0
  {
    var c := Covariances(u, u, d);
    forall j | 0 <= j < d
      ensures c[j] == 0.0
    {
      ConstantColumnHasNoVariance(Column(u, j), v[j]);
    }
    SumConstant(c, 0.0);
  }

  /** A series whose rows are all the same vector has zero variance on both sides,
      so its Pearson statistic is NaN at every valid lag. */
  lemma ConstantSeriesIsNaN(x: seq<Vector>, lag: int)
    requires Rectangular(x)
    requires 1 <= lag < |x|
    requires forall i :: 0 <= i < |x| ==> x[i] == x[0]
    ensures PearsonCorrelation(x, lag) == Ok(PearsonNaN)
  {
    var s := PrepareData(x, lag).value;
    ConstantRowsHaveNoVariance(s.su, x[0], Width(x));
    ConstantRowsHaveNoVariance(s.sl, x[0], Width(x));
  }

  /** `sum_i a[i] * (a[i] + c) = sum_i a[i] ** 2 + c * sum_i a[i]`. */
  lemma {:induction false} ShiftedCrossProduct(a: seq<real>, b: seq<real>, c: real)
    requires |a| == |b|
    requires forall i :: 0 <= i < |a| ==> b[i] == a[i] + c
    ensures Dot(a, b) == Dot(a, a) + c * Sum(a)
  {
    if |a| > 0 {
      ShiftedCrossProduct(a[..|a| - 1], b[..|b| - 1], c);
    }
  }

  /** `sum_i (a[i] + c) ** 2 = sum_i a[i] ** 2 + 2 * c * sum_i a[i] + n * c * c`. */
  lemma {:induction false} ShiftedSquares(a: seq<real>, b: seq<real>, c: real)
    requires |a| == |b|
    requires forall i :: 0 <= i < |a| ==> b[i] == a[i] + c
    ensures Dot(b, b) == Dot(a, a) + 2.0 * c * Sum(a) + (|a| as real) * c * c
  {
    if |a| > 0 {
      var n := |a| - 1;
      ShiftedSquares(a[..n], b[..n], c);
      assert b[n] * b[n] == a[n] * a[n] + 2.0 * c * a[n] + c * c;
      assert (|a| as real) * c * c == (n as real) * c * c + c * c;
    }
  }

  /** Dividing `x == y + c * z` by `n`. */
  lemma DivideLinear(x: real, y: real, z: real, c: real, n: real)
    requires n > 0.0 && x == y + c * z
    ensures x / n == y / n + c * (z / n)
  {
  }

  /** Dividing `x == y + c * z + n * k` by `n`. */
  lemma DivideAffine(x: real, y: real, z: real, c: real, k: real, n: real)
    requires n > 0.0 && x == y + c * z + n * k
    ensures x / n == y / n + c * (z / n) + k
  {
  }

  /** The mean of a column shifted by `c` is shifted by `c`. */
  lemma ShiftedMean(a: seq<real>, b: seq<real>, c: real)
    requires |a| == |b| > 0
    requires forall i :: 0 <= i < |a| ==> b[i] == a[i] + c
    ensures Mean(b) == Mean(a) + c
  {
    SumShift(a, c, b);
    DivideAffine(Sum(b), Sum(a), 0.0, 0.0, c, |a| as real);
  }

  /** `mean(a * (a + c)) = mean(a ** 2) + c * mean(a)`. */
  lemma ShiftedCrossMean(a: seq<real>, b: seq<real>, c: real)
    requires |a| == |b| > 0
    requires forall i :: 0 <= i < |a| ==> b[i] == a[i] + c
    ensures Mean(Multiply(a, b)) == Mean(Multiply(a, a)) + c * Mean(a)
  {
    var sab, saa := Sum(Multiply(a, b)), Sum(Multiply(a, a));
    assert sab == saa + c * Sum(a) by {
      ShiftedCrossProduct(a, b, c);
      DotIsSumOfProducts(a, b);
      DotIsSumOfProducts(a, a);
    }
    DivideLinear(sab, saa, Sum(a), c, |a| as real);
  }

  /** `mean((a + c) ** 2) = mean(a ** 2) + 2 * c * mean(a) + c * c`. */
  lemma ShiftedSquareMean(a: seq<real>, b: seq<real>, c: real)
    requires |a| == |b| > 0
    requires forall i :: 0 <= i < |a| ==> b[i] == a[i] + c
    ensures Mean(Multiply(b, b)) == Mean(Multiply(a, a)) + 2.0 * c * Mean(a) + c * c
  {
    var sbb, saa := Sum(Multiply(b, b)), Sum(Multiply(a, a));
    assert sbb == saa + 2.0 * c * Sum(a) + (|a| as real) * (c * c) by {
      ShiftedSquares(a, b, c);
      DotIsSumOfProducts(b, b);
      DotIsSumOfProducts(a, a);
    }
    DivideAffine(sbb, saa, Sum(a), 2.0 * c, c * c, |a| as real);
  }

  /** The algebra of a shifted column, on its means. */
  lemma ShiftAlgebra(maa: real, ma: real, c: real, mab: real, mb: real, mbb: real)
    requires mb == ma + c && mab == maa + c * ma && mbb == maa + 2.0 * c * ma + c * c
    ensures mab - ma * mb == maa - ma * ma
    ensures mbb - mb * mb == maa - ma * ma
  {
  }

  /** Shifting a column by a constant `c` changes neither its variance nor its
      covariance with the original. */
  lemma ShiftedColumn(a: seq<real>, b: seq<real>, c: real)
    requires |a| == |b| > 0
    requires forall i :: 0 <= i < |a| ==> b[i] == a[i] + c
    ensures ColumnCovariance(a, b) == ColumnCovariance(a, a)
    ensures ColumnCovariance(b, b) == ColumnCovariance(a, a)
  {
    ShiftedMean(a, b, c);
    ShiftedCrossMean(a, b, c);
    ShiftedSquareMean(a, b, c);
    ShiftAlgebra(Mean(Multiply(a, a)), Mean(a), c, Mean(Multiply(a, b)), Mean(b), Mean(Multiply(b, b)));
  }

  /** Column by column, a lagged side that is the unshifted side plus a constant
      vector `c` has the same summed covariance and variances. */
  lemma ShiftedSums(u: seq<Vector>, l: seq<Vector>, c: Vector, d: nat)
    requires |u| == |l| > 0 && d <= |c|
    requires forall i :: 0 <= i < |u| ==> d <= |u[i]| && d <= |l[i]|
    requires forall i, j :: 0 <= i < |u| && 0 <= j < d ==> l[i][j] == u[i][j] + c[j]
    ensures CovarianceSum(u, l, d) == CovarianceSum(u, u, d)
    ensures CovarianceSum(l, l, d) == CovarianceSum(u, u, d)
  {
    var vul, vll, vuu := Covariances(u, l, d), Covariances(l, l, d), Covariances(u, u, d);
    forall j | 0 <= j < d
      ensures vul[j] == vuu[j] && vll[j] == vuu[j]
    {
      ShiftedColumn(Column(u, j), Column(l, j), c[j]);
    }
    assert vul == vuu;
    assert vll == vuu;
  }

  /** When the lagged side is the unshifted side plus a constant vector, the
      summed covariance equals both summed variances: the statistic is NaN or
      `v / sqrt(v * v)` with `v > 0`, which is 1. */
  lemma ShiftedSeriesIsPerfectlyCorrelated(x: seq<Vector>, lag: int, c: Vector)
    requires Rectangular(x)
    requires 1 <= lag < |x| && |c| == Width(x)
    requires forall i, j :: 0 <= i < |x| - lag && 0 <= j < |c| ==> x[lag..][i][j] == x[i][j] + c[j]
    ensures PearsonCorrelation(x, lag) == Ok(PearsonNaN) ||
      exists v :: v > 0.0 && PearsonCorrelation(x, lag) == Ok(Ratio(v, v, v))
  {
    var s := PrepareData(x, lag).value;
    ShiftedSums(s.su, s.sl, c, Width(x));
    PearsonNaNIffZeroVariance(x, lag);
  }

  // ---------------------------------------------------------------- cosine

  /** `s.multiply(s).sum()` on a sparse row, `np.sum(s ** 2)` inside
      `np.linalg.norm` on a dense one. */
  function SquaredNorm(s: Vector, sparse: bool): real
  {
    if sparse then Sum(Multiply(s, s)) else Dot(s, s)
  }

  /** The norm of row `k` the cosine statistic uses: the precomputed `norms[k]`, or
      the square root of its squared norm. */
  function RowNorm(x: Series, k: nat, sparse: bool, norms: Option<seq<real>>, sqrt: real -> real): real
    requires k < |x.rows|
    requires norms.Some? ==> |norms.value| >= |x.rows|
  {
    if norms.Some? then norms.value[k] else sqrt(SquaredNorm(x.rows[k], sparse))
  }

  /** The norms of the rows of a series side (scripts/correlations.py:51-55). */
  function Norms(s: seq<Vector>, sparse: bool, sqrt: real -> real): (r: seq<real>)
    ensures |r| == |s| && forall i :: 0 <= i < |s| ==> r[i] == sqrt(SquaredNorm(s[i], sparse))
  {
    seq(|s|, i requires 0 <= i < |s| => sqrt(SquaredNorm(s[i], sparse)))
  }

  /** The dot products of the pairs: `(sui.multiply(sli)).sum()` on the sparse path,
      `einsum('ij, ij -> i')` on the dense one. */
  function DotProducts(su: seq<Vector>, sl: seq<Vector>, sparse: bool): (r: seq<real>)
    requires |su| == |sl|
    requires forall i :: 0 <= i < |su| ==> |su[i]| == |sl[i]|
    ensures |r| == |su|
    ensures forall i :: 0 <= i < |su| ==> r[i] == (if sparse then Sum(Multiply(su[i], sl[i])) else Dot(su[i], sl[i]))
  {
    seq(|su|, i requires 0 <= i < |su| => if sparse then Sum(Multiply(su[i], sl[i])) else Dot(su[i], sl[i]))
  }

  /** The mask `(norm_Su > 0) & (norm_Sl > 0)` at pair `i`. */
  predicate Included(nu: seq<real>, nl: seq<real>, i: nat)
    requires i < |nu| && i < |nl|
  {
    nu[i] > 0.0 && nl[i] > 0.0
  }

  /** The product of two positive norms is positive. */
  lemma ProductPositive(a: real, b: real)
    requires a > 0.0 && b > 0.0
    ensures a * b > 0.0
  {
  }

  /** `corr[i] = dot / (norm_Su * norm_Sl)` for an included pair. */
  function Quotient(dots: seq<real>, nu: seq<real>, nl: seq<real>, i: nat): real
    requires i < |dots| && i < |nu| && i < |nl| && Included(nu, nl, i)
  {
    ProductPositive(nu[i], nl[i]);
    dots[i] / (nu[i] * nl[i])
  }

  /** `corr[non_zero_norms]` restricted to the first `k` pairs: the quotients
      `dot / (norm_Su * norm_Sl)` of the included pairs, in order. */
  function MaskedTerms(dots: seq<real>, nu: seq<real>, nl: seq<real>, k: nat): seq<real>
    requires k <= |dots| && k <= |nu| && k <= |nl|
  {
    if k == 0 then []
    else
      var i := k - 1;
      MaskedTerms(dots, nu, nl, i) + (if Included(nu, nl, i) then [Quotient(dots, nu, nl, i)] else [])
  }

  /** `np.mean` of the included quotients: NaN when no pair is included. */
  function MaskedMean(terms: seq<real>): Stat
  {
    if |terms| == 0 then NaN else Num(Mean(terms))
  }

  /** Python's slice `s[i:j]` for `i <= j`: the indices past the end are dropped. */
  function PySlice(s: seq<real>, i: nat, j: nat): (r: seq<real>)
    requires i <= j
    ensures |r| == (if j <= |s| then j - i else if i <= |s| then |s| - i else 0)
    ensures forall t :: 0 <= t < |r| ==> r[t] == s[i + t]
  {
    if j <= |s| then s[i..j] else if i <= |s| then s[i..] else []
  }

  /** The norms used for both sides of the pairs: `norms[0:M]` and
      `norms[L:M+L]` when they are precomputed, the row norms otherwise. */
  function PairNorms(x: Series, s: Slices, lag: nat, sparse: bool, norms: Option<seq<real>>, sqrt: real -> real): (r: (seq<real>, seq<real>))
    requires s.m + lag <= |x.rows|
  {
    if norms.Some? then (PySlice(norms.value, 0, s.m), PySlice(norms.value, lag, s.m + lag))
    else (Norms(s.su, sparse, sqrt), Norms(s.sl, sparse, sqrt))
  }

  /** The error of lines 63-65 when the two norm slices are not both `M` long:
      `(norm_Su > 0) & (norm_Sl > 0)` broadcasts lengths `a` and `b` only when they
      are equal or one of them is 1, and raises `ValueError` otherwise; a mask
      that does broadcast then fails the boolean indexing with `IndexError`. */
  function MaskError(a: nat, b: nat): PyError
  {
    if a == b || a == 1 || b == 1 then IndexError else ValueError
  }

  /** `calculate_cosine_correlation(x, L, sparse, norms)` as a value. The sparse path
      on dense rows calls `.multiply` on a NumPy row, which raises `AttributeError`. */
  function CosineSpec(x: Series, lag: int, sparse: bool, norms: Option<seq<real>>, sqrt: real -> real): (r: Result<Stat>)
    requires Rectangular(x.rows)
    requires x.Sparse? ==> sparse
    ensures r.Ok? <==> 1 <= lag < |x.rows| && !(sparse && x.Dense?) && (norms.Some? ==> |norms.value| >= |x.rows|)
    ensures (lag < 1 || lag >= |x.rows|) ==> r == Raise(ValueError)
    ensures (norms.Some? ==> |norms.value| >= |x.rows|) ==>
      (r.Raise? && r.error == ValueError <==> lag < 1 || lag >= |x.rows|)
    ensures r.Raise? && r.error == AttributeError <==> 1 <= lag < |x.rows| && sparse && x.Dense?
    ensures r.Raise? && r.error == IndexError ==> norms.Some? && |norms.value| < |x.rows|
    ensures r.Raise? ==> r.error == ValueError || r.error == AttributeError || r.error == IndexError
  {
    match PrepareData(x.rows, lag)
    case Raise(e) => Raise(e)
    case Ok(s) =>
      if sparse && x.Dense? then Raise(AttributeError)
      else
        var (nu, nl) := PairNorms(x, s, lag, sparse, norms, sqrt);
        if |nu| != s.m || |nl| != s.m then Raise(MaskError(|nu|, |nl|))
        else Ok(MaskedMean(MaskedTerms(DotProducts(s.su, s.sl, sparse), nu, nl, s.m)))
  }

  /** Lines 63-67: allocate `corr = np.zeros(M)`, assign the quotient of every
      included pair in place, then average the included entries. */
  method MaskedMeanOf(dots: seq<real>, nu: seq<real>, nl: seq<real>) returns (r: Stat)
    requires |dots| == |nu| == |nl|
    ensures r == MaskedMean(MaskedTerms(dots, nu, nl, |dots|))
  {
    var corr := FillMasked(dots, nu, nl);
    r := AverageMasked(corr, dots, nu, nl);
  }

  /** Lines 64-65: `corr = np.zeros(M)`, then `corr[non_zero_norms] = ...`. */
  method FillMasked(dots: seq<real>, nu: seq<real>, nl: seq<real>) returns (corr: array<real>)
    requires |dots| == |nu| == |nl|
    ensures fresh(corr) && corr.Length == |dots|
    ensures forall j :: 0 <= j < corr.Length ==> corr[j] == (if Included(nu, nl, j) then Quotient(dots, nu, nl, j) else 0.0)
  {
    var m := |dots|;
    corr := new real[m](_ => 0.0);
    var i := 0;
    while i < m
      invariant 0 <= i <= m
      invariant forall j :: 0 <= j < i ==> corr[j] == (if Included(nu, nl, j) then Quotient(dots, nu, nl, j) else 0.0)
      invariant forall j :: i <= j < m ==> corr[j] == 0.0
    {
      if Included(nu, nl, i) {
        corr[i] := Quotient(dots, nu, nl, i);
      }
      i := i + 1;
    }
  }

  /** Line 67: `np.mean(corr[non_zero_norms])`, NaN when the mask is empty. */
  method AverageMasked(corr: array<real>, dots: seq<real>, nu: seq<real>, nl: seq<real>) returns (r: Stat)
    requires |dots| == |nu| == |nl| == corr.Length
    requires forall j :: 0 <= j < corr.Length ==> corr[j] == (if Included(nu, nl, j) then Quotient(dots, nu, nl, j) else 0.0)
    ensures r == MaskedMean(MaskedTerms(dots, nu, nl, |dots|))
  {
    var m := |dots|;
    var total, count := 0.0, 0;
    var i := 0;
    while i < m
      invariant 0 <= i <= m
      invariant count == |MaskedTerms(dots, nu, nl, i)|
      invariant total == Sum(MaskedTerms(dots, nu, nl, i))
    {
      MaskedTermsStep(dots, nu, nl, i);
      if Included(nu, nl, i) {
        total, count := total + corr[i], count + 1;
      }
      i := i + 1;
    }
    if count == 0 {
      r := NaN;
    } else {
      r := Num(total / (count as real));
    }
  }

  /** One more pair adds its quotient to the masked terms when it is included. */
  lemma MaskedTermsStep(dots: seq<real>, nu: seq<real>, nl: seq<real>, i: nat)
    requires i < |dots| && i < |nu| && i < |nl|
    ensures Included(nu, nl, i) ==>
      |MaskedTerms(dots, nu, nl, i + 1)| == |MaskedTerms(dots, nu, nl, i)| + 1 &&
      Sum(MaskedTerms(dots, nu, nl, i + 1)) == Sum(MaskedTerms(dots, nu, nl, i)) + Quotient(dots, nu, nl, i)
    ensures !Included(nu, nl, i) ==> MaskedTerms(dots, nu, nl, i + 1) == MaskedTerms(dots, nu, nl, i)
  {
    var t := MaskedTerms(dots, nu, nl, i);
    if Included(nu, nl, i) {
      var q := Quotient(dots, nu, nl, i);
      assert (t + [q])[..|t|] == t;
    } else {
      assert t + [] == t;
    }
  }

  /** `calculate_cosine_correlation(x, L, sparse, norms)`. */
  method CosineCorrelation(x: Series, lag: int, sparse: bool, norms: Option<seq<real>>, sqrt: real -> real)
    returns (r: Result<Stat>)
    requires Rectangular(x.rows)
    requires x.Sparse? ==> sparse
    ensures r == CosineSpec(x, lag, sparse, norms, sqrt)
  {
    var prepared := PrepareData(x.rows, lag);
    if prepared.Raise? {
      return Raise(prepared.error);
    }
    var s := prepared.value;
    var nu, nl;
    if norms.Some? {
      nu, nl := PySlice(norms.value, 0, s.m), PySlice(norms.value, lag, s.m + lag);
    } else {
      if sparse && x.Dense? {
        return Raise(AttributeError);
      }
      nu, nl := Norms(s.su, sparse, sqrt), Norms(s.sl, sparse, sqrt);
    }
    if sparse && x.Dense? {
      return Raise(AttributeError);
    }
    var dots := DotProducts(s.su, s.sl, sparse);
    if |nu| != s.m || |nl| != s.m {
      return Raise(MaskError(|nu|, |nl|));
    }
    var mean := MaskedMeanOf(dots, nu, nl);
    r := Ok(mean);
  }

  /** Pair `i` of the first `k` is among the masked terms exactly when both its
      norms are positive: the statistic has no term for a pair with a zero norm. */
  lemma {:induction false} MaskedTermsEmptyIff(dots: seq<real>, nu: seq<real>, nl: seq<real>, k: nat)
    requires k <= |dots| && k <= |nu| && k <= |nl|
    ensures |MaskedTerms(dots, nu, nl, k)| == 0 <==> forall i :: 0 <= i < k ==> !Included(nu, nl, i)
  {
    if k > 0 {
      MaskedTermsEmptyIff(dots, nu, nl, k - 1);
    }
  }

  /** The norms of pair `i` are those of rows `i` and `i + L`, precomputed or not. */
  lemma PairNormsAreRowNorms(x: Series, lag: int, sparse: bool, norms: Option<seq<real>>, sqrt: real -> real)
    requires norms.Some? ==> |norms.value| >= |x.rows|
    requires 1 <= lag < |x.rows|
    ensures var s := PrepareData(x.rows, lag).value;
      var (nu, nl) := PairNorms(x, s, lag, sparse, norms, sqrt);
      |nu| == |nl| == s.m &&
      forall i :: 0 <= i < s.m ==> nu[i] == RowNorm(x, i, sparse, norms, sqrt) && nl[i] == RowNorm(x, i + lag, sparse, norms, sqrt)
  {
  }

  /** Precomputed norms shorter than the series: `norms[0:M]` keeps what there is
      and `norms[L:M+L]` runs past the end, so the slices are not both `M` long and
      the mask raises `ValueError` or `IndexError`. */
  lemma ShortNormsRaise(x: Series, lag: int, sparse: bool, n: seq<real>, sqrt: real -> real)
    requires Rectangular(x.rows)
    requires sparse <==> x.Sparse?
    requires 1 <= lag < |x.rows| && |n| < |x.rows|
    ensures var m := |x.rows| - lag;
      CosineSpec(x, lag, sparse, Some(n), sqrt) ==
        Raise(MaskError(if |n| < m then |n| else m, if |n| < lag then 0 else |n| - lag))
    ensures var r := CosineSpec(x, lag, sparse, Some(n), sqrt);
      r.Raise? && (r.error == ValueError || r.error == IndexError)
  {
  }

  /** Only the first `N` precomputed norms matter: longer norms give the statistic
      of their first `N` entries. */
  lemma LongerNormsIgnored(x: Series, lag: int, sparse: bool, n: seq<real>, sqrt: real -> real)
    requires Rectangular(x.rows)
    requires x.Sparse? ==> sparse
    requires |n| >= |x.rows|
    ensures CosineSpec(x, lag, sparse, Some(n), sqrt) == CosineSpec(x, lag, sparse, Some(n[..|x.rows|]), sqrt)
  {
    if 1 <= lag < |x.rows| {
      var s := PrepareData(x.rows, lag).value;
      var k := n[..|x.rows|];
      assert k[0..s.m] == n[0..s.m];
      assert k[lag..s.m + lag] == n[lag..s.m + lag];
    }
  }

  /** At a valid lag with a path that matches the rows, `CosineSpec` takes its `Ok`
      branch. */
  lemma CosineSpecUnfold(x: Series, lag: int, sparse: bool, norms: Option<seq<real>>, sqrt: real -> real)
    requires Rectangular(x.rows)
    requires sparse <==> x.Sparse?
    requires norms.Some? ==> |norms.value| >= |x.rows|
    requires 1 <= lag < |x.rows|
    ensures var s := PrepareData(x.rows, lag).value;
      var p := PairNorms(x, s, lag, sparse, norms, sqrt);
      CosineSpec(x, lag, sparse, norms, sqrt) == Ok(MaskedMean(MaskedTerms(DotProducts(s.su, s.sl, sparse), p.0, p.1, s.m)))
  {
  }

  /** The reference definition on rows: the cosine
      `x[i] . x[i + L] / (norm(x[i]) * norm(x[i + L]))` of each of the first `k`
      pairs whose two row norms are positive, in order. */
  function PairCosines(x: Series, lag: nat, sparse: bool, norms: Option<seq<real>>, sqrt: real -> real, k: nat): seq<real>
    requires Rectangular(x.rows) && k + lag <= |x.rows|
    requires norms.Some? ==> |norms.value| >= |x.rows|
  {
    if k == 0 then []
    else
      var i := k - 1;
      var a, b := RowNorm(x, i, sparse, norms, sqrt), RowNorm(x, i + lag, sparse, norms, sqrt);
      PairCosines(x, lag, sparse, norms, sqrt, i) +
        (if a > 0.0 && b > 0.0 then [Cosine(x.rows[i], x.rows[i + lag], a, b)] else [])
  }

  /** The cosine of the angle between `u` and `v`, given their positive norms. */
  function Cosine(u: Vector, v: Vector, a: real, b: real): real
    requires |u| == |v| && a > 0.0 && b > 0.0
  {
    ProductPositive(a, b);
    Dot(u, v) / (a * b)
  }

  /** An included pair's quotient is the cosine of its rows. */
  lemma QuotientIsCosine(dots: seq<real>, nu: seq<real>, nl: seq<real>, i: nat, u: Vector, v: Vector, a: real, b: real)
    requires i < |dots| && i < |nu| && i < |nl| && |u| == |v|
    requires dots[i] == Dot(u, v) && nu[i] == a && nl[i] == b && a > 0.0 && b > 0.0
    ensures Included(nu, nl, i) && Quotient(dots, nu, nl, i) == Cosine(u, v, a, b)
  {
  }

  /** Given the dot products and norms of the pairs, the masked terms are the
      cosines of the rows. */
  lemma {:induction false} MaskedTermsArePairCosines(x: Series, lag: nat, sparse: bool, norms: Option<seq<real>>, sqrt: real -> real,
                                                    dots: seq<real>, nu: seq<real>, nl: seq<real>, k: nat)
    requires Rectangular(x.rows) && k + lag <= |x.rows|
    requires norms.Some? ==> |norms.value| >= |x.rows|
    requires k <= |dots| && k <= |nu| && k <= |nl|
    requires forall i :: 0 <= i < k ==>
      dots[i] == Dot(x.rows[i], x.rows[i + lag]) &&
      nu[i] == RowNorm(x, i, sparse, norms, sqrt) && nl[i] == RowNorm(x, i + lag, sparse, norms, sqrt)
    ensures MaskedTerms(dots, nu, nl, k) == PairCosines(x, lag, sparse, norms, sqrt, k)
  {
    if k > 0 {
      var i := k - 1;
      MaskedTermsArePairCosines(x, lag, sparse, norms, sqrt, dots, nu, nl, i);
      if RowNorm(x, i, sparse, norms, sqrt) > 0.0 && RowNorm(x, i + lag, sparse, norms, sqrt) > 0.0 {
        QuotientIsCosine(dots, nu, nl, i, x.rows[i], x.rows[i + lag],
          RowNorm(x, i, sparse, norms, sqrt), RowNorm(x, i + lag, sparse, norms, sqrt));
      }
    }
  }

  /** At a valid lag with a path that matches the rows, the statistic is the mean
      of the cosines `x[i] . x[i + L] / (norm(x[i]) * norm(x[i + L]))` over the
      pairs whose two norms are positive, and NaN when there is none. */
  lemma CosineSpecValue(x: Series, lag: int, sparse: bool, norms: Option<seq<real>>, sqrt: real -> real)
    requires Rectangular(x.rows)
    requires sparse <==> x.Sparse?
    requires norms.Some? ==> |norms.value| >= |x.rows|
    requires 1 <= lag < |x.rows|
    ensures var c := PairCosines(x, lag, sparse, norms, sqrt, |x.rows| - lag);
      CosineSpec(x, lag, sparse, norms, sqrt) == Ok(if |c| == 0 then NaN else Num(Sum(c) / (|c| as real)))
  {
    var s := PrepareData(x.rows, lag).value;
    var p := PairNorms(x, s, lag, sparse, norms, sqrt);
    var dots := DotProducts(s.su, s.sl, sparse);
    CosineSpecUnfold(x, lag, sparse, norms, sqrt);
    PairNormsAreRowNorms(x, lag, sparse, norms, sqrt);
    forall i | 0 <= i < s.m
      ensures dots[i] == Dot(x.rows[i], x.rows[i + lag])
    {
      DotIsSumOfProducts(s.su[i], s.sl[i]);
    }
    MaskedTermsArePairCosines(x, lag, sparse, norms, sqrt, dots, p.0, p.1, s.m);
  }

  /** The cosine statistic is NaN, not 0, exactly when no pair `(i, i + L)` has two
      positive norms. */
  lemma CosineNaNIffNoPair(x: Series, lag: int, sparse: bool, norms: Option<seq<real>>, sqrt: real -> real)
    requires Rectangular(x.rows)
    requires sparse <==> x.Sparse?
    requires norms.Some? ==> |norms.value| >= |x.rows|
    requires 1 <= lag < |x.rows|
    ensures CosineSpec(x, lag, sparse, norms, sqrt).Ok?
    ensures CosineSpec(x, lag, sparse, norms, sqrt).value == NaN <==>
      forall i :: 0 <= i < |x.rows| - lag ==>
        !(RowNorm(x, i, sparse, norms, sqrt) > 0.0 && RowNorm(x, i + lag, sparse, norms, sqrt) > 0.0)
  {
    var s := PrepareData(x.rows, lag).value;
    var p := PairNorms(x, s, lag, sparse, norms, sqrt);
    var terms := MaskedTerms(DotProducts(s.su, s.sl, sparse), p.0, p.1, s.m);
    assert CosineSpec(x, lag, sparse, norms, sqrt) == Ok(MaskedMean(terms)) by {
      CosineSpecUnfold(x, lag, sparse, norms, sqrt);
    }
    assert |terms| == 0 <==> forall i :: 0 <= i < s.m ==> !Included(p.0, p.1, i) by {
      MaskedTermsEmptyIff(DotProducts(s.su, s.sl, sparse), p.0, p.1, s.m);
    }
    assert forall i :: 0 <= i < s.m ==>
      (Included(p.0, p.1, i) <==> RowNorm(x, i, sparse, norms, sqrt) > 0.0 && RowNorm(x, i + lag, sparse, norms, sqrt) > 0.0) by {
      PairNormsAreRowNorms(x, lag, sparse, norms, sqrt);
    }
    assert MaskedMean(terms) == NaN <==> |terms| == 0;
    if |terms| != 0 {
      var i :| 0 <= i < s.m && Included(p.0, p.1, i);
      assert RowNorm(x, i, sparse, norms, sqrt) > 0.0 && RowNorm(x, i + lag, sparse, norms, sqrt) > 0.0;
    }
  }

  /** `sqrt` behaves as the non-negative square root on non-negative numbers. */
  ghost predicate IsSqrt(sqrt: real -> real)
  {
    forall r :: r >= 0.0 ==> sqrt(r) >= 0.0 && sqrt(r) * sqrt(r) == r
  }

  /** The squared norm of an all-zero row is zero, on either path. */
  lemma ZeroSquaredNorm(v: Vector, sparse: bool)
    requires forall j :: 0 <= j < |v| ==> v[j] == 0.0
    ensures SquaredNorm(v, sparse) == 0.0
  {
    DotIsSumOfProducts(v, v);
    SumConstant(Multiply(v, v), 0.0);
  }

  /** An all-zero series has no pair with two positive norms, so with the norms
      computed by a square root that maps 0 to 0, its cosine statistic is NaN at
      every valid lag. */
  lemma ZeroSeriesIsNaN(x: Series, lag: int, sparse: bool, sqrt: real -> real)
    requires Rectangular(x.rows)
    requires sparse <==> x.Sparse?
    requires 1 <= lag < |x.rows|
    requires sqrt(0.0) == 0.0
    requires forall i, j :: 0 <= i < |x.rows| && 0 <= j < |x.rows[i]| ==> x.rows[i][j] == 0.0
    ensures CosineSpec(x, lag, sparse, None, sqrt) == Ok(NaN)
  {
    forall i | 0 <= i < |x.rows|
      ensures RowNorm(x, i, sparse, None, sqrt) == 0.0
    {
      ZeroSquaredNorm(x.rows[i], sparse);
    }
    CosineNaNIffNoPair(x, lag, sparse, None, sqrt);
  }

  /** Both paths compute the squared norm `v . v`. */
  lemma SquaredNormIsDot(v: Vector, sparse: bool)
    ensures SquaredNorm(v, sparse) == Dot(v, v)
  {
    DotIsSumOfProducts(v, v);
  }

  /** `v . v` is never negative. */
  lemma DotSelfNonNegative(v: Vector)
    ensures Dot(v, v) >= 0.0
  {
    CrossDeviationExpand(v, v, 0.0, 0.0);
    SquaredDeviationNonNegative(v, 0.0);
  }

  /** `v . v` is at least the square of any one entry. */
  lemma {:induction false} DotSelfDominates(v: Vector, j: nat)
    requires j < |v|
    ensures Dot(v, v) >= v[j] * v[j]
  {
    if j == |v| - 1 {
      DotSelfNonNegative(v[..|v| - 1]);
    } else {
      DotSelfDominates(v[..|v| - 1], j);
      SquareNonNegative(v[|v| - 1]);
    }
  }

  lemma SquareNonNegative(t: real)
    ensures t * t >= 0.0
  {
  }

  /** A number at least the product of two positive numbers is positive. */
  lemma ProductBelow(d: real, s: real, u: real)
    requires s > 0.0 && u > 0.0 && d >= s * u
    ensures d > 0.0
  {
  }

  /** A number at least the square of a non-zero number is positive. */
  lemma DominatesSquare(d: real, t: real)
    requires d >= t * t && t != 0.0
    ensures d > 0.0
  {
    if t > 0.0 {
      ProductBelow(d, t, t);
    } else {
      ProductBelow(d, -t, -t);
    }
  }

  /** `v . v` is positive when some entry of `v` is not zero. */
  lemma DotSelfPositive(v: Vector, j: nat)
    requires j < |v| && v[j] != 0.0
    ensures Dot(v, v) > 0.0
  {
    DotSelfDominates(v, j);
    DominatesSquare(Dot(v, v), v[j]);
  }

  /** The square root of a positive number is positive. */
  lemma RootPositive(d: real, r: real)
    requires d > 0.0 && r >= 0.0 && r * r == d
    ensures r > 0.0
  {
    ZeroSquare(r);
  }

  lemma ZeroSquare(r: real)
    ensures r == 0.0 ==> r * r == 0.0
  {
  }

  /** A number divided by itself is 1. */
  lemma SelfQuotient(p: real, q: real)
    requires p > 0.0 && p == q
    ensures p / q == 1.0
  {
  }

  /** A non-zero row makes a cosine of 1 with itself. */
  lemma CosineWithItself(v: Vector, a: real)
    requires a > 0.0 && Dot(v, v) > 0.0 && a * a == Dot(v, v)
    ensures Cosine(v, v, a, a) == 1.0
  {
    SelfQuotient(Dot(v, v), a * a);
  }

  /** When rows `0 .. k + L` all equal `v` and every row norm is `a > 0`, each of
      the first `k` pairs contributes `Cosine(v, v, a, a)`. */
  lemma {:induction false} PairCosinesOfConstantRows(x: Series, lag: nat, sparse: bool, sqrt: real -> real, k: nat, v: Vector, a: real)
    requires Rectangular(x.rows) && k + lag <= |x.rows| && a > 0.0
    requires forall i :: 0 <= i < |x.rows| ==> x.rows[i] == v && RowNorm(x, i, sparse, None, sqrt) == a
    ensures |PairCosines(x, lag, sparse, None, sqrt, k)| == k
    ensures forall t :: 0 <= t < k ==> PairCosines(x, lag, sparse, None, sqrt, k)[t] == Cosine(v, v, a, a)
  {
    if k > 0 {
      PairCosinesOfConstantRows(x, lag, sparse, sqrt, k - 1, v, a);
    }
  }

  /** A series whose rows all equal one non-zero vector is perfectly
      autocorrelated: with norms computed by a square root, its cosine statistic
      is 1 at every valid lag. */
  lemma ConstantSeriesIsOne(x: Series, lag: int, sparse: bool, sqrt: real -> real)
    requires Rectangular(x.rows)
    requires sparse <==> x.Sparse?
    requires 1 <= lag < |x.rows|
    requires IsSqrt(sqrt)
    requires forall i :: 0 <= i < |x.rows| ==> x.rows[i] == x.rows[0]
    requires exists j :: 0 <= j < |x.rows[0]| && x.rows[0][j] != 0.0
    ensures CosineSpec(x, lag, sparse, None, sqrt) == Ok(Num(1.0))
  {
    var m := |x.rows| - lag;
    var c := PairCosines(x, lag, sparse, None, sqrt, m);
    ConstantRowsCosines(x, lag, sparse, sqrt);
    SumConstant(c, 1.0);
    UnitMean(Sum(c), |c| as real);
    CosineSpecValue(x, lag, sparse, None, sqrt);
  }

  /** `ConstantSeriesIsOne`, pair by pair: every pair is included, with cosine 1. */
  lemma ConstantRowsCosines(x: Series, lag: int, sparse: bool, sqrt: real -> real)
    requires Rectangular(x.rows)
    requires 1 <= lag < |x.rows|
    requires IsSqrt(sqrt)
    requires forall i :: 0 <= i < |x.rows| ==> x.rows[i] == x.rows[0]
    requires exists j :: 0 <= j < |x.rows[0]| && x.rows[0][j] != 0.0
    ensures var c := PairCosines(x, lag, sparse, None, sqrt, |x.rows| - lag);
      |c| == |x.rows| - lag && forall t :: 0 <= t < |c| ==> c[t] == 1.0
  {
    var v := x.rows[0];
    var j :| 0 <= j < |v| && v[j] != 0.0;
    DotSelfPositive(v, j);
    var a := sqrt(Dot(v, v));
    RootPositive(Dot(v, v), a);
    forall i | 0 <= i < |x.rows|
      ensures RowNorm(x, i, sparse, None, sqrt) == a
    {
      SquaredNormIsDot(x.rows[i], sparse);
    }
    PairCosinesOfConstantRows(x, lag, sparse, sqrt, |x.rows| - lag, v, a);
    CosineWithItself(v, a);
  }

  /** `n` ones sum to `n`, whose mean is 1. */
  lemma UnitMean(s: real, n: real)
    requires n > 0.0 && s == n * 1.0
    ensures s / n == 1.0
  {
  }

  /** With a square root, the computed norm of a row is non-negative and squares
      to `v . v`. */
  lemma RowNormSquared(x: Series, i: nat, sparse: bool, sqrt: real -> real)
    requires i < |x.rows| && IsSqrt(sqrt)
    ensures RowNorm(x, i, sparse, None, sqrt) >= 0.0
    ensures RowNorm(x, i, sparse, None, sqrt) * RowNorm(x, i, sparse, None, sqrt) == Dot(x.rows[i], x.rows[i])
  {
    SquaredNormIsDot(x.rows[i], sparse);
    DotSelfNonNegative(x.rows[i]);
    RootOf(RowNorm(x, i, sparse, None, sqrt), sqrt, Dot(x.rows[i], x.rows[i]));
  }

  /** `a` is the square root of `d`. */
  lemma RootOf(a: real, sqrt: real -> real, d: real)
    requires IsSqrt(sqrt) && d >= 0.0 && a == sqrt(d)
    ensures a >= 0.0 && a * a == d
  {
  }

  /** A number whose square is at most `s * s` lies in `[-s, s]`. */
  lemma SquareInterval(t: real, s: real)
    requires s >= 0.0 && t * t <= s * s
    ensures -s <= t <= s
  {
    SquareBound(t, s);
    SquareBound(-t, s);
  }

  /** Cauchy-Schwarz bounds the dot product by the product of the norms. */
  lemma DotBetweenNorms(u: Vector, v: Vector, a: real, b: real)
    requires |u| == |v| && a > 0.0 && b > 0.0
    requires a * a == Dot(u, u) && b * b == Dot(v, v)
    ensures -(a * b) <= Dot(u, v) <= a * b
  {
    DotCauchySchwarz(u, v);
    ProductPositive(a, b);
    assert (a * b) * (a * b) == (a * a) * (b * b);
    SquareInterval(Dot(u, v), a * b);
  }

  /** Dividing a number in `[-s, s]` by `s > 0` gives a number in `[-1, 1]`. */
  lemma UnitQuotient(t: real, s: real)
    requires s > 0.0 && -s <= t <= s
    ensures -1.0 <= t / s <= 1.0
  {
  }

  /** A cosine lies in `[-1, 1]`. */
  lemma CosineBound(u: Vector, v: Vector, a: real, b: real)
    requires |u| == |v| && a > 0.0 && b > 0.0
    requires a * a == Dot(u, u) && b * b == Dot(v, v)
    ensures -1.0 <= Cosine(u, v, a, b) <= 1.0
  {
    DotBetweenNorms(u, v, a, b);
    ProductPositive(a, b);
    UnitQuotient(Dot(u, v), a * b);
  }

  /** With norms computed by a square root, every pair cosine lies in `[-1, 1]`. */
  lemma {:induction false} PairCosinesBounded(x: Series, lag: nat, sparse: bool, sqrt: real -> real, k: nat)
    requires Rectangular(x.rows) && k + lag <= |x.rows| && IsSqrt(sqrt)
    ensures forall t :: 0 <= t < |PairCosines(x, lag, sparse, None, sqrt, k)| ==>
      -1.0 <= PairCosines(x, lag, sparse, None, sqrt, k)[t] <= 1.0
  {
    if k > 0 {
      var i := k - 1;
      PairCosinesBounded(x, lag, sparse, sqrt, i);
      var a, b := RowNorm(x, i, sparse, None, sqrt), RowNorm(x, i + lag, sparse, None, sqrt);
      var tail := if a > 0.0 && b > 0.0 then [Cosine(x.rows[i], x.rows[i + lag], a, b)] else [];
      if a > 0.0 && b > 0.0 {
        PairCosineBounded(x, i, i + lag, sparse, sqrt);
      }
      UnitBoundsAppend(PairCosines(x, lag, sparse, None, sqrt, i), tail);
    }
  }

  /** The cosine of two rows with positive computed norms lies in `[-1, 1]`. */
  lemma PairCosineBounded(x: Series, i: nat, j: nat, sparse: bool, sqrt: real -> real)
    requires Rectangular(x.rows) && i < |x.rows| && j < |x.rows| && IsSqrt(sqrt)
    requires RowNorm(x, i, sparse, None, sqrt) > 0.0 && RowNorm(x, j, sparse, None, sqrt) > 0.0
    ensures -1.0 <= Cosine(x.rows[i], x.rows[j], RowNorm(x, i, sparse, None, sqrt), RowNorm(x, j, sparse, None, sqrt)) <= 1.0
  {
    RowNormSquared(x, i, sparse, sqrt);
    RowNormSquared(x, j, sparse, sqrt);
    CosineBound(x.rows[i], x.rows[j], RowNorm(x, i, sparse, None, sqrt), RowNorm(x, j, sparse, None, sqrt));
  }

  /** Entries in `[-1, 1]` stay so under concatenation. */
  lemma UnitBoundsAppend(c: seq<real>, d: seq<real>)
    requires forall t :: 0 <= t < |c| ==> -1.0 <= c[t] <= 1.0
    requires forall t :: 0 <= t < |d| ==> -1.0 <= d[t] <= 1.0
    ensures forall t :: 0 <= t < |c + d| ==> -1.0 <= (c + d)[t] <= 1.0
  {
  }

  /** `-n <= sum(c) <= n` when every entry lies in `[-1, 1]`. */
  lemma {:induction false} SumInUnitBounds(c: seq<real>)
    requires forall t :: 0 <= t < |c| ==> -1.0 <= c[t] <= 1.0
    ensures -(|c| as real) <= Sum(c) <= |c| as real
  {
    if |c| > 0 {
      SumInUnitBounds(c[..|c| - 1]);
    }
  }

  /** With norms computed by a square root, the cosine statistic is NaN or a
      number in `[-1, 1]`. */
  lemma CosineBounded(x: Series, lag: int, sparse: bool, sqrt: real -> real)
    requires Rectangular(x.rows)
    requires sparse <==> x.Sparse?
    requires 1 <= lag < |x.rows|
    requires IsSqrt(sqrt)
    ensures CosineSpec(x, lag, sparse, None, sqrt).Ok?
    ensures var r := CosineSpec(x, lag, sparse, None, sqrt).value;
      r.Num? ==> -1.0 <= r.value <= 1.0
  {
    var c := PairCosines(x, lag, sparse, None, sqrt, |x.rows| - lag);
    assert CosineSpec(x, lag, sparse, None, sqrt) == Ok(if |c| == 0 then NaN else Num(Sum(c) / (|c| as real))) by {
      CosineSpecValue(x, lag, sparse, None, sqrt);
    }
    PairCosinesBounded(x, lag, sparse, sqrt, |x.rows| - lag);
    MeanInUnitBounds(c);
  }

  /** The mean of numbers in `[-1, 1]` lies in `[-1, 1]`. */
  lemma MeanInUnitBounds(c: seq<real>)
    requires forall t :: 0 <= t < |c| ==> -1.0 <= c[t] <= 1.0
    ensures |c| > 0 ==> -1.0 <= Sum(c) / (|c| as real) <= 1.0
  {
    if |c| > 0 {
      SumInUnitBounds(c);
      UnitQuotient(Sum(c), |c| as real);
    }
  }

  /** The sparse and the dense path compute the same squared norms, dot
      products and so the same statistic for the same rows. */
  lemma SparseAndDenseAgree(rows: seq<Vector>, lag: int, norms: Option<seq<real>>, sqrt: real -> real)
    requires Rectangular(rows)
    ensures CosineSpec(Sparse(rows), lag, true, norms, sqrt) == CosineSpec(Dense(rows), lag, false, norms, sqrt)
  {
    if 1 <= lag < |rows| {
      var s := PrepareData(rows, lag).value;
      forall i | 0 <= i < s.m
        ensures Sum(Multiply(s.su[i], s.sl[i])) == Dot(s.su[i], s.sl[i])
        ensures SquaredNorm(s.su[i], true) == SquaredNorm(s.su[i], false)
        ensures SquaredNorm(s.sl[i], true) == SquaredNorm(s.sl[i], false)
      {
        DotIsSumOfProducts(s.su[i], s.sl[i]);
        DotIsSumOfProducts(s.su[i], s.su[i]);
        DotIsSumOfProducts(s.sl[i], s.sl[i]);
      }
      assert DotProducts(s.su, s.sl, true) == DotProducts(s.su, s.sl, false);
      assert Norms(s.su, true, sqrt) == Norms(s.su, false, sqrt);
      assert Norms(s.sl, true, sqrt) == Norms(s.sl, false, sqrt);
    }
  }
}
