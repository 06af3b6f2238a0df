/** The older, dense-only statistics of `correlations.py`. They validate the lag
    and slice the series inline rather than through a shared helper, and the
    cosine statistic has neither a sparse path nor precomputed norms. */
module LegacyCorrelations {
  import opened Common
  import Correlations

  /** `calculate_pearson_correlation(x, L)` of `correlations.py`. */
  function PearsonCorrelation(x: seq<Vector>, lag: int): (r: Result<Correlations.PearsonValue>)
    requires Rectangular(x)
    ensures r.Raise? <==> lag < 1 || lag >= |x|
    ensures r.Raise? ==> r.error == ValueError
  {
    if lag < 1 || lag >= |x| then Raise(ValueError)
    else
      var m := |x| - lag;
      var su, sl := x[0..m], x[lag..m + lag];
      var d := Correlations.Width(x);
      var varSu := Correlations.CovarianceSum(su, su, d);
      var varSl := Correlations.CovarianceSum(sl, sl, d);
      var cov := Correlations.CovarianceSum(su, sl, d);
      if varSu == 0.0 || varSl == 0.0 then Ok(Correlations.PearsonNaN)
      else Ok(Correlations.Ratio(cov, varSu, varSl))
  }

  /** The older Pearson statistic is the one of `scripts/correlations.py`, so the
      properties proved there (NaN exactly on a zero summed variance, NaN for a
      constant series, 1 for a shifted series) hold of it too. */
  lemma PearsonAgrees(x: seq<Vector>, lag: int)
    requires Rectangular(x)
    ensures PearsonCorrelation(x, lag) == Correlations.PearsonCorrelation(x, lag)
  {
    if 1 <= lag < |x| {
      var s := Correlations.PrepareData(x, lag).value;
      assert s.su == x[0..|x| - lag] && s.sl == x[lag..|x|];
    }
  }

  /** `calculate_cosine_correlation(x, L)` of `correlations.py`: the dense path of the
      later statistic without precomputed norms. */
  method CosineCorrelation(x: seq<Vector>, lag: int, sqrt: real -> real) returns (r: Result<Stat>)
    requires Rectangular(x)
    ensures r == Correlations.CosineSpec(Correlations.Dense(x), lag, false, None, sqrt)
  {
    if lag < 1 || lag >= |x| {
      return Raise(ValueError);
    }
    var m := |x| - lag;
    var su, sl := x[0..m], x[lag..m + lag];
    var nu, nl := Correlations.Norms(su, false, sqrt), Correlations.Norms(sl, false, sqrt);
    var dots := Correlations.DotProducts(su, sl, false);
    var mean := Correlations.MaskedMeanOf(dots, nu, nl);
    r := Ok(mean);
  }

  /** The demonstration series `[[1, 2, 3], [4, 5, 6], [7, 8, 9]]` of `correlations.py`. */
  function DemoSeries(): (x: seq<Vector>)
    ensures Rectangular(x) && |x| == 3 && Correlations.Width(x) == 3
  {
    [[1.0, 2.0, 3.0], [4.0, 5.0, 6.0], [7.0, 8.0, 9.0]]
  }

  lemma SumOfTwo(p: real, q: real)
    ensures Sum([p, q]) == p + q
  {
    assert [p, q][..1] == [p];
    assert [p][..0] == [];
    assert Sum([p]) == Sum([]) + p;
    assert Sum([p, q]) == Sum([p]) + q;
  }

  /** Each column of the unshifted demonstration side, `[t, t + 3]`, has variance
      `(t * t + (t + 3) * (t + 3)) / 2 - (t + 1.5) * (t + 1.5) = 2.25`. */
  lemma DemoColumnVariance(t: real)
    requires t == 1.0 || t == 2.0 || t == 3.0
    ensures Correlations.ColumnCovariance([t, t + 3.0], [t, t + 3.0]) == 2.25
  {
    var c := [t, t + 3.0];
    assert Multiply(c, c) == [t * t, (t + 3.0) * (t + 3.0)];
    SumOfTwo(t, t + 3.0);
    SumOfTwo(t * t, (t + 3.0) * (t + 3.0));
  }

  /** The summed variance of the unshifted demonstration side is `3 * 2.25`. */
  lemma DemoVarianceSum(su: seq<Vector>)
    requires su == [[1.0, 2.0, 3.0], [4.0, 5.0, 6.0]]
    ensures Correlations.CovarianceSum(su, su, 3) == 6.75
  {
    assert Correlations.Column(su, 0) == [1.0, 4.0];
    assert Correlations.Column(su, 1) == [2.0, 5.0];
    assert Correlations.Column(su, 2) == [3.0, 6.0];
    DemoColumnVariance(1.0);
    DemoColumnVariance(2.0);
    DemoColumnVariance(3.0);
    var v := Correlations.Covariances(su, su, 3);
    assert v == [2.25, 2.25, 2.25];
    SumConstant(v, 2.25);
  }

  /** The later Pearson statistic on the demonstration series at lag 1. */
  lemma DemoPearsonOfScripts()
    ensures Correlations.PearsonCorrelation(DemoSeries(), 1) == Ok(Correlations.Ratio(6.75, 6.75, 6.75))
  {
    var x := DemoSeries();
    var s := Correlations.PrepareData(x, 1).value;
    assert s.su == [[1.0, 2.0, 3.0], [4.0, 5.0, 6.0]];
    assert s.sl == [[4.0, 5.0, 6.0], [7.0, 8.0, 9.0]];
    Correlations.ShiftedSums(s.su, s.sl, [3.0, 3.0, 3.0], Correlations.Width(x));
    DemoVarianceSum(s.su);
  }

  /** At lag 1 the demonstration series has `Sl = Su + 3`; every summed moment is
      `3 * 2.25 = 6.75`, so the statistic is `6.75 / sqrt(6.75 * 6.75)`, which is 1. */
  lemma DemoPearsonIsOne()
    ensures PearsonCorrelation(DemoSeries(), 1) == Ok(Correlations.Ratio(6.75, 6.75, 6.75))
  {
    DemoPearsonOfScripts();
    PearsonAgrees(DemoSeries(), 1);
  }
}
