/** `TextAnalysisPipeline` of `scripts/pipeline.py`: reads or downloads a book,
    turns it into vectors, records the cosine autocorrelation along the lag
    schedule and fits a power law. The downloaded text, the tokens read from
    disk, `sqrt` and the curve fit are parameters. */
module Pipeline {
  import opened Common
  import LagSchedule
  import Correlations
  import Embeddings

  /** What the lag loop leaves behind: the lags it appended, the values it
      appended, and the exception that stopped it, if any. */
  datatype Outcome = Outcome(lags: seq<nat>, values: seq<Stat>, error: Option<PyError>)

  /** The position of the first exception among the results, or their number
      when there is none. */
  function FirstRaise(results: seq<Result<Stat>>): (j: nat)
    ensures j <= |results|
    ensures forall i :: 0 <= i < j ==> results[i].Ok?
    ensures j < |results| ==> results[j].Raise?
  {
    if |results| == 0 || results[0].Raise? then 0 else 1 + FirstRaise(results[1..])
  }

  /** The values of the first `k` results, all of which are values. */
  function Values(results: seq<Result<Stat>>, k: nat): (v: seq<Stat>)
    requires k <= |results| && forall i :: 0 <= i < k ==> results[i].Ok?
    ensures |v| == k && forall i :: 0 <= i < k ==> results[i] == Ok(v[i])
  {
    seq(k, i requires 0 <= i < k => results[i].value)
  }

  /** The loop run over the lags `lags`, where `results[i]` is what the cosine
      statistic returns or raises for `lags[i]`. Each lag is appended before its
      statistic is computed, so an exception leaves its lag recorded and its
      value not. */
  function RunLags(lags: seq<nat>, results: seq<Result<Stat>>): Outcome
    requires |lags| == |results|
  {
    var j := FirstRaise(results);
    if j == |results| then Outcome(lags, Values(results, j), None)
    else Outcome(lags[..j + 1], Values(results, j), Some(results[j].error))
  }

  /** What the statistic `stat` gives for each lag. */
  function Statistics(lags: seq<nat>, stat: nat -> Result<Stat>): (r: seq<Result<Stat>>)
    ensures |r| == |lags|
  {
    seq(|lags|, i requires 0 <= i < |lags| => stat(lags[i]))
  }

  /** `calculate_cosine_correlation(vectors, L=lag, sparse=sparse)` as a function of the lag. */
  function Cosine(x: Correlations.Series, sparse: bool, sqrt: real -> real): nat -> Result<Stat>
    requires Rectangular(x.rows) && (x.Sparse? ==> sparse)
  {
    lag => Correlations.CosineSpec(x, lag, sparse, None, sqrt)
  }

  /** The loop of `calculate_autocorrelation` over `n` vectors, with statistic `stat`. */
  function RunSchedule(n: nat, stat: nat -> Result<Stat>): Outcome
  {
    var lags := LagSchedule.Schedule(n);
    RunLags(lags, Statistics(lags, stat))
  }

  /** `calculate_autocorrelation` on the vectors `x`: the loop over the lag schedule of `len(x)`. */
  function Autocorrelation(x: Correlations.Series, sparse: bool, sqrt: real -> real): Outcome
    requires Rectangular(x.rows) && (x.Sparse? ==> sparse)
  {
    RunSchedule(|x.rows|, Cosine(x, sparse, sqrt))
  }

  /** The lists grow in lockstep: without an exception the whole schedule is
      recorded with one value per lag; an exception leaves one lag more than
      values, the lags recorded are a prefix of the schedule, every value is the
      statistic of its lag, and the exception is the one raised for the last lag
      recorded. */
  lemma RunScheduleShape(n: nat, stat: nat -> Result<Stat>)
    ensures var o := RunSchedule(n, stat); var lags := LagSchedule.Schedule(n);
      (o.error.None? ==> o.lags == lags && |o.values| == |lags|) &&
      (o.error.Some? ==> (0 < |o.lags| <= |lags| && o.lags == lags[..|o.lags|] && |o.values| == |o.lags| - 1 &&
                          stat(lags[|o.lags| - 1]) == Raise(o.error.value)))
    ensures var o := RunSchedule(n, stat);
      forall i :: 0 <= i < |o.values| ==> stat(o.lags[i]) == Ok(o.values[i])
  {
    var lags := LagSchedule.Schedule(n);
    var results := Statistics(lags, stat);
    var j := FirstRaise(results);
  }

  /** The lockstep shape of `calculate_autocorrelation` with the cosine statistic. */
  lemma AutocorrelationShape(x: Correlations.Series, sparse: bool, sqrt: real -> real)
    requires Rectangular(x.rows) && (x.Sparse? ==> sparse)
    ensures var o := Autocorrelation(x, sparse, sqrt); var lags := LagSchedule.Schedule(|x.rows|);
      (o.error.None? ==> o.lags == lags && |o.values| == |lags|) &&
      (o.error.Some? ==> (0 < |o.lags| <= |lags| && o.lags == lags[..|o.lags|] && |o.values| == |o.lags| - 1 &&
                          Correlations.CosineSpec(x, lags[|o.lags| - 1], sparse, None, sqrt) == Raise(o.error.value)))
    ensures var o := Autocorrelation(x, sparse, sqrt);
      forall i :: 0 <= i < |o.values| ==> Correlations.CosineSpec(x, o.lags[i], sparse, None, sqrt) == Ok(o.values[i])
  {
    var stat := Cosine(x, sparse, sqrt);
    RunScheduleShape(|x.rows|, stat);
    assert forall lag: nat :: stat(lag) == Correlations.CosineSpec(x, lag, sparse, None, sqrt);
  }

  /** The loop of `calculate_autocorrelation` never raises the `ValueError` of the
      lag check, since every scheduled lag lies in `[1, N)`; with the sparse flag
      matching the vectors it records the whole schedule, one value per lag, each
      the statistic of its lag. */
  lemma AutocorrelationErrors(x: Correlations.Series, sparse: bool, sqrt: real -> real)
    requires Rectangular(x.rows) && (x.Sparse? ==> sparse)
    ensures Autocorrelation(x, sparse, sqrt).error != Some(ValueError)
    ensures (sparse <==> x.Sparse?) ==> (var o := Autocorrelation(x, sparse, sqrt);
      o.error == None && o.lags == LagSchedule.Schedule(|x.rows|) && |o.values| == |o.lags| &&
      forall i :: 0 <= i < |o.values| ==> Correlations.CosineSpec(x, o.lags[i], sparse, None, sqrt) == Ok(o.values[i]))
  {
    var lags := LagSchedule.Schedule(|x.rows|);
    var results := Statistics(lags, Cosine(x, sparse, sqrt));
    LagSchedule.ScheduleLagsValid(|x.rows|);
    assert forall i :: 0 <= i < |results| ==> results[i] != Raise(ValueError);
    assert (sparse <==> x.Sparse?) ==> forall i :: 0 <= i < |results| ==> results[i].Ok?;
    AutocorrelationShape(x, sparse, sqrt);
  }

  /** With the default `sparse=True`, dense embedding vectors of at least four rows
      stop the loop at its first lag: the lag 1 is recorded, then `s.multiply`
      raises `AttributeError` on a NumPy row, and no value is recorded. */
  lemma DefaultSparseFlagFailsOnDenseVectors(rows: seq<Vector>, sqrt: real -> real)
    requires Rectangular(rows) && |rows| >= 4
    ensures Autocorrelation(Correlations.Dense(rows), true, sqrt) == Outcome([1], [], Some(AttributeError))
  {
    LagSchedule.ScheduleNonEmptyIff(|rows|);
    LagSchedule.ScheduleShape(|rows|);
    var lags := LagSchedule.Schedule(|rows|);
    var results := Statistics(lags, Cosine(Correlations.Dense(rows), true, sqrt));
    assert results[0] == Raise(AttributeError);
  }

  /** Steps 1 and 2 of `run_pipeline`: a `"PG"` book is downloaded and preprocessed,
      an `"SGPC"` book's tokens are read from disk, and for any other source the
      `ValueError` is built but not raised, so the tokens stay as they were. */
  function ReadTokens(source: string, downloaded: string, readerTokens: seq<string>, stopWords: set<string>,
                      tokens: Option<seq<string>>): (r: Option<seq<string>>)
    ensures source == "PG" ==> r == Some(Embeddings.PreprocessText(downloaded, stopWords))
    ensures source == "SGPC" ==> r == Some(readerTokens)
    ensures source != "PG" && source != "SGPC" ==> r == tokens
  {
    if source == "PG" then Some(Embeddings.PreprocessText(downloaded, stopWords))
    else if source == "SGPC" then Some(readerTokens)
    else tokens
  }

  /** Step 3 of `run_pipeline`, as new `(vectors, coverage)` or the exception it
      raises. `"embeddings"` looks the tokens up in the embedder (no embedder:
      `AttributeError`; no tokens or no table: `TypeError`); `"cooccurence"` calls
      `build_matrix(sparse=...)`, which takes no such argument (`TypeError`); any
      other method builds a `ValueError` without raising it and changes nothing. */
  function VectorsStep(methodName: string, hasEmbedder: bool, table: Option<Embeddings.Table>,
                       tokens: Option<seq<string>>, vectors: Option<Correlations.Series>,
                       coverage: Option<real>): (r: Result<(Option<Correlations.Series>, Option<real>)>)
    ensures methodName == "cooccurence" ==> r == Raise(TypeError)
    ensures methodName != "embeddings" && methodName != "cooccurence" ==> r == Ok((vectors, coverage))
    ensures methodName == "embeddings" && !hasEmbedder ==> r == Raise(AttributeError)
    ensures methodName == "embeddings" && r.Ok? ==>
      (tokens.Some? &&
       Embeddings.EmbedText(table, tokens.value).Ok? && Embeddings.CalculateCoverage(table, tokens.value).Ok? &&
       r.value == (Some(Correlations.Dense(Embeddings.EmbedText(table, tokens.value).value)),
                   Some(Embeddings.CalculateCoverage(table, tokens.value).value)))
    ensures r.Raise? ==> r.error != ValueError
  {
    if methodName == "embeddings" then
      if !hasEmbedder then Raise(AttributeError)
      else if tokens.None? then Raise(TypeError)
      else
        var e := Embeddings.EmbedText(table, tokens.value);
        if e.Raise? then Raise(e.error)
        else Ok((Some(Correlations.Dense(e.value)), Some(Embeddings.CalculateCoverage(table, tokens.value).value)))
    else if methodName == "cooccurence" then Raise(TypeError)
    else Ok((vectors, coverage))
  }

  /** `_fit_power_law`: the fitted parameters, or `None` when `curve_fit` raises. */
  function FitResult(fit: Result<seq<real>>): (r: Option<seq<real>>)
    ensures fit.Ok? ==> r == Some(fit.value)
    ensures fit.Raise? ==> r == None
  {
    if fit.Ok? then Some(fit.value) else None
  }

  /** One more value recorded. */
  lemma ValuesSnoc(results: seq<Result<Stat>>, k: nat)
    requires k < |results| && forall i :: 0 <= i <= k ==> results[i].Ok?
    ensures Values(results, k) + [results[k].value] == Values(results, k + 1)
  {
  }

  /** The run stops at the first exception, after recording its lag. */
  lemma RunLagsStopsAt(lags: seq<nat>, results: seq<Result<Stat>>, k: nat)
    requires |lags| == |results| && k < |results|
    requires forall i :: 0 <= i < k ==> results[i].Ok?
    requires results[k].Raise?
    ensures RunLags(lags, results) == Outcome(lags[..k + 1], Values(results, k), Some(results[k].error))
  {
    assert FirstRaise(results) == k;
  }

  /** A run without exceptions records every lag and every value. */
  lemma RunLagsCompletes(lags: seq<nat>, results: seq<Result<Stat>>)
    requires |lags| == |results|
    requires forall i :: 0 <= i < |results| ==> results[i].Ok?
    ensures RunLags(lags, results) == Outcome(lags, Values(results, |results|), None)
  {
    assert FirstRaise(results) == |results|;
  }

  class TextAnalysisPipeline {
    const source: string
    const methodName: string
    const windowSize: int
    const sparse: bool
    const embedder: Embeddings.WordEmbeddings?
    /** The stop words of `TextPreprocessor(language)`. */
    const stopWords: set<string>

    var rawText: Option<string>
    var tokens: Option<seq<string>>
    var vectors: Option<Correlations.Series>
    var lags: seq<nat>
    var autocorrelationCosine: seq<Stat>
    var powerLawCosine: Option<seq<real>>
    var coverage: Option<real>

    /** The vectors are a two-dimensional array that the cosine statistic accepts
        under the sparse flag, and the embedder's table has one dimension. */
    ghost predicate Valid()
      reads this, embedder
    {
      (vectors.Some? ==> Rectangular(vectors.value.rows) && (vectors.value.Sparse? ==> sparse)) &&
      (embedder != null && embedder.embeddings.Some? ==> Embeddings.Uniform(embedder.embeddings.value))
    }

    constructor(source: string, methodName: string, windowSize: int, sparse: bool,
                embedder: Embeddings.WordEmbeddings?, stopWords: set<string>)
      requires embedder != null && embedder.embeddings.Some? ==> Embeddings.Uniform(embedder.embeddings.value)
      ensures this.source == source && this.methodName == methodName && this.windowSize == windowSize
      ensures this.sparse == sparse && this.embedder == embedder && this.stopWords == stopWords
      ensures rawText == None && tokens == None && vectors == None && coverage == None
      ensures lags == [] && autocorrelationCosine == [] && powerLawCosine == None
      ensures Valid()
    {
      this.source := source;
      this.methodName := methodName;
      this.windowSize := windowSize;
      this.sparse := sparse;
      this.embedder := embedder;
      this.stopWords := stopWords;
      rawText, tokens, vectors, coverage := None, None, None, None;
      lags, autocorrelationCosine, powerLawCosine := [], [], None;
    }

    /** `calculate_autocorrelation()`: `len(None)` raises `TypeError` before any
        vectors exist; otherwise the lags and values of the loop are appended to
        the lists, whose earlier contents stay in place. */
    method CalculateAutocorrelation(sqrt: real -> real) returns (err: Option<PyError>)
      requires Valid()
      modifies this
      ensures Valid()
      ensures rawText == old(rawText) && tokens == old(tokens) && vectors == old(vectors)
      ensures powerLawCosine == old(powerLawCosine) && coverage == old(coverage)
      ensures vectors.None? ==>
        (err == Some(TypeError) && lags == old(lags) && autocorrelationCosine == old(autocorrelationCosine))
      ensures vectors.Some? ==> var o := Autocorrelation(vectors.value, sparse, sqrt);
        err == o.error && lags == old(lags) + o.lags && autocorrelationCosine == old(autocorrelationCosine) + o.values
    {
      if vectors.None? {
        return Some(TypeError);
      }
      err := RecordLags(|vectors.value.rows|, Cosine(vectors.value, sparse, sqrt));
    }

    /** The loop of `calculate_autocorrelation()` over `n` vectors: while the lag
        is below `0.5 * (N - 1)`, append it, append its statistic `stat(lag)`,
        and grow it. An exception from the statistic ends the loop. */
    method RecordLags(n: nat, stat: nat -> Result<Stat>) returns (err: Option<PyError>)
      modifies this`lags, this`autocorrelationCosine
      ensures var o := RunSchedule(n, stat);
        err == o.error && lags == old(lags) + o.lags && autocorrelationCosine == old(autocorrelationCosine) + o.values
    {
      var current: nat := 1;
      ghost var sched := LagSchedule.Schedule(n);
      ghost var results := Statistics(sched, stat);
      ghost var k := 0;
      LagSchedule.ScheduleStart(n);
      while LagSchedule.BelowMaxLag(current, n)
        invariant 0 <= k <= |sched| && current >= 1
        invariant k < |sched| ==> current == sched[k]
        invariant k == |sched| ==> !LagSchedule.BelowMaxLag(current, n)
        invariant forall i :: 0 <= i < k ==> results[i].Ok?
        invariant lags == old(lags) + sched[..k]
        invariant autocorrelationCosine == old(autocorrelationCosine) + Values(results, k)
        decreases n - current
      {
        LagSchedule.GrowAdvances(current);
        Associative(old(lags), sched[..k], [current]);
        TakeSnoc(sched, k);
        lags := lags + [current];
        var r := stat(current);
        if r.Raise? {
          RunLagsStopsAt(sched, results, k);
          return Some(r.error);
        }
        Associative(old(autocorrelationCosine), Values(results, k), [r.value]);
        ValuesSnoc(results, k);
        LagSchedule.ScheduleNext(n, k);
        autocorrelationCosine := autocorrelationCosine + [r.value];
        current := LagSchedule.Grow(current);
        k := k + 1;
      }
      LagSchedule.ScheduleBelowMax(n);
      RunLagsCompletes(sched, results);
      assert sched[..k] == sched;
      err := None;
    }

    /** `fit_power_law()`: the fit of the recorded values against the recorded
        lags, or `None` when `curve_fit` raises; no exception escapes. */
    method FitPowerLaw(fit: (seq<nat>, seq<Stat>) -> Result<seq<real>>)
      requires Valid()
      modifies this
      ensures Valid()
      ensures rawText == old(rawText) && tokens == old(tokens) && vectors == old(vectors) && coverage == old(coverage)
      ensures lags == old(lags) && autocorrelationCosine == old(autocorrelationCosine)
      ensures powerLawCosine == FitResult(fit(lags, autocorrelationCosine))
    {
      powerLawCosine := FitResult(fit(lags, autocorrelationCosine));
    }

    /** The table of the embedder, `None` without an embedder or before loading. */
    function Table(): Option<Embeddings.Table>
      reads this, embedder
    {
      if embedder != null then embedder.embeddings else None
    }

    /** `build_coocurrence_matrix()`: `build_matrix(sparse=self.sparse)` passes an
        argument `build_matrix` does not take, so the call raises `TypeError` before
        any field is set. */
    method BuildCoocurrenceMatrix() returns (err: PyError)
      ensures err == TypeError
    {
      err := TypeError;
    }

    /** Step 3 of `run_pipeline()`: the vectors and the coverage for the method. */
    method Vectorize() returns (err: Option<PyError>)
      requires Valid()
      modifies this
      ensures Valid()
      ensures rawText == old(rawText) && tokens == old(tokens) && lags == old(lags)
      ensures autocorrelationCosine == old(autocorrelationCosine) && powerLawCosine == old(powerLawCosine)
      ensures var step := VectorsStep(methodName, embedder != null, Table(), tokens, old(vectors), old(coverage));
        (step.Raise? ==> err == Some(step.error) && vectors == old(vectors) && coverage == old(coverage)) &&
        (step.Ok? ==> err == None && vectors == step.value.0 && coverage == step.value.1)
    {
      if methodName == "embeddings" {
        if embedder == null {
          return Some(AttributeError);
        }
        if tokens.None? {
          return Some(TypeError);
        }
        var table := embedder.embeddings;
        var e := Embeddings.EmbedText(table, tokens.value);
        if e.Raise? {
          return Some(e.error);
        }
        if table.Some? {
          Embeddings.EmbeddedRowsRectangular(table.value, tokens.value);
        }
        vectors := Some(Correlations.Dense(e.value));
        coverage := Some(Embeddings.CalculateCoverage(table, tokens.value).value);
      } else if methodName == "cooccurence" {
        var e := BuildCoocurrenceMatrix();
        return Some(e);
      }
      err := None;
    }

    /** `run_pipeline()`, with the downloaded text and the tokens read from disk as
        parameters. An exception in step 3 or 4 ends the run and leaves the fields
        the later steps would have set as they were. */
    method RunPipeline(downloaded: string, readerTokens: seq<string>, sqrt: real -> real,
                       fit: (seq<nat>, seq<Stat>) -> Result<seq<real>>) returns (err: Option<PyError>)
      requires Valid()
      modifies this
      ensures Valid()
      ensures rawText == if source == "PG" then Some(downloaded) else old(rawText)
      ensures tokens == ReadTokens(source, downloaded, readerTokens, stopWords, old(tokens))
      ensures var step := VectorsStep(methodName, embedder != null, Table(), tokens, old(vectors), old(coverage));
        (step.Raise? ==>
          (err == Some(step.error) && vectors == old(vectors) && coverage == old(coverage) &&
           lags == old(lags) && autocorrelationCosine == old(autocorrelationCosine) &&
           powerLawCosine == old(powerLawCosine))) &&
        (step.Ok? ==> vectors == step.value.0 && coverage == step.value.1)
      ensures VectorsStep(methodName, embedder != null, Table(), tokens, old(vectors), old(coverage)).Ok? ==>
        (vectors.None? ==>
          (err == Some(TypeError) && lags == old(lags) &&
           autocorrelationCosine == old(autocorrelationCosine) && powerLawCosine == old(powerLawCosine))) &&
        (vectors.Some? ==> var o := Autocorrelation(vectors.value, sparse, sqrt);
          lags == old(lags) + o.lags && autocorrelationCosine == old(autocorrelationCosine) + o.values &&
          (o.error.Some? ==> err == o.error && powerLawCosine == old(powerLawCosine)) &&
          (o.error.None? ==> err == None && powerLawCosine == FitResult(fit(lags, autocorrelationCosine))))
    {
      if source == "PG" {
        rawText := Some(downloaded);
      } else if source == "SGPC" {
        tokens := Some(readerTokens);
      }
      if source == "PG" {
        tokens := Some(Embeddings.PreprocessText(downloaded, stopWords));
      }
      err := Vectorize();
      if err.Some? {
        return;
      }
      err := CalculateAutocorrelation(sqrt);
      if err.Some? {
        return;
      }
      FitPowerLaw(fit);
    }
  }
}
