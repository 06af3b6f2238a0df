/** `TextAnalysisPipeline` of `pipeline.py`, the older pipeline: it downloads a
    book, preprocesses it, embeds it with a word2vec table and records the dense
    cosine autocorrelation along the lag schedule. The downloaded text, the
    word2vec reader, `sqrt` and the stop words are parameters. */
module LegacyPipeline {
  import opened Common
  import LagSchedule
  import Correlations
  import LegacyCorrelations
  import Embeddings
  import LegacyEmbeddings

  /** The older cosine statistic at every lag of the schedule of `len(x)`; each
      scheduled lag is valid, so each statistic is a value. */
  function ScheduleValues(x: seq<Vector>, sqrt: real -> real): (v: seq<Stat>)
    requires Rectangular(x)
    ensures |v| == |LagSchedule.Schedule(|x|)|
    ensures forall i :: 0 <= i < |v| ==>
      Correlations.CosineSpec(Correlations.Dense(x), LagSchedule.Schedule(|x|)[i], false, None, sqrt) == Ok(v[i])
  {
    var lags := LagSchedule.Schedule(|x|);
    LagSchedule.ScheduleLagsValid(|x|);
    seq(|lags|, i requires 0 <= i < |lags| => Correlations.CosineSpec(Correlations.Dense(x), lags[i], false, None, sqrt).value)
  }

  class TextAnalysisPipeline {
    /** The stop words of `TextPreprocessor(language)`. */
    const stopWords: set<string>
    /** `WordEmbeddings(embedding_path)`, made by the constructor. */
    const embedder: LegacyEmbeddings.WordEmbeddings

    var rawText: Option<string>
    var tokens: Option<seq<string>>
    var vectors: Option<seq<Vector>>
    var lags: seq<nat>
    var autocorrelationCosine: seq<Stat>

    /** The vectors are a two-dimensional array. */
    ghost predicate Valid()
      reads this
    {
      vectors.Some? ==> Rectangular(vectors.value)
    }

    constructor(stopWords: set<string>, embeddingPath: string)
      ensures this.stopWords == stopWords
      ensures fresh(embedder) && embedder.embeddingPath == embeddingPath && embedder.embeddings == None
      ensures rawText == None && tokens == None && vectors == None
      ensures lags == [] && autocorrelationCosine == []
      ensures Valid()
    {
      this.stopWords := stopWords;
      embedder := new LegacyEmbeddings.WordEmbeddings(embeddingPath);
      rawText, tokens, vectors := None, None, None;
      lags, autocorrelationCosine := [], [];
    }

    /** `calculate_autocorrelation()`: without vectors `len(None)` raises
        `TypeError`; otherwise every lag of the schedule is appended together
        with its cosine statistic, after the earlier contents of both lists. The
        older cosine statistic never raises here, since every scheduled lag is
        valid. */
    method CalculateAutocorrelation(sqrt: real -> real) returns (err: Option<PyError>)
      requires Valid()
      modifies this`lags, this`autocorrelationCosine
      ensures vectors.None? ==>
        err == Some(TypeError) && lags == old(lags) && autocorrelationCosine == old(autocorrelationCosine)
      ensures vectors.Some? ==>
        err == None && lags == old(lags) + LagSchedule.Schedule(|vectors.value|) &&
        autocorrelationCosine == old(autocorrelationCosine) + ScheduleValues(vectors.value, sqrt)
    {
      if vectors.None? {
        return Some(TypeError);
      }
      var x := vectors.value;
      var n := |x|;
      var current: nat := 1;
      ghost var sched := LagSchedule.Schedule(n);
      ghost var values := ScheduleValues(x, sqrt);
      ghost var k := 0;
      LagSchedule.ScheduleStart(n);
      while LagSchedule.BelowMaxLag(current, n)
        invariant 0 <= k <= |sched| && current >= 1
        invariant k < |sched| ==> current == sched[k]
        invariant k == |sched| ==> !LagSchedule.BelowMaxLag(current, n)
        invariant lags == old(lags) + sched[..k]
        invariant autocorrelationCosine == old(autocorrelationCosine) + values[..k]
        decreases n - current
      {
        LagSchedule.GrowAdvances(current);
        LagSchedule.ScheduleNext(n, k);
        lags := lags + [current];
        var r := LegacyCorrelations.CosineCorrelation(x, current, sqrt);
        autocorrelationCosine := autocorrelationCosine + [r.value];
        TakeSnoc(sched, k);
        TakeSnoc(values, k);
        Associative(old(lags), sched[..k], [current]);
        Associative(old(autocorrelationCosine), values[..k], [r.value]);
        current := LagSchedule.Grow(current);
        k := k + 1;
      }
      LagSchedule.ScheduleBelowMax(n);
      assert sched[..k] == sched;
      assert values[..k] == values;
      err := None;
    }

    /** `run_pipeline()`: the downloaded text is kept and preprocessed, the table
        is loaded from the embedding path, the covered tokens' vectors become the
        series (`np.asarray(embed_text(tokens))`), and the autocorrelation is
        recorded. */
    method RunPipeline(downloaded: string, readWord2Vec: string -> Embeddings.Table, sqrt: real -> real)
      returns (err: Option<PyError>)
      requires Embeddings.Uniform(readWord2Vec(embedder.embeddingPath))
      modifies this, embedder
      ensures embedder.embeddings == Some(readWord2Vec(embedder.embeddingPath))
      ensures rawText == Some(downloaded)
      ensures tokens == Some(LegacyEmbeddings.PreprocessText(downloaded, stopWords))
      ensures LegacyEmbeddings.EmbedText(embedder.embeddings, tokens.value).Ok?
      ensures vectors == Some(LegacyEmbeddings.EmbedText(embedder.embeddings, tokens.value).value)
      ensures Valid() && err == None
      ensures lags == old(lags) + LagSchedule.Schedule(|vectors.value|)
      ensures autocorrelationCosine == old(autocorrelationCosine) + ScheduleValues(vectors.value, sqrt)
    {
      rawText := Some(downloaded);
      tokens := Some(LegacyEmbeddings.PreprocessText(downloaded, stopWords));
      embedder.LoadEmbeddings(readWord2Vec);
      var table := embedder.embeddings.value;
      Embeddings.EmbeddedRowsRectangular(table, tokens.value);
      vectors := Some(LegacyEmbeddings.EmbedText(embedder.embeddings, tokens.value).value);
      err := CalculateAutocorrelation(sqrt);
    }
  }
}
