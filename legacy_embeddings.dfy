/** Text preprocessing and embedding lookup of the older `word_embeddings.py`. Its
    `preprocess_text`, `embed_text` and `calculate_coverage` are written as in
    `scripts/word_embeddings.py`, so they are defined through that module; its
    loader knows one format only, binary word2vec, whatever the path. */
module LegacyEmbeddings {
  import opened Common
  import Embeddings
  import OrderedDicts

  /** `TextPreprocessor(language).preprocess_text(text)` of the older file: every
      token is made of `a`-`z` only, is longer than one letter and is no stop
      word, and the tokens are exactly the ones of the whitespace split of the
      cleaned text that pass the filter, each as often as it occurs there, in
      their order. */
  function PreprocessText(text: string, stopWords: set<string>): (r: seq<string>)
    ensures forall t :: t in r ==>
      |t| > 1 && t !in stopWords && forall i :: 0 <= i < |t| ==> Embeddings.IsLowerLetter(t[i])
    ensures var split := Embeddings.SplitWords(Embeddings.Clean(Embeddings.Lower(text)));
      Embeddings.IsSubsequence(r, split) && (forall t :: t in r <==> t in split && Embeddings.Kept(t, stopWords)) &&
      forall t :: OrderedDicts.Occurrences(r, t) == if Embeddings.Kept(t, stopWords) then OrderedDicts.Occurrences(split, t) else 0
  {
    Embeddings.PreprocessTextSpec(text, stopWords);
    Embeddings.PreprocessText(text, stopWords)
  }

  /** `embed_text(tokens)` of the older file: the tokens found in the table,
      which are exactly the tokens in the table, kept in token order, each
      replaced by its own vector. Before loading, `word in None` raises
      `TypeError`. */
  function EmbedText(table: Option<Embeddings.Table>, tokens: seq<string>): (r: Result<seq<Vector>>)
    ensures r.Raise? <==> table.None? && |tokens| > 0
    ensures r.Raise? ==> r.error == TypeError
    ensures r.Ok? && table.Some? ==> var cov := Embeddings.Covered(table.value, tokens);
      Embeddings.IsSubsequence(cov, tokens) &&
      (forall t :: t in cov <==> t in tokens && t in table.value) &&
      |r.value| == |cov| && forall k :: 0 <= k < |cov| ==> r.value[k] == table.value[cov[k]]
  {
    var e := Embeddings.EmbedText(table, tokens);
    if e.Ok? && table.Some? then
      Embeddings.CoveredSpec(table.value, tokens);
      e
    else e
  }

  /** `calculate_coverage(tokens)` of the older file: 0.0 for no tokens, and
      otherwise the number of vectors `embed_text` returns over the number of
      tokens, a share in `[0, 1]`. */
  function CalculateCoverage(table: Option<Embeddings.Table>, tokens: seq<string>): (r: Result<real>)
    ensures r.Raise? <==> table.None? && |tokens| > 0
    ensures r.Raise? ==> r.error == TypeError
    ensures |tokens| == 0 ==> r == Ok(0.0)
    ensures r.Ok? ==> 0.0 <= r.value <= 1.0
    ensures r.Ok? && |tokens| > 0 ==>
      EmbedText(table, tokens).Ok? && r.value == (|EmbedText(table, tokens).value| as real) / (|tokens| as real)
  {
    if table.Some? && |tokens| > 0 then
      Embeddings.CoverageCountsEmbeddedTokens(table.value, tokens);
      Embeddings.CalculateCoverage(table, tokens)
    else Embeddings.CalculateCoverage(table, tokens)
  }

  /** `WordEmbeddings` of the older file: a path and the table read from it,
      `None` until loaded. */
  class WordEmbeddings {
    const embeddingPath: string
    var embeddings: Option<Embeddings.Table>

    constructor(path: string)
      ensures embeddingPath == path && embeddings == None
    {
      embeddingPath := path;
      embeddings := None;
    }

    /** `load_embeddings()`: the path is read in binary word2vec format, whatever
        its suffix; the reader is a parameter. */
    method LoadEmbeddings(readWord2Vec: string -> Embeddings.Table)
      modifies this`embeddings
      ensures embeddings == Some(readWord2Vec(embeddingPath))
    {
      embeddings := Some(readWord2Vec(embeddingPath));
    }
  }
}
