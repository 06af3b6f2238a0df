/** Text preprocessing and embedding lookup of `scripts/word_embeddings.py`: the
    text is lowercased, every character other than `a`-`z` and whitespace is
    deleted, the rest is split on whitespace, and stop words and one-letter
    tokens are dropped; the tokens found in a word-vector table are then turned
    into vectors. The stop-word list and the loaded table come from foreign
    libraries and are parameters. */
module Embeddings {
  import opened Common
  import opened OrderedDicts

  /** A loaded `KeyedVectors` table, from words to vectors. */
  type Table = map<string, Vector>

  // ---------------------------------------------------------------- characters

  /** Python's `str.isspace`, which is what both `\s` in a `str` pattern and
      `str.split()` treat as whitespace. */
  predicate IsWhitespace(c: char)
  {
    var k := c as int;
    k == 0x20 || 0x09 <= k <= 0x0D || 0x1C <= k <= 0x1F || k == 0x85 || k == 0xA0 || k == 0x1680 ||
    0x2000 <= k <= 0x200A || k == 0x2028 || k == 0x2029 || k == 0x202F || k == 0x205F || k == 0x3000
  }

  /** The class `[a-z]`. */
  predicate IsLowerLetter(c: char)
  {
    'a' <= c <= 'z'
  }

  /** `str.lower` on one character, for ASCII letters. */
  function LowerChar(c: char): (d: char)
    ensures 'A' <= c <= 'Z' ==> IsLowerLetter(d) && d as int == c as int + 32
    ensures !('A' <= c <= 'Z') ==> d == c
  {
    if 'A' <= c <= 'Z' then (c as int + 32) as char else c
  }

  /** `text.lower()`. */
  function Lower(s: string): (r: string)
    ensures |r| == |s| && forall i :: 0 <= i < |s| ==> r[i] == LowerChar(s[i])
  {
    seq(|s|, i requires 0 <= i < |s| => LowerChar(s[i]))
  }

  /** `re.sub(r"[^a-z\s]", "", text)`: keeps the letters `a`-`z` and whitespace, in order. */
  function Clean(s: string): (r: string)
    ensures |r| <= |s|
    ensures forall i :: 0 <= i < |r| ==> IsLowerLetter(r[i]) || IsWhitespace(r[i])
    ensures forall c :: c in r <==> c in s && (IsLowerLetter(c) || IsWhitespace(c))
  {
    if |s| == 0 then []
    else (if IsLowerLetter(s[0]) || IsWhitespace(s[0]) then [s[0]] else []) + Clean(s[1..])
  }

  /** The cleaning keeps every letter `a`-`z` and every whitespace character of
      the input, each as often as it occurs and in order, and nothing else. */
  lemma {:induction false} CleanSpec(s: string)
    ensures forall c :: Occurrences(Clean(s), c) == if IsLowerLetter(c) || IsWhitespace(c) then Occurrences(s, c) else 0
    ensures IsSubsequence(Clean(s), s)
  {
    if |s| > 0 {
      CleanSpec(s[1..]);
      var rest := Clean(s[1..]);
      var head := if IsLowerLetter(s[0]) || IsWhitespace(s[0]) then [s[0]] else [];
      forall c
        ensures Occurrences(Clean(s), c) == if IsLowerLetter(c) || IsWhitespace(c) then Occurrences(s, c) else 0
      {
        OccurrencesAppend(head, rest, c);
        OccurrencesAppend([s[0]], s[1..], c);
        assert s == [s[0]] + s[1..];
        OccurrencesSnoc([], s[0], c);
        assert [] + [s[0]] == [s[0]];
        if head != [] {
          assert [] + head == head;
        }
      }
      if head != [] {
        assert ([s[0]] + rest)[1..] == rest;
        assert IsSubsequence([s[0]] + rest, s);
      } else {
        assert [] + rest == rest;
        assert IsSubsequence(rest, s);
      }
    }
  }

  // ---------------------------------------------------------------- splitting

  /** No character of `w` is whitespace. */
  predicate NoWhitespace(w: string)
  {
    forall i :: 0 <= i < |w| ==> !IsWhitespace(w[i])
  }

  /** `str.split()` on the rest `s` of a text, when the characters of the word in
      progress so far are `word`. */
  function SplitFrom(s: string, word: string): seq<string>
    decreases |s|
  {
    if |s| == 0 then (if word == [] then [] else [word])
    else if IsWhitespace(s[0]) then (if word == [] then [] else [word]) + SplitFrom(s[1..], [])
    else SplitFrom(s[1..], word + [s[0]])
  }

  /** `text.split()`: the maximal runs of non-whitespace characters. */
  function SplitWords(s: string): seq<string>
  {
    SplitFrom(s, [])
  }

  /** The words one after the other, with nothing between them. */
  function Concat(ws: seq<string>): string
  {
    if |ws| == 0 then [] else ws[0] + Concat(ws[1..])
  }

  /** The non-whitespace characters of `s`, in order. */
  function NonWhitespace(s: string): string
  {
    if |s| == 0 then [] else (if IsWhitespace(s[0]) then [] else [s[0]]) + NonWhitespace(s[1..])
  }

  /** `" ".join(ws)`. */
  function Join(ws: seq<string>): string
  {
    if |ws| == 0 then [] else if |ws| == 1 then ws[0] else ws[0] + [' '] + Join(ws[1..])
  }

  lemma {:induction false} ConcatAppend(a: seq<string>, b: seq<string>)
    ensures Concat(a + b) == Concat(a) + Concat(b)
  {
    if |a| > 0 {
      assert (a + b)[0] == a[0];
      assert (a + b)[1..] == a[1..] + b;
      ConcatAppend(a[1..], b);
    } else {
      assert a + b == b;
    }
  }

  /** The words split from `s` are non-empty and free of whitespace. */
  lemma {:induction false} SplitFromWords(s: string, word: string)
    requires NoWhitespace(word)
    ensures forall t :: t in SplitFrom(s, word) ==> |t| > 0 && NoWhitespace(t)
    decreases |s|
  {
    if |s| > 0 {
      if IsWhitespace(s[0]) {
        SplitFromWords(s[1..], []);
      } else {
        SplitFromWords(s[1..], word + [s[0]]);
      }
    }
  }

  /** The characters of the words split from `s` come from `s` or from the word in progress. */
  lemma {:induction false} SplitFromChars(s: string, word: string)
    ensures forall t, c :: t in SplitFrom(s, word) && c in t ==> c in word || c in s
    decreases |s|
  {
    if |s| > 0 {
      assert forall c :: c in s[1..] ==> c in s;
      if IsWhitespace(s[0]) {
        SplitFromChars(s[1..], []);
      } else {
        SplitFromChars(s[1..], word + [s[0]]);
      }
    }
  }

  /** Joined together, the words split from `s` give back the word in progress
      followed by exactly the non-whitespace characters of `s`. */
  lemma {:induction false} SplitFromConcat(s: string, word: string)
    ensures Concat(SplitFrom(s, word)) == word + NonWhitespace(s)
    decreases |s|
  {
    if |s| == 0 {
      assert Concat([word]) == word + Concat([]);
    } else if IsWhitespace(s[0]) {
      SplitFromConcat(s[1..], []);
      var head: seq<string> := if word == [] then [] else [word];
      ConcatAppend(head, SplitFrom(s[1..], []));
      assert Concat([word]) == word + Concat([]);
    } else {
      SplitFromConcat(s[1..], word + [s[0]]);
      assert word + [s[0]] + NonWhitespace(s[1..]) == word + NonWhitespace(s);
    }
  }

  /** The text read left to right with every run of whitespace replaced by one
      space and the runs at both ends dropped. `started` says whether a
      non-whitespace character has been copied yet, `pending` whether whitespace
      has been seen since then. */
  function SqueezeFrom(s: string, started: bool, pending: bool): string
    decreases |s|
  {
    if |s| == 0 then []
    else if IsWhitespace(s[0]) then SqueezeFrom(s[1..], started, started)
    else (if pending then [' '] else []) + [s[0]] + SqueezeFrom(s[1..], true, false)
  }

  /** `s` with its whitespace runs squeezed to single spaces and trimmed at both ends. */
  function Squeeze(s: string): string
  {
    SqueezeFrom(s, false, false)
  }

  /** `" ".join` of one word followed by more words. */
  lemma JoinCons(w: string, rest: seq<string>)
    ensures Join([w] + rest) == if rest == [] then w else w + [' '] + Join(rest)
  {
    if rest != [] {
      assert ([w] + rest)[1..] == rest;
    }
  }

  /** With a word in progress, joining the words split from `s` gives that word
      followed by the squeezed rest of `s`. */
  lemma {:induction false} SplitFromJoinWord(s: string, word: string)
    requires word != []
    ensures Join(SplitFrom(s, word)) == word + SqueezeFrom(s, true, false)
    decreases |s|, 1
  {
    if |s| == 0 {
    } else if IsWhitespace(s[0]) {
      JoinCons(word, SplitFrom(s[1..], []));
      SplitFromJoinPending(s[1..]);
    } else {
      SplitFromJoinWord(s[1..], word + [s[0]]);
      assert word + [s[0]] + SqueezeFrom(s[1..], true, false) == word + SqueezeFrom(s, true, false);
    }
  }

  /** After a word and some whitespace, the squeezed rest of `s` is a space and the
      joined words of `s` when there are any, and nothing otherwise. */
  lemma {:induction false} SplitFromJoinPending(s: string)
    ensures SqueezeFrom(s, true, true) ==
      if SplitFrom(s, []) == [] then [] else [' '] + Join(SplitFrom(s, []))
    decreases |s|, 0
  {
    if |s| > 0 {
      if IsWhitespace(s[0]) {
        assert SplitFrom(s, []) == SplitFrom(s[1..], []);
        assert SqueezeFrom(s, true, true) == SqueezeFrom(s[1..], true, true);
        SplitFromJoinPending(s[1..]);
      } else {
        assert [] + [s[0]] == [s[0]];
        SplitFromJoinWord(s[1..], [s[0]]);
        assert Join(SplitFrom(s, [])) != [];
      }
    }
  }

  /** Before any word, joining the words split from `s` gives the squeezed `s`. */
  lemma {:induction false} SplitFromJoinStart(s: string)
    ensures Join(SplitFrom(s, [])) == SqueezeFrom(s, false, false)
    decreases |s|
  {
    if |s| > 0 {
      if IsWhitespace(s[0]) {
        assert SplitFrom(s, []) == SplitFrom(s[1..], []);
        assert SqueezeFrom(s, false, false) == SqueezeFrom(s[1..], false, false);
        SplitFromJoinStart(s[1..]);
      } else {
        assert [] + [s[0]] == [s[0]];
        SplitFromJoinWord(s[1..], [s[0]]);
      }
    }
  }

  /** What `str.split()` promises: the words are non-empty, free of whitespace and
      made of the text's characters; run together they are the text's
      non-whitespace characters; and joined by single spaces they are the text
      with each whitespace run squeezed to one space and trimmed, so the words
      break exactly at the whitespace runs. */
  lemma SplitWordsSpec(s: string)
    ensures forall t :: t in SplitWords(s) ==> |t| > 0 && NoWhitespace(t)
    ensures forall t, c :: t in SplitWords(s) && c in t ==> c in s
    ensures Concat(SplitWords(s)) == NonWhitespace(s)
    ensures Join(SplitWords(s)) == Squeeze(s)
  {
    SplitFromWords(s, []);
    SplitFromChars(s, []);
    SplitFromConcat(s, []);
    SplitFromJoinStart(s);
  }

  /** A word without whitespace is absorbed into the word in progress. */
  lemma {:induction false} SplitFromWord(w: string, rest: string, word: string)
    requires NoWhitespace(w)
    ensures SplitFrom(w + rest, word) == SplitFrom(rest, word + w)
    decreases |w|
  {
    if |w| > 0 {
      assert (w + rest)[0] == w[0];
      assert (w + rest)[1..] == w[1..] + rest;
      SplitFromWord(w[1..], rest, word + [w[0]]);
      assert word + [w[0]] + w[1..] == word + w;
    } else {
      assert w + rest == rest;
      assert word + w == word;
    }
  }

  /** `" ".join(ws).split() == ws` for non-empty words without whitespace. */
  lemma {:induction false} SplitJoin(ws: seq<string>)
    requires forall i :: 0 <= i < |ws| ==> |ws[i]| > 0 && NoWhitespace(ws[i])
    ensures SplitWords(Join(ws)) == ws
  {
    if |ws| == 1 {
      SplitFromWord(ws[0], [], []);
      assert ws[0] + [] == ws[0];
      assert [] + ws[0] == ws[0];
    } else if |ws| > 1 {
      var w, rest := ws[0], Join(ws[1..]);
      assert Join(ws) == w + ([' '] + rest);
      SplitFromWord(w, [' '] + rest, []);
      assert [] + w == w;
      assert ([' '] + rest)[1..] == rest;
      assert SplitFrom([' '] + rest, w) == [w] + SplitFrom(rest, []);
      SplitJoin(ws[1..]);
    }
  }

  /** The split is the only list of non-empty words without whitespace that,
      joined by single spaces, gives the squeezed text. */
  lemma SplitWordsUnique(s: string, ws: seq<string>)
    requires forall i :: 0 <= i < |ws| ==> |ws[i]| > 0 && NoWhitespace(ws[i])
    requires Join(ws) == Squeeze(s)
    ensures ws == SplitWords(s)
  {
    SplitWordsSpec(s);
    SplitJoin(ws);
    SplitJoin(SplitWords(s));
  }

  // ---------------------------------------------------------------- filtering

  /** `a` is `b` with some elements left out, the rest in order. */
  predicate IsSubsequence<T(==)>(a: seq<T>, b: seq<T>)
  {
    if |a| == 0 then true
    else if |b| == 0 then false
    else if a[0] == b[0] then IsSubsequence(a[1..], b[1..])
    else IsSubsequence(a, b[1..])
  }

  /** The test of the comprehension at scripts/word_embeddings.py:45. */
  predicate Kept(w: string, stopWords: set<string>)
  {
    w !in stopWords && |w| > 1
  }

  /** `[word for word in tokens if word not in self.stop_words and len(word) > 1]`. */
  function FilterTokens(tokens: seq<string>, stopWords: set<string>): seq<string>
  {
    if |tokens| == 0 then []
    else (if Kept(tokens[0], stopWords) then [tokens[0]] else []) + FilterTokens(tokens[1..], stopWords)
  }

  /** The filter keeps exactly the tokens that pass its test, each as often as
      it occurs, in their order. */
  lemma {:induction false} FilterTokensSpec(tokens: seq<string>, stopWords: set<string>)
    ensures forall t :: t in FilterTokens(tokens, stopWords) <==> t in tokens && Kept(t, stopWords)
    ensures forall t ::
      Occurrences(FilterTokens(tokens, stopWords), t) == (if Kept(t, stopWords) then Occurrences(tokens, t) else 0)
    ensures IsSubsequence(FilterTokens(tokens, stopWords), tokens)
  {
    if |tokens| > 0 {
      FilterTokensSpec(tokens[1..], stopWords);
      var rest := FilterTokens(tokens[1..], stopWords);
      var head := if Kept(tokens[0], stopWords) then [tokens[0]] else [];
      forall t
        ensures Occurrences(FilterTokens(tokens, stopWords), t) == if Kept(t, stopWords) then Occurrences(tokens, t) else 0
      {
        OccurrencesAppend(head, rest, t);
        OccurrencesAppend([tokens[0]], tokens[1..], t);
        assert tokens == [tokens[0]] + tokens[1..];
        OccurrencesSnoc([], tokens[0], t);
        assert [] + [tokens[0]] == [tokens[0]];
        if head != [] {
          assert [] + head == head;
        }
      }
      if Kept(tokens[0], stopWords) {
        assert ([tokens[0]] + rest)[1..] == rest;
        assert IsSubsequence([tokens[0]] + rest, tokens);
      } else {
        assert |rest| > 0 ==> rest[0] in rest;
        assert [] + rest == rest;
        assert IsSubsequence(rest, tokens);
      }
      assert forall t :: t in tokens <==> t == tokens[0] || t in tokens[1..];
    }
  }

  /** `TextPreprocessor(language).preprocess_text(text)`, with the stop words of
      the language as a parameter. */
  function PreprocessText(text: string, stopWords: set<string>): seq<string>
  {
    FilterTokens(SplitWords(Clean(Lower(text))), stopWords)
  }

  /** Every output token is made of the letters `a`-`z` only, is longer than one
      letter and is no stop word; the output keeps exactly such tokens of the
      whitespace split of the cleaned text, each as often as it occurs there, in
      order. */
  lemma PreprocessTextSpec(text: string, stopWords: set<string>)
    ensures forall t :: t in PreprocessText(text, stopWords) ==>
      |t| > 1 && t !in stopWords && forall i :: 0 <= i < |t| ==> IsLowerLetter(t[i])
    ensures var split := SplitWords(Clean(Lower(text)));
      IsSubsequence(PreprocessText(text, stopWords), split) &&
      (forall t :: t in PreprocessText(text, stopWords) <==> t in split && Kept(t, stopWords)) &&
      forall t :: Occurrences(PreprocessText(text, stopWords), t) == if Kept(t, stopWords) then Occurrences(split, t) else 0
  {
    var cleaned := Clean(Lower(text));
    var split := SplitWords(cleaned);
    SplitWordsSpec(cleaned);
    FilterTokensSpec(split, stopWords);
    forall t, i | t in PreprocessText(text, stopWords) && 0 <= i < |t|
      ensures IsLowerLetter(t[i])
    {
      assert t[i] in t;
      assert t[i] in cleaned;
    }
  }

  // ---------------------------------------------------------------- embedding

  /** The tokens found in the table, in order (`if word in self.embeddings`). */
  function Covered(table: Table, tokens: seq<string>): seq<string>
  {
    if |tokens| == 0 then []
    else (if tokens[0] in table then [tokens[0]] else []) + Covered(table, tokens[1..])
  }

  /** `sum(token in self.embeddings for token in tokens)`. */
  function CountCovered(table: Table, tokens: seq<string>): nat
  {
    if |tokens| == 0 then 0 else (if tokens[0] in table then 1 else 0) + CountCovered(table, tokens[1..])
  }

  /** The covered tokens are the tokens in the table, in order, and there are
      `CountCovered` of them. */
  lemma {:induction false} CoveredSpec(table: Table, tokens: seq<string>)
    ensures forall t :: t in Covered(table, tokens) <==> t in tokens && t in table
    ensures IsSubsequence(Covered(table, tokens), tokens)
    ensures |Covered(table, tokens)| == CountCovered(table, tokens) <= |tokens|
  {
    if |tokens| > 0 {
      CoveredSpec(table, tokens[1..]);
      var rest := Covered(table, tokens[1..]);
      if tokens[0] in table {
        assert ([tokens[0]] + rest)[1..] == rest;
        assert IsSubsequence([tokens[0]] + rest, tokens);
      } else {
        assert |rest| > 0 ==> rest[0] in rest;
        assert [] + rest == rest;
        assert IsSubsequence(rest, tokens);
      }
      assert forall t :: t in tokens <==> t == tokens[0] || t in tokens[1..];
    }
  }

  /** `embed_text(tokens)`: the vectors of the covered tokens, in token order. An
      embedder that was never loaded holds `None`, and `word in None` raises
      `TypeError` as soon as there is a token to test. */
  function EmbedText(table: Option<Table>, tokens: seq<string>): (r: Result<seq<Vector>>)
    ensures r.Raise? <==> table.None? && |tokens| > 0
    ensures r.Raise? ==> r.error == TypeError
    ensures r.Ok? && table.Some? ==> var cov := Covered(table.value, tokens);
      |r.value| == |cov| && forall i :: 0 <= i < |cov| ==> cov[i] in table.value && r.value[i] == table.value[cov[i]]
    ensures r.Ok? && table.None? ==> r.value == []
  {
    if |tokens| == 0 then Ok([])
    else if table.None? then Raise(TypeError)
    else
      var cov := Covered(table.value, tokens);
      CoveredSpec(table.value, tokens);
      Ok(seq(|cov|, i requires 0 <= i < |cov| => table.value[cov[i]]))
  }

  /** `calculate_coverage(tokens)`: the share of tokens found in the table, 0.0 for
      no tokens. */
  function CalculateCoverage(table: Option<Table>, tokens: seq<string>): (r: Result<real>)
    ensures r.Raise? <==> table.None? && |tokens| > 0
    ensures r.Raise? ==> r.error == TypeError
    ensures r.Ok? ==> 0.0 <= r.value <= 1.0
    ensures |tokens| == 0 ==> r == Ok(0.0)
  {
    if |tokens| == 0 then Ok(0.0)
    else if table.None? then Raise(TypeError)
    else
      var covered := CountCovered(table.value, tokens);
      CoveredSpec(table.value, tokens);
      Ok((covered as real) / (|tokens| as real))
  }

  /** The coverage is the number of vectors `embed_text` returns divided by the
      number of tokens: `len(embed_text(tokens)) == n_covered`. */
  lemma CoverageCountsEmbeddedTokens(table: Table, tokens: seq<string>)
    requires |tokens| > 0
    ensures EmbedText(Some(table), tokens).Ok? && CalculateCoverage(Some(table), tokens).Ok?
    ensures CalculateCoverage(Some(table), tokens).value ==
      (|EmbedText(Some(table), tokens).value| as real) / (|tokens| as real)
  {
    CoveredSpec(table, tokens);
  }

  /** All vectors of a `KeyedVectors` table have the same dimension. */
  ghost predicate Uniform(table: Table)
  {
    forall a, b :: a in table && b in table ==> |table[a]| == |table[b]|
  }

  /** `np.asarray(embed_text(tokens))` is a two-dimensional array: the vectors of
      one table all have the same length. */
  lemma EmbeddedRowsRectangular(table: Table, tokens: seq<string>)
    requires Uniform(table)
    ensures EmbedText(Some(table), tokens).Ok? && Rectangular(EmbedText(Some(table), tokens).value)
  {
    var cov := Covered(table, tokens);
    var rows := EmbedText(Some(table), tokens).value;
    forall i | 0 <= i < |rows|
      ensures |rows[i]| == |rows[0]|
    {
      assert cov[i] in table && cov[0] in table;
    }
  }

  /** `s.endswith(suffix)`. */
  predicate EndsWith(s: string, suffix: string)
  {
    |suffix| <= |s| && s[|s| - |suffix|..] == suffix
  }

  /** `WordEmbeddings`: a path and the table loaded from it, `None` until loaded. */
  class WordEmbeddings {
    var embeddingPath: string
    var embeddings: Option<Table>

    constructor(path: string)
      ensures embeddingPath == path && embeddings == None
    {
      embeddingPath := path;
      embeddings := None;
    }

    /** `load_embeddings()`: a `.bin` path is read in binary word2vec format, a
        `.gensim` path with `KeyedVectors.load`, and any other path raises
        `ValueError` and leaves the embeddings as they were. The two readers are
        parameters. */
    method LoadEmbeddings(readWord2Vec: string -> Table, readKeyedVectors: string -> Table) returns (err: Option<PyError>)
      modifies this
      ensures embeddingPath == old(embeddingPath)
      ensures EndsWith(embeddingPath, ".bin") ==> err == None && embeddings == Some(readWord2Vec(embeddingPath))
      ensures !EndsWith(embeddingPath, ".bin") && EndsWith(embeddingPath, ".gensim") ==>
        err == None && embeddings == Some(readKeyedVectors(embeddingPath))
      ensures !EndsWith(embeddingPath, ".bin") && !EndsWith(embeddingPath, ".gensim") ==>
        err == Some(ValueError) && embeddings == old(embeddings)
    {
      if EndsWith(embeddingPath, ".bin") {
        embeddings := Some(readWord2Vec(embeddingPath));
        err := None;
      } else if EndsWith(embeddingPath, ".gensim") {
        embeddings := Some(readKeyedVectors(embeddingPath));
        err := None;
      } else {
        err := Some(ValueError);
      }
    }
  }

  /** A path with neither suffix is refused: `"vectors.txt"` ends in neither. */
  lemma UnknownSuffixIsRefused()
    ensures !EndsWith("vectors.txt", ".bin") && !EndsWith("vectors.txt", ".gensim")
    ensures EndsWith("model.gensim", ".gensim") && !EndsWith("model.gensim", ".bin")
  {
    assert "vectors.txt"[7..] != ".bin";
    assert "vectors.txt"[5..] != ".gensim";
    assert "model.gensim"[5..] == ".gensim";
    assert "model.gensim"[8..] != ".bin";
  }
}
