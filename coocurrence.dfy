/** `CoocurrenceMatrix` of `scripts/coocurrence_matrix.py`: a vocabulary built in
    order of first appearance in an `OrderedDict`, and a square matrix of counts
    of token pairs that share a sliding window. NumPy's `int32` cells are
    modelled as unbounded integers. */
module Coocurrence {
  import opened Common
  import opened OrderedDicts

  /** A pair of tokens, as `combinations(window, 2)` yields it. */
  type Pair = (string, string)

  // ---------------------------------------------------------------- vocabulary

  /** The vocabulary the loop of `build_vocabulary` builds from an empty
      `OrderedDict`: a token not yet present gets the index `len(vocabulary)`. */
  function VocabularyOf(s: seq<string>): Dict<string>
  {
    if |s| == 0 then Empty()
    else
      var v := VocabularyOf(s[..|s| - 1]);
      var t := s[|s| - 1];
      if t in v.values then v else v.Set(t, |v.keys|)
  }

  /** The vocabulary lists the distinct tokens in order of first appearance and
      maps the token in position `i` to `i`: a bijection onto `0..n-1`. */
  lemma {:induction false} VocabularySpec(s: seq<string>)
    ensures VocabularyOf(s).Valid()
    ensures VocabularyOf(s).keys == Distinct(s)
    ensures forall t :: t in VocabularyOf(s).values <==> t in s
    ensures forall i :: 0 <= i < |VocabularyOf(s).keys| ==>
      VocabularyOf(s).keys[i] in VocabularyOf(s).values && VocabularyOf(s).values[VocabularyOf(s).keys[i]] == i
  {
    if |s| > 0 {
      var p, t := s[..|s| - 1], s[|s| - 1];
      VocabularySpec(p);
      DistinctSpec(p);
      MemberSnoc(s);
      if t !in p {
        VocabularyGrows(VocabularyOf(p), t);
      }
    }
  }

  /** A new token gets the next index and goes last. */
  lemma VocabularyGrows(v: Dict<string>, t: string)
    requires v.Valid() && t !in v.values
    requires forall i :: 0 <= i < |v.keys| ==> v.keys[i] in v.values && v.values[v.keys[i]] == i
    ensures v.Set(t, |v.keys|).Valid()
    ensures forall i :: 0 <= i < |v.Set(t, |v.keys|).keys| ==>
      v.Set(t, |v.keys|).keys[i] in v.Set(t, |v.keys|).values && v.Set(t, |v.keys|).values[v.Set(t, |v.keys|).keys[i]] == i
  {
    var w := v.Set(t, |v.keys|);
    assert w.keys == v.keys + [t];
    assert NoDuplicates(w.keys);
    forall i | 0 <= i < |w.keys|
      ensures w.keys[i] in w.values && w.values[w.keys[i]] == i
    {
      if i < |v.keys| {
        assert w.keys[i] == v.keys[i] != t;
      }
    }
  }

  /** Each token's index is its position among the distinct tokens, and
      `vocabulary_list[vocabulary[t]] == t`. */
  lemma VocabularyIndex(s: seq<string>, t: string)
    requires t in s
    ensures t in VocabularyOf(s).values && t in Distinct(s)
    ensures VocabularyOf(s).values[t] == IndexOf(Distinct(s), t)
    ensures 0 <= VocabularyOf(s).values[t] < |VocabularyOf(s).keys| && VocabularyOf(s).keys[VocabularyOf(s).values[t]] == t
  {
    VocabularySpec(s);
    DistinctSpec(s);
    var v := VocabularyOf(s);
    var i := IndexOf(v.keys, t);
    assert v.values[v.keys[i]] == i;
  }

  /** Every token has an index, and every index is a position of the vocabulary. */
  lemma VocabularyInRange(s: seq<string>)
    ensures forall t :: t in s ==> t in VocabularyOf(s).values
    ensures forall t :: t in VocabularyOf(s).values ==> 0 <= VocabularyOf(s).values[t] < |VocabularyOf(s).keys|
  {
    VocabularySpec(s);
    forall t | t in VocabularyOf(s).values
      ensures 0 <= VocabularyOf(s).values[t] < |VocabularyOf(s).keys|
    {
      VocabularyIndex(s, t);
    }
  }

  /** Tokens get smaller indices exactly when they appear first earlier. */
  lemma VocabularyOrder(s: seq<string>, t: string, u: string)
    requires t in s && u in s
    ensures t in VocabularyOf(s).values && u in VocabularyOf(s).values
    ensures VocabularyOf(s).values[t] < VocabularyOf(s).values[u] <==> IndexOf(s, t) < IndexOf(s, u)
  {
    VocabularyIndex(s, t);
    VocabularyIndex(s, u);
    DistinctOrder(s, t, u);
  }

  // ---------------------------------------------------------------- windows

  /** `tokens[i : i + w]` with Python's slicing: a negative end counts from the
      end of the list, and ends are clamped to the list. */
  function Window(tokens: seq<string>, i: nat, w: int): (r: seq<string>)
    ensures forall k :: 0 <= k < |r| ==> r[k] in tokens
  {
    var n := |tokens|;
    var stop := i + w;
    var hi := if stop < 0 then (if stop + n < 0 then 0 else stop + n) else (if stop > n then n else stop);
    var lo := if i > n then n else i;
    if lo < hi then
      assert forall k :: 0 <= k < hi - lo ==> tokens[lo..hi][k] == tokens[lo + k];
      tokens[lo..hi]
    else []
  }

  /** `combinations(s, 2)`: every pair of positions `p < q`, in lexicographic order. */
  function Combinations(s: seq<string>): (r: seq<Pair>)
    ensures forall k :: 0 <= k < |r| ==> r[k].0 in s && r[k].1 in s
  {
    if |s| == 0 then []
    else
      var first := seq(|s| - 1, q requires 0 <= q < |s| - 1 => (s[0], s[q + 1]));
      var rest := Combinations(s[1..]);
      assert forall k :: 0 <= k < |rest| ==> rest[k].0 in s && rest[k].1 in s;
      first + rest
  }

  /** The number of windows, `len(range(len(tokens) - window_size + 1))`. */
  function NumWindows(tokens: seq<string>, w: int): nat
  {
    if |tokens| - w + 1 > 0 then |tokens| - w + 1 else 0
  }

  /** The pairs the first `k` windows contribute, in loop order. */
  function WindowPairs(tokens: seq<string>, w: int, k: nat): (r: seq<Pair>)
    ensures forall j :: 0 <= j < |r| ==> r[j].0 in tokens && r[j].1 in tokens
  {
    if k == 0 then []
    else WindowPairs(tokens, w, k - 1) + Combinations(Window(tokens, k - 1, w))
  }

  /** Every pair the matrix loop visits, in order. */
  function AllPairs(tokens: seq<string>, w: int): (r: seq<Pair>)
    ensures forall j :: 0 <= j < |r| ==> r[j].0 in tokens && r[j].1 in tokens
  {
    WindowPairs(tokens, w, NumWindows(tokens, w))
  }

  /** A window that fits holds exactly the `w` tokens from position `i` on. */
  lemma WindowFits(tokens: seq<string>, i: nat, w: int)
    requires 0 <= w && i + w <= |tokens|
    ensures Window(tokens, i, w) == tokens[i..i + w]
  {
  }

  /** `combinations(s, 2)` has `len(s) * (len(s) - 1) / 2` pairs. */
  lemma {:induction false} CombinationsLength(s: seq<string>)
    ensures 2 * |Combinations(s)| == |s| * (|s| - 1)
  {
    if |s| > 0 {
      CombinationsLength(s[1..]);
    }
  }

  /** The first `k` windows of a non-negative size `w` give `k * C(w, 2)` pairs. */
  lemma {:induction false} WindowPairsLength(tokens: seq<string>, w: int, k: nat)
    requires 0 <= w && k <= NumWindows(tokens, w)
    ensures 2 * |WindowPairs(tokens, w, k)| == k * (w * (w - 1))
  {
    if k > 0 {
      WindowPairsLength(tokens, w, k - 1);
      WindowCombinations(tokens, w, k - 1);
      AddOneMore(k - 1, w * (w - 1));
    }
  }

  /** A window that fits holds `C(w, 2)` pairs. */
  lemma WindowCombinations(tokens: seq<string>, w: int, i: nat)
    requires 0 <= w && i + w <= |tokens|
    ensures 2 * |Combinations(Window(tokens, i, w))| == w * (w - 1)
  {
    WindowFits(tokens, i, w);
    CombinationsLength(Window(tokens, i, w));
  }

  lemma AddOneMore(k: int, c: int)
    ensures (k + 1) * c == k * c + c
  {
  }

  /** For a non-negative window size the loop visits `C(w, 2) * max(0, len - w + 1)` pairs. */
  lemma AllPairsLength(tokens: seq<string>, w: int)
    requires 0 <= w
    ensures 2 * |AllPairs(tokens, w)| == (w * (w - 1)) * NumWindows(tokens, w)
  {
    WindowPairsLength(tokens, w, NumWindows(tokens, w));
  }

  /** A window of size 0 or 1 holds no pair of tokens, so nothing is counted. */
  lemma {:induction false} SmallWindowsCountNothing(tokens: seq<string>, w: int)
    requires 0 <= w < 2
    ensures AllPairs(tokens, w) == []
  {
    AllPairsLength(tokens, w);
  }

  /** A negative window size wraps around through Python's slicing: for
      `["a", "b", "c"]` and `window_size = -1` the first window is
      `tokens[0:-1] == ["a", "b"]`, so the pair `("a", "b")` is counted. */
  lemma NegativeWindowWraps()
    ensures Window(["a", "b", "c"], 0, -1) == ["a", "b"]
    ensures NumWindows(["a", "b", "c"], -1) == 5
    ensures AllPairs(["a", "b", "c"], -1)[0] == ("a", "b")
  {
    var tokens := ["a", "b", "c"];
    assert Window(tokens, 0, -1) == tokens[0..2];
    assert Combinations(["a", "b"])[0] == ("a", "b");
    assert WindowPairs(tokens, -1, 1) == Combinations(["a", "b"]);
    WindowPairsFirst(tokens, -1, 5);
  }

  /** Later windows only add pairs after the first window's. */
  lemma {:induction false} WindowPairsFirst(tokens: seq<string>, w: int, k: nat)
    requires 1 <= k && |WindowPairs(tokens, w, 1)| > 0
    ensures |WindowPairs(tokens, w, k)| > 0 && WindowPairs(tokens, w, k)[0] == WindowPairs(tokens, w, 1)[0]
  {
    if k > 1 {
      WindowPairsFirst(tokens, w, k - 1);
    }
  }

  // ---------------------------------------------------------------- counts

  /** The pairs as vocabulary indices. */
  function Indexed(v: Dict<string>, ps: seq<Pair>): (r: seq<(int, int)>)
    requires forall k :: 0 <= k < |ps| ==> ps[k].0 in v.values && ps[k].1 in v.values
    ensures |r| == |ps|
  {
    seq(|ps|, k requires 0 <= k < |ps| => (v.values[ps[k].0], v.values[ps[k].1]))
  }

  /** The count in cell `(a, b)` after `matrix[i1, i2] += 1; matrix[i2, i1] += 1`
      for every index pair `(i1, i2)` of `idx`: a pair adds one to each of its
      two cells, and two to the diagonal cell of a repeated word. */
  function Entry(idx: seq<(int, int)>, a: int, b: int): nat
  {
    Occurrences(idx, (a, b)) + Occurrences(idx, (b, a))
  }

  /** The index pairs of the first `k` windows, in loop order. */
  function WindowCells(tokens: seq<string>, w: int, k: nat): seq<(int, int)>
  {
    VocabularyInRange(tokens);
    Indexed(VocabularyOf(tokens), WindowPairs(tokens, w, k))
  }

  /** The index pairs `build_matrix()` counts, in loop order. */
  function MatrixPairs(tokens: seq<string>, w: int): seq<(int, int)>
  {
    WindowCells(tokens, w, NumWindows(tokens, w))
  }

  /** The count in cell `(a, b)` of `build_matrix()` on `tokens` and window size `w`. */
  function MatrixEntry(tokens: seq<string>, w: int, a: int, b: int): nat
  {
    Entry(MatrixPairs(tokens, w), a, b)
  }

  /** Counting two runs of index pairs adds their matrices. */
  lemma EntryAppend(p: seq<(int, int)>, q: seq<(int, int)>)
    ensures forall a, b :: Entry(p + q, a, b) == Entry(p, a, b) + Entry(q, a, b)
  {
    forall a, b
      ensures Entry(p + q, a, b) == Entry(p, a, b) + Entry(q, a, b)
    {
      OccurrencesAppend(p, q, (a, b));
      OccurrencesAppend(p, q, (b, a));
    }
  }

  lemma IndexedAppend(v: Dict<string>, ps: seq<Pair>, qs: seq<Pair>)
    requires forall k :: 0 <= k < |ps| ==> ps[k].0 in v.values && ps[k].1 in v.values
    requires forall k :: 0 <= k < |qs| ==> qs[k].0 in v.values && qs[k].1 in v.values
    ensures Indexed(v, ps + qs) == Indexed(v, ps) + Indexed(v, qs)
  {
  }

  lemma IndexedSnoc(v: Dict<string>, ps: seq<Pair>, c: nat)
    requires c < |ps|
    requires forall k :: 0 <= k < |ps| ==> ps[k].0 in v.values && ps[k].1 in v.values
    ensures Indexed(v, ps[..c + 1]) == Indexed(v, ps[..c]) + [(v.values[ps[c].0], v.values[ps[c].1])]
  {
  }

  // ---------------------------------------------------------------- total

  /** `f(0) + ... + f(n - 1)`. */
  function SumTo(f: int -> int, n: nat): int
  {
    if n == 0 then 0 else SumTo(f, n - 1) + f(n - 1)
  }

  /** The sum of all cells of an `n` by `n` matrix of counts of `idx`. */
  function Total(idx: seq<(int, int)>, n: nat): int
  {
    SumTo(a => SumTo(b => Entry(idx, a, b), n), n)
  }

  lemma {:induction false} SumToAdd(f: int -> int, g: int -> int, h: int -> int, n: nat)
    requires forall i :: 0 <= i < n ==> h(i) == f(i) + g(i)
    ensures SumTo(h, n) == SumTo(f, n) + SumTo(g, n)
  {
    if n > 0 {
      SumToAdd(f, g, h, n - 1);
    }
  }

  lemma {:induction false} SumToIndicator(f: int -> int, c: int, n: nat)
    requires forall i :: 0 <= i < n ==> f(i) == if i == c then 1 else 0
    ensures SumTo(f, n) == if 0 <= c < n then 1 else 0
  {
    if n > 0 {
      SumToIndicator(f, c, n - 1);
    }
  }

  /** The two cells one index pair adds to, as a function of the cell. */
  function Delta(p: (int, int), a: int, b: int): int
  {
    (if a == p.0 && b == p.1 then 1 else 0) + (if a == p.1 && b == p.0 then 1 else 0)
  }

  /** One more index pair adds one to each of its two cells. */
  lemma EntrySnoc(idx: seq<(int, int)>, p: (int, int))
    ensures forall a, b :: Entry(idx + [p], a, b) == Entry(idx, a, b) + Delta(p, a, b)
  {
    forall a, b
      ensures Entry(idx + [p], a, b) == Entry(idx, a, b) + Delta(p, a, b)
    {
      OccurrencesSnoc(idx, p, (a, b));
      OccurrencesSnoc(idx, p, (b, a));
    }
  }

  /** The counts are symmetric, and a diagonal cell is counted twice per pair. */
  lemma EntrySymmetric(idx: seq<(int, int)>)
    ensures forall a, b :: Entry(idx, a, b) == Entry(idx, b, a)
    ensures forall a :: Entry(idx, a, a) == 2 * Occurrences(idx, (a, a))
  {
  }

  /** Row `a` of one pair's contribution sums to the number of its ends at `a`. */
  lemma RowDelta(p: (int, int), a: int, n: nat)
    requires 0 <= p.0 < n && 0 <= p.1 < n
    ensures SumTo(b => Delta(p, a, b), n) == (if a == p.0 then 1 else 0) + (if a == p.1 then 1 else 0)
  {
    var f := b => if a == p.0 && b == p.1 then 1 else 0;
    var g := b => if a == p.1 && b == p.0 then 1 else 0;
    SumToAdd(f, g, b => Delta(p, a, b), n);
    SumToIndicator(f, if a == p.0 then p.1 else -1, n);
    SumToIndicator(g, if a == p.1 then p.0 else -1, n);
  }

  /** One more index pair adds 2 to the total. */
  lemma TotalSnoc(idx: seq<(int, int)>, p: (int, int), n: nat)
    requires 0 <= p.0 < n && 0 <= p.1 < n
    ensures Total(idx + [p], n) == Total(idx, n) + 2
  {
    var row := a => SumTo(b => Entry(idx, a, b), n);
    var row' := a => SumTo(b => Entry(idx + [p], a, b), n);
    var delta := a => SumTo(b => Delta(p, a, b), n);
    EntrySnoc(idx, p);
    forall a | 0 <= a < n
      ensures row'(a) == row(a) + delta(a)
    {
      SumToAdd(b => Entry(idx, a, b), b => Delta(p, a, b), b => Entry(idx + [p], a, b), n);
    }
    SumToAdd(row, delta, row', n);
    var e0 := a => if a == p.0 then 1 else 0;
    var e1 := a => if a == p.1 then 1 else 0;
    forall a | 0 <= a < n
      ensures delta(a) == e0(a) + e1(a)
    {
      RowDelta(p, a, n);
    }
    SumToAdd(e0, e1, delta, n);
    SumToIndicator(e0, p.0, n);
    SumToIndicator(e1, p.1, n);
  }

  /** Every index pair adds 2 to the matrix: the cells sum to twice the number of pairs. */
  lemma {:induction false} TotalIsTwicePairs(idx: seq<(int, int)>, n: nat)
    requires forall k :: 0 <= k < |idx| ==> 0 <= idx[k].0 < n && 0 <= idx[k].1 < n
    ensures Total(idx, n) == 2 * |idx|
  {
    if |idx| == 0 {
      var zero := a => SumTo(b => Entry(idx, a, b), n);
      forall a | 0 <= a < n
        ensures zero(a) == 0
      {
        SumToIndicator(b => Entry(idx, a, b), -1, n);
      }
      SumToIndicator(zero, -1, n);
    } else {
      var pre := idx[..|idx| - 1];
      TotalIsTwicePairs(pre, n);
      assert idx == pre + [idx[|idx| - 1]];
      TotalSnoc(pre, idx[|idx| - 1], n);
    }
  }

  /** The matrix cells sum to `2 * C(w, 2) * max(0, len - w + 1)` for a
      non-negative window size. */
  lemma MatrixTotal(tokens: seq<string>, w: int)
    requires 0 <= w
    ensures Total(MatrixPairs(tokens, w), |VocabularyOf(tokens).keys|) == (w * (w - 1)) * NumWindows(tokens, w)
  {
    VocabularySpec(tokens);
    var v := VocabularyOf(tokens);
    var idx := Indexed(v, AllPairs(tokens, w));
    forall k | 0 <= k < |idx|
      ensures 0 <= idx[k].0 < |v.keys| && 0 <= idx[k].1 < |v.keys|
    {
      VocabularyIndex(tokens, AllPairs(tokens, w)[k].0);
      VocabularyIndex(tokens, AllPairs(tokens, w)[k].1);
    }
    TotalIsTwicePairs(idx, |v.keys|);
    AllPairsLength(tokens, w);
  }

  // ---------------------------------------------------------------- the class

  class CoocurrenceMatrix {
    const tokens: seq<string>
    const windowSize: int
    var vocabulary: Dict<string>

    /** `CoocurrenceMatrix(tokens, window_size)` with an empty vocabulary. */
    constructor(tokens: seq<string>, windowSize: int)
      ensures this.tokens == tokens && this.windowSize == windowSize
      ensures vocabulary == Empty()
    {
      this.tokens := tokens;
      this.windowSize := windowSize;
      vocabulary := Empty();
    }

    /** `build_vocabulary()`: clear, then give each new token the next index. The
        result does not depend on the vocabulary before the call, so building
        twice gives the same vocabulary. */
    method BuildVocabulary()
      modifies this`vocabulary
      ensures vocabulary == VocabularyOf(tokens)
    {
      vocabulary := Empty();
      for k := 0 to |tokens|
        invariant vocabulary == VocabularyOf(tokens[..k])
      {
        assert tokens[..k + 1][..k] == tokens[..k];
        if tokens[k] !in vocabulary.values {
          vocabulary := vocabulary.Set(tokens[k], |vocabulary.keys|);
        }
      }
      assert tokens[..|tokens|] == tokens;
    }

    /** The inner loop over `combinations(window, 2)`: both cells of every pair
        are incremented. */
    method CountCombinations(matrix: array2<int>, combos: seq<Pair>)
      requires forall k :: 0 <= k < |combos| ==> combos[k].0 in vocabulary.values && combos[k].1 in vocabulary.values
      requires forall t :: t in vocabulary.values ==> 0 <= vocabulary.values[t] < matrix.Length0 && vocabulary.values[t] < matrix.Length1
      modifies matrix
      ensures forall a, b :: 0 <= a < matrix.Length0 && 0 <= b < matrix.Length1 ==>
        matrix[a, b] == old(matrix[a, b]) + Entry(Indexed(vocabulary, combos), a, b)
    {
      for c := 0 to |combos|
        invariant forall a, b :: 0 <= a < matrix.Length0 && 0 <= b < matrix.Length1 ==>
          matrix[a, b] == old(matrix[a, b]) + Entry(Indexed(vocabulary, combos[..c]), a, b)
      {
        var (word1, word2) := combos[c];
        var index1 := vocabulary.values[word1];
        var index2 := vocabulary.values[word2];
        IndexedSnoc(vocabulary, combos, c);
        EntrySnoc(Indexed(vocabulary, combos[..c]), (index1, index2));
        matrix[index1, index2] := matrix[index1, index2] + 1;
        matrix[index2, index1] := matrix[index2, index1] + 1;
      }
      assert combos[..|combos|] == combos;
    }

    /** The cells of `matrix` count the index pairs of `idx`. */
    ghost predicate Counts(matrix: array2<int>, idx: seq<(int, int)>)
      reads matrix
    {
      forall a, b :: 0 <= a < matrix.Length0 && 0 <= b < matrix.Length1 ==> matrix[a, b] == Entry(idx, a, b)
    }

    /** The loop over the windows: every window's pairs are counted into a
        matrix of zeros over the current vocabulary. */
    method CountWindows(matrix: array2<int>)
      requires vocabulary == VocabularyOf(tokens)
      requires matrix.Length0 == matrix.Length1 == |vocabulary.keys|
      requires forall a, b :: 0 <= a < matrix.Length0 && 0 <= b < matrix.Length1 ==> matrix[a, b] == 0
      modifies matrix
      ensures Counts(matrix, MatrixPairs(tokens, windowSize))
    {
      assert WindowCells(tokens, windowSize, 0) == [];
      var i := 0;
      while i < |tokens| - windowSize + 1
        invariant 0 <= i <= NumWindows(tokens, windowSize)
        invariant Counts(matrix, WindowCells(tokens, windowSize, i))
        decreases |tokens| - windowSize + 1 - i
      {
        CountWindow(matrix, i);
        i := i + 1;
      }
      assert i == NumWindows(tokens, windowSize);
    }

    /** One pass of the loop over the windows: the window `tokens[i : i + window_size]`
        and its pairs. */
    method CountWindow(matrix: array2<int>, i: nat)
      requires vocabulary == VocabularyOf(tokens)
      requires matrix.Length0 == matrix.Length1 == |vocabulary.keys|
      requires Counts(matrix, WindowCells(tokens, windowSize, i))
      modifies matrix
      ensures Counts(matrix, WindowCells(tokens, windowSize, i + 1))
    {
      VocabularyInRange(tokens);
      var window := Window(tokens, i, windowSize);
      var combos := Combinations(window);
      CountCombinations(matrix, combos);
      IndexedAppend(vocabulary, WindowPairs(tokens, windowSize, i), combos);
      EntryAppend(Indexed(vocabulary, WindowPairs(tokens, windowSize, i)), Indexed(vocabulary, combos));
    }

    /** `build_matrix()`: rebuild the vocabulary, allocate an `n` by `n` matrix of
        zeros, and count every window's pairs into it. Cell `(a, b)` holds
        `MatrixEntry`, so the matrix is symmetric with an even diagonal, and the
        list of words is the vocabulary's keys, with `vocabulary_list[vocabulary[t]] == t`. */
    method BuildMatrix() returns (matrix: array2<int>, vocabularyList: seq<string>)
      modifies this`vocabulary
      ensures vocabulary == VocabularyOf(tokens)
      ensures fresh(matrix) && matrix.Length0 == matrix.Length1 == |vocabulary.keys|
      ensures forall a, b :: 0 <= a < matrix.Length0 && 0 <= b < matrix.Length1 ==>
        matrix[a, b] == MatrixEntry(tokens, windowSize, a, b)
      ensures forall a, b :: 0 <= a < matrix.Length0 && 0 <= b < matrix.Length1 ==> matrix[a, b] == matrix[b, a]
      ensures forall a :: 0 <= a < matrix.Length0 ==> matrix[a, a] % 2 == 0
      ensures vocabularyList == vocabulary.keys
    {
      BuildVocabulary();
      var n := |vocabulary.keys|;
      matrix := new int[n, n]((_, _) => 0);
      CountWindows(matrix);
      EntrySymmetric(MatrixPairs(tokens, windowSize));
      vocabularyList := vocabulary.keys;
    }
  }
}
