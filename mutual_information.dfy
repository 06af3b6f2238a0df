/** `MutualInformation` of `scripts/mutual_information.py`: marginal token counts,
    lagged joint counts over `defaultdict(int)` counters, the two probability
    helpers, and the mutual-information sum with `log2` as a parameter. */
module MutualInformationEstimator {
  import opened Common
  import opened OrderedDicts

  /** A pair of tokens, the key of the joint counter. */
  type Pair = (string, string)

  /** The pairs the joint loop counts for `lag`: `(tokens[i], tokens[i + 1])` for
      every `i` in `range(len(tokens) - lag)`. The second token is the next one
      whatever the lag; the lag only decides how many pairs there are. */
  function Pairs(tokens: seq<string>, lag: nat): (p: seq<Pair>)
    requires lag >= 1
    ensures |p| == if |tokens| > lag then |tokens| - lag else 0
  {
    if |tokens| <= lag then []
    else seq(|tokens| - lag, i requires 0 <= i < |tokens| - lag => (tokens[i], tokens[i + 1]))
  }

  /** `count_joint_tokens(lag)` as a value: `ValueError` for a lag that is not
      positive, otherwise the counter of the pairs. */
  function JointCounts(tokens: seq<string>, lag: int): (r: Result<Dict<Pair>>)
    ensures r.Raise? <==> lag <= 0
    ensures r.Raise? ==> r.error == ValueError
  {
    if lag <= 0 then Raise(ValueError) else Ok(CountsOf(Pairs(tokens, lag)))
  }

  /** `tokens_counts[word] / tokens_length` for a word of a non-empty stream. */
  function Marginal(tokens: seq<string>, word: string): real
    requires |tokens| > 0
  {
    (Occurrences(tokens, word) as real) / (|tokens| as real)
  }

  /** `p_xy * log2(p_xy / (p_x * p_y))` under the guard of line 49, and 0 otherwise. */
  function Contribution(pxy: real, px: real, py: real, log2: real -> real): real
  {
    if pxy > 0.0 && px > 0.0 && py > 0.0 then pxy * log2(pxy / (px * py)) else 0.0
  }

  /** The contribution of one joint key to the sum. */
  function Term(tokens: seq<string>, joint: Dict<Pair>, key: Pair, log2: real -> real): real
    requires |tokens| > 0 && joint.Valid() && joint.Total() > 0
  {
    Contribution((joint.Get(key) as real) / (joint.Total() as real), Marginal(tokens, key.0), Marginal(tokens, key.1), log2)
  }

  /** The mutual-information sum over `keys`, adding in key order from the left. */
  function SumOfTerms(tokens: seq<string>, joint: Dict<Pair>, keys: seq<Pair>, log2: real -> real): real
    requires |tokens| > 0 && joint.Valid() && joint.Total() > 0
  {
    if |keys| == 0 then 0.0
    else SumOfTerms(tokens, joint, keys[..|keys| - 1], log2) + Term(tokens, joint, keys[|keys| - 1], log2)
  }

  /** One more key of a prefix adds its term. */
  lemma SumOfTermsSnoc(tokens: seq<string>, joint: Dict<Pair>, keys: seq<Pair>, log2: real -> real, k: nat)
    requires |tokens| > 0 && joint.Valid() && joint.Total() > 0 && k < |keys|
    ensures SumOfTerms(tokens, joint, keys[..k + 1], log2) == SumOfTerms(tokens, joint, keys[..k], log2) + Term(tokens, joint, keys[k], log2)
  {
    assert keys[..k + 1][..k] == keys[..k];
  }

  /** The term of a key, from its three probabilities. */
  lemma TermIs(tokens: seq<string>, joint: Dict<Pair>, key: Pair, log2: real -> real, pxy: real, px: real, py: real)
    requires |tokens| > 0 && joint.Valid() && joint.Total() > 0
    requires pxy == (joint.Get(key) as real) / (joint.Total() as real)
    requires px == Marginal(tokens, key.0) && py == Marginal(tokens, key.1)
    ensures Term(tokens, joint, key, log2) == Contribution(pxy, px, py, log2)
  {
  }

  /** `calculate_mutual_information(lag)` as a value: the `ValueError` of the joint
      count, 0.0 when there are no pairs, and otherwise the sum of the terms. */
  function MutualInformationOf(tokens: seq<string>, lag: int, log2: real -> real): (r: Result<real>)
    ensures r.Raise? <==> lag <= 0
    ensures lag >= 1 && |tokens| <= lag ==> r == Ok(0.0)
  {
    if lag <= 0 then Raise(ValueError)
    else
      var joint := CountsOf(Pairs(tokens, lag));
      CountsOfTotal(Pairs(tokens, lag));
      if joint.Total() == 0 then Ok(0.0) else Ok(SumOfTerms(tokens, joint, joint.keys, log2))
  }

  /** The joint counts add up to `max(0, len(tokens) - lag)`. */
  lemma JointTotal(tokens: seq<string>, lag: int)
    requires lag >= 1
    ensures JointCounts(tokens, lag).value.Valid()
    ensures JointCounts(tokens, lag).value.Total() == if |tokens| > lag then |tokens| - lag else 0
  {
    CountsOfTotal(Pairs(tokens, lag));
  }

  /** A pair is listed exactly when it is `(tokens[i], tokens[i + 1])` for some `i < len - lag`. */
  lemma PairsMember(tokens: seq<string>, lag: int, key: Pair)
    requires lag >= 1
    ensures key in Pairs(tokens, lag) <==>
      exists i :: 0 <= i < |tokens| - lag && tokens[i] == key.0 && tokens[i + 1] == key.1
  {
    var p := Pairs(tokens, lag);
    if key in p {
      var i :| 0 <= i < |p| && p[i] == key;
      assert tokens[i] == key.0 && tokens[i + 1] == key.1;
    }
    if exists i :: 0 <= i < |tokens| - lag && tokens[i] == key.0 && tokens[i + 1] == key.1 {
      var i :| 0 <= i < |tokens| - lag && tokens[i] == key.0 && tokens[i + 1] == key.1;
      assert p[i] == key;
    }
  }

  /** The counter holds each pair as often as it occurs among the pairs, and
      holds it at all exactly when it is `(tokens[i], tokens[i + 1])` for some
      `i < len - lag`. */
  lemma JointCountsSpec(tokens: seq<string>, lag: int, x: string, y: string)
    requires lag >= 1
    ensures JointCounts(tokens, lag).value.Get((x, y)) == Occurrences(Pairs(tokens, lag), (x, y))
    ensures (x, y) in JointCounts(tokens, lag).value.values <==>
      exists i :: 0 <= i < |tokens| - lag && tokens[i] == x && tokens[i + 1] == y
  {
    CountOf(Pairs(tokens, lag), (x, y));
    PairsMember(tokens, lag, (x, y));
  }

  /** The lag only shortens the list of pairs: the pairs for `lag` are a prefix of
      the pairs for lag 1, so for the same number of pairs every lag counts the
      same adjacent pairs. */
  lemma PairsIgnoreLagOffset(tokens: seq<string>, lag: nat)
    requires lag >= 1
    ensures Pairs(tokens, lag) == Pairs(tokens, 1)[..|Pairs(tokens, lag)|]
  {
  }

  /** For `["a", "b", "c", "d"]` and lag 2 the loop counts `("a", "b")` and
      `("b", "c")`, not the pairs two apart. */
  lemma PairsOfLagTwo()
    ensures Pairs(["a", "b", "c", "d"], 2) == [("a", "b"), ("b", "c")]
    ensures JointCounts(["a", "b", "c", "d"], 2).value.Get(("a", "c")) == 0
  {
    var p := Pairs(["a", "b", "c", "d"], 2);
    assert p[0] == ("a", "b") && p[1] == ("b", "c");
    JointCountsSpec(["a", "b", "c", "d"], 2, "a", "c");
    assert Occurrences(p, ("a", "c")) == 0 by {
      OccurrencesPositive(p, ("a", "c"));
    }
  }

  /** Both tokens of a listed pair are stream tokens. */
  lemma PairTokens(tokens: seq<string>, lag: nat, key: Pair)
    requires lag >= 1 && key in Pairs(tokens, lag)
    ensures key.0 in tokens && key.1 in tokens
  {
    var p := Pairs(tokens, lag);
    var i :| 0 <= i < |p| && p[i] == key;
    assert tokens[i] == key.0 && tokens[i + 1] == key.1;
  }

  /** A stream token has a positive marginal probability. */
  lemma MarginalPositive(tokens: seq<string>, word: string)
    requires word in tokens
    ensures |tokens| > 0 && Marginal(tokens, word) > 0.0
  {
    OccurrencesPositive(tokens, word);
    PositiveRatio(Occurrences(tokens, word) as real, |tokens| as real);
  }

  lemma PositiveRatio(a: real, b: real)
    requires a > 0.0 && b > 0.0
    ensures a / b > 0.0
  {
  }

  /** Every joint key is made of stream tokens, so `p_xy`, `p_x` and `p_y` are all
      positive and the guard on line 49 holds for every key the loop visits. */
  lemma GuardAlwaysHolds(tokens: seq<string>, lag: int, key: Pair)
    requires lag >= 1
    requires key in JointCounts(tokens, lag).value.keys
    ensures |tokens| > 0 && key.0 in tokens && key.1 in tokens
    ensures JointCounts(tokens, lag).value.Get(key) > 0
    ensures Marginal(tokens, key.0) > 0.0 && Marginal(tokens, key.1) > 0.0
  {
    CountedKey(Pairs(tokens, lag), key);
    PairTokens(tokens, lag, key);
    MarginalPositive(tokens, key.0);
    MarginalPositive(tokens, key.1);
  }

  /** Every key of the joint counter is a pair of stream tokens. */
  lemma JointKeysAreTokens(tokens: seq<string>, lag: int)
    requires lag >= 1
    ensures forall key :: key in JointCounts(tokens, lag).value.keys ==> key.0 in tokens && key.1 in tokens
  {
    forall key | key in JointCounts(tokens, lag).value.keys
      ensures key.0 in tokens && key.1 in tokens
    {
      CountedKey(Pairs(tokens, lag), key);
      PairTokens(tokens, lag, key);
    }
  }

  /** `get_joint_probability(x, y, joint_counts)`: 0.0 when there are no pairs (and
      the counter is not consulted), otherwise the pair's share of the pairs, the
      lookup inserting a missing pair with count 0, which changes no count. */
  function JointProbability(x: string, y: string, joint: Dict<Pair>): (r: (real, Dict<Pair>))
    requires joint.Valid()
    ensures r.1.Valid() && r.1.Total() == joint.Total()
    ensures joint.Total() == 0 ==> r == (0.0, joint)
    ensures joint.Total() > 0 ==> r.0 == Share(joint, (x, y)) && r.1 == joint.Touch((x, y))
  {
    TouchTotal(joint, (x, y));
    if joint.Total() > 0 then (Share(joint, (x, y)), joint.Touch((x, y))) else (0.0, joint)
  }

  /** With at least one pair, the joint probabilities of the keys add up to 1. */
  lemma JointProbabilitiesSumToOne(joint: Dict<Pair>)
    requires joint.Valid() && joint.Total() > 0
    ensures Sum(seq(|joint.keys|, i requires 0 <= i < |joint.keys| => JointProbability(joint.keys[i].0, joint.keys[i].1, joint).0)) == 1.0
  {
    var probs := seq(|joint.keys|, i requires 0 <= i < |joint.keys| => JointProbability(joint.keys[i].0, joint.keys[i].1, joint).0);
    forall i | 0 <= i < |joint.keys|
      ensures probs[i] == Shares(joint)[i]
    {
      var k := joint.keys[i];
      assert (k.0, k.1) == k;
    }
    assert probs == Shares(joint);
    SharesSumToOne(joint);
  }

  /** The marginal probabilities of the distinct tokens add up to 1. */
  lemma MarginalsSumToOne(tokens: seq<string>)
    requires |tokens| > 0
    ensures Sum(seq(|Distinct(tokens)|, i requires 0 <= i < |Distinct(tokens)| => Marginal(tokens, Distinct(tokens)[i]))) == 1.0
  {
    var c := CountsOf(tokens);
    CountsOfSpec(tokens);
    CountsOfTotal(tokens);
    var m := seq(|Distinct(tokens)|, i requires 0 <= i < |Distinct(tokens)| => Marginal(tokens, Distinct(tokens)[i]));
    assert m == Shares(c);
    SharesSumToOne(c);
  }

  class MutualInformation {
    const tokens: seq<string>
    const tokensLength: nat
    var tokensCounts: Dict<string>

    /** The counter counts the stream: every token is a key, and each count is the
        number of occurrences (0 for words looked up since). */
    ghost predicate Valid()
      reads this
    {
      tokensLength == |tokens| && tokensCounts.Valid() &&
      (forall t :: t in tokens ==> t in tokensCounts.values) &&
      (forall t :: tokensCounts.Get(t) == Occurrences(tokens, t))
    }

    /** `MutualInformation(tokens)`: keeps the tokens, their number and their counts. */
    constructor(tokens: seq<string>)
      ensures this.tokens == tokens && tokensLength == |tokens|
      ensures tokensCounts == CountsOf(tokens)
      ensures Valid()
    {
      this.tokens := tokens;
      tokensLength := |tokens|;
      new;
      tokensCounts := CountTokens();
      CountsOfSpec(tokens);
    }

    /** `count_tokens()`: one increment of `counts[token]` per token. The counter
        has the distinct tokens as keys in order of first appearance, each counted
        as often as it occurs, and the counts add up to the number of tokens. */
    method CountTokens() returns (counts: Dict<string>)
      ensures counts == CountsOf(tokens)
      ensures counts.Valid() && counts.keys == Distinct(tokens)
      ensures forall t :: counts.Get(t) == Occurrences(tokens, t)
      ensures counts.Total() == |tokens|
    {
      counts := Empty();
      for i := 0 to |tokens|
        invariant counts == CountsOf(tokens[..i])
      {
        assert tokens[..i + 1][..i] == tokens[..i];
        counts := counts.Increment(tokens[i]);
      }
      assert tokens[..|tokens|] == tokens;
      CountsOfSpec(tokens);
      CountsOfTotal(tokens);
    }

    /** `count_joint_tokens(lag)`: `ValueError` for a lag that is not positive;
        otherwise one increment of `joint_counts[(tokens[i], tokens[i + 1])]` for
        each `i` in `range(tokens_length - lag)`. */
    method CountJointTokens(lag: int) returns (r: Result<Dict<Pair>>)
      requires Valid()
      ensures r == JointCounts(tokens, lag)
    {
      if lag <= 0 {
        return Raise(ValueError);
      }
      ghost var pairs := Pairs(tokens, lag);
      var joint: Dict<Pair> := Empty();
      var i := 0;
      while i < tokensLength - lag
        invariant 0 <= i && (i <= tokensLength - lag || i == 0)
        invariant joint == CountsOf(pairs[..i])
      {
        assert pairs[..i + 1][..i] == pairs[..i];
        assert pairs[i] == (tokens[i], tokens[i + 1]);
        joint := joint.Increment((tokens[i], tokens[i + 1]));
        i := i + 1;
      }
      assert pairs[..i] == pairs;
      r := Ok(joint);
    }

    /** `get_marginal_probability(word)`: the lookup inserts a missing word with
        count 0, then divides by `tokens_length`, which raises
        `ZeroDivisionError` for an empty stream. */
    method MarginalProbability(word: string) returns (r: Result<real>)
      requires Valid()
      modifies this`tokensCounts
      ensures Valid()
      ensures tokensCounts == old(tokensCounts).Touch(word)
      ensures word in tokens ==> tokensCounts == old(tokensCounts)
      ensures tokensLength == 0 ==> r == Raise(ZeroDivisionError)
      ensures tokensLength > 0 ==> r == Ok(Marginal(tokens, word))
    {
      TouchTotal(tokensCounts, word);
      tokensCounts := tokensCounts.Touch(word);
      if tokensLength == 0 {
        return Raise(ZeroDivisionError);
      }
      r := Ok((tokensCounts.Get(word) as real) / (tokensLength as real));
    }

    /** `calculate_mutual_information(lag)`: the `ValueError` of the joint count,
        0.0 without pairs, and otherwise the sum over the joint keys in order. The
        marginal lookups only look up stream tokens, so the counter is unchanged. */
    method CalculateMutualInformation(lag: int, log2: real -> real) returns (r: Result<real>)
      requires Valid()
      modifies this`tokensCounts
      ensures Valid() && tokensCounts == old(tokensCounts)
      ensures r == MutualInformationOf(tokens, lag, log2)
    {
      var counted := CountJointTokens(lag);
      if counted.Raise? {
        return Raise(counted.error);
      }
      var joint := counted.value;
      JointTotal(tokens, lag);
      var numberOfPairs := joint.Total();
      if numberOfPairs == 0 {
        return Ok(0.0);
      }
      JointKeysAreTokens(tokens, lag);
      var mi := SumTerms(joint, numberOfPairs, log2);
      r := Ok(mi);
    }

    /** The loop of lines 45-50 over the joint keys, in order: the sum of the
        terms. The marginal lookups only touch stream tokens, which are keys
        already, so the counter is unchanged. */
    method SumTerms(joint: Dict<Pair>, numberOfPairs: nat, log2: real -> real) returns (mi: real)
      requires Valid() && |tokens| > 0
      requires joint.Valid() && numberOfPairs == joint.Total() > 0
      requires forall key :: key in joint.keys ==> key.0 in tokens && key.1 in tokens
      modifies this`tokensCounts
      ensures Valid() && tokensCounts == old(tokensCounts)
      ensures mi == SumOfTerms(tokens, joint, joint.keys, log2)
    {
      mi := 0.0;
      for j := 0 to |joint.keys|
        invariant Valid() && tokensCounts == old(tokensCounts)
        invariant mi == SumOfTerms(tokens, joint, joint.keys[..j], log2)
      {
        var key := joint.keys[j];
        var pxy := (joint.values[key] as real) / (numberOfPairs as real);
        var px := MarginalProbability(key.0);
        var py := MarginalProbability(key.1);
        TermIs(tokens, joint, key, log2, pxy, px.value, py.value);
        SumOfTermsSnoc(tokens, joint, joint.keys, log2, j);
        mi := AddTerm(mi, pxy, px.value, py.value, log2);
      }
      assert joint.keys[..|joint.keys|] == joint.keys;
    }
  }

  /** Line 49-50: `mi += p_xy * log2(p_xy / (p_x * p_y))` under the guard. */
  method AddTerm(mi: real, pxy: real, px: real, py: real, log2: real -> real) returns (r: real)
    ensures r == mi + Contribution(pxy, px, py, log2)
  {
    r := mi;
    if pxy > 0.0 && px > 0.0 && py > 0.0 {
      r := r + pxy * log2(pxy / (px * py));
    }
  }
}
