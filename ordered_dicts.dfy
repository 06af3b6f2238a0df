/** Python's insertion-ordered dictionaries from keys to integers: the
    `defaultdict(int)` counters of the mutual-information estimator and the
    `OrderedDict` vocabulary of the co-occurrence matrix. A dictionary is the
    order in which its keys were first inserted together with a finite map. */
module OrderedDicts {
  import opened Common

  /** No key occurs twice. */
  ghost predicate NoDuplicates<K>(s: seq<K>)
  {
    forall i, j :: 0 <= i < j < |s| ==> s[i] != s[j]
  }

  /** An insertion-ordered dictionary with integer values. */
  datatype Dict<K(!new)> = Dict(keys: seq<K>, values: map<K, int>)
  {
    /** The keys are listed once each, and they are exactly the keys of the map. */
    ghost predicate Valid()
    {
      NoDuplicates(keys) && forall k :: k in values <==> k in keys
    }

    /** `d[k]` on a `defaultdict(int)`: a missing key reads as 0. */
    function Get(k: K): int
    {
      if k in values then values[k] else 0
    }

    /** The side effect of `d[k]` on a `defaultdict(int)`: a missing key is inserted with 0. */
    function Touch(k: K): (d: Dict<K>)
      ensures k in d.values && d.Get(k) == Get(k)
      ensures forall j :: j != k ==> (j in d.values <==> j in values) && d.Get(j) == Get(j)
    {
      if k in values then this else Dict(keys + [k], values[k := 0])
    }

    /** `d[k] = v`: an existing key keeps its place, a new key goes last. */
    function Set(k: K, v: int): (d: Dict<K>)
      ensures k in d.values && d.Get(k) == v
      ensures forall j :: j != k ==> (j in d.values <==> j in values) && d.Get(j) == Get(j)
      ensures d.keys == if k in values then keys else keys + [k]
    {
      Dict(if k in values then keys else keys + [k], values[k := v])
    }

    /** `d[k] += 1` on a `defaultdict(int)`. */
    function Increment(k: K): (d: Dict<K>)
      ensures k in d.values && d.Get(k) == Get(k) + 1
      ensures forall j :: j != k ==> (j in d.values <==> j in values) && d.Get(j) == Get(j)
      ensures d.keys == if k in values then keys else keys + [k]
    {
      Set(k, Get(k) + 1)
    }

    /** `sum(d.values())`. */
    function Total(): int
      requires Valid()
    {
      SumOver(keys, values)
    }
  }

  /** An empty dictionary (`defaultdict(int)`, `OrderedDict()`, or one after `clear()`). */
  function Empty<K(!new)>(): (d: Dict<K>)
    ensures d.Valid() && d.keys == []
  {
    Dict([], map[])
  }

  /** `sum(values[k] for k in keys)`, adding in key order. */
  function SumOver<K>(keys: seq<K>, values: map<K, int>): int
    requires forall i :: 0 <= i < |keys| ==> keys[i] in values
  {
    if |keys| == 0 then 0 else SumOver(keys[..|keys| - 1], values) + values[keys[|keys| - 1]]
  }

  /** The distinct elements of `s` in the order of their first appearance. */
  function Distinct<K(==)>(s: seq<K>): seq<K>
  {
    if |s| == 0 then []
    else
      var d := Distinct(s[..|s| - 1]);
      if s[|s| - 1] in s[..|s| - 1] then d else d + [s[|s| - 1]]
  }

  /** How many times `t` occurs in `s`. */
  function Occurrences<K(==)>(s: seq<K>, t: K): nat
  {
    if |s| == 0 then 0 else Occurrences(s[..|s| - 1], t) + (if s[|s| - 1] == t then 1 else 0)
  }

  /** One more element adds one to its own count. */
  lemma OccurrencesSnoc<T>(s: seq<T>, x: T, t: T)
    ensures Occurrences(s + [x], t) == Occurrences(s, t) + (if x == t then 1 else 0)
  {
    assert (s + [x])[..|s|] == s;
  }

  /** Counting over two runs adds the counts. */
  lemma {:induction false} OccurrencesAppend<T>(s: seq<T>, u: seq<T>, t: T)
    ensures Occurrences(s + u, t) == Occurrences(s, t) + Occurrences(u, t)
  {
    if |u| == 0 {
      assert s + u == s;
    } else {
      var v := u[..|u| - 1];
      OccurrencesAppend(s, v, t);
      assert s + u == (s + v) + [u[|u| - 1]];
      OccurrencesSnoc(s + v, u[|u| - 1], t);
      assert u == v + [u[|u| - 1]];
      OccurrencesSnoc(v, u[|u| - 1], t);
    }
  }

  /** The position of the first occurrence of `t` in `s` (`list.index`). */
  function IndexOf<K(==)>(s: seq<K>, t: K): (i: nat)
    requires t in s
    ensures i < |s| && s[i] == t && t !in s[..i]
  {
    if s[0] == t then 0 else 1 + IndexOf(s[1..], t)
  }

  /** The counter that `for t in s: counts[t] += 1` builds from an empty `defaultdict(int)`. */
  function CountsOf<K(!new)>(s: seq<K>): Dict<K>
  {
    if |s| == 0 then Empty() else CountsOf(s[..|s| - 1]).Increment(s[|s| - 1])
  }

  /** `Distinct` lists every element of `s` once and nothing else. */
  lemma {:induction false} DistinctSpec<K>(s: seq<K>)
    ensures NoDuplicates(Distinct(s))
    ensures forall t :: t in Distinct(s) <==> t in s
  {
    if |s| > 0 {
      var p := s[..|s| - 1];
      DistinctSpec(p);
      assert s == p + [s[|s| - 1]];
    }
  }

  /** The keys of a counter are the distinct tokens in order of first appearance,
      and each count is the number of occurrences. */
  lemma CountsOfSpec<K(!new)>(s: seq<K>)
    ensures CountsOf(s).Valid()
    ensures CountsOf(s).keys == Distinct(s)
    ensures forall t :: t in CountsOf(s).values <==> t in s
    ensures forall t :: CountsOf(s).Get(t) == Occurrences(s, t)
  {
    CountsOfKeys(s);
    CountsOfCounts(s);
  }

  /** The keys of a counter, in order of first appearance. */
  lemma {:induction false} CountsOfKeys<K(!new)>(s: seq<K>)
    ensures CountsOf(s).Valid()
    ensures CountsOf(s).keys == Distinct(s)
    ensures forall t :: t in CountsOf(s).values <==> t in s
  {
    if |s| > 0 {
      var p, x := s[..|s| - 1], s[|s| - 1];
      CountsOfKeys(p);
      DistinctSpec(p);
      MemberSnoc(s);
      if x !in p {
        assert NoDuplicates(CountsOf(p).keys + [x]);
      }
    }
  }

  /** An element of a non-empty sequence is in its front or is its last element. */
  lemma MemberSnoc<K>(s: seq<K>)
    requires |s| > 0
    ensures forall t :: t in s <==> t in s[..|s| - 1] || t == s[|s| - 1]
  {
    assert s == s[..|s| - 1] + [s[|s| - 1]];
  }

  /** The counts of a counter. */
  lemma {:induction false} CountsOfCounts<K(!new)>(s: seq<K>)
    ensures forall t :: CountsOf(s).Get(t) == Occurrences(s, t)
  {
    if |s| > 0 {
      var p, x := s[..|s| - 1], s[|s| - 1];
      CountsOfCounts(p);
      var c := CountsOf(p);
      forall t ensures CountsOf(s).Get(t) == Occurrences(s, t) {
        if t != x {
          assert CountsOf(s).Get(t) == c.Get(t);
        }
      }
    }
  }

  /** `CountsOfSpec` for one element. */
  lemma CountOf<K(!new)>(s: seq<K>, t: K)
    ensures CountsOf(s).Valid()
    ensures CountsOf(s).Get(t) == Occurrences(s, t)
    ensures t in CountsOf(s).keys <==> t in s
    ensures t in CountsOf(s).values <==> t in s
  {
    CountsOfSpec(s);
    DistinctSpec(s);
  }

  /** Overwriting the value of a key that is listed once changes the sum by the difference. */
  lemma {:induction false} SumOverSet<K>(keys: seq<K>, values: map<K, int>, k: K, v: int)
    requires NoDuplicates(keys)
    requires forall i :: 0 <= i < |keys| ==> keys[i] in values
    requires k in values
    ensures SumOver(keys, values[k := v]) ==
            SumOver(keys, values) + (if k in keys then v - values[k] else 0)
  {
    if |keys| > 0 {
      var p := keys[..|keys| - 1];
      assert NoDuplicates(p);
      SumOverSet(p, values, k, v);
      if keys[|keys| - 1] == k {
        assert k !in p;
      }
    }
  }

  /** A new key inserted last adds its value to the sum. */
  lemma SumOverAppend<K>(keys: seq<K>, values: map<K, int>, k: K, v: int)
    requires forall i :: 0 <= i < |keys| ==> keys[i] in values
    requires k !in keys
    ensures SumOver(keys + [k], values[k := v]) == SumOver(keys, values) + v
  {
    SumOverIgnoresOthers(keys, values, values[k := v]);
    assert (keys + [k])[..|keys|] == keys;
  }

  /** The sum over `keys` depends only on the values of `keys`. */
  lemma {:induction false} SumOverIgnoresOthers<K>(keys: seq<K>, a: map<K, int>, b: map<K, int>)
    requires forall i :: 0 <= i < |keys| ==> keys[i] in a && keys[i] in b && a[keys[i]] == b[keys[i]]
    ensures SumOver(keys, a) == SumOver(keys, b)
  {
    if |keys| > 0 {
      SumOverIgnoresOthers(keys[..|keys| - 1], a, b);
    }
  }

  /** Setting one key of a valid dictionary keeps it valid and changes the total by
      the difference between the new and the old value. */
  lemma SetTotal<K(!new)>(d: Dict<K>, k: K, v: int)
    requires d.Valid()
    ensures d.Set(k, v).Valid()
    ensures d.Set(k, v).Total() == d.Total() - d.Get(k) + v
  {
    var e := d.Set(k, v);
    if k in d.values {
      SumOverSet(d.keys, d.values, k, v);
    } else {
      SumOverAppend(d.keys, d.values, k, v);
      assert NoDuplicates(e.keys);
    }
  }

  /** `d[k] += 1` adds one to the total. */
  lemma IncrementTotal<K(!new)>(d: Dict<K>, k: K)
    requires d.Valid()
    ensures d.Increment(k).Valid()
    ensures d.Increment(k).Total() == d.Total() + 1
  {
    SetTotal(d, k, d.Get(k) + 1);
  }

  /** The counts of a counter add up to the length of the counted stream. */
  lemma {:induction false} CountsOfTotal<K(!new)>(s: seq<K>)
    ensures CountsOf(s).Valid() && CountsOf(s).Total() == |s|
  {
    if |s| > 0 {
      var p, x := s[..|s| - 1], s[|s| - 1];
      CountsOfTotal(p);
      var c := CountsOf(p);
      IncrementTotal(c, x);
    }
  }

  /** Appending an element leaves the first position of an element already present unchanged. */
  lemma {:induction false} IndexOfAppend<K>(s: seq<K>, x: K, t: K)
    requires t in s
    ensures IndexOf(s + [x], t) == IndexOf(s, t)
  {
    if s[0] != t {
      assert (s + [x])[1..] == s[1..] + [x];
      IndexOfAppend(s[1..], x, t);
    }
  }

  /** `Distinct` keeps the order of first appearances: `t` comes before `u` in it
      exactly when the first `t` comes before the first `u` in `s`. */
  lemma {:induction false} DistinctOrder<K>(s: seq<K>, t: K, u: K)
    requires t in s && u in s
    ensures t in Distinct(s) && u in Distinct(s)
    ensures IndexOf(Distinct(s), t) < IndexOf(Distinct(s), u) <==> IndexOf(s, t) < IndexOf(s, u)
  {
    DistinctSpec(s);
    var p, x := s[..|s| - 1], s[|s| - 1];
    assert s == p + [x];
    DistinctSpec(p);
    var d := Distinct(p);
    if x in p {
      DistinctOrder(p, t, u);
      IndexOfAppend(p, x, t);
      IndexOfAppend(p, x, u);
    } else {
      assert Distinct(s) == d + [x];
      if t != x {
        IndexOfAppend(p, x, t);
        IndexOfAppend(d, x, t);
      }
      if u != x {
        IndexOfAppend(p, x, u);
        IndexOfAppend(d, x, u);
      }
      if t != x && u != x {
        DistinctOrder(p, t, u);
      } else {
        if t == x {
          assert IndexOf(s, x) == |p| by { assert x !in s[..|p|]; }
          assert IndexOf(Distinct(s), x) == |d| by { assert Distinct(s)[..|d|] == d; }
        }
        if u == x {
          assert IndexOf(s, x) == |p| by { assert x !in s[..|p|]; }
          assert IndexOf(Distinct(s), x) == |d| by { assert Distinct(s)[..|d|] == d; }
        }
      }
    }
  }

  /** A lookup on a `defaultdict(int)` keeps it valid and leaves its total as it was. */
  lemma TouchTotal<K(!new)>(d: Dict<K>, k: K)
    requires d.Valid()
    ensures d.Touch(k).Valid() && d.Touch(k).Total() == d.Total()
  {
    if k !in d.values {
      SetTotal(d, k, 0);
      assert d.Touch(k) == d.Set(k, 0);
    }
  }

  /** An element occurs a positive number of times exactly when it is present. */
  lemma {:induction false} OccurrencesPositive<K>(s: seq<K>, t: K)
    ensures Occurrences(s, t) > 0 <==> t in s
  {
    if |s| > 0 {
      var p := s[..|s| - 1];
      OccurrencesPositive(p, t);
      assert s == p + [s[|s| - 1]];
    }
  }

  /** The values of the keys, in key order, as reals. */
  function ValuesOf<K>(keys: seq<K>, values: map<K, int>): (r: seq<real>)
    requires forall i :: 0 <= i < |keys| ==> keys[i] in values
    ensures |r| == |keys|
  {
    seq(|keys|, i requires 0 <= i < |keys| => values[keys[i]] as real)
  }

  /** Summing the values as reals gives the integer sum. */
  lemma {:induction false} SumOfValues<K>(keys: seq<K>, values: map<K, int>)
    requires forall i :: 0 <= i < |keys| ==> keys[i] in values
    ensures Sum(ValuesOf(keys, values)) == SumOver(keys, values) as real
  {
    if |keys| > 0 {
      var n := |keys| - 1;
      SumOfValues(keys[..n], values);
      assert ValuesOf(keys, values)[..n] == ValuesOf(keys[..n], values);
    }
  }

  /** `d[k] / sum(d.values())`. */
  function Share<K(!new)>(d: Dict<K>, k: K): real
    requires d.Valid() && d.Total() > 0
  {
    (d.Get(k) as real) / (d.Total() as real)
  }

  /** The share of every key, in key order. */
  function Shares<K(!new)>(d: Dict<K>): (r: seq<real>)
    requires d.Valid() && d.Total() > 0
    ensures |r| == |d.keys|
  {
    seq(|d.keys|, i requires 0 <= i < |d.keys| => Share(d, d.keys[i]))
  }

  /** A key counted in `s` is an element of `s` with a positive count. */
  lemma CountedKey<K(!new)>(s: seq<K>, key: K)
    requires key in CountsOf(s).keys
    ensures key in s && CountsOf(s).Get(key) > 0
  {
    CountOf(s, key);
    OccurrencesPositive(s, key);
  }

  /** The shares of a counter with a positive total add up to 1. */
  lemma SharesSumToOne<K(!new)>(d: Dict<K>)
    requires d.Valid() && d.Total() > 0
    ensures Sum(Shares(d)) == 1.0
  {
    var t := d.Total() as real;
    var a := ValuesOf(d.keys, d.values);
    forall i | 0 <= i < |d.keys|
      ensures Shares(d)[i] == (1.0 / t) * a[i]
    {
      assert d.keys[i] in d.values;
      DivideByTotal(a[i], t);
    }
    SumScale(a, 1.0 / t, Shares(d));
    SumOfValues(d.keys, d.values);
  }

  /** Dividing by a positive total is scaling by its inverse. */
  lemma DivideByTotal(v: real, t: real)
    requires t > 0.0
    ensures v / t == (1.0 / t) * v
  {
  }
}
