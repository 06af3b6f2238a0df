/** Values shared by every module of the model: Python's exceptions, NaN-able
    statistics, optional values, and sums over real sequences. */
module Common {

  /** The Python exceptions the modelled code can raise. */
  datatype PyError = ValueError | TypeError | AttributeError | ZeroDivisionError | IndexError

  /** A Python call that either returns a value or raises. */
  datatype Result<T> = Ok(value: T) | Raise(error: PyError)

  /** Python's `None` or a value. */
  datatype Option<T> = None | Some(value: T)

  /** A floating-point statistic, modelled exactly over the reals, with NumPy's NaN. */
  datatype Stat = NaN | Num(value: real)

  /** One row of a (N, d) array. */
  type Vector = seq<real>

  /** Every row has the same number of columns, as in a two-dimensional NumPy array. */
  ghost predicate Rectangular(x: seq<Vector>)
  {
    forall i :: 0 <= i < |x| ==> |x[i]| == |x[0]|
  }

  /** The sum of a sequence, adding from the left as `np.sum` does in exact arithmetic. */
  function Sum(s: seq<real>): real
  {
    if |s| == 0 then 0.0 else Sum(s[..|s| - 1]) + s[|s| - 1]
  }

  /** The arithmetic mean, `np.mean` of a non-empty sequence. */
  function Mean(s: seq<real>): real
    requires |s| > 0
  {
    Sum(s) / (|s| as real)
  }

  /** Element-wise product of two vectors (`a * b`, `a.multiply(b)`). */
  function Multiply(a: Vector, b: Vector): (r: Vector)
    requires |a| == |b|
    ensures |r| == |a|
    ensures forall j :: 0 <= j < |a| ==> r[j] == a[j] * b[j]
  {
    seq(|a|, j requires 0 <= j < |a| => a[j] * b[j])
  }

  /** The dot product `sum_j a[j] * b[j]`, accumulated index by index. */
  function Dot(a: Vector, b: Vector): real
    requires |a| == |b|
  {
    if |a| == 0 then 0.0 else Dot(a[..|a| - 1], b[..|b| - 1]) + a[|a| - 1] * b[|b| - 1]
  }

  /** The sum of a sequence whose entries are all `c` is `|s| * c`. */
  lemma {:induction false} SumConstant(s: seq<real>, c: real)
    requires forall i :: 0 <= i < |s| ==> s[i] == c
    ensures Sum(s) == (|s| as real) * c
  {
    if |s| > 0 {
      SumConstant(s[..|s| - 1], c);
    }
  }

  /** `Sum` distributes over concatenation. */
  lemma {:induction false} SumAppend(a: seq<real>, b: seq<real>)
    ensures Sum(a + b) == Sum(a) + Sum(b)
  {
    if |b| == 0 {
      assert a + b == a;
    } else {
      assert (a + b)[..|a + b| - 1] == a + b[..|b| - 1];
      SumAppend(a, b[..|b| - 1]);
    }
  }

  /** Summing `a[i] + b[i]` term by term is summing each side. */
  lemma {:induction false} SumAdd(a: seq<real>, b: seq<real>, s: seq<real>)
    requires |a| == |b| == |s|
    requires forall i :: 0 <= i < |s| ==> s[i] == a[i] + b[i]
    ensures Sum(s) == Sum(a) + Sum(b)
  {
    if |s| > 0 {
      SumAdd(a[..|a| - 1], b[..|b| - 1], s[..|s| - 1]);
    }
  }

  /** Scaling every term by `k` scales the sum by `k`. */
  lemma {:induction false} SumScale(a: seq<real>, k: real, s: seq<real>)
    requires |a| == |s|
    requires forall i :: 0 <= i < |s| ==> s[i] == k * a[i]
    ensures Sum(s) == k * Sum(a)
  {
    if |s| > 0 {
      SumScale(a[..|a| - 1], k, s[..|s| - 1]);
    }
  }

  /** Summing `a[i] + c` adds `|a| * c` to the sum. */
  lemma {:induction false} SumShift(a: seq<real>, c: real, s: seq<real>)
    requires |a| == |s|
    requires forall i :: 0 <= i < |s| ==> s[i] == a[i] + c
    ensures Sum(s) == Sum(a) + (|a| as real) * c
  {
    if |s| > 0 {
      SumShift(a[..|a| - 1], c, s[..|s| - 1]);
      assert (|a| as real) * c == ((|a| - 1) as real) * c + c;
    }
  }

  /** Sums of non-negative terms are non-negative. */
  lemma {:induction false} SumNonNegative(s: seq<real>)
    requires forall i :: 0 <= i < |s| ==> s[i] >= 0.0
    ensures Sum(s) >= 0.0
  {
    if |s| > 0 {
      SumNonNegative(s[..|s| - 1]);
    }
  }

  /** The dot product is the sum of the element-wise product: `einsum('ij,ij->i')`
      and `(u.multiply(v)).sum()` are one number. */
  lemma {:induction false} DotIsSumOfProducts(a: Vector, b: Vector)
    requires |a| == |b|
    ensures Dot(a, b) == Sum(Multiply(a, b))
  {
    if |a| > 0 {
      var n := |a| - 1;
      DotIsSumOfProducts(a[..n], b[..n]);
      var p, q := Multiply(a, b)[..n], Multiply(a[..n], b[..n]);
      assert |p| == |q| && forall j :: 0 <= j < n ==> p[j] == q[j];
      assert p == q;
    }
  }

  /** Concatenation is associative. */
  lemma Associative<T>(a: seq<T>, b: seq<T>, c: seq<T>)
    ensures (a + b) + c == a + (b + c)
  {
  }

  /** One more element of a prefix. */
  lemma TakeSnoc<T>(s: seq<T>, k: nat)
    requires k < |s|
    ensures s[..k] + [s[k]] == s[..k + 1]
  {
  }
}
