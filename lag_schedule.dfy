/** The lag schedule of `calculate_autocorrelation` (both pipeline files): start at
    lag 1, record lags while `lag < 0.5 * (N - 1)`, and grow each lag to
    `int(np.ceil(lag * 1.1))`. For integers, `lag < 0.5 * (N - 1)` is
    `2 * lag < N - 1`. The product `lag * 1.1` is an IEEE-754 double
    multiplication; it is modelled exactly with integers below. */
module LagSchedule {

  /** The double nearest to 1.1 is `OnePointOne / 2^52`. */
  const OnePointOne: nat := 4953959590107546
  const TwoTo52: nat := 4503599627370496
  const TwoTo53: nat := 9007199254740992

  function Pow2(k: nat): (p: nat)
    ensures p >= 1
  {
    if k == 0 then 1 else 2 * Pow2(k - 1)
  }

  /** The number of binary digits of `n`. */
  function BitLength(n: nat): nat
  {
    if n == 0 then 0 else 1 + BitLength(n / 2)
  }

  /** The leading binary digit of a positive `n` has weight `2^(BitLength(n) - 1)`. */
  lemma {:induction false} BitLengthLower(n: nat)
    requires n > 0
    ensures Pow2(BitLength(n) - 1) <= n
  {
    if n > 1 {
      BitLengthLower(n / 2);
    }
  }

  /** Rounds the number `n / 2^52` to the nearest double (53 significant bits,
      ties to even) and returns the result again as a multiple of `2^-52`.
      Numbers below `2^53 / 2^52 = 2` fit exactly; a number with `s` binary digits
      more than 53 keeps its top 53 digits. */
  function RoundToDouble(n: nat): nat
  {
    var s := BitLength(n / TwoTo53);
    if s == 0 then n else Scale(RoundQuotient(Shift(n, s), Low(n, s), Pow2(s)), s)
  }

  /** `q + rem / unit` rounded to the nearest integer, ties to the even one. */
  function RoundQuotient(q: nat, rem: nat, unit: nat): nat
  {
    if 2 * rem > unit || (2 * rem == unit && Odd(q)) then q + 1 else q
  }

  predicate Odd(q: nat)
  {
    q % 2 == 1
  }

  /** `n >> s`, the quotient of `n` by `2^s`. */
  function Shift(n: nat, s: nat): nat
  {
    if s == 0 then n else Shift(n / 2, s - 1)
  }

  /** The `s` low binary digits of `n`, the remainder of `n` by `2^s`. */
  function Low(n: nat, s: nat): nat
  {
    if s == 0 then 0 else n % 2 + 2 * Low(n / 2, s - 1)
  }

  /** `v << s`, the product of `v` and `2^s`. */
  function Scale(v: nat, s: nat): nat
  {
    if s == 0 then v else 2 * Scale(v, s - 1)
  }

  /** Shifting splits `n` into its high digits, scaled back, and its `s` low digits. */
  lemma {:induction false} ShiftParts(n: nat, s: nat)
    ensures n == Scale(Shift(n, s), s) + Low(n, s)
    ensures Low(n, s) < Pow2(s)
  {
    if s > 0 {
      ShiftParts(n / 2, s - 1);
      ScaleTwice(Shift(n / 2, s - 1), s - 1);
    }
  }

  /** Scaling by `2^s` after doubling is doubling after scaling. */
  lemma ScaleTwice(v: nat, s: nat)
    ensures Scale(v, s + 1) == 2 * Scale(v, s)
  {
  }

  /** One more unit scaled by `2^s` adds `2^s`. */
  lemma {:induction false} ScaleSucc(v: nat, s: nat)
    ensures Scale(v + 1, s) == Scale(v, s) + Pow2(s)
  {
    if s > 0 {
      ScaleSucc(v, s - 1);
    }
  }

  /** `int(np.ceil(lag * 1.1))`: the product rounded to a double, then rounded up. */
  function Grow(lag: nat): nat
  {
    var r := RoundToDouble(lag * OnePointOne);
    (r + TwoTo52 - 1) / TwoTo52
  }

  /** `ceil(lag * 11 / 10)` in exact arithmetic, what the growth rule approximates. */
  function ExactGrow(lag: nat): (next: nat)
    ensures 10 * next >= 11 * lag && 10 * next < 11 * lag + 10
  {
    (11 * lag + 9) / 10
  }

  /** Double rounding matters: `10 * 1.1` is exactly 11.0, but `50 * 1.1` is
      `55.00000000000001` and `170 * 1.1` is above 187, so their ceilings are one
      more than the exact `ceil(11 * lag / 10)`. */
  lemma GrowInDoublePrecision()
    ensures Grow(10) == 11 == ExactGrow(10)
    ensures Grow(50) == 56 && ExactGrow(50) == 55
    ensures Grow(170) == 188 && ExactGrow(170) == 187
  {
    GrowOfTen();
    GrowOfFifty();
    GrowOfHundredSeventy();
  }

  /** `10 * 1.1` rounds to `49539595901075456 / 2^52`, whose ceiling is 11. */
  lemma GrowOfTen()
    ensures Grow(10) == 11
  {
    var n := 10 * OnePointOne;
    assert n == 49539595901075460;
    assert n / TwoTo53 == 5 && BitLength(5) == 3;
    assert Shift(n, 3) == 6192449487634432 && Low(n, 3) == 4;
    assert RoundQuotient(6192449487634432, 4, Pow2(3)) == 6192449487634432;
    assert Scale(6192449487634432, 3) == 49539595901075456;
  }

  /** `50 * 1.1` rounds to `247697979505377312 / 2^52`, whose ceiling is 56. */
  lemma GrowOfFifty()
    ensures Grow(50) == 56
  {
    var n := 50 * OnePointOne;
    assert n == 247697979505377300;
    assert n / TwoTo53 == 27 && BitLength(27) == 5;
    assert Shift(n, 5) == 7740561859543040 && Low(n, 5) == 20;
    assert RoundQuotient(7740561859543040, 20, Pow2(5)) == 7740561859543041;
    assert Scale(7740561859543041, 5) == 247697979505377312;
  }

  /** `170 * 1.1` rounds to `842173130318282880 / 2^52`, whose ceiling is 188. */
  lemma GrowOfHundredSeventy()
    ensures Grow(170) == 188
  {
    var n := 170 * OnePointOne;
    assert n == 842173130318282820;
    assert n / TwoTo53 == 93 && BitLength(93) == 7;
    assert Shift(n, 7) == 6579477580611584 && Low(n, 7) == 68;
    assert RoundQuotient(6579477580611584, 68, Pow2(7)) == 6579477580611585;
    assert Scale(6579477580611585, 7) == 842173130318282880;
  }

  /** The loop guard `current_lag < max_lag` with `max_lag = 0.5 * (N - 1)`. */
  predicate BelowMaxLag(lag: int, n: int)
  {
    2 * lag < n - 1
  }

  /** The lags the loop records when its variable holds `lag`. */
  function LagsFrom(lag: nat, n: nat): seq<nat>
    requires lag >= 1
    decreases n - lag
  {
    if BelowMaxLag(lag, n) then GrowAdvances(lag); [lag] + LagsFrom(Grow(lag), n) else []
  }

  /** The lags recorded for a sequence of `n` vectors. */
  function Schedule(n: nat): seq<nat>
  {
    LagsFrom(1, n)
  }

  /** Rounding to 53 significant digits loses less than one unit of the last kept
      digit, and that unit is at most `2 * (n / 2^53)`. */
  lemma RoundToDoubleLower(n: nat)
    ensures RoundToDouble(n) + 2 * (n / TwoTo53) >= n
  {
    var s := BitLength(n / TwoTo53);
    if s > 0 {
      BitLengthLower(n / TwoTo53);
      assert Pow2(s) == 2 * Pow2(s - 1);
      ShiftParts(n, s);
      ScaleSucc(Shift(n, s), s);
    }
  }

  /** Every growth step advances: the double product `lag * 1.1` loses less than
      `2 * lag / 2^52` to rounding and so stays above `lag`; no lag repeats. */
  lemma GrowAdvances(lag: nat)
    requires lag >= 1
    ensures Grow(lag) > lag
  {
    var n := lag * OnePointOne;
    RoundToDoubleLower(n);
    assert n < 2 * lag * TwoTo52;
    assert n / TwoTo53 < lag;
    var r := RoundToDouble(n);
    assert r >= lag * TwoTo52 + 1;
    assert (r + TwoTo52 - 1) / TwoTo52 >= lag + 1;
  }

  /** Every lag recorded from `lag` on is at least `lag` and passes the loop guard. */
  lemma {:induction false} LagsFromBounds(lag: nat, n: nat)
    requires lag >= 1
    ensures forall i :: 0 <= i < |LagsFrom(lag, n)| ==>
      lag <= LagsFrom(lag, n)[i] && BelowMaxLag(LagsFrom(lag, n)[i], n)
    decreases n - lag
  {
    if BelowMaxLag(lag, n) {
      GrowAdvances(lag);
      LagsFromBounds(Grow(lag), n);
    }
  }

  /** The lags recorded from `lag` on strictly increase, each step by the growth rule. */
  lemma {:induction false} LagsFromSteps(lag: nat, n: nat)
    requires lag >= 1
    ensures forall i :: 0 <= i < |LagsFrom(lag, n)| - 1 ==>
      LagsFrom(lag, n)[i + 1] == Grow(LagsFrom(lag, n)[i])
    decreases n - lag
  {
    if BelowMaxLag(lag, n) {
      GrowAdvances(lag);
      LagsFromSteps(Grow(lag), n);
      var rest := LagsFrom(Grow(lag), n);
      LagsFromBounds(Grow(lag), n);
      assert |rest| > 0 ==> rest[0] == Grow(lag);
    }
  }

  /** The schedule starts at 1, each lag is the growth of the one before it, every
      lag is positive and passes the guard `lag < 0.5 * (N - 1)`, and the next
      growth step after the last lag fails the guard: the loop recorded all it could. */
  lemma ScheduleShape(n: nat)
    ensures |Schedule(n)| > 0 ==> Schedule(n)[0] == 1
    ensures forall i :: 0 <= i < |Schedule(n)| ==> 1 <= Schedule(n)[i] && BelowMaxLag(Schedule(n)[i], n)
    ensures forall i :: 0 <= i < |Schedule(n)| - 1 ==> Schedule(n)[i + 1] == Grow(Schedule(n)[i])
    ensures |Schedule(n)| > 0 ==> !BelowMaxLag(Grow(Schedule(n)[|Schedule(n)| - 1]), n)
  {
    LagsFromBounds(1, n);
    LagsFromSteps(1, n);
    LagsFromLast(1, n);
  }

  /** The loop records its first lag, 1, exactly when 1 passes the guard. */
  lemma ScheduleStart(n: nat)
    ensures |Schedule(n)| > 0 <==> BelowMaxLag(1, n)
    ensures |Schedule(n)| > 0 ==> Schedule(n)[0] == 1
  {
  }

  /** Every scheduled lag passes the guard. */
  lemma ScheduleBelowMax(n: nat)
    ensures forall i :: 0 <= i < |Schedule(n)| ==> BelowMaxLag(Schedule(n)[i], n)
  {
    LagsFromBounds(1, n);
  }

  /** The lag after the `k`-th scheduled one is the next scheduled lag, or fails
      the guard when the `k`-th lag is the last. */
  lemma ScheduleNext(n: nat, k: nat)
    requires k < |Schedule(n)|
    ensures k + 1 < |Schedule(n)| ==> Schedule(n)[k + 1] == Grow(Schedule(n)[k])
    ensures k + 1 == |Schedule(n)| ==> !BelowMaxLag(Grow(Schedule(n)[k]), n)
  {
    ScheduleShape(n);
  }

  /** The growth of the last lag recorded from `lag` on fails the guard. */
  lemma {:induction false} LagsFromLast(lag: nat, n: nat)
    requires lag >= 1
    ensures |LagsFrom(lag, n)| > 0 ==> !BelowMaxLag(Grow(LagsFrom(lag, n)[|LagsFrom(lag, n)| - 1]), n)
    decreases n - lag
  {
    if BelowMaxLag(lag, n) {
      GrowAdvances(lag);
      LagsFromLast(Grow(lag), n);
    }
  }

  /** The lags recorded from `lag` on strictly increase. */
  lemma {:induction false} LagsFromIncreasing(lag: nat, n: nat)
    requires lag >= 1
    ensures forall i, j :: 0 <= i < j < |LagsFrom(lag, n)| ==> LagsFrom(lag, n)[i] < LagsFrom(lag, n)[j]
    decreases n - lag
  {
    if BelowMaxLag(lag, n) {
      GrowAdvances(lag);
      LagsFromIncreasing(Grow(lag), n);
      LagsFromBounds(Grow(lag), n);
    }
  }

  /** The schedule is strictly increasing. */
  lemma ScheduleIncreasing(n: nat)
    ensures forall i, j :: 0 <= i < j < |Schedule(n)| ==> Schedule(n)[i] < Schedule(n)[j]
  {
    LagsFromIncreasing(1, n);
  }

  /** Every scheduled lag is a valid lag for a series of `n` vectors: `1 <= lag < n`,
      which is what the correlation functions check before slicing. */
  lemma ScheduleLagsValid(n: nat)
    ensures forall i :: 0 <= i < |Schedule(n)| ==> 1 <= Schedule(n)[i] < n
  {
    ScheduleShape(n);
  }

  /** A lag is recorded at all exactly when there are at least four vectors. */
  lemma ScheduleNonEmptyIff(n: nat)
    ensures |Schedule(n)| > 0 <==> n >= 4
  {
  }
}
