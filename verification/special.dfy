/** The special-function helpers of math_functions.py: `expm1d` with its
    Taylor fallback, the asymptotic series of the transformed exponential
    integral, and the prefix/suffix split done by `transformed_expi`.
    Arithmetic is idealised `real` arithmetic; the library functions
    (`np.expm1`, `scipy.special.expi`, `np.exp`) are parameters. */
module Special {
  import opened Wrappers

  /** n!, as the floating-point products the Python loops form. */
  function Fact(n: nat): (r: real)
    ensures r >= 1.0
  {
    if n == 0 then 1.0 else (n as real) * Fact(n - 1)
  }

  function RPow(x: real, k: nat): real
  {
    if k == 0 then 1.0 else x * RPow(x, k - 1)
  }

  /** (-1)^k */
  function AltSign(k: nat): real
  {
    if k % 2 == 0 then 1.0 else -1.0
  }

  // ---------------------------------------------------------------- expm1d

  /** One pass of the loop of `expm1d_taylor` per n = 2 .. 10:
      c := c * x / n; acc := acc + c. */
  function TaylorLoop(x: real, n: nat, c: real, acc: real): real
    requires 2 <= n <= 11
    decreases 11 - n
  {
    if n > 10 then acc
    else
      var c' := c * x / (n as real);
      TaylorLoop(x, n + 1, c', acc + c')
  }

  /** `expm1d_taylor(x)`: starts from c = acc = 1. */
  function Expm1dTaylor(x: real): real
  {
    TaylorLoop(x, 2, 1.0, 1.0)
  }

  /** Reference definition: the truncated series
      sum of x^k / (k+1)! for k = 0 .. m. */
  function TaylorSum(x: real, m: nat): real
  {
    if m == 0 then 1.0 else TaylorSum(x, m - 1) + RPow(x, m) / Fact(m + 1)
  }

  lemma DivStep(a: real, b: real, x: real, n: real)
    requires b > 0.0 && n > 0.0
    ensures (a / b) * x / n == (x * a) / (n * b)
  {
  }

  lemma TaylorStep(x: real, n: nat, c: real)
    requires 2 <= n
    requires c == RPow(x, n - 2) / Fact(n - 1)
    ensures c * x / (n as real) == RPow(x, n - 1) / Fact(n)
  {
    RPowStep(x, n - 1);
    FactStep(n);
    QuotientStep(RPow(x, n - 2), Fact(n - 1), x, n as real, c, RPow(x, n - 1), Fact(n));
  }

  lemma QuotientStep(a: real, f: real, x: real, n: real, c: real, top: real, bottom: real)
    requires f > 0.0 && n > 0.0 && c == a / f && top == x * a && bottom == n * f
    ensures c * x / n == top / bottom
  {
    DivStep(a, f, x, n);
  }

  lemma TaylorLoopUnfold(x: real, n: nat, c: real, acc: real)
    requires 2 <= n <= 10
    ensures TaylorLoop(x, n, c, acc) == TaylorLoop(x, n + 1, c * x / (n as real), acc + c * x / (n as real))
  {
  }

  lemma {:induction false} TaylorLoopIsSum(x: real, n: nat, c: real, acc: real)
    requires 2 <= n <= 11
    requires c == RPow(x, n - 2) / Fact(n - 1)
    requires acc == TaylorSum(x, n - 2)
    ensures TaylorLoop(x, n, c, acc) == TaylorSum(x, 9)
    decreases 11 - n
  {
    if n <= 10 {
      var c' := c * x / (n as real);
      TaylorStep(x, n, c);
      TaylorLoopUnfold(x, n, c, acc);
      TaylorLoopIsSum(x, n + 1, c', acc + c');
    }
  }

  /** The loop of `expm1d_taylor` computes the ten-term Taylor polynomial of
      (e^x - 1)/x, i.e. 1 + x/2! + x^2/3! + ... + x^9/10!. */
  lemma Expm1dTaylorIsPolynomial(x: real)
    ensures Expm1dTaylor(x) == TaylorSum(x, 9)
  {
    TaylorLoopIsSum(x, 2, 1.0, 1.0);
  }

  lemma {:induction false} TaylorSumAtZero(m: nat)
    ensures TaylorSum(0.0, m) == 1.0
  {
    if m > 0 {
      TaylorSumAtZero(m - 1);
      assert RPow(0.0, m) == 0.0;
    }
  }

  /** The Taylor fallback is exactly 1 at 0, the limit of (e^x - 1)/x. */
  lemma Expm1dTaylorAtZero()
    ensures Expm1dTaylor(0.0) == 1.0
  {
    Expm1dTaylorIsPolynomial(0.0);
    TaylorSumAtZero(9);
  }

  /** A double as far as `expm1d` distinguishes it. */
  datatype Float = Finite(value: real) | PosInf | NegInf | NaN

  /** `expm1d(x)`: the Taylor fallback at exactly 0, inf at inf, otherwise
      `np.expm1(x)/x`, supplied as `quotient` for finite non-zero x. At -inf
      numpy gives -1/-inf = 0 and NaN propagates. */
  function Expm1d(x: Float, quotient: real -> Float): (r: Float)
    ensures x == Finite(0.0) ==> r == Finite(1.0)
    ensures x == PosInf ==> r == PosInf
    ensures x == NegInf ==> r == Finite(0.0)
    ensures x == NaN ==> r == NaN
    ensures x.Finite? && x.value != 0.0 ==> r == quotient(x.value)
  {
    match x
    case Finite(v) =>
      if v == 0.0 then
        Expm1dTaylorAtZero();
        Finite(Expm1dTaylor(v))
      else quotient(v)
    case PosInf => PosInf
    case NegInf => Finite(0.0)
    case NaN => NaN
  }

  // ------------------------------------------------- transformed_expi

  /** One pass of the loop of `transformed_expi_series` per n = 1 .. 10:
      c := -c * x * n; acc := acc + c. */
  function ExpiSeriesLoop(x: real, n: nat, c: real, acc: real): real
    requires 1 <= n <= 11
    decreases 11 - n
  {
    if n > 10 then acc
    else
      var c' := -c * x * (n as real);
      ExpiSeriesLoop(x, n + 1, c', acc + c')
  }

  /** `transformed_expi_series(x)`: starts from c = acc = 1. */
  function TransformedExpiSeries(x: real): real
  {
    ExpiSeriesLoop(x, 1, 1.0, 1.0)
  }

  /** The k-th term (-1)^k k! x^k of the asymptotic expansion. */
  function Term(x: real, k: nat): real
  {
    AltSign(k) * Fact(k) * RPow(x, k)
  }

  /** Reference definition: the asymptotic expansion
      sum of (-1)^k k! x^k for k = 0 .. m. */
  function AsymptoticSum(x: real, m: nat): real
  {
    if m == 0 then 1.0 else AsymptoticSum(x, m - 1) + Term(x, m)
  }

  lemma SignStep(c: real, s: real, f: real, p: real, x: real, n: real, s': real, f': real, p': real, t: real)
    requires c == s * f * p && s' == -s && f' == n * f && p' == x * p && t == s' * f' * p'
    ensures -c * x * n == t
  {
  }

  lemma FactStep(n: nat)
    requires n >= 1
    ensures Fact(n) == (n as real) * Fact(n - 1)
  {
  }

  lemma AltSignStep(n: nat)
    requires n >= 1
    ensures AltSign(n) == -AltSign(n - 1)
  {
  }

  lemma RPowStep(x: real, n: nat)
    requires n >= 1
    ensures RPow(x, n) == x * RPow(x, n - 1)
  {
  }

  lemma SeriesStep(x: real, n: nat, c: real)
    requires 1 <= n
    requires c == Term(x, n - 1)
    ensures -c * x * (n as real) == Term(x, n)
  {
    AltSignStep(n);
    RPowStep(x, n);
    FactStep(n);
    SignStep(c, AltSign(n - 1), Fact(n - 1), RPow(x, n - 1), x, n as real, AltSign(n), Fact(n), RPow(x, n), Term(x, n));
  }

  lemma ExpiSeriesLoopUnfold(x: real, n: nat, c: real, acc: real)
    requires 1 <= n <= 10
    ensures ExpiSeriesLoop(x, n, c, acc) == ExpiSeriesLoop(x, n + 1, -c * x * (n as real), acc + -c * x * (n as real))
  {
  }

  lemma AsymptoticSumStep(x: real, n: nat)
    requires n >= 1
    ensures AsymptoticSum(x, n) == AsymptoticSum(x, n - 1) + Term(x, n)
  {
  }

  lemma {:induction false} ExpiSeriesLoopIsSum(x: real, n: nat, c: real, acc: real)
    requires 1 <= n <= 11
    requires c == Term(x, n - 1)
    requires acc == AsymptoticSum(x, n - 1)
    ensures ExpiSeriesLoop(x, n, c, acc) == AsymptoticSum(x, 10)
    decreases 11 - n
  {
    if n <= 10 {
      var c' := -c * x * (n as real);
      SeriesStep(x, n, c);
      AsymptoticSumStep(x, n);
      ExpiSeriesLoopUnfold(x, n, c, acc);
      ExpiSeriesLoopIsSum(x, n + 1, c', acc + c');
    }
  }

  /** The loop of `transformed_expi_series` computes the eleven-term
      asymptotic expansion 1 - x + 2! x^2 - 3! x^3 + ... + 10! x^10. */
  lemma TransformedExpiSeriesIsExpansion(x: real)
    ensures TransformedExpiSeries(x) == AsymptoticSum(x, 10)
  {
    ExpiSeriesLoopIsSum(x, 1, 1.0, 1.0);
  }

  function Abs(x: real): real
  {
    if x < 0.0 then -x else x
  }

  /** `np.abs` on a double: NaN stays NaN and both infinities become +inf. */
  function FAbs(x: Float): (r: Float)
    ensures !r.NegInf?
  {
    match x
    case Finite(v) => Finite(Abs(v))
    case PosInf => PosInf
    case NegInf => PosInf
    case NaN => NaN
  }

  /** `a >= b` on doubles: false whenever either side is NaN. */
  predicate FGe(a: Float, b: Float)
  {
    match (a, b)
    case (NaN, _) => false
    case (_, NaN) => false
    case (PosInf, _) => true
    case (_, NegInf) => true
    case (NegInf, _) => false
    case (_, PosInf) => false
    case (Finite(x), Finite(y)) => x >= y
  }

  lemma FGeTransitive(a: Float, b: Float, c: Float)
    requires FGe(a, b) && FGe(b, c)
    ensures FGe(a, c)
  {
  }

  /** `abs_x < 1./45.`, the series mask: false for NaN and the infinities. */
  predicate UsesSeries(x: Float)
  {
    x.Finite? && Abs(x.value) < 1.0 / 45.0
  }

  /** The assertion of `transformed_expi`,
      `np.all(abs_x[:-1] >= abs_x[1:])`: each magnitude is at least the next. */
  predicate NonIncreasingAbs(xs: seq<Float>)
  {
    forall i :: 0 <= i < |xs| - 1 ==> FGe(FAbs(xs[i]), FAbs(xs[i + 1]))
  }

  /** Every magnitude is at least every later one. */
  predicate PairwiseNonIncreasingAbs(xs: seq<Float>)
  {
    forall i, j :: 0 <= i < j < |xs| ==> FGe(FAbs(xs[i]), FAbs(xs[j]))
  }

  /** The adjacent comparisons the source makes order all pairs. */
  lemma {:induction false} AdjacentIsPairwise(xs: seq<Float>)
    requires NonIncreasingAbs(xs)
    ensures PairwiseNonIncreasingAbs(xs)
  {
    if |xs| > 1 {
      var rest := xs[1..];
      assert NonIncreasingAbs(rest) by {
        forall i | 0 <= i < |rest| - 1
          ensures FGe(FAbs(rest[i]), FAbs(rest[i + 1]))
        {
          assert rest[i] == xs[i + 1] && rest[i + 1] == xs[i + 2];
        }
      }
      AdjacentIsPairwise(rest);
      forall i, j | 0 <= i < j < |xs|
        ensures FGe(FAbs(xs[i]), FAbs(xs[j]))
      {
        if i > 0 {
          assert xs[i] == rest[i - 1] && xs[j] == rest[j - 1];
        } else if j > 1 {
          assert xs[j] == rest[j - 1] && xs[1] == rest[0];
          FGeTransitive(FAbs(xs[0]), FAbs(xs[1]), FAbs(xs[j]));
        }
      }
    }
  }

  /** A NaN fails every comparison, so it passes the assertion only as the
      sole element: with two or more elements, none is NaN. */
  lemma NaNPassesOnlyAlone(xs: seq<Float>)
    requires NonIncreasingAbs(xs) && |xs| > 1
    ensures forall i :: 0 <= i < |xs| ==> !xs[i].NaN?
  {
    forall i | 0 <= i < |xs|
      ensures !xs[i].NaN?
    {
      if i < |xs| - 1 {
        assert FGe(FAbs(xs[i]), FAbs(xs[i + 1]));
      } else {
        assert FGe(FAbs(xs[i - 1]), FAbs(xs[i]));
      }
    }
  }

  /** Boolean-mask selection `x[mask]`: the selected elements, in order. */
  function Select(xs: seq<Float>, series: bool): (r: seq<Float>)
    ensures |r| <= |xs|
    ensures forall i :: 0 <= i < |r| ==> UsesSeries(r[i]) == series
  {
    if |xs| == 0 then []
    else (if UsesSeries(xs[0]) == series then [xs[0]] else []) + Select(xs[1..], series)
  }

  function Map(f: Float -> Float, xs: seq<Float>): (r: seq<Float>)
    ensures |r| == |xs| && forall i :: 0 <= i < |xs| ==> r[i] == f(xs[i])
  {
    seq(|xs|, i requires 0 <= i < |xs| => f(xs[i]))
  }

  /** `transformed_expi_series` on one element of the series mask, which is
      always finite; other values are passed through unchanged. */
  function Series(x: Float): Float
  {
    match x
    case Finite(v) => Finite(TransformedExpiSeries(v))
    case _ => x
  }

  /** Reference definition: each element evaluated by the branch its own
      magnitude selects, in place. */
  function PerElement(xs: seq<Float>, naive: Float -> Float): (r: seq<Float>)
    ensures |r| == |xs|
  {
    seq(|xs|, i requires 0 <= i < |xs| =>
      if UsesSeries(xs[i]) then Series(xs[i]) else naive(xs[i]))
  }

  datatype ExpiError = UnsortedMagnitudes

  /** `transformed_expi(x)`, with `transformed_expi_naive` supplied as
      `naive`: the naive results of the large-|x| elements followed by the
      series results of the small-|x| ones. NaN and the infinities fall in
      the naive branch. */
  function TransformedExpi(xs: seq<Float>, naive: Float -> Float): (r: Result<seq<Float>, ExpiError>)
    ensures r.Success? <==> NonIncreasingAbs(xs)
    ensures r.Success? ==> r.value == PerElement(xs, naive)
    ensures r.Success? ==> forall i :: 0 <= i < |xs| && !xs[i].Finite? ==> r.value[i] == naive(xs[i])
    ensures r.Success? ==> forall i :: 0 <= i < |xs| && UsesSeries(xs[i]) ==>
              r.value[i] == Finite(TransformedExpiSeries(xs[i].value))
  {
    if !NonIncreasingAbs(xs) then Failure(UnsortedMagnitudes)
    else
      ConcatenationIsPerElement(xs, naive);
      Success(Map(naive, Select(xs, false)) + Map(Series, Select(xs, true)))
  }

  lemma {:induction false} AllSmallSelect(xs: seq<Float>)
    requires forall i :: 0 <= i < |xs| ==> UsesSeries(xs[i])
    ensures Select(xs, false) == [] && Select(xs, true) == xs
  {
    if |xs| > 0 {
      AllSmallSelect(xs[1..]);
    }
  }

  lemma SortedSmallHeadAllSmall(xs: seq<Float>)
    requires NonIncreasingAbs(xs) && |xs| > 0 && UsesSeries(xs[0])
    ensures forall i :: 0 <= i < |xs| ==> UsesSeries(xs[i])
  {
    AdjacentIsPairwise(xs);
    forall i | 0 < i < |xs|
      ensures UsesSeries(xs[i])
    {
      assert FGe(FAbs(xs[0]), FAbs(xs[i]));
    }
  }

  lemma SortedTail(xs: seq<Float>)
    requires NonIncreasingAbs(xs) && |xs| > 0
    ensures NonIncreasingAbs(xs[1..])
  {
    var rest := xs[1..];
    forall i | 0 <= i < |rest| - 1
      ensures FGe(FAbs(rest[i]), FAbs(rest[i + 1]))
    {
      assert rest[i] == xs[i + 1] && rest[i + 1] == xs[i + 2];
    }
  }

  lemma MapCons(f: Float -> Float, x: Float, xs: seq<Float>)
    ensures Map(f, [x] + xs) == [f(x)] + Map(f, xs)
  {
    assert forall i :: 0 < i <= |xs| ==> ([x] + xs)[i] == xs[i - 1];
  }

  lemma PerElementCons(xs: seq<Float>, naive: Float -> Float)
    requires |xs| > 0 && !UsesSeries(xs[0])
    ensures PerElement(xs, naive) == [naive(xs[0])] + PerElement(xs[1..], naive)
  {
  }

  lemma PerElementAllSmall(xs: seq<Float>, naive: Float -> Float)
    requires forall i :: 0 <= i < |xs| ==> UsesSeries(xs[i])
    ensures PerElement(xs, naive) == Map(Series, xs)
  {
  }

  lemma AllSmallConcatenation(xs: seq<Float>, naive: Float -> Float)
    requires NonIncreasingAbs(xs) && |xs| > 0 && UsesSeries(xs[0])
    ensures Map(naive, Select(xs, false)) + Map(Series, Select(xs, true)) == PerElement(xs, naive)
  {
    SortedSmallHeadAllSmall(xs);
    AllSmallSelect(xs);
    PerElementAllSmall(xs, naive);
    assert Map(naive, Select(xs, false)) == [];
  }

  /** Under the sortedness assertion the large-|x| elements form a prefix
      and the small-|x| elements the suffix, so concatenating the two
      branch results puts every result back at its element's position. */
  lemma {:induction false} ConcatenationIsPerElement(xs: seq<Float>, naive: Float -> Float)
    requires NonIncreasingAbs(xs)
    ensures Map(naive, Select(xs, false)) + Map(Series, Select(xs, true)) == PerElement(xs, naive)
  {
    if |xs| == 0 {
      assert Select(xs, false) == [] && Select(xs, true) == [];
    } else if UsesSeries(xs[0]) {
      AllSmallConcatenation(xs, naive);
    } else {
      var rest := xs[1..];
      SortedTail(xs);
      ConcatenationIsPerElement(rest, naive);
      SelectLargeHead(xs);
      MapCons(naive, xs[0], Select(rest, false));
      PerElementCons(xs, naive);
      ConsAssociates(naive(xs[0]), Map(naive, Select(rest, false)), Map(Series, Select(rest, true)));
    }
  }

  /** A large-|x| head is selected by the naive mask and skipped by the other. */
  lemma SelectLargeHead(xs: seq<Float>)
    requires |xs| > 0 && !UsesSeries(xs[0])
    ensures Select(xs, false) == [xs[0]] + Select(xs[1..], false)
    ensures Select(xs, true) == Select(xs[1..], true)
  {
  }

  lemma ConsAssociates(h: Float, front: seq<Float>, back: seq<Float>)
    ensures ([h] + front) + back == [h] + (front + back)
  {
  }

  /** The split point: every element before it takes the naive branch and
      every element from it on takes the series branch. */
  lemma {:induction false} SelectionIsPrefixSuffix(xs: seq<Float>)
    requires NonIncreasingAbs(xs)
    ensures var k := |Select(xs, false)|;
            Select(xs, false) == xs[..k] && Select(xs, true) == xs[k..]
  {
    if |xs| > 0 {
      if UsesSeries(xs[0]) {
        SortedSmallHeadAllSmall(xs);
        AllSmallSelect(xs);
      } else {
        var rest := xs[1..];
        SortedTail(xs);
        SelectionIsPrefixSuffix(rest);
        SelectLargeHead(xs);
        SlicesOfTail(xs, |Select(rest, false)|);
      }
    }
  }

  lemma SlicesOfTail(xs: seq<Float>, k: nat)
    requires k < |xs|
    ensures xs[..k + 1] == [xs[0]] + xs[1..][..k]
    ensures xs[k + 1..] == xs[1..][k..]
  {
  }
}
