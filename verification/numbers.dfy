/** Python floats as the ms parser sees them: exact reals extended with the
    two infinities and NaN. Rounding is not modelled; comparisons follow
    IEEE 754 (every comparison with NaN is false). */
module Numbers {

  datatype Num = Finite(r: real) | PosInf | NegInf | NaN

  function FromInt(i: int): Num
  {
    Finite(i as real)
  }

  /** `a <= b` on floats. */
  predicate Le(a: Num, b: Num)
  {
    match (a, b)
    case (NaN, _) => false
    case (_, NaN) => false
    case (NegInf, _) => true
    case (_, PosInf) => true
    case (Finite(x), Finite(y)) => x <= y
    case (_, _) => false
  }

  predicate Lt(a: Num, b: Num)
  {
    Le(a, b) && a != b
  }

  /** `a >= 0.0`, false for NaN. */
  predicate NonNegative(a: Num)
  {
    Le(Finite(0.0), a)
  }

  /** `a - b` on floats. */
  function Sub(a: Num, b: Num): (d: Num)
    ensures a.Finite? && b.Finite? ==> d == Finite(a.r - b.r)
    ensures d.NaN? <==> (a.NaN? || b.NaN? || (a.PosInf? && b.PosInf?) || (a.NegInf? && b.NegInf?))
    ensures d.PosInf? <==> ((a.PosInf? && !b.PosInf? && !b.NaN?) || (b.NegInf? && !a.NegInf? && !a.NaN?))
  {
    match (a, b)
    case (NaN, _) => NaN
    case (_, NaN) => NaN
    case (PosInf, PosInf) => NaN
    case (NegInf, NegInf) => NaN
    case (PosInf, _) => PosInf
    case (NegInf, _) => NegInf
    case (_, PosInf) => NegInf
    case (_, NegInf) => PosInf
    case (Finite(x), Finite(y)) => Finite(x - y)
  }

  /** On non-NaN values `<=` is a total order. */
  lemma LeTotalOrder(a: Num, b: Num, c: Num)
    requires !a.NaN? && !b.NaN? && !c.NaN?
    ensures Le(a, a)
    ensures Le(a, b) || Le(b, a)
    ensures Le(a, b) && Le(b, a) ==> a == b
    ensures Le(a, b) && Le(b, c) ==> Le(a, c)
  {
  }

  /** The difference of two ordered times is a non-negative duration unless
      both are the same infinity. */
  lemma SubOfOrderedIsNonNegative(a: Num, b: Num)
    requires Le(a, b) && !(a.PosInf? && b.PosInf?) && !(a.NegInf? && b.NegInf?)
    ensures NonNegative(Sub(b, a))
  {
  }
}
