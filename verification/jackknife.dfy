/** `JackknifeStat` (momi/sfs_stats.py): an estimate together with its
    block-jackknife values, and the componentwise arithmetic on such pairs.
    Arrays are sequences of reals; numpy's broadcasting of a length-one
    array is modelled, other shape mismatches fail. */
module Jackknife {
  import opened Wrappers

  /** An estimate and its leave-one-block-out values. */
  datatype JackknifeStat = JackknifeStat(est: real, jackknife: seq<real>)

  /** The right operand of an arithmetic operator: another statistic or a
      plain number, which `jackknife_arr_op` wraps as `JackknifeStat(c, c)`. */
  datatype Operand = Stat(s: JackknifeStat) | Scalar(c: real)

  datatype ShapeError = ShapeMismatch

  function Sum(x: seq<real>): real
  {
    if |x| == 0 then 0.0 else Sum(x[..|x| - 1]) + x[|x| - 1]
  }

  /** `np.sum(x)` is linear. */
  lemma {:induction false} SumLinear(x: seq<real>, y: seq<real>, z: seq<real>, a: real, b: real)
    requires |x| == |y| == |z|
    requires forall i :: 0 <= i < |x| ==> z[i] == a * x[i] + b * y[i]
    ensures Sum(z) == a * Sum(x) + b * Sum(y)
  {
    if |x| > 0 {
      var n := |x| - 1;
      SumLinear(x[..n], y[..n], z[..n], a, b);
    }
  }

  /** `x + y` on numpy vectors: elementwise, a length-one operand
      broadcast against the other. */
  function Plus(x: seq<real>, y: seq<real>): (r: Result<seq<real>, ShapeError>)
    ensures r.Success? <==> |x| == |y| || |x| == 1 || |y| == 1
    ensures r.Success? && |x| == |y| ==> |r.value| == |x| && forall i :: 0 <= i < |x| ==> r.value[i] == x[i] + y[i]
    ensures r.Success? && |x| != |y| && |x| == 1 ==> |r.value| == |y| && forall i :: 0 <= i < |y| ==> r.value[i] == x[0] + y[i]
    ensures r.Success? && |x| != |y| && |y| == 1 ==> |r.value| == |x| && forall i :: 0 <= i < |x| ==> r.value[i] == x[i] + y[0]
  {
    if |x| == |y| then Success(seq(|x|, i requires 0 <= i < |x| => x[i] + y[i]))
    else if |x| == 1 then Success(seq(|y|, i requires 0 <= i < |y| => x[0] + y[i]))
    else if |y| == 1 then Success(seq(|x|, i requires 0 <= i < |x| => x[i] + y[0]))
    else Failure(ShapeMismatch)
  }

  function Shift(x: seq<real>, c: real): (r: seq<real>)
    ensures |r| == |x| && forall i :: 0 <= i < |x| ==> r[i] == x[i] + c
  {
    seq(|x|, i requires 0 <= i < |x| => x[i] + c)
  }

  function Minus(x: seq<real>): (r: seq<real>)
    ensures |r| == |x| && forall i :: 0 <= i < |x| ==> r[i] == -x[i]
  {
    seq(|x|, i requires 0 <= i < |x| => -x[i])
  }

  /** `JackknifeStat.from_chunks(x)`: the total over the blocks, and the
      total less each block. */
  function FromChunks(x: seq<real>): (r: JackknifeStat)
    ensures r.est == Sum(x) && |r.jackknife| == |x|
    ensures forall i :: 0 <= i < |x| ==> r.jackknife[i] + x[i] == r.est
  {
    JackknifeStat(Sum(x), seq(|x|, i requires 0 <= i < |x| => Sum(x) - x[i]))
  }

  /** `resids`: each jackknife value less the estimate. */
  function Resids(s: JackknifeStat): (r: seq<real>)
    ensures |r| == |s.jackknife| && forall i :: 0 <= i < |r| ==> s.jackknife[i] == s.est + r[i]
  {
    Shift(s.jackknife, -s.est)
  }

  /** `__add__`: estimates add, jackknife values add componentwise. */
  function Add(s: JackknifeStat, other: Operand): (r: Result<JackknifeStat, ShapeError>)
    ensures other.Scalar? ==> r == Success(JackknifeStat(s.est + other.c, Shift(s.jackknife, other.c)))
    ensures other.Stat? ==> (r.Success? <==> Plus(s.jackknife, other.s.jackknife).Success?)
    ensures other.Stat? && r.Success? ==>
              r.value.est == s.est + other.s.est && r.value.jackknife == Plus(s.jackknife, other.s.jackknife).value
  {
    match other
    case Scalar(c) => Success(JackknifeStat(s.est + c, Shift(s.jackknife, c)))
    case Stat(t) =>
      var jk :- Plus(s.jackknife, t.jackknife);
      Success(JackknifeStat(s.est + t.est, jk))
  }

  /** `__neg__`. */
  function Neg(s: JackknifeStat): (r: JackknifeStat)
    ensures r.est == -s.est && |r.jackknife| == |s.jackknife|
    ensures forall i :: 0 <= i < |s.jackknife| ==> r.jackknife[i] + s.jackknife[i] == 0.0
  {
    JackknifeStat(-s.est, Minus(s.jackknife))
  }

  function NegOperand(o: Operand): Operand
  {
    match o
    case Stat(t) => Stat(Neg(t))
    case Scalar(c) => Scalar(-c)
  }

  /** `__sub__`: adding the negation. */
  function Sub(s: JackknifeStat, other: Operand): Result<JackknifeStat, ShapeError>
  {
    Add(s, NegOperand(other))
  }

  /** The residuals of `from_chunks(x)` are the negated blocks. */
  lemma FromChunksResids(x: seq<real>)
    ensures Resids(FromChunks(x)) == Minus(x)
  {
    var r := Resids(FromChunks(x));
    assert forall i :: 0 <= i < |x| ==> r[i] == -x[i];
  }

  lemma NegTwice(s: JackknifeStat)
    ensures Neg(Neg(s)) == s
  {
    assert Minus(Minus(s.jackknife)) == s.jackknife;
  }

  /** A statistic less itself is zero in every component. */
  lemma SubSelf(s: JackknifeStat)
    ensures Sub(s, Stat(s)).Success?
    ensures Sub(s, Stat(s)).value.est == 0.0
    ensures forall i :: 0 <= i < |s.jackknife| ==> Sub(s, Stat(s)).value.jackknife[i] == 0.0
  {
  }

  lemma AddCommutes(s: JackknifeStat, t: JackknifeStat)
    ensures Add(s, Stat(t)).Success? <==> Add(t, Stat(s)).Success?
    ensures Add(s, Stat(t)).Success? ==> Add(s, Stat(t)) == Add(t, Stat(s))
  {
    if Add(s, Stat(t)).Success? {
      var a := Add(s, Stat(t)).value.jackknife;
      var b := Add(t, Stat(s)).value.jackknife;
      assert |a| == |b|;
      assert forall i :: 0 <= i < |a| ==> a[i] == b[i];
      assert a == b;
    }
  }

  /** `from_chunks` is linear: the statistic of a difference of per-block
      counts is the difference of the statistics. */
  lemma FromChunksSubtracts(x: seq<real>, y: seq<real>)
    requires |x| == |y|
    ensures Sub(FromChunks(x), Stat(FromChunks(y))) == Success(FromChunks(Difference(x, y)))
  {
    var z := Difference(x, y);
    SumLinear(x, y, z, 1.0, -1.0);
    var neg := Neg(FromChunks(y));
    assert Sub(FromChunks(x), Stat(FromChunks(y))) == Add(FromChunks(x), Stat(neg));
    var jk := Plus(FromChunks(x).jackknife, neg.jackknife).value;
    JackknifeOfDifference(x, y, z, jk);
  }

  /** `x - y` on vectors of one length. */
  function Difference(x: seq<real>, y: seq<real>): (z: seq<real>)
    requires |x| == |y|
    ensures |z| == |x| && forall i :: 0 <= i < |x| ==> z[i] == x[i] - y[i]
  {
    seq(|x|, i requires 0 <= i < |x| => x[i] - y[i])
  }

  lemma JackknifeOfDifference(x: seq<real>, y: seq<real>, z: seq<real>, jk: seq<real>)
    requires |x| == |y| == |z| == |jk|
    requires forall i :: 0 <= i < |x| ==> z[i] == x[i] - y[i]
    requires forall i :: 0 <= i < |x| ==> jk[i] == (Sum(x) - x[i]) + -(Sum(y) - y[i])
    requires Sum(z) == 1.0 * Sum(x) + -1.0 * Sum(y)
    ensures jk == FromChunks(z).jackknife
  {
    var rhs := FromChunks(z).jackknife;
    assert forall i :: 0 <= i < |x| ==> jk[i] == rhs[i];
  }
}
