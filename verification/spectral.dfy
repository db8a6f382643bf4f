/** Shape and slice bookkeeping of the spectral contraction `fft_einsum`
    and of the gradient rule `fftngrad` of `fftn` (math_functions.py).
    Transform values are not modelled; shapes are sequences of axis sizes. */
module Spectral {
  import opened Wrappers
  import opened Regular
  import Axes
  import Einsum

  /** p is the least 5-smooth number that is >= t. */
  ghost predicate LeastRegularAtLeast(p: int, t: int)
  {
    t <= p && IsRegular(p) && forall m :: t <= m < p ==> !IsRegular(m)
  }

  /** Result shape of `np.fft.fftn(x, s, axes)`: each listed axis padded or
      truncated to its entry of s. numpy applies the per-axis transforms in
      reverse order, so for a repeated axis the first entry decides. */
  function FftnShape(shape: seq<nat>, s: seq<nat>, axes: seq<nat>): (r: seq<nat>)
    requires |s| == |axes|
    ensures |r| == |shape|
    ensures forall k :: 0 <= k < |axes| && axes[k] < |shape| && Axes.FirstIndex(axes, axes[k]) == Some(k) ==>
              r[axes[k]] == s[k]
    ensures forall d :: 0 <= d < |shape| && d !in axes ==> r[d] == shape[d]
  {
    seq(|shape|, d requires 0 <= d < |shape| =>
      match Axes.FirstIndex(axes, d)
      case Some(k) => s[k]
      case None => shape[d])
  }

  /** Basic slicing `a[:b0, :b1, ...]` of every axis. */
  function SliceShape(shape: seq<nat>, bounds: seq<nat>): (r: seq<nat>)
    requires |bounds| == |shape|
    ensures |r| == |shape|
    ensures forall d :: 0 <= d < |shape| ==> r[d] <= bounds[d] && r[d] <= shape[d]
    ensures forall d :: 0 <= d < |shape| ==> r[d] == bounds[d] || r[d] == shape[d]
  {
    seq(|shape|, d requires 0 <= d < |shape| => if shape[d] <= bounds[d] then shape[d] else bounds[d])
  }

  function Max(a: nat, b: nat): nat
  {
    if a >= b then a else b
  }

  /** `fftngrad(ans, x, s, axes)`: the upstream gradient g has the shape of
      `ans`; it is transformed to the elementwise maximum of the input and
      output sizes on the transformed axes and then sliced to the input's
      shape. Returns (g_s, shape of the gradient). */
  function FftnGrad(xshape: seq<nat>, s: seq<nat>, axes: seq<nat>): (r: (seq<nat>, seq<nat>))
    requires |s| == |axes|
    requires forall k :: 0 <= k < |axes| ==> axes[k] < |xshape|
    ensures |r.0| == |axes|
    ensures forall k :: 0 <= k < |axes| ==>
              r.0[k] >= xshape[axes[k]] && r.0[k] >= FftnShape(xshape, s, axes)[axes[k]] &&
              (r.0[k] == xshape[axes[k]] || r.0[k] == FftnShape(xshape, s, axes)[axes[k]])
  {
    var ans := FftnShape(xshape, s, axes);
    var gs := seq(|axes|, k requires 0 <= k < |axes| => Max(xshape[axes[k]], ans[axes[k]]));
    (gs, SliceShape(FftnShape(ans, gs, axes), xshape))
  }

  /** The gradient of `fftn` always has exactly the input's shape: the
      transformed axes are padded to at least the input size before the
      slice, and the other axes never changed. */
  lemma FftnGradHasInputShape(xshape: seq<nat>, s: seq<nat>, axes: seq<nat>)
    requires |s| == |axes|
    requires forall k :: 0 <= k < |axes| ==> axes[k] < |xshape|
    ensures FftnGrad(xshape, s, axes).1 == xshape
  {
    var ans := FftnShape(xshape, s, axes);
    var (gs, gshape) := FftnGrad(xshape, s, axes);
    var padded := FftnShape(ans, gs, axes);
    forall d | 0 <= d < |xshape|
      ensures gshape[d] == xshape[d]
    {
      match Axes.FirstIndex(axes, d)
      case Some(k) =>
        assert padded[d] == gs[k];
      case None =>
        assert padded[d] == ans[d] == xshape[d];
    }
  }

  datatype SpectralError =
    | MissingFromInputs    // the assertion on fft_labels
    | MissingFromOutput    // out_labels.index raises ValueError
    | EmptyTransform       // numpy refuses a transform length below 1
    | BadOutputLabels      // np.einsum refuses a repeated or unknown output label
    | SizeMismatch         // np.einsum refuses operand sizes it cannot match

  /** Shapes chosen by `fft_einsum`: the linear-convolution length and the
      padded transform length per spectral label, and the shape of the
      returned (sliced) result. */
  datatype FftPlan = FftPlan(linear: seq<int>, padded: seq<int>, outShape: seq<int>)

  /** The least regular number at or above t, found by counting up from t
      towards a regular bound. */
  ghost function LeastRegularBelow(t: int, bound: int): (p: int)
    requires 1 <= t <= bound && IsRegular(bound)
    ensures LeastRegularAtLeast(p, t)
    decreases bound - t
  {
    if IsRegular(t) then t else LeastRegularBelow(t + 1, bound)
  }

  /** The least regular number at or above t: what `_next_regular` returns
      for t >= 1. A power of two at or above t bounds the search. */
  ghost function LeastRegular(t: int): (p: nat)
    requires t >= 1
    ensures LeastRegularAtLeast(p, t)
  {
    BitLengthBounds(t);
    SmoothIsRegular(BitLength(t), 0, 0);
    assert Smooth(BitLength(t), 0, 0) == Pow(2, BitLength(t));
    LeastRegularBelow(t, Pow(2, BitLength(t)))
  }

  lemma LeastRegularUnique(p: int, q: int, t: int)
    requires LeastRegularAtLeast(p, t) && LeastRegularAtLeast(q, t)
    ensures p == q
  {
  }

  /** `size1 + size2 - 1` for spectral label j. */
  function LinearLength<L(==)>(shape1: seq<nat>, labels1: seq<L>, shape2: seq<nat>, labels2: seq<L>, l: L): int
    requires |shape1| == |labels1| && |shape2| == |labels2|
    requires l in labels1 && l in labels2
  {
    (shape1[Axes.FirstIndex(labels1, l).value] as int) + shape2[Axes.FirstIndex(labels2, l).value] - 1
  }

  predicate SpectralLabelsPresent<L(==)>(labels1: seq<L>, labels2: seq<L>, fftLabels: seq<L>)
  {
    forall l :: l in fftLabels ==> l in labels1 && l in labels2
  }

  predicate ValidOutput<L(==)>(labels1: seq<L>, labels2: seq<L>, outLabels: seq<L>)
  {
    Einsum.NoDup(outLabels) && forall l :: l in outLabels ==> l in labels1 || l in labels2
  }

  predicate TransformsNonEmpty<L(==)>(shape1: seq<nat>, labels1: seq<L>, shape2: seq<nat>, labels2: seq<L>,
                                      fftLabels: seq<L>)
    requires |shape1| == |labels1| && |shape2| == |labels2|
    requires SpectralLabelsPresent(labels1, labels2, fftLabels)
  {
    forall l :: l in fftLabels ==> LinearLength(shape1, labels1, shape2, labels2, l) >= 1
  }

  // ---------------------------------------------------------------------
  // np.einsum's size rules

  /** Two sizes of one label in different operands can be matched: equal, or
      one of them 1 and broadcast. */
  predicate Broadcastable(d1: nat, d2: nat)
  {
    d1 == d2 || d1 == 1 || d2 == 1
  }

  function Broadcast(d1: nat, d2: nat): nat
  {
    if d1 == 1 then d2 else d1
  }

  /** The size checks np.einsum makes: within one operand a repeated label
      has one size, and across the operands a shared label has broadcastable
      sizes. */
  predicate EinsumSizesAgree<L(==)>(s1: seq<nat>, labels1: seq<L>, s2: seq<nat>, labels2: seq<L>)
    requires |s1| == |labels1| && |s2| == |labels2|
  {
    (forall i, j :: 0 <= i < j < |labels1| && labels1[i] == labels1[j] ==> s1[i] == s1[j]) &&
    (forall i, j :: 0 <= i < j < |labels2| && labels2[i] == labels2[j] ==> s2[i] == s2[j]) &&
    (forall i, j :: 0 <= i < |labels1| && 0 <= j < |labels2| && labels1[i] == labels2[j] ==>
       Broadcastable(s1[i], s2[j]))
  }

  /** The size of label l in np.einsum's result: the broadcast size when both
      operands carry it, otherwise the size in the operand that does. */
  function EinsumSize<L(==)>(s1: seq<nat>, labels1: seq<L>, s2: seq<nat>, labels2: seq<L>, l: L): nat
    requires |s1| == |labels1| && |s2| == |labels2|
    requires l in labels1 || l in labels2
  {
    match Axes.FirstIndex(labels1, l)
    case Some(i) =>
      (match Axes.FirstIndex(labels2, l)
       case Some(j) => Broadcast(s1[i], s2[j])
       case None => s1[i])
    case None => s2[Axes.FirstIndex(labels2, l).value]
  }

  // ---------------------------------------------------------------------
  // The operands after `fftn`

  /** `[lab.index(l) for l in fft_labels]`: the first axis of each spectral
      label. */
  function SpectralAxes<L(==)>(labels: seq<L>, fftLabels: seq<L>): (idx: seq<nat>)
    requires forall l :: l in fftLabels ==> l in labels
    ensures |idx| == |fftLabels|
    ensures forall j :: 0 <= j < |fftLabels| ==> idx[j] == Axes.FirstIndex(labels, fftLabels[j]).value
  {
    seq(|fftLabels|, j requires 0 <= j < |fftLabels| => Axes.FirstIndex(labels, fftLabels[j]).value)
  }

  /** The shape of `fftn(in, fshape, fft_idx)`, the operand np.einsum sees. */
  function TransformedShape<L(==)>(shape: seq<nat>, labels: seq<L>, fftLabels: seq<L>, padded: seq<nat>)
    : (s: seq<nat>)
    requires |shape| == |labels| && |padded| == |fftLabels|
    requires forall l :: l in fftLabels ==> l in labels
    ensures |s| == |shape|
  {
    FftnShape(shape, padded, SpectralAxes(labels, fftLabels))
  }

  /** The transform lengths `fshape`: `_next_regular` of each linear length. */
  ghost function Padding<L>(shape1: seq<nat>, labels1: seq<L>, shape2: seq<nat>, labels2: seq<L>,
                                fftLabels: seq<L>): (ps: seq<nat>)
    requires |shape1| == |labels1| && |shape2| == |labels2|
    requires SpectralLabelsPresent(labels1, labels2, fftLabels)
    requires TransformsNonEmpty(shape1, labels1, shape2, labels2, fftLabels)
    ensures |ps| == |fftLabels|
  {
    seq(|fftLabels|, j requires 0 <= j < |fftLabels| =>
          LeastRegular(LinearLength(shape1, labels1, shape2, labels2, fftLabels[j])))
  }

  /** np.einsum accepts the two transformed operands. */
  ghost predicate EinsumAccepts<L>(shape1: seq<nat>, labels1: seq<L>, shape2: seq<nat>, labels2: seq<L>,
                                       fftLabels: seq<L>)
    requires |shape1| == |labels1| && |shape2| == |labels2|
    requires SpectralLabelsPresent(labels1, labels2, fftLabels)
    requires TransformsNonEmpty(shape1, labels1, shape2, labels2, fftLabels)
  {
    var ps := Padding(shape1, labels1, shape2, labels2, fftLabels);
    EinsumSizesAgree(TransformedShape(shape1, labels1, fftLabels, ps), labels1,
                     TransformedShape(shape2, labels2, fftLabels, ps), labels2)
  }

  /** `fftn` leaves every axis of a non-spectral label as it was. */
  lemma TransformedKeepsOthers<L>(shape: seq<nat>, labels: seq<L>, fftLabels: seq<L>, padded: seq<nat>, i: nat)
    requires |shape| == |labels| && |padded| == |fftLabels|
    requires forall l :: l in fftLabels ==> l in labels
    requires i < |labels| && labels[i] !in fftLabels
    ensures TransformedShape(shape, labels, fftLabels, padded)[i] == shape[i]
  {
    var idx := SpectralAxes(labels, fftLabels);
    forall j | 0 <= j < |idx|
      ensures idx[j] != i
    {
      assert labels[idx[j]] == fftLabels[j];
    }
  }

  /** `fftn` sets the first axis of spectral label k (listed first at k) to
      its padded length. */
  lemma TransformedSetsSpectral<L>(shape: seq<nat>, labels: seq<L>, fftLabels: seq<L>, padded: seq<nat>, k: nat)
    requires |shape| == |labels| && |padded| == |fftLabels|
    requires forall l :: l in fftLabels ==> l in labels
    requires k < |fftLabels| && Axes.FirstIndex(fftLabels, fftLabels[k]) == Some(k)
    ensures TransformedShape(shape, labels, fftLabels, padded)[Axes.FirstIndex(labels, fftLabels[k]).value]
            == padded[k]
  {
    var idx := SpectralAxes(labels, fftLabels);
    var k' := Axes.FirstIndex(idx, idx[k]).value;
    assert labels[idx[k']] == fftLabels[k'] && labels[idx[k]] == fftLabels[k];
    assert k' <= k;
    assert Axes.FirstIndex(idx, idx[k]) == Some(k);
  }

  /** The non-spectral sizes np.einsum checks are the operands' own: a
      shared non-spectral label must have equal sizes or size 1 on one side,
      and a non-spectral label repeated in one operand must have one size
      there, or the contraction fails. */
  lemma SharedSizesMustBroadcast<L>(shape1: seq<nat>, labels1: seq<L>, shape2: seq<nat>, labels2: seq<L>,
                                    fftLabels: seq<L>)
    requires |shape1| == |labels1| && |shape2| == |labels2|
    requires SpectralLabelsPresent(labels1, labels2, fftLabels)
    requires TransformsNonEmpty(shape1, labels1, shape2, labels2, fftLabels)
    requires EinsumAccepts(shape1, labels1, shape2, labels2, fftLabels)
    ensures forall i, j :: (0 <= i < |labels1| && 0 <= j < |labels2| && labels1[i] == labels2[j] &&
                            labels1[i] !in fftLabels) ==> Broadcastable(shape1[i], shape2[j])
    ensures forall i, j :: 0 <= i < j < |labels1| && labels1[i] == labels1[j] && labels1[i] !in fftLabels ==>
              shape1[i] == shape1[j]
    ensures forall i, j :: 0 <= i < j < |labels2| && labels2[i] == labels2[j] && labels2[i] !in fftLabels ==>
              shape2[i] == shape2[j]
  {
    var ps := Padding(shape1, labels1, shape2, labels2, fftLabels);
    var t1 := TransformedShape(shape1, labels1, fftLabels, ps);
    var t2 := TransformedShape(shape2, labels2, fftLabels, ps);
    forall i | 0 <= i < |labels1| && labels1[i] !in fftLabels
      ensures t1[i] == shape1[i]
    {
      TransformedKeepsOthers(shape1, labels1, fftLabels, ps, i);
    }
    forall j | 0 <= j < |labels2| && labels2[j] !in fftLabels
      ensures t2[j] == shape2[j]
    {
      TransformedKeepsOthers(shape2, labels2, fftLabels, ps, j);
    }
  }

  /** A shared non-spectral label of sizes 2 and 3 makes the contraction
      fail: labels [a, f] on shapes (2, 3) and (3, 3), convolving over f. */
  lemma MismatchedSharedLabelRejected(a: int, f: int)
    requires a != f
    ensures SpectralLabelsPresent([a, f], [a, f], [f])
    ensures TransformsNonEmpty([2, 3], [a, f], [3, 3], [a, f], [f])
    ensures !EinsumAccepts([2, 3], [a, f], [3, 3], [a, f], [f])
  {
    assert Axes.FirstIndex([a, f], f) == Some(1);
    assert [a, f][0] == a && a !in [f];
    if EinsumAccepts([2, 3], [a, f], [3, 3], [a, f], [f]) {
      SharedSizesMustBroadcast([2, 3], [a, f], [3, 3], [a, f], [f]);
      assert false;
    }
  }

  /** `fft_einsum(in1, labels1, in2, labels2, out_labels, fft_labels)` on
      shapes. Each spectral label gets the linear-convolution length
      size1 + size2 - 1 and a transform length rounded up to the next regular
      number; np.einsum must accept the transformed operands; every spectral
      output axis is sliced back to its linear length, and every other output
      axis has np.einsum's (broadcast) size. */
  method FftEinsumPlan<L(==)>(shape1: seq<nat>, labels1: seq<L>, shape2: seq<nat>, labels2: seq<L>,
                              outLabels: seq<L>, fftLabels: seq<L>)
    returns (r: Result<FftPlan, SpectralError>)
    requires |shape1| == |labels1| && |shape2| == |labels2|
    ensures !SpectralLabelsPresent(labels1, labels2, fftLabels) ==> r == Failure(MissingFromInputs)
    ensures r.Success? <==>
              SpectralLabelsPresent(labels1, labels2, fftLabels) &&
              (forall l :: l in fftLabels ==> l in outLabels) &&
              TransformsNonEmpty(shape1, labels1, shape2, labels2, fftLabels) &&
              ValidOutput(labels1, labels2, outLabels) &&
              EinsumAccepts(shape1, labels1, shape2, labels2, fftLabels)
    ensures r.Success? ==>
              |r.value.linear| == |fftLabels| && |r.value.padded| == |fftLabels| &&
              forall j :: 0 <= j < |fftLabels| ==>
                r.value.linear[j] == LinearLength(shape1, labels1, shape2, labels2, fftLabels[j]) &&
                LeastRegularAtLeast(r.value.padded[j], r.value.linear[j])
    ensures r.Success? ==>
              |r.value.outShape| == |outLabels| &&
              forall p :: 0 <= p < |outLabels| ==>
                r.value.outShape[p] ==
                  if outLabels[p] in fftLabels
                  then LinearLength(shape1, labels1, shape2, labels2, outLabels[p])
                  else EinsumSize(shape1, labels1, shape2, labels2, outLabels[p])
  {
    if !SpectralLabelsPresent(labels1, labels2, fftLabels) {
      return Failure(MissingFromInputs);
    }
    if exists l :: l in fftLabels && l !in outLabels {
      return Failure(MissingFromOutput);
    }
    var linear := seq(|fftLabels|, j requires 0 <= j < |fftLabels| =>
                        LinearLength(shape1, labels1, shape2, labels2, fftLabels[j]));
    if j :| 0 <= j < |fftLabels| && linear[j] < 1 {
      assert LinearLength(shape1, labels1, shape2, labels2, fftLabels[j]) < 1;
      return Failure(EmptyTransform);
    }
    assert TransformsNonEmpty(shape1, labels1, shape2, labels2, fftLabels) by {
      forall l | l in fftLabels
        ensures LinearLength(shape1, labels1, shape2, labels2, l) >= 1
      {
        var j :| 0 <= j < |fftLabels| && fftLabels[j] == l;
        assert linear[j] >= 1;
      }
    }
    var padded := PadAll(linear);
    if !ValidOutput(labels1, labels2, outLabels) {
      return Failure(BadOutputLabels);
    }
    var fshape := seq(|padded|, j requires 0 <= j < |padded| => padded[j] as nat);
    ghost var ps := Padding(shape1, labels1, shape2, labels2, fftLabels);
    forall j | 0 <= j < |fftLabels|
      ensures fshape[j] == ps[j]
    {
      LeastRegularUnique(padded[j], ps[j], linear[j]);
    }
    assert fshape == ps;
    var t1 := TransformedShape(shape1, labels1, fftLabels, fshape);
    var t2 := TransformedShape(shape2, labels2, fftLabels, fshape);
    if !EinsumSizesAgree(t1, labels1, t2, labels2) {
      return Failure(SizeMismatch);
    }
    var outShape := SlicedShape(t1, labels1, t2, labels2, outLabels, fftLabels, linear);
    SlicedShapeOfPlan(shape1, labels1, shape2, labels2, outLabels, fftLabels, fshape);
    r := Success(FftPlan(linear, padded, outShape));
  }

  /** The `_next_regular` padding of every linear-convolution length. */
  method PadAll(linear: seq<int>) returns (padded: seq<int>)
    requires forall k :: 0 <= k < |linear| ==> linear[k] >= 1
    ensures |padded| == |linear|
    ensures forall k :: 0 <= k < |linear| ==> LeastRegularAtLeast(padded[k], linear[k])
  {
    padded := [];
    var j := 0;
    while j < |linear|
      invariant 0 <= j <= |linear| && |padded| == j
      invariant forall k :: 0 <= k < j ==> LeastRegularAtLeast(padded[k], linear[k])
    {
      var p := NextRegular(linear[j]);
      padded := padded + [p];
      j := j + 1;
    }
  }

  /** The contraction's output axes, each spectral axis then sliced with
      `[:linear]` (`out_slice`). */
  function SlicedShape<L(==)>(t1: seq<nat>, labels1: seq<L>, t2: seq<nat>, labels2: seq<L>,
                              outLabels: seq<L>, fftLabels: seq<L>, linear: seq<int>)
    : (outShape: seq<int>)
    requires |t1| == |labels1| && |t2| == |labels2| && |linear| == |fftLabels|
    requires ValidOutput(labels1, labels2, outLabels)
    ensures |outShape| == |outLabels|
  {
    seq(|outLabels|, p requires 0 <= p < |outLabels| =>
          var full := EinsumSize(t1, labels1, t2, labels2, outLabels[p]);
          match Axes.FirstIndex(fftLabels, outLabels[p])
          case Some(k) => if full <= linear[k] then full else linear[k]
          case None => full)
  }

  /** With both operands transformed to transform lengths at least the
      linear lengths, the sliced result has the linear length on every
      spectral axis and np.einsum's size of the untransformed operands on
      every other axis. */
  lemma SlicedShapeOfPlan<L>(shape1: seq<nat>, labels1: seq<L>, shape2: seq<nat>, labels2: seq<L>,
                             outLabels: seq<L>, fftLabels: seq<L>, padded: seq<nat>)
    requires |shape1| == |labels1| && |shape2| == |labels2| && |padded| == |fftLabels|
    requires SpectralLabelsPresent(labels1, labels2, fftLabels) && ValidOutput(labels1, labels2, outLabels)
    requires forall j :: 0 <= j < |fftLabels| ==> padded[j] >= LinearLength(shape1, labels1, shape2, labels2, fftLabels[j])
    ensures var linear := seq(|fftLabels|, j requires 0 <= j < |fftLabels| =>
                                LinearLength(shape1, labels1, shape2, labels2, fftLabels[j]));
            var out := SlicedShape(TransformedShape(shape1, labels1, fftLabels, padded), labels1,
                                   TransformedShape(shape2, labels2, fftLabels, padded), labels2,
                                   outLabels, fftLabels, linear);
            forall p :: 0 <= p < |outLabels| ==>
              out[p] == if outLabels[p] in fftLabels
                        then LinearLength(shape1, labels1, shape2, labels2, outLabels[p])
                        else EinsumSize(shape1, labels1, shape2, labels2, outLabels[p])
  {
    var linear := seq(|fftLabels|, j requires 0 <= j < |fftLabels| =>
                        LinearLength(shape1, labels1, shape2, labels2, fftLabels[j]));
    var t1 := TransformedShape(shape1, labels1, fftLabels, padded);
    var t2 := TransformedShape(shape2, labels2, fftLabels, padded);
    var out := SlicedShape(t1, labels1, t2, labels2, outLabels, fftLabels, linear);
    forall p | 0 <= p < |outLabels|
      ensures out[p] == if outLabels[p] in fftLabels
                        then LinearLength(shape1, labels1, shape2, labels2, outLabels[p])
                        else EinsumSize(shape1, labels1, shape2, labels2, outLabels[p])
    {
      var l := outLabels[p];
      if l in fftLabels {
        var k := Axes.FirstIndex(fftLabels, l).value;
        SpectralEinsumSize(shape1, labels1, shape2, labels2, fftLabels, padded, k);
        assert linear[k] == LinearLength(shape1, labels1, shape2, labels2, l);
      } else {
        OtherEinsumSize(shape1, labels1, shape2, labels2, fftLabels, padded, l);
      }
    }
  }

  /** A spectral label has its padded length in both transformed operands. */
  lemma SpectralEinsumSize<L>(shape1: seq<nat>, labels1: seq<L>, shape2: seq<nat>, labels2: seq<L>,
                              fftLabels: seq<L>, padded: seq<nat>, k: nat)
    requires |shape1| == |labels1| && |shape2| == |labels2| && |padded| == |fftLabels|
    requires SpectralLabelsPresent(labels1, labels2, fftLabels)
    requires k < |fftLabels| && Axes.FirstIndex(fftLabels, fftLabels[k]) == Some(k)
    ensures EinsumSize(TransformedShape(shape1, labels1, fftLabels, padded), labels1,
                       TransformedShape(shape2, labels2, fftLabels, padded), labels2, fftLabels[k]) == padded[k]
  {
    TransformedSetsSpectral(shape1, labels1, fftLabels, padded, k);
    TransformedSetsSpectral(shape2, labels2, fftLabels, padded, k);
  }

  /** A non-spectral label has the same einsum size before and after the
      transforms. */
  lemma OtherEinsumSize<L>(shape1: seq<nat>, labels1: seq<L>, shape2: seq<nat>, labels2: seq<L>,
                           fftLabels: seq<L>, padded: seq<nat>, l: L)
    requires |shape1| == |labels1| && |shape2| == |labels2| && |padded| == |fftLabels|
    requires SpectralLabelsPresent(labels1, labels2, fftLabels)
    requires (l in labels1 || l in labels2) && l !in fftLabels
    ensures EinsumSize(TransformedShape(shape1, labels1, fftLabels, padded), labels1,
                       TransformedShape(shape2, labels2, fftLabels, padded), labels2, l)
            == EinsumSize(shape1, labels1, shape2, labels2, l)
  {
    if l in labels1 {
      TransformedKeepsOthers(shape1, labels1, fftLabels, padded, Axes.FirstIndex(labels1, l).value);
    }
    if l in labels2 {
      TransformedKeepsOthers(shape2, labels2, fftLabels, padded, Axes.FirstIndex(labels2, l).value);
    }
  }
}
