/** Label and shape logic of `swapaxes` and `sum_antidiagonals`
    (math_functions.py). A tensor is represented here by its shape, one
    size per axis, next to its label list. */
module Axes {
  import opened Wrappers

  /** Exchange positions i and j (`np.swapaxes`, or the tuple swap on a
      Python list). */
  function Swap<X>(s: seq<X>, i: nat, j: nat): (r: seq<X>)
    requires i < |s| && j < |s|
    ensures |r| == |s| && r[i] == s[j] && r[j] == s[i]
    ensures forall k :: 0 <= k < |s| && k != i && k != j ==> r[k] == s[k]
  {
    s[i := s[j]][j := s[i]]
  }

  /** Swapping the same two axes twice is the identity, which is why
      `swapaxes` is its own gradient rule. */
  lemma SwapInvolution<X>(s: seq<X>, i: nat, j: nat)
    requires i < |s| && j < |s|
    ensures Swap(Swap(s, i, j), i, j) == s
  {
    assert forall k :: 0 <= k < |s| ==> Swap(Swap(s, i, j), i, j)[k] == s[k];
  }

  /** `list.index`: the first position holding x, None when absent
      (Python raises ValueError). */
  function FirstIndex<X(==)>(s: seq<X>, x: X): (r: Option<nat>)
    ensures r.None? <==> x !in s
    ensures r.Some? ==> r.value < |s| && s[r.value] == x
    ensures r.Some? ==> forall k :: 0 <= k < r.value ==> s[k] != x
  {
    if |s| == 0 then None
    else if s[0] == x then Some(0)
    else match FirstIndex(s[1..], x)
      case None => None
      case Some(k) => Some(k + 1)
  }

  /** Number of offsets in `range(-s0 + 1, s1)`, i.e. of antidiagonals. */
  function AntidiagonalCount(s0: int, s1: int): nat
  {
    if s0 + s1 - 1 > 0 then s0 + s1 - 1 else 0
  }

  datatype AntidiagonalError = SameAxis | MissingLabel

  /** One axis: its size and its label. */
  datatype Axis<L> = Axis(size: nat, name: L)

  /** The label list of a tensor. */
  function Names<L>(axes: seq<Axis<L>>): (ls: seq<L>)
    ensures |ls| == |axes| && forall k :: 0 <= k < |axes| ==> ls[k] == axes[k].name
  {
    seq(|axes|, k requires 0 <= k < |axes| => axes[k].name)
  }

  predicate HasAxis<L(==)>(axes: seq<Axis<L>>, l: L)
  {
    exists k :: 0 <= k < |axes| && axes[k].name == l
  }

  /** The two transpositions the source applies, first (i0, 0) and then
      (i1, 1), with i1 the position of axis1 in the ORIGINAL list. */
  function Transpose<X>(s: seq<X>, i0: nat, i1: nat): (r: seq<X>)
    requires |s| >= 2 && i0 < |s| && i1 < |s|
    ensures |r| == |s|
  {
    Swap(Swap(s, i0, 0), i1, 1)
  }

  function Zip<L>(shape: seq<nat>, labels: seq<L>): (r: seq<Axis<L>>)
    requires |shape| == |labels|
    ensures |r| == |shape|
    ensures forall k :: 0 <= k < |r| ==> r[k] == Axis(shape[k], labels[k])
  {
    seq(|shape|, k requires 0 <= k < |shape| => Axis(shape[k], labels[k]))
  }

  /** The array shape and the label list `sum_antidiagonals` returns. The
      two are computed separately in the source, so nothing forces them to
      have the same length. */
  datatype Collapsed<L> = Collapsed(shape: seq<nat>, labels: seq<L>)

  /** The size list of a tensor. */
  function Sizes<L>(axes: seq<Axis<L>>): (ss: seq<nat>)
    ensures |ss| == |axes| && forall k :: 0 <= k < |axes| ==> ss[k] == axes[k].size
  {
    seq(|axes|, k requires 0 <= k < |axes| => axes[k].size)
  }

  /** `sum_antidiagonals(arr, labels, axis0, axis1, new_axis)` on the shape
      of `arr` and on `labels`: the two leading axes after the transpositions
      are collapsed into one axis of `AntidiagonalCount` sums, labelled
      `new_axis`. With no antidiagonal at all, `np.array([])` is a 1-D empty
      array, so the other axes disappear from the shape (not from the
      labels). */
  function SumAntidiagonals<L(==)>(axes: seq<Axis<L>>, axis0: L, axis1: L, newAxis: L)
    : (r: Result<Collapsed<L>, AntidiagonalError>)
    ensures r.Success? <==> axis0 != axis1 && HasAxis(axes, axis0) && HasAxis(axes, axis1)
  {
    var labels := Names(axes);
    if axis0 == axis1 then Failure(SameAxis)
    else
      match (FirstIndex(labels, axis0), FirstIndex(labels, axis1))
      case (Some(i0), Some(i1)) =>
        var t := Transpose(axes, i0, i1);
        var n := AntidiagonalCount(t[0].size, t[1].size);
        Success(Collapsed(if n == 0 then [0] else [n] + Sizes(t[2..]), [newAxis] + Names(t[2..])))
      case (None, _) =>
        assert forall k :: 0 <= k < |axes| ==> labels[k] == axes[k].name;
        Failure(MissingLabel)
      case (_, None) =>
        assert forall k :: 0 <= k < |axes| ==> labels[k] == axes[k].name;
        Failure(MissingLabel)
  }

  /** On success the label list loses one entry and the new label leads,
      followed by the labels the two transpositions leave behind. When the
      two collapsed axes have at least one antidiagonal, the shape is the
      count followed by the sizes those same transpositions leave behind, so
      labels stay aligned with the array axes; when they have none, the
      shape is `(0,)`, and it agrees with the labels in length exactly when
      nothing else was left. */
  lemma SumAntidiagonalsShape<L>(shape: seq<nat>, labels: seq<L>, axis0: L, axis1: L, newAxis: L)
    requires |shape| == |labels|
    requires SumAntidiagonals(Zip(shape, labels), axis0, axis1, newAxis).Success?
    ensures var r := SumAntidiagonals(Zip(shape, labels), axis0, axis1, newAxis).value;
            var i0 := FirstIndex(labels, axis0).value;
            var i1 := FirstIndex(labels, axis1).value;
            var ts := Transpose(shape, i0, i1);
            var tl := Transpose(labels, i0, i1);
            var n := AntidiagonalCount(ts[0], ts[1]);
            |labels| >= 2 &&
            r.labels == [newAxis] + tl[2..] &&
            (n > 0 ==> r.shape == [n] + ts[2..]) &&
            (n == 0 ==> r.shape == [0]) &&
            (|r.shape| == |r.labels| <==> n > 0 || |labels| == 2)
  {
    var axes := Zip(shape, labels);
    NamesOfZip(shape, labels);
    var i0 := FirstIndex(labels, axis0).value;
    var i1 := FirstIndex(labels, axis1).value;
    var ts := Transpose(shape, i0, i1);
    var tl := Transpose(labels, i0, i1);
    TransposeZip(shape, labels, i0, i1);
    var t := Transpose(axes, i0, i1);
    assert t == Zip(ts, tl);
    assert Sizes(t[2..]) == ts[2..];
    assert Names(t[2..]) == tl[2..];
  }

  lemma NamesOfZip<L>(shape: seq<nat>, labels: seq<L>)
    requires |shape| == |labels|
    ensures Names(Zip(shape, labels)) == labels
  {
  }

  /** Transposing the axes transposes sizes and labels alike. */
  lemma TransposeZip<L>(shape: seq<nat>, labels: seq<L>, i0: nat, i1: nat)
    requires |shape| == |labels| >= 2 && i0 < |shape| && i1 < |shape|
    ensures Transpose(Zip(shape, labels), i0, i1) == Zip(Transpose(shape, i0, i1), Transpose(labels, i0, i1))
  {
    var a := Swap(Zip(shape, labels), i0, 0);
    assert a == Zip(Swap(shape, i0, 0), Swap(labels, i0, 0));
    assert Swap(a, i1, 1) == Zip(Swap(Swap(shape, i0, 0), i1, 1), Swap(Swap(labels, i0, 0), i1, 1));
  }

  /** When axis1 is at position 0 it is NOT collapsed: for labels
      [b, x, a] with axis0 = a and axis1 = b the source sums over the axes
      labelled x and a and keeps b. */
  lemma AxisOneAtFrontSurvives(b: int, x: int, a: int, newAxis: int)
    requires b != x && x != a && a != b
    ensures SumAntidiagonals([Axis(2, b), Axis(3, x), Axis(4, a)], a, b, newAxis)
            == Success(Collapsed([6, 2], [newAxis, b]))
  {
    var axes := [Axis(2, b), Axis(3, x), Axis(4, a)];
    var labels := Names(axes);
    assert labels == [b, x, a];
    assert labels[1..][1..] == [a];
    assert FirstIndex(labels[1..][1..], a) == Some(0);
    assert FirstIndex(labels, a) == Some(2);
    assert FirstIndex(labels, b) == Some(0);
    var t := Transpose(axes, 2, 0);
    assert t == [Axis(3, x), Axis(4, a), Axis(2, b)];
    assert t[2..] == [Axis(2, b)];
    assert Sizes(t[2..]) == [2] && Names(t[2..]) == [b];
    assert AntidiagonalCount(t[0].size, t[1].size) == 6;
    assert [6] + Sizes(t[2..]) == [6, 2] && [newAxis] + Names(t[2..]) == [newAxis, b];
  }

  /** The leftover labels are not kept in their order: [x, a, y, b]
      collapsing a and b gives [new, y, x]. */
  lemma LeftoverOrderNotKept(x: int, a: int, y: int, b: int, newAxis: int)
    requires x != a && x != y && x != b && a != y && a != b && y != b
    ensures SumAntidiagonals([Axis(1, x), Axis(2, a), Axis(3, y), Axis(4, b)], a, b, newAxis)
            == Success(Collapsed([5, 3, 1], [newAxis, y, x]))
  {
    var axes := [Axis(1, x), Axis(2, a), Axis(3, y), Axis(4, b)];
    var labels := Names(axes);
    assert labels == [x, a, y, b];
    assert labels[1..] == [a, y, b];
    assert FirstIndex(labels[1..], a) == Some(0);
    assert FirstIndex(labels, a) == Some(1);
    assert labels[1..][1..][1..] == [b];
    assert FirstIndex(labels[1..][1..][1..], b) == Some(0);
    assert FirstIndex(labels[1..][1..], b) == Some(1);
    assert FirstIndex(labels, b) == Some(3);
    var t := Transpose(axes, 1, 3);
    assert t == [Axis(2, a), Axis(4, b), Axis(3, y), Axis(1, x)];
    assert t[2..] == [Axis(3, y), Axis(1, x)];
    assert Sizes(t[2..]) == [3, 1] && Names(t[2..]) == [y, x];
    assert AntidiagonalCount(t[0].size, t[1].size) == 5;
    assert [5] + Sizes(t[2..]) == [5, 3, 1] && [newAxis] + Names(t[2..]) == [newAxis, y, x];
  }

  /** Two empty collapsed axes leave no antidiagonal, and the remaining axes
      vanish from the shape while their labels stay: shape (0, 0, 5) with
      labels [a, b, c] gives shape (0,) but labels [new, c]. */
  lemma EmptyAntidiagonalsDropAxes(a: int, b: int, c: int, newAxis: int)
    requires a != b && b != c && a != c
    ensures SumAntidiagonals([Axis(0, a), Axis(0, b), Axis(5, c)], a, b, newAxis)
            == Success(Collapsed([0], [newAxis, c]))
  {
    var axes := [Axis(0, a), Axis(0, b), Axis(5, c)];
    var labels := Names(axes);
    assert labels == [a, b, c];
    assert labels[1..] == [b, c];
    assert FirstIndex(labels[1..], b) == Some(0);
    assert FirstIndex(labels, b) == Some(1);
    assert FirstIndex(labels, a) == Some(0);
    var t := Transpose(axes, 0, 1);
    assert t == axes;
    assert t[2..] == [Axis(5, c)];
    assert Names(t[2..]) == [c];
    assert AntidiagonalCount(t[0].size, t[1].size) == 0;
    assert [newAxis] + Names(t[2..]) == [newAxis, c];
  }

  /** The evidently intended version: the second transposition uses the
      position axis1 has AFTER the first one, so the two collapsed axes are
      always exactly axis0 and axis1; and the result keeps one (size, label)
      pair per remaining axis, so an empty antidiagonal count gives shape
      (0, ...) with the other axes intact. */
  function SumAntidiagonalsFixed<L(==)>(axes: seq<Axis<L>>, axis0: L, axis1: L, newAxis: L)
    : (r: Result<seq<Axis<L>>, AntidiagonalError>)
    ensures r.Success? <==> axis0 != axis1 && HasAxis(axes, axis0) && HasAxis(axes, axis1)
  {
    var labels := Names(axes);
    if axis0 == axis1 then Failure(SameAxis)
    else
      match (FirstIndex(labels, axis0), FirstIndex(labels, axis1))
      case (Some(i0), Some(i1)) =>
        var s := Swap(axes, i0, 0);
        var j1 := if i1 == 0 then i0 else i1;
        var t := Swap(s, j1, 1);
        Success([Axis(AntidiagonalCount(t[0].size, t[1].size), newAxis)] + t[2..])
      case (None, _) =>
        assert forall k :: 0 <= k < |axes| ==> labels[k] == axes[k].name;
        Failure(MissingLabel)
      case (_, None) =>
        assert forall k :: 0 <= k < |axes| ==> labels[k] == axes[k].name;
        Failure(MissingLabel)
  }

  /** With the fix, the collapsed axes are the first axis labelled axis0 and
      the first labelled axis1, and the new size counts their antidiagonals;
      every other axis survives unchanged (as a multiset of axes). */
  lemma FixedCollapsesNamedAxes<L>(axes: seq<Axis<L>>, axis0: L, axis1: L, newAxis: L)
    requires SumAntidiagonalsFixed(axes, axis0, axis1, newAxis).Success?
    ensures var r := SumAntidiagonalsFixed(axes, axis0, axis1, newAxis).value;
            var labels := Names(axes);
            var i0 := FirstIndex(labels, axis0).value;
            var i1 := FirstIndex(labels, axis1).value;
            |r| == |axes| - 1 &&
            r[0] == Axis(AntidiagonalCount(axes[i0].size, axes[i1].size), newAxis) &&
            multiset(r[1..]) + multiset{axes[i0], axes[i1]} == multiset(axes)
  {
    var labels := Names(axes);
    var i0 := FirstIndex(labels, axis0).value;
    var i1 := FirstIndex(labels, axis1).value;
    assert i0 != i1;
    var s := Swap(axes, i0, 0);
    var j1 := if i1 == 0 then i0 else i1;
    assert s[j1] == axes[i1];
    var t := Swap(s, j1, 1);
    assert t[0] == axes[i0] && t[1] == axes[i1];
    SwapMultiset(axes, i0, 0);
    SwapMultiset(s, j1, 1);
    SplitTwoMultiset(t);
    var r := SumAntidiagonalsFixed(axes, axis0, axis1, newAxis).value;
    assert r[1..] == t[2..];
  }

  lemma SplitTwoMultiset<X>(t: seq<X>)
    requires |t| >= 2
    ensures multiset(t[2..]) + multiset{t[0], t[1]} == multiset(t)
  {
    assert t == [t[0], t[1]] + t[2..];
  }

  lemma SwapMultiset<X>(s: seq<X>, i: nat, j: nat)
    requires i < |s| && j < |s|
    ensures multiset(Swap(s, i, j)) == multiset(s)
  {
    if i != j {
      var t := s[i := s[j]];
      assert multiset(t) == multiset(s) - multiset{s[i]} + multiset{s[j]};
      assert multiset(t[j := s[i]]) == multiset(t) - multiset{t[j]} + multiset{s[i]};
    }
  }
}
