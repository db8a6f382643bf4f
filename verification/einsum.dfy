/** Argument-list bookkeeping of `einsum2`, its gradient maker
    `make_einsum_grad`, and the gradient call built by `trace`
    (math_functions.py). The dense evaluation itself (`np.einsum`) is not
    modelled: what is modelled is the argument list handed to it. */
module Einsum {
  import opened Wrappers

  /** One positional argument: an operand tensor or a label list. */
  datatype Arg<T, L> = Operand(tensor: T) | Labels(labels: seq<L>)

  datatype EinsumError = EvenArgumentCount | GradientOfLabelList | ArgumentOutOfRange

  /** The documented calling convention
      `einsum2(op0, sublist0, op1, sublist1, ..., sublistout)`: label lists
      sit exactly at the odd positions and at the last position. */
  predicate LabelPositions<T, L>(args: seq<Arg<T, L>>)
  {
    forall i :: 0 <= i < |args| ==> (args[i].Labels? <==> (i % 2 == 1 || i == |args| - 1))
  }

  /** Every label of every label list, in argument order
      (`sum(idx_lists, [])`). */
  function AllLabels<T, L(==)>(args: seq<Arg<T, L>>): (all: seq<L>)
    ensures forall i, k :: 0 <= i < |args| && args[i].Labels? && 0 <= k < |args[i].labels| ==>
              args[i].labels[k] in all
    ensures forall l :: l in all ==>
              exists i, k :: 0 <= i < |args| && args[i].Labels? && 0 <= k < |args[i].labels| && args[i].labels[k] == l
  {
    if |args| == 0 then []
    else
      var front := AllLabels(args[..|args| - 1]);
      var last := args[|args| - 1];
      assert forall i :: 0 <= i < |args| - 1 ==> args[..|args| - 1][i] == args[i];
      if last.Labels? then front + last.labels else front
  }

  predicate NoDup<L(==)>(s: seq<L>)
  {
    forall i, j :: 0 <= i < j < |s| ==> s[i] != s[j]
  }

  /** The labels of s without repetitions, in order of first occurrence. */
  function Distinct<L(==,!new)>(s: seq<L>): (d: seq<L>)
    ensures NoDup(d)
    ensures forall x :: x in d <==> x in s
    ensures |d| <= |s|
  {
    if |s| == 0 then []
    else
      var d := Distinct(s[..|s| - 1]);
      assert forall x :: x in s[..|s| - 1] ==> x in s;
      assert forall x :: x in s ==> x in s[..|s| - 1] || x == s[|s| - 1];
      if s[|s| - 1] in d then d else d + [s[|s| - 1]]
  }

  function IndexOf<L(==)>(s: seq<L>, x: L): (i: nat)
    requires x in s
    ensures i < |s| && s[i] == x
    ensures NoDup(s) ==> forall j :: 0 <= j < |s| && s[j] == x ==> j == i
  {
    if s[0] == x then 0 else 1 + IndexOf(s[1..], x)
  }

  lemma {:induction false} NoDupCardinality<L>(s: seq<L>)
    requires NoDup(s)
    ensures |set x | x in s| == |s|
  {
    if |s| > 0 {
      var front := s[..|s| - 1];
      NoDupCardinality(front);
      assert (set x | x in s) == (set x | x in front) + {s[|s| - 1]};
      assert s[|s| - 1] !in (set x | x in front);
    }
  }

  /** Position of each entry of a duplicate-free table: a bijection from the
      table's entries onto 0 .. |table| - 1. */
  function IndexMap<L(==,!new)>(table: seq<L>): (m: map<L, int>)
    requires NoDup(table)
    ensures forall l :: l in m <==> l in table
    ensures |m| == |table|
    ensures forall l :: l in m ==> 0 <= m[l] < |m| && table[m[l]] == l
    ensures forall l1, l2 :: l1 in m && l2 in m && m[l1] == m[l2] ==> l1 == l2
    ensures forall n :: 0 <= n < |table| ==> table[n] in m && m[table[n]] == n
  {
    var m := map l | l in table :: IndexOf(table, l);
    assert m.Keys == set l | l in table;
    NoDupCardinality(table);
    m
  }

  /** The distinct labels of one call, each once. */
  function Table<T, L(==,!new)>(args: seq<Arg<T, L>>): (t: seq<L>)
    ensures NoDup(t)
    ensures forall l :: l in t <==> l in AllLabels(args)
  {
    Distinct(AllLabels(args))
  }

  /** `idx_to_int`: a label-to-integer table local to one call. The source
      enumerates a Python set, whose order is unspecified; the model numbers
      labels by first occurrence, which the last clause states. The other
      clauses hold for every enumeration, and they are all that
      `RelabellingKeepsPattern` and `TraceGradIsOuterProduct` use. */
  function Numbering<T, L(==,!new)>(args: seq<Arg<T, L>>): (m: map<L, int>)
    ensures forall l :: l in m <==> l in AllLabels(args)
    ensures forall l :: l in m ==> 0 <= m[l] < |m|
    ensures forall l1, l2 :: l1 in m && l2 in m && m[l1] == m[l2] ==> l1 == l2
    ensures |m| == |Table(args)|
    ensures forall n :: 0 <= n < |Table(args)| ==> Table(args)[n] in m && m[Table(args)[n]] == n
  {
    IndexMap(Table(args))
  }

  function RelabelArg<T, L(==)>(a: Arg<T, L>, m: map<L, int>): Arg<T, int>
    requires a.Labels? ==> forall l :: l in a.labels ==> l in m
  {
    match a
    case Operand(t) => Operand(t)
    case Labels(ls) => Labels(seq(|ls|, k requires 0 <= k < |ls| => m[ls[k]]))
  }

  /** The argument list `einsum2` hands to `np.einsum`: operands untouched,
      each label list rewritten through the call's local numbering. An even
      argument count is rejected, as the source's assertion does. */
  function Einsum2Args<T, L(==,!new)>(args: seq<Arg<T, L>>): (r: Result<seq<Arg<T, int>>, EinsumError>)
    requires LabelPositions(args)
    ensures r.Success? <==> |args| % 2 == 1
    ensures r.Success? ==> |r.value| == |args|
    ensures r.Success? ==> forall i :: 0 <= i < |args| && args[i].Operand? ==>
              r.value[i] == Operand(args[i].tensor)
    ensures r.Success? ==> forall i :: 0 <= i < |args| && args[i].Labels? ==>
              r.value[i].Labels? && |r.value[i].labels| == |args[i].labels| &&
              forall k :: 0 <= k < |args[i].labels| ==>
                r.value[i].labels[k] == Numbering(args)[args[i].labels[k]]
  {
    if |args| % 2 != 1 then Failure(EvenArgumentCount)
    else
      var m := Numbering(args);
      Success(seq(|args|, i requires 0 <= i < |args| => RelabelArg(args[i], m)))
  }

  /** Two label occurrences anywhere in one call receive the same integer
      exactly when they are the same label; the integers used are exactly
      0 .. (number of distinct labels) - 1. */
  lemma RelabellingKeepsPattern<T, L(!new)>(args: seq<Arg<T, L>>, i: int, k: int, i': int, k': int)
    requires LabelPositions(args) && |args| % 2 == 1
    requires 0 <= i < |args| && args[i].Labels? && 0 <= k < |args[i].labels|
    requires 0 <= i' < |args| && args[i'].Labels? && 0 <= k' < |args[i'].labels|
    ensures var r := Einsum2Args(args).value;
            (r[i].labels[k] == r[i'].labels[k'] <==> args[i].labels[k] == args[i'].labels[k'])
    ensures var r := Einsum2Args(args).value;
            0 <= r[i].labels[k] < |set l | l in AllLabels(args)|
  {
    var m := Numbering(args);
    assert m.Keys == set l | l in AllLabels(args);
  }

  /** The label-list half of the gradient argument list: the output label
      list trades places with the label list of operand k. */
  function SwapOutputLabels<T, L>(args: seq<Arg<T, L>>, k: nat): (r: seq<Arg<T, L>>)
    requires k + 1 < |args|
    ensures |r| == |args|
    ensures r[|args| - 1] == args[k + 1] && r[k + 1] == args[|args| - 1]
    ensures forall i :: 0 <= i < |args| && i != k + 1 && i != |args| - 1 ==> r[i] == args[i]
  {
    args[|args| - 1 := args[k + 1]][k + 1 := args[|args| - 1]]
  }

  /** `make_einsum_grad(argnum, ans, *args)` applied to an upstream gradient
      g: the argument list of the recursive `einsum2` call. */
  function EinsumGradArgs<T, L>(argnum: nat, args: seq<Arg<T, L>>, g: T): (r: Result<seq<Arg<T, L>>, EinsumError>)
    ensures argnum % 2 == 1 ==> r == Failure(GradientOfLabelList)
    ensures r.Success? <==> argnum % 2 == 0 && argnum + 1 < |args|
    ensures r.Success? ==>
              |r.value| == |args| &&
              r.value[argnum] == Operand(g) &&
              r.value[argnum + 1] == args[|args| - 1] &&
              r.value[|args| - 1] == args[argnum + 1] &&
              forall i :: 0 <= i < |args| && i != argnum && i != argnum + 1 && i != |args| - 1 ==>
                r.value[i] == args[i]
  {
    if argnum % 2 == 1 then Failure(GradientOfLabelList)
    else if argnum + 1 >= |args| then Failure(ArgumentOutOfRange)
    else Success(SwapOutputLabels(args, argnum)[argnum := Operand(g)])
  }

  /** Swapping the output list with operand k's list twice restores the
      original argument list. */
  lemma SwapTwiceRestores<T, L>(args: seq<Arg<T, L>>, k: nat)
    requires k + 1 < |args|
    ensures SwapOutputLabels(SwapOutputLabels(args, k), k) == args
  {
    var twice := SwapOutputLabels(SwapOutputLabels(args, k), k);
    assert forall i :: 0 <= i < |args| ==> twice[i] == args[i];
  }

  /** The gradient call is itself a well-formed `einsum2` call whose output
      label list is operand k's list, so the gradient has operand k's rank. */
  lemma GradCallIsWellFormed<T, L(!new)>(argnum: nat, args: seq<Arg<T, L>>, g: T)
    requires LabelPositions(args) && |args| % 2 == 1
    requires argnum % 2 == 0 && argnum + 1 < |args|
    ensures EinsumGradArgs(argnum, args, g).Success?
    ensures var r := EinsumGradArgs(argnum, args, g).value;
            LabelPositions(r) && Einsum2Args(r).Success? &&
            r[|r| - 1] == args[argnum + 1] && r[argnum] == Operand(g) &&
            args[argnum].Operand?
  {
    var r := EinsumGradArgs(argnum, args, g).value;
    forall i | 0 <= i < |r|
      ensures r[i].Labels? <==> (i % 2 == 1 || i == |r| - 1)
    {
      if i == argnum {
      } else if i == argnum + 1 {
        assert args[|args| - 1].Labels?;
      } else if i == |args| - 1 {
        assert args[argnum + 1].Labels?;
      } else {
        assert r[i] == args[i];
      }
    }
  }

  function Range(lo: int, hi: int): (r: seq<int>)
    requires lo <= hi
    ensures |r| == hi - lo && forall i :: 0 <= i < |r| ==> r[i] == lo + i
  {
    seq(hi - lo, i requires 0 <= i < hi - lo => lo + i)
  }

  /** The gradient call of `trace(a, offset)` for an input of the given rank:
      `einsum2(eye, [0,1], g, range(2, rank), range(rank))`. */
  function TraceGradArgs<T>(eye: T, g: T, rank: nat): (r: seq<Arg<T, int>>)
    requires rank >= 2
    ensures |r| == 5 && LabelPositions(r)
  {
    [Operand(eye), Labels([0, 1]), Operand(g), Labels(Range(2, rank)), Labels(Range(0, rank))]
  }

  /** After `einsum2` relabels the trace gradient's call, it still succeeds
      with `eye` and g in place, and it is an outer product: the output
      labels are duplicate-free, one per dimension of the input, and are
      exactly `eye`'s two labels followed by g's labels. This holds whatever
      enumeration the label numbering uses. */
  lemma TraceGradIsOuterProduct<T>(eye: T, g: T, rank: nat)
    requires rank >= 2
    ensures Einsum2Args(TraceGradArgs(eye, g, rank)).Success?
    ensures var r := Einsum2Args(TraceGradArgs(eye, g, rank)).value;
            r[0] == Operand(eye) && r[2] == Operand(g) &&
            r[1].Labels? && r[3].Labels? && r[4].Labels? &&
            r[1].labels + r[3].labels == r[4].labels && |r[4].labels| == rank &&
            NoDup(r[4].labels)
  {
    var args := TraceGradArgs(eye, g, rank);
    var m := Numbering(args);
    TraceGradRelabelled(eye, g, rank);
    TraceGradLabels(rank);
    LabelsAreNumbered(args, 4);
    RelabelKeepsConcatenation(args[1].labels, args[3].labels, m);
    RelabelKeepsDistinct(args[4].labels, m);
  }

  /** The label lists of the trace gradient call: [0, 1] and range(2, rank)
      concatenate to range(rank), which has no repetition. */
  lemma TraceGradLabels(rank: nat)
    requires rank >= 2
    ensures [0, 1] + Range(2, rank) == Range(0, rank) && NoDup(Range(0, rank))
  {
    assert [0, 1] + Range(2, rank) == Range(0, rank);
  }

  /** Every label of a label-list argument has a number. */
  lemma LabelsAreNumbered<T, L(!new)>(args: seq<Arg<T, L>>, i: nat)
    requires i < |args| && args[i].Labels?
    ensures forall l :: l in args[i].labels ==> l in Numbering(args)
  {
    forall l | l in args[i].labels
      ensures l in AllLabels(args)
    {
      var k :| 0 <= k < |args[i].labels| && args[i].labels[k] == l;
    }
  }

  /** The relabelled trace gradient call, argument by argument. */
  lemma TraceGradRelabelled<T>(eye: T, g: T, rank: nat)
    requires rank >= 2
    ensures Einsum2Args(TraceGradArgs(eye, g, rank)).Success?
    ensures var args := TraceGradArgs(eye, g, rank);
            var r := Einsum2Args(args).value;
            var m := Numbering(args);
            r[0] == Operand(eye) && r[2] == Operand(g) &&
            r[1] == RelabelArg(args[1], m) && r[3] == RelabelArg(args[3], m) && r[4] == RelabelArg(args[4], m)
  {
  }

  lemma RelabelKeepsConcatenation<L>(a: seq<L>, b: seq<L>, m: map<L, int>)
    requires forall l :: l in a + b ==> l in m
    ensures RelabelArg<int, L>(Labels(a), m).labels + RelabelArg<int, L>(Labels(b), m).labels
            == RelabelArg<int, L>(Labels(a + b), m).labels
  {
  }

  lemma RelabelKeepsDistinct<L>(a: seq<L>, m: map<L, int>)
    requires forall l :: l in a ==> l in m
    requires forall l1, l2 :: l1 in m && l2 in m && m[l1] == m[l2] ==> l1 == l2
    requires NoDup(a)
    ensures NoDup(RelabelArg<int, L>(Labels(a), m).labels)
  {
  }
}
