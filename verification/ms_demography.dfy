/** The demography state machine of `MsCmdParser` (parse_ms.py): the
    `roots`/`nodes`/`edges`/`events` state, the event handlers, the epoch
    bookkeeping of `set_sizes`, `add_event` and the final root check of
    `to_nx`. */
module MsDemography {
  import opened Wrappers
  import opened Numbers
  import opened Decimal
  import opened MsParams
  import opened MsCommands

  /** A node of the population graph: the integer populations (leaves
      `1 .. npop` and the source population of each `-es`), the one-tuple
      `(child,)` an `-es` creates, and the pair `(a, b)` an `-ej` creates. */
  datatype NodeId = Numbered(k: int) | Single(child: NodeId) | Pair(left: NodeId, right: NodeId)

  /** The `alpha` entry of an epoch: absent, `None`, or a growth rate. */
  datatype Alpha = Unset | NoGrowth | Growth(rate: Num)

  /** One epoch dict: `t` always; `N` absent for a `-eg` epoch until
      `set_sizes` fills it; `tau` and `N_top` set by `set_sizes`. */
  datatype Epoch = Epoch(t: Num, n: Option<Num>, alpha: Alpha, tau: Option<Num>, nTop: Option<Num>)

  /** A node's data. `splitProbs` is empty unless an `-es` split the node. */
  datatype NodeData = NodeData(sizes: seq<Epoch>, lineages: Option<PyNum>, splitProbs: map<NodeId, Num>)

  /** An edge (parent, child). */
  type Edge = (NodeId, NodeId)

  /** A value a handler returns: a number, or `None` for a switched-off
      growth rate. */
  datatype Out = Val(v: PyNum) | NoneVal

  /** One entry of `cmd_list`: the flag and the handler's returned
      arguments (their formatting as text is not modelled). */
  datatype Logged = Logged(flag: string, args: seq<Out>)

  /** The parser's state. `roots` is the dict `{1: .., 2: .., ...}` as a
      sequence: key k is position k - 1 (its keys are always `1 .. len`,
      because `_I` fills `1 .. npop` and `_es` adds `len + 1`). */
  datatype State = State(
    params: map<string, PyNum>,
    popByOrder: map<nat, nat>,
    roots: seq<Option<NodeId>>,
    nodes: map<NodeId, NodeData>,
    edges: seq<Edge>,
    events: seq<seq<Edge>>,
    prevTime: Num,
    cmdList: seq<Logged>)

  /** The state of a newPop parser. */
  function Initial(params: map<string, PyNum>, popByOrder: map<nat, nat>): State
  {
    State(params, popByOrder, [], map[], [], [], Finite(0.0), [])
  }

  /** `N_top` of an exponential size history, given `tau`, the growth rate
      and `N_bottom`; the size-history code is not part of this model. */
  type GrowthTop = (Num, Num, Num) -> Num

  // ------------------------------------------------------------ populations

  /** `getpop`: numbers pass through; `#k` is looked up in `pop_by_order`,
      whose keys are `'#' + str(k)`; anything else is `getint`. */
  function GetPop(st: State, v: Value): (r: Result<PyNum, MsError>)
    ensures v.Number? ==> r == Success(v.n)
    ensures v.Text? && |v.s| > 0 && v.s[0] == '#' ==>
              (r.Success? <==> exists k :: k in st.popByOrder && v.s == "#" + NatToDecimal(k))
    ensures forall k :: k in st.popByOrder && v == Text("#" + NatToDecimal(k)) ==>
              r == Success(PyInt(st.popByOrder[k]))
    ensures v.Text? && !(|v.s| > 0 && v.s[0] == '#') ==> r == GetInt(st.params, v)
  {
    match v
    case Number(n) => Success(n)
    case Text(s) =>
      if |s| > 0 && s[0] == '#' then
        assert forall k :: s == "#" + NatToDecimal(k) ==> s[1..] == NatToDecimal(k);
        match ParseCanonical(s[1..])
        case Some(k) =>
          assert s == "#" + NatToDecimal(k);
          forall k' | s == "#" + NatToDecimal(k')
            ensures k' == k
          {
            NatToDecimalInjective(k', k);
          }
          if k in st.popByOrder then Success(PyInt(st.popByOrder[k])) else Failure(UnknownPopulation)
        case None => Failure(UnknownPopulation)
      else
        GetInt(st.params, v)
  }

  /** `self.roots[i]` and then `self.nodes[...]` of it: the key must be an
      integral value in `1 .. len(roots)`, and the root must not have been
      joined away (`nodes[None]`). */
  function RootNode(st: State, p: PyNum): (r: Result<(nat, NodeId), MsError>)
    ensures r.Success? <==>
              AsIndex(p).Some? && 1 <= AsIndex(p).value <= |st.roots| &&
              st.roots[AsIndex(p).value - 1].Some? && st.roots[AsIndex(p).value - 1].value in st.nodes
    ensures r.Success? ==>
              r.value.0 == AsIndex(p).value - 1 && st.roots[r.value.0] == Some(r.value.1)
  {
    match AsIndex(p)
    case None => Failure(UnknownPopulation)
    case Some(k) =>
      if !(1 <= k <= |st.roots|) then Failure(UnknownPopulation)
      else
        match st.roots[k - 1]
        case None => Failure(DeadPopulation)
        case Some(node) => if node in st.nodes then Success((k - 1, node)) else Failure(DeadPopulation)
  }

  /** Population `#k` resolves to the root key `pop_by_order['#k']`. */
  lemma PopulationNameLookup(st: State, k: nat)
    requires k in st.popByOrder
    ensures GetPop(st, Text("#" + NatToDecimal(k))) == Success(PyInt(st.popByOrder[k]))
  {
  }

  // ------------------------------------------------------------ set_sizes

  /** The time the i-th epoch ends: the next epoch's start, or the end time
      for the last one (the dummy epoch `set_sizes` appends). */
  function NextStart(sizes: seq<Epoch>, endTime: Num, i: nat): Num
    requires i < |sizes|
  {
    if i + 1 < |sizes| then sizes[i + 1].t else endTime
  }

  /** `e` is epoch j of `sizes` as `set_sizes` leaves it: its start kept,
      `tau` the time to the next start, `N`/`alpha` set, `N_top` the size at
      its top, and the three values `>= 0`. */
  predicate Finished(sizes: seq<Epoch>, endTime: Num, top: GrowthTop, j: nat, e: Epoch)
    requires j < |sizes|
  {
    e.t == sizes[j].t &&
    e.tau == Some(Sub(NextStart(sizes, endTime, j), sizes[j].t)) &&
    e.n.Some? && !e.alpha.Unset? && e.nTop.Some? &&
    e.nTop.value == (if e.alpha.Growth? then top(e.tau.value, e.alpha.rate, e.n.value) else e.n.value) &&
    NonNegative(e.tau.value) && NonNegative(e.n.value) && NonNegative(e.nTop.value)
  }

  /** Explicit entries survive `set_sizes`. */
  predicate Keeps(before: Epoch, after: Epoch)
  {
    (before.n.Some? ==> after.n == before.n) && (!before.alpha.Unset? ==> after.alpha == before.alpha)
  }

  /** An epoch without `N` starts at the size the previous one ended with;
      one without `alpha` keeps the previous growth rate. */
  predicate Inherits(before: Epoch, prev: Epoch, after: Epoch)
  {
    (before.n.None? ==> after.n == prev.nTop) && (before.alpha.Unset? ==> after.alpha == prev.alpha)
  }

  /** The loop of `set_sizes` from epoch i on, with the running `N` and
      `alpha`. */
  function FillEpochs(sizes: seq<Epoch>, endTime: Num, top: GrowthTop, i: nat, n: Num, alpha: Alpha)
    : Result<seq<Epoch>, MsError>
    requires i <= |sizes| && !alpha.Unset?
    decreases |sizes| - i
  {
    if i == |sizes| then Success([])
    else
      var e := sizes[i];
      var tau := Sub(NextStart(sizes, endTime, i), e.t);
      var nb := if e.n.Some? then e.n.value else n;
      var a := if e.alpha.Unset? then alpha else e.alpha;
      var nt := if a.Growth? then top(tau, a.rate, nb) else nb;
      if !(NonNegative(tau) && NonNegative(nb) && NonNegative(nt)) then Failure(NegativeSize)
      else
        var rest :- FillEpochs(sizes, endTime, top, i + 1, nt, a);
        Success([Epoch(e.t, Some(nb), a, Some(tau), Some(nt))] + rest)
  }

  /** One successful pass of the loop: epoch i comes out finished, with
      its explicit entries kept and the missing ones taken from the running
      values, and the loop goes on with its `N_top` and `alpha`. */
  lemma FillUnfold(sizes: seq<Epoch>, endTime: Num, top: GrowthTop, i: nat, n: Num, alpha: Alpha)
    returns (first: Epoch)
    requires i < |sizes| && !alpha.Unset?
    requires FillEpochs(sizes, endTime, top, i, n, alpha).Success?
    ensures !first.alpha.Unset? && first.nTop.Some?
    ensures FillEpochs(sizes, endTime, top, i + 1, first.nTop.value, first.alpha).Success?
    ensures FillEpochs(sizes, endTime, top, i, n, alpha).value ==
            [first] + FillEpochs(sizes, endTime, top, i + 1, first.nTop.value, first.alpha).value
    ensures Finished(sizes, endTime, top, i, first) && Keeps(sizes[i], first)
    ensures Inherits(sizes[i], Epoch(Finite(0.0), None, alpha, None, Some(n)), first)
  {
    var e := sizes[i];
    var tau := Sub(NextStart(sizes, endTime, i), e.t);
    var nb := if e.n.Some? then e.n.value else n;
    var a := if e.alpha.Unset? then alpha else e.alpha;
    var nt := if a.Growth? then top(tau, a.rate, nb) else nb;
    first := Epoch(e.t, Some(nb), a, Some(tau), Some(nt));
  }

  /** The loop fails only on a negative size or duration. */
  lemma {:induction false} FillEpochsFails(sizes: seq<Epoch>, endTime: Num, top: GrowthTop, i: nat, n: Num, alpha: Alpha)
    requires i <= |sizes| && !alpha.Unset?
    ensures FillEpochs(sizes, endTime, top, i, n, alpha).Failure? ==>
            FillEpochs(sizes, endTime, top, i, n, alpha).error == NegativeSize
    decreases |sizes| - i
  {
    if i < |sizes| {
      var e := sizes[i];
      var tau := Sub(NextStart(sizes, endTime, i), e.t);
      var nb := if e.n.Some? then e.n.value else n;
      var a := if e.alpha.Unset? then alpha else e.alpha;
      var nt := if a.Growth? then top(tau, a.rate, nb) else nb;
      FillEpochsFails(sizes, endTime, top, i + 1, nt, a);
    }
  }

  /** What a successful loop from epoch i on yields: one finished epoch per
      input epoch, explicit entries kept, missing ones inherited from the
      running values (for the first) or the previous epoch (for the
      others). */
  lemma {:induction false} FillEpochsFacts(sizes: seq<Epoch>, endTime: Num, top: GrowthTop, i: nat, n: Num, alpha: Alpha)
    requires i <= |sizes| && !alpha.Unset?
    requires FillEpochs(sizes, endTime, top, i, n, alpha).Success?
    ensures var r := FillEpochs(sizes, endTime, top, i, n, alpha).value;
            |r| == |sizes| - i &&
            (forall k :: 0 <= k < |r| ==> Finished(sizes, endTime, top, i + k, r[k]) && Keeps(sizes[i + k], r[k])) &&
            (|r| > 0 ==> Inherits(sizes[i], Epoch(Finite(0.0), None, alpha, None, Some(n)), r[0])) &&
            (forall k :: 0 < k < |r| ==> Inherits(sizes[i + k], r[k - 1], r[k]))
    decreases |sizes| - i
  {
    if i < |sizes| {
      var first := FillUnfold(sizes, endTime, top, i, n, alpha);
      FillEpochsFacts(sizes, endTime, top, i + 1, first.nTop.value, first.alpha);
      var rest := FillEpochs(sizes, endTime, top, i + 1, first.nTop.value, first.alpha).value;
      FillFactsCons(sizes, endTime, top, i, first, rest);
    }
  }

  /** Putting a finished epoch i in front of the finished epochs from i + 1
      on. */
  lemma FillFactsCons(sizes: seq<Epoch>, endTime: Num, top: GrowthTop, i: nat, first: Epoch, rest: seq<Epoch>)
    requires i < |sizes| && |rest| == |sizes| - i - 1
    requires Finished(sizes, endTime, top, i, first) && Keeps(sizes[i], first)
    requires forall k :: 0 <= k < |rest| ==> Finished(sizes, endTime, top, i + 1 + k, rest[k]) && Keeps(sizes[i + 1 + k], rest[k])
    requires |rest| > 0 ==> Inherits(sizes[i + 1], Epoch(Finite(0.0), None, first.alpha, None, first.nTop), rest[0])
    requires forall k :: 0 < k < |rest| ==> Inherits(sizes[i + 1 + k], rest[k - 1], rest[k])
    ensures var r := [first] + rest;
            (forall k :: 0 <= k < |r| ==> Finished(sizes, endTime, top, i + k, r[k]) && Keeps(sizes[i + k], r[k])) &&
            (forall k :: 0 < k < |r| ==> Inherits(sizes[i + k], r[k - 1], r[k]))
  {
    var r := [first] + rest;
    forall k | 0 < k < |r|
      ensures Finished(sizes, endTime, top, i + k, r[k]) && Keeps(sizes[i + k], r[k])
      ensures Inherits(sizes[i + k], r[k - 1], r[k])
    {
      assert r[k] == rest[k - 1];
      assert i + k == i + 1 + (k - 1);
    }
  }

  /** `set_sizes(node_data, end_time)` on a node's epochs. */
  function SetSizes(sizes: seq<Epoch>, endTime: Num, top: GrowthTop): (r: Result<seq<Epoch>, MsError>)
    ensures r.Success? ==> |r.value| == |sizes| > 0
    ensures r.Success? ==> forall j :: 0 <= j < |sizes| ==> Finished(sizes, endTime, top, j, r.value[j])
    ensures r.Success? ==> forall j :: 0 <= j < |sizes| ==> Keeps(sizes[j], r.value[j])
    ensures r.Success? ==> forall j :: 0 < j < |sizes| ==> Inherits(sizes[j], r.value[j - 1], r.value[j])
    ensures |sizes| == 0 || sizes[0].n.None? || sizes[0].alpha.Unset? ==> r == Failure(MissingField)
    ensures r.Failure? && |sizes| > 0 && sizes[0].n.Some? && !sizes[0].alpha.Unset? ==> r.error == NegativeSize
  {
    if |sizes| == 0 || sizes[0].n.None? || sizes[0].alpha.Unset? then Failure(MissingField)
    else
      FillEpochsFails(sizes, endTime, top, 0, sizes[0].n.value, sizes[0].alpha);
      var r := FillEpochs(sizes, endTime, top, 0, sizes[0].n.value, sizes[0].alpha);
      if r.Success? then
        FillEpochsFacts(sizes, endTime, top, 0, sizes[0].n.value, sizes[0].alpha);
        r
      else r
  }

  /** `set_sizes` raises unless the epochs start in non-decreasing order
      and no later than the end time. */
  lemma SetSizesNeedsOrderedEpochs(sizes: seq<Epoch>, endTime: Num, top: GrowthTop)
    requires SetSizes(sizes, endTime, top).Success?
    ensures forall j :: 0 <= j < |sizes| - 1 ==> Le(sizes[j].t, sizes[j + 1].t)
    ensures Le(sizes[|sizes| - 1].t, endTime)
  {
    var r := SetSizes(sizes, endTime, top).value;
    forall j | 0 <= j < |sizes|
      ensures Le(sizes[j].t, NextStart(sizes, endTime, j))
    {
      assert Finished(sizes, endTime, top, j, r[j]);
      NonNegativeDifference(sizes[j].t, NextStart(sizes, endTime, j));
    }
    assert forall j :: 0 <= j < |sizes| - 1 ==> NextStart(sizes, endTime, j) == sizes[j + 1].t;
  }

  lemma NonNegativeDifference(a: Num, b: Num)
    requires NonNegative(Sub(b, a))
    ensures Le(a, b)
  {
  }

  /** Every epoch of x is finished. */
  ghost predicate AllFinished(x: seq<Epoch>, endTime: Num, top: GrowthTop)
  {
    forall j {:trigger Finished(x, endTime, top, j, x[j])} :: 0 <= j < |x| ==> Finished(x, endTime, top, j, x[j])
  }

  lemma FinishedAt(x: seq<Epoch>, endTime: Num, top: GrowthTop, i: nat) returns (nt: Num, a: Alpha)
    requires AllFinished(x, endTime, top) && i < |x|
    ensures Finished(x, endTime, top, i, x[i])
    ensures x[i].nTop == Some(nt) && x[i].alpha == a && !a.Unset?
  {
    assert Finished(x, endTime, top, i, x[i]);
    nt, a := x[i].nTop.value, x[i].alpha;
  }

  /** Epochs `set_sizes` has already processed are a fixed point of it: the
      second call in an `-ej` whose two populations are the same changes
      nothing. */
  lemma {:induction false} FillFinished(x: seq<Epoch>, endTime: Num, top: GrowthTop, i: nat, n: Num, alpha: Alpha)
    requires i <= |x| && !alpha.Unset?
    requires AllFinished(x, endTime, top)
    ensures FillEpochs(x, endTime, top, i, n, alpha) == Success(x[i..])
    decreases |x| - i
  {
    if i < |x| {
      var nt, a := FinishedAt(x, endTime, top, i);
      FillFinished(x, endTime, top, i + 1, nt, a);
      FillFinishedStep(x, endTime, top, i, n, alpha, nt, a);
    } else {
      FillAtEnd(x, endTime, top, n, alpha);
    }
  }

  lemma FillAtEnd(x: seq<Epoch>, endTime: Num, top: GrowthTop, n: Num, alpha: Alpha)
    requires !alpha.Unset?
    ensures FillEpochs(x, endTime, top, |x|, n, alpha) == Success(x[|x|..])
  {
    assert x[|x|..] == [];
  }

  /** A finished epoch comes out of the loop unchanged, whatever the running
      values, and the loop goes on with its own `N_top` and `alpha`. */
  lemma FillFinishedStep(x: seq<Epoch>, endTime: Num, top: GrowthTop, i: nat, n: Num, alpha: Alpha, nt: Num, a: Alpha)
    requires i < |x| && !alpha.Unset? && !a.Unset?
    requires Finished(x, endTime, top, i, x[i]) && x[i].nTop == Some(nt) && x[i].alpha == a
    requires FillEpochs(x, endTime, top, i + 1, nt, a) == Success(x[i + 1..])
    ensures FillEpochs(x, endTime, top, i, n, alpha) == Success(x[i..])
  {
    var e := x[i];
    var tau := Sub(NextStart(x, endTime, i), e.t);
    var nt := if e.alpha.Growth? then top(tau, e.alpha.rate, e.n.value) else e.n.value;
    assert e == Epoch(e.t, Some(e.n.value), e.alpha, Some(tau), Some(nt));
    assert NonNegative(tau) && NonNegative(e.n.value) && NonNegative(nt);
    SliceCons(x, i);
  }

  lemma SliceCons<X>(x: seq<X>, i: nat)
    requires i < |x|
    ensures x[i..] == [x[i]] + x[i + 1..]
  {
  }

  lemma SetSizesIdempotent(sizes: seq<Epoch>, endTime: Num, top: GrowthTop)
    requires SetSizes(sizes, endTime, top).Success?
    ensures SetSizes(SetSizes(sizes, endTime, top).value, endTime, top) == SetSizes(sizes, endTime, top)
  {
    var r := SetSizes(sizes, endTime, top).value;
    forall j | 0 <= j < |r|
      ensures Finished(r, endTime, top, j, r[j])
    {
      assert Finished(sizes, endTime, top, j, r[j]);
      assert NextStart(r, endTime, j) == NextStart(sizes, endTime, j);
    }
    FillFinished(r, endTime, top, 0, r[0].n.value, r[0].alpha);
    assert r[0..] == r;
  }

  // ------------------------------------------------------------ handlers

  /** The result of a handler: the new state and the arguments it returns
      (with parameters substituted). */
  datatype Step = Step(st: State, out: seq<Out>)

  /** The number of roots not joined away. */
  function LiveCount(roots: seq<Option<NodeId>>): (c: nat)
    ensures c <= |roots|
  {
    if |roots| == 0 then 0
    else LiveCount(roots[..|roots| - 1]) + (if roots[|roots| - 1].Some? then 1 else 0)
  }

  lemma {:induction false} LiveCountUpdate(roots: seq<Option<NodeId>>, k: nat, v: Option<NodeId>)
    requires k < |roots|
    ensures LiveCount(roots[k := v]) + (if roots[k].Some? then 1 else 0) ==
            LiveCount(roots) + (if v.Some? then 1 else 0)
    decreases |roots|
  {
    var front := roots[..|roots| - 1];
    if k < |roots| - 1 {
      LiveCountUpdate(front, k, v);
      assert roots[k := v][..|roots| - 1] == front[k := v];
    } else {
      assert roots[k := v][..|roots| - 1] == front;
    }
  }

  lemma LiveCountAppend(roots: seq<Option<NodeId>>, v: Option<NodeId>)
    ensures LiveCount(roots + [v]) == LiveCount(roots) + (if v.Some? then 1 else 0)
  {
    assert (roots + [v])[..|roots|] == roots;
  }

  /** Every live root and both ends of every edge have node data (networkx
      would otherwise add bare nodes). */
  ghost predicate Known(st: State)
  {
    (forall k :: 0 <= k < |st.roots| && st.roots[k].Some? ==> st.roots[k].value in st.nodes) &&
    (forall e :: e in st.edges ==> e.0 in st.nodes && e.1 in st.nodes)
  }

  /** No handler touches the parameters, the population names, the time
      of the previous event or the command log. */
  ghost predicate Settings(st: State, st': State)
  {
    st'.params == st.params && st'.popByOrder == st.popByOrder &&
    st'.prevTime == st.prevTime && st'.cmdList == st.cmdList
  }

  /** A handler that only edits epoch lists: the graph's shape and
      everything else stay as they are. */
  ghost predicate SameShape(st: State, st': State)
  {
    Settings(st, st') &&
    st'.roots == st.roots && st'.edges == st.edges && st'.events == st.events &&
    st'.nodes.Keys == st.nodes.Keys
  }

  /** The epochs of `node` after a handler appended `e`, all other nodes
      unchanged. */
  ghost predicate Appended(st: State, st': State, node: NodeId, e: Epoch)
  {
    node in st.nodes && SameShape(st, st') &&
    st'.nodes[node] == st.nodes[node].(sizes := st.nodes[node].sizes + [e]) &&
    forall m :: m in st.nodes && m != node ==> st'.nodes[m] == st.nodes[m]
  }

  /** `_en(t, i, N)`: the root named by i gets a new epoch at t with size N
      and no growth. */
  function En(st: State, t: string, i: Value, size: string): (r: Result<Step, MsError>)
    ensures r.Success? ==>
              GetFloat(st.params, Text(t)).Success? && GetFloat(st.params, Text(size)).Success? &&
              GetPop(st, i).Success? && RootNode(st, GetPop(st, i).value).Success? &&
              Appended(st, r.value.st, RootNode(st, GetPop(st, i).value).value.1,
                       Epoch(AsNum(GetFloat(st.params, Text(t)).value), Some(AsNum(GetFloat(st.params, Text(size)).value)),
                             NoGrowth, None, None))
  {
    var tt :- GetFloat(st.params, Text(t));
    var n :- GetFloat(st.params, Text(size));
    var p :- GetPop(st, i);
    var loc :- RootNode(st, p);
    var data := st.nodes[loc.1];
    var e := Epoch(AsNum(tt), Some(AsNum(n)), NoGrowth, None, None);
    Success(Step(st.(nodes := st.nodes[loc.1 := data.(sizes := data.sizes + [e])]), [Val(tt), Val(p), Val(n)]))
  }

  /** The growth-rate rule of `_eg` and `_g`: a literal zero switches growth
      off (`None`); a `$` parameter is kept as a rate even when it is 0. */
  function GrowthOf(params: map<string, PyNum>, alpha: string): (r: Result<Option<PyNum>, MsError>)
    ensures r.Success? <==> GetFloat(params, Text(alpha)).Success?
    ensures r.Success? ==>
              (r.value.None? <==> !IsReference(alpha) && AsNum(GetFloat(params, Text(alpha)).value) == Finite(0.0))
    ensures r.Success? && r.value.Some? ==> r.value.value == GetFloat(params, Text(alpha)).value
  {
    var a :- GetFloat(params, Text(alpha));
    if AsNum(a) == Finite(0.0) && !IsReference(alpha) then Success(None) else Success(Some(a))
  }

  function AlphaField(g: Option<PyNum>): Alpha
  {
    match g
    case None => NoGrowth
    case Some(a) => Growth(AsNum(a))
  }

  function OutOf(g: Option<PyNum>): Out
  {
    match g
    case None => NoneVal
    case Some(a) => Val(a)
  }

  /** `_eg(t, i, alpha)`: the root named by i gets a new epoch at t with the
      growth rate and no size of its own. */
  function Eg(st: State, t: string, i: Value, alpha: string): (r: Result<Step, MsError>)
    ensures r.Success? ==>
              GrowthOf(st.params, alpha).Success? && GetFloat(st.params, Text(t)).Success? &&
              GetPop(st, i).Success? && RootNode(st, GetPop(st, i).value).Success? &&
              Appended(st, r.value.st, RootNode(st, GetPop(st, i).value).value.1,
                       Epoch(AsNum(GetFloat(st.params, Text(t)).value), None,
                             AlphaField(GrowthOf(st.params, alpha).value), None, None))
  {
    var g :- GrowthOf(st.params, alpha);
    var tt :- GetFloat(st.params, Text(t));
    var p :- GetPop(st, i);
    var loc :- RootNode(st, p);
    var data := st.nodes[loc.1];
    var e := Epoch(AsNum(tt), None, AlphaField(g), None, None);
    Success(Step(st.(nodes := st.nodes[loc.1 := data.(sizes := data.sizes + [e])]), [Val(tt), Val(p), OutOf(g)]))
  }

  /** The guards shared by `_n` and `_g`: some population exists, no event
      has happened, and nothing but the leaves exists. */
  function LeafGuard(st: State): (r: Result<(), MsError>)
    ensures r.Success? <==> |st.roots| > 0 && |st.events| == 0 && |st.edges| == 0 && |st.nodes| == |st.roots|
    ensures |st.roots| > 0 && |st.events| > 0 ==> r == Failure(EventsAlreadyOccurred)
  {
    if |st.roots| == 0 then Failure(NoPopulations)
    else if |st.events| > 0 then Failure(EventsAlreadyOccurred)
    else if |st.edges| > 0 || |st.nodes| != |st.roots| then Failure(LeafStateChanged)
    else Success(())
  }

  /** The only epoch of `node` rewritten by `f`. */
  function EditFirstEpoch(st: State, node: NodeId, f: Epoch -> Epoch): State
    requires node in st.nodes && |st.nodes[node].sizes| == 1
  {
    st.(nodes := st.nodes[node := st.nodes[node].(sizes := [f(st.nodes[node].sizes[0])])])
  }

  /** `_n(i, N)`: sets the size of a leaf before any event. */
  function N(st: State, i: Value, size: string): (r: Result<Step, MsError>)
    ensures |st.roots| > 0 && |st.events| > 0 ==> r == Failure(EventsAlreadyOccurred)
    ensures r.Success? ==> LeafGuard(st).Success? && SameShape(st, r.value.st)
    ensures r.Success? ==>
              GetPop(st, i).Success? && GetFloat(st.params, Text(size)).Success? &&
              RootNode(st, GetPop(st, i).value).Success? &&
              var node := RootNode(st, GetPop(st, i).value).value.1;
              |r.value.st.nodes[node].sizes| == 1 && r.value.st.nodes[node].sizes[0].n == Some(AsNum(GetFloat(st.params, Text(size)).value))
  {
    var _ :- LeafGuard(st);
    var p :- GetPop(st, i);
    var n :- GetFloat(st.params, Text(size));
    var loc :- RootNode(st, p);
    if |st.nodes[loc.1].sizes| != 1 then Failure(LeafStateChanged)
    else Success(Step(EditFirstEpoch(st, loc.1, (e: Epoch) => e.(n := Some(AsNum(n)))), [Val(p), Val(n)]))
  }

  /** `_g(i, alpha)`: sets the growth rate of a leaf before any event. */
  function G(st: State, i: Value, alpha: string): (r: Result<Step, MsError>)
    ensures |st.roots| > 0 && |st.events| > 0 ==> r == Failure(EventsAlreadyOccurred)
    ensures r.Success? ==> LeafGuard(st).Success? && SameShape(st, r.value.st)
    ensures r.Success? ==>
              GetPop(st, i).Success? && GrowthOf(st.params, alpha).Success? &&
              RootNode(st, GetPop(st, i).value).Success? &&
              var node := RootNode(st, GetPop(st, i).value).value.1;
              |r.value.st.nodes[node].sizes| == 1 && r.value.st.nodes[node].sizes[0].alpha == AlphaField(GrowthOf(st.params, alpha).value)
  {
    var _ :- LeafGuard(st);
    var p :- GetPop(st, i);
    var loc :- RootNode(st, p);
    if |st.nodes[loc.1].sizes| != 1 then Failure(LeafStateChanged)
    else
      var g :- GrowthOf(st.params, alpha);
      Success(Step(EditFirstEpoch(st, loc.1, (e: Epoch) => e.(alpha := AlphaField(g))), [Val(p), OutOf(g)]))
  }

  /** The three handlers that `_eN`, `_eG` and `_G` apply to every live
      root, with the arguments they pass on. */
  datatype PerRoot = SizeAll(t: string, size: string) | GrowthAll(t: string, alpha: string) | LeafGrowthAll(alpha: string)

  function ApplyTo(st: State, each: PerRoot, key: nat): (r: Result<Step, MsError>)
    ensures r.Success? ==> SameShape(st, r.value.st)
  {
    match each
    case SizeAll(t, size) => En(st, t, Number(PyInt(key)), size)
    case GrowthAll(t, alpha) => Eg(st, t, Number(PyInt(key)), alpha)
    case LeafGrowthAll(alpha) => G(st, Number(PyInt(key)), alpha)
  }

  /** `for i in self.roots: if self.roots[i] is not None: ...`, from
      position k on, in key order. */
  function ForEachLive(st: State, each: PerRoot, k: nat): (r: Result<State, MsError>)
    requires k <= |st.roots|
    ensures r.Success? ==> SameShape(st, r.value)
    decreases |st.roots| - k
  {
    if k == |st.roots| then Success(st)
    else if st.roots[k].None? then ForEachLive(st, each, k + 1)
    else
      var step :- ApplyTo(st, each, k + 1);
      ForEachLive(step.st, each, k + 1)
  }

  /** `_eN(t, N)`, `_eG(t, alpha)` and `_G(alpha)`: the handler for every
      live root, then the converted arguments. */
  function ForAll(st: State, each: PerRoot): (r: Result<Step, MsError>)
    ensures |st.roots| == 0 ==> r == Failure(NoPopulations)
    ensures r.Success? ==> SameShape(st, r.value.st)
  {
    if |st.roots| == 0 then Failure(NoPopulations)
    else
      var st' :- ForEachLive(st, each, 0);
      match each
      case SizeAll(t, size) =>
        var tt :- GetFloat(st.params, Text(t));
        var n :- GetFloat(st.params, Text(size));
        Success(Step(st', [Val(tt), Val(n)]))
      case GrowthAll(t, alpha) =>
        var tt :- GetFloat(st.params, Text(t));
        var a :- GetFloat(st.params, Text(alpha));
        Success(Step(st', [Val(tt), Val(a)]))
      case LeafGrowthAll(alpha) =>
        var a :- GetFloat(st.params, Text(alpha));
        Success(Step(st', [Val(a)]))
  }

  /** `set_sizes(self.nodes[self.roots[p]], t)`: the root's epochs
      finished up to time t. */
  function Finalise(st: State, p: PyNum, t: Num, top: GrowthTop): (r: Result<(State, nat, NodeId), MsError>)
    ensures r.Success? ==> RootNode(st, p) == Success((r.value.1, r.value.2))
    ensures r.Success? ==>
              var node := r.value.2;
              SetSizes(st.nodes[node].sizes, t, top).Success? &&
              r.value.0 == st.(nodes := st.nodes[node := st.nodes[node].(sizes := SetSizes(st.nodes[node].sizes, t, top).value)])
  {
    var loc :- RootNode(st, p);
    var data := st.nodes[loc.1];
    var sizes :- SetSizes(data.sizes, t, top);
    Success((st.(nodes := st.nodes[loc.1 := data.(sizes := sizes)]), loc.0, loc.1))
  }

  function Last<T>(s: seq<T>): T
    requires |s| > 0
  {
    s[|s| - 1]
  }

  /** The state change of `_es` once the child's epochs are finished:
      the root at position k, `child`, is split backwards in time into the
      one-tuple `(child,)`, which keeps the key and inherits the child's
      final size and growth, and a new population `len(roots) + 1` of size
      1, chosen with probabilities p and 1 - p. */
  function SplitRoot(st: State, k: nat, child: NodeId, sizes: seq<Epoch>, t: Num, p: Num): (st': State)
    requires k < |st.roots| && child in st.nodes && |sizes| > 0
    requires Single(child) !in st.nodes && Numbered(|st.roots| + 1) !in st.nodes
    ensures var newPop := Numbered(|st.roots| + 1);
            st'.roots == st.roots[k := Some(Single(child))] + [Some(newPop)] &&
            st'.edges == st.edges + [(Single(child), child), (newPop, child)] &&
            st'.events == st.events + [[(Single(child), child), (newPop, child)]] &&
            st'.nodes.Keys == st.nodes.Keys + {Single(child), newPop}
    ensures var newPop := Numbered(|st.roots| + 1);
            st'.nodes[child] == st.nodes[child].(sizes := sizes, splitProbs := map[Single(child) := p, newPop := Sub(Finite(1.0), p)]) &&
            st'.nodes[Single(child)].sizes == [Epoch(t, Last(sizes).nTop, Last(sizes).alpha, None, None)] &&
            st'.nodes[newPop].sizes == [Epoch(t, Some(Finite(1.0)), NoGrowth, None, None)]
    ensures forall m :: m in st.nodes && m != child ==> st'.nodes[m] == st.nodes[m]
    ensures Settings(st, st')
  {
    var single := Single(child);
    var newPop := Numbered(|st.roots| + 1);
    var data := st.nodes[child];
    var nodes := st.nodes[child := data.(sizes := sizes, splitProbs := map[single := p, newPop := Sub(Finite(1.0), p)])]
                         [single := NodeData([Epoch(t, Last(sizes).nTop, Last(sizes).alpha, None, None)], None, map[])]
                         [newPop := NodeData([Epoch(t, Some(Finite(1.0)), NoGrowth, None, None)], None, map[])];
    var newEdges := [(single, child), (newPop, child)];
    st.(roots := st.roots[k := Some(single)] + [Some(newPop)], nodes := nodes,
        edges := st.edges + newEdges, events := st.events + [newEdges])
  }

  /** A split adds one live root and keeps every root and edge known. */
  lemma SplitRootCounts(st: State, k: nat, child: NodeId, sizes: seq<Epoch>, t: Num, p: Num)
    requires k < |st.roots| && st.roots[k] == Some(child) && child in st.nodes && |sizes| > 0
    requires Single(child) !in st.nodes && Numbered(|st.roots| + 1) !in st.nodes
    ensures LiveCount(SplitRoot(st, k, child, sizes, t, p).roots) == LiveCount(st.roots) + 1
    ensures Known(st) ==> Known(SplitRoot(st, k, child, sizes, t, p))
  {
    LiveCountUpdate(st.roots, k, Some(Single(child)));
    LiveCountAppend(st.roots[k := Some(Single(child))], Some(Numbered(|st.roots| + 1)));
  }

  /** `_es(t, i, p)`: the root named by i is finished at t (`set_sizes`)
      and split. */
  function Es(st: State, t: string, i: Value, prob: string, top: GrowthTop): (r: Result<Step, MsError>)
    ensures r.Success? ==>
              GetFloat(st.params, Text(t)).Success? && GetFloat(st.params, Text(prob)).Success? &&
              GetPop(st, i).Success? && RootNode(st, GetPop(st, i).value).Success?
    ensures r.Success? ==>
              var loc := RootNode(st, GetPop(st, i).value).value;
              var tt := AsNum(GetFloat(st.params, Text(t)).value);
              Single(loc.1) !in st.nodes && Numbered(|st.roots| + 1) !in st.nodes &&
              SetSizes(st.nodes[loc.1].sizes, tt, top).Success? &&
              r.value.st == SplitRoot(st, loc.0, loc.1, SetSizes(st.nodes[loc.1].sizes, tt, top).value, tt,
                                      AsNum(GetFloat(st.params, Text(prob)).value))
    ensures r.Success? ==> LiveCount(r.value.st.roots) == LiveCount(st.roots) + 1
    ensures r.Success? && Known(st) ==> Known(r.value.st)
    ensures r.Success? ==> Settings(st, r.value.st)
  {
    var tt :- GetFloat(st.params, Text(t));
    var pp :- GetFloat(st.params, Text(prob));
    var q :- GetPop(st, i);
    var loc :- RootNode(st, q);
    var sizes :- SetSizes(st.nodes[loc.1].sizes, AsNum(tt), top);
    if Single(loc.1) in st.nodes || Numbered(|st.roots| + 1) in st.nodes then Failure(NodeExists)
    else
      SplitRootCounts(st, loc.0, loc.1, sizes, AsNum(tt), AsNum(pp));
      Success(Step(SplitRoot(st, loc.0, loc.1, sizes, AsNum(tt), AsNum(pp)), [Val(tt), Val(q), Val(pp)]))
  }

  /** The state change of `_ej` once both roots' epochs are finished: the
      pair `(roots[i], roots[j])` becomes root j, with the final size and
      growth of root j; root i is set to None. */
  function JoinRoots(st: State, ki: nat, ni: NodeId, kj: nat, nj: NodeId, t: Num): (st': State)
    requires ki < |st.roots| && kj < |st.roots| && st.roots[ki] == Some(ni) && st.roots[kj] == Some(nj)
    requires nj in st.nodes && |st.nodes[nj].sizes| > 0 && Pair(ni, nj) !in st.nodes
    ensures |st'.roots| == |st.roots| && st'.roots[ki] == None
    ensures st'.roots[kj] == (if ki == kj then None else Some(Pair(ni, nj)))
    ensures forall k :: 0 <= k < |st.roots| && k != ki && k != kj ==> st'.roots[k] == st.roots[k]
    ensures st'.edges == st.edges + [(Pair(ni, nj), ni), (Pair(ni, nj), nj)]
    ensures st'.events == st.events + [[(Pair(ni, nj), ni), (Pair(ni, nj), nj)]]
    ensures var last := Last(st.nodes[nj].sizes);
            st'.nodes == st.nodes[Pair(ni, nj) := NodeData([Epoch(t, last.nTop, last.alpha, None, None)], None, map[])]
  {
    var pair := Pair(ni, nj);
    var last := Last(st.nodes[nj].sizes);
    var newEdges := [(pair, ni), (pair, nj)];
    st.(roots := st.roots[kj := Some(pair)][ki := None],
        nodes := st.nodes[pair := NodeData([Epoch(t, last.nTop, last.alpha, None, None)], None, map[])],
        edges := st.edges + newEdges, events := st.events + [newEdges])
  }

  /** A join removes one live root, also when both names are the same
      population, and keeps every root and edge known. */
  lemma JoinRootsCounts(st: State, ki: nat, ni: NodeId, kj: nat, nj: NodeId, t: Num)
    requires ki < |st.roots| && kj < |st.roots| && st.roots[ki] == Some(ni) && st.roots[kj] == Some(nj)
    requires ni in st.nodes && nj in st.nodes && |st.nodes[nj].sizes| > 0 && Pair(ni, nj) !in st.nodes
    ensures LiveCount(JoinRoots(st, ki, ni, kj, nj, t).roots) + 1 == LiveCount(st.roots)
    ensures Known(st) ==> Known(JoinRoots(st, ki, ni, kj, nj, t))
  {
    var once := st.roots[kj := Some(Pair(ni, nj))];
    LiveCountUpdate(st.roots, kj, Some(Pair(ni, nj)));
    LiveCountUpdate(once, ki, None);
  }

  /** Finishing a root's epochs changes only that node's data. */
  lemma FinaliseKeepsShape(st: State, p: PyNum, t: Num, top: GrowthTop)
    requires Finalise(st, p, t, top).Success?
    ensures var st' := Finalise(st, p, t, top).value.0;
            st'.roots == st.roots && st'.edges == st.edges && st'.events == st.events &&
            st'.nodes.Keys == st.nodes.Keys && Settings(st, st') &&
            (Known(st) ==> Known(st'))
  {
  }

  /** Root lookups see only the roots and which nodes exist. */
  lemma LookupAgrees(st: State, st': State, p: PyNum)
    requires st'.roots == st.roots && st'.nodes.Keys == st.nodes.Keys
    ensures RootNode(st', p) == RootNode(st, p)
  {
  }

  /** The part of `_ej` after the names are resolved: finish root i, then
      root j, then join them under a new pair node. */
  function JoinAt(st: State, pi: PyNum, pj: PyNum, t: Num, top: GrowthTop): (r: Result<State, MsError>)
    ensures r.Success? ==> RootNode(st, pi).Success? && RootNode(st, pj).Success?
    ensures r.Success? ==>
              var li := RootNode(st, pi).value;
              var lj := RootNode(st, pj).value;
              |r.value.roots| == |st.roots| && r.value.roots[li.0] == None &&
              r.value.roots[lj.0] == (if li.0 == lj.0 then None else Some(Pair(li.1, lj.1))) &&
              (forall k :: 0 <= k < |st.roots| && k != li.0 && k != lj.0 ==> r.value.roots[k] == st.roots[k]) &&
              r.value.edges == st.edges + [(Pair(li.1, lj.1), li.1), (Pair(li.1, lj.1), lj.1)] &&
              r.value.events == st.events + [[(Pair(li.1, lj.1), li.1), (Pair(li.1, lj.1), lj.1)]]
    ensures r.Success? ==> LiveCount(r.value.roots) + 1 == LiveCount(st.roots)
    ensures r.Success? ==> st.nodes.Keys <= r.value.nodes.Keys
    ensures r.Success? && Known(st) ==> Known(r.value)
    ensures r.Success? ==> Settings(st, r.value)
  {
    var fi :- Finalise(st, pi, t, top);
    FinaliseKeepsShape(st, pi, t, top);
    LookupAgrees(st, fi.0, pj);
    var fj :- Finalise(fi.0, pj, t, top);
    FinaliseKeepsShape(fi.0, pj, t, top);
    var st2 := fj.0;
    if Pair(fi.2, fj.2) in st2.nodes then Failure(NodeExists)
    else
      JoinRootsCounts(st2, fi.1, fi.2, fj.1, fj.2, t);
      Success(JoinRoots(st2, fi.1, fi.2, fj.1, fj.2, t))
  }

  /** `_ej(t, i, j)`: roots i and j are finished at t (`set_sizes`, i
      first) and joined. */
  function Ej(st: State, t: string, i: Value, j: Value, top: GrowthTop): (r: Result<Step, MsError>)
    ensures r.Success? ==>
              GetFloat(st.params, Text(t)).Success? && GetPop(st, i).Success? && GetPop(st, j).Success? &&
              RootNode(st, GetPop(st, i).value).Success? && RootNode(st, GetPop(st, j).value).Success?
    ensures r.Success? ==>
              var li := RootNode(st, GetPop(st, i).value).value;
              var lj := RootNode(st, GetPop(st, j).value).value;
              |r.value.st.roots| == |st.roots| && r.value.st.roots[li.0] == None &&
              r.value.st.roots[lj.0] == (if li.0 == lj.0 then None else Some(Pair(li.1, lj.1))) &&
              (forall k :: 0 <= k < |st.roots| && k != li.0 && k != lj.0 ==> r.value.st.roots[k] == st.roots[k]) &&
              r.value.st.edges == st.edges + [(Pair(li.1, lj.1), li.1), (Pair(li.1, lj.1), lj.1)] &&
              r.value.st.events == st.events + [[(Pair(li.1, lj.1), li.1), (Pair(li.1, lj.1), lj.1)]]
    ensures r.Success? ==> LiveCount(r.value.st.roots) + 1 == LiveCount(st.roots)
    ensures r.Success? ==> st.nodes.Keys <= r.value.st.nodes.Keys
    ensures r.Success? && Known(st) ==> Known(r.value.st)
    ensures r.Success? ==> Settings(st, r.value.st)
  {
    var tt :- GetFloat(st.params, Text(t));
    var pi :- GetPop(st, i);
    var pj :- GetPop(st, j);
    var st' :- JoinAt(st, pi, pj, AsNum(tt), top);
    Success(Step(st', [Val(tt), Val(pi), Val(pj)]))
  }

  /** A leaf as `_I` creates it: one epoch at time 0 with size 1 and no
      growth, and its number of sampled lineages. */
  function LeafData(lineages: PyNum): NodeData
  {
    NodeData([Epoch(Finite(0.0), Some(Finite(1.0)), NoGrowth, None, None)], Some(lineages), map[])
  }

  function LeafNodes(ls: seq<PyNum>): (m: map<NodeId, NodeData>)
    ensures forall k :: 1 <= k <= |ls| ==> Numbered(k) in m && m[Numbered(k)] == LeafData(ls[k - 1])
    ensures forall node :: node in m ==> node.Numbered? && 1 <= node.k <= |ls|
  {
    map k | 1 <= k <= |ls| :: Numbered(k) := LeafData(ls[k - 1])
  }

  lemma {:induction false} AllLive(roots: seq<Option<NodeId>>)
    requires forall k :: 0 <= k < |roots| ==> roots[k].Some?
    ensures LiveCount(roots) == |roots|
    decreases |roots|
  {
    if |roots| > 0 {
      AllLive(roots[..|roots| - 1]);
    }
  }

  function LineageCounts(params: map<string, PyNum>, lins: seq<string>): Result<seq<PyNum>, MsError>
  {
    MapAll(lins, (s: string) => GetInt(params, Text(s)))
  }

  /** The parser once `_I` has made the leaves: leaf k+1 has ls[k] lineages
      and is the root of population k+1. */
  function Leaves(st: State, ls: seq<PyNum>): (st': State)
    ensures |st'.roots| == |ls|
    ensures forall k :: 0 <= k < |ls| ==> st'.roots[k] == Some(Numbered(k + 1))
    ensures forall k :: 1 <= k <= |ls| ==> Numbered(k) in st'.nodes && st'.nodes[Numbered(k)] == LeafData(ls[k - 1])
    ensures forall node :: node in st'.nodes ==> node.Numbered? && 1 <= node.k <= |ls|
    ensures LiveCount(st'.roots) == |ls|
    ensures st'.edges == st.edges && st'.events == st.events
    ensures st'.params == st.params && st'.popByOrder == st.popByOrder
    ensures st'.prevTime == st.prevTime && st'.cmdList == st.cmdList
  {
    var roots := seq(|ls|, k requires 0 <= k < |ls| => Some(Numbered(k + 1)));
    AllLive(roots);
    st.(roots := roots, nodes := LeafNodes(ls))
  }

  lemma LeavesAreKnown(st: State, ls: seq<PyNum>)
    requires st.edges == [] && st.events == []
    ensures Known(Leaves(st, ls))
  {
    var st' := Leaves(st, ls);
    forall k | 0 <= k < |st'.roots| && st'.roots[k].Some?
      ensures st'.roots[k].value in st'.nodes
    {
      assert st'.roots[k] == Some(Numbered(k + 1));
    }
  }

  /** An integer count equals m exactly when it compares equal to m and is
      an `int`. */
  lemma CountMatches(n: PyNum, m: nat)
    ensures AsNum(n) == FromInt(m) && n.PyInt? <==> n == PyInt(m)
  {
  }

  /** `_I(npop, *lins_per_pop)`: on an empty parser, the leaves `1 .. npop`
      as roots of themselves; the number of lineage counts must be npop,
      and npop must be an `int` for `range`. */
  function I(st: State, npop: string, lins: seq<string>): (r: Result<Step, MsError>)
    ensures |st.roots| > 0 || |st.events| > 0 || |st.edges| > 0 || |st.nodes| > 0 ==> r == Failure(NotEmpty)
    ensures r.Success? <==>
              |st.roots| == 0 && |st.events| == 0 && |st.edges| == 0 && |st.nodes| == 0 &&
              GetInt(st.params, Text(npop)) == Success(PyInt(|lins|)) && LineageCounts(st.params, lins).Success?
    ensures r.Success? ==> r.value.st == Leaves(st, LineageCounts(st.params, lins).value)
    ensures r.Success? ==> Known(r.value.st)
    ensures r.Success? ==> Settings(st, r.value.st)
  {
    if |st.roots| > 0 || |st.events| > 0 || |st.edges| > 0 || |st.nodes| > 0 then Failure(NotEmpty)
    else Populate(st, npop, lins)
  }

  /** The body of `_I` past the emptiness check. */
  function Populate(st: State, npop: string, lins: seq<string>): (r: Result<Step, MsError>)
    requires st.edges == [] && st.events == []
    ensures r.Success? <==>
              GetInt(st.params, Text(npop)) == Success(PyInt(|lins|)) && LineageCounts(st.params, lins).Success?
    ensures r.Success? ==> r.value.st == Leaves(st, LineageCounts(st.params, lins).value)
    ensures r.Success? ==> Known(r.value.st)
  {
    var n :- GetInt(st.params, Text(npop));
    var ls :- LineageCounts(st.params, lins);
    CountMatches(n, |ls|);
    if AsNum(n) != FromInt(|ls|) then Failure(LineageCountMismatch)
    else if !n.PyInt? then Failure(NotAnInteger)
    else
      LeavesAreKnown(st, ls);
      Success(Step(Leaves(st, ls), [Val(n)] + Vals(ls)))
  }

  function Vals(ls: seq<PyNum>): (out: seq<Out>)
    ensures |out| == |ls| && forall k :: 0 <= k < |ls| ==> out[k] == Val(ls[k])
  {
    seq(|ls|, k requires 0 <= k < |ls| => Val(ls[k]))
  }

  // ------------------------------------------------------------ add_event

  function Arity(args: seq<string>, k: nat): (r: Result<(), MsError>)
    ensures r.Success? <==> |args| == k
  {
    if |args| < k then Failure(MissingArgument)
    else if |args| > k then Failure(TooManyArguments)
    else Success(())
  }

  /** What one handler does to the roots, edges and events: `-es` adds a
      live root and an event of two edges, `-ej` retires a root and adds an
      event of two edges, `-I` starts from nothing and makes only live
      roots, and every other flag leaves the graph's shape alone. */
  ghost predicate Effect(st: State, st': State, flag: string)
  {
    (flag == "es" ==>
       |st'.roots| == |st.roots| + 1 && LiveCount(st'.roots) == LiveCount(st.roots) + 1 &&
       |st'.edges| == |st.edges| + 2 && |st'.events| == |st.events| + 1) &&
    (flag == "ej" ==>
       |st'.roots| == |st.roots| && LiveCount(st'.roots) + 1 == LiveCount(st.roots) &&
       |st'.edges| == |st.edges| + 2 && |st'.events| == |st.events| + 1) &&
    (flag == "I" ==>
       |st.roots| == 0 && LiveCount(st'.roots) == |st'.roots| &&
       st'.edges == st.edges == [] && st'.events == st.events == []) &&
    (flag !in {"I", "es", "ej"} ==>
       st'.roots == st.roots && st'.edges == st.edges && st'.events == st.events)
  }

  /** `getattr(self, '_' + event_flag)(*args)`. */
  function Dispatch(st: State, flag: string, args: seq<string>, top: GrowthTop): (r: Result<Step, MsError>)
    ensures r.Success? ==> flag in {"I", "es", "ej", "en", "eN", "eg", "eG", "n", "g", "G"}
    ensures r.Success? ==> Settings(st, r.value.st)
    ensures r.Success? ==> Effect(st, r.value.st, flag)
    ensures r.Success? && (Known(st) || flag == "I") ==> Known(r.value.st)
  {
    if flag == "I" then
      if |args| == 0 then Failure(MissingArgument) else I(st, args[0], args[1..])
    else if flag == "es" then
      var _ :- Arity(args, 3);
      Es(st, args[0], Text(args[1]), args[2], top)
    else if flag == "ej" then
      var _ :- Arity(args, 3);
      Ej(st, args[0], Text(args[1]), Text(args[2]), top)
    else DispatchOther(st, flag, args)
  }

  /** The handlers that change sizes and growth rates but not the graph's
      shape: `-en`, `-eN`, `-eg`, `-eG`, `-n`, `-g`, `-G`. */
  function DispatchOther(st: State, flag: string, args: seq<string>): (r: Result<Step, MsError>)
    ensures r.Success? ==> flag in {"en", "eN", "eg", "eG", "n", "g", "G"}
    ensures r.Success? ==> Settings(st, r.value.st)
    ensures r.Success? ==>
              var st' := r.value.st;
              st'.roots == st.roots && st'.edges == st.edges && st'.events == st.events
    ensures r.Success? && Known(st) ==> Known(r.value.st)
  {
    if flag == "en" then
      var _ :- Arity(args, 3);
      En(st, args[0], Text(args[1]), args[2])
    else if flag == "eN" then
      var _ :- Arity(args, 2);
      ForAll(st, SizeAll(args[0], args[1]))
    else if flag == "eg" then
      var _ :- Arity(args, 3);
      Eg(st, args[0], Text(args[1]), args[2])
    else if flag == "eG" then
      var _ :- Arity(args, 2);
      ForAll(st, GrowthAll(args[0], args[1]))
    else if flag == "n" then
      var _ :- Arity(args, 2);
      N(st, Text(args[0]), args[1])
    else if flag == "g" then
      var _ :- Arity(args, 2);
      G(st, Text(args[0]), args[1])
    else if flag == "G" then
      var _ :- Arity(args, 1);
      ForAll(st, LeafGrowthAll(args[0]))
    else
      Failure(UnknownFlag)
  }

  /** How many logged commands carry the flag. */
  function FlagCount(log: seq<Logged>, flag: string): (c: nat)
    ensures c <= |log|
  {
    if |log| == 0 then 0
    else FlagCount(log[..|log| - 1], flag) + (if log[|log| - 1].flag == flag then 1 else 0)
  }

  /** The bookkeeping every run keeps: each `-ej` retires one root, and each
      of `-es` and `-ej` records one event of two edges. */
  ghost predicate Tally(st: State)
  {
    LiveCount(st.roots) + FlagCount(st.cmdList, "ej") == |st.roots| &&
    |st.events| == FlagCount(st.cmdList, "es") + FlagCount(st.cmdList, "ej") &&
    |st.edges| == 2 * |st.events|
  }

  /** `get_time` applied to a handler's returned arguments: the first one
      for an event flag, 0 otherwise. */
  function EventTime(flag: string, out: seq<Out>): (r: Result<Num, MsError>)
    ensures !IsEvent(flag) ==> r == Success(Finite(0.0))
    ensures IsEvent(flag) ==> (r.Success? <==> |out| > 0 && out[0].Val?)
    ensures IsEvent(flag) && r.Success? ==> r.value == AsNum(out[0].v)
  {
    if !IsEvent(flag) then Success(Finite(0.0))
    else if |out| > 0 && out[0].Val? then Success(AsNum(out[0].v))
    else Failure(MissingArgument)
  }

  /** The rest of `add_event` once the handler has run: the time must not
      go backwards, and the command is logged with its arguments
      substituted. */
  function Record(st: State, step: Step, flag: string): (r: Result<State, MsError>)
    requires step.st.cmdList == st.cmdList
    ensures r.Success? <==> EventTime(flag, step.out).Success? && Le(st.prevTime, EventTime(flag, step.out).value)
    ensures r.Success? ==>
              r.value == step.st.(prevTime := EventTime(flag, step.out).value,
                                  cmdList := st.cmdList + [Logged(flag, step.out)])
  {
    var t :- EventTime(flag, step.out);
    if !Le(st.prevTime, t) then Failure(TimeDecreased)
    else Success(step.st.(prevTime := t, cmdList := step.st.cmdList + [Logged(flag, step.out)]))
  }

  /** `add_event(flag, *args)`. */
  function AddEvent(st: State, flag: string, args: seq<string>, top: GrowthTop): (r: Result<State, MsError>)
    ensures r.Success? ==> |r.value.cmdList| == |st.cmdList| + 1
    ensures r.Success? ==> r.value.cmdList[..|st.cmdList|] == st.cmdList && r.value.cmdList[|st.cmdList|].flag == flag
    ensures r.Success? ==> Le(st.prevTime, r.value.prevTime)
    ensures r.Success? ==> r.value.params == st.params && r.value.popByOrder == st.popByOrder
    ensures r.Success? && Tally(st) ==> Tally(r.value)
    ensures r.Success? && (Known(st) || flag == "I") ==> Known(r.value)
  {
    var step :- Dispatch(st, flag, args, top);
    var st' :- Record(st, step, flag);
    TallyStep(st, step.st, st', flag, step.out);
    assert st'.cmdList[..|st.cmdList|] == st.cmdList;
    Success(st')
  }

  lemma TallyStep(st: State, mid: State, st': State, flag: string, out: seq<Out>)
    requires st'.roots == mid.roots && st'.events == mid.events && st'.edges == mid.edges
    requires st'.cmdList == st.cmdList + [Logged(flag, out)]
    requires Effect(st, mid, flag)
    ensures Tally(st) ==> Tally(st')
  {
    assert st'.cmdList[..|st'.cmdList| - 1] == st.cmdList;
  }

  /** The loop of `_to_nx` over the sorted commands. */
  function Run(st: State, cmds: seq<Command>, top: GrowthTop): (r: Result<State, MsError>)
    ensures r.Success? ==> r.value.params == st.params && r.value.popByOrder == st.popByOrder
    decreases |cmds|
  {
    if |cmds| == 0 then Success(st)
    else
      var st' :- AddEvent(st, cmds[0].flag, cmds[0].args, top);
      Run(st', cmds[1..], top)
  }

  function LoggedFlags(log: seq<Logged>): (r: seq<string>)
    ensures |r| == |log| && forall k :: 0 <= k < |log| ==> r[k] == log[k].flag
  {
    seq(|log|, k requires 0 <= k < |log| => log[k].flag)
  }

  function CommandFlags(cmds: seq<Command>): (r: seq<string>)
    ensures |r| == |cmds| && forall k :: 0 <= k < |cmds| ==> r[k] == cmds[k].flag
  {
    seq(|cmds|, k requires 0 <= k < |cmds| => cmds[k].flag)
  }

  lemma AddEventLogsFlag(st: State, flag: string, args: seq<string>, top: GrowthTop)
    requires AddEvent(st, flag, args, top).Success?
    ensures LoggedFlags(AddEvent(st, flag, args, top).value.cmdList) == LoggedFlags(st.cmdList) + [flag]
  {
    var log := AddEvent(st, flag, args, top).value.cmdList;
    assert forall k :: 0 <= k < |st.cmdList| ==> log[k] == log[..|st.cmdList|][k];
  }

  lemma RunUnfold(st: State, cmds: seq<Command>, top: GrowthTop)
    requires |cmds| > 0 && Run(st, cmds, top).Success?
    ensures AddEvent(st, cmds[0].flag, cmds[0].args, top).Success?
    ensures Run(st, cmds, top) == Run(AddEvent(st, cmds[0].flag, cmds[0].args, top).value, cmds[1..], top)
  {
  }

  lemma ConcatAssociates<T>(a: seq<T>, b: seq<T>, c: seq<T>)
    ensures (a + b) + c == a + (b + c)
  {
  }

  /** A successful run logs exactly the commands it was given, in order. */
  lemma {:induction false} RunLogsEveryCommand(st: State, cmds: seq<Command>, top: GrowthTop)
    requires Run(st, cmds, top).Success?
    ensures LoggedFlags(Run(st, cmds, top).value.cmdList) == LoggedFlags(st.cmdList) + CommandFlags(cmds)
    decreases |cmds|
  {
    if |cmds| == 0 {
      assert CommandFlags(cmds) == [];
    } else {
      RunUnfold(st, cmds, top);
      var st' := AddEvent(st, cmds[0].flag, cmds[0].args, top).value;
      var rest := cmds[1..];
      AddEventLogsFlag(st, cmds[0].flag, cmds[0].args, top);
      RunLogsEveryCommand(st', rest, top);
      var fs, f, cs := LoggedFlags(st.cmdList), [cmds[0].flag], CommandFlags(rest);
      assert CommandFlags(cmds) == f + cs;
      ConcatAssociates(fs, f, cs);
    }
  }

  /** Time never goes backwards over a run. */
  lemma {:induction false} RunTimeIncreases(st: State, cmds: seq<Command>, top: GrowthTop)
    requires Run(st, cmds, top).Success? && |cmds| > 0
    ensures Le(st.prevTime, Run(st, cmds, top).value.prevTime)
    decreases |cmds|
  {
    var st' := AddEvent(st, cmds[0].flag, cmds[0].args, top).value;
    if |cmds| > 1 {
      RunTimeIncreases(st', cmds[1..], top);
      LeTransitive(st.prevTime, st'.prevTime, Run(st', cmds[1..], top).value.prevTime);
    }
  }

  /** The bookkeeping of `Tally` holds after a run if it held before. */
  lemma {:induction false} RunKeepsTally(st: State, cmds: seq<Command>, top: GrowthTop)
    requires Run(st, cmds, top).Success? && Tally(st)
    ensures Tally(Run(st, cmds, top).value)
    decreases |cmds|
  {
    if |cmds| > 0 {
      var st' := AddEvent(st, cmds[0].flag, cmds[0].args, top).value;
      RunKeepsTally(st', cmds[1..], top);
    }
  }

  /** Every root and every edge end is a node after a run that starts with
      `-I` (or from a state where that already held). */
  lemma {:induction false} RunKeepsKnown(st: State, cmds: seq<Command>, top: GrowthTop)
    requires Run(st, cmds, top).Success?
    requires Known(st) || (|cmds| > 0 && cmds[0].flag == "I")
    ensures Known(Run(st, cmds, top).value)
    decreases |cmds|
  {
    if |cmds| > 0 {
      var st' := AddEvent(st, cmds[0].flag, cmds[0].args, top).value;
      RunKeepsKnown(st', cmds[1..], top);
    }
  }

  lemma LeTransitive(a: Num, b: Num, c: Num)
    requires Le(a, b)
    requires Le(b, c) || b == c
    ensures Le(a, c)
  {
  }

  // ------------------------------------------------------------ to_nx

  /** The roots still alive, in key order. */
  function LiveRoots(roots: seq<Option<NodeId>>): (r: seq<NodeId>)
    ensures |r| == LiveCount(roots)
    ensures forall node :: node in r <==> Some(node) in roots
  {
    if |roots| == 0 then []
    else
      var front := roots[..|roots| - 1];
      assert roots == front + [roots[|roots| - 1]];
      LiveRoots(front) + (match roots[|roots| - 1] case Some(node) => [node] case None => [])
  }

  /** What `to_nx` hands back: the `DiGraph` with its nodes' data, its
      edges, and the graph attributes `events` and `cmd`. */
  datatype Graph = Graph(nodes: map<NodeId, NodeData>, edges: seq<Edge>, events: seq<seq<Edge>>, cmd: seq<Logged>)

  /** `to_nx`: some node must exist, exactly one root must still be alive,
      and its epochs are finished with an end time of `inf`. */
  function ToNx(st: State, top: GrowthTop): (r: Result<Graph, MsError>)
    ensures |st.nodes| == 0 ==> r == Failure(NoPopulations)
    ensures |st.nodes| > 0 && LiveCount(st.roots) != 1 ==> r == Failure(NotSingleRoot)
    ensures r.Success? ==>
              LiveCount(st.roots) == 1 &&
              var root := LiveRoots(st.roots)[0];
              Some(root) in st.roots && root in st.nodes &&
              SetSizes(st.nodes[root].sizes, PosInf, top).Success? &&
              r.value == Graph(st.nodes[root := st.nodes[root].(sizes := SetSizes(st.nodes[root].sizes, PosInf, top).value)],
                               st.edges, st.events, st.cmdList)
    ensures Known(st) && |st.nodes| > 0 && LiveCount(st.roots) == 1 ==>
              LiveRoots(st.roots)[0] in st.nodes &&
              (r.Success? <==> SetSizes(st.nodes[LiveRoots(st.roots)[0]].sizes, PosInf, top).Success?)
  {
    if |st.nodes| == 0 then Failure(NoPopulations)
    else
      var live := LiveRoots(st.roots);
      if |live| != 1 then Failure(NotSingleRoot)
      else
        var root := live[0];
        assert Some(root) in st.roots;
        if root !in st.nodes then Failure(DeadPopulation)
        else
          var sizes :- SetSizes(st.nodes[root].sizes, PosInf, top);
          Success(Graph(st.nodes[root := st.nodes[root].(sizes := sizes)], st.edges, st.events, st.cmdList))
  }

  /** The root's last epoch lasts forever: its `tau` is `inf`. */
  lemma RootLastsForever(sizes: seq<Epoch>, top: GrowthTop)
    requires SetSizes(sizes, PosInf, top).Success?
    ensures SetSizes(sizes, PosInf, top).value[|sizes| - 1].tau == Some(PosInf)
  {
    var r := SetSizes(sizes, PosInf, top).value;
    assert Finished(sizes, PosInf, top, |sizes| - 1, r[|sizes| - 1]);
  }

  predicate GraphKnown(g: Graph)
  {
    forall e :: e in g.edges ==> e.0 in g.nodes && e.1 in g.nodes
  }

  /** `_to_nx(ms_cmd, *args, **kwargs)`. */
  function MsToGraph(msCmd: string, args: seq<PyNum>, kwargs: map<string, PyNum>, top: GrowthTop)
    : (r: Result<Graph, MsError>)
  {
    var params := MakeParams(args, kwargs);
    var cmds :- Group(SplitWhitespace(msCmd));
    var sorted :- SortCommands(params, cmds);
    var st :- Run(Initial(params, sorted.popByOrder), sorted.cmds, top);
    ToNx(st, top)
  }

  lemma MsToGraphUnfold(msCmd: string, args: seq<PyNum>, kwargs: map<string, PyNum>, top: GrowthTop)
    requires MsToGraph(msCmd, args, kwargs, top).Success?
    ensures Group(SplitWhitespace(msCmd)).Success?
    ensures SortCommands(MakeParams(args, kwargs), Group(SplitWhitespace(msCmd)).value).Success?
    ensures var sorted := SortCommands(MakeParams(args, kwargs), Group(SplitWhitespace(msCmd)).value).value;
            var run := Run(Initial(MakeParams(args, kwargs), sorted.popByOrder), sorted.cmds, top);
            run.Success? && MsToGraph(msCmd, args, kwargs, top) == ToNx(run.value, top)
  {
  }

  /** What `to_nx` keeps of a parser state with consistent bookkeeping:
      edges between nodes, two edges per event, one event per `-es`/`-ej`,
      and (a single root being left) one more root key than `-ej` merges. */
  lemma ToNxKeepsShape(st: State, top: GrowthTop)
    requires Known(st) && Tally(st) && ToNx(st, top).Success?
    ensures var g := ToNx(st, top).value;
            GraphKnown(g) && g.cmd == st.cmdList &&
            |g.edges| == 2 * |g.events| &&
            |g.events| == FlagCount(g.cmd, "es") + FlagCount(g.cmd, "ej") &&
            |st.roots| == FlagCount(st.cmdList, "ej") + 1
  {
    var g := ToNx(st, top).value;
    forall e | e in g.edges
      ensures e.0 in g.nodes && e.1 in g.nodes
    {
      assert e in st.edges;
    }
  }

  /** After a run from the empty parser whose first command is `-I`, the
      graph `to_nx` returns has every edge between nodes, two edges per
      event, one event per `-es`/`-ej`, the commands logged in order, and
      one more root key (made by `-I` and `-es`) than `-ej` merges. */
  lemma {:induction false} RunToGraph(params: map<string, PyNum>, popByOrder: map<nat, nat>, cmds: seq<Command>, top: GrowthTop)
    requires |cmds| > 0 && cmds[0].flag == "I"
    requires Run(Initial(params, popByOrder), cmds, top).Success?
    requires ToNx(Run(Initial(params, popByOrder), cmds, top).value, top).Success?
    ensures var st := Run(Initial(params, popByOrder), cmds, top).value;
            var g := ToNx(st, top).value;
            GraphKnown(g) &&
            |g.edges| == 2 * |g.events| &&
            |g.events| == FlagCount(g.cmd, "es") + FlagCount(g.cmd, "ej") &&
            LoggedFlags(g.cmd) == CommandFlags(cmds) &&
            |st.roots| == FlagCount(st.cmdList, "ej") + 1
  {
    var init := Initial(params, popByOrder);
    InitialIsEmpty(params, popByOrder);
    RunKeepsTally(init, cmds, top);
    RunKeepsKnown(init, cmds, top);
    RunLogsEveryCommand(init, cmds, top);
    var st := Run(init, cmds, top).value;
    ToNxKeepsShape(st, top);
  }

  lemma InitialIsEmpty(params: map<string, PyNum>, popByOrder: map<nat, nat>)
    ensures Tally(Initial(params, popByOrder))
    ensures LoggedFlags(Initial(params, popByOrder).cmdList) == []
  {
  }

  /** `_to_nx` returns a well-formed graph whose log is the grouped
      commands in the order `sorted_cmd_list` gives them. */
  lemma {:induction false} MsGraphIsWellFormed(msCmd: string, args: seq<PyNum>, kwargs: map<string, PyNum>, top: GrowthTop)
    requires MsToGraph(msCmd, args, kwargs, top).Success?
    ensures var g := MsToGraph(msCmd, args, kwargs, top).value;
            GraphKnown(g) &&
            |g.edges| == 2 * |g.events| &&
            |g.events| == FlagCount(g.cmd, "es") + FlagCount(g.cmd, "ej") &&
            LoggedFlags(g.cmd) == CommandFlags(SortCommands(MakeParams(args, kwargs), Group(SplitWhitespace(msCmd)).value).value.cmds)
  {
    MsToGraphUnfold(msCmd, args, kwargs, top);
    var params := MakeParams(args, kwargs);
    var sorted := SortCommands(params, Group(SplitWhitespace(msCmd)).value).value;
    SortedStartsWithI(params, Group(SplitWhitespace(msCmd)).value);
    RunToGraph(params, sorted.popByOrder, sorted.cmds, top);
  }
}

