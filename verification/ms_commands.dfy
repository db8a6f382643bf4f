/** `MsCmdParser.sorted_cmd_list` (parse_ms.py): an ms command line is cut
    into flag groups, the groups are stably sorted by event time by
    insertion at `bisect_right`, and the populations are numbered `#k` in
    order of creation and ranked by the time they appear. */
module MsCommands {
  import opened Wrappers
  import opened Numbers
  import opened Decimal
  import opened MsParams

  /** One flag group: `-es 0.5 1 0.2` is `Command("es", ["0.5", "1", "0.2"])`. */
  datatype Command = Command(flag: string, args: seq<string>)

  // ------------------------------------------------------------ tokenising

  /** A token `-<letter>...` opens a new flag group. */
  predicate OpensCommand(tok: string)
  {
    |tok| >= 2 && tok[0] == '-' && IsAsciiLetter(tok[1])
  }

  /** Tokens on which the test `arg[0] == '-' and arg[1].isalpha()` raises. */
  predicate IsBadToken(tok: string)
  {
    |tok| == 0 || tok == "-"
  }

  predicate FlagOk(flag: string)
  {
    |flag| >= 1 && IsAsciiLetter(flag[0])
  }

  predicate ArgOk(arg: string)
  {
    !IsBadToken(arg) && !OpensCommand(arg)
  }

  predicate WellFormed(cmds: seq<Command>)
  {
    forall k :: 0 <= k < |cmds| ==>
      FlagOk(cmds[k].flag) && forall a :: 0 <= a < |cmds[k].args| ==> ArgOk(cmds[k].args[a])
  }

  /** One pass of the first loop of `sorted_cmd_list`: a flag token opens
      a group named without the dash; every other token, negative numbers
      included, joins the current group; a value before any flag has no
      group to join. */
  function Step(cmds: seq<Command>, tok: string): (r: Result<seq<Command>, MsError>)
    ensures r.Success? <==> !IsBadToken(tok) && (OpensCommand(tok) || |cmds| > 0)
    ensures r.Success? && WellFormed(cmds) ==> WellFormed(r.value) && |r.value| > 0
  {
    if IsBadToken(tok) then Failure(BadToken)
    else if OpensCommand(tok) then Success(cmds + [Command(tok[1..], [])])
    else if |cmds| == 0 then Failure(ArgumentBeforeCommand)
    else
      var last := cmds[|cmds| - 1];
      Success(cmds[..|cmds| - 1] + [Command(last.flag, last.args + [tok])])
  }

  /** The first loop of `sorted_cmd_list` over the tokens of
      `ms_cmd.split()`. */
  function Group(tokens: seq<string>): (r: Result<seq<Command>, MsError>)
    ensures r.Success? <==>
              (forall k :: 0 <= k < |tokens| ==> !IsBadToken(tokens[k])) &&
              (|tokens| > 0 ==> OpensCommand(tokens[0]))
    ensures r.Success? ==> WellFormed(r.value)
    ensures r.Success? && |tokens| > 0 ==> |r.value| > 0
    decreases |tokens|
  {
    if |tokens| == 0 then Success([])
    else
      var front := tokens[..|tokens| - 1];
      assert forall k :: 0 <= k < |front| ==> front[k] == tokens[k];
      var cmds :- Group(front);
      Step(cmds, tokens[|tokens| - 1])
  }

  lemma GroupUnfold(tokens: seq<string>)
    requires |tokens| > 0 && Group(tokens[..|tokens| - 1]).Success?
    ensures Group(tokens) == Step(Group(tokens[..|tokens| - 1]).value, tokens[|tokens| - 1])
  {
  }

  /** The tokens of one group. */
  function Tokens(c: Command): seq<string>
  {
    ["-" + c.flag] + c.args
  }

  /** Reference inverse of `Group`: the groups written out again. */
  function Ungroup(cmds: seq<Command>): seq<string>
  {
    if |cmds| == 0 then [] else Ungroup(cmds[..|cmds| - 1]) + Tokens(cmds[|cmds| - 1])
  }

  lemma StepThenUngroup(cmds: seq<Command>, tok: string)
    requires Step(cmds, tok).Success?
    ensures Ungroup(Step(cmds, tok).value) == Ungroup(cmds) + [tok]
  {
    var r := Step(cmds, tok).value;
    if OpensCommand(tok) {
      assert r[..|r| - 1] == cmds;
      assert "-" + tok[1..] == tok;
    } else {
      var last := cmds[|cmds| - 1];
      assert r[..|r| - 1] == cmds[..|cmds| - 1];
      assert Ungroup(cmds) == Ungroup(cmds[..|cmds| - 1]) + Tokens(last);
    }
  }

  /** Grouping loses no token: writing the groups out gives the tokens back. */
  lemma {:induction false} GroupThenUngroup(tokens: seq<string>)
    requires Group(tokens).Success?
    ensures Ungroup(Group(tokens).value) == tokens
    decreases |tokens|
  {
    if |tokens| > 0 {
      var front := tokens[..|tokens| - 1];
      var tok := tokens[|tokens| - 1];
      assert Group(front).Success? by {
        GroupPrefix(tokens);
      }
      var g := Group(front).value;
      assert Ungroup(g) == front by {
        GroupThenUngroup(front);
      }
      assert Group(tokens) == Step(g, tok) by {
        GroupUnfold(tokens);
      }
      assert Ungroup(Step(g, tok).value) == Ungroup(g) + [tok] by {
        StepThenUngroup(g, tok);
      }
      assert tokens == front + [tok];
    }
  }

  /** A failing prefix makes the whole grouping fail. */
  lemma GroupPrefix(tokens: seq<string>)
    requires |tokens| > 0 && Group(tokens).Success?
    ensures Group(tokens[..|tokens| - 1]).Success?
  {
  }

  /** A flag token after a grouped prefix opens a new, empty group. */
  lemma GroupOpens(prefix: seq<string>, cmds: seq<Command>, flag: string)
    requires Group(prefix) == Success(cmds) && FlagOk(flag)
    ensures Group(prefix + ["-" + flag]) == Success(cmds + [Command(flag, [])])
  {
    var tokens := prefix + ["-" + flag];
    assert tokens[..|tokens| - 1] == prefix;
    GroupUnfold(tokens);
    assert ("-" + flag)[1..] == flag;
  }

  /** An argument token after a grouped prefix joins the last group. */
  lemma GroupJoins(prefix: seq<string>, cmds: seq<Command>, flag: string, args: seq<string>, tok: string)
    requires Group(prefix) == Success(cmds + [Command(flag, args)]) && ArgOk(tok)
    ensures Group(prefix + [tok]) == Success(cmds + [Command(flag, args + [tok])])
  {
    var tokens := prefix + [tok];
    assert tokens[..|tokens| - 1] == prefix;
    GroupUnfold(tokens);
    var r := cmds + [Command(flag, args)];
    assert r[..|r| - 1] == cmds;
  }

  lemma {:induction false} GroupAppendsArguments(prefix: seq<string>, cmds: seq<Command>, flag: string, args: seq<string>)
    requires Group(prefix) == Success(cmds)
    requires FlagOk(flag) && forall a :: 0 <= a < |args| ==> ArgOk(args[a])
    ensures Group(prefix + Tokens(Command(flag, args))) == Success(cmds + [Command(flag, args)])
    decreases |args|
  {
    if |args| == 0 {
      assert prefix + Tokens(Command(flag, args)) == prefix + ["-" + flag];
      GroupOpens(prefix, cmds, flag);
    } else {
      var shorter := args[..|args| - 1];
      var tok := args[|args| - 1];
      var before := prefix + Tokens(Command(flag, shorter));
      GroupAppendsArguments(prefix, cmds, flag, shorter);
      GroupJoins(before, cmds, flag, shorter, tok);
      TokensSnoc(prefix, flag, args);
    }
  }

  lemma TokensSnoc(prefix: seq<string>, flag: string, args: seq<string>)
    requires |args| > 0
    ensures var shorter := args[..|args| - 1];
            shorter + [args[|args| - 1]] == args &&
            (prefix + Tokens(Command(flag, shorter))) + [args[|args| - 1]] == prefix + Tokens(Command(flag, args))
  {
    var shorter := args[..|args| - 1];
    assert shorter + [args[|args| - 1]] == args;
  }

  /** Well-formed groups written out are grouped back into themselves. */
  lemma {:induction false} UngroupThenGroup(cmds: seq<Command>)
    requires WellFormed(cmds)
    ensures Group(Ungroup(cmds)) == Success(cmds)
  {
    if |cmds| > 0 {
      var front := cmds[..|cmds| - 1];
      var last := cmds[|cmds| - 1];
      assert cmds == front + [last];
      assert Ungroup(cmds) == Ungroup(front) + Tokens(Command(last.flag, last.args));
      UngroupThenGroup(front);
      GroupAppendsArguments(Ungroup(front), front, last.flag, last.args);
    }
  }

  // ------------------------------------------------------------ times

  predicate IsEvent(flag: string)
  {
    |flag| > 0 && flag[0] == 'e'
  }

  /** `get_time`: an event's time is its first argument as a float; every
      other command happens at time 0. */
  function GetTime(params: map<string, PyNum>, c: Command): (r: Result<Num, MsError>)
    ensures r.Success? ==> !r.value.NaN?
    ensures |c.flag| > 0 && !IsEvent(c.flag) ==> r == Success(Finite(0.0))
    ensures IsEvent(c.flag) ==>
              (r.Success? <==> |c.args| > 0 && GetFloat(params, Text(c.args[0])).Success?) &&
              (r.Success? ==> r.value == AsNum(GetFloat(params, Text(c.args[0])).value))
  {
    if |c.flag| == 0 then Failure(BadToken)
    else if IsEvent(c.flag) then
      if |c.args| == 0 then Failure(MissingArgument)
      else
        var t :- GetFloat(params, Text(c.args[0]));
        Success(AsNum(t))
    else Success(Finite(0.0))
  }

  // ------------------------------------------------------------ insertion

  /** An entry of a list kept sorted by time; `tag` is its rank in order of
      insertion, which is what stability means here. */
  datatype Keyed<T> = Keyed(time: Num, tag: nat, item: T)

  predicate KeyLe<T>(a: Keyed<T>, b: Keyed<T>)
  {
    Lt(a.time, b.time) || (a.time == b.time && a.tag <= b.tag)
  }

  /** Non-decreasing in time; equal times in insertion order. */
  predicate SortedByKey<T>(s: seq<Keyed<T>>)
  {
    forall i, j :: 0 <= i < j < |s| ==> KeyLe(s[i], s[j])
  }

  predicate NoNaN<T>(s: seq<Keyed<T>>)
  {
    forall i :: 0 <= i < |s| ==> !s[i].time.NaN?
  }

  /** `bisect.bisect_right`: the first position holding a later time (on a
      sorted list, every position after it does too). */
  function BisectRight<T>(s: seq<Keyed<T>>, t: Num): (k: nat)
    ensures k <= |s|
    ensures forall i :: 0 <= i < k ==> !Lt(t, s[i].time)
    ensures k < |s| ==> Lt(t, s[k].time)
  {
    if |s| == 0 then 0
    else if Lt(t, s[0].time) then 0
    else 1 + BisectRight(s[1..], t)
  }

  /** `times.insert(idx, t); sorted_cmd.insert(idx, cmd)`. */
  function Insert<T>(s: seq<Keyed<T>>, e: Keyed<T>): (r: seq<Keyed<T>>)
    ensures |r| == |s| + 1
  {
    var k := BisectRight(s, e.time);
    s[..k] + [e] + s[k..]
  }

  lemma InsertElements<T>(s: seq<Keyed<T>>, e: Keyed<T>)
    ensures var r := Insert(s, e);
            var k := BisectRight(s, e.time);
            r[k] == e &&
            (forall i :: 0 <= i < k ==> r[i] == s[i]) &&
            (forall i :: k < i < |r| ==> r[i] == s[i - 1])
  {
  }

  lemma LtAfterLe(a: Num, b: Num, c: Num)
    requires !a.NaN? && !b.NaN? && !c.NaN?
    requires Lt(a, b) && Le(b, c)
    ensures Lt(a, c)
  {
    LeTotalOrder(a, b, c);
  }

  lemma KeyLeOfLater<T>(e: Keyed<T>, x: Keyed<T>)
    requires !e.time.NaN? && !x.time.NaN?
    requires !Lt(e.time, x.time) && x.tag < e.tag
    ensures KeyLe(x, e)
  {
    LeTotalOrder(x.time, e.time, e.time);
  }

  /** Inserting an entry with a larger tag at `bisect_right` keeps the list
      sorted and stable. */
  lemma InsertKeepsSorted<T>(s: seq<Keyed<T>>, e: Keyed<T>)
    requires SortedByKey(s) && NoNaN(s) && !e.time.NaN?
    requires forall i :: 0 <= i < |s| ==> s[i].tag < e.tag
    ensures SortedByKey(Insert(s, e)) && NoNaN(Insert(s, e))
  {
    var r := Insert(s, e);
    var k := BisectRight(s, e.time);
    InsertElements(s, e);
    forall i, j | 0 <= i < j < |r|
      ensures KeyLe(r[i], r[j])
    {
      if j < k {
      } else if i < k && j == k {
        KeyLeOfLater(e, r[i]);
      } else if i < k {
        assert KeyLe(s[i], s[j - 1]);
      } else if i == k {
        assert Lt(e.time, s[k].time);
        if j - 1 > k {
          assert KeyLe(s[k], s[j - 1]);
          LeTotalOrder(e.time, s[k].time, s[j - 1].time);
          LtAfterLe(e.time, s[k].time, s[j - 1].time);
        }
      } else {
        assert KeyLe(s[i - 1], s[j - 1]);
      }
    }
  }

  // ------------------------------------------------------------ sorting

  /** `f` applied to every element in order; the first failure is the
      result. */
  function MapAll<A, B, E>(xs: seq<A>, f: A -> Result<B, E>): (r: Result<seq<B>, E>)
    ensures r.Success? <==> forall j :: 0 <= j < |xs| ==> f(xs[j]).Success?
    ensures r.Success? ==> |r.value| == |xs|
    ensures r.Success? ==> forall j :: 0 <= j < |xs| ==> r.value[j] == f(xs[j]).value
    decreases |xs|
  {
    if |xs| == 0 then Success([])
    else
      var front := xs[..|xs| - 1];
      assert forall j :: 0 <= j < |front| ==> front[j] == xs[j];
      var ys :- MapAll(front, f);
      var y :- f(xs[|xs| - 1]);
      Success(ys + [y])
  }

  /** The time of every command, in order; the first undefined time is the
      error `sorted_cmd_list` raises. */
  function Times(params: map<string, PyNum>, cmds: seq<Command>): (r: Result<seq<Num>, MsError>)
    ensures r.Success? <==> forall j :: 0 <= j < |cmds| ==> GetTime(params, cmds[j]).Success?
    ensures r.Success? ==> |r.value| == |cmds| && NoNaNTime(r.value)
    ensures r.Success? ==> forall j :: 0 <= j < |cmds| ==> r.value[j] == GetTime(params, cmds[j]).value
  {
    MapAll(cmds, c => GetTime(params, c))
  }

  function CountEs(cmds: seq<Command>): (n: nat)
    ensures n <= |cmds|
  {
    if |cmds| == 0 then 0 else CountEs(cmds[..|cmds| - 1]) + (if cmds[|cmds| - 1].flag == "es" then 1 else 0)
  }

  /** The leaf populations `#1 .. #n`, all at time 0. */
  function LeafPops(n: nat): (r: seq<Keyed<nat>>)
    ensures |r| == n
    ensures forall i :: 0 <= i < n ==> r[i] == Keyed(Finite(0.0), i + 1, i + 1)
  {
    seq(n, i requires 0 <= i < n => Keyed(Finite(0.0), i + 1, i + 1))
  }

  datatype SortState = SortState(cmds: seq<Keyed<Command>>, pops: seq<Keyed<nat>>)

  predicate NoNaNTime(times: seq<Num>)
  {
    forall j :: 0 <= j < |times| ==> !times[j].NaN?
  }

  predicate SomeNegative(times: seq<Num>)
  {
    exists j :: 0 <= j < |times| && Lt(times[j], Finite(0.0))
  }

  /** The sorted list holds every command exactly once, tagged with its
      position in the input and carrying its time. */
  ghost predicate IsTaggedPermutation(cmds: seq<Command>, times: seq<Num>, sorted: seq<Keyed<Command>>)
    requires |times| == |cmds|
  {
    |sorted| == |cmds| &&
    (forall i :: 0 <= i < |sorted| ==> sorted[i].tag < |cmds|) &&
    (forall i, j :: 0 <= i < j < |sorted| ==> sorted[i].tag != sorted[j].tag) &&
    (forall i :: 0 <= i < |sorted| ==> sorted[i].item == cmds[sorted[i].tag] && sorted[i].time == times[sorted[i].tag])
  }

  /** The population list holds the names 1 .. |pops| exactly once each. */
  ghost predicate NamesArePermutation(pops: seq<Keyed<nat>>)
  {
    (forall i :: 0 <= i < |pops| ==> 1 <= pops[i].item <= |pops| && pops[i].tag == pops[i].item) &&
    (forall i, j :: 0 <= i < j < |pops| ==> pops[i].item != pops[j].item) &&
    (forall k :: 1 <= k <= |pops| ==> HasName(pops, k))
  }

  ghost predicate HasName(pops: seq<Keyed<nat>>, k: nat)
  {
    exists i :: 0 <= i < |pops| && pops[i].item == k
  }

  lemma TaggedPermutationExtends(cmds: seq<Command>, times: seq<Num>, sorted: seq<Keyed<Command>>)
    requires |cmds| > 0 && |times| == |cmds|
    requires IsTaggedPermutation(cmds[..|cmds| - 1], times[..|times| - 1], sorted)
    ensures IsTaggedPermutation(cmds, times, Insert(sorted, Keyed(times[|cmds| - 1], |cmds| - 1, cmds[|cmds| - 1])))
  {
    var n := |cmds| - 1;
    var e := Keyed(times[n], n, cmds[n]);
    var r := Insert(sorted, e);
    var b := BisectRight(sorted, e.time);
    InsertElements(sorted, e);
    forall i | 0 <= i < |r|
      ensures r[i].tag < |cmds| && r[i].item == cmds[r[i].tag] && r[i].time == times[r[i].tag]
      ensures i != b ==> r[i].tag < n
    {
      if i != b {
        var i' := if i < b then i else i - 1;
        assert r[i] == sorted[i'];
        assert cmds[..n][sorted[i'].tag] == cmds[sorted[i'].tag];
        assert times[..n][sorted[i'].tag] == times[sorted[i'].tag];
      }
    }
    forall i, j | 0 <= i < j < |r|
      ensures r[i].tag != r[j].tag
    {
      if i != b && j != b {
        var i' := if i < b then i else i - 1;
        var j' := if j < b then j else j - 1;
        assert r[i] == sorted[i'] && r[j] == sorted[j'];
      }
    }
  }

  lemma LeafNames(n: nat)
    ensures NamesArePermutation(LeafPops(n))
  {
    var r := LeafPops(n);
    forall k | 1 <= k <= n
      ensures HasName(r, k)
    {
      assert r[k - 1].item == k;
    }
  }

  lemma NamesInsertAt(pops: seq<Keyed<nat>>, b: nat, p: Keyed<nat>)
    requires NamesArePermutation(pops) && b <= |pops|
    requires p.item == |pops| + 1 && p.tag == p.item
    ensures NamesArePermutation(pops[..b] + [p] + pops[b..])
  {
    var r := pops[..b] + [p] + pops[b..];
    assert forall i :: 0 <= i < b ==> r[i] == pops[i];
    assert forall i :: b < i < |r| ==> r[i] == pops[i - 1];
    forall i, j | 0 <= i < j < |r|
      ensures r[i].item != r[j].item
    {
      if i != b && j != b {
        var i' := if i < b then i else i - 1;
        var j' := if j < b then j else j - 1;
        assert r[i] == pops[i'] && r[j] == pops[j'];
      }
    }
    forall k | 1 <= k <= |r|
      ensures HasName(r, k)
    {
      if k == |r| {
        assert r[b].item == k;
      } else {
        assert HasName(pops, k);
        var i :| 0 <= i < |pops| && pops[i].item == k;
        if i < b {
          assert r[i].item == k;
        } else {
          assert r[i + 1].item == k;
        }
      }
    }
  }

  lemma NamesExtend(pops: seq<Keyed<nat>>, t: Num)
    requires NamesArePermutation(pops)
    ensures NamesArePermutation(Insert(pops, Keyed(t, |pops| + 1, |pops| + 1)))
  {
    NamesInsertAt(pops, BisectRight(pops, t), Keyed(t, |pops| + 1, |pops| + 1));
  }

  /** A non-negative insertion leaves a prefix of time-0 entries alone. */
  lemma InsertAfterZeroPrefix<T>(s: seq<Keyed<T>>, e: Keyed<T>, m: nat)
    requires m <= |s| && forall i :: 0 <= i < m ==> s[i].time == Finite(0.0)
    requires !e.time.NaN? && !Lt(e.time, Finite(0.0))
    ensures Insert(s, e)[..m] == s[..m]
  {
    var k := BisectRight(s, e.time);
    assert k >= m;
    InsertElements(s, e);
  }

  /** A negative time, once seen, keeps the head of the list negative. */
  lemma InsertKeepsNegativeHead<T>(s: seq<Keyed<T>>, e: Keyed<T>)
    requires |s| > 0 && !s[0].time.NaN? && !e.time.NaN?
    requires Lt(s[0].time, Finite(0.0)) || Lt(e.time, Finite(0.0))
    ensures Lt(Insert(s, e)[0].time, Finite(0.0))
  {
    InsertElements(s, e);
    var k := BisectRight(s, e.time);
    if k > 0 && !Lt(s[0].time, Finite(0.0)) {
      assert !Lt(e.time, s[0].time);
      LeTotalOrder(e.time, s[0].time, Finite(0.0));
    }
  }

  /** What the sorted command list holds after the insertion loop. */
  ghost predicate CmdsInv(cmds: seq<Command>, times: seq<Num>, sc: seq<Keyed<Command>>)
    requires |times| == |cmds|
  {
    SortedByKey(sc) && NoNaN(sc) && IsTaggedPermutation(cmds, times, sc)
  }

  /** The head of the sorted command list: a negative time goes first;
      otherwise a first command at time 0 stays first. */
  ghost predicate HeadInv(cmds: seq<Command>, times: seq<Num>, sc: seq<Keyed<Command>>)
    requires |times| == |cmds|
  {
    |sc| == |cmds| &&
    (|cmds| > 0 && !SomeNegative(times) && times[0] == Finite(0.0) ==> sc[0] == Keyed(Finite(0.0), 0, cmds[0])) &&
    (SomeNegative(times) ==> Lt(sc[0].time, Finite(0.0)))
  }

  /** The times of the `-es` commands, in input order. */
  function EsTimes(cmds: seq<Command>, times: seq<Num>): (r: seq<Num>)
    requires |times| == |cmds|
    ensures |r| == CountEs(cmds)
    decreases |cmds|
  {
    if |cmds| == 0 then []
    else
      EsTimes(cmds[..|cmds| - 1], times[..|times| - 1]) +
      (if cmds[|cmds| - 1].flag == "es" then [times[|times| - 1]] else [])
  }

  /** The time at which population `#k` appears: 0 for the n leaves, and
      for the population the j-th `-es` creates (named n + j), that
      command's time. */
  function PopTime(cmds: seq<Command>, times: seq<Num>, n: nat, k: nat): Num
    requires |times| == |cmds| && 1 <= k <= n + CountEs(cmds)
  {
    if k <= n then Finite(0.0) else EsTimes(cmds, times)[k - n - 1]
  }

  /** The sorted population list: the n leaves and one population per
      `-es`, named 1 .. their number, each with its time, the leaves first
      unless some time is negative. */
  ghost predicate PopsInv(cmds: seq<Command>, times: seq<Num>, n: nat, pops: seq<Keyed<nat>>)
    requires |times| == |cmds|
  {
    |pops| == n + CountEs(cmds) && SortedByKey(pops) && NoNaN(pops) && NamesArePermutation(pops) &&
    PopTimesOk(cmds, times, n, pops) &&
    (!SomeNegative(times) ==> pops[..n] == LeafPops(n))
  }

  /** Every population carries the time at which it appears. */
  ghost predicate PopTimesOk(cmds: seq<Command>, times: seq<Num>, n: nat, pops: seq<Keyed<nat>>)
    requires |times| == |cmds|
  {
    forall i :: 0 <= i < |pops| ==>
      1 <= pops[i].item <= n + CountEs(cmds) && pops[i].time == PopTime(cmds, times, n, pops[i].item)
  }

  lemma NegativeOfPrefix(times: seq<Num>)
    requires |times| > 0
    ensures SomeNegative(times) <==> SomeNegative(times[..|times| - 1]) || Lt(times[|times| - 1], Finite(0.0))
  {
    var front := times[..|times| - 1];
    if SomeNegative(times) {
      var j :| 0 <= j < |times| && Lt(times[j], Finite(0.0));
      if j < |front| {
        assert Lt(front[j], Finite(0.0));
      }
    }
    if SomeNegative(front) {
      var j :| 0 <= j < |front| && Lt(front[j], Finite(0.0));
      assert Lt(times[j], Finite(0.0));
    }
  }

  lemma CmdsStep(cmds: seq<Command>, times: seq<Num>, sc: seq<Keyed<Command>>)
    requires |cmds| > 0 && |times| == |cmds| && NoNaNTime(times)
    requires CmdsInv(cmds[..|cmds| - 1], times[..|times| - 1], sc)
    ensures CmdsInv(cmds, times, Insert(sc, Keyed(times[|cmds| - 1], |cmds| - 1, cmds[|cmds| - 1])))
  {
    InsertKeepsSorted(sc, Keyed(times[|cmds| - 1], |cmds| - 1, cmds[|cmds| - 1]));
    TaggedPermutationExtends(cmds, times, sc);
  }

  lemma HeadStep(cmds: seq<Command>, times: seq<Num>, sc: seq<Keyed<Command>>)
    requires |cmds| > 0 && |times| == |cmds| && NoNaNTime(times)
    requires NoNaN(sc) && HeadInv(cmds[..|cmds| - 1], times[..|times| - 1], sc)
    ensures HeadInv(cmds, times, Insert(sc, Keyed(times[|cmds| - 1], |cmds| - 1, cmds[|cmds| - 1])))
  {
    var e := Keyed(times[|cmds| - 1], |cmds| - 1, cmds[|cmds| - 1]);
    var r := Insert(sc, e);
    NegativeOfPrefix(times);
    if |cmds| == 1 {
      assert r == [e];
    } else if !SomeNegative(times) {
      if times[0] == Finite(0.0) {
        InsertAfterZeroPrefix(sc, e, 1);
        assert r[0] == r[..1][0];
      }
    } else {
      InsertKeepsNegativeHead(sc, e);
    }
  }

  /** Appending a command keeps the times of the populations that
      already exist. */
  lemma PopTimeOfPrefix(cmds: seq<Command>, times: seq<Num>, n: nat, k: nat)
    requires |cmds| > 0 && |times| == |cmds|
    requires 1 <= k <= n + CountEs(cmds[..|cmds| - 1])
    ensures PopTime(cmds, times, n, k) == PopTime(cmds[..|cmds| - 1], times[..|times| - 1], n, k)
  {
  }

  lemma PopTimesStep(cmds: seq<Command>, times: seq<Num>, n: nat, pops: seq<Keyed<nat>>)
    requires |cmds| > 0 && |times| == |cmds|
    requires PopTimesOk(cmds[..|cmds| - 1], times[..|times| - 1], n, pops)
    requires |pops| == n + CountEs(cmds[..|cmds| - 1])
    ensures cmds[|cmds| - 1].flag == "es" ==>
              PopTimesOk(cmds, times, n, Insert(pops, Keyed(times[|cmds| - 1], |pops| + 1, |pops| + 1)))
    ensures cmds[|cmds| - 1].flag != "es" ==> PopTimesOk(cmds, times, n, pops)
  {
    PopTimesKeep(cmds, times, n, pops);
    if cmds[|cmds| - 1].flag == "es" {
      PopTimesInsert(cmds, times, n, pops);
    }
  }

  /** Names and times of the existing populations stay right when one more
      command is read. */
  lemma PopTimesKeep(cmds: seq<Command>, times: seq<Num>, n: nat, pops: seq<Keyed<nat>>)
    requires |cmds| > 0 && |times| == |cmds|
    requires PopTimesOk(cmds[..|cmds| - 1], times[..|times| - 1], n, pops)
    ensures PopTimesOk(cmds, times, n, pops)
  {
    forall i | 0 <= i < |pops|
      ensures 1 <= pops[i].item <= n + CountEs(cmds) && pops[i].time == PopTime(cmds, times, n, pops[i].item)
    {
      PopTimeOfPrefix(cmds, times, n, pops[i].item);
    }
  }

  /** The population an `-es` creates is named after the count so far and
      carries the time of that command. */
  lemma PopTimesInsert(cmds: seq<Command>, times: seq<Num>, n: nat, pops: seq<Keyed<nat>>)
    requires |cmds| > 0 && |times| == |cmds| && cmds[|cmds| - 1].flag == "es"
    requires PopTimesOk(cmds, times, n, pops)
    requires |pops| == n + CountEs(cmds[..|cmds| - 1])
    ensures PopTimesOk(cmds, times, n, Insert(pops, Keyed(times[|cmds| - 1], |pops| + 1, |pops| + 1)))
  {
    var p := Keyed(times[|cmds| - 1], |pops| + 1, |pops| + 1);
    assert CountEs(cmds) == |pops| + 1 - n;
    assert p.time == PopTime(cmds, times, n, p.item);
    InsertElements(pops, p);
  }


  lemma PopsStep(cmds: seq<Command>, times: seq<Num>, n: nat, pops: seq<Keyed<nat>>)
    requires |cmds| > 0 && |times| == |cmds| && NoNaNTime(times)
    requires PopsInv(cmds[..|cmds| - 1], times[..|times| - 1], n, pops)
    ensures cmds[|cmds| - 1].flag == "es" ==>
              PopsInv(cmds, times, n, Insert(pops, Keyed(times[|cmds| - 1], |pops| + 1, |pops| + 1)))
    ensures cmds[|cmds| - 1].flag != "es" ==> PopsInv(cmds, times, n, pops)
  {
    NegativeOfPrefix(times);
    PopTimesStep(cmds, times, n, pops);
    var t := times[|cmds| - 1];
    if cmds[|cmds| - 1].flag == "es" {
      var p := Keyed(t, |pops| + 1, |pops| + 1);
      InsertKeepsSorted(pops, p);
      NamesExtend(pops, t);
      if !SomeNegative(times) {
        InsertAfterZeroPrefix(pops, p, n);
      }
    }
  }

  /** Everything the insertion loop keeps. */
  ghost predicate SortInv(cmds: seq<Command>, times: seq<Num>, n: nat, st: SortState)
    requires |times| == |cmds|
  {
    CmdsInv(cmds, times, st.cmds) && HeadInv(cmds, times, st.cmds) && PopsInv(cmds, times, n, st.pops)
  }

  /** One pass of the insertion loop: the command goes in at `bisect_right`
      of its time, and an `-es` also adds the next population name. */
  function InsertCommand(st: SortState, c: Command, t: Num, tag: nat): SortState
  {
    var sortedCmds := Insert(st.cmds, Keyed(t, tag, c));
    if c.flag == "es" then SortState(sortedCmds, Insert(st.pops, Keyed(t, |st.pops| + 1, |st.pops| + 1)))
    else SortState(sortedCmds, st.pops)
  }

  lemma SortStep(cmds: seq<Command>, times: seq<Num>, n: nat, st: SortState)
    requires |cmds| > 0 && |times| == |cmds| && NoNaNTime(times)
    requires SortInv(cmds[..|cmds| - 1], times[..|times| - 1], n, st)
    ensures SortInv(cmds, times, n, InsertCommand(st, cmds[|cmds| - 1], times[|cmds| - 1], |cmds| - 1))
  {
    CmdsStep(cmds, times, st.cmds);
    HeadStep(cmds, times, st.cmds);
    PopsStep(cmds, times, n, st.pops);
  }

  /** The insertion loop of `sorted_cmd_list`, the times already computed,
      with n leaf populations. */
  function SortLoop(cmds: seq<Command>, times: seq<Num>, n: nat): (r: SortState)
    requires |times| == |cmds| && NoNaNTime(times)
    ensures SortInv(cmds, times, n, r)
    decreases |cmds|
  {
    if |cmds| == 0 then
      LeafNames(n);
      SortState([], LeafPops(n))
    else
      var front := cmds[..|cmds| - 1];
      var st := SortLoop(front, times[..|times| - 1], n);
      SortStep(cmds, times, n, st);
      InsertCommand(st, cmds[|cmds| - 1], times[|cmds| - 1], |cmds| - 1)
  }

  /** `pop_by_order`: name number k of `#k` to its 1-based rank in the
      time-sorted population list. */
  function PopRanks(pops: seq<Keyed<nat>>): (m: map<nat, nat>)
    requires NamesArePermutation(pops)
    ensures forall i :: 0 <= i < |pops| ==> pops[i].item in m && m[pops[i].item] == i + 1
    ensures forall k :: k in m ==> exists i :: 0 <= i < |pops| && pops[i].item == k
  {
    map i | 0 <= i < |pops| :: pops[i].item := i + 1
  }

  /** `out` lists the commands sorted by time, equal times in input order:
      `out[i]` is input command `perm[i]`, and `perm` is a permutation. */
  ghost predicate StableSortOf(cmds: seq<Command>, times: seq<Num>, out: seq<Command>, perm: seq<nat>)
    requires |times| == |cmds|
  {
    |perm| == |cmds| && |out| == |cmds| &&
    (forall i :: 0 <= i < |perm| ==> perm[i] < |cmds| && out[i] == cmds[perm[i]]) &&
    (forall i, j :: 0 <= i < j < |perm| ==> perm[i] != perm[j]) &&
    (forall i, j :: 0 <= i < j < |perm| ==>
       Le(times[perm[i]], times[perm[j]]) && (times[perm[i]] == times[perm[j]] ==> perm[i] < perm[j]))
  }

  /** `pop_by_order` ranks the populations `#1 .. #(n + number of -es)`
      one-to-one by the time at which they appear, ties by name. */
  ghost predicate RanksPopulations(cmds: seq<Command>, times: seq<Num>, n: nat, m: map<nat, nat>)
    requires |times| == |cmds|
  {
    (forall k :: k in m <==> 1 <= k <= n + CountEs(cmds)) &&
    (forall k :: k in m ==> 1 <= m[k] <= n + CountEs(cmds)) &&
    (forall k, k' :: k in m && k' in m && k != k' ==> m[k] != m[k']) &&
    (forall k, k' :: k in m && k' in m && m[k] < m[k'] ==>
       var tk := PopTime(cmds, times, n, k);
       var tk' := PopTime(cmds, times, n, k');
       Le(tk, tk') && (tk == tk' ==> k < k'))
  }

  lemma SortedCommandsAreStable(cmds: seq<Command>, times: seq<Num>, sc: seq<Keyed<Command>>)
    requires |times| == |cmds| && CmdsInv(cmds, times, sc)
    ensures StableSortOf(cmds, times, seq(|sc|, i requires 0 <= i < |sc| => sc[i].item),
                         seq(|sc|, i requires 0 <= i < |sc| => sc[i].tag))
  {
    var perm := seq(|sc|, i requires 0 <= i < |sc| => sc[i].tag);
    forall i, j | 0 <= i < j < |perm|
      ensures Le(times[perm[i]], times[perm[j]]) && (times[perm[i]] == times[perm[j]] ==> perm[i] < perm[j])
    {
      assert KeyLe(sc[i], sc[j]);
    }
  }

  lemma RankedDomain(cmds: seq<Command>, times: seq<Num>, n: nat, pops: seq<Keyed<nat>>)
    requires |times| == |cmds| && PopsInv(cmds, times, n, pops)
    ensures forall k :: k in PopRanks(pops) <==> 1 <= k <= n + CountEs(cmds)
    ensures forall k :: k in PopRanks(pops) ==> 1 <= PopRanks(pops)[k] <= n + CountEs(cmds)
  {
    var m := PopRanks(pops);
    forall k | 1 <= k <= n + CountEs(cmds)
      ensures k in m
    {
      assert HasName(pops, k);
    }
  }

  lemma RankedInOrder(cmds: seq<Command>, times: seq<Num>, n: nat, pops: seq<Keyed<nat>>, k: nat, k': nat)
    requires |times| == |cmds| && PopsInv(cmds, times, n, pops)
    requires k in PopRanks(pops) && k' in PopRanks(pops)
    ensures k != k' ==> PopRanks(pops)[k] != PopRanks(pops)[k']
    ensures PopRanks(pops)[k] < PopRanks(pops)[k'] ==>
              Le(PopTime(cmds, times, n, k), PopTime(cmds, times, n, k')) &&
              (PopTime(cmds, times, n, k) == PopTime(cmds, times, n, k') ==> k < k')
  {
    var i := RankOf(pops, k);
    var j := RankOf(pops, k');
    if i < j {
      assert KeyLe(pops[i], pops[j]);
      assert pops[i].tag == k && pops[j].tag == k';
      assert pops[i].time == PopTime(cmds, times, n, k) && pops[j].time == PopTime(cmds, times, n, k');
      assert k != k' && !pops[i].time.NaN?;
      RankedPair(pops[i], pops[j]);
    }
  }

  /** The position of a named population in the sorted list. */
  lemma RankOf(pops: seq<Keyed<nat>>, k: nat) returns (i: nat)
    requires NamesArePermutation(pops) && k in PopRanks(pops)
    ensures i < |pops| && pops[i].item == k && PopRanks(pops)[k] == i + 1
  {
    i :| 0 <= i < |pops| && pops[i].item == k;
  }

  /** Two distinct populations in key order: the first appears no later,
      and on a tie it has the smaller name. */
  lemma RankedPair(a: Keyed<nat>, b: Keyed<nat>)
    requires a.tag == a.item && b.tag == b.item && a.item != b.item && KeyLe(a, b)
    requires !a.time.NaN?
    ensures Le(a.time, b.time) && (a.time == b.time ==> a.item < b.item)
  {
  }

  lemma SortedPopsAreRanked(cmds: seq<Command>, times: seq<Num>, n: nat, pops: seq<Keyed<nat>>)
    requires |times| == |cmds| && PopsInv(cmds, times, n, pops)
    ensures RanksPopulations(cmds, times, n, PopRanks(pops))
  {
    RankedDomain(cmds, times, n, pops);
    forall k, k' | k in PopRanks(pops) && k' in PopRanks(pops)
      ensures k != k' ==> PopRanks(pops)[k] != PopRanks(pops)[k']
      ensures PopRanks(pops)[k] < PopRanks(pops)[k'] ==>
                Le(PopTime(cmds, times, n, k), PopTime(cmds, times, n, k')) &&
                (PopTime(cmds, times, n, k) == PopTime(cmds, times, n, k') ==> k < k')
    {
      RankedInOrder(cmds, times, n, pops, k, k');
    }
  }

  lemma LeavesKeepRanks(cmds: seq<Command>, times: seq<Num>, n: nat, pops: seq<Keyed<nat>>)
    requires |times| == |cmds| && PopsInv(cmds, times, n, pops) && !SomeNegative(times)
    ensures forall k :: 1 <= k <= n ==> k in PopRanks(pops) && PopRanks(pops)[k] == k
  {
    forall k | 1 <= k <= n
      ensures k in PopRanks(pops) && PopRanks(pops)[k] == k
    {
      assert pops[k - 1] == pops[..n][k - 1];
    }
  }

  /** An injective list of |perm| indices below |perm| uses every index. */
  lemma DistinctCard(perm: seq<nat>)
    requires forall i, i' :: 0 <= i < i' < |perm| ==> perm[i] != perm[i']
    ensures |set i | 0 <= i < |perm| :: perm[i]| == |perm|
  {
    if |perm| > 0 {
      var front := perm[..|perm| - 1];
      DistinctCard(front);
      assert (set i | 0 <= i < |perm| :: perm[i]) == (set i | 0 <= i < |front| :: front[i]) + {perm[|perm| - 1]};
    }
  }

  /** The indices below n. */
  function Indices(n: nat): (r: set<nat>)
    ensures forall x: nat :: x in r <==> x < n
    ensures |r| == n
  {
    if n == 0 then {} else Indices(n - 1) + {n - 1}
  }

  lemma InjectiveCovers(perm: seq<nat>, j: nat)
    requires forall i :: 0 <= i < |perm| ==> perm[i] < |perm|
    requires forall i, i' :: 0 <= i < i' < |perm| ==> perm[i] != perm[i']
    requires j < |perm|
    ensures exists i :: 0 <= i < |perm| && perm[i] == j
  {
    var used := set i | 0 <= i < |perm| :: perm[i];
    var rest := Indices(|perm|) - {j};
    DistinctCard(perm);
    if j !in used {
      assert used <= rest;
      assert |rest| == |perm| - 1;
      SubsetCard(used, rest);
    }
  }

  lemma SubsetCard(a: set<nat>, b: set<nat>)
    requires a <= b
    ensures |a| <= |b|
  {
    if a != {} {
      var x :| x in a;
      SubsetCard(a - {x}, b - {x});
    }
  }

  /** The check after sorting: the first command is still `-I` exactly when
      no time is negative. */
  lemma HeadIsI(params: map<string, PyNum>, cmds: seq<Command>, times: seq<Num>, st: SortState)
    requires |cmds| > 0 && cmds[0].flag == "I"
    requires Times(params, cmds) == Success(times)
    requires |times| == |cmds| && CmdsInv(cmds, times, st.cmds) && HeadInv(cmds, times, st.cmds)
    ensures st.cmds[0].item.flag == "I" <==> !SomeNegative(times)
  {
    if SomeNegative(times) {
      var tag := st.cmds[0].tag;
      assert st.cmds[0].time == times[tag] == GetTime(params, cmds[tag]).value;
    }
  }

  datatype SortedCommands = SortedCommands(cmds: seq<Command>, popByOrder: map<nat, nat>)

  function Max0(i: int): nat
  {
    if i < 0 then 0 else i
  }

  /** `n_leaf_pop`, as the length of `range(1, n_leaf_pop + 1)`: a float
      (a `$` parameter holding one) makes `range` raise. */
  function LeafCount(params: map<string, PyNum>, cmds: seq<Command>): Result<nat, MsError>
    requires |cmds| > 0
  {
    if |cmds[0].args| == 0 then Failure(MissingArgument)
    else
      var v :- GetInt(params, Text(cmds[0].args[0]));
      if v.PyInt? then Success(Max0(v.i)) else Failure(NotAnInteger)
  }

  /** `sorted_cmd_list` after tokenising: the first group must be `-I`,
      whose first argument is the number of leaf populations; the commands
      come back stably sorted by time together with `pop_by_order`. */
  function SortCommands(params: map<string, PyNum>, cmds: seq<Command>): (r: Result<SortedCommands, MsError>)
    ensures r.Success? <==>
              |cmds| > 0 && cmds[0].flag == "I" && LeafCount(params, cmds).Success? &&
              Times(params, cmds).Success? && !SomeNegative(Times(params, cmds).value)
    ensures r.Success? ==>
              exists perm :: StableSortOf(cmds, Times(params, cmds).value, r.value.cmds, perm)
    ensures r.Success? ==>
              RanksPopulations(cmds, Times(params, cmds).value, LeafCount(params, cmds).value, r.value.popByOrder) &&
              forall k :: 1 <= k <= LeafCount(params, cmds).value ==> r.value.popByOrder[k] == k
  {
    if |cmds| == 0 || cmds[0].flag != "I" then Failure(FirstCommandNotI)
    else
      var n :- LeafCount(params, cmds);
      var times :- Times(params, cmds);
      var st := SortLoop(cmds, times, n);
      HeadIsI(params, cmds, times, st);
      if st.cmds[0].item.flag != "I" then Failure(FirstCommandNotI)
      else
        SortedCommandsAreStable(cmds, times, st.cmds);
        SortedPopsAreRanked(cmds, times, n, st.pops);
        LeavesKeepRanks(cmds, times, n, st.pops);
        Success(SortedCommands(seq(|cmds|, i requires 0 <= i < |cmds| => st.cmds[i].item), PopRanks(st.pops)))
  }

  /** With no negative time, a stable sort by time leaves a first command
      at time 0 in front. */
  lemma FirstCommandStaysFirst(cmds: seq<Command>, times: seq<Num>, out: seq<Command>, perm: seq<nat>)
    requires |times| == |cmds| && |cmds| > 0 && NoNaNTime(times)
    requires StableSortOf(cmds, times, out, perm)
    requires !SomeNegative(times) && times[0] == Finite(0.0)
    ensures out[0] == cmds[0]
  {
    if perm[0] != 0 {
      InjectiveCovers(perm, 0);
    }
  }

  /** The first command `sorted_cmd_list` returns is the `-I` command. */
  lemma SortedStartsWithI(params: map<string, PyNum>, cmds: seq<Command>)
    requires SortCommands(params, cmds).Success?
    ensures |SortCommands(params, cmds).value.cmds| == |cmds| > 0
    ensures SortCommands(params, cmds).value.cmds[0] == cmds[0] && cmds[0].flag == "I"
  {
    var times := Times(params, cmds).value;
    var out := SortCommands(params, cmds).value.cmds;
    var perm :| StableSortOf(cmds, times, out, perm);
    assert times[0] == GetTime(params, cmds[0]).value == Finite(0.0);
    FirstCommandStaysFirst(cmds, times, out, perm);
  }
}

