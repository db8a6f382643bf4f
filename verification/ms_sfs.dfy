/** `read_empirical_sfs` (parse_ms.py): the site frequency spectrum of one
    block of `ms` output, as a multiset of per-population derived-allele
    counts, one element per segregating site. */
module MsSfs {
  import opened Wrappers
  import opened Decimal

  /** How reading a block fails (the assertions, and the IndexError and
      ValueError the code can raise). */
  datatype ReadError =
    | NotABlock              // no first line, or it is not "//"
    | BadSegsites            // no second line, no ':' in it, or no integer after it
    | MissingTrailingBlank   // n + 1 lines whose last is not empty
    | WrongLineCount         // the number of haplotype lines is not n
    | NoHaplotypes           // `lines[0]` of an empty haplotype list
    | BadPopulation          // `pops_by_lin[i]` is no index of the count list
    | ShortLine              // `line[column]` past the end of a line
    | NotADigit              // `int(line[column])` raises
    | EmptyColumn            // a column without any derived allele

  function Sum(xs: seq<int>): int
  {
    if |xs| == 0 then 0 else Sum(xs[..|xs| - 1]) + xs[|xs| - 1]
  }

  lemma {:induction false} SumOfUpdate(xs: seq<int>, k: nat, d: int)
    requires k < |xs|
    ensures Sum(xs[k := xs[k] + d]) == Sum(xs) + d
    decreases |xs|
  {
    var ys := xs[k := xs[k] + d];
    if k < |xs| - 1 {
      assert ys[..|ys| - 1] == xs[..|xs| - 1][k := xs[k] + d];
      SumOfUpdate(xs[..|xs| - 1], k, d);
    } else {
      assert ys[..|ys| - 1] == xs[..|xs| - 1];
    }
  }

  lemma {:induction false} SumOfZeros(n: nat)
    ensures Sum(seq(n, _ => 0)) == 0
  {
    if n > 0 {
      assert seq(n, _ => 0)[..n - 1] == seq(n - 1, _ => 0);
      SumOfZeros(n - 1);
    }
  }

  function Max0(i: int): nat
  {
    if i < 0 then 0 else i
  }

  /** `xs[k]` for a list of length `len`: negative k counts from the end. */
  function PyIndex(len: nat, k: int): (r: Option<nat>)
    ensures r.Some? <==> -(len as int) <= k < len
    ensures r.Some? ==> r.value < len && (r.value as int == k || r.value as int == k + len)
  {
    if 0 <= k < len then Some(k)
    else if -(len as int) <= k < 0 then Some(k + len)
    else None
  }

  /** `int(c)` of one character. */
  function Digit(c: char): (r: Option<nat>)
    ensures r.Some? <==> IsDigit(c)
    ensures r.Some? ==> r.value <= 9 && DigitChar(r.value) == c
  {
    if IsDigit(c) then Some(DigitValue(c)) else None
  }

  /** `int(lines[1].split(":")[1])`. */
  function Segsites(line: string): (r: Result<int, ReadError>)
    ensures r.Success? <==> |SplitOn(line, ':')| >= 2 && ParseInt(SplitOn(line, ':')[1]).Some?
    ensures r.Success? ==> r.value == ParseInt(SplitOn(line, ':')[1]).value
  {
    var parts := SplitOn(line, ':');
    if |parts| < 2 then Failure(BadSegsites)
    else
      match ParseInt(parts[1])
      case Some(i) => Success(i)
      case None => Failure(BadSegsites)
  }

  /** Dropping the header and an empty trailing line: exactly n haplotype
      lines must remain. */
  function Haplotypes(rest: seq<string>, n: nat): (r: Result<seq<string>, ReadError>)
    ensures r.Success? <==> |rest| == n || (|rest| == n + 1 && rest[n] == "")
    ensures r.Success? ==> r.value == rest[..n]
  {
    if |rest| == n + 1 then
      if rest[n] != "" then Failure(MissingTrailingBlank) else Success(rest[..n])
    else if |rest| != n then Failure(WrongLineCount)
    else Success(rest)
  }

  // ------------------------------------------------------------ one column

  /** Line i may be counted in the column: its population names an entry of
      the count list, and the line has a digit there. */
  predicate Readable(lines: seq<string>, popsByLin: seq<int>, len: nat, column: nat, i: nat)
    requires i < |lines| <= |popsByLin|
  {
    PyIndex(len, popsByLin[i]).Some? && column < |lines[i]| && IsDigit(lines[i][column])
  }

  /** The derived alleles lines `0 .. m-1` contribute to population k. */
  function PopTotal(lines: seq<string>, popsByLin: seq<int>, len: nat, column: nat, m: nat, k: nat): int
    requires m <= |lines| <= |popsByLin|
    requires forall i :: 0 <= i < m ==> Readable(lines, popsByLin, len, column, i)
  {
    if m == 0 then 0
    else
      assert Readable(lines, popsByLin, len, column, m - 1);
      PopTotal(lines, popsByLin, len, column, m - 1, k) +
      (if PyIndex(len, popsByLin[m - 1]) == Some(k) then DigitValue(lines[m - 1][column]) else 0)
  }

  /** All derived alleles of lines `0 .. m-1`. */
  function DigitTotal(lines: seq<string>, popsByLin: seq<int>, len: nat, column: nat, m: nat): int
    requires m <= |lines| <= |popsByLin|
    requires forall i :: 0 <= i < m ==> Readable(lines, popsByLin, len, column, i)
  {
    if m == 0 then 0
    else
      assert Readable(lines, popsByLin, len, column, m - 1);
      DigitTotal(lines, popsByLin, len, column, m - 1) + DigitValue(lines[m - 1][column])
  }

  /** The inner loop over the first m lines: `dd[pops_by_lin[i]] +=
      int(line[column])`. The target index is evaluated before the
      right-hand side, so a bad population is reported first. */
  function Column(lines: seq<string>, numPops: int, popsByLin: seq<int>, column: nat, m: nat)
    : Result<seq<int>, ReadError>
    requires m <= |lines| <= |popsByLin|
    decreases m
  {
    if m == 0 then Success(seq(Max0(numPops), _ => 0))
    else
      var dd :- Column(lines, numPops, popsByLin, column, m - 1);
      match PyIndex(|dd|, popsByLin[m - 1])
      case None => Failure(BadPopulation)
      case Some(k) =>
        if column >= |lines[m - 1]| then Failure(ShortLine)
        else
          match Digit(lines[m - 1][column])
          case None => Failure(NotADigit)
          case Some(d) => Success(dd[k := dd[k] + d])
  }

  /** A column read yields one count per population. */
  lemma {:induction false} ColumnLength(lines: seq<string>, numPops: int, popsByLin: seq<int>, column: nat, m: nat)
    requires m <= |lines| <= |popsByLin|
    ensures Column(lines, numPops, popsByLin, column, m).Success? ==>
            |Column(lines, numPops, popsByLin, column, m).value| == Max0(numPops)
    decreases m
  {
    if m > 0 {
      ColumnLength(lines, numPops, popsByLin, column, m - 1);
    }
  }

  /** The first m lines of a column can be read exactly when each of them
      can. */
  lemma {:induction false} ColumnSucceeds(lines: seq<string>, numPops: int, popsByLin: seq<int>, column: nat, m: nat)
    requires m <= |lines| <= |popsByLin|
    ensures Column(lines, numPops, popsByLin, column, m).Success? <==>
            forall i :: 0 <= i < m ==> Readable(lines, popsByLin, Max0(numPops), column, i)
    decreases m
  {
    if m > 0 {
      ColumnSucceeds(lines, numPops, popsByLin, column, m - 1);
      ColumnLength(lines, numPops, popsByLin, column, m - 1);
      var prev := Column(lines, numPops, popsByLin, column, m - 1);
      if prev.Success? && !Readable(lines, popsByLin, Max0(numPops), column, m - 1) {
        assert Column(lines, numPops, popsByLin, column, m).Failure?;
      }
    }
  }

  /** After m lines, entry k of the counts totals the digits of the lines
      sampled from population k, and all entries together total every
      digit read. */
  lemma {:induction false} ColumnTotals(lines: seq<string>, numPops: int, popsByLin: seq<int>, column: nat, m: nat)
    requires m <= |lines| <= |popsByLin|
    requires Column(lines, numPops, popsByLin, column, m).Success?
    ensures forall i :: 0 <= i < m ==> Readable(lines, popsByLin, Max0(numPops), column, i)
    ensures var dd := Column(lines, numPops, popsByLin, column, m).value;
            (forall k :: 0 <= k < |dd| ==> dd[k] == PopTotal(lines, popsByLin, Max0(numPops), column, m, k)) &&
            Sum(dd) == DigitTotal(lines, popsByLin, Max0(numPops), column, m)
    decreases m
  {
    ColumnSucceeds(lines, numPops, popsByLin, column, m);
    if m == 0 {
      SumOfZeros(Max0(numPops));
    } else {
      ColumnTotals(lines, numPops, popsByLin, column, m - 1);
      ColumnLength(lines, numPops, popsByLin, column, m - 1);
      var dd := Column(lines, numPops, popsByLin, column, m - 1).value;
      var k := PyIndex(|dd|, popsByLin[m - 1]).value;
      var d := DigitValue(lines[m - 1][column]);
      assert Column(lines, numPops, popsByLin, column, m).value == dd[k := dd[k] + d];
      SumOfUpdate(dd, k, d);
    }
  }

  // ------------------------------------------------------------ the block

  /** Column j can be read and holds a derived allele. */
  predicate ColumnOk(lines: seq<string>, numPops: int, popsByLin: seq<int>, j: nat)
    requires |lines| <= |popsByLin|
  {
    Column(lines, numPops, popsByLin, j, |lines|).Success? &&
    Sum(Column(lines, numPops, popsByLin, j, |lines|).value) > 0
  }

  /** The outer loop over the first c columns. */
  function Columns(lines: seq<string>, numPops: int, popsByLin: seq<int>, c: nat)
    : Result<multiset<seq<int>>, ReadError>
    requires |lines| <= |popsByLin|
    decreases c
  {
    if c == 0 then Success(multiset{})
    else
      var acc :- Columns(lines, numPops, popsByLin, c - 1);
      match Column(lines, numPops, popsByLin, c - 1, |lines|)
      case Failure(e) => Failure(e)
      case Success(dd) =>
      if Sum(dd) <= 0 then Failure(EmptyColumn)
      else Success(acc + multiset{dd})
  }

  /** The first c columns are read exactly when each of them can be read
      and holds a derived allele. */
  lemma {:induction false} ColumnsSucceed(lines: seq<string>, numPops: int, popsByLin: seq<int>, c: nat)
    requires |lines| <= |popsByLin|
    ensures Columns(lines, numPops, popsByLin, c).Success? <==>
            forall j :: 0 <= j < c ==> ColumnOk(lines, numPops, popsByLin, j)
    decreases c
  {
    if c > 0 {
      ColumnsSucceed(lines, numPops, popsByLin, c - 1);
      if Columns(lines, numPops, popsByLin, c - 1).Success? && ColumnOk(lines, numPops, popsByLin, c - 1) {
        assert Columns(lines, numPops, popsByLin, c).Success?;
      } else if Columns(lines, numPops, popsByLin, c - 1).Failure? {
        assert Columns(lines, numPops, popsByLin, c).Failure?;
      } else {
        assert Columns(lines, numPops, popsByLin, c).Failure?;
      }
    }
  }

  /** Every count list has one entry per population and a positive total. */
  ghost predicate AllCounts(m: multiset<seq<int>>, n: nat)
  {
    forall dd :: dd in m ==> |dd| == n && Sum(dd) > 0
  }

  lemma AllCountsAdd(m: multiset<seq<int>>, dd: seq<int>, n: nat)
    ensures AllCounts(m, n) && |dd| == n && Sum(dd) > 0 ==> AllCounts(m + multiset{dd}, n)
  {
  }

  /** A successful read holds one count list per column, each with one
      entry per population and a positive total. */
  lemma {:induction false} ColumnsShape(lines: seq<string>, numPops: int, popsByLin: seq<int>, c: nat)
    requires |lines| <= |popsByLin|
    requires Columns(lines, numPops, popsByLin, c).Success?
    ensures |Columns(lines, numPops, popsByLin, c).value| == c
    ensures AllCounts(Columns(lines, numPops, popsByLin, c).value, Max0(numPops))
    decreases c
  {
    if c > 0 {
      var acc, dd := ColumnsStep(lines, numPops, popsByLin, c);
      ColumnsShape(lines, numPops, popsByLin, c - 1);
      AllCountsAdd(acc, dd, Max0(numPops));
    }
  }

  /** A successful read of c columns extends that of the first c - 1 by the
      counts of column c - 1. */
  lemma ColumnsStep(lines: seq<string>, numPops: int, popsByLin: seq<int>, c: nat)
    returns (acc: multiset<seq<int>>, dd: seq<int>)
    requires |lines| <= |popsByLin| && c > 0
    requires Columns(lines, numPops, popsByLin, c).Success?
    ensures Columns(lines, numPops, popsByLin, c - 1) == Success(acc)
    ensures Column(lines, numPops, popsByLin, c - 1, |lines|) == Success(dd)
    ensures |dd| == Max0(numPops) && Sum(dd) > 0
    ensures Columns(lines, numPops, popsByLin, c).value == acc + multiset{dd}
  {
    acc := Columns(lines, numPops, popsByLin, c - 1).value;
    dd := Column(lines, numPops, popsByLin, c - 1, |lines|).value;
    ColumnLength(lines, numPops, popsByLin, c - 1, |lines|);
  }

  /** `read_empirical_sfs(lines, num_pops, pops_by_lin)`. */
  function ReadSfs(lines: seq<string>, numPops: int, popsByLin: seq<int>): (r: Result<multiset<seq<int>>, ReadError>)
  {
    if |lines| == 0 || lines[0] != "//" then Failure(NotABlock)
    else if |lines| < 2 then Failure(BadSegsites)
    else
      var nss :- Segsites(lines[1]);
      if nss == 0 then Success(multiset{})
      else
        var hap :- Haplotypes(if |lines| >= 3 then lines[3..] else [], |popsByLin|);
        if |hap| == 0 then Failure(NoHaplotypes)
        else Columns(hap, numPops, popsByLin, |hap[0]|)
  }

  /** What a block read promises: none of it without a "//" line; an empty
      spectrum when there are no segregating sites; otherwise one element
      per column of the first haplotype, each with `num_pops` entries and at
      least one derived allele. */
  lemma ReadSfsShape(lines: seq<string>, numPops: int, popsByLin: seq<int>)
    ensures (|lines| == 0 || lines[0] != "//") ==> ReadSfs(lines, numPops, popsByLin) == Failure(NotABlock)
    ensures |lines| >= 2 && lines[0] == "//" && Segsites(lines[1]) == Success(0) ==>
              ReadSfs(lines, numPops, popsByLin) == Success(multiset{})
    ensures ReadSfs(lines, numPops, popsByLin).Success? && Segsites(lines[1]) != Success(0) ==>
              |lines| >= 4 &&
              |ReadSfs(lines, numPops, popsByLin).value| == |lines[3]| &&
              AllCounts(ReadSfs(lines, numPops, popsByLin).value, Max0(numPops))
  {
    if |lines| >= 2 && lines[0] == "//" && Segsites(lines[1]).Success? && Segsites(lines[1]).value != 0 {
      var rest := if |lines| >= 3 then lines[3..] else [];
      var hap := Haplotypes(rest, |popsByLin|);
      if hap.Success? && |hap.value| > 0 {
        assert |lines| >= 4 && hap.value[0] == lines[3];
        var cols := Columns(hap.value, numPops, popsByLin, |hap.value[0]|);
        assert ReadSfs(lines, numPops, popsByLin) == cols;
        if cols.Success? {
          ColumnsShape(hap.value, numPops, popsByLin, |hap.value[0]|);
        }
      }
    }
  }

  // ------------------------------------------------------------ the loops

  /** One pass of the inner loop. */
  lemma ColumnStep(lines: seq<string>, numPops: int, popsByLin: seq<int>, column: nat, i: nat, dd: seq<int>)
    requires i < |lines| <= |popsByLin|
    requires Column(lines, numPops, popsByLin, column, i) == Success(dd)
    ensures Column(lines, numPops, popsByLin, column, i + 1) ==
            match PyIndex(|dd|, popsByLin[i])
            case None => Failure(BadPopulation)
            case Some(k) =>
              if column >= |lines[i]| then Failure(ShortLine)
              else
                match Digit(lines[i][column])
                case None => Failure(NotADigit)
                case Some(d) => Success(dd[k := dd[k] + d])
  {
  }

  /** Once the inner loop fails, the rest of the lines change nothing. */
  lemma {:induction false} ColumnStaysFailed(lines: seq<string>, numPops: int, popsByLin: seq<int>, column: nat, m: nat, e: ReadError)
    requires m <= |lines| <= |popsByLin|
    requires Column(lines, numPops, popsByLin, column, m) == Failure(e)
    ensures Column(lines, numPops, popsByLin, column, |lines|) == Failure(e)
    decreases |lines| - m
  {
    if m < |lines| {
      ColumnStaysFailed(lines, numPops, popsByLin, column, m + 1, e);
    }
  }

  /** Once the outer loop fails, later columns change nothing. */
  lemma {:induction false} ColumnsStayFailed(lines: seq<string>, numPops: int, popsByLin: seq<int>, c: nat, target: nat, e: ReadError)
    requires |lines| <= |popsByLin| && c <= target
    requires Columns(lines, numPops, popsByLin, c) == Failure(e)
    ensures Columns(lines, numPops, popsByLin, target) == Failure(e)
    decreases target - c
  {
    if c < target {
      assert Columns(lines, numPops, popsByLin, c + 1) == Failure(e);
      ColumnsStayFailed(lines, numPops, popsByLin, c + 1, target, e);
    }
  }

  /** The inner loop of `read_empirical_sfs` for one column. */
  method CountColumn(lines: seq<string>, numPops: int, popsByLin: seq<int>, column: nat) returns (r: Result<seq<int>, ReadError>)
    requires |lines| <= |popsByLin|
    ensures r == Column(lines, numPops, popsByLin, column, |lines|)
  {
    var dd := seq(Max0(numPops), _ => 0);
    var i := 0;
    while i < |lines|
      invariant 0 <= i <= |lines|
      invariant Column(lines, numPops, popsByLin, column, i) == Success(dd)
    {
      ColumnStep(lines, numPops, popsByLin, column, i, dd);
      var k := PyIndex(|dd|, popsByLin[i]);
      if k.None? {
        r := Failure(BadPopulation);
        ColumnStaysFailed(lines, numPops, popsByLin, column, i + 1, r.error);
        return;
      }
      if column >= |lines[i]| {
        r := Failure(ShortLine);
        ColumnStaysFailed(lines, numPops, popsByLin, column, i + 1, r.error);
        return;
      }
      var d := Digit(lines[i][column]);
      if d.None? {
        r := Failure(NotADigit);
        ColumnStaysFailed(lines, numPops, popsByLin, column, i + 1, r.error);
        return;
      }
      dd := dd[k.value := dd[k.value] + d.value];
      i := i + 1;
    }
    r := Success(dd);
  }

  /** The outer loop of `read_empirical_sfs` over the columns of the first
      haplotype. */
  method CountColumns(lines: seq<string>, numPops: int, popsByLin: seq<int>) returns (r: Result<multiset<seq<int>>, ReadError>)
    requires |lines| > 0 && |lines| <= |popsByLin|
    ensures r == Columns(lines, numPops, popsByLin, |lines[0]|)
  {
    var counts: multiset<seq<int>> := multiset{};
    var column := 0;
    while column < |lines[0]|
      invariant 0 <= column <= |lines[0]|
      invariant Columns(lines, numPops, popsByLin, column) == Success(counts)
    {
      var dd := CountColumn(lines, numPops, popsByLin, column);
      if dd.Failure? {
        r := Failure(dd.error);
        ColumnsStayFailed(lines, numPops, popsByLin, column + 1, |lines[0]|, r.error);
        return;
      }
      if Sum(dd.value) <= 0 {
        r := Failure(EmptyColumn);
        ColumnsStayFailed(lines, numPops, popsByLin, column + 1, |lines[0]|, r.error);
        return;
      }
      counts := counts + multiset{dd.value};
      column := column + 1;
    }
    r := Success(counts);
  }

  /** `read_empirical_sfs` with its loops. */
  method ReadEmpiricalSfs(lines: seq<string>, numPops: int, popsByLin: seq<int>) returns (r: Result<multiset<seq<int>>, ReadError>)
    ensures r == ReadSfs(lines, numPops, popsByLin)
  {
    if |lines| == 0 || lines[0] != "//" {
      return Failure(NotABlock);
    }
    if |lines| < 2 {
      return Failure(BadSegsites);
    }
    var nss := Segsites(lines[1]);
    if nss.Failure? {
      return Failure(nss.error);
    }
    if nss.value == 0 {
      return Success(multiset{});
    }
    var hap := Haplotypes(if |lines| >= 3 then lines[3..] else [], |popsByLin|);
    if hap.Failure? {
      return Failure(hap.error);
    }
    if |hap.value| == 0 {
      return Failure(NoHaplotypes);
    }
    r := CountColumns(hap.value, numPops, popsByLin);
  }
}
