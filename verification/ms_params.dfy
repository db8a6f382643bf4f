/** Values and parameter substitution of `MsCmdParser` (parse_ms.py): the
    parameter dictionary built by the constructor and the lookups `get`,
    `getint` and `getfloat`. */
module MsParams {
  import opened Wrappers
  import opened Numbers
  import opened Decimal

  /** A Python number: `int` or `float`. Both occur, because `getint` of a
      `$name` returns the stored parameter unconverted. */
  datatype PyNum = PyInt(i: int) | PyFloat(x: Num)

  function AsNum(p: PyNum): Num
  {
    match p
    case PyInt(i) => FromInt(i)
    case PyFloat(x) => x
  }

  predicate IsNaN(p: PyNum)
  {
    p.PyFloat? && p.x.NaN?
  }

  /** An argument as a handler sees it: a token of the command line, or a
      number already converted (handlers calling other handlers). */
  datatype Value = Text(s: string) | Number(n: PyNum)

  datatype Kind = IntKind | FloatKind

  /** Every way the modelled parser can raise. */
  datatype MsError =
    | BadToken                  // a lone "-" (IndexError)
    | ArgumentBeforeCommand     // a value before any flag (NameError)
    | FirstCommandNotI          // the assertions on the first command
    | MissingArgument           // too few arguments (IndexError/TypeError)
    | TooManyArguments          // TypeError from the handler call
    | UnknownFlag               // no handler `_<flag>` (AttributeError)
    | NotANumber                // int()/float() raise ValueError
    | UnknownParameter          // `$name` missing (KeyError)
    | NanParameter              // the NaN check of `get`
    | NotAnInteger              // range() of a float (TypeError)
    | UnknownPopulation         // roots/pop_by_order lookup fails (KeyError)
    | DeadPopulation            // nodes[None] (KeyError)
    | LineageCountMismatch      // `_I`: IOError
    | NotEmpty                  // `_I`: the assertion that nothing exists yet
    | NoPopulations             // the assertions `self.roots` / `self.nodes`
    | EventsAlreadyOccurred     // `_n`/`_g` after a demographic event
    | LeafStateChanged          // the other assertions of `_n`/`_g`
    | NodeExists                // the freshness assertions of `_es`/`_ej`
    | TimeDecreased             // the assertion of `add_event`
    | NegativeSize              // `set_sizes`: IOError
    | MissingField              // `set_sizes` on a first epoch without N or alpha (KeyError)
    | NotSingleRoot             // `to_nx`: IOError

  /** The dictionary `MsCmdParser(*args, **kwargs)` builds: keyword
      arguments, and positional argument i under the key `str(i)`. */
  ghost predicate ParamsOf(params: map<string, PyNum>, args: seq<PyNum>, kwargs: map<string, PyNum>)
  {
    (forall i :: 0 <= i < |args| ==> IntToDecimal(i) in params && params[IntToDecimal(i)] == args[i]) &&
    (forall k :: k in kwargs ==> k in params) &&
    (forall k :: k in params ==> k in kwargs || exists i :: 0 <= i < |args| && k == IntToDecimal(i)) &&
    (forall k :: k in kwargs && (forall i :: 0 <= i < |args| ==> k != IntToDecimal(i)) ==> params[k] == kwargs[k])
  }

  lemma PositionalNamesDistinct(i: nat, j: nat)
    requires j != i
    ensures IntToDecimal(j) != IntToDecimal(i)
  {
    if IntToDecimal(j) == IntToDecimal(i) {
      NatToDecimalInjective(j, i);
    }
  }

  lemma ParamsOfExtend(front: map<string, PyNum>, args: seq<PyNum>, kwargs: map<string, PyNum>)
    requires |args| > 0 && ParamsOf(front, args[..|args| - 1], kwargs)
    ensures ParamsOf(front[IntToDecimal(|args| - 1) := args[|args| - 1]], args, kwargs)
  {
    var n := |args| - 1;
    var params := front[IntToDecimal(n) := args[n]];
    forall i | 0 <= i < |args|
      ensures IntToDecimal(i) in params && params[IntToDecimal(i)] == args[i]
    {
      if i < n {
        PositionalNamesDistinct(i, n);
        assert args[..n][i] == args[i];
      }
    }
    forall k | k in params
      ensures k in kwargs || exists i :: 0 <= i < |args| && k == IntToDecimal(i)
    {
      if k != IntToDecimal(n) {
        assert k in front;
        if k !in kwargs {
          var i :| 0 <= i < n && k == IntToDecimal(i);
        }
      }
    }
  }

  /** `MsCmdParser(*args, **kwargs)`: keyword arguments, then positional
      argument i stored under `str(i)`, overriding a keyword of that name. */
  function MakeParams(args: seq<PyNum>, kwargs: map<string, PyNum>): (params: map<string, PyNum>)
    ensures ParamsOf(params, args, kwargs)
    decreases |args|
  {
    if |args| == 0 then kwargs
    else
      var front := MakeParams(args[..|args| - 1], kwargs);
      ParamsOfExtend(front, args, kwargs);
      front[IntToDecimal(|args| - 1) := args[|args| - 1]]
  }

  /** `vartype(var)` for a token. */
  function Convert(kind: Kind, s: string): Option<PyNum>
  {
    match kind
    case IntKind =>
      (match ParseInt(s)
       case Some(i) => Some(PyInt(i))
       case None => None)
    case FloatKind =>
      (match ParseFloat(s)
       case Some(x) => Some(PyFloat(x))
       case None => None)
  }

  predicate IsReference(s: string)
  {
    |s| > 0 && s[0] == '$'
  }

  /** `get(var, vartype)`: numbers pass through unchecked; `$name` is looked
      up without conversion; any other token is converted. A NaN result
      raises. */
  function Get(params: map<string, PyNum>, v: Value, kind: Kind): (r: Result<PyNum, MsError>)
    ensures v.Number? ==> r == Success(v.n)
    ensures v.Text? && r.Success? ==> !IsNaN(r.value)
    ensures v.Text? && IsReference(v.s) ==>
              (r.Success? <==> v.s[1..] in params && !IsNaN(params[v.s[1..]])) &&
              (r.Success? ==> r.value == params[v.s[1..]])
    ensures v.Text? && !IsReference(v.s) ==>
              (r.Success? <==> Convert(kind, v.s).Some? && !IsNaN(Convert(kind, v.s).value)) &&
              (r.Success? ==> r.value == Convert(kind, v.s).value)
  {
    match v
    case Number(n) => Success(n)
    case Text(s) =>
      var ret :- if IsReference(s) then
                   if s[1..] in params then Success(params[s[1..]]) else Failure(UnknownParameter)
                 else
                   match Convert(kind, s)
                   case Some(x) => Success(x)
                   case None => Failure(NotANumber);
      if IsNaN(ret) then Failure(NanParameter) else Success(ret)
  }

  function GetInt(params: map<string, PyNum>, v: Value): Result<PyNum, MsError>
  {
    Get(params, v, IntKind)
  }

  function GetFloat(params: map<string, PyNum>, v: Value): Result<PyNum, MsError>
  {
    Get(params, v, FloatKind)
  }

  /** `getfloat(str(i))` and `getint(str(i))` give back i. */
  lemma GetPrintedInteger(params: map<string, PyNum>, i: int)
    ensures GetInt(params, Text(IntToDecimal(i))) == Success(PyInt(i))
    ensures GetFloat(params, Text(IntToDecimal(i))) == Success(PyFloat(FromInt(i)))
  {
    ParseIntRoundTrip(i);
    IntegerLiteralsAreFloatLiterals(IntToDecimal(i));
    assert !IsReference(IntToDecimal(i)) by {
      if i < 0 {
      } else {
        assert IsDigit(IntToDecimal(i)[0]);
      }
    }
  }

  /** `$i` refers to the i-th positional constructor argument. */
  lemma PositionalParameterLookup(args: seq<PyNum>, kwargs: map<string, PyNum>, i: nat, kind: Kind)
    requires i < |args| && !IsNaN(args[i])
    ensures Get(MakeParams(args, kwargs), Text("$" + IntToDecimal(i)), kind) == Success(args[i])
  {
    var s := "$" + IntToDecimal(i);
    assert s[1..] == IntToDecimal(i);
  }

  /** An integral value usable as a key of an int-keyed dict (Python
      compares 2.0 == 2). */
  function AsIndex(p: PyNum): Option<int>
  {
    match p
    case PyInt(i) => Some(i)
    case PyFloat(x) =>
      if x.Finite? && (x.r.Floor as real) == x.r then Some(x.r.Floor) else None
  }
}
