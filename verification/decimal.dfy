/** The text conversions the ms parser relies on: Python's `str.split()`,
    `str.split(sep)`, `int(s)`, `float(s)` and `str(n)`, on the decimal
    forms they accept. */
module Decimal {
  import opened Wrappers
  import opened Numbers

  predicate IsDigit(c: char)
  {
    '0' <= c <= '9'
  }

  /** The characters `str.strip()` and `str.split()` treat as whitespace. */
  predicate IsSpace(c: char)
  {
    c == ' ' || c == '\t' || c == '\n' || c == '\r' || c == 11 as char || c == 12 as char
  }

  predicate IsAsciiLetter(c: char)
  {
    ('a' <= c <= 'z') || ('A' <= c <= 'Z')
  }

  function DigitValue(c: char): (d: nat)
    requires IsDigit(c)
    ensures d < 10
  {
    (c as int) - ('0' as int)
  }

  function DigitChar(d: nat): (c: char)
    requires d < 10
    ensures IsDigit(c) && DigitValue(c) == d
  {
    (('0' as int) + d) as char
  }

  predicate AllDigits(s: string)
  {
    forall i :: 0 <= i < |s| ==> IsDigit(s[i])
  }

  predicate NoSpace(s: string)
  {
    forall i :: 0 <= i < |s| ==> !IsSpace(s[i])
  }

  /** Value of a string of decimal digits, most significant first. */
  function DigitsValue(s: string): nat
    requires AllDigits(s)
  {
    if |s| == 0 then 0 else 10 * DigitsValue(s[..|s| - 1]) + DigitValue(s[|s| - 1])
  }

  // ------------------------------------------------------------ stripping

  function StripLeft(s: string): (r: string)
    ensures |r| <= |s| && r == s[|s| - |r|..]
    ensures |r| > 0 ==> !IsSpace(r[0])
    ensures forall i :: 0 <= i < |s| - |r| ==> IsSpace(s[i])
  {
    if |s| > 0 && IsSpace(s[0]) then StripLeft(s[1..]) else s
  }

  function StripRight(s: string): (r: string)
    ensures |r| <= |s| && r == s[..|r|]
    ensures |r| > 0 ==> !IsSpace(r[|r| - 1])
    ensures forall i :: |r| <= i < |s| ==> IsSpace(s[i])
  {
    if |s| > 0 && IsSpace(s[|s| - 1]) then StripRight(s[..|s| - 1]) else s
  }

  /** `s.strip()`. */
  function Strip(s: string): (r: string)
    ensures NoSpace(s) ==> r == s
  {
    StripRight(StripLeft(s))
  }

  // ------------------------------------------------------------ str(n)

  /** `str(n)` for a non-negative integer: no leading zero except "0". */
  function NatToDecimal(n: nat): (s: string)
    ensures |s| >= 1 && AllDigits(s)
    ensures |s| > 1 ==> s[0] != '0'
    ensures n > 0 ==> s[0] != '0'
    decreases n
  {
    if n < 10 then [DigitChar(n)] else NatToDecimal(n / 10) + [DigitChar(n % 10)]
  }

  lemma {:induction false} NatToDecimalValue(n: nat)
    ensures DigitsValue(NatToDecimal(n)) == n
    decreases n
  {
    if n >= 10 {
      NatToDecimalValue(n / 10);
      var s := NatToDecimal(n);
      assert s[..|s| - 1] == NatToDecimal(n / 10);
    }
  }

  /** A string `str(n)` can produce: digits, no leading zero except "0". */
  predicate IsCanonical(s: string)
  {
    |s| >= 1 && AllDigits(s) && (|s| > 1 ==> s[0] != '0')
  }

  lemma {:induction false} LeadingDigitPositive(s: string)
    requires |s| >= 1 && AllDigits(s) && s[0] != '0'
    ensures DigitsValue(s) > 0
    decreases |s|
  {
    if |s| > 1 {
      LeadingDigitPositive(s[..|s| - 1]);
    }
  }

  /** Canonical digit strings are exactly the printed naturals. */
  lemma {:induction false} CanonicalRoundTrip(s: string)
    requires IsCanonical(s)
    ensures NatToDecimal(DigitsValue(s)) == s
    decreases |s|
  {
    var front := s[..|s| - 1];
    if |s| == 1 {
      assert DigitChar(DigitValue(s[0])) == s[0];
    } else {
      CanonicalRoundTrip(front);
      LeadingDigitPositive(front);
      var v := DigitsValue(s);
      assert v / 10 == DigitsValue(front) && v % 10 == DigitValue(s[|s| - 1]);
      assert DigitChar(DigitValue(s[|s| - 1])) == s[|s| - 1];
    }
  }

  /** The number a canonical digit string names. */
  function ParseCanonical(s: string): (r: Option<nat>)
    ensures r.Some? <==> exists n: nat :: NatToDecimal(n) == s
    ensures r.Some? ==> NatToDecimal(r.value) == s
  {
    if IsCanonical(s) then
      CanonicalRoundTrip(s);
      Some(DigitsValue(s))
    else
      None
  }

  /** `str(i)` for any integer. */
  function IntToDecimal(i: int): (s: string)
  {
    if i < 0 then "-" + NatToDecimal(-i) else NatToDecimal(i)
  }

  /** Distinct integers print differently. */
  lemma NatToDecimalInjective(a: nat, b: nat)
    requires NatToDecimal(a) == NatToDecimal(b)
    ensures a == b
  {
    NatToDecimalValue(a);
    NatToDecimalValue(b);
  }

  // ------------------------------------------------------------ int(s)

  /** `int(s)`: surrounding whitespace, an optional sign and at least one
      decimal digit; anything else raises ValueError (`None`). */
  function ParseInt(s: string): (r: Option<int>)
    ensures r.Some? ==> |Strip(s)| >= 1
  {
    ParseSigned(Strip(s))
  }

  /** An optional sign and at least one digit, nothing else. */
  function ParseSigned(t: string): (r: Option<int>)
    ensures r.Some? ==> |t| >= 1
  {
    if |t| > 0 && (t[0] == '-' || t[0] == '+') then
      var body := t[1..];
      if |body| > 0 && AllDigits(body) then
        Some(if t[0] == '-' then -(DigitsValue(body) as int) else DigitsValue(body))
      else None
    else if |t| > 0 && AllDigits(t) then Some(DigitsValue(t))
    else None
  }

  /** `int(str(i)) == i`. */
  lemma ParseIntRoundTrip(i: int)
    ensures ParseInt(IntToDecimal(i)) == Some(i)
  {
    var s := IntToDecimal(i);
    PrintedHasNoSpace(i);
    assert Strip(s) == s;
    if i < 0 {
      NegativeRoundTrip(-i);
    } else {
      NatToDecimalValue(i);
    }
  }

  lemma PrintedHasNoSpace(i: int)
    ensures NoSpace(IntToDecimal(i))
  {
    if i < 0 {
      DigitsHaveNoSpace(NatToDecimal(-i));
      assert IntToDecimal(i)[1..] == NatToDecimal(-i);
    } else {
      DigitsHaveNoSpace(NatToDecimal(i));
    }
  }

  lemma DigitsHaveNoSpace(s: string)
    requires AllDigits(s)
    ensures NoSpace(s)
  {
  }

  lemma NegativeRoundTrip(n: nat)
    requires n > 0
    ensures ParseSigned("-" + NatToDecimal(n)) == Some(-(n as int))
  {
    var s := "-" + NatToDecimal(n);
    NatToDecimalValue(n);
    assert s[1..] == NatToDecimal(n);
  }

  // ------------------------------------------------------------ float(s)

  function Lower(c: char): char
  {
    if 'A' <= c <= 'Z' then (c as int + 32) as char else c
  }

  function LowerString(s: string): (r: string)
    ensures |r| == |s| && forall i :: 0 <= i < |s| ==> r[i] == Lower(s[i])
  {
    seq(|s|, i requires 0 <= i < |s| => Lower(s[i]))
  }

  function Pow10(e: nat): (r: nat)
    ensures r >= 1
  {
    if e == 0 then 1 else 10 * Pow10(e - 1)
  }

  /** Scales m by 10^e for a possibly negative exponent. */
  function Scale10(m: real, e: int): real
  {
    if e >= 0 then m * (Pow10(e) as real) else m / (Pow10(-e) as real)
  }

  function FirstWhere(s: string, p: char -> bool): (r: Option<nat>)
    ensures r.Some? ==> r.value < |s| && p(s[r.value]) && forall i :: 0 <= i < r.value ==> !p(s[i])
    ensures r.None? ==> forall i :: 0 <= i < |s| ==> !p(s[i])
  {
    if |s| == 0 then None
    else if p(s[0]) then Some(0)
    else match FirstWhere(s[1..], p)
      case Some(k) => Some(k + 1)
      case None => None
  }

  /** An optionally signed run of digits, as in a float's exponent. */
  function ParseExponent(s: string): Option<int>
  {
    if |s| > 0 && (s[0] == '-' || s[0] == '+') then
      if |s| > 1 && AllDigits(s[1..]) then
        Some(if s[0] == '-' then -(DigitsValue(s[1..]) as int) else DigitsValue(s[1..]))
      else None
    else if |s| > 0 && AllDigits(s) then Some(DigitsValue(s))
    else None
  }

  /** `digits[.digits]` or `.digits`, at least one digit in all. */
  function ParseMantissa(s: string): Option<real>
  {
    match FirstWhere(s, c => c == '.')
    case None =>
      if |s| > 0 && AllDigits(s) then Some(DigitsValue(s) as real) else None
    case Some(k) =>
      var whole, frac := s[..k], s[k + 1..];
      if |whole| + |frac| > 0 && AllDigits(whole) && AllDigits(frac) then
        Some(Scale10(DigitsValue(whole + frac) as real, -|frac|))
      else None
  }

  /** An unsigned float literal without surrounding whitespace. */
  function ParseUnsignedFloat(s: string): Option<Num>
  {
    var low := LowerString(s);
    if low == "inf" || low == "infinity" then Some(PosInf)
    else if low == "nan" then Some(NaN)
    else match FirstWhere(s, c => c == 'e' || c == 'E')
      case None =>
        (match ParseMantissa(s)
         case Some(m) => Some(Finite(m))
         case None => None)
      case Some(k) =>
        match (ParseMantissa(s[..k]), ParseExponent(s[k + 1..]))
        case (Some(m), Some(e)) => Some(Finite(Scale10(m, e)))
        case (_, _) => None
  }

  function Negate(x: Num): Num
  {
    match x
    case Finite(r) => Finite(-r)
    case PosInf => NegInf
    case NegInf => PosInf
    case NaN => NaN
  }

  /** `float(s)`: whitespace, an optional sign, then a decimal literal with
      optional fraction and exponent, or `inf`/`infinity`/`nan` in any
      case. Rounding to the nearest double is not modelled. */
  function ParseFloat(s: string): (r: Option<Num>)
    ensures r.Some? ==> |Strip(s)| >= 1
  {
    var t := Strip(s);
    if |t| > 0 && (t[0] == '-' || t[0] == '+') then
      match ParseUnsignedFloat(t[1..])
      case Some(x) => Some(if t[0] == '-' then Negate(x) else x)
      case None => None
    else if |t| > 0 then ParseUnsignedFloat(t)
    else None
  }

  lemma DigitsAreNotWords(s: string)
    requires |s| > 0 && AllDigits(s)
    ensures LowerString(s) != "inf" && LowerString(s) != "infinity" && LowerString(s) != "nan"
  {
    assert LowerString(s)[0] == s[0];
  }

  lemma UnsignedIntegerAsFloat(s: string)
    requires |s| > 0 && AllDigits(s)
    ensures ParseUnsignedFloat(s) == Some(Finite(DigitsValue(s) as real))
  {
    DigitsAreNotWords(s);
    assert FirstWhere(s, c => c == 'e' || c == 'E').None?;
    assert FirstWhere(s, c => c == '.').None?;
  }

  /** Every integer literal `int` accepts is a float literal `float`
      accepts, with the same value. */
  lemma IntegerLiteralsAreFloatLiterals(s: string)
    requires ParseInt(s).Some?
    ensures ParseFloat(s) == Some(FromInt(ParseInt(s).value))
  {
    var t := Strip(s);
    if t[0] == '-' || t[0] == '+' {
      UnsignedIntegerAsFloat(t[1..]);
    } else {
      UnsignedIntegerAsFloat(t);
    }
  }

  // ------------------------------------------------------------ splitting

  /** The longest prefix without whitespace. */
  function TakeWord(s: string): (w: string)
    ensures |w| <= |s| && NoSpace(w)
    ensures |s| > 0 && !IsSpace(s[0]) ==> |w| > 0
  {
    if |s| == 0 || IsSpace(s[0]) then [] else [s[0]] + TakeWord(s[1..])
  }

  /** Non-empty runs without whitespace. */
  predicate Words(ws: seq<string>)
  {
    forall k :: 0 <= k < |ws| ==> |ws[k]| > 0 && NoSpace(ws[k])
  }

  /** `s.split()`: the maximal runs of non-whitespace characters. */
  function SplitWhitespace(s: string): seq<string>
    decreases |s|
  {
    var t := StripLeft(s);
    if |t| == 0 then []
    else
      var w := TakeWord(t);
      [w] + SplitWhitespace(t[|w|..])
  }

  /** Every piece is a non-empty run without whitespace. */
  lemma {:induction false} SplitGivesWords(s: string)
    ensures Words(SplitWhitespace(s))
    decreases |s|
  {
    var t := StripLeft(s);
    if |t| > 0 {
      var w := TakeWord(t);
      SplitGivesWords(t[|w|..]);
      var rest := SplitWhitespace(t[|w|..]);
      assert SplitWhitespace(s) == [w] + rest;
      forall k | 0 < k <= |rest|
        ensures |([w] + rest)[k]| > 0 && NoSpace(([w] + rest)[k])
      {
        assert ([w] + rest)[k] == rest[k - 1];
      }
    }
  }

  function JoinSpaces(ws: seq<string>): string
  {
    if |ws| == 0 then "" else if |ws| == 1 then ws[0] else ws[0] + " " + JoinSpaces(ws[1..])
  }

  lemma {:induction false} TakeWordOfJoin(w: string, rest: string)
    requires NoSpace(w) && (|rest| == 0 || IsSpace(rest[0]))
    ensures TakeWord(w + rest) == w
  {
    if |w| == 0 {
      assert w + rest == rest;
    } else {
      var s := w + rest;
      assert s[0] == w[0] && !IsSpace(s[0]);
      assert s[1..] == w[1..] + rest;
      assert NoSpace(w[1..]) by {
        forall i | 0 <= i < |w| - 1
          ensures !IsSpace(w[1..][i])
        {
          assert w[1..][i] == w[i + 1];
        }
      }
      TakeWordOfJoin(w[1..], rest);
      assert [w[0]] + w[1..] == w;
    }
  }

  lemma SplitSkipsSpace(x: string)
    ensures SplitWhitespace(" " + x) == SplitWhitespace(x)
  {
    assert (" " + x)[1..] == x;
    assert StripLeft(" " + x) == StripLeft(x);
  }

  lemma SplitOfWordFirst(w: string, rest: string)
    requires |w| > 0 && NoSpace(w) && (|rest| == 0 || IsSpace(rest[0]))
    ensures SplitWhitespace(w + rest) == [w] + SplitWhitespace(rest)
  {
    var s := w + rest;
    assert StripLeft(s) == s;
    TakeWordOfJoin(w, rest);
    assert s[|w|..] == rest;
  }

  /** Splitting a join of two or more words peels off the first word. */
  lemma SplitJoinStep(ws: seq<string>)
    requires |ws| > 1 && |ws[0]| > 0 && NoSpace(ws[0])
    ensures SplitWhitespace(JoinSpaces(ws)) == [ws[0]] + SplitWhitespace(JoinSpaces(ws[1..]))
  {
    var tail := JoinSpaces(ws[1..]);
    assert JoinSpaces(ws) == ws[0] + (" " + tail);
    SplitOfWordFirst(ws[0], " " + tail);
    SplitSkipsSpace(tail);
  }

  lemma SplitOneWord(w: string)
    requires |w| > 0 && NoSpace(w)
    ensures SplitWhitespace(w) == [w]
  {
    SplitOfWordFirst(w, "");
    assert w + "" == w;
    assert StripLeft("") == "";
  }

  lemma WordsTail(ws: seq<string>)
    requires |ws| > 0 && Words(ws)
    ensures |ws[0]| > 0 && NoSpace(ws[0]) && Words(ws[1..])
  {
    forall k | 0 <= k < |ws| - 1
      ensures |ws[1..][k]| > 0 && NoSpace(ws[1..][k])
    {
      assert ws[1..][k] == ws[k + 1];
    }
  }

  /** Words joined by single spaces split back into the same words. */
  lemma {:induction false} SplitJoinRoundTrip(ws: seq<string>)
    requires Words(ws)
    ensures SplitWhitespace(JoinSpaces(ws)) == ws
  {
    if |ws| == 0 {
      assert StripLeft("") == "";
    } else if |ws| == 1 {
      SplitOneWord(ws[0]);
    } else {
      WordsTail(ws);
      SplitJoinRoundTrip(ws[1..]);
      SplitJoinCons(ws);
    }
  }

  /** The inductive step of the round trip: the first word comes back in
      front of the split of the rest. */
  lemma SplitJoinCons(ws: seq<string>)
    requires |ws| >= 2 && |ws[0]| > 0 && NoSpace(ws[0])
    requires SplitWhitespace(JoinSpaces(ws[1..])) == ws[1..]
    ensures SplitWhitespace(JoinSpaces(ws)) == ws
  {
    SplitJoinStep(ws);
    ConsBack(ws, SplitWhitespace(JoinSpaces(ws[1..])));
  }

  lemma ConsBack<X>(xs: seq<X>, ys: seq<X>)
    requires |xs| > 0 && ys == xs[1..]
    ensures [xs[0]] + ys == xs
  {
  }

  /** `s.split(sep)` for a one-character separator: the pieces between
      separators, empty ones included. */
  function SplitOn(s: string, sep: char): (parts: seq<string>)
    ensures |parts| >= 1
    ensures forall k :: 0 <= k < |parts| ==> sep !in parts[k]
    decreases |s|
  {
    match FirstWhere(s, c => c == sep)
    case None => [s]
    case Some(k) => [s[..k]] + SplitOn(s[k + 1..], sep)
  }

  function JoinWith(sep: char, parts: seq<string>): string
    requires |parts| >= 1
  {
    if |parts| == 1 then parts[0] else parts[0] + [sep] + JoinWith(sep, parts[1..])
  }

  /** `sep.join(s.split(sep)) == s`. */
  lemma {:induction false} SplitOnRoundTrip(s: string, sep: char)
    ensures JoinWith(sep, SplitOn(s, sep)) == s
    decreases |s|
  {
    match FirstWhere(s, c => c == sep)
    case None =>
    case Some(k) =>
      SplitOnRoundTrip(s[k + 1..], sep);
      assert s == s[..k] + [sep] + s[k + 1..];
  }
}
