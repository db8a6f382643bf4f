/** The regular-number sizer `_next_regular` of math_functions.py: the
    smallest integer at or above a target whose only prime factors are 2, 3
    and 5, used to pick fast transform lengths. */
module Regular {
  import opened Wrappers

  function Pow(b: nat, e: nat): (r: nat)
    ensures b >= 1 ==> r >= 1
  {
    if e == 0 then 1 else b * Pow(b, e - 1)
  }

  /** 2^a * 3^b * 5^c */
  function Smooth(a: nat, b: nat, c: nat): nat
  {
    Pow(2, a) * (Pow(3, b) * Pow(5, c))
  }

  /** Computable test for "only prime factors 2, 3 and 5" (5-smooth). */
  predicate IsRegular(n: int)
    decreases n
  {
    n >= 1 &&
    (n == 1
     || (n % 2 == 0 && IsRegular(n / 2))
     || (n % 3 == 0 && IsRegular(n / 3))
     || (n % 5 == 0 && IsRegular(n / 5)))
  }

  predicate IsPowerOfTwo(n: int)
    decreases n
  {
    n >= 1 && (n == 1 || (n % 2 == 0 && IsPowerOfTwo(n / 2)))
  }

  /** Bitwise `&` on non-negative integers, as Python evaluates it. */
  function BitAnd(x: nat, y: nat): nat
  {
    if x == 0 || y == 0 then 0
    else 2 * BitAnd(x / 2, y / 2) + (if x % 2 == 1 && y % 2 == 1 then 1 else 0)
  }

  /** Python's `int.bit_length()` on a non-negative integer. */
  function BitLength(x: nat): nat
  {
    if x == 0 then 0 else 1 + BitLength(x / 2)
  }

  // ---------------------------------------------------------------------
  // Arithmetic facts

  lemma MulMonotone(x: int, y: int, d: int)
    requires x <= y && d >= 0
    ensures x * d <= y * d
  {
  }

  lemma {:induction false} PowMonotone(b: nat, i: nat, j: nat)
    requires b >= 1 && i <= j
    ensures Pow(b, i) <= Pow(b, j)
    decreases j
  {
    if i < j {
      PowMonotone(b, i, j - 1);
      var p := Pow(b, j - 1);
      assert Pow(b, j) == b * p;
      MulMonotone(1, b, p);
    }
  }

  lemma {:induction false} BitLengthBounds(x: nat)
    ensures x < Pow(2, BitLength(x))
    ensures x >= 1 ==> Pow(2, BitLength(x) - 1) <= x
    decreases x
  {
    if x > 0 {
      BitLengthBounds(x / 2);
    }
  }

  /** `2 ** (q - 1).bit_length()` is the least power of two that is >= q. */
  lemma {:induction false} NextPowerOfTwoIsLeast(q: nat, a: nat)
    requires q >= 1
    ensures Pow(2, BitLength(q - 1)) >= q
    ensures Pow(2, a) >= q ==> Pow(2, a) >= Pow(2, BitLength(q - 1))
  {
    var k := BitLength(q - 1);
    BitLengthBounds(q - 1);
    if Pow(2, a) >= q && k > 0 {
      if a < k {
        PowMonotone(2, a, k - 1);
        assert false;
      }
      PowMonotone(2, k, a);
    } else if Pow(2, a) >= q {
      assert Pow(2, k) == 1;
    }
  }

  /** `-(-t // d)` with Python's floor division is the ceiling of t / d;
      Dafny's `/` floors as well when the divisor is positive. */
  lemma CeilingDivision(t: int, d: int)
    requires t >= 1 && d >= 1
    ensures -((-t) / d) >= 1
    ensures -((-t) / d) * d >= t
    ensures (-((-t) / d) - 1) * d < t
  {
    var m := (-t) / d;
    var rem := (-t) % d;
    assert -t == d * m + rem && 0 <= rem < d;
    assert -m * d == t + rem;
  }

  /** For a fixed odd part p35, p2 * p35 is the least multiple of p35 by a
      power of two that reaches the target. */
  lemma CandidateIsLeast(target: int, p35: nat, a: nat)
    requires target >= 1 && p35 >= 1
    ensures Pow(2, BitLength(-((-target) / p35) - 1)) * p35 >= target
    ensures Pow(2, a) * p35 >= target ==>
              Pow(2, BitLength(-((-target) / p35) - 1)) * p35 <= Pow(2, a) * p35
  {
    var q := -((-target) / p35);
    CeilingDivision(target, p35);
    NextPowerOfTwoIsLeast(q, a);
    var p2 := Pow(2, BitLength(q - 1));
    MulMonotone(q, p2, p35);
    var pa := Pow(2, a);
    if pa * p35 >= target {
      if pa < q {
        MulMonotone(pa, q - 1, p35);
        assert false;
      }
      MulMonotone(p2, pa, p35);
    }
  }

  // ---------------------------------------------------------------------
  // Regular numbers are exactly the products 2^a 3^b 5^c

  lemma MulLeft(k: int, x: int, y: int)
    ensures (k * x) * y == k * (x * y)
    ensures x * (k * y) == k * (x * y)
  {
  }

  /** Multiplying one factor of a smooth number by its prime. */
  lemma SmoothSteps(a: nat, b: nat, c: nat)
    ensures Smooth(a + 1, b, c) == 2 * Smooth(a, b, c)
    ensures Smooth(a, b + 1, c) == 3 * Smooth(a, b, c)
    ensures Smooth(a, b, c + 1) == 5 * Smooth(a, b, c)
  {
    var p2, p3, p5 := Pow(2, a), Pow(3, b), Pow(5, c);
    var q := p3 * p5;
    assert Smooth(a, b, c) == p2 * q;
    assert Smooth(a + 1, b, c) == (2 * p2) * q;
    MulLeft(2, p2, q);
    assert Pow(3, b + 1) * p5 == 3 * q by { MulLeft(3, p3, p5); }
    assert Smooth(a, b + 1, c) == p2 * (3 * q);
    MulLeft(3, p2, q);
    assert p3 * Pow(5, c + 1) == 5 * q by { MulLeft(5, p3, p5); }
    assert Smooth(a, b, c + 1) == p2 * (5 * q);
    MulLeft(5, p2, q);
  }

  lemma RegularTimes(k: int, m: int)
    requires k == 2 || k == 3 || k == 5
    requires IsRegular(m)
    ensures IsRegular(k * m)
  {
    var n := k * m;
    assert n % k == 0 && n / k == m;
  }

  lemma {:induction false} SmoothIsRegular(a: nat, b: nat, c: nat)
    ensures IsRegular(Smooth(a, b, c))
    decreases a + b + c
  {
    if a > 0 {
      SmoothIsRegular(a - 1, b, c);
      SmoothSteps(a - 1, b, c);
      RegularTimes(2, Smooth(a - 1, b, c));
    } else if b > 0 {
      SmoothIsRegular(0, b - 1, c);
      SmoothSteps(0, b - 1, c);
      RegularTimes(3, Smooth(0, b - 1, c));
    } else if c > 0 {
      SmoothIsRegular(0, 0, c - 1);
      SmoothSteps(0, 0, c - 1);
      RegularTimes(5, Smooth(0, 0, c - 1));
    } else {
      assert Smooth(0, 0, 0) == 1;
    }
  }

  lemma {:induction false} RegularIsSmooth(n: int)
    requires IsRegular(n)
    ensures exists a: nat, b: nat, c: nat :: n == Smooth(a, b, c)
    decreases n
  {
    if n == 1 {
      assert n == Smooth(0, 0, 0);
    } else if n % 2 == 0 && IsRegular(n / 2) {
      RegularIsSmooth(n / 2);
      var a: nat, b: nat, c: nat :| n / 2 == Smooth(a, b, c);
      SmoothSteps(a, b, c);
      assert n == Smooth(a + 1, b, c);
    } else if n % 3 == 0 && IsRegular(n / 3) {
      RegularIsSmooth(n / 3);
      var a: nat, b: nat, c: nat :| n / 3 == Smooth(a, b, c);
      SmoothSteps(a, b, c);
      assert n == Smooth(a, b + 1, c);
    } else {
      RegularIsSmooth(n / 5);
      var a: nat, b: nat, c: nat :| n / 5 == Smooth(a, b, c);
      SmoothSteps(a, b, c);
      assert n == Smooth(a, b, c + 1);
    }
  }

  /** The two characterisations of "regular" agree. */
  lemma RegularIffSmooth(n: int)
    ensures IsRegular(n) <==> exists a: nat, b: nat, c: nat :: n == Smooth(a, b, c)
  {
    if IsRegular(n) {
      RegularIsSmooth(n);
    }
    if exists a: nat, b: nat, c: nat :: n == Smooth(a, b, c) {
      var a: nat, b: nat, c: nat :| n == Smooth(a, b, c);
      SmoothIsRegular(a, b, c);
    }
  }

  lemma {:induction false} BitAndSelf(k: nat)
    ensures BitAnd(k, k) == k
    decreases k
  {
    if k > 0 {
      BitAndSelf(k / 2);
    }
  }

  /** Python's test `not (n & (n - 1))` recognises exactly the powers of two. */
  lemma {:induction false} PowerOfTwoBitTest(n: int)
    requires n >= 1
    ensures BitAnd(n, n - 1) == 0 <==> IsPowerOfTwo(n)
    decreases n
  {
    if n == 1 {
    } else if n % 2 == 0 {
      PowerOfTwoBitTest(n / 2);
      assert BitAnd(n, n - 1) == 2 * BitAnd(n / 2, (n - 1) / 2);
      assert (n - 1) / 2 == n / 2 - 1;
    } else {
      BitAndSelf(n / 2);
      assert BitAnd(n, n - 1) == 2 * BitAnd(n / 2, (n - 1) / 2);
      assert (n - 1) / 2 == n / 2;
    }
  }

  lemma {:induction false} PowerOfTwoIsRegular(n: int)
    requires IsPowerOfTwo(n)
    ensures IsRegular(n)
    decreases n
  {
    if n != 1 {
      PowerOfTwoIsRegular(n / 2);
    }
  }

  lemma SmallTargetsAreRegular(n: int)
    requires 1 <= n <= 6
    ensures IsRegular(n)
  {
    assert IsRegular(1);
    if n == 2 || n == 4 {
      assert IsRegular(n / 2);
    } else if n == 3 || n == 6 {
      assert IsRegular(n / 3);
    } else if n == 5 {
      assert IsRegular(n / 5);
    }
  }

  // ---------------------------------------------------------------------
  // The search

  /** Every 5-smooth number at or above the target whose exponent of 5 is
      below c, or equal to c with exponent of 3 below j, is >= best. */
  ghost predicate Covers(best: Option<nat>, target: int, c: nat, j: nat)
  {
    forall a: nat, b: nat, c': nat {:trigger Smooth(a, b, c')} ::
      (c' < c || (c' == c && b < j)) && Smooth(a, b, c') >= target ==>
        best.Some? && best.value <= Smooth(a, b, c')
  }

  ghost predicate Candidate(best: Option<nat>, target: int)
  {
    best.Some? ==> best.value >= target && IsRegular(best.value)
  }

  function Improve(best: Option<nat>, n: nat): (r: Option<nat>)
    ensures r.Some? && r.value <= n
    ensures best.Some? ==> r.value <= best.value
    ensures r == Some(n) || r == best
  {
    if best.None? || n < best.value then Some(n) else best
  }

  /** The odd part p35 = 3^j 5^c after one more factor of 3. */
  lemma OddPartStep(j: nat, c: nat)
    ensures (Pow(3, j) * Pow(5, c)) * 3 == Pow(3, j + 1) * Pow(5, c)
    ensures Pow(3, j) * Pow(5, c) == Smooth(0, j, c)
  {
    MulLeft(3, Pow(3, j), Pow(5, c));
  }

  /** One pass of the inner loop extends the coverage to exponent of 3 = j. */
  lemma InnerStep(best: Option<nat>, target: int, c: nat, j: nat)
    requires target >= 1
    requires Covers(best, target, c, j)
    ensures var p35 := Pow(3, j) * Pow(5, c);
            var n := Pow(2, BitLength(-((-target) / p35) - 1)) * p35;
            n == Smooth(BitLength(-((-target) / p35) - 1), j, c) &&
            n >= target &&
            Covers(Improve(best, n), target, c, j + 1)
  {
    var p35 := Pow(3, j) * Pow(5, c);
    var n := Pow(2, BitLength(-((-target) / p35) - 1)) * p35;
    CandidateIsLeast(target, p35, 0);
    var best' := Improve(best, n);
    forall a: nat, b: nat, c': nat |
      (c' < c || (c' == c && b < j + 1)) && Smooth(a, b, c') >= target
      ensures best'.Some? && best'.value <= Smooth(a, b, c')
    {
      if c' == c && b == j {
        CandidateIsLeast(target, p35, a);
      }
    }
  }

  /** Once 3^j 5^c reaches the target, every larger exponent of 3 gives a
      number at least as large, so exponent of 5 = c is fully covered. */
  lemma InnerExit(best: Option<nat>, target: int, c: nat, j: nat)
    requires Pow(3, j) * Pow(5, c) >= target
    requires Covers(best, target, c, j)
    ensures Covers(Improve(best, Pow(3, j) * Pow(5, c)), target, c + 1, 0)
  {
    var best' := Improve(best, Pow(3, j) * Pow(5, c));
    forall a: nat, b: nat, c': nat |
      c' <= c && Smooth(a, b, c') >= target
      ensures best'.Some? && best'.value <= Smooth(a, b, c')
    {
      if c' == c && b >= j {
        PowMonotone(3, j, b);
        MulMonotone(Pow(3, j), Pow(3, b), Pow(5, c));
        MulMonotone(1, Pow(2, a), Pow(3, b) * Pow(5, c));
      }
    }
  }

  /** Once 5^c reaches the target, every 5-smooth number >= target is covered. */
  lemma OuterExit(best: Option<nat>, target: int, c: nat)
    requires Pow(5, c) >= target
    requires Covers(best, target, c, 0)
    ensures forall a: nat, b: nat, c': nat :: Smooth(a, b, c') >= target ==>
              Improve(best, Pow(5, c)).value <= Smooth(a, b, c')
  {
    var best' := Improve(best, Pow(5, c));
    forall a: nat, b: nat, c': nat | Smooth(a, b, c') >= target
      ensures best'.value <= Smooth(a, b, c')
    {
      if c' >= c {
        PowMonotone(5, c, c');
        MulMonotone(1, Pow(3, b), Pow(5, c'));
        MulMonotone(1, Pow(2, a), Pow(3, b) * Pow(5, c'));
      }
    }
  }

  /** A value below every 5-smooth number >= target leaves no regular
      number between target and itself. */
  lemma LowerBoundExcludesRegulars(target: int, v: int)
    requires forall a: nat, b: nat, c: nat :: Smooth(a, b, c) >= target ==> v <= Smooth(a, b, c)
    ensures forall m :: target <= m < v ==> !IsRegular(m)
  {
    forall m | target <= m < v
      ensures !IsRegular(m)
    {
      if IsRegular(m) {
        RegularIsSmooth(m);
        assert false;
      }
    }
  }

  /** The inner loop of `_next_regular` for one power of 5: for each odd
      part 3^j 5^c below the target, the least multiple by a power of two
      that reaches it. Stops early (hit) when a candidate equals the target. */
  method ScanThrees(target: int, p5: nat, ghost c: nat, best0: Option<nat>) returns (hit: bool, best: Option<nat>)
    requires target >= 1 && p5 == Pow(5, c)
    requires Candidate(best0, target) && Covers(best0, target, c, 0)
    ensures hit ==> IsRegular(target)
    ensures !hit ==> Candidate(best, target) && Covers(best, target, c + 1, 0)
  {
    best := best0;
    var p35: nat := p5;
    ghost var j: nat := 0;
    while p35 < target
      invariant p35 == Pow(3, j) * Pow(5, c)
      invariant Candidate(best, target)
      invariant Covers(best, target, c, j)
      decreases target - p35
    {
      var quotient := -((-target) / p35);
      var p2 := Pow(2, BitLength(quotient - 1));
      var N := p2 * p35;
      InnerStep(best, target, c, j);
      SmoothIsRegular(BitLength(quotient - 1), j, c);
      if N == target {
        return true, best;
      }
      best := Improve(best, N);
      OddPartStep(j, c);
      p35 := p35 * 3;
      j := j + 1;
      if p35 == target {
        OddPartStep(j, c);
        SmoothIsRegular(0, j, c);
        return true, best;
      }
    }
    OddPartStep(j, c);
    SmoothIsRegular(0, j, c);
    InnerExit(best, target, c, j);
    best := Improve(best, p35);
    hit := false;
  }

  /** `_next_regular(target)`: targets up to 6 come back unchanged, as do
      powers of two; otherwise the least 5-smooth number >= target. */
  method NextRegular(target: int) returns (r: int)
    ensures target <= 6 ==> r == target
    ensures IsPowerOfTwo(target) ==> r == target
    ensures target >= 1 ==> r >= target && IsRegular(r)
    ensures target >= 1 ==> forall m :: target <= m < r ==> !IsRegular(m)
  {
    if target <= 6 {
      if target >= 1 {
        SmallTargetsAreRegular(target);
      }
      return target;
    }
    PowerOfTwoBitTest(target);
    if BitAnd(target, target - 1) == 0 {
      PowerOfTwoIsRegular(target);
      return target;
    }

    var best: Option<nat> := None;
    var p5: nat := 1;
    ghost var c: nat := 0;
    while p5 < target
      invariant p5 == Pow(5, c)
      invariant Candidate(best, target)
      invariant Covers(best, target, c, 0)
      decreases target - p5
    {
      var hit;
      hit, best := ScanThrees(target, p5, c, best);
      if hit {
        return target;
      }
      p5 := p5 * 5;
      c := c + 1;
      if p5 == target {
        assert p5 == Smooth(0, 0, c);
        SmoothIsRegular(0, 0, c);
        return p5;
      }
    }
    assert p5 == Smooth(0, 0, c);
    SmoothIsRegular(0, 0, c);
    OuterExit(best, target, c);
    best := Improve(best, p5);
    r := best.value;
    LowerBoundExcludesRegulars(target, r);
  }

  /** The contract of NextRegular pins down its value: 7 -> 8, 11 -> 12. */
  lemma NextRegularExamples(r7: int, r11: int)
    requires r7 >= 7 && IsRegular(r7) && forall m :: 7 <= m < r7 ==> !IsRegular(m)
    requires r11 >= 11 && IsRegular(r11) && forall m :: 11 <= m < r11 ==> !IsRegular(m)
    ensures r7 == 8 && r11 == 12
  {
    assert IsRegular(8) by {
      assert IsRegular(4) by { assert IsRegular(2) by { assert IsRegular(1); } }
    }
    assert !IsRegular(7);
    assert IsRegular(12) by {
      assert IsRegular(6) by { assert IsRegular(3) by { assert IsRegular(1); } }
    }
    assert !IsRegular(11);
  }
}
