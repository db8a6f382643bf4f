/** The statistic plumbing of `SfsStats` (momi/sfs_stats.py): the derived
    allele weight vectors of `ordered_prob`, the subsamples behind the
    f-statistics, and the monomorphic corrections of the observed and
    expected statistics. The tensor products themselves are a parameter. */
module SfsStats {
  import opened Wrappers
  import opened Numbers

  type Pop = string

  datatype StatsError =
    | UnknownPopulation   // a population missing from a dict (KeyError)
    | TooFewAscertained   // `ObservedSfsStats`: ValueError
    | RowLength           // `ExpectedSfsStats.tensor_prod`: a weight row of the wrong length
    | EmptyWeights        // `v[0]` of an empty weight vector (IndexError)

  // ------------------------------------------------------------ sample sizes

  /** A dict as its list of items; the keys of a dict are distinct. */
  predicate DistinctKeys<V>(items: seq<(Pop, V)>)
  {
    forall i, j :: 0 <= i < j < |items| ==> items[i].0 != items[j].0
  }

  /** `SfsStats.__init__`: only populations with a positive sample size are
      kept. */
  function KeepSampled(items: seq<(Pop, int)>): (r: map<Pop, nat>)
    requires DistinctKeys(items)
    ensures forall i :: 0 <= i < |items| && items[i].1 > 0 ==> items[i].0 in r && r[items[i].0] == items[i].1
    ensures forall p :: p in r ==> exists i :: 0 <= i < |items| && items[i].0 == p && items[i].1 > 0
    decreases |items|
  {
    if |items| == 0 then map[]
    else
      var front := items[..|items| - 1];
      var (p, n) := items[|items| - 1];
      assert forall i :: 0 <= i < |front| ==> front[i] == items[i];
      var r := KeepSampled(front);
      if n > 0 then r[p := n] else r
  }

  // ------------------------------------------------------------ weights

  /** `x (x-1) ... (x-k+1)`. */
  function Falling(x: int, k: nat): int
  {
    if k == 0 then 1 else Falling(x, k - 1) * (x - (k - 1))
  }

  lemma {:induction false} FallingPositive(x: int, k: nat)
    requires k <= x
    ensures Falling(x, k) > 0
  {
    if k > 0 {
      FallingPositive(x, k - 1);
    }
  }

  /** The product has the factor 0 when `0 <= x < k`. */
  lemma {:induction false} FallingVanishes(x: int, k: nat)
    requires 0 <= x < k
    ensures Falling(x, k) == 0
  {
    if x < k - 1 {
      FallingVanishes(x, k - 1);
    }
  }

  /** The ordered probability that c0 ancestral and then c1 derived
      alleles are drawn without replacement from n lineages, a of them
      derived. */
  function Weight(n: nat, c0: nat, c1: nat, a: nat): real
    requires c0 + c1 <= n && a <= n
  {
    FallingPositive(n, c0 + c1);
    (Falling(n - a, c0) * Falling(a, c1)) as real / Falling(n, c0 + c1) as real
  }

  /** The weight vector `ordered_prob` computes for one population: entry a
      for a derived alleles among n. A subsample larger than the sample
      divides zero by zero, so every entry is NaN. */
  function WeightVector(n: nat, c0: nat, c1: nat): (w: seq<Num>)
    ensures |w| == n + 1
  {
    if c0 + c1 <= n then seq(n + 1, a requires 0 <= a <= n => Finite(Weight(n, c0, c1, a)))
    else seq(n + 1, _ => NaN)
  }

  /** An entry is 0 when it has fewer derived alleles than the subsample
      draws, or fewer ancestral ones. */
  lemma WeightVanishes(n: nat, c0: nat, c1: nat, a: nat)
    requires c0 + c1 <= n && a <= n
    requires a < c1 || n - a < c0
    ensures WeightVector(n, c0, c1)[a] == Finite(0.0)
  {
    FallingPositive(n, c0 + c1);
    if a < c1 {
      FallingVanishes(a, c1);
      assert Falling(n - a, c0) * Falling(a, c1) == 0;
    } else {
      FallingVanishes(n - a, c0);
      assert Falling(n - a, c0) * Falling(a, c1) == 0;
    }
    assert Weight(n, c0, c1, a) == 0.0 / Falling(n, c0 + c1) as real;
  }

  /** Swapping the roles of ancestral and derived mirrors the vector. */
  lemma WeightMirror(n: nat, c0: nat, c1: nat, a: nat)
    requires a <= n
    ensures WeightVector(n, c1, c0)[a] == WeightVector(n, c0, c1)[n - a]
  {
    if c0 + c1 <= n {
      assert Falling(n - a, c1) * Falling(a, c0) == Falling(n - (n - a), c0) * Falling(n - a, c1);
    }
  }

  /** A subsample larger than the sample leaves nothing to divide but 0:
      some factor of every numerator vanishes. */
  lemma NumeratorVanishes(n: nat, c0: nat, c1: nat, a: nat)
    requires c0 + c1 > n && a <= n
    ensures Falling(n - a, c0) * Falling(a, c1) == 0
  {
    if a < c1 {
      FallingVanishes(a, c1);
    } else {
      FallingVanishes(n - a, c0);
    }
  }

  lemma RealProduct(x: int, y: int)
    ensures (x * y) as real == x as real * y as real
  {
  }

  lemma ProductStep(x: int, y: int, z: int)
    ensures (x * y) as real * z as real == (x * (y * z)) as real
  {
    RealProduct(x * y, z);
    assert (x * y) * z == x * (y * z);
  }

  lemma QuotientStep(q: real, d: int, m: int, x: real)
    requires m != 0 && q * d as real == x
    ensures (q / m as real) * (d * m) as real == x
  {
    RealProduct(d, m);
    calc {
      (q / m as real) * (d * m) as real;
      (q / m as real) * (d as real * m as real);
      (q / m as real * m as real) * d as real;
      q * d as real;
    }
  }

  /** Entry a of num is the product of its first c0 ancestral and first c1
      derived factors. */
  ghost predicate Factored(num: seq<real>, n: nat, c0: nat, c1: nat)
  {
    |num| == n + 1 && forall a :: 0 <= a <= n ==> num[a] == (Falling(n - a, c0) * Falling(a, c1)) as real
  }

  function AncestralStep(num: seq<real>, n: nat, i: nat): (r: seq<real>)
    requires |num| == n + 1
    ensures |r| == n + 1 && forall a :: 0 <= a <= n ==> r[a] == num[a] * (n - a - i) as real
  {
    seq(n + 1, a requires 0 <= a <= n => num[a] * (n - a - i) as real)
  }

  function DerivedStep(num: seq<real>, n: nat, i: nat): (r: seq<real>)
    requires |num| == n + 1
    ensures |r| == n + 1 && forall a :: 0 <= a <= n ==> r[a] == num[a] * (a - i) as real
  {
    seq(n + 1, a requires 0 <= a <= n => num[a] * (a - i) as real)
  }

  lemma AncestralStepFactors(num: seq<real>, n: nat, i: nat)
    requires Factored(num, n, i, 0)
    ensures Factored(AncestralStep(num, n, i), n, i + 1, 0)
  {
    forall a | 0 <= a <= n
      ensures num[a] * (n - a - i) as real == (Falling(n - a, i + 1) * Falling(a, 0)) as real
    {
      RealProduct(Falling(n - a, i), n - a - i);
    }
  }

  lemma DerivedStepFactors(num: seq<real>, n: nat, c0: nat, i: nat)
    requires Factored(num, n, c0, i)
    ensures Factored(DerivedStep(num, n, i), n, c0, i + 1)
  {
    var next := DerivedStep(num, n, i);
    forall a | 0 <= a <= n
      ensures next[a] == (Falling(n - a, c0) * Falling(a, i + 1)) as real
    {
      DerivedEntry(num[a], n, c0, a, i);
    }
  }

  /** One derived factor more, for a single entry. */
  lemma DerivedEntry(x: real, n: nat, c0: nat, a: nat, i: nat)
    requires a <= n && x == (Falling(n - a, c0) * Falling(a, i)) as real
    ensures x * (a - i) as real == (Falling(n - a, c0) * Falling(a, i + 1)) as real
  {
    FallingStep(a, i);
    ScaledEntry(x, Falling(n - a, c0), Falling(a, i), a - i, Falling(a, i + 1));
  }

  lemma FallingStep(x: int, k: nat)
    ensures Falling(x, k + 1) == Falling(x, k) * (x - k)
  {
  }

  lemma ScaledEntry(x: real, p: int, q: int, s: int, r: int)
    requires x == (p * q) as real && r == q * s
    ensures x * s as real == (p * r) as real
  {
    ProductStep(p, q, s);
  }

  /** The first loop of `ordered_prob`: `prob *= (n - arange - i)` for i
      below c0. */
  method AncestralFactors(n: nat, c0: nat) returns (num: seq<real>)
    ensures |num| == n + 1
    ensures forall a :: 0 <= a <= n ==> num[a] == Falling(n - a, c0) as real
  {
    num := seq(n + 1, _ => 1.0);
    var i := 0;
    while i < c0
      invariant 0 <= i <= c0 && Factored(num, n, i, 0)
    {
      AncestralStepFactors(num, n, i);
      num := AncestralStep(num, n, i);
      i := i + 1;
    }
  }

  /** The second loop: `prob *= (arange - i)` for i below c1. */
  method DerivedFactors(n: nat, c0: nat, c1: nat, start: seq<real>) returns (num: seq<real>)
    requires |start| == n + 1
    requires forall a :: 0 <= a <= n ==> start[a] == Falling(n - a, c0) as real
    ensures |num| == n + 1
    ensures forall a :: 0 <= a <= n ==> num[a] == (Falling(n - a, c0) * Falling(a, c1)) as real
  {
    num := start;
    var i := 0;
    while i < c1
      invariant 0 <= i <= c1 && Factored(num, n, c0, i)
    {
      DerivedStepFactors(num, n, c0, i);
      num := DerivedStep(num, n, i);
      i := i + 1;
    }
  }

  /** Every entry of q, multiplied by d, gives back the numerator. */
  ghost predicate Scaled(q: seq<real>, num: seq<real>, d: int)
  {
    |q| == |num| && forall a :: 0 <= a < |q| ==> q[a] * d as real == num[a]
  }

  function DivideAll(q: seq<real>, m: nat): (r: seq<real>)
    requires m != 0
    ensures |r| == |q| && forall a :: 0 <= a < |q| ==> r[a] == q[a] / m as real
  {
    seq(|q|, a requires 0 <= a < |q| => q[a] / m as real)
  }

  lemma DivideStep(q: seq<real>, num: seq<real>, n: nat, i: nat)
    requires i < n && Scaled(q, num, Falling(n, i))
    ensures Scaled(DivideAll(q, n - i), num, Falling(n, i + 1))
  {
    var r := DivideAll(q, n - i);
    forall a | 0 <= a < |q|
      ensures r[a] * Falling(n, i + 1) as real == num[a]
    {
      QuotientStep(q[a], Falling(n, i), n - i, num[a]);
    }
  }

  lemma NumeratorsVanish(n: nat, c0: nat, c1: nat, num: seq<real>)
    requires |num| == n + 1 && c0 + c1 > n
    requires forall a :: 0 <= a <= n ==> num[a] == (Falling(n - a, c0) * Falling(a, c1)) as real
    ensures forall a :: 0 <= a <= n ==> num[a] == 0.0
  {
    forall a | 0 <= a <= n
      ensures num[a] == 0.0
    {
      NumeratorVanishes(n, c0, c1, a);
    }
  }

  /** The third loop: `prob /= float(n - i)` for i below c0 + c1. Division
      by 0.0 happens only once every numerator is 0, and turns every entry
      into NaN (`nan`), which later divisions keep. */
  method DivideDown(n: nat, c0: nat, c1: nat, num: seq<real>) returns (q: seq<real>, nan: bool)
    requires |num| == n + 1
    requires forall a :: 0 <= a <= n ==> num[a] == (Falling(n - a, c0) * Falling(a, c1)) as real
    ensures nan <==> c0 + c1 > n
    ensures !nan ==> Scaled(q, num, Falling(n, c0 + c1))
  {
    q := num;
    nan := false;
    var i := 0;
    assert Scaled(q, num, Falling(n, 0));
    while i < c0 + c1
      invariant 0 <= i <= c0 + c1
      invariant nan <==> i > n
      invariant !nan ==> Scaled(q, num, Falling(n, i))
    {
      if !nan {
        if n - i == 0 {
          nan := true;
        } else {
          DivideStep(q, num, n, i);
          q := DivideAll(q, n - i);
        }
      }
      i := i + 1;
    }
  }

  lemma DivideOut(q: real, d: real, x: real)
    requires d != 0.0 && q * d == x
    ensures q == x / d
  {
  }

  /** Dividing the numerators out gives the weights. */
  lemma ScaledWeights(n: nat, c0: nat, c1: nat, num: seq<real>, q: seq<real>)
    requires |num| == n + 1 && c0 + c1 <= n
    requires forall a :: 0 <= a <= n ==> num[a] == (Falling(n - a, c0) * Falling(a, c1)) as real
    requires Scaled(q, num, Falling(n, c0 + c1))
    ensures forall a :: 0 <= a <= n ==> q[a] == Weight(n, c0, c1, a)
  {
    FallingPositive(n, c0 + c1);
    forall a | 0 <= a <= n
      ensures q[a] == Weight(n, c0, c1, a)
    {
      DivideOut(q[a], Falling(n, c0 + c1) as real, num[a]);
    }
  }

  method Normalise(n: nat, c0: nat, c1: nat, num: seq<real>) returns (prob: seq<Num>)
    requires |num| == n + 1
    requires forall a :: 0 <= a <= n ==> num[a] == (Falling(n - a, c0) * Falling(a, c1)) as real
    ensures prob == WeightVector(n, c0, c1)
  {
    var q, nan := DivideDown(n, c0, c1, num);
    if nan {
      NumeratorsVanish(n, c0, c1, num);
      prob := seq(n + 1, _ => NaN);
    } else {
      ScaledWeights(n, c0, c1, num, q);
      prob := seq(n + 1, a requires 0 <= a <= n => Finite(q[a]));
    }
  }

  /** The three loops of `ordered_prob` for one population. */
  method OrderedWeights(n: nat, c0: nat, c1: nat) returns (prob: seq<Num>)
    ensures prob == WeightVector(n, c0, c1)
  {
    var num := AncestralFactors(n, c0);
    num := DerivedFactors(n, c0, c1, num);
    prob := Normalise(n, c0, c1, num);
  }

  // ------------------------------------------------------------ subsamples

  /** How often v occurs in s (`collections.Counter(s)[v]`). */
  function Count(s: seq<int>, v: int): nat
  {
    if |s| == 0 then 0
    else Count(s[..|s| - 1], v) + (if s[|s| - 1] == v then 1 else 0)
  }

  /** The count is the multiplicity, so reordering a subsample keeps it. */
  lemma {:induction false} CountIsMultiplicity(s: seq<int>, v: int)
    ensures Count(s, v) == multiset(s)[v]
  {
    if |s| > 0 {
      CountIsMultiplicity(s[..|s| - 1], v);
      assert s == s[..|s| - 1] + [s[|s| - 1]];
    }
  }

  lemma {:induction false} CountAppend(s: seq<int>, bit: int, v: int)
    ensures Count(s + [bit], v) == Count(s, v) + (if bit == v then 1 else 0)
  {
    assert (s + [bit])[..|s|] == s;
  }

  /** `1 - np.array(s)`. */
  function Flip(s: seq<int>): (r: seq<int>)
    ensures |r| == |s| && forall i :: 0 <= i < |s| ==> r[i] == 1 - s[i]
  {
    seq(|s|, i requires 0 <= i < |s| => 1 - s[i])
  }

  /** Flipping swaps the number of 0s and 1s. */
  lemma {:induction false} FlipSwapsCounts(s: seq<int>)
    ensures Count(Flip(s), 0) == Count(s, 1)
    ensures Count(Flip(s), 1) == Count(s, 0)
  {
    if |s| > 0 {
      FlipSwapsCounts(s[..|s| - 1]);
      assert Flip(s)[..|s| - 1] == Flip(s[..|s| - 1]);
    }
  }

  /** The subsample dict of the folded half of `ordered_prob`. */
  function Reverse(d: map<Pop, seq<int>>): (r: map<Pop, seq<int>>)
    ensures r.Keys == d.Keys
    ensures forall p :: p in d ==> |r[p]| == |d[p]| && forall i :: 0 <= i < |d[p]| ==> r[p][i] == 1 - d[p][i]
  {
    map p | p in d :: Flip(d[p])
  }

  lemma ReverseTwice(d: map<Pop, seq<int>>)
    ensures Reverse(Reverse(d)) == d
  {
    forall p | p in d
      ensures Reverse(Reverse(d))[p] == d[p]
    {
      assert Flip(Flip(d[p])) == d[p];
    }
  }

  /** Two subsample dicts over the same populations that draw as many 0s and
      as many 1s from each. */
  predicate SameCounts(d: map<Pop, seq<int>>, e: map<Pop, seq<int>>)
  {
    d.Keys == e.Keys &&
    forall p :: p in d ==> Count(d[p], 0) == Count(e[p], 0) && Count(d[p], 1) == Count(e[p], 1)
  }

  /** Reversing a subsample dict swaps the counts of every population. */
  lemma ReverseCounts(d: map<Pop, seq<int>>)
    ensures forall p :: p in d ==> Count(Reverse(d)[p], 0) == Count(d[p], 1) && Count(Reverse(d)[p], 1) == Count(d[p], 0)
  {
    forall p | p in d
      ensures Count(Reverse(d)[p], 0) == Count(d[p], 1) && Count(Reverse(d)[p], 1) == Count(d[p], 0)
    {
      assert Reverse(d)[p] == Flip(d[p]);
      FlipSwapsCounts(d[p]);
    }
  }

  lemma ReverseKeepsSameCounts(d: map<Pop, seq<int>>, e: map<Pop, seq<int>>)
    requires SameCounts(d, e)
    ensures SameCounts(Reverse(d), Reverse(e))
  {
    ReverseCounts(d);
    ReverseCounts(e);
  }

  // ------------------------------------------------------------ ordered_prob

  /** The loop of `ordered_prob` over the subsample dict: the weight vector
      of every population in it, or KeyError for one not sampled. */
  function DerivedWeights(sampled: map<Pop, nat>, d: map<Pop, seq<int>>): (r: Result<map<Pop, seq<Num>>, StatsError>)
    ensures r.Success? <==> d.Keys <= sampled.Keys
    ensures r.Success? ==> r.value.Keys == d.Keys
    ensures r.Success? ==> forall p :: p in d ==> |r.value[p]| == sampled[p] + 1
  {
    if d.Keys <= sampled.Keys then
      Success(map p | p in d :: WeightVector(sampled[p], Count(d[p], 0), Count(d[p], 1)))
    else Failure(UnknownPopulation)
  }

  /** The weights depend on the subsamples only through their counts. */
  lemma WeightsDependOnCounts(sampled: map<Pop, nat>, d: map<Pop, seq<int>>, e: map<Pop, seq<int>>)
    requires SameCounts(d, e)
    ensures DerivedWeights(sampled, d) == DerivedWeights(sampled, e)
  {
    if d.Keys <= sampled.Keys {
      var wd := DerivedWeights(sampled, d).value;
      var we := DerivedWeights(sampled, e).value;
      assert forall p :: p in wd ==> wd[p] == we[p];
      assert wd == we;
    }
  }

  /** A tensor product in the sense of `tensor_prod`: a number for a dict of
      weight vectors. The back-ends are not part of this model. */
  type TensorProd = map<Pop, seq<Num>> -> real

  /** A statistic as a signed sum of tensor products, one term per call to
      `tensor_prod`. */
  datatype Term = Term(coef: int, weights: map<Pop, seq<Num>>)

  function Eval(terms: seq<Term>, tensor: TensorProd): real
  {
    if |terms| == 0 then 0.0
    else Eval(terms[..|terms| - 1], tensor) + terms[|terms| - 1].coef as real * tensor(terms[|terms| - 1].weights)
  }

  lemma {:induction false} EvalAppend(a: seq<Term>, b: seq<Term>, tensor: TensorProd)
    ensures Eval(a + b, tensor) == Eval(a, tensor) + Eval(b, tensor)
    decreases |b|
  {
    if |b| > 0 {
      var b' := b[..|b| - 1];
      assert (a + b)[..|a + b| - 1] == a + b';
      assert (a + b)[|a + b| - 1] == b[|b| - 1];
      EvalAppend(a, b', tensor);
    } else {
      assert a + b == a;
    }
  }

  function Negate(terms: seq<Term>): (r: seq<Term>)
    ensures |r| == |terms|
    ensures forall i :: 0 <= i < |terms| ==> r[i] == Term(-terms[i].coef, terms[i].weights)
  {
    seq(|terms|, i requires 0 <= i < |terms| => Term(-terms[i].coef, terms[i].weights))
  }

  lemma {:induction false} EvalNegate(terms: seq<Term>, tensor: TensorProd)
    ensures Eval(Negate(terms), tensor) == -Eval(terms, tensor)
  {
    if |terms| > 0 {
      var front := terms[..|terms| - 1];
      assert Negate(terms)[..|terms| - 1] == Negate(front);
      EvalNegate(front, tensor);
    }
  }

  /** `ordered_prob(subsample_dict, fold)` before the division by `denom`:
      one tensor product, or with `fold` the sum of the products for the
      subsample and for its reversal. */
  function OrderedProb(sampled: map<Pop, nat>, d: map<Pop, seq<int>>, fold: bool): (r: Result<seq<Term>, StatsError>)
    ensures r.Success? <==> d.Keys <= sampled.Keys
    ensures r.Success? ==> |r.value| == (if fold then 2 else 1)
    ensures r.Success? ==> forall i :: 0 <= i < |r.value| ==> r.value[i].coef == 1
  {
    if fold then
      // the reversal has the same populations, so it fails only if the
      // straight subsample does
      match OrderedProb(sampled, d, false)
      case Failure(e) => Failure(e)
      case Success(straight) => Success(straight + OrderedProb(sampled, Reverse(d), false).value)
    else
      var w :- DerivedWeights(sampled, d);
      Success([Term(1, w)])
  }

  /** Subsamples with the same counts have the same ordered probability. */
  lemma OrderedProbDependsOnCounts(sampled: map<Pop, nat>, d: map<Pop, seq<int>>, e: map<Pop, seq<int>>, fold: bool)
    requires SameCounts(d, e)
    ensures OrderedProb(sampled, d, fold) == OrderedProb(sampled, e, fold)
  {
    WeightsDependOnCounts(sampled, d, e);
    ReverseKeepsSameCounts(d, e);
    WeightsDependOnCounts(sampled, Reverse(d), Reverse(e));
  }

  /** Folding sums the probabilities of the subsample and of its reversal. */
  lemma FoldAddsReversal(sampled: map<Pop, nat>, d: map<Pop, seq<int>>, tensor: TensorProd)
    requires d.Keys <= sampled.Keys
    ensures Eval(OrderedProb(sampled, d, true).value, tensor) ==
            Eval(OrderedProb(sampled, d, false).value, tensor) + Eval(OrderedProb(sampled, Reverse(d), false).value, tensor)
  {
    EvalAppend(OrderedProb(sampled, d, false).value, OrderedProb(sampled, Reverse(d), false).value, tensor);
  }

  /** A folded probability does not tell a subsample from its reversal. */
  lemma FoldForgetsOrientation(sampled: map<Pop, nat>, d: map<Pop, seq<int>>, tensor: TensorProd)
    requires d.Keys <= sampled.Keys
    ensures OrderedProb(sampled, Reverse(d), true).Success?
    ensures Eval(OrderedProb(sampled, Reverse(d), true).value, tensor) == Eval(OrderedProb(sampled, d, true).value, tensor)
  {
    ReverseTwice(d);
    FoldAddsReversal(sampled, d, tensor);
    FoldAddsReversal(sampled, Reverse(d), tensor);
  }

  /** Folded probabilities agree when the subsamples have the same counts,
      directly or after reversing one of them. */
  lemma FoldedAgree(sampled: map<Pop, nat>, d: map<Pop, seq<int>>, e: map<Pop, seq<int>>, tensor: TensorProd)
    requires SameCounts(d, e) || SameCounts(Reverse(d), e)
    ensures OrderedProb(sampled, d, true).Success? <==> OrderedProb(sampled, e, true).Success?
    ensures OrderedProb(sampled, d, true).Success? ==>
              Eval(OrderedProb(sampled, d, true).value, tensor) == Eval(OrderedProb(sampled, e, true).value, tensor)
  {
    if SameCounts(d, e) {
      OrderedProbDependsOnCounts(sampled, d, e, true);
    } else {
      OrderedProbDependsOnCounts(sampled, Reverse(d), e, true);
      if d.Keys <= sampled.Keys {
        FoldForgetsOrientation(sampled, d, tensor);
      }
    }
  }

  // ------------------------------------------------------------ f-statistics

  /** The populations of d are those drawing a derived allele (`ones`) or
      an ancestral one (`zeros`), each as often as the multisets say. */
  ghost predicate Counted(d: map<Pop, seq<int>>, ones: multiset<Pop>, zeros: multiset<Pop>)
  {
    (forall p :: p in d <==> p in ones || p in zeros) &&
    forall p :: p in d ==> Count(d[p], 1) == ones[p] && Count(d[p], 0) == zeros[p]
  }

  lemma CountedAlike(d: map<Pop, seq<int>>, e: map<Pop, seq<int>>, ones: multiset<Pop>, zeros: multiset<Pop>,
                      ones': multiset<Pop>, zeros': multiset<Pop>)
    requires Counted(d, ones, zeros) && Counted(e, ones', zeros')
    requires ones == ones' && zeros == zeros'
    ensures SameCounts(d, e)
  {
  }

  lemma CountedReverse(d: map<Pop, seq<int>>, ones: multiset<Pop>, zeros: multiset<Pop>)
    requires Counted(d, ones, zeros)
    ensures Counted(Reverse(d), zeros, ones)
  {
    ReverseCounts(d);
  }

  /** `subsample_dict[p].append(bit)` on a `defaultdict(list)`. */
  function Push(d: map<Pop, seq<int>>, p: Pop, bit: int): map<Pop, seq<int>>
  {
    d[p := (if p in d then d[p] else []) + [bit]]
  }

  /** The dict a sequence of appends builds, starting from nothing. */
  function Appends(items: seq<(Pop, int)>): map<Pop, seq<int>>
  {
    if |items| == 0 then map[]
    else Push(Appends(items[..|items| - 1]), items[|items| - 1].0, items[|items| - 1].1)
  }

  /** The populations the appends give the bit, with multiplicity. */
  function Drawn(items: seq<(Pop, int)>, bit: int): multiset<Pop>
  {
    if |items| == 0 then multiset{}
    else Drawn(items[..|items| - 1], bit) + (if items[|items| - 1].1 == bit then multiset{items[|items| - 1].0} else multiset{})
  }

  lemma DrawnSnoc(items: seq<(Pop, int)>, p: Pop, bit: int, v: int)
    ensures Drawn(items + [(p, bit)], v) == Drawn(items, v) + (if bit == v then multiset{p} else multiset{})
  {
    assert (items + [(p, bit)])[..|items|] == items;
  }

  lemma PushCounted(d: map<Pop, seq<int>>, ones: multiset<Pop>, zeros: multiset<Pop>, p: Pop, bit: int)
    requires Counted(d, ones, zeros) && (bit == 0 || bit == 1)
    ensures Counted(Push(d, p, bit), ones + (if bit == 1 then multiset{p} else multiset{}),
                                     zeros + (if bit == 0 then multiset{p} else multiset{}))
  {
    var d' := Push(d, p, bit);
    forall q | q in d'
      ensures Count(d'[q], 1) == (ones + (if bit == 1 then multiset{p} else multiset{}))[q]
      ensures Count(d'[q], 0) == (zeros + (if bit == 0 then multiset{p} else multiset{}))[q]
    {
      PushCountAt(d, ones, zeros, p, bit, q);
    }
  }

  lemma PushCountAt(d: map<Pop, seq<int>>, ones: multiset<Pop>, zeros: multiset<Pop>, p: Pop, bit: int, q: Pop)
    requires Counted(d, ones, zeros) && (bit == 0 || bit == 1) && q in Push(d, p, bit)
    ensures Count(Push(d, p, bit)[q], 1) == (ones + (if bit == 1 then multiset{p} else multiset{}))[q]
    ensures Count(Push(d, p, bit)[q], 0) == (zeros + (if bit == 0 then multiset{p} else multiset{}))[q]
  {
    if q == p {
      var before := if p in d then d[p] else [];
      CountAppend(before, bit, 0);
      CountAppend(before, bit, 1);
    } else {
      assert Push(d, p, bit)[q] == d[q];
    }
  }

  /** Every item records a 0 or a 1. */
  predicate Bits(items: seq<(Pop, int)>)
  {
    forall i :: 0 <= i < |items| ==> items[i].1 == 0 || items[i].1 == 1
  }

  lemma {:induction false} AppendsCounted(items: seq<(Pop, int)>)
    requires Bits(items)
    ensures Counted(Appends(items), Drawn(items, 1), Drawn(items, 0))
  {
    if |items| > 0 {
      var front := items[..|items| - 1];
      AppendsCounted(front);
      PushCounted(Appends(front), Drawn(front, 1), Drawn(front, 0), items[|items| - 1].0, items[|items| - 1].1);
    }
  }

  /** The appends of `count_1100(A, B, C, O)`, in order. */
  function Appended(A: Pop, B: Pop, C: Pop, O: Option<Pop>): seq<(Pop, int)>
  {
    [(A, 1), (B, 1), (C, 0)] + if O.Some? then [(O.value, 0)] else []
  }

  /** The subsample dict of `count_1100(A, B, C, O)`. */
  function Subsample(A: Pop, B: Pop, C: Pop, O: Option<Pop>): map<Pop, seq<int>>
  {
    Appends(Appended(A, B, C, O))
  }

  function Named(A: Pop, B: Pop, C: Pop, O: Option<Pop>): set<Pop>
  {
    {A, B, C} + if O.Some? then {O.value} else {}
  }

  function Given(O: Option<Pop>): multiset<Pop>
  {
    if O.Some? then multiset{O.value} else multiset{}
  }

  lemma AppendedDrawn(A: Pop, B: Pop, C: Pop, O: Option<Pop>)
    ensures Drawn(Appended(A, B, C, O), 1) == multiset{A, B}
    ensures Drawn(Appended(A, B, C, O), 0) == multiset{C} + Given(O)
  {
    DrawnBits(A, B, C, O, 1);
    DrawnBits(A, B, C, O, 0);
  }

  lemma DrawnBits(A: Pop, B: Pop, C: Pop, O: Option<Pop>, v: int)
    requires v == 0 || v == 1
    ensures Drawn(Appended(A, B, C, O), v) == if v == 1 then multiset{A, B} else multiset{C} + Given(O)
  {
    var s0: seq<(Pop, int)> := [];
    var s1 := s0 + [(A, 1)];
    var s2 := s1 + [(B, 1)];
    var s3 := s2 + [(C, 0)];
    DrawnSnoc(s0, A, 1, v);
    DrawnSnoc(s1, B, 1, v);
    DrawnSnoc(s2, C, 0, v);
    assert Drawn(s3, v) == if v == 1 then multiset{A, B} else multiset{C};
    if O.Some? {
      DrawnSnoc(s3, O.value, 0, v);
      assert Appended(A, B, C, O) == s3 + [(O.value, 0)];
    } else {
      assert Appended(A, B, C, O) == s3;
    }
  }

  /** A and B each draw a derived allele and C and O an ancestral one,
      repeated names accumulating. */
  lemma SubsampleCounts(A: Pop, B: Pop, C: Pop, O: Option<Pop>)
    ensures Counted(Subsample(A, B, C, O), multiset{A, B}, multiset{C} + Given(O))
  {
    var items := Appended(A, B, C, O);
    assert Bits(items);
    AppendedDrawn(A, B, C, O);
    AppendsCounted(items);
  }

  lemma CountedKeys(d: map<Pop, seq<int>>, ones: multiset<Pop>, zeros: multiset<Pop>, names: set<Pop>)
    requires Counted(d, ones, zeros)
    requires forall p :: p in names <==> p in ones || p in zeros
    ensures d.Keys == names
  {
  }

  lemma NamedDrawn(A: Pop, B: Pop, C: Pop, O: Option<Pop>)
    ensures forall p :: p in Named(A, B, C, O) <==> p in multiset{A, B} || p in multiset{C} + Given(O)
  {
  }

  lemma SubsampleKeys(A: Pop, B: Pop, C: Pop, O: Option<Pop>)
    ensures Subsample(A, B, C, O).Keys == Named(A, B, C, O)
  {
    SubsampleCounts(A, B, C, O);
    NamedDrawn(A, B, C, O);
    CountedKeys(Subsample(A, B, C, O), multiset{A, B}, multiset{C} + Given(O), Named(A, B, C, O));
  }

  /** `count_1100(A, B, C, O)`: folded exactly when O is given. */
  function Count1100(sampled: map<Pop, nat>, A: Pop, B: Pop, C: Pop, O: Option<Pop>): (r: Result<seq<Term>, StatsError>)
    ensures r.Success? <==> Named(A, B, C, O) <= sampled.Keys
    ensures r.Success? ==> |r.value| == (if O.Some? then 2 else 1)
  {
    SubsampleKeys(A, B, C, O);
    OrderedProb(sampled, Subsample(A, B, C, O), O.Some?)
  }

  function Baba(sampled: map<Pop, nat>, A: Pop, B: Pop, C: Pop, O: Option<Pop>): Result<seq<Term>, StatsError>
  {
    Count1100(sampled, A, C, B, O)
  }

  function Abba(sampled: map<Pop, nat>, A: Pop, B: Pop, C: Pop, O: Option<Pop>): Result<seq<Term>, StatsError>
  {
    Count1100(sampled, B, C, A, O)
  }

  /** `abba_baba(A, B, C, D)`, also `f4`: BABA minus ABBA, BABA computed
      first. */
  function F4(sampled: map<Pop, nat>, A: Pop, B: Pop, C: Pop, D: Option<Pop>): (r: Result<seq<Term>, StatsError>)
    ensures r.Success? <==> Named(A, B, C, D) <= sampled.Keys
  {
    assert Named(A, C, B, D) == Named(B, C, A, D) == Named(A, B, C, D);
    // both subsamples name the same populations, so ABBA fails only if
    // BABA does
    match Baba(sampled, A, B, C, D)
    case Failure(e) => Failure(e)
    case Success(baba) => Success(baba + Negate(Abba(sampled, A, B, C, D).value))
  }

  /** `f3(A, B, O)`. */
  function F3(sampled: map<Pop, nat>, A: Pop, B: Pop, O: Pop): Result<seq<Term>, StatsError>
  {
    F4(sampled, O, A, O, Some(B))
  }

  /** `f2(A, B)`. */
  function F2(sampled: map<Pop, nat>, A: Pop, B: Pop): Result<seq<Term>, StatsError>
  {
    F4(sampled, A, B, A, Some(B))
  }

  /** The value of f4 is the value of BABA less that of ABBA. */
  lemma F4Value(sampled: map<Pop, nat>, A: Pop, B: Pop, C: Pop, D: Option<Pop>, tensor: TensorProd)
    requires F4(sampled, A, B, C, D).Success?
    ensures Baba(sampled, A, B, C, D).Success? && Abba(sampled, A, B, C, D).Success?
    ensures Eval(F4(sampled, A, B, C, D).value, tensor) ==
            Eval(Baba(sampled, A, B, C, D).value, tensor) - Eval(Abba(sampled, A, B, C, D).value, tensor)
  {
    var baba := Baba(sampled, A, B, C, D).value;
    var abba := Abba(sampled, A, B, C, D).value;
    EvalAppend(baba, Negate(abba), tensor);
    EvalNegate(abba, tensor);
  }

  /** Swapping the first two populations negates f4: ABBA of (A, B) is BABA
      of (B, A). */
  lemma F4Antisymmetric(sampled: map<Pop, nat>, A: Pop, B: Pop, C: Pop, D: Option<Pop>, tensor: TensorProd)
    ensures F4(sampled, B, A, C, D).Success? <==> F4(sampled, A, B, C, D).Success?
    ensures F4(sampled, A, B, C, D).Success? ==>
              Eval(F4(sampled, B, A, C, D).value, tensor) == -Eval(F4(sampled, A, B, C, D).value, tensor)
  {
    assert Named(B, A, C, D) == Named(A, B, C, D);
    if F4(sampled, A, B, C, D).Success? {
      F4Value(sampled, A, B, C, D, tensor);
      F4Value(sampled, B, A, C, D, tensor);
    }
  }

  lemma PairMultisets(A: Pop, B: Pop, C: Pop, D: Pop)
    ensures multiset{A, C} == multiset{C, A}
    ensures multiset{B} + Given(Some(D)) == multiset{D} + Given(Some(B))
  {
  }

  lemma CrossMultisets(A: Pop, B: Pop, C: Pop, D: Pop)
    ensures multiset{A} + Given(Some(D)) == multiset{D, A}
    ensures multiset{C} + Given(Some(B)) == multiset{B, C}
  {
  }

  lemma BabaCountsSwap(A: Pop, B: Pop, C: Pop, D: Pop)
    ensures SameCounts(Subsample(A, C, B, Some(D)), Subsample(C, A, D, Some(B)))
  {
    SubsampleCounts(A, C, B, Some(D));
    SubsampleCounts(C, A, D, Some(B));
    PairMultisets(A, B, C, D);
    CountedAlike(Subsample(A, C, B, Some(D)), Subsample(C, A, D, Some(B)),
                 multiset{A, C}, multiset{B} + Given(Some(D)), multiset{C, A}, multiset{D} + Given(Some(B)));
  }

  lemma AbbaCountsSwap(A: Pop, B: Pop, C: Pop, D: Pop)
    ensures SameCounts(Reverse(Subsample(B, C, A, Some(D))), Subsample(D, A, C, Some(B)))
  {
    var abba := Subsample(B, C, A, Some(D));
    SubsampleCounts(B, C, A, Some(D));
    SubsampleCounts(D, A, C, Some(B));
    CrossMultisets(A, B, C, D);
    CountedReverse(abba, multiset{B, C}, multiset{A} + Given(Some(D)));
    CountedAlike(Reverse(abba), Subsample(D, A, C, Some(B)),
                 multiset{A} + Given(Some(D)), multiset{B, C}, multiset{D, A}, multiset{C} + Given(Some(B)));
  }

  /** The BABA subsamples of (A, B; C, D) and (C, D; A, B) draw the same
      counts. */
  lemma BabaPairSwap(sampled: map<Pop, nat>, A: Pop, B: Pop, C: Pop, D: Pop, tensor: TensorProd)
    ensures Baba(sampled, C, D, A, Some(B)).Success? <==> Baba(sampled, A, B, C, Some(D)).Success?
    ensures Baba(sampled, A, B, C, Some(D)).Success? ==>
              Eval(Baba(sampled, C, D, A, Some(B)).value, tensor) == Eval(Baba(sampled, A, B, C, Some(D)).value, tensor)
  {
    BabaCountsSwap(A, B, C, D);
    FoldedAgree(sampled, Subsample(A, C, B, Some(D)), Subsample(C, A, D, Some(B)), tensor);
  }

  /** The ABBA subsamples of (A, B; C, D) and (C, D; A, B) are reversals of
      each other in their counts. */
  lemma AbbaPairSwap(sampled: map<Pop, nat>, A: Pop, B: Pop, C: Pop, D: Pop, tensor: TensorProd)
    ensures Abba(sampled, C, D, A, Some(B)).Success? <==> Abba(sampled, A, B, C, Some(D)).Success?
    ensures Abba(sampled, A, B, C, Some(D)).Success? ==>
              Eval(Abba(sampled, C, D, A, Some(B)).value, tensor) == Eval(Abba(sampled, A, B, C, Some(D)).value, tensor)
  {
    var abba := Subsample(B, C, A, Some(D));
    AbbaCountsSwap(A, B, C, D);
    FoldedAgree(sampled, abba, Subsample(D, A, C, Some(B)), tensor);
  }

  /** Patterson's pair symmetry: with a fourth population, f4 of (A, B; C, D)
      equals f4 of (C, D; A, B). */
  lemma F4PairSwap(sampled: map<Pop, nat>, A: Pop, B: Pop, C: Pop, D: Pop, tensor: TensorProd)
    ensures F4(sampled, C, D, A, Some(B)).Success? <==> F4(sampled, A, B, C, Some(D)).Success?
    ensures F4(sampled, A, B, C, Some(D)).Success? ==>
              Eval(F4(sampled, C, D, A, Some(B)).value, tensor) == Eval(F4(sampled, A, B, C, Some(D)).value, tensor)
  {
    assert Named(C, D, A, Some(B)) == Named(A, B, C, Some(D));
    if F4(sampled, A, B, C, Some(D)).Success? {
      BabaPairSwap(sampled, A, B, C, D, tensor);
      AbbaPairSwap(sampled, A, B, C, D, tensor);
      F4Value(sampled, A, B, C, Some(D), tensor);
      F4Value(sampled, C, D, A, Some(B), tensor);
    }
  }

  /** f2 is symmetric: two antisymmetries and a pair swap. */
  lemma F2Symmetric(sampled: map<Pop, nat>, A: Pop, B: Pop, tensor: TensorProd)
    ensures F2(sampled, B, A).Success? <==> F2(sampled, A, B).Success?
    ensures F2(sampled, A, B).Success? ==>
              Eval(F2(sampled, B, A).value, tensor) == Eval(F2(sampled, A, B).value, tensor)
  {
    F4Antisymmetric(sampled, A, B, B, Some(A), tensor);
    F4PairSwap(sampled, B, A, A, B, tensor);
    F4Antisymmetric(sampled, A, B, A, Some(B), tensor);
  }

  /** f3 is symmetric in its first two populations. */
  lemma F3Symmetric(sampled: map<Pop, nat>, A: Pop, B: Pop, O: Pop, tensor: TensorProd)
    ensures F3(sampled, B, A, O).Success? <==> F3(sampled, A, B, O).Success?
    ensures F3(sampled, A, B, O).Success? ==>
              Eval(F3(sampled, B, A, O).value, tensor) == Eval(F3(sampled, A, B, O).value, tensor)
  {
    F4PairSwap(sampled, O, A, O, B, tensor);
  }

  // ------------------------------------------------------------ monomorphic corrections

  function Zeros(k: nat): (r: seq<Num>)
    ensures |r| == k && forall i :: 0 <= i < k ==> r[i] == Finite(0.0)
  {
    seq(k, _ => Finite(0.0))
  }

  /** `[1] * k`, the weights of a population the statistic does not mention. */
  function Ones(k: nat): (r: seq<Num>)
    ensures |r| == k && forall i :: 0 <= i < k ==> r[i] == Finite(1.0)
  {
    seq(k, _ => Finite(1.0))
  }

  /** The monomorphic weight vectors of one population with weights v: for
      an ascertained population v kept only at "all ancestral" and at "all
      derived"; otherwise v itself twice. `v[0]` of an empty vector raises. */
  function MonoPair(v: seq<Num>, asc: bool): (r: Result<(seq<Num>, seq<Num>), StatsError>)
    ensures r.Success? <==> !asc || |v| > 0
    ensures r.Success? && !asc ==> r.value == (v, v)
    ensures r.Success? && asc ==>
              |r.value.0| == |v| == |r.value.1| &&
              r.value.0[0] == v[0] && r.value.1[|v| - 1] == v[|v| - 1] &&
              (forall i :: 0 < i < |v| ==> r.value.0[i] == Finite(0.0)) &&
              (forall i :: 0 <= i < |v| - 1 ==> r.value.1[i] == Finite(0.0))
  {
    if !asc then Success((v, v))
    else if |v| == 0 then Failure(EmptyWeights)
    else Success(([v[0]] + Zeros(|v| - 1), Zeros(|v| - 1) + [v[|v| - 1]]))
  }

  /** The vector `ObservedSfsStats.tensor_prod` uses for a population: the
      one given, else all ones for a sampled population, else none. */
  function ObservedWeights(p: Pop, sampled: map<Pop, nat>, weights: map<Pop, seq<Num>>): (r: Option<seq<Num>>)
    ensures r.Some? <==> p in weights || p in sampled
    ensures p !in weights && p in sampled ==> r == Some(Ones(sampled[p] + 1))
  {
    if p in weights then Some(weights[p])
    else if p in sampled then Some(Ones(sampled[p] + 1))
    else None
  }

  /** No later entry of the zip names the same population. */
  predicate LastOf<T>(pops: seq<(Pop, T)>, i: int)
    requires 0 <= i < |pops|
  {
    forall j :: i < j < |pops| ==> pops[j].0 != pops[i].0
  }

  /** Every ascertained population with weights has a nonempty vector. */
  predicate MonoDefined(pops: seq<(Pop, bool)>, sampled: map<Pop, nat>, weights: map<Pop, seq<Num>>)
  {
    forall i :: 0 <= i < |pops| && pops[i].1 && ObservedWeights(pops[i].0, sampled, weights).Some? ==>
      |ObservedWeights(pops[i].0, sampled, weights).value| > 0
  }

  /** The loop of `ObservedSfsStats.tensor_prod` over
      `zip(sampled_pops, ascertainment_pop)` building `mono_anc` and
      `mono_der`. */
  function MonoVectors(pops: seq<(Pop, bool)>, sampled: map<Pop, nat>, weights: map<Pop, seq<Num>>)
    : (r: Result<(map<Pop, seq<Num>>, map<Pop, seq<Num>>), StatsError>)
    ensures r.Success? <==> MonoDefined(pops, sampled, weights)
    ensures r.Success? ==> r.value.0.Keys == r.value.1.Keys == WeightedPops(pops, sampled, weights)
    decreases |pops|
  {
    if |pops| == 0 then Success((map[], map[]))
    else
      var front := pops[..|pops| - 1];
      var (p, asc) := pops[|pops| - 1];
      assert forall i :: 0 <= i < |front| ==> front[i] == pops[i];
      match MonoVectors(front, sampled, weights)
      case Failure(e) =>
        assert !MonoDefined(front, sampled, weights);
        Failure(e)
      case Success(sofar) =>
        match ObservedWeights(p, sampled, weights)
        case None => Success(sofar)
        case Some(v) =>
          match MonoPair(v, asc)
          case Failure(e) =>
            assert !MonoDefined(pops, sampled, weights) by {
              assert pops[|pops| - 1].1 && ObservedWeights(pops[|pops| - 1].0, sampled, weights) == Some(v);
            }
            Failure(e)
          case Success(pair) => Success((sofar.0[p := pair.0], sofar.1[p := pair.1]))
  }

  /** The populations of the zip that have weights. */
  function WeightedPops(pops: seq<(Pop, bool)>, sampled: map<Pop, nat>, weights: map<Pop, seq<Num>>): set<Pop>
    decreases |pops|
  {
    if |pops| == 0 then {}
    else
      var p := pops[|pops| - 1].0;
      WeightedPops(pops[..|pops| - 1], sampled, weights) + if ObservedWeights(p, sampled, weights).Some? then {p} else {}
  }

  /** A population has mono vectors exactly when some entry of the zip
      names it and it has weights. */
  lemma {:induction false} WeightedPopsMembers(pops: seq<(Pop, bool)>, sampled: map<Pop, nat>, weights: map<Pop, seq<Num>>)
    ensures WeightedPops(pops, sampled, weights) ==
            set i | 0 <= i < |pops| && ObservedWeights(pops[i].0, sampled, weights).Some? :: pops[i].0
    decreases |pops|
  {
    if |pops| > 0 {
      var front := pops[..|pops| - 1];
      assert forall j :: 0 <= j < |front| ==> front[j] == pops[j];
      WeightedPopsMembers(front, sampled, weights);
    }
  }

  /** The entry of a population is the pair of its last occurrence in the
      zip. */
  lemma {:induction false} MonoVectorsContents(pops: seq<(Pop, bool)>, sampled: map<Pop, nat>, weights: map<Pop, seq<Num>>, i: nat)
    requires i < |pops| && LastOf(pops, i) && ObservedWeights(pops[i].0, sampled, weights).Some?
    requires MonoVectors(pops, sampled, weights).Success?
    ensures MonoPair(ObservedWeights(pops[i].0, sampled, weights).value, pops[i].1).Success?
    ensures pops[i].0 in MonoVectors(pops, sampled, weights).value.0
    ensures pops[i].0 in MonoVectors(pops, sampled, weights).value.1
    ensures var r := MonoVectors(pops, sampled, weights).value;
            (r.0[pops[i].0], r.1[pops[i].0]) == MonoPair(ObservedWeights(pops[i].0, sampled, weights).value, pops[i].1).value
    decreases |pops|
  {
    var front := pops[..|pops| - 1];
    assert forall j :: 0 <= j < |front| ==> front[j] == pops[j];
    var (p, asc) := pops[|pops| - 1];
    if i < |pops| - 1 {
      assert p != pops[i].0;
      MonoVectorsContents(front, sampled, weights, i);
    }
  }

  /** The weight row `ExpectedSfsStats.tensor_prod` uses for a population of
      n samples: the one given, else all ones. */
  function ExpectedWeights(p: Pop, n: nat, weights: map<Pop, seq<Num>>): seq<Num>
  {
    if p in weights then weights[p] else Ones(n + 1)
  }

  /** The three rows of one population: "all ancestral", "all derived" and
      the row itself for an ascertained population, the row three times
      otherwise. A row of the wrong length fails the assertion. */
  function ExpectedRow(p: Pop, n: nat, ascertained: set<Pop>, weights: map<Pop, seq<Num>>): (r: Result<seq<seq<Num>>, StatsError>)
    ensures r.Success? <==> |ExpectedWeights(p, n, weights)| == n + 1
    ensures r.Success? ==> |r.value| == 3 && forall k :: 0 <= k < 3 ==> |r.value[k]| == n + 1
    ensures r.Success? ==> r.value[2] == ExpectedWeights(p, n, weights)
    ensures r.Success? && p !in ascertained ==> r.value[0] == r.value[1] == ExpectedWeights(p, n, weights)
  {
    var row := ExpectedWeights(p, n, weights);
    if |row| != n + 1 then Failure(RowLength)
    else if p in ascertained then Success([[row[0]] + Zeros(n), Zeros(n) + [row[n]], row])
    else Success([row, row, row])
  }

  /** The rows of every population of `zip(sampled_pops, sampled_n)`. */
  function ExpectedRows(pops: seq<(Pop, nat)>, ascertained: set<Pop>, weights: map<Pop, seq<Num>>)
    : (r: Result<seq<seq<seq<Num>>>, StatsError>)
    ensures r.Success? <==> forall i :: 0 <= i < |pops| ==> ExpectedRow(pops[i].0, pops[i].1, ascertained, weights).Success?
    ensures r.Success? ==> (|r.value| == |pops| &&
              forall i :: 0 <= i < |pops| ==> r.value[i] == ExpectedRow(pops[i].0, pops[i].1, ascertained, weights).value)
    decreases |pops|
  {
    if |pops| == 0 then Success([])
    else
      var front := pops[..|pops| - 1];
      assert forall i :: 0 <= i < |front| ==> front[i] == pops[i];
      match ExpectedRows(front, ascertained, weights)
      case Failure(e) => Failure(e)
      case Success(rows) =>
        var (p, n) := pops[|pops| - 1];
        match ExpectedRow(p, n, ascertained, weights)
        case Failure(e) => Failure(e)
        case Success(row) => Success(rows + [row])
  }

  /** The first two expected rows are the observed monomorphic vectors of
      the same weights. */
  lemma ExpectedRowIsMono(p: Pop, n: nat, ascertained: set<Pop>, weights: map<Pop, seq<Num>>)
    requires ExpectedRow(p, n, ascertained, weights).Success?
    ensures MonoPair(ExpectedWeights(p, n, weights), p in ascertained).Success?
    ensures var rows := ExpectedRow(p, n, ascertained, weights).value;
            (rows[0], rows[1]) == MonoPair(ExpectedWeights(p, n, weights), p in ascertained).value
  {
  }

  /** The expected and observed statistics subtract the same monomorphic
      vectors from a population that is sampled in both with n samples. */
  lemma MonoVectorsAgree(pops: seq<(Pop, bool)>, sampled: map<Pop, nat>, weights: map<Pop, seq<Num>>,
                         i: nat, ascertained: set<Pop>)
    requires i < |pops| && LastOf(pops, i)
    requires pops[i].0 in sampled && (pops[i].1 <==> pops[i].0 in ascertained)
    requires MonoVectors(pops, sampled, weights).Success?
    requires ExpectedRow(pops[i].0, sampled[pops[i].0], ascertained, weights).Success?
    ensures pops[i].0 in MonoVectors(pops, sampled, weights).value.0
    ensures pops[i].0 in MonoVectors(pops, sampled, weights).value.1
    ensures var mono := MonoVectors(pops, sampled, weights).value;
            var rows := ExpectedRow(pops[i].0, sampled[pops[i].0], ascertained, weights).value;
            mono.0[pops[i].0] == rows[0] && mono.1[pops[i].0] == rows[1]
  {
    var p := pops[i].0;
    assert ObservedWeights(p, sampled, weights) == Some(ExpectedWeights(p, sampled[p], weights));
    MonoVectorsContents(pops, sampled, weights, i);
    ExpectedRowIsMono(p, sampled[p], ascertained, weights);
  }

  /** The statistic `ObservedSfsStats.tensor_prod` returns: the weighted
      counts less both monomorphic counts. */
  function ObservedTerms(weights: map<Pop, seq<Num>>, anc: map<Pop, seq<Num>>, der: map<Pop, seq<Num>>): seq<Term>
  {
    [Term(1, weights), Term(-1, anc), Term(-1, der)]
  }

  /** `res[2] - res[0] - res[1]` of `ExpectedSfsStats.tensor_prod`, where
      res[k] is the tensor product of the k-th rows. */
  function ExpectedTerms(pops: seq<(Pop, nat)>, rows: seq<seq<seq<Num>>>): seq<Term>
    requires |rows| == |pops| && forall i :: 0 <= i < |rows| ==> |rows[i]| == 3
  {
    [Term(1, Layer(pops, rows, 2)), Term(-1, Layer(pops, rows, 0)), Term(-1, Layer(pops, rows, 1))]
  }

  /** The k-th rows of all populations, as the dict of one tensor product. */
  function Layer(pops: seq<(Pop, nat)>, rows: seq<seq<seq<Num>>>, k: nat): map<Pop, seq<Num>>
    requires |rows| == |pops| && k < 3 && forall i :: 0 <= i < |rows| ==> |rows[i]| == 3
    decreases |pops|
  {
    if |pops| == 0 then map[]
    else Layer(pops[..|pops| - 1], rows[..|rows| - 1], k)[pops[|pops| - 1].0 := rows[|rows| - 1][k]]
  }

  /** Every population of the zip has an entry in each layer. */
  lemma {:induction false} LayerKeys(pops: seq<(Pop, nat)>, rows: seq<seq<seq<Num>>>, k: nat)
    requires |rows| == |pops| && k < 3 && forall i :: 0 <= i < |rows| ==> |rows[i]| == 3
    ensures Layer(pops, rows, k).Keys == set i | 0 <= i < |pops| :: pops[i].0
    decreases |pops|
  {
    if |pops| > 0 {
      var front := pops[..|pops| - 1];
      assert forall i :: 0 <= i < |front| ==> front[i] == pops[i];
      LayerKeys(front, rows[..|rows| - 1], k);
    }
  }

  /** The entry of a population is the k-th row of its last occurrence. */
  lemma {:induction false} LayerValues(pops: seq<(Pop, nat)>, rows: seq<seq<seq<Num>>>, k: nat, i: nat)
    requires |rows| == |pops| && k < 3 && forall i :: 0 <= i < |rows| ==> |rows[i]| == 3
    requires i < |pops| && LastOf(pops, i)
    ensures pops[i].0 in Layer(pops, rows, k)
    ensures Layer(pops, rows, k)[pops[i].0] == rows[i][k]
    decreases |pops|
  {
    if i < |pops| - 1 {
      var front := pops[..|pops| - 1];
      assert front[i] == pops[i];
      assert LastOf(front, i) by {
        forall j | i < j < |front|
          ensures front[j].0 != front[i].0
        {
          assert front[j] == pops[j];
        }
      }
      LayerValues(front, rows[..|rows| - 1], k, i);
    }
  }

  lemma CorrectionValue(terms: seq<Term>, tensor: TensorProd)
    requires |terms| == 3 && terms[0].coef == 1 && terms[1].coef == -1 && terms[2].coef == -1
    ensures Eval(terms, tensor) == tensor(terms[0].weights) - tensor(terms[1].weights) - tensor(terms[2].weights)
  {
    var one := terms[..1];
    var two := terms[..2];
    assert two[..1] == one && one[..0] == [];
    assert Eval(one, tensor) == tensor(terms[0].weights);
    assert Eval(two, tensor) == tensor(terms[0].weights) - tensor(terms[1].weights);
  }

  // ------------------------------------------------------------ ObservedSfsStats.__init__

  /** `dict(zip(sampled_pops, ascertainment_pop))`: a later entry overrides
      an earlier one. */
  function ZipDict(pops: seq<(Pop, bool)>): map<Pop, bool>
    decreases |pops|
  {
    if |pops| == 0 then map[]
    else ZipDict(pops[..|pops| - 1])[pops[|pops| - 1].0 := pops[|pops| - 1].1]
  }

  /** Every population of the zip is a key of the dict. */
  lemma {:induction false} ZipDictKeys(pops: seq<(Pop, bool)>)
    ensures ZipDict(pops).Keys == set i | 0 <= i < |pops| :: pops[i].0
    decreases |pops|
  {
    if |pops| > 0 {
      var front := pops[..|pops| - 1];
      assert forall i :: 0 <= i < |front| ==> front[i] == pops[i];
      ZipDictKeys(front);
    }
  }

  /** The value of a population is that of its last occurrence. */
  lemma {:induction false} ZipDictValues(pops: seq<(Pop, bool)>, i: nat)
    requires i < |pops| && LastOf(pops, i)
    ensures pops[i].0 in ZipDict(pops)
    ensures ZipDict(pops)[pops[i].0] == pops[i].1
    decreases |pops|
  {
    if i < |pops| - 1 {
      var front := pops[..|pops| - 1];
      assert front[i] == pops[i];
      assert LastOf(front, i) by {
        forall j | i < j < |front|
          ensures front[j].0 != front[i].0
        {
          assert front[j] == pops[j];
        }
      }
      ZipDictValues(front, i);
    }
  }

  /** The sum of the sample sizes of the ascertained populations; a
      population missing from `is_ascertained` raises KeyError. */
  function AscertainedTotal(items: seq<(Pop, int)>, isAsc: map<Pop, bool>): (r: Result<int, StatsError>)
    ensures r.Success? <==> forall i :: 0 <= i < |items| ==> items[i].0 in isAsc
    decreases |items|
  {
    if |items| == 0 then Success(0)
    else
      var front := items[..|items| - 1];
      assert forall i :: 0 <= i < |front| ==> front[i] == items[i];
      var (p, n) := items[|items| - 1];
      if p !in isAsc then Failure(UnknownPopulation)
      else
        match AscertainedTotal(front, isAsc)
        case Failure(e) => Failure(e)
        case Success(t) => Success(t + if isAsc[p] then n else 0)
  }

  /** The total over two lists of items is the sum of the totals. */
  lemma {:induction false} AscertainedTotalAppend(a: seq<(Pop, int)>, b: seq<(Pop, int)>, isAsc: map<Pop, bool>)
    requires AscertainedTotal(a + b, isAsc).Success?
    ensures AscertainedTotal(a, isAsc).Success? && AscertainedTotal(b, isAsc).Success?
    ensures AscertainedTotal(a + b, isAsc).value == AscertainedTotal(a, isAsc).value + AscertainedTotal(b, isAsc).value
    decreases |b|
  {
    assert forall i :: 0 <= i < |a| ==> (a + b)[i] == a[i];
    assert forall i :: 0 <= i < |b| ==> (a + b)[|a| + i] == b[i];
    if |b| == 0 {
      assert a + b == a;
    } else {
      var b' := b[..|b| - 1];
      assert (a + b)[..|a + b| - 1] == a + b';
      AscertainedTotalAppend(a, b', isAsc);
    }
  }

  /** Only ascertained populations count: with none ascertained the total
      is 0, so the constructor raises. */
  lemma {:induction false} NothingAscertained(items: seq<(Pop, int)>, isAsc: map<Pop, bool>)
    requires forall i :: 0 <= i < |items| ==> items[i].0 in isAsc && !isAsc[items[i].0]
    ensures AscertainedTotal(items, isAsc) == Success(0)
    decreases |items|
  {
    if |items| > 0 {
      var front := items[..|items| - 1];
      assert forall i :: 0 <= i < |front| ==> front[i] == items[i];
      NothingAscertained(front, isAsc);
    }
  }

  /** `ObservedSfsStats(sfs, sampled_n_dict)`: at least two ascertained
      alleles, then the populations with a positive sample size. */
  function ObservedInit(pops: seq<(Pop, bool)>, items: seq<(Pop, int)>): (r: Result<map<Pop, nat>, StatsError>)
    requires DistinctKeys(items)
    ensures r.Success? <==> AscertainedTotal(items, ZipDict(pops)).Success? && AscertainedTotal(items, ZipDict(pops)).value >= 2
    ensures r.Success? ==> r.value == KeepSampled(items)
  {
    var total :- AscertainedTotal(items, ZipDict(pops));
    if total < 2 then Failure(TooFewAscertained) else Success(KeepSampled(items))
  }
}
