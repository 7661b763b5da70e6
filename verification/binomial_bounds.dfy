/** One-sided Clopper-Pearson bounds by bisection of the binomial CDF, over exact reals. */
module BinomialBounds {
  import opened RealArithmetic

  // ---------------------------------------------------------------- the distribution

  /** The product of (n - i + 1) / i for i = 1 .. j. */
  function Coefficient(n: nat, j: nat): real {
    if j == 0 then 1.0 else Coefficient(n, j - 1) * ((n - j + 1) as real / j as real)
  }

  function Power(p: real, n: nat): real {
    if n == 0 then 1.0 else p * Power(p, n - 1)
  }

  /** Probability of exactly j successes out of n. */
  function Mass(n: nat, j: nat, p: real): real
    requires j <= n
  {
    Times(Coefficient(n, j), Times(Power(p, j), Power(1.0 - p, n - j)))
  }

  /** Probability of at most count successes out of n. */
  function Cdf(n: nat, count: nat, p: real): real
    requires count <= n
  {
    if count == 0 then Mass(n, 0, p) else Cdf(n, count - 1, p) + Mass(n, count, p)
  }

  // ---------------------------------------------------------------- one trial more

  /** Average over the last trial. */
  function Last(p: real, fail: real, success: real): real {
    Times(1.0 - p, fail) + Times(p, success)
  }

  /** Pascal's rule for the running product. */
  lemma {:induction false} Pascal(n: nat, j: nat)
    requires 1 <= j <= n
    ensures Coefficient(n, j) == Coefficient(n - 1, j) + Coefficient(n - 1, j - 1)
  {
    var c := Coefficient(n - 1, j - 1);
    assert Coefficient(n - 1, j) == c * ((n - j) as real / j as real);
    if j == 1 {
      assert Coefficient(n, 1) == Coefficient(n, 0) * (n as real / 1.0);
    } else {
      Pascal(n, j - 1);
      PascalStep(n as real, j as real, Coefficient(n - 1, j - 2), c);
    }
  }

  lemma PascalStep(n: real, j: real, b: real, c: real)
    requires 1.0 < j <= n
    requires c == b * ((n - j + 1.0) / (j - 1.0))
    ensures (c + b) * ((n - j + 1.0) / j) == c * ((n - j) / j) + c
  {
    var d := n - j + 1.0;
    assert c * (j - 1.0) == b * d;
    assert (c + b) * d == c * n;
    assert (c + b) * (d / j) == ((c + b) * d) / j;
    assert c * ((n - j) / j) + c == (c * n) / j by {
      assert c * ((n - j) / j) == (c * (n - j)) / j;
      assert c == (c * j) / j;
    }
  }

  lemma MassFirst(n: nat, p: real)
    requires n >= 1
    ensures Mass(n, 0, p) == (1.0 - p) * Mass(n - 1, 0, p)
  {
  }

  lemma {:induction false} BeyondTrials(n: nat, j: nat)
    requires j > n
    ensures Coefficient(n, j) == 0.0
  {
    if j > n + 1 { BeyondTrials(n, j - 1); }
  }

  /** Condition on the last trial. */
  lemma MassStep(n: nat, j: nat, p: real)
    requires 1 <= j <= n
    ensures Mass(n, j, p)
         == Last(p, if j < n then Mass(n - 1, j, p) else 0.0, Mass(n - 1, j - 1, p))
  {
    hide Last, Times, Coefficient;
    Pascal(n, j);
    var a, b := Power(p, j - 1), Power(1.0 - p, n - j);
    var c, d := Coefficient(n - 1, j), Coefficient(n - 1, j - 1);
    assert Power(p, j) == p * a;
    if j == n {
      BeyondTrials(n - 1, n);
      TimesZero(Times(p * a, 0.0));
      SplitTrial(Coefficient(n, j), c, d, p, a, p * a, b, 0.0, 0.0);
    } else {
      var e := Power(1.0 - p, n - 1 - j);
      SplitTrial(Coefficient(n, j), c, d, p, a, p * a, b, e, Times(c, Times(p * a, e)));
    }
  }

  lemma SplitTrial(k: real, c: real, d: real, p: real, a: real, pa: real, b: real, e: real, f: real)
    requires k == c + d && pa == p * a
    requires c == 0.0 || b == (1.0 - p) * e
    requires f == Times(c, Times(pa, e))
    ensures Times(k, Times(pa, b)) == Last(p, f, Times(d, Times(a, b)))
  {
    var t := pa * b;
    Reassociate(d, p, a * b, t);
    if c != 0.0 {
      Reassociate(c, 1.0 - p, pa * e, t);
      assert k * t == c * t + d * t;
    }
  }

  lemma TimesZero(x: real)
    ensures Times(0.0, x) == 0.0
  {
  }

  lemma Reassociate(c: real, q: real, x: real, y: real)
    requires y == q * x
    ensures Times(c, y) == Times(q, Times(c, x))
  {
  }

  /** The CDF of n trials averages two CDFs of n - 1 trials. */
  lemma {:induction false} CdfStep(n: nat, count: nat, p: real)
    requires count < n
    ensures Cdf(n, count, p)
         == Last(p, Cdf(n - 1, count, p), if count == 0 then 0.0 else Cdf(n - 1, count - 1, p))
  {
    if count == 0 {
      MassFirst(n, p);
      assert p * 0.0 == 0.0;
    } else {
      hide Mass, Last;
      CdfStep(n, count - 1, p);
      MassStep(n, count, p);
      var f, s := Cdf(n - 1, count - 1, p), if count == 1 then 0.0 else Cdf(n - 1, count - 2, p);
      LastSum(p, f, s, Mass(n - 1, count, p), Mass(n - 1, count - 1, p));
    }
  }

  lemma LastSum(p: real, f: real, s: real, g: real, t: real)
    ensures Last(p, f, s) + Last(p, g, t) == Last(p, f + g, s + t)
  {
  }

  /** All outcomes together have probability one. */
  lemma {:induction false} CdfFull(n: nat, p: real)
    ensures Cdf(n, n, p) == 1.0
  {
    if n > 0 {
      hide Last, Mass;
      CdfFull(n - 1, p);
      CdfStep(n, n - 1, p);
      MassStep(n, n, p);
      if n >= 2 {
        assert Cdf(n - 1, n - 1, p) == Cdf(n - 1, n - 2, p) + Mass(n - 1, n - 1, p);
        FullStep(p, Cdf(n - 1, n - 2, p), Mass(n - 1, n - 1, p));
      } else {
        FullStep(p, 0.0, Mass(0, 0, p));
      }
    }
  }

  lemma FullStep(p: real, s: real, m: real)
    requires s + m == 1.0
    ensures Last(p, 1.0, s) + Last(p, 0.0, m) == 1.0
  {
    assert p * s + p * m == p * (s + m);
  }

  // ---------------------------------------------------------------- monotonicity

  lemma {:induction false} PowerSign(p: real, n: nat)
    requires p >= 0.0
    ensures Power(p, n) >= 0.0
    ensures p > 0.0 ==> Power(p, n) > 0.0
  {
    if n > 0 {
      PowerSign(p, n - 1);
      ProductSign(p, Power(p, n - 1), Power(p, n));
    }
  }

  lemma {:induction false} CoefficientSign(n: nat, j: nat)
    requires j <= n
    ensures Coefficient(n, j) > 0.0
  {
    if j > 0 {
      CoefficientSign(n, j - 1);
      ProductSign(Coefficient(n, j - 1), (n - j + 1) as real / j as real, Coefficient(n, j));
    }
  }

  lemma MassSign(n: nat, j: nat, p: real)
    requires j <= n && 0.0 <= p <= 1.0
    ensures Mass(n, j, p) >= 0.0
    ensures j == 0 && p < 1.0 ==> Mass(n, j, p) > 0.0
    ensures 0.0 < p < 1.0 ==> Mass(n, j, p) > 0.0
  {
    CoefficientSign(n, j);
    PowerSign(p, j);
    PowerSign(1.0 - p, n - j);
    ProductSign(Power(p, j), Power(1.0 - p, n - j), Times(Power(p, j), Power(1.0 - p, n - j)));
    ProductSign(Coefficient(n, j), Times(Power(p, j), Power(1.0 - p, n - j)), Mass(n, j, p));
  }

  /** The CDF grows with the count. */
  lemma {:induction false} CdfRange(n: nat, count: nat, p: real)
    requires count <= n && 0.0 <= p <= 1.0
    ensures 0.0 <= Cdf(n, count, p) <= 1.0
    decreases n - count
  {
    CdfNonnegative(n, count, p);
    if count == n { CdfFull(n, p); }
    else { CdfRange(n, count + 1, p); MassSign(n, count + 1, p); }
  }

  lemma {:induction false} CdfNonnegative(n: nat, count: nat, p: real)
    requires count <= n && 0.0 <= p <= 1.0
    ensures Cdf(n, count, p) >= 0.0
  {
    MassSign(n, count, p);
    if count > 0 { CdfNonnegative(n, count - 1, p); }
  }

  lemma Less(a: real, b: real, c: real)
    requires a >= 0.0 && b <= c
    ensures Times(a, b) <= Times(a, c)
    ensures a > 0.0 && b < c ==> Times(a, b) < Times(a, c)
  {
    var z := a * (c - b);
    ProductSign(a, c - b, z);
    assert z == Times(a, c) - Times(a, b);
  }

  lemma LastMonotone(q: real, f: real, s: real, f': real, s': real)
    requires 0.0 <= q <= 1.0 && f' <= f && s' <= s
    ensures Last(q, f', s') <= Last(q, f, s)
    ensures q > 0.0 && s' < s ==> Last(q, f', s') < Last(q, f, s)
  {
    hide Times;
    Less(1.0 - q, f', f);
    Less(q, s', s);
  }

  lemma LastFalls(p: real, q: real, f: real, s: real)
    requires p < q && s <= f
    ensures Last(q, f, s) <= Last(p, f, s)
    ensures s < f ==> Last(q, f, s) < Last(p, f, s)
  {
    var z := Last(p, f, s) - Last(q, f, s);
    assert z == (q - p) * (f - s);
    ProductSign(q - p, f - s, z);
  }

  /** For every count below n the CDF strictly falls as p rises over [0, 1]. */
  lemma {:induction false} CdfDecreases(n: nat, count: nat, p: real, q: real)
    requires count < n && 0.0 <= p < q <= 1.0
    ensures Cdf(n, count, q) < Cdf(n, count, p)
  {
    hide Last, Mass;
    CdfStep(n, count, p);
    CdfStep(n, count, q);
    MassSign(n - 1, count, p);
    var f, f' := Cdf(n - 1, count, p), Cdf(n - 1, count, q);
    if count < n - 1 {
      CdfDecreases(n - 1, count, p, q);
    } else {
      CdfFull(n - 1, p);
      CdfFull(n - 1, q);
    }
    if count == 0 {
      LastMonotone(q, f, 0.0, f', 0.0);
      LastFalls(p, q, f, 0.0);
    } else {
      CdfDecreases(n - 1, count - 1, p, q);
      LastMonotone(q, f, Cdf(n - 1, count - 1, p), f', Cdf(n - 1, count - 1, q));
      LastFalls(p, q, f, Cdf(n - 1, count - 1, p));
    }
  }

  lemma CdfAtEnds(n: nat, count: nat)
    requires count < n
    ensures Cdf(n, count, 0.0) == 1.0 && Cdf(n, count, 1.0) == 0.0
  {
    CdfAtZero(n, count);
    CdfAtOne(n, count);
  }

  lemma {:induction false} PowerOfOne(n: nat)
    ensures Power(1.0, n) == 1.0
  {
    if n > 0 { PowerOfOne(n - 1); }
  }

  lemma {:induction false} CdfAtZero(n: nat, count: nat)
    requires count <= n
    ensures Cdf(n, count, 0.0) == 1.0
  {
    PowerOfOne(n - count);
    if count > 0 {
      CdfAtZero(n, count - 1);
      assert Power(0.0, count) == 0.0;
    }
  }

  lemma {:induction false} CdfAtOne(n: nat, count: nat)
    requires count < n
    ensures Cdf(n, count, 1.0) == 0.0
  {
    assert Power(0.0, n - count) == 0.0;
    if count > 0 { CdfAtOne(n, count - 1); }
  }

  // ---------------------------------------------------------------- bisection

  /** 1 / 2^n. */
  function Halving(n: nat): real {
    if n == 0 then 1.0 else Halving(n - 1) / 2.0
  }

  const STEPS: nat := 60

  /** Half the width that sixty halvings leave. */
  const ACCURACY: real := 1.0 / 2_305_843_009_213_693_952.0

  lemma SixtyHalvings()
    ensures Halving(STEPS + 1) == ACCURACY
  {
    assert Halving(10) == 1.0 / 1024.0;
    assert Halving(20) == 1.0 / 1_048_576.0;
    assert Halving(30) == 1.0 / 1_073_741_824.0;
    assert Halving(40) == 1.0 / 1_099_511_627_776.0;
    assert Halving(50) == 1.0 / 1_125_899_906_842_624.0;
    assert Halving(60) == 1.0 / 1_152_921_504_606_846_976.0;
  }

  /** The interval left after n halvings: the half that keeps the CDF above the target on
      its left end and at or below it on its right end. */
  function Bracket(n: nat, count: nat, target: real, steps: nat): (r: (real, real))
    requires count < n
  {
    if steps == 0 then (0.0, 1.0)
    else
      var (lo, hi) := Bracket(n, count, target, steps - 1);
      var p := (lo + hi) / 2.0;
      if Cdf(n, count, p) > target then (p, hi) else (lo, p)
  }

  /** Each halving keeps the root of CDF = target between the two ends. */
  lemma {:induction false} BracketInvariant(n: nat, count: nat, target: real, steps: nat)
    requires count < n && 0.0 < target < 1.0
    ensures var (lo, hi) := Bracket(n, count, target, steps);
      0.0 <= lo < hi <= 1.0 && hi - lo == Halving(steps) && Cdf(n, count, lo) > target >= Cdf(n, count, hi)
  {
    if steps == 0 { CdfAtEnds(n, count); } else { BracketInvariant(n, count, target, steps - 1); }
  }

  /** The bisection loop of `root`: a probability within 2^-61 of every solution of CDF = target. */
  method Root(n: nat, count: nat, target: real) returns (p: real)
    requires count < n && 0.0 < target < 1.0
    ensures 0.0 < p < 1.0
    ensures Cdf(n, count, p - ACCURACY) > target >= Cdf(n, count, p + ACCURACY)
    ensures forall x :: 0.0 <= x <= 1.0 && Cdf(n, count, x) == target ==> p - ACCURACY < x <= p + ACCURACY
    ensures p == Middle(Bracket(n, count, target, STEPS))
  {
    var lo, hi := 0.0, 1.0;
    var i := 0;
    CdfAtEnds(n, count);
    while i < STEPS
      invariant 0 <= i <= STEPS
      invariant (lo, hi) == Bracket(n, count, target, i)
    {
      p := (lo + hi) / 2.0;
      if Cdf(n, count, p) > target { lo := p; } else { hi := p; }
      i := i + 1;
    }
    p := (lo + hi) / 2.0;
    BracketInvariant(n, count, target, STEPS);
    SixtyHalvings();
    assert hi == p + ACCURACY && lo == p - ACCURACY;
    forall x | 0.0 <= x <= 1.0 && Cdf(n, count, x) == target ensures lo < x <= hi {
      if x < lo { CdfDecreases(n, count, x, lo); }
      if x > hi { CdfDecreases(n, count, hi, x); }
    }
  }

  function Middle(r: (real, real)): real {
    (r.0 + r.1) / 2.0
  }

  datatype Bounds = Bounds(lower: real, upper: real) | InvalidArguments

  /** Lower bound: the k - 1 successes test at level 1 - error. */
  function Lower(k: int, n: int, error: real): real
    requires 0 <= k <= n && 0.0 < error < 1.0
  {
    if k == 0 then 0.0 else Middle(Bracket(n, k - 1, 1.0 - error, STEPS))
  }

  /** Upper bound: the k successes test at level error. */
  function Upper(k: int, n: int, error: real): real
    requires 0 <= k <= n && 0.0 < error < 1.0
  {
    if k == n then 1.0 else Middle(Bracket(n, k, error, STEPS))
  }

  predicate Arguments(k: int, n: int, error: real) {
    0 <= k <= n && 0.0 < error < 1.0
  }

  /** Each bound solves its test to within the accuracy: fewer than k events at 1 - error below, at
      most k at error above. */
  ghost predicate Inverts(k: int, n: int, error: real, lower: real, upper: real)
    requires Arguments(k, n, error)
  {
    && (if k == 0 then lower == 0.0
        else Cdf(n, k - 1, lower - ACCURACY) > 1.0 - error >= Cdf(n, k - 1, lower + ACCURACY))
    && (if k == n then upper == 1.0
        else Cdf(n, k, upper - ACCURACY) > error >= Cdf(n, k, upper + ACCURACY))
  }

  /** The Clopper-Pearson bounds; no trials give the whole interval. */
  method BinomialBounds(k: int, n: int, error: real) returns (b: Bounds)
    ensures b.InvalidArguments? <==> k < 0 || n < k || error <= 0.0 || 1.0 <= error
    ensures Arguments(k, n, error) && n == 0 ==> b == Bounds(0.0, 1.0)
    ensures Arguments(k, n, error) ==>
      b.Bounds? && b.lower == Lower(k, n, error) && b.upper == Upper(k, n, error)
      && 0.0 <= b.lower <= 1.0 && 0.0 <= b.upper <= 1.0
    ensures Arguments(k, n, error) && n > 0 ==> Inverts(k, n, error, b.lower, b.upper)
    ensures Arguments(k, n, error) && error <= 0.5 ==> b.lower <= b.upper
  {
    if !Arguments(k, n, error) { return InvalidArguments; }
    if n == 0 { return Bounds(0.0, 1.0); }
    var lower, upper := 0.0, 1.0;
    if k != 0 { lower := Root(n, k - 1, 1.0 - error); }
    if k != n { upper := Root(n, k, error); }
    b := Bounds(lower, upper);
    if error <= 0.5 { BoundsOrdered(k, n, error); }
  }

  // ---------------------------------------------------------------- order of the bounds

  /** Where one CDF test accepts whenever the other does, its bisection ends no lower. */
  lemma {:induction false} BracketOrder(n: nat, c: nat, s: real, d: nat, t: real, steps: nat)
    requires c < n && d < n && 0.0 < s < 1.0 && 0.0 < t < 1.0
    requires forall p :: 0.0 < p < 1.0 && Cdf(n, c, p) > s ==> Cdf(n, d, p) > t
    ensures var a, b := Bracket(n, c, s, steps), Bracket(n, d, t, steps);
      a == b || a.1 <= b.0
  {
    if steps > 0 {
      hide Cdf, Halving;
      BracketOrder(n, c, s, d, t, steps - 1);
      BracketInvariant(n, c, s, steps - 1);
      BracketInvariant(n, d, t, steps - 1);
    }
  }

  /** With an error of at most one half the two one-sided bounds never cross. */
  lemma BoundsOrdered(k: int, n: int, error: real)
    requires Arguments(k, n, error) && error <= 0.5
    ensures 0.0 <= Lower(k, n, error) <= Upper(k, n, error) <= 1.0
  {
    if k > 0 { BracketInvariant(n, k - 1, 1.0 - error, STEPS); }
    if k < n { BracketInvariant(n, k, error, STEPS); }
    if 0 < k < n {
      forall p | 0.0 < p < 1.0 && Cdf(n, k - 1, p) > 1.0 - error ensures Cdf(n, k, p) > error {
        MassSign(n, k, p);
      }
      BracketOrder(n, k - 1, 1.0 - error, k, error, STEPS);
      BracketInvariant(n, k - 1, 1.0 - error, STEPS);
      BracketInvariant(n, k, error, STEPS);
    }
  }

  /** The binary digits that the bisection has fixed. */
  function Index(n: nat, count: nat, target: real, steps: nat): nat
    requires count < n
  {
    if steps == 0 then 0
    else
      var (lo, hi) := Bracket(n, count, target, steps - 1);
      var i := Index(n, count, target, steps - 1);
      if Cdf(n, count, (lo + hi) / 2.0) > target then 2 * i + 1 else 2 * i
  }

  /** After the same number of halvings every bracket is a cell of the same grid. */
  lemma {:induction false} BracketOnGrid(n: nat, count: nat, target: real, steps: nat)
    requires count < n && 0.0 < target < 1.0
    ensures Bracket(n, count, target, steps).0 == Times(Index(n, count, target, steps) as real, Halving(steps))
    ensures Bracket(n, count, target, steps).1 == Bracket(n, count, target, steps).0 + Halving(steps)
    ensures Halving(steps) > 0.0
  {
    if steps > 0 {
      hide Cdf, Times;
      BracketOnGrid(n, count, target, steps - 1);
      GridHalves(Index(n, count, target, steps - 1), Halving(steps - 1));
    } else {
      assert Times(0.0, 1.0) == 0.0;
    }
  }

  lemma GridHalves(i: nat, h: real)
    ensures Times((2 * i) as real, h / 2.0) == Times(i as real, h)
    ensures Times((2 * i + 1) as real, h / 2.0) == Times(i as real, h) + h / 2.0
  {
    var r := i as real;
    assert (2 * i) as real == 2.0 * r && (2 * i + 1) as real == 2.0 * r + 1.0;
  }

  lemma GridLess(a: nat, b: nat, h: real)
    requires h > 0.0 && Times(a as real, h) < Times(b as real, h) + h
    ensures Times(a as real, h) <= Times(b as real, h)
  {
    if a > b { Less(h, b as real + 1.0, a as real); }
    if a < b { Less(h, a as real, b as real); }
  }

  /** The bounds are in order exactly when the upper test still accepts at the left end of the
      lower bracket. */
  lemma LowerEndDecides(k: int, n: int, error: real)
    requires Arguments(k, n, error) && 0 < k < n
    ensures Lower(k, n, error) <= Upper(k, n, error)
       <==> Cdf(n, k, Bracket(n, k - 1, 1.0 - error, STEPS).0) > error
  {
    hide Bracket, Halving, Cdf, Index;
    var a, b := Bracket(n, k - 1, 1.0 - error, STEPS), Bracket(n, k, error, STEPS);
    BracketInvariant(n, k - 1, 1.0 - error, STEPS);
    BracketInvariant(n, k, error, STEPS);
    BracketOnGrid(n, k - 1, 1.0 - error, STEPS);
    BracketOnGrid(n, k, error, STEPS);
    if Cdf(n, k, a.0) > error {
      if a.0 >= b.1 {
        if a.0 > b.1 { CdfDecreases(n, k, b.1, a.0); }
        assert false;
      }
      GridLess(Index(n, k - 1, 1.0 - error, STEPS), Index(n, k, error, STEPS), Halving(STEPS));
    } else if a.0 < b.0 {
      CdfDecreases(n, k, a.0, b.0);
    }
  }

  /** The i-th point of the final grid rejects p from both sides: too small for the observed
      events and too large for them, each at the given error. */
  ghost predicate RejectedTwice(k: nat, n: nat, error: real, i: nat)
    requires 0 < k < n
  {
    var p := Times(i as real, Halving(STEPS));
    0.0 <= p <= 1.0 && Cdf(n, k - 1, p) > 1.0 - error && Cdf(n, k, p) <= error
  }

  /** For all arguments: the bounds are in order exactly when no point of the final grid is
      rejected from both sides. */
  lemma BoundsOrderedIff(k: int, n: int, error: real)
    requires Arguments(k, n, error)
    ensures Lower(k, n, error) <= Upper(k, n, error) <==> !(0 < k < n && exists i: nat :: RejectedTwice(k, n, error, i))
  {
    hide Bracket, Halving, Cdf, Index, Times;
    if 0 < k < n {
      var a := Bracket(n, k - 1, 1.0 - error, STEPS);
      LowerEndDecides(k, n, error);
      BracketInvariant(n, k - 1, 1.0 - error, STEPS);
      BracketOnGrid(n, k - 1, 1.0 - error, STEPS);
      var at := Index(n, k - 1, 1.0 - error, STEPS);
      if Cdf(n, k, a.0) <= error {
        assert RejectedTwice(k, n, error, at);
      }
      forall i: nat | RejectedTwice(k, n, error, i) ensures Cdf(n, k, a.0) <= error {
        var p := Times(i as real, Halving(STEPS));
        if p > a.1 { CdfDecreases(n, k - 1, a.1, p); }
        GridLess(i, at, Halving(STEPS));
        if p < a.0 { CdfDecreases(n, k, p, a.0); }
      }
    } else {
      EndsOrdered(k, n, error);
    }
  }

  lemma EndsOrdered(k: int, n: int, error: real)
    requires Arguments(k, n, error) && !(0 < k < n)
    ensures Lower(k, n, error) <= Upper(k, n, error)
  {
    hide Bracket, Cdf, Halving;
    if 0 < k { BracketInvariant(n, k - 1, 1.0 - error, STEPS); }
    if k < n { BracketInvariant(n, k, error, STEPS); }
  }

  /** Above one half the bounds can cross: one success in two trials at level 9/10. */
  lemma BoundsCross()
    ensures Lower(1, 2, 0.9) > Upper(1, 2, 0.9)
  {
    hide Bracket, Cdf, Halving;
    HalfOfTwo();
    BracketNested(2, 0, 0.1, STEPS);
    BracketNested(2, 1, 0.9, STEPS);
    BracketInvariant(2, 0, 0.1, STEPS);
    BracketInvariant(2, 1, 0.9, STEPS);
  }

  lemma HalfOfTwo()
    ensures Cdf(2, 0, 0.5) == 0.25 && Cdf(2, 1, 0.5) == 0.75
  {
    hide Cdf;
    CdfFull(0, 0.5);
    CdfFull(1, 0.5);
    CdfStep(1, 0, 0.5);
    CdfStep(2, 0, 0.5);
    CdfStep(2, 1, 0.5);
  }

  lemma {:induction false} BracketNested(n: nat, count: nat, target: real, steps: nat)
    requires count < n && 0.0 < target < 1.0 && steps >= 1
    ensures var r := Bracket(n, count, target, steps);
      if Cdf(n, count, 0.5) > target then 0.5 <= r.0 else r.1 <= 0.5
  {
    if steps > 1 {
      hide Cdf, Halving;
      BracketNested(n, count, target, steps - 1);
      BracketInvariant(n, count, target, steps - 1);
    } else {
      assert Bracket(n, count, target, 0) == (0.0, 1.0);
    }
  }
}
