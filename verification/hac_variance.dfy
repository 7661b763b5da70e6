/** The paired Bartlett HAC variance of the gate-2 calibration, over exact reals.

    The program accumulates the quadratic form lag by lag; here it is shown equal to the
    kernel form it stands for, and the kernel form is shown to be a scaled sum of squared
    window sums, so that it is never negative and vanishes only on the zero sequence. */
module HacVariance {
  import opened RealArithmetic

  /** Weight of a pair of blocks by their distance. */
  type Kernel = nat -> real

  // ---------------------------------------------------------------- the kernel form

  /** The Bartlett kernel 1 - d/h, cut off at zero. */
  function Bartlett(h: real): Kernel
    requires h > 0.0
  {
    (d: nat) => if d as real < h then 1.0 - d as real / h else 0.0
  }

  // Named products keep the inductive proofs below free of nonlinear terms.

  /** Both cross terms of a pair. */
  function Cross(a: real, b: real): real {
    2.0 * (a * b)
  }

  function Mix(a: real, b: real, p: real, q: real): real {
    a * p + b * q
  }

  /** Weighted sum of x against a block at position at. */
  function Row(x: seq<real>, w: Kernel, at: nat): real
    requires |x| <= at
  {
    if x == [] then 0.0
    else Row(x[..|x| - 1], w, at) + Times(w(at - (|x| - 1)), x[|x| - 1])
  }

  /** The double sum over i and j of w(|i - j|) * x[i] * x[j]. */
  function Form(x: seq<real>, w: Kernel): real {
    if x == [] then 0.0
    else
      var n := |x| - 1;
      Border(Form(x[..n], w), w(0), x[n], Row(x[..n], w, n))
  }

  /** The form grows by the new diagonal term and twice the new cross terms. */
  function Border(form: real, weight: real, v: real, row: real): real {
    form + weight * Square(v) + Cross(v, row)
  }

  // ---------------------------------------------------------------- the accumulated form

  /** Sum of x[i] * x[i - lag] over every i where both exist. */
  function LagSum(x: seq<real>, lag: nat): real {
    if |x| <= lag then 0.0
    else LagSum(x[..|x| - 1], lag) + x[|x| - 1] * x[|x| - 1 - lag]
  }

  /** Contribution of the lags 1 .. n - 1. */
  function Lags(x: seq<real>, w: Kernel, n: nat): real {
    if n <= 1 then 0.0
    else Lags(x, w, n - 1) + Cross(w(n - 1), LagSum(x, n - 1))
  }

  /** The value `lag` places before the end of x, zero when there is none. */
  function Back(x: seq<real>, lag: nat): real {
    if 1 <= lag <= |x| then x[|x| - lag] else 0.0
  }

  /** Weighted values of the lags 1 .. n - 1 before the end of x. */
  function Recent(x: seq<real>, w: Kernel, n: nat): real {
    if n <= 1 then 0.0
    else Recent(x, w, n - 1) + Times(w(n - 1), Back(x, n - 1))
  }

  lemma LagSumPush(x: seq<real>, v: real, lag: nat)
    requires lag >= 1
    ensures LagSum(x + [v], lag) == LagSum(x, lag) + v * Back(x, lag)
  {
    assert (x + [v])[..|x|] == x;
  }

  lemma BorderSum(f: real, v: real, r: real, s: real, l: real)
    requires f == s + l
    ensures Border(f, 1.0, v, r) == s + Square(v) + (l + Cross(v, r))
  {
  }

  lemma LagSquarePush(x: seq<real>, v: real)
    ensures LagSum(x + [v], 0) == LagSum(x, 0) + Square(v)
  {
    assert (x + [v])[..|x|] == x;
  }

  lemma {:induction false} LagsPush(x: seq<real>, v: real, w: Kernel, n: nat)
    ensures Lags(x + [v], w, n) == Lags(x, w, n) + Cross(v, Recent(x, w, n))
  {
    if n > 1 {
      hide Cross, LagSum, Times;
      LagsPush(x, v, w, n - 1);
      LagTermPush(x, v, w, n - 1, Recent(x, w, n - 1));
    } else {
      assert Cross(v, 0.0) == 0.0;
    }
  }

  lemma LagTermPush(x: seq<real>, v: real, w: Kernel, lag: nat, r: real)
    requires lag >= 1
    ensures Cross(w(lag), LagSum(x + [v], lag)) + Cross(v, r)
         == Cross(w(lag), LagSum(x, lag)) + Cross(v, r + Times(w(lag), Back(x, lag)))
  {
    LagSumPush(x, v, lag);
    LagStep(w(lag), LagSum(x, lag), v, Back(x, lag), LagSum(x + [v], lag), r);
  }

  lemma LagStep(w: real, l: real, v: real, y: real, s: real, r: real)
    requires s == l + v * y
    ensures Cross(w, s) + Cross(v, r) == Cross(w, l) + Cross(v, r + Times(w, y))
  {
    assert w * s == w * l + v * (w * y);
  }

  /** Lags past the sequence, or past the support of the kernel, add nothing. */
  lemma {:induction false} RecentExtend(x: seq<real>, w: Kernel, n: nat, m: nat)
    requires 1 <= n <= m
    requires forall d: nat :: n <= d < m ==> d > |x| || w(d) == 0.0
    ensures Recent(x, w, n) == Recent(x, w, m)
  {
    if n < m { RecentExtend(x, w, n, m - 1); }
  }

  /** Summing back from the end, or along the prefix from the start, is the same sum. */
  lemma {:induction false} RecentPrefix(x: seq<real>, w: Kernel, k: nat)
    requires k <= |x|
    ensures Recent(x, w, |x| + 1) == Recent(x, w, |x| - k + 1) + Row(x[..k], w, |x|)
  {
    if k > 0 {
      RecentPrefix(x, w, k - 1);
      assert x[..k][..k - 1] == x[..k - 1];
    }
  }

  lemma {:induction false} RecentIsRow(x: seq<real>, w: Kernel, n: nat)
    requires n >= 1
    requires n > |x| || forall d: nat :: n <= d ==> w(d) == 0.0
    ensures Recent(x, w, n) == Row(x, w, |x|)
  {
    if n > |x| { RecentExtend(x, w, |x| + 1, n); } else { RecentExtend(x, w, n, |x| + 1); }
    RecentPrefix(x, w, |x|);
    assert x[..|x|] == x;
  }

  lemma {:induction false} LagsEmpty(w: Kernel, n: nat)
    ensures Lags([], w, n) == 0.0
  {
    if n > 1 { LagsEmpty(w, n - 1); }
  }

  /** The lag-by-lag sum is the kernel form. */
  lemma {:induction false} LagsAreForm(x: seq<real>, w: Kernel, n: nat)
    requires n >= 1 && w(0) == 1.0
    requires n >= |x| || forall d: nat :: n <= d ==> w(d) == 0.0
    ensures LagSum(x, 0) + Lags(x, w, n) == Form(x, w)
  {
    if x == [] {
      LagsEmpty(w, n);
    } else {
      hide LagSum, Lags, Recent, Row, Border, Square, Cross, Times;
      var k := |x| - 1;
      var y, v := x[..k], x[k];
      assert x == y + [v];
      LagsAreForm(y, w, n);
      LagSquarePush(y, v);
      LagsPush(y, v, w, n);
      RecentIsRow(y, w, n);
      BorderSum(Form(y, w), v, Row(y, w, k), LagSum(y, 0), Lags(y, w, n));
    }
  }

  /** The accumulation loop of the program computes the Bartlett kernel form. */
  method Quadratic(paired: seq<real>, runBlocks: real) returns (quadratic: real)
    requires runBlocks >= 1.0
    ensures quadratic == Form(paired, Bartlett(runBlocks))
  {
    quadratic := LagSum(paired, 0);
    var k := |paired|;
    var stop := if Ceil(runBlocks) < k then Ceil(runBlocks) else k;
    var lag := 1;
    ghost var w := Bartlett(runBlocks);
    while lag < stop
      invariant lag == 1 || lag <= stop
      invariant 1 <= lag
      invariant quadratic == LagSum(paired, 0) + Lags(paired, w, lag)
    {
      quadratic := quadratic + 2.0 * ((1.0 - lag as real / runBlocks) * LagSum(paired, lag));
      lag := lag + 1;
    }
    LagsAreForm(paired, w, lag);
  }

  // ---------------------------------------------------------------- linearity in the kernel

  lemma {:induction false} RowLinear(x: seq<real>, w: Kernel, p: Kernel, q: Kernel, a: real, b: real, at: nat)
    requires |x| <= at
    requires forall d: nat :: w(d) == Mix(a, b, p(d), q(d))
    ensures Row(x, w, at) == Mix(a, b, Row(x, p, at), Row(x, q, at))
  {
    if x != [] {
      hide Mix, Times;
      var n := |x| - 1;
      RowLinear(x[..n], w, p, q, a, b, at);
      var d := at - n;
      MixTerm(a, b, Row(x[..n], p, at), Row(x[..n], q, at), p(d), q(d), x[n]);
    }
  }

  lemma MixTerm(a: real, b: real, f: real, g: real, p: real, q: real, v: real)
    ensures Mix(a, b, f, g) + Times(Mix(a, b, p, q), v) == Mix(a, b, f + Times(p, v), g + Times(q, v))
  {
    assert (a * p + b * q) * v == a * (p * v) + b * (q * v);
  }

  lemma BorderMix(a: real, b: real, f: real, g: real, p: real, q: real, r: real, s: real, v: real)
    ensures Border(Mix(a, b, f, g), Mix(a, b, p, q), v, Mix(a, b, r, s))
         == Mix(a, b, Border(f, p, v, r), Border(g, q, v, s))
  {
    BorderTerms(Mix(a, b, f, g), Mix(a, b, p, q), v, Mix(a, b, r, s));
    BorderTerms(f, p, v, r);
    BorderTerms(g, q, v, s);
    hide Border, Mix, Times, Square;
    MixTerm(a, b, f, g, p, q, Square(v));
    MixTerm(a, b, f + Times(p, Square(v)), g + Times(q, Square(v)), r, s, 2.0 * v);
  }

  lemma BorderTerms(f: real, p: real, v: real, r: real)
    ensures Border(f, p, v, r) == f + Times(p, Square(v)) + Times(r, 2.0 * v)
  {
    hide Square;
  }

  lemma {:induction false} FormLinear(x: seq<real>, w: Kernel, p: Kernel, q: Kernel, a: real, b: real)
    requires forall d: nat :: w(d) == Mix(a, b, p(d), q(d))
    ensures Form(x, w) == Mix(a, b, Form(x, p), Form(x, q))
  {
    if x != [] {
      hide Border, Row, Mix, Times;
      var n := |x| - 1;
      var y, v := x[..n], x[n];
      FormLinear(y, w, p, q, a, b);
      RowLinear(y, w, p, q, a, b, n);
      BorderMix(a, b, Form(y, p), Form(y, q), p(0), q(0), Row(y, p, n), Row(y, q, n), v);
    }
  }

  // ---------------------------------------------------------------- integer bandwidths

  /** The triangle of integer width m: m times the Bartlett kernel. */
  function Triangle(m: nat): Kernel {
    (d: nat) => if d < m then (m - d) as real else 0.0
  }

  /** Sum of the values of x that lie at most j places before position at. */
  function Tail(x: seq<real>, at: nat, j: nat): real
    requires |x| <= at
  {
    if x == [] then 0.0
    else Tail(x[..|x| - 1], at, j) + (if at - (|x| - 1) <= j then x[|x| - 1] else 0.0)
  }

  function SumTails(x: seq<real>, n: nat): real {
    if n == 0 then 0.0 else SumTails(x, n - 1) + Tail(x, |x|, n - 1)
  }

  function SquaredTails(x: seq<real>, n: nat): real {
    if n == 0 then 0.0 else SquaredTails(x, n - 1) + Square(Tail(x, |x|, n - 1))
  }

  /** Squared sums of the windows of width w that end at each position of x. */
  function Windows(x: seq<real>, w: nat): real {
    if x == [] then 0.0 else Windows(x[..|x| - 1], w) + Square(Tail(x, |x|, w))
  }

  /** Squared sums of every window of width w that meets x, those hanging over the end included. */
  function Energy(x: seq<real>, w: nat): real {
    Windows(x, w) + SquaredTails(x, w)
  }

  lemma {:induction false} TailShift(x: seq<real>, at: nat, j: nat)
    requires |x| <= at
    ensures Tail(x, at + 1, j + 1) == Tail(x, at, j)
  {
    if x != [] { TailShift(x[..|x| - 1], at, j); }
  }

  lemma {:induction false} TailZero(x: seq<real>, at: nat)
    requires |x| <= at
    ensures Tail(x, at, 0) == 0.0
  {
    if x != [] { TailZero(x[..|x| - 1], at); }
  }

  lemma TailPush(x: seq<real>, v: real, j: nat)
    ensures Tail(x + [v], |x| + 1, j + 1) == v + Tail(x, |x|, j)
  {
    assert (x + [v])[..|x|] == x;
    TailShift(x, |x|, j);
  }

  lemma SquareSum(f: real, n: real, v: real, s: real, t: real)
    ensures Border(f, n - 1.0, v, s) + Square(v + t) == Border(f + Square(t), n, v, s + t)
  {
  }

  lemma {:induction false} SquaredTailsPush(x: seq<real>, v: real, n: nat)
    ensures SquaredTails(x + [v], n + 1)
         == Border(SquaredTails(x, n), n as real, v, SumTails(x, n))
  {
    if n == 0 {
      TailZero(x + [v], |x| + 1);
      assert SquaredTails(x + [v], 1) == SquaredTails(x + [v], 0) + Square(0.0);
    } else {
      hide Border, Square, Tail;
      SquaredTailsPush(x, v, n - 1);
      TailPush(x, v, n - 1);
      SquareSum(SquaredTails(x, n - 1), n as real, v, SumTails(x, n - 1), Tail(x, |x|, n - 1));
    }
  }

  lemma EnergyPush(x: seq<real>, v: real, w: nat)
    ensures Energy(x + [v], w) == Windows(x, w) + SquaredTails(x + [v], w + 1)
    ensures Energy(x + [v], w) == Border(Energy(x, w), w as real, v, SumTails(x, w))
  {
    hide Square, Tail, Border, SumTails;
    assert (x + [v])[..|x|] == x;
    SquaredTailsPush(x, v, w);
    BorderShift(Windows(x, w), SquaredTails(x, w), w as real, v, SumTails(x, w));
  }

  lemma BorderShift(e: real, f: real, n: real, v: real, r: real)
    ensures Border(e + f, n, v, r) == e + Border(f, n, v, r)
  {
  }

  /** One more unit of width adds one more tail. */
  lemma {:induction false} TriangleStep(x: seq<real>, at: nat, n: nat)
    requires |x| <= at
    ensures Row(x, Triangle(n + 1), at) == Row(x, Triangle(n), at) + Tail(x, at, n)
  {
    if x != [] {
      var k := |x| - 1;
      TriangleStep(x[..k], at, n);
      var d := at - k;
      assert Triangle(n + 1)(d) == Triangle(n)(d) + (if d <= n then 1.0 else 0.0);
    }
  }

  lemma {:induction false} TriangleTails(x: seq<real>, n: nat)
    ensures Row(x, Triangle(n), |x|) == SumTails(x, n)
  {
    if n == 0 {
      NoWeight(x, |x|);
    } else {
      TriangleTails(x, n - 1);
      TriangleStep(x, |x|, n - 1);
    }
  }

  lemma {:induction false} NoWeight(x: seq<real>, at: nat)
    requires |x| <= at
    ensures Row(x, Triangle(0), at) == 0.0
  {
    if x != [] { NoWeight(x[..|x| - 1], at); }
  }

  /** With the triangle of width w the form is the sum of squared window sums. */
  lemma {:induction false} WindowSums(x: seq<real>, w: nat)
    requires w > 0
    ensures Form(x, Triangle(w)) == Energy(x, w)
  {
    if x == [] {
      EmptyTails(w);
    } else {
      hide Border, Square, Tail, Row;
      var n := |x| - 1;
      var y, v := x[..n], x[n];
      assert x == y + [v];
      WindowSums(y, w);
      assert Triangle(w)(0) == w as real;
      EnergyPush(y, v, w);
      TriangleTails(y, w);
    }
  }

  lemma {:induction false} EmptyTails(n: nat)
    ensures SquaredTails([], n) == 0.0
  {
    if n > 0 { EmptyTails(n - 1); }
  }

  // ---------------------------------------------------------------- positivity

  ghost predicate AllZero(x: seq<real>) {
    forall i :: 0 <= i < |x| ==> x[i] == 0.0
  }

  lemma {:induction false} TailsSign(x: seq<real>, n: nat)
    ensures SquaredTails(x, n) >= 0.0
  {
    if n > 0 { TailsSign(x, n - 1); }
  }

  lemma {:induction false} WindowsSign(x: seq<real>, w: nat)
    ensures Windows(x, w) >= 0.0
  {
    if x != [] { WindowsSign(x[..|x| - 1], w); }
  }

  /** The last value is itself one of the window sums. */
  lemma {:induction false} LastTail(x: seq<real>, v: real, n: nat)
    requires n >= 1
    ensures SquaredTails(x + [v], n + 1) >= Square(v)
  {
    if n == 1 {
      TailZero(x, |x|);
      TailPush(x, v, 0);
      TailsSign(x + [v], 1);
    } else {
      LastTail(x, v, n - 1);
    }
  }

  /** The window energy is positive unless every block is zero. */
  lemma {:induction false} EnergyDefinite(x: seq<real>, w: nat)
    requires w > 0
    ensures Energy(x, w) >= 0.0
    ensures Energy(x, w) == 0.0 ==> AllZero(x)
  {
    WindowsSign(x, w);
    TailsSign(x, w);
    if x != [] {
      var n := |x| - 1;
      var y, v := x[..n], x[n];
      assert x == y + [v];
      EnergyPush(y, v, w);
      WindowsSign(y, w);
      LastTail(y, v, w);
      EnergyDefinite(y, w);
      hide Square, Border, Tail;
    }
  }

  lemma {:induction false} ZeroForm(x: seq<real>, w: Kernel)
    requires AllZero(x)
    ensures Form(x, w) == 0.0
  {
    if x != [] { ZeroForm(x[..|x| - 1], w); }
  }

  /** Between two integer widths the Bartlett kernel is a positive mix of their triangles. */
  lemma BartlettMix(h: real, m: nat, d: nat)
    requires 1 <= m && m as real <= h < (m + 1) as real
    ensures Bartlett(h)(d)
         == Mix(((m + 1) as real - h) / h, (h - m as real) / h, Triangle(m)(d), Triangle(m + 1)(d))
  {
    var a, b := ((m + 1) as real - h) / h, (h - m as real) / h;
    assert a + b == 1.0 / h;
    if d <= m {
      var t := m as real - d as real;
      assert Triangle(m)(d) == t && Triangle(m + 1)(d) == t + 1.0;
      assert a * t + b * (t + 1.0) == (a + b) * t + b;
      assert (1.0 / h) * t == t / h;
      assert t / h + (h - m as real) / h == (h - d as real) / h;
    }
  }

  lemma MixSigns(h: real, m: int)
    requires h >= 1.0 && m as real <= h < (m + 1) as real
    ensures ((m + 1) as real - h) / h > 0.0 && (h - m as real) / h >= 0.0
  {
  }

  /** The Bartlett form is never negative, for every block sequence and every real bandwidth
      of at least one, and it vanishes exactly on the zero sequence. */
  lemma BartlettDefinite(x: seq<real>, h: real)
    requires h >= 1.0
    ensures Form(x, Bartlett(h)) >= 0.0
    ensures Form(x, Bartlett(h)) == 0.0 <==> AllZero(x)
  {
    hide Bartlett, Triangle, Form, Energy, Mix;
    var m := h.Floor;
    var a, b := ((m + 1) as real - h) / h, (h - m as real) / h;
    assert a > 0.0 && b >= 0.0 by { MixSigns(h, m); }
    forall d: nat ensures Bartlett(h)(d) == Mix(a, b, Triangle(m)(d), Triangle(m + 1)(d)) {
      BartlettMix(h, m, d);
    }
    FormLinear(x, Bartlett(h), Triangle(m), Triangle(m + 1), a, b);
    WindowSums(x, m);
    WindowSums(x, m + 1);
    EnergyDefinite(x, m);
    EnergyDefinite(x, m + 1);
    Mixture(a, b, Energy(x, m), Energy(x, m + 1));
    if AllZero(x) { ZeroForm(x, Bartlett(h)); }
  }

  lemma Mixture(a: real, b: real, e: real, f: real)
    requires a > 0.0 && b >= 0.0 && e >= 0.0 && f >= 0.0
    ensures Mix(a, b, e, f) >= 0.0
    ensures Mix(a, b, e, f) == 0.0 ==> e == 0.0
  {
    assert a * e >= 0.0 && b * f >= 0.0;
    if e > 0.0 { assert a * e > 0.0; }
  }
}
