/** The bootstrap of the gate-2 calibration: what stopping early may and may not change.

    A draw is reduced to what the loop reads from it: for each of the two hypotheses, whether
    its studentized contrast was degenerate, and whether it reached the observed one. */
module Bootstrap {
  import opened RealArithmetic
  import opened Wrappers

  // ---------------------------------------------------------------- draws

  /** One draw for one hypothesis; a degenerate draw always counts as extreme. */
  datatype Draw = Draw(degenerate: bool, reached: bool) {
    predicate Extreme() { degenerate || reached }
  }

  /** A contrast as the floating-point code may hold it. */
  datatype Contrast = Finite(value: real) | NotANumber | PlusInfinity | MinusInfinity {
    predicate Positive() { PlusInfinity? || (Finite? && value > 0.0) }
    predicate NotPositive() { MinusInfinity? || (Finite? && value <= 0.0) }
  }

  /** What is fixed about a hypothesis before the first draw. */
  datatype Hypothesis = Hypothesis(eligible: bool, valid: bool, delta: Contrast)

  function Extremes(d: seq<Draw>): nat {
    if d == [] then 0 else Extremes(d[..|d| - 1]) + (if d[|d| - 1].Extreme() then 1 else 0)
  }

  function Degenerates(d: seq<Draw>): nat {
    if d == [] then 0 else Degenerates(d[..|d| - 1]) + (if d[|d| - 1].degenerate then 1 else 0)
  }

  lemma {:induction false} CountsGrow(d: seq<Draw>, m: nat)
    requires m <= |d|
    ensures Extremes(d[..m]) <= Extremes(d) <= |d|
    ensures Degenerates(d[..m]) <= Degenerates(d)
    ensures Degenerates(d) <= Extremes(d)
  {
    if m == |d| {
      assert d[..m] == d;
      if d != [] { CountsGrow(d[..|d| - 1], |d| - 1); }
    } else {
      CountsGrow(d[..|d| - 1], m);
      assert d[..|d| - 1][..m] == d[..m];
    }
  }

  // ---------------------------------------------------------------- results

  /** (extreme + 1) / (draws + 1). */
  function Estimate(extreme: nat, draws: nat): real {
    (extreme + 1) as real / (draws + 1) as real
  }

  /** The reported p, from counts taken over some of the planned draws. */
  function Reported(h: Hypothesis, extreme: nat, degenerate: nat, draws: nat): real {
    if !h.eligible || !h.valid || 5 * degenerate > draws then 1.0 else Estimate(extreme, draws)
  }

  datatype Result = Result(p: (real, real), generated: nat, planned: nat, lowerBound: bool)

  /** The result of a run that looked at the first `generated` draws. */
  function ResultAfter(h: (Hypothesis, Hypothesis), d: (seq<Draw>, seq<Draw>), generated: nat): Result
    requires |d.0| == |d.1| && generated <= |d.0|
  {
    Result(
      (Reported(h.0, Extremes(d.0[..generated]), Degenerates(d.0[..generated]), |d.0|),
       Reported(h.1, Extremes(d.1[..generated]), Degenerates(d.1[..generated]), |d.0|)),
      generated, |d.0|, generated < |d.0|)
  }

  function ExtremeAt(d: seq<Draw>): set<nat> { set i | 0 <= i < |d| && (d[i].degenerate || d[i].reached) }

  function DegenerateAt(d: seq<Draw>): set<nat> { set i | 0 <= i < |d| && d[i].degenerate }

  /** The counts are numbers of draws. */
  lemma {:induction false} ExtremesCounted(d: seq<Draw>)
    ensures Extremes(d) == |ExtremeAt(d)|
  {
    if d != [] {
      var n := |d| - 1;
      ExtremesCounted(d[..n]);
      assert ExtremeAt(d) == ExtremeAt(d[..n]) + if d[n].degenerate || d[n].reached then {n} else {};
    }
  }

  lemma {:induction false} DegeneratesCounted(d: seq<Draw>)
    ensures Degenerates(d) == |DegenerateAt(d)|
  {
    if d != [] {
      var n := |d| - 1;
      DegeneratesCounted(d[..n]);
      assert DegenerateAt(d) == DegenerateAt(d[..n]) + if d[n].degenerate then {n} else {};
    }
  }

  /** The reported p is one for a hypothesis that was never sound, or past one degenerate draw in
      five, or with every draw extreme, and for no other; otherwise it is the share of the extreme
      draws, with the observed contrast counted as one. */
  lemma ReportedIs(h: Hypothesis, extreme: nat, degenerate: nat, draws: nat)
    requires extreme <= draws
    ensures var p, lost := Reported(h, extreme, degenerate, draws),
                           !h.eligible || !h.valid || degenerate as real > draws as real / 5.0;
      && (p == 1.0 <==> lost || extreme == draws)
      && (!lost ==> p * (draws + 1) as real == (extreme + 1) as real)
  {
    Share(extreme, draws);
    Fifth(degenerate, draws);
    hide Estimate;
  }

  lemma Share(extreme: nat, draws: nat)
    requires extreme <= draws
    ensures Estimate(extreme, draws) == 1.0 <==> extreme == draws
    ensures Estimate(extreme, draws) * (draws + 1) as real == (extreme + 1) as real
  {
    var a, b := (extreme + 1) as real, (draws + 1) as real;
    var q := a / b;
    assert q * b == a;
  }

  lemma Fifth(degenerate: nat, draws: nat)
    ensures 5 * degenerate > draws <==> degenerate as real > draws as real / 5.0
  {
  }

  /** A hypothesis that can no longer be rejected at any level up to alpha. */
  predicate Failed(h: Hypothesis, extreme: nat, draws: nat, alpha: real) {
    Estimate(extreme, draws) > alpha || h.delta.NotPositive() || !h.eligible || !h.valid
  }

  predicate Rejected(h: Hypothesis, p: real, level: real) {
    p <= level && h.delta.Positive()
  }

  /** No level up to alpha can be met when the share of extreme draws is above alpha already, when
      the contrast is not positive, or when the hypothesis was never sound; and a rejection needs a
      positive contrast and a p within the level. */
  lemma VerdictsAre(h: Hypothesis, extreme: nat, draws: nat, alpha: real, p: real, level: real)
    ensures Failed(h, extreme, draws, alpha) <==>
      (extreme + 1) as real / (draws + 1) as real > alpha || !(h.eligible && h.valid)
      || h.delta.MinusInfinity? || (h.delta.Finite? && h.delta.value <= 0.0)
    ensures Rejected(h, p, level) <==>
      p <= level && (h.delta.PlusInfinity? || (h.delta.Finite? && h.delta.value > 0.0))
  {
  }

  const BATCH: nat := 256

  /** Neither hypothesis can be rejected any more after the first n draws. */
  predicate BothFailed(h: (Hypothesis, Hypothesis), d: (seq<Draw>, seq<Draw>), n: nat, alpha: real)
    requires n <= |d.0| == |d.1|
  {
    Failed(h.0, Extremes(d.0[..n]), |d.0|, alpha) && Failed(h.1, Extremes(d.1[..n]), |d.0|, alpha)
  }

  /** A number of whole batches of 256 draws. */
  predicate Whole(n: nat) { n % 256 == 0 }

  lemma WholeNext(n: nat)
    ensures Whole(0)
    ensures Whole(n) ==> Whole(n + BATCH) && forall g :: n < g < n + BATCH ==> !Whole(g)
  {
  }

  /** The batch loop. Without a decision level it runs to the end; with one it stops after a
      batch that leaves neither hypothesis a chance. */
  method Run(h: (Hypothesis, Hypothesis), d: (seq<Draw>, seq<Draw>), decision: Option<real>) returns (r: Result)
    requires |d.0| == |d.1|
    ensures r.generated <= |d.0| && r == ResultAfter(h, d, r.generated)
    ensures Whole(r.generated) || r.generated == |d.0|
    ensures r.generated == |d.0| || (decision.Some? && BothFailed(h, d, r.generated, decision.value))
    ensures decision.Some? ==> forall g :: 0 < g < r.generated && Whole(g) ==> !BothFailed(h, d, g, decision.value)
  {
    hide Estimate, Reported, Failed, Whole;
    WholeNext(0);
    var draws := |d.0|;
    var extreme0, extreme1, degenerate0, degenerate1 := 0, 0, 0, 0;
    var generated := 0;
    while generated < draws
      invariant 0 <= generated <= draws
      invariant Whole(generated) || generated == draws
      invariant decision.Some? ==> forall g :: 0 < g <= generated && g < draws && Whole(g) ==>
        !BothFailed(h, d, g, decision.value)
      invariant extreme0 == Extremes(d.0[..generated]) && extreme1 == Extremes(d.1[..generated])
      invariant degenerate0 == Degenerates(d.0[..generated]) && degenerate1 == Degenerates(d.1[..generated])
    {
      var stop := if generated + BATCH <= draws then generated + BATCH else draws;
      WholeNext(generated);
      while generated < stop
        invariant generated <= stop
        invariant extreme0 == Extremes(d.0[..generated]) && extreme1 == Extremes(d.1[..generated])
        invariant degenerate0 == Degenerates(d.0[..generated]) && degenerate1 == Degenerates(d.1[..generated])
      {
        var a, b := d.0[generated], d.1[generated];
        assert d.0[..generated + 1][..generated] == d.0[..generated];
        assert d.1[..generated + 1][..generated] == d.1[..generated];
        if a.degenerate { degenerate0 := degenerate0 + 1; }
        if b.degenerate { degenerate1 := degenerate1 + 1; }
        if a.Extreme() { extreme0 := extreme0 + 1; }
        if b.Extreme() { extreme1 := extreme1 + 1; }
        generated := generated + 1;
      }
      if decision.Some? && Failed(h.0, extreme0, draws, decision.value)
        && Failed(h.1, extreme1, draws, decision.value)
      {
        break;
      }
    }
    r := Result((Reported(h.0, extreme0, degenerate0, draws), Reported(h.1, extreme1, degenerate1, draws)),
                generated, draws, generated < draws);
  }

  // ---------------------------------------------------------------- the shortcut preserves decisions

  lemma EstimateMonotone(a: nat, b: nat, draws: nat)
    ensures a <= b ==> Estimate(a, draws) <= Estimate(b, draws)
    ensures a < b ==> Estimate(a, draws) < Estimate(b, draws)
    ensures a <= draws ==> Estimate(a, draws) <= 1.0
  {
    EstimateGap(a, b, draws);
    EstimateGap(a, draws, draws);
    assert Estimate(draws, draws) == 1.0;
  }

  lemma EstimateGap(a: nat, b: nat, draws: nat)
    ensures Estimate(b, draws) - Estimate(a, draws) == (b - a) as real / (draws + 1) as real
  {
  }

  /** For one hypothesis: stopping early never raises p, and once the hypothesis has failed
      neither count can reject it. */
  lemma OneHypothesis(h: Hypothesis, d: seq<Draw>, m: nat, alpha: real, level: real)
    requires m <= |d| && level <= alpha < 1.0
    ensures var early, full := Reported(h, Extremes(d[..m]), Degenerates(d[..m]), |d|),
                               Reported(h, Extremes(d), Degenerates(d), |d|);
      early <= full <= 1.0
      && (Failed(h, Extremes(d[..m]), |d|, alpha) ==> !Rejected(h, early, level) && !Rejected(h, full, level))
  {
    CountsGrow(d, m);
    EstimateMonotone(Extremes(d[..m]), Extremes(d), |d|);
    EstimateMonotone(Extremes(d), Extremes(d), |d|);
  }

  /** The early-stopped run rejects each hypothesis exactly when the full run does, reports a
      p that never exceeds the full one, and reports the full result when it did not stop. */
  lemma ShortcutPreservesDecisions(h: (Hypothesis, Hypothesis), d: (seq<Draw>, seq<Draw>), generated: nat,
                                   alpha: real, levels: (real, real))
    requires |d.0| == |d.1| && generated <= |d.0|
    requires levels.0 <= alpha && levels.1 <= alpha && alpha < 1.0
    requires generated == |d.0|
          || (Failed(h.0, Extremes(d.0[..generated]), |d.0|, alpha)
              && Failed(h.1, Extremes(d.1[..generated]), |d.0|, alpha))
    ensures var early, full := ResultAfter(h, d, generated), ResultAfter(h, d, |d.0|);
      && (Rejected(h.0, early.p.0, levels.0) <==> Rejected(h.0, full.p.0, levels.0))
      && (Rejected(h.1, early.p.1, levels.1) <==> Rejected(h.1, full.p.1, levels.1))
      && early.p.0 <= full.p.0 <= 1.0 && early.p.1 <= full.p.1 <= 1.0
      && (early == full <==> generated == |d.0|)
  {
    OneHypothesis(h.0, d.0, generated, alpha, levels.0);
    OneHypothesis(h.1, d.1, generated, alpha, levels.1);
    assert d.0[..|d.0|] == d.0 && d.1[..|d.1|] == d.1;
  }

  /** Both runs over the same draws. */
  method Compare(h: (Hypothesis, Hypothesis), d: (seq<Draw>, seq<Draw>), levels: (real, real))
      returns (early: Result, full: Result)
    requires |d.0| == |d.1|
    requires levels.0 < 1.0 && levels.1 < 1.0
    ensures full.generated == full.planned == |d.0| && !full.lowerBound
    ensures Rejected(h.0, early.p.0, levels.0) <==> Rejected(h.0, full.p.0, levels.0)
    ensures Rejected(h.1, early.p.1, levels.1) <==> Rejected(h.1, full.p.1, levels.1)
    ensures early.p.0 <= full.p.0 && early.p.1 <= full.p.1
    ensures !early.lowerBound ==> early == full
  {
    var alpha := if levels.0 >= levels.1 then levels.0 else levels.1;
    early := Run(h, d, Some(alpha));
    full := Run(h, d, None);
    ShortcutPreservesDecisions(h, d, early.generated, alpha, levels);
  }

  // ---------------------------------------------------------------- how many draws are needed

  /** The planned number of draws for a level, refused above the cap. */
  function DrawsFor(alpha: real, cap: int): Option<int>
    requires 0.0 < alpha < 1.0
  {
    var need := Ceil(1.0 / alpha) - 1;
    if need <= cap then Some(need) else None
  }

  /** The plan is the least number of draws with which the level can be reached at all. */
  lemma LeastDraws(alpha: real, cap: int, n: nat)
    requires 0.0 < alpha < 1.0
    ensures DrawsFor(alpha, cap).Some? && DrawsFor(alpha, cap).value == n
       ==> n >= 1 && Estimate(0, n) <= alpha && alpha < 1.0 / n as real
    ensures DrawsFor(alpha, cap).Some? ==> (Estimate(0, n) <= alpha <==> DrawsFor(alpha, cap).value <= n)
    ensures DrawsFor(alpha, cap).None? && n <= cap ==> Estimate(0, n) > alpha
  {
    var need := Ceil(1.0 / alpha) - 1;
    var m := (n + 1) as real;
    ReciprocalOrder(alpha, m);
    if n == need {
      ReciprocalAbove(alpha);
      ReciprocalOrder(alpha, n as real);
    }
  }

  lemma ReciprocalAbove(alpha: real)
    requires 0.0 < alpha < 1.0
    ensures 1.0 / alpha > 1.0
  {
  }

  lemma ReciprocalOrder(alpha: real, m: real)
    requires 0.0 < alpha && 0.0 < m
    ensures 1.0 / m <= alpha <==> 1.0 / alpha <= m
    ensures 1.0 / m < alpha <==> 1.0 / alpha < m
  {
    var p := alpha * m;
    assert 1.0 / m <= alpha <==> 1.0 <= p by { Scale(1.0 / m, alpha, m); }
    assert 1.0 / alpha <= m <==> 1.0 <= p by { Scale(1.0 / alpha, m, alpha); }
    assert 1.0 / m < alpha <==> 1.0 < p by { Scale(alpha, 1.0 / m, m); }
    assert 1.0 / alpha < m <==> 1.0 < p by { Scale(m, 1.0 / alpha, alpha); }
  }

  lemma Scale(a: real, b: real, m: real)
    requires m > 0.0
    ensures a <= b <==> a * m <= b * m
  {
    if a <= b { ProductSign(b - a, m, (b - a) * m); } else { ProductSign(a - b, m, (a - b) * m); }
  }

  /** With exactly the planned draws a sound hypothesis is rejected at its level if and only
      if no draw at all was extreme. */
  lemma RejectionNeedsNoExtreme(alpha: real, cap: int, h: Hypothesis, d: seq<Draw>)
    requires 0.0 < alpha < 1.0
    requires DrawsFor(alpha, cap) == Some(|d|)
    requires h.eligible && h.valid && h.delta.Positive()
    ensures Rejected(h, Reported(h, Extremes(d), Degenerates(d), |d|), alpha) <==> Extremes(d) == 0
  {
    CountsGrow(d, |d|);
    LeastDraws(alpha, cap, |d|);
    if Extremes(d) >= 1 {
      var n := |d| as real;
      EstimateMonotone(1, Extremes(d), |d|);
      TwoOverNext(n);
    }
  }

  lemma TwoOverNext(n: real)
    requires n >= 1.0
    ensures 2.0 / (n + 1.0) >= 1.0 / n
  {
    assert 2.0 / (n + 1.0) - 1.0 / n == (n - 1.0) / (n * (n + 1.0));
  }

  // ---------------------------------------------------------------- resampled blocks

  /** The position where the run that covers position j began. */
  function RunStart(restart: seq<bool>, j: nat): (r: nat)
    requires j < |restart|
    ensures r <= j && (r == 0 || restart[r])
    ensures forall i :: r < i <= j ==> !restart[i]
  {
    if j == 0 || restart[j] then j else RunStart(restart, j - 1)
  }

  /** Position x of a circle of k blocks, for x less than two turns. */
  function Around(x: nat, k: nat): nat
    requires x < 2 * k
  {
    if x < k then x else x - k
  }

  /** The block at position j of a draw: as many blocks after its run's starting block as j is
      after the start of the run, around the circle. */
  function Resampled(starts: seq<nat>, restart: seq<bool>, j: nat): nat
    requires j < |starts| == |restart|
    requires forall i :: 0 <= i < |starts| ==> starts[i] < |starts|
  {
    Around(starts[RunStart(restart, j)] + (j - RunStart(restart, j)), |starts|)
  }

  lemma ResampledNext(starts: seq<nat>, restart: seq<bool>, j: nat)
    requires j < |starts| == |restart|
    requires forall i :: 0 <= i < |starts| ==> starts[i] < |starts|
    ensures Resampled(starts, restart, j)
         == if j == 0 || restart[j] then starts[j] else Next(Resampled(starts, restart, j - 1), |starts|)
  {
  }

  /** The block after b on the circle. */
  function Next(b: nat, k: nat): nat
    requires b < k
    ensures Next(b, k) == (b + 1) % k
  {
    if b + 1 == k then 0 else b + 1
  }

  /** One draw of the circular stationary sampler, filled in place. */
  method StationaryIndices(starts: seq<nat>, restart: seq<bool>) returns (ix: array<nat>)
    requires |starts| == |restart| >= 1
    requires forall j :: 0 <= j < |starts| ==> starts[j] < |starts|
    ensures fresh(ix) && ix.Length == |starts|
    ensures forall j :: 0 <= j < |starts| ==> ix[j] == Resampled(starts, restart, j) < |starts|
  {
    hide Resampled;
    var k := |starts|;
    ix := new nat[k](i requires 0 <= i < k => starts[i]);
    ResampledNext(starts, restart, 0);
    for j := 1 to k
      invariant forall i :: 0 <= i < j ==> ix[i] == Resampled(starts, restart, i) < k
      invariant forall i :: j <= i < k ==> ix[i] == starts[i]
    {
      ResampledNext(starts, restart, j);
      ix[j] := if restart[j] then starts[j] else (ix[j - 1] + 1) % k;
    }
  }

  /** Without restarts a draw is a rotation: every block appears exactly once. */
  lemma RotationCoversOnce(starts: seq<nat>, restart: seq<bool>, block: nat)
    requires |starts| == |restart| && block < |starts|
    requires forall j :: 0 <= j < |starts| ==> starts[j] < |starts|
    requires forall j :: 0 < j < |restart| ==> !restart[j]
    ensures exists w ::
      0 <= w < |starts| && Resampled(starts, restart, w) == block
      && (forall i :: 0 <= i < |starts| && Resampled(starts, restart, i) == block ==> i == w)
  {
    var w := if block >= starts[0] then block - starts[0] else block + |starts| - starts[0];
    assert RunStart(restart, w) == 0 && Resampled(starts, restart, w) == block;
    forall i | 0 <= i < |starts| && Resampled(starts, restart, i) == block ensures i == w {
      assert RunStart(restart, i) == 0;
    }
  }
}
