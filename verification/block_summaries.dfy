/** Calendar-block summaries of a cohort of trades and the studentized contrast built on them,
    for one hypothesis, over exact reals. */
module BlockSummaries {
  import opened RealArithmetic
  import HacVariance

  // ---------------------------------------------------------------- trades and moments

  datatype Arm = Unknown | Complement | Subset

  /** One trade: entry day, outcome in units of risk, label, and whether it ended in the span. */
  datatype Trade = Trade(entry: real, r: real, arm: Arm, complete: bool)

  /** Count, sum and sum of squares of a set of outcomes. */
  datatype Moments = Moments(n: nat, total: real, squares: real) {
    function Add(r: real): Moments { Moments(n + 1, total + r, squares + Square(r)) }
    function Plus(m: Moments): Moments { Moments(n + m.n, total + m.total, squares + m.squares) }
  }

  const ZERO := Moments(0, 0.0, 0.0)

  /** One calendar block: the moments of its two arms. */
  datatype Block = Block(complement: Moments, subset: Moments) {
    function Put(t: Trade): Block {
      if t.arm.Subset? then this.(subset := subset.Add(t.r)) else this.(complement := complement.Add(t.r))
    }
    function Plus(b: Block): Block { Block(complement.Plus(b.complement), subset.Plus(b.subset)) }
    predicate Both() { complement.n > 0 && subset.n > 0 }
  }

  const EMPTY := Block(ZERO, ZERO)

  /** A trade enters the summary when it is complete and its label is known. */
  predicate Counted(t: Trade) {
    t.complete && !t.arm.Unknown?
  }

  /** Every counted trade of ts, whatever its block. */
  function Pool(ts: seq<Trade>): Block {
    if ts == [] then EMPTY
    else
      var p, t := Pool(ts[..|ts| - 1]), ts[|ts| - 1];
      if Counted(t) then p.Put(t) else p
  }

  /** The trades of ts that enter on a day of block j. */
  function InBlock(ts: seq<Trade>, days: nat, j: int): seq<Trade>
    requires days > 0
  {
    if ts == [] then []
    else
      var rest, t := InBlock(ts[..|ts| - 1], days, j), ts[|ts| - 1];
      if BlockOf(t, days) == j then rest + [t] else rest
  }

  function BlockOf(t: Trade, days: nat): int
    requires days > 0
  {
    (t.entry / days as real).Floor
  }

  function Total(bs: seq<Block>): Block {
    if bs == [] then EMPTY else Total(bs[..|bs| - 1]).Plus(bs[|bs| - 1])
  }

  // ---------------------------------------------------------------- binning

  /** Trades that a block summary can hold: entries inside the span for every counted trade. */
  predicate Fits(ts: seq<Trade>, days: nat, k: nat)
    requires days > 0
  {
    forall i :: 0 <= i < |ts| && Counted(ts[i]) ==> 0 <= BlockOf(ts[i], days) < k
  }

  /** The summary of ts: block j pools the trades of block j, and all blocks together pool ts. */
  ghost predicate Binned(out: seq<Block>, ts: seq<Trade>, days: nat, k: nat)
    requires days > 0
  {
    |out| == k && Total(out) == Pool(ts) && forall j :: 0 <= j < k ==> out[j] == Pool(InBlock(ts, days, j))
  }

  /** The counts beside a summary; arms are the complement and the subset. */
  datatype Counts = Counts(arms: (nat, nat), bothBlocks: nat, unknown: nat, incomplete: nat, eligible: bool)

  /** One pass over the trades; every block of the span appears, the empty ones included. A cohort
      is eligible with 20 trades an arm, 60 in all, and 12 blocks that hold both arms. */
  method Summaries(ts: seq<Trade>, days: nat, k: nat) returns (out: seq<Block>, counts: Counts)
    requires days > 0 && Fits(ts, days, k)
    ensures |out| == k
    ensures forall j :: 0 <= j < k ==> out[j] == Pool(InBlock(ts, days, j))
    ensures Total(out) == Pool(ts)
    ensures counts.arms.0 + counts.arms.1 + counts.unknown + counts.incomplete == |ts|
    ensures counts.arms.0 == Count(ts, (t: Trade) => t.complete && t.arm.Complement?)
    ensures counts.arms.1 == Count(ts, (t: Trade) => t.complete && t.arm.Subset?)
    ensures counts.unknown == Count(ts, (t: Trade) => t.complete && t.arm.Unknown?)
    ensures counts.bothBlocks == |set j | 0 <= j < k && out[j].Both()|
    ensures counts.eligible <==> (counts.arms.0 >= 20 && counts.arms.1 >= 20
      && counts.arms.0 + counts.arms.1 >= 60 && counts.bothBlocks >= 12)
  {
    out := Bin(ts, days, k);
    counts := CountTrades(ts, out);
  }

  method Bin(ts: seq<Trade>, days: nat, k: nat) returns (out: seq<Block>)
    requires days > 0 && Fits(ts, days, k)
    ensures |out| == k && Total(out) == Pool(ts)
    ensures forall j :: 0 <= j < k ==> out[j] == Pool(InBlock(ts, days, j))
  {
    out := seq(k, _ => EMPTY);
    TotalEmpty(out);
    var i := 0;
    while i < |ts|
      invariant 0 <= i <= |ts| && Binned(out, ts[..i], days, k)
    {
      hide *;
      assert ts[..i + 1] == ts[..i] + [ts[i]];
      BinStep(out, ts, i, days, k);
      if Counted(ts[i]) {
        var b := BlockOf(ts[i], days);
        out := out[b := out[b].Put(ts[i])];
      }
      i := i + 1;
    }
    assert ts[..i] == ts;
  }

  method CountTrades(ts: seq<Trade>, out: seq<Block>) returns (counts: Counts)
    requires Total(out) == Pool(ts)
    ensures counts.arms == (Pool(ts).complement.n, Pool(ts).subset.n)
    ensures counts.arms.0 + counts.arms.1 + counts.unknown + counts.incomplete == |ts|
    ensures counts.arms.0 == Count(ts, (t: Trade) => t.complete && t.arm.Complement?)
    ensures counts.arms.1 == Count(ts, (t: Trade) => t.complete && t.arm.Subset?)
    ensures counts.unknown == Count(ts, (t: Trade) => t.complete && t.arm.Unknown?)
    ensures counts.bothBlocks == |set j | 0 <= j < |out| && out[j].Both()|
    ensures counts.eligible <==> (counts.arms.0 >= 20 && counts.arms.1 >= 20
      && counts.arms.0 + counts.arms.1 >= 60 && counts.bothBlocks >= 12)
  {
    var arms := (Total(out).complement.n, Total(out).subset.n);
    var both := BothBlocks(out);
    BothBlocksCounted(out);
    TradesConserved(ts);
    hide Pool, Count, Total;
    counts := Counts(arms, both,
      Count(ts, (t: Trade) => t.complete && t.arm.Unknown?), Count(ts, (t: Trade) => !t.complete),
      arms.0 >= 20 && arms.1 >= 20 && arms.0 + arms.1 >= 60 && both >= 12);
  }

  lemma BinStep(out: seq<Block>, ts: seq<Trade>, i: nat, days: nat, k: nat)
    requires days > 0 && Fits(ts, days, k) && i < |ts| && Binned(out, ts[..i], days, k)
    ensures if Counted(ts[i])
      then 0 <= BlockOf(ts[i], days) < |out|
        && Binned(out[BlockOf(ts[i], days) := out[BlockOf(ts[i], days)].Put(ts[i])], ts[..i] + [ts[i]], days, k)
      else Binned(out, ts[..i] + [ts[i]], days, k)
  {
    hide Pool, InBlock, Total, BlockOf, Block.Put, Counted;
    var t := ts[i];
    PoolPush(ts[..i], t);
    forall j | 0 <= j < k
      ensures Pool(InBlock(ts[..i] + [t], days, j))
           == if Counted(t) && BlockOf(t, days) == j then out[j].Put(t) else out[j]
    {
      InBlockPush(ts[..i], t, days, j);
      PoolPush(InBlock(ts[..i], days, j), t);
    }
    if Counted(t) { TotalPut(out, BlockOf(t, days), t); }
  }

  lemma InBlockPush(ts: seq<Trade>, t: Trade, days: nat, j: int)
    requires days > 0
    ensures InBlock(ts + [t], days, j)
         == if BlockOf(t, days) == j then InBlock(ts, days, j) + [t] else InBlock(ts, days, j)
  {
    assert (ts + [t])[..|ts|] == ts;
  }

  lemma PoolPush(ts: seq<Trade>, t: Trade)
    ensures Pool(ts + [t]) == if Counted(t) then Pool(ts).Put(t) else Pool(ts)
  {
    assert (ts + [t])[..|ts|] == ts;
  }

  lemma {:induction false} TotalEmpty(bs: seq<Block>)
    requires forall j :: 0 <= j < |bs| ==> bs[j] == EMPTY
    ensures Total(bs) == EMPTY
  {
    if bs != [] { TotalEmpty(bs[..|bs| - 1]); }
  }

  lemma {:induction false} TotalPut(bs: seq<Block>, b: nat, t: Trade)
    requires b < |bs|
    ensures Total(bs[b := bs[b].Put(t)]) == Total(bs).Put(t)
  {
    var n := |bs| - 1;
    var cs := bs[b := bs[b].Put(t)];
    if b < n {
      TotalPut(bs[..n], b, t);
      assert cs[..n] == bs[..n][b := bs[b].Put(t)];
    } else {
      assert cs[..n] == bs[..n];
    }
  }

  // ---------------------------------------------------------------- counts

  function Count(ts: seq<Trade>, p: Trade -> bool): nat {
    if ts == [] then 0 else Count(ts[..|ts| - 1], p) + (if p(ts[|ts| - 1]) then 1 else 0)
  }

  /** Every trade is in exactly one of the two arms, unknown, or incomplete. */
  lemma {:induction false} TradesConserved(ts: seq<Trade>)
    ensures Pool(ts).complement.n + Pool(ts).subset.n
          + Count(ts, (t: Trade) => t.complete && t.arm.Unknown?) + Count(ts, (t: Trade) => !t.complete) == |ts|
    ensures Pool(ts).complement.n == Count(ts, (t: Trade) => t.complete && t.arm.Complement?)
    ensures Pool(ts).subset.n == Count(ts, (t: Trade) => t.complete && t.arm.Subset?)
  {
    if ts != [] { TradesConserved(ts[..|ts| - 1]); }
  }

  function BothBlocks(bs: seq<Block>): nat {
    if bs == [] then 0 else BothBlocks(bs[..|bs| - 1]) + (if bs[|bs| - 1].Both() then 1 else 0)
  }

  lemma {:induction false} BothBlocksCounted(bs: seq<Block>)
    ensures BothBlocks(bs) == |set j | 0 <= j < |bs| && bs[j].Both()|
  {
    if bs != [] {
      var n := |bs| - 1;
      BothBlocksCounted(bs[..n]);
      var before, all := (set j | 0 <= j < n && bs[..n][j].Both()), (set j | 0 <= j < |bs| && bs[j].Both());
      assert all == if bs[n].Both() then before + {n} else before;
    }
  }

  // ---------------------------------------------------------------- pooled variance

  /** Moments of a list of outcomes. */
  function Of(rs: seq<real>): Moments {
    if rs == [] then ZERO else Of(rs[..|rs| - 1]).Add(rs[|rs| - 1])
  }

  /** Sum of squared distances of the outcomes from c. */
  function Spread(rs: seq<real>, c: real): real {
    if rs == [] then 0.0 else Spread(rs[..|rs| - 1], c) + Square(rs[|rs| - 1] - c)
  }

  ghost predicate Constant(rs: seq<real>, c: real) {
    forall i :: 0 <= i < |rs| ==> rs[i] == c
  }

  lemma {:induction false} SpreadSign(rs: seq<real>, c: real)
    ensures Spread(rs, c) >= 0.0
    ensures Spread(rs, c) == 0.0 <==> Constant(rs, c)
  {
    if rs != [] {
      var n := |rs| - 1;
      SpreadSign(rs[..n], c);
      SquareSign(rs[n] - c, Square(rs[n] - c));
      assert Constant(rs, c) <==> Constant(rs[..n], c) && rs[n] == c;
    }
  }

  /** squares - 2 c total + n c^2. */
  lemma {:induction false} SpreadMoments(rs: seq<real>, c: real)
    ensures Spread(rs, c) == Of(rs).squares - 2.0 * Times(c, Of(rs).total) + Times(Of(rs).n as real, Square(c))
    ensures Of(rs).n == |rs|
  {
    if rs == [] {
      assert Times(c, 0.0) == 0.0 && Times(0.0, Square(c)) == 0.0;
    } else {
      hide Times, Square;
      var n := |rs| - 1;
      SpreadMoments(rs[..n], c);
      SpreadStep(c, rs[n], Of(rs[..n]).total, n as real);
    }
  }

  lemma SpreadStep(c: real, r: real, t: real, n: real)
    ensures Times(c, t + r) == Times(c, t) + c * r
    ensures Times(n + 1.0, Square(c)) == Times(n, Square(c)) + Square(c)
    ensures Square(r - c) == Square(r) - 2.0 * (c * r) + Square(c)
  {
  }

  /** The pooled variance the code computes from the summary. */
  function Pooled(m: Moments): real
    requires m.n > 0
  {
    m.squares / m.n as real - Square(m.total / m.n as real)
  }

  lemma OutcomeVariance(rs: seq<real>)
    requires rs != []
    ensures Of(rs).n == |rs| && Pooled(Of(rs)) >= 0.0
    ensures Pooled(Of(rs)) == 0.0 <==> Constant(rs, rs[0])
  {
    hide Times, Square, Spread;
    var m, c := Of(rs), Of(rs).total / |rs| as real;
    SpreadMoments(rs, c);
    SpreadSign(rs, c);
    MeanSpread(m.squares, m.total, |rs| as real, c, Spread(rs, c));
    if Constant(rs, rs[0]) { EqualMean(rs, rs[0]); TimesOver(rs[0], |rs| as real); }
  }

  /** The outcomes that enter a summary. */
  function Outcomes(ts: seq<Trade>): seq<real> {
    if ts == [] then []
    else
      var rest, t := Outcomes(ts[..|ts| - 1]), ts[|ts| - 1];
      if Counted(t) then rest + [t.r] else rest
  }

  lemma {:induction false} PoolOutcomes(ts: seq<Trade>)
    ensures Pool(ts).complement.Plus(Pool(ts).subset) == Of(Outcomes(ts))
  {
    if ts != [] {
      var n := |ts| - 1;
      PoolOutcomes(ts[..n]);
      var rest, t := Outcomes(ts[..n]), ts[n];
      if Counted(t) { assert (rest + [t.r])[..|rest|] == rest; }
    }
  }

  /** All trades that count have the outcome c. */
  ghost predicate Alike(ts: seq<Trade>, c: real) {
    forall t <- ts :: Counted(t) ==> t.r == c
  }

  lemma {:induction false} OutcomesAre(ts: seq<Trade>, c: real)
    ensures Constant(Outcomes(ts), c) <==> Alike(ts, c)
  {
    if ts != [] {
      var n := |ts| - 1;
      OutcomesAre(ts[..n], c);
      var rest, t := Outcomes(ts[..n]), ts[n];
      assert ts == ts[..n] + [t];
      if Counted(t) {
        assert Constant(rest + [t.r], c) <==> Constant(rest, c) && t.r == c by { ConstantPush(rest, t.r, c); }
      }
    }
  }

  lemma ConstantPush(rs: seq<real>, r: real, c: real)
    ensures Constant(rs + [r], c) <==> Constant(rs, c) && r == c
  {
    assert (rs + [r])[|rs|] == r;
    assert forall i :: 0 <= i < |rs| ==> (rs + [r])[i] == rs[i];
  }

  /** The pooled variance that the code takes from the two summed arms is never negative, and is
      zero exactly when all trades that count have the same outcome. */
  lemma PooledVariance(ts: seq<Trade>)
    requires Pool(ts).complement.n + Pool(ts).subset.n > 0
    ensures var all := Pool(ts).complement.Plus(Pool(ts).subset);
      && Pooled(all) >= 0.0
      && (Pooled(all) == 0.0 <==> exists c :: Alike(ts, c))
  {
    hide Pooled, Pool, Outcomes, Constant;
    PoolOutcomes(ts);
    var rs := Outcomes(ts);
    SpreadMoments(rs, 0.0);
    OutcomeVariance(rs);
    OutcomesAre(ts, rs[0]);
    forall c | Alike(ts, c) ensures Constant(rs, rs[0]) {
      OutcomesAre(ts, c);
      ConstantHead(rs, c);
    }
  }

  lemma ConstantHead(rs: seq<real>, c: real)
    requires rs != [] && Constant(rs, c)
    ensures rs[0] == c
  {
  }

  lemma TimesOver(c: real, n: real)
    requires n != 0.0
    ensures Times(c, n) / n == c
  {
  }

  lemma {:induction false} EqualMean(rs: seq<real>, c: real)
    requires Constant(rs, c)
    ensures Of(rs).total == Times(c, |rs| as real)
  {
    if rs == [] { assert Times(c, 0.0) == 0.0; }
    else {
      EqualMean(rs[..|rs| - 1], c);
      assert Times(c, |rs| as real) == Times(c, (|rs| - 1) as real) + c;
    }
  }

  lemma MeanSpread(q: real, t: real, n: real, c: real, s: real)
    requires n > 0.0 && c == t / n
    requires s == q - 2.0 * Times(c, t) + Times(n, Square(c))
    ensures q / n - Square(c) == s / n
    ensures s >= 0.0 ==> s / n >= 0.0
    ensures s / n == 0.0 <==> s == 0.0
  {
    hide Spread;
    assert t == c * n;
    assert Times(c, t) == n * Square(c);
    assert s == q - n * Square(c);
    assert (q - n * Square(c)) / n == q / n - Square(c);
  }

  // ---------------------------------------------------------------- influences

  /** The influence of one arm of one block on the arm's mean. */
  function Influence(m: Moments, all: Moments): real
    requires all.n > 0
  {
    (m.total - m.n as real * (all.total / all.n as real)) / all.n as real
  }

  /** Paired influences of the blocks on the difference of the two arm means. */
  function Paired(bs: seq<Block>, all: Block): seq<real>
    requires all.Both()
    ensures |Paired(bs, all)| == |bs|
  {
    if bs == [] then []
    else
      var b := bs[|bs| - 1];
      Paired(bs[..|bs| - 1], all) + [Influence(b.subset, all.subset) - Influence(b.complement, all.complement)]
  }

  function Sum(x: seq<real>): real {
    if x == [] then 0.0 else Sum(x[..|x| - 1]) + x[|x| - 1]
  }

  lemma InfluenceAdds(a: Moments, b: Moments, all: Moments)
    requires all.n > 0
    ensures Influence(a.Plus(b), all) == Influence(a, all) + Influence(b, all)
  {
    var m, n := all.total / all.n as real, all.n as real;
    assert (a.n + b.n) as real * m == a.n as real * m + b.n as real * m;
    var x, y := a.total - a.n as real * m, b.total - b.n as real * m;
    assert (x + y) / n == x / n + y / n;
  }

  lemma {:induction false} PairedSum(bs: seq<Block>, all: Block)
    requires all.Both()
    ensures Sum(Paired(bs, all))
         == Influence(Total(bs).subset, all.subset) - Influence(Total(bs).complement, all.complement)
  {
    if bs == [] {
      InfluenceOfNone(all.subset);
      InfluenceOfNone(all.complement);
    } else {
      hide Influence;
      var n := |bs| - 1;
      PairedSum(bs[..n], all);
      var p := Paired(bs, all);
      assert p[..n] == Paired(bs[..n], all);
      InfluenceAdds(Total(bs[..n]).subset, bs[n].subset, all.subset);
      InfluenceAdds(Total(bs[..n]).complement, bs[n].complement, all.complement);
    }
  }

  lemma InfluenceOfNone(all: Moments)
    requires all.n > 0
    ensures Influence(ZERO, all) == 0.0
  {
    assert 0.0 * (all.total / all.n as real) == 0.0;
  }

  lemma InfluenceOfAll(all: Moments)
    requires all.n > 0
    ensures Influence(all, all) == 0.0
  {
    assert all.n as real * (all.total / all.n as real) == all.total;
  }

  /** The influences of all blocks cancel. */
  lemma InfluencesCancel(bs: seq<Block>)
    requires Total(bs).Both()
    ensures Sum(Paired(bs, Total(bs))) == 0.0
  {
    PairedSum(bs, Total(bs));
    InfluenceOfAll(Total(bs).subset);
    InfluenceOfAll(Total(bs).complement);
  }

  // ---------------------------------------------------------------- the studentized variance

  function Scale(k: nat): real {
    k as real / (if k - 1 > 1 then k - 1 else 1) as real
  }

  /** The squared standard error of the difference of the arm means. */
  function VarianceOf(bs: seq<Block>, runBlocks: real): real
    requires runBlocks >= 1.0 && Total(bs).Both()
  {
    Times(Scale(|bs|), HacVariance.Form(Paired(bs, Total(bs)), HacVariance.Bartlett(runBlocks)))
  }

  method Variance(bs: seq<Block>, runBlocks: real) returns (variance: real)
    requires runBlocks >= 1.0 && Total(bs).Both()
    ensures variance == VarianceOf(bs, runBlocks)
    ensures variance >= 0.0
    ensures variance == 0.0 <==> HacVariance.AllZero(Paired(bs, Total(bs)))
    ensures |bs| > 1 && runBlocks == 1.0 ==>
      variance == |bs| as real / (|bs| - 1) as real * SquaredDifferences(bs, Total(bs))
  {
    var paired := Paired(bs, Total(bs));
    var quadratic := HacVariance.Quadratic(paired, runBlocks);
    HacVariance.BartlettDefinite(paired, runBlocks);
    variance := Times(Scale(|bs|), quadratic);
    ScaleSign(|bs|);
    ProductSign(Scale(|bs|), quadratic, variance);
    if |bs| > 1 && runBlocks == 1.0 { VarianceAtOne(bs); }
    hide Times, Scale, Paired, HacVariance.Form, HacVariance.AllZero;
  }

  /** The sum over the blocks of the squared difference of what the two arms of the block add to
      their means: the block's outcomes less its trades times the mean, over all trades of the arm. */
  function SquaredDifferences(bs: seq<Block>, all: Block): real
    requires all.Both()
  {
    if bs == [] then 0.0
    else
      var a, b := bs[|bs| - 1].complement, bs[|bs| - 1].subset;
      var x := (a.total - a.n as real * (all.complement.total / all.complement.n as real)) / all.complement.n as real;
      var y := (b.total - b.n as real * (all.subset.total / all.subset.n as real)) / all.subset.n as real;
      SquaredDifferences(bs[..|bs| - 1], all) + (y - x) * (y - x)
  }

  lemma VarianceAtOne(bs: seq<Block>)
    requires Total(bs).Both() && |bs| > 1
    ensures VarianceOf(bs, 1.0) == |bs| as real / (|bs| - 1) as real * SquaredDifferences(bs, Total(bs))
  {
    hide *;
    VarianceParts(bs, 1.0);
    FormAtOne(bs, Total(bs));
    ScaledIs(|bs|, SquaredDifferences(bs, Total(bs)));
  }

  lemma VarianceParts(bs: seq<Block>, runBlocks: real)
    requires runBlocks >= 1.0 && Total(bs).Both()
    ensures VarianceOf(bs, runBlocks)
         == Times(Scale(|bs|), HacVariance.Form(Paired(bs, Total(bs)), HacVariance.Bartlett(runBlocks)))
  {
    hide HacVariance.Form, HacVariance.Bartlett, Paired, Scale, Total, Times;
  }

  lemma ScaledIs(k: nat, d: real)
    requires k > 1
    ensures Times(Scale(k), d) == k as real / (k - 1) as real * d
  {
  }

  /** With a bandwidth of one block nothing but the squares is left of the form. */
  lemma {:induction false} FormAtOne(bs: seq<Block>, all: Block)
    requires all.Both()
    ensures HacVariance.Form(Paired(bs, all), HacVariance.Bartlett(1.0)) == SquaredDifferences(bs, all)
  {
    if bs != [] {
      var n := |bs| - 1;
      FormAtOne(bs[..n], all);
      var p := Paired(bs, all);
      assert p[..n] == Paired(bs[..n], all);
      RowAtOne(p[..n], n);
      LastSquare(HacVariance.Form(p[..n], HacVariance.Bartlett(1.0)), p[n]);
    }
  }

  lemma {:induction false} RowAtOne(x: seq<real>, at: nat)
    requires |x| <= at
    ensures HacVariance.Row(x, HacVariance.Bartlett(1.0), at) == 0.0
  {
    if x != [] { RowAtOne(x[..|x| - 1], at); }
  }

  lemma LastSquare(form: real, v: real)
    ensures HacVariance.Border(form, 1.0, v, 0.0) == form + v * v
  {
  }

  lemma ScaleSign(k: nat)
    requires k > 0
    ensures Scale(k) > 0.0
  {
  }

  // ---------------------------------------------------------------- units and copies

  function InUnits(c: real, m: Moments): Moments { Moments(m.n, c * m.total, c * c * m.squares) }

  /** The blocks with every outcome multiplied by c. */
  function Rescaled(c: real, bs: seq<Block>): seq<Block> {
    if bs == [] then []
    else
      var b := bs[|bs| - 1];
      Rescaled(c, bs[..|bs| - 1]) + [Block(InUnits(c, b.complement), InUnits(c, b.subset))]
  }

  function Copies(m: nat, a: Moments): Moments { Moments(m * a.n, m as real * a.total, m as real * a.squares) }

  /** The blocks with every trade repeated m times. */
  function Repeated(m: nat, bs: seq<Block>): seq<Block> {
    if bs == [] then []
    else
      var b := bs[|bs| - 1];
      Repeated(m, bs[..|bs| - 1]) + [Block(Copies(m, b.complement), Copies(m, b.subset))]
  }

  lemma {:induction false} TotalRescaled(c: real, bs: seq<Block>)
    ensures |Rescaled(c, bs)| == |bs|
    ensures Total(Rescaled(c, bs)) == Block(InUnits(c, Total(bs).complement), InUnits(c, Total(bs).subset))
  {
    if bs != [] {
      var n := |bs| - 1;
      TotalRescaled(c, bs[..n]);
      UnitsAdd(c, Total(bs[..n]).complement, bs[n].complement);
      UnitsAdd(c, Total(bs[..n]).subset, bs[n].subset);
      hide InUnits;
      assert Rescaled(c, bs)[..n] == Rescaled(c, bs[..n]);
    } else {
      assert c * 0.0 == 0.0 && c * c * 0.0 == 0.0;
    }
  }

  lemma UnitsAdd(c: real, a: Moments, b: Moments)
    ensures InUnits(c, a.Plus(b)) == InUnits(c, a).Plus(InUnits(c, b))
  {
    var d := c * c;
    assert d * (a.squares + b.squares) == d * a.squares + d * b.squares;
    assert c * (a.total + b.total) == c * a.total + c * b.total;
  }

  lemma {:induction false} TotalRepeated(m: nat, bs: seq<Block>)
    ensures |Repeated(m, bs)| == |bs|
    ensures Total(Repeated(m, bs)) == Block(Copies(m, Total(bs).complement), Copies(m, Total(bs).subset))
  {
    if bs != [] {
      var n := |bs| - 1;
      TotalRepeated(m, bs[..n]);
      CopiesAdd(m, Total(bs[..n]).complement, bs[n].complement);
      CopiesAdd(m, Total(bs[..n]).subset, bs[n].subset);
      hide Copies;
      assert Repeated(m, bs)[..n] == Repeated(m, bs[..n]);
    }
  }

  lemma CopiesAdd(m: nat, a: Moments, b: Moments)
    ensures Copies(m, a.Plus(b)) == Copies(m, a).Plus(Copies(m, b))
  {
    var d := m as real;
    assert m * (a.n + b.n) == m * a.n + m * b.n;
    assert d * (a.squares + b.squares) == d * a.squares + d * b.squares;
    assert d * (a.total + b.total) == d * a.total + d * b.total;
  }

  lemma InfluenceInUnits(c: real, a: Moments, all: Moments)
    requires all.n > 0
    ensures Influence(InUnits(c, a), InUnits(c, all)) == c * Influence(a, all)
  {
    var n, mean := all.n as real, all.total / all.n as real;
    assert (c * all.total) / n == c * mean;
    assert a.n as real * (c * mean) == c * (a.n as real * mean);
    var d := a.total - a.n as real * mean;
    assert c * a.total - c * (a.n as real * mean) == c * d;
    assert (c * d) / n == c * (d / n);
  }

  lemma InfluenceOfCopies(m: nat, a: Moments, all: Moments)
    requires all.n > 0 && m > 0
    ensures Copies(m, all).n > 0
    ensures Influence(Copies(m, a), Copies(m, all)) == Influence(a, all)
  {
    var k, n, mean := m as real, all.n as real, all.total / all.n as real;
    assert Copies(m, all).n as real == k * n;
    Cancel(k, all.total, n);
    assert (m * a.n) as real == k * a.n as real;
    assert (k * a.n as real) * mean == k * (a.n as real * mean);
    var d := a.total - a.n as real * mean;
    assert k * a.total - k * (a.n as real * mean) == k * d;
    Cancel(k, d, n);
  }

  lemma Cancel(k: real, x: real, n: real)
    requires k > 0.0 && n > 0.0
    ensures k * n > 0.0 && (k * x) / (k * n) == x / n
  {
    ProductSign(k, n, k * n);
    var q := x / n;
    assert k * x == q * (k * n);
  }

  lemma {:induction false} PairedRescaled(c: real, bs: seq<Block>, all: Block)
    requires all.Both()
    ensures var p := Paired(Rescaled(c, bs), Block(InUnits(c, all.complement), InUnits(c, all.subset)));
      var q := Paired(bs, all);
      |q| == |p| && forall i :: 0 <= i < |p| ==> p[i] == Times(c, q[i])
  {
    if bs != [] {
      var n := |bs| - 1;
      PairedRescaled(c, bs[..n], all);
      assert Rescaled(c, bs)[..n] == Rescaled(c, bs[..n]);
      InfluenceInUnits(c, bs[n].subset, all.subset);
      InfluenceInUnits(c, bs[n].complement, all.complement);
      Difference(c, Influence(bs[n].subset, all.subset), Influence(bs[n].complement, all.complement));
      hide Influence, InUnits, Times;
    }
  }

  lemma Difference(c: real, x: real, y: real)
    ensures c * x - c * y == Times(c, x - y)
  {
  }

  lemma {:induction false} PairedRepeated(m: nat, bs: seq<Block>, all: Block)
    requires all.Both() && m > 0
    ensures Block(Copies(m, all.complement), Copies(m, all.subset)).Both()
    ensures Paired(Repeated(m, bs), Block(Copies(m, all.complement), Copies(m, all.subset))) == Paired(bs, all)
  {
    InfluenceOfCopies(m, all.subset, all.subset);
    InfluenceOfCopies(m, all.complement, all.complement);
    if bs != [] {
      var n := |bs| - 1;
      PairedRepeated(m, bs[..n], all);
      assert Repeated(m, bs)[..n] == Repeated(m, bs[..n]);
      InfluenceOfCopies(m, bs[n].subset, all.subset);
      InfluenceOfCopies(m, bs[n].complement, all.complement);
      hide Influence, Copies;
    }
  }

  lemma {:induction false} FormScales(c: real, p: seq<real>, q: seq<real>, w: HacVariance.Kernel)
    requires |p| == |q| && forall i :: 0 <= i < |p| ==> p[i] == Times(c, q[i])
    ensures HacVariance.Form(p, w) == Times(Times(c, c), HacVariance.Form(q, w))
  {
    if p == [] {
      assert Times(Times(c, c), 0.0) == 0.0;
    } else {
      hide Times, HacVariance.Border;
      var n := |p| - 1;
      FormScales(c, p[..n], q[..n], w);
      RowScales(c, p[..n], q[..n], w, n);
      BorderScales(c, HacVariance.Form(q[..n], w), w(0), q[n], HacVariance.Row(q[..n], w, n));
    }
  }

  lemma {:induction false} RowScales(c: real, p: seq<real>, q: seq<real>, w: HacVariance.Kernel, at: nat)
    requires |p| == |q| <= at && forall i :: 0 <= i < |p| ==> p[i] == Times(c, q[i])
    ensures HacVariance.Row(p, w, at) == Times(c, HacVariance.Row(q, w, at))
  {
    if p == [] {
      assert Times(c, 0.0) == 0.0;
    } else {
      hide Times;
      var n := |p| - 1;
      RowScales(c, p[..n], q[..n], w, at);
      TermScales(c, w(at - n), q[n], HacVariance.Row(q[..n], w, at));
    }
  }

  lemma TermScales(c: real, w: real, v: real, r: real)
    ensures Times(c, r) + Times(w, Times(c, v)) == Times(c, r + Times(w, v))
  {
    assert w * (c * v) == c * (w * v);
    assert c * (r + w * v) == c * r + c * (w * v);
  }

  lemma BorderScales(c: real, f: real, w: real, v: real, r: real)
    ensures HacVariance.Border(Times(Times(c, c), f), w, Times(c, v), Times(c, r))
         == Times(Times(c, c), HacVariance.Border(f, w, v, r))
  {
    var d := c * c;
    assert (c * v) * (c * v) == d * (v * v);
    assert (c * v) * (c * r) == d * (v * r);
    assert w * (d * (v * v)) == d * (w * (v * v));
    assert d * (f + w * (v * v) + 2.0 * (v * r)) == d * f + d * (w * (v * v)) + 2.0 * (d * (v * r));
  }

  /** Outcomes in other units: the variance is in their square. */
  lemma VarianceScales(c: real, bs: seq<Block>, runBlocks: real)
    requires runBlocks >= 1.0 && Total(bs).Both()
    ensures Total(Rescaled(c, bs)).Both()
    ensures VarianceOf(Rescaled(c, bs), runBlocks) == c * c * VarianceOf(bs, runBlocks)
  {
    hide *;
    var all, w := Total(bs), HacVariance.Bartlett(runBlocks);
    TotalRescaled(c, bs);
    InUnitsCounts(c, all);
    VarianceParts(bs, runBlocks);
    VarianceParts(Rescaled(c, bs), runBlocks);
    PairedRescaled(c, bs, all);
    FormScales(c, Paired(Rescaled(c, bs), Total(Rescaled(c, bs))), Paired(bs, all), w);
    Swap(Scale(|bs|), c, HacVariance.Form(Paired(bs, all), w));
  }

  lemma InUnitsCounts(c: real, all: Block)
    requires all.Both()
    ensures Block(InUnits(c, all.complement), InUnits(c, all.subset)).Both()
  {
  }

  lemma Swap(s: real, c: real, f: real)
    ensures Times(s, Times(Times(c, c), f)) == c * c * Times(s, f)
  {
    var d := c * c;
    assert s * (d * f) == d * (s * f);
  }

  /** Repeating every trade does not change it. */
  lemma VarianceOfCopies(m: nat, bs: seq<Block>, runBlocks: real)
    requires runBlocks >= 1.0 && Total(bs).Both() && m > 0
    ensures Total(Repeated(m, bs)).Both()
    ensures VarianceOf(Repeated(m, bs), runBlocks) == VarianceOf(bs, runBlocks)
  {
    TotalRepeated(m, bs);
    PairedRepeated(m, bs, Total(bs));
    hide Times, Scale, Paired, HacVariance.Form, HacVariance.Bartlett, Repeated, Total, Copies;
  }
}