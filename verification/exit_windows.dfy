/** What a replay keeps when the oldest bars fall out of the series: scans hold only the newest
    bars, so the same trade is replayed over later and later windows of its history. */
module ExitWindows {
  import opened RealArithmetic
  import opened Wrappers
  import opened ExitReplay

  // ---------------------------------------------------------------- the average true range

  /** The true range of a bar that has no bar before it. */
  function OwnRange(b: Bar): real { b.high - b.low }

  /** The bar at d opens with a gap: its true range reaches back to the close before it. */
  predicate Gapped(bars: seq<Bar>, d: nat)
    requires d < |bars|
  {
    TrueRange(bars, d) != OwnRange(bars[d])
  }

  lemma TrueRangeShift(bars: seq<Bar>, d: nat, j: nat)
    requires d + j < |bars|
    ensures j > 0 ==> TrueRange(bars[d..], j) == TrueRange(bars, d + j)
    ensures j == 0 ==> TrueRange(bars[d..], j) == OwnRange(bars[d])
  {
  }

  lemma {:induction false} RangeSumShift(bars: seq<Bar>, d: nat, lo: nat, hi: nat)
    requires d + hi <= |bars| && lo <= hi
    ensures RangeSum(bars[d..], lo, hi) == RangeSum(bars, d + lo, d + hi)
      + if lo == 0 < hi then OwnRange(bars[d]) - TrueRange(bars, d) else 0.0
  {
    if lo < hi {
      hide TrueRange, OwnRange;
      RangeSumShift(bars, d, lo, hi - 1);
      TrueRangeShift(bars, d, hi - 1);
    }
  }

  /** The ATR of a bar is that of the history when the window starts at least ATR_PERIOD bars before it. */
  lemma AtrShift(bars: seq<Bar>, d: nat, j: nat)
    requires d + j < |bars| && j >= ATR_PERIOD
    ensures Atr(bars[d..], j) == Atr(bars, d + j)
  {
    RangeSumShift(bars, d, j + 1 - ATR_PERIOD, j + 1);
  }

  /** When it starts just ATR_PERIOD - 1 bars before, the ATR falls short by what the gap of the
      first bar adds, and is kept exactly when there is no such gap. */
  lemma AtrEdge(bars: seq<Bar>, d: nat)
    requires d + ATR_PERIOD <= |bars|
    ensures var at := ATR_PERIOD - 1;
      && Atr(bars[d..], at).Some? && Atr(bars, d + at).Some?
      && Atr(bars[d..], at).value <= Atr(bars, d + at).value
      && (Atr(bars[d..], at) == Atr(bars, d + at) <==> !Gapped(bars, d))
  {
    RangeSumShift(bars, d, 0, ATR_PERIOD);
    hide RangeSum;
    assert TrueRange(bars, d) >= OwnRange(bars[d]);
  }

  // ---------------------------------------------------------------- the carried trade

  /** A state of a window as a state of the history, which has d more bars in front. */
  function Later(s: Carried, d: nat): Carried {
    s.(last := s.last + d, phase := if s.phase.Closed? then s.phase.(bar := s.phase.bar + d) else s.phase)
  }

  function LaterTrade(t: Trade, d: nat): Trade { t.(at := t.at + d) }

  lemma StepShift(t: Trade, d: nat, s: Carried, b: Bar, j: nat, atr: Option<real>)
    requires t.at < j
    ensures LaterTrade(t, d).Step(Later(s, d), b, j + d, atr) == Later(t.Step(s, b, j, atr), d)
  {
    hide Times, Abs, Max, Min, Usable;
  }

  lemma {:induction false} CarryShift(t: Trade, bars: seq<Bar>, d: nat, n: nat)
    requires n + d <= |bars| && t.at + 1 >= ATR_PERIOD
    ensures LaterTrade(t, d).Carry(bars, n + d) == Later(t.Carry(bars[d..], n), d)
  {
    if n > t.at + 1 {
      hide Trade.Step, Later, Atr;
      CarryShift(t, bars, d, n - 1);
      AtrShift(bars, d, n - 1);
      StepShift(t, d, t.Carry(bars[d..], n - 1), bars[d..][n - 1], n - 1, Atr(bars[d..], n - 1));
    }
  }

  lemma ReportShift(t: Trade, bars: seq<Bar>, d: nat, s: Carried)
    requires t.risk != 0.0 && t.at <= s.last && s.last + d < |bars| && (s.phase.Closed? ==> s.phase.bar == s.last)
    requires Atr(bars, t.at + d).Some? && Atr(bars[d..], t.at) == Atr(bars, t.at + d)
    requires Atr(bars[d..], s.last) == Atr(bars, s.last + d)
    ensures ReportOf(t, bars[d..], s) == ReportOf(LaterTrade(t, d), bars, Later(s, d))
  {
    hide Atr, Ratio;
    assert bars[d..][t.at..s.last + 1] == bars[t.at + d..s.last + d + 1];
  }

  /** The window gives the same replay as the history exactly when it starts at least ATR_PERIOD
      bars before the entry, or one bar less with no gap at its first bar. */
  lemma ReplayWindow(path: Path, side: Side, entry: real, bars: seq<Bar>, d: nat, at: nat, cfg: Config)
    requires d <= at < |bars| && Ready(bars, at, cfg) && Ready(bars[d..], at - d, cfg)
    ensures d + ATR_PERIOD <= at || d + ATR_PERIOD == at + 1
    ensures Replayed(path, side, entry, bars[d..], at - d, cfg) == Replayed(path, side, entry, bars, at, cfg)
       <==> d + ATR_PERIOD <= at || (d + ATR_PERIOD == at + 1 && !Gapped(bars, d))
  {
    assert at - d + 1 >= ATR_PERIOD;
    if d + ATR_PERIOD <= at { AtrShift(bars, d, at - d); } else { AtrEdge(bars, d); }
    hide Gapped, Atr, Replayed, ReportOf, RangeSum;
    if Atr(bars[d..], at - d) == Atr(bars, at) {
      SameAtrReplays(path, side, entry, bars, d, at, cfg);
    } else {
      EntryAtrReported(path, side, entry, bars, at, cfg);
      EntryAtrReported(path, side, entry, bars[d..], at - d, cfg);
    }
  }

  lemma EntryAtrReported(path: Path, side: Side, entry: real, bars: seq<Bar>, at: nat, cfg: Config)
    requires Ready(bars, at, cfg)
    ensures Some(Replayed(path, side, entry, bars, at, cfg).atrAtEntry) == Atr(bars, at)
  {
    hide Trade.Carry, Atr;
  }

  lemma SameAtrReplays(path: Path, side: Side, entry: real, bars: seq<Bar>, d: nat, at: nat, cfg: Config)
    requires d <= at < |bars| && Ready(bars, at, cfg) && Ready(bars[d..], at - d, cfg)
    requires Atr(bars[d..], at - d) == Atr(bars, at) && at - d + 1 >= ATR_PERIOD
    ensures Replayed(path, side, entry, bars[d..], at - d, cfg) == Replayed(path, side, entry, bars, at, cfg)
  {
    hide *;
    var t, u := TradeOf(path, side, entry, bars[d..], at - d, cfg), TradeOf(path, side, entry, bars, at, cfg);
    var n := |bars| - d;
    TradeShift(path, side, entry, bars, d, at, cfg);
    CarryInRange(t, bars[d..], n);
    var s := t.Carry(bars[d..], n);
    if s.last > at - d { AtrShift(bars, d, s.last); }
    CarryShift(t, bars, d, n);
    ReportShift(t, bars, d, s);
    ReplayedIs(path, side, entry, bars[d..], at - d, cfg);
    ReplayedIs(path, side, entry, bars, at, cfg);
  }

  lemma TradeShift(path: Path, side: Side, entry: real, bars: seq<Bar>, d: nat, at: nat, cfg: Config)
    requires d <= at < |bars| && Ready(bars, at, cfg) && Ready(bars[d..], at - d, cfg)
    requires Atr(bars[d..], at - d) == Atr(bars, at)
    ensures var t, u := TradeOf(path, side, entry, bars[d..], at - d, cfg), TradeOf(path, side, entry, bars, at, cfg);
      t.at == at - d && t.risk != 0.0 && u == LaterTrade(t, d) && Atr(bars, at).Some? && ATR_PERIOD > 1
  {
    hide Atr;
  }

  lemma ReplayedIs(path: Path, side: Side, entry: real, bars: seq<Bar>, at: nat, cfg: Config)
    requires Ready(bars, at, cfg)
    ensures (
      var t := TradeOf(path, side, entry, bars, at, cfg);
      CarryInRange(t, bars, |bars|);
      t.risk != 0.0 && t.at == at && Atr(bars, at).Some?
      && Replayed(path, side, entry, bars, at, cfg) == ReportOf(t, bars, t.Carry(bars, |bars|)))
  {
    hide Atr, Trade.Carry, ReportOf;
  }

  // ---------------------------------------------------------------- closed, and then slid

  /** A path that closed on the first n bars, replayed over a window with more bars behind and d
      fewer in front: the same report exactly when the window is clear of the edge; otherwise a
      different exit, unless the recorded one was at the entry price itself. */
  lemma ClosedThenSlid(path: Path, side: Side, entry: real, bars: seq<Bar>, n: nat, d: nat, at: nat, cfg: Config)
    requires d <= at < n <= |bars| && Ready(bars[..n], at, cfg) && Ready(bars[d..], at - d, cfg)
    requires Replayed(path, side, entry, bars[..n], at, cfg).closed
    ensures d + ATR_PERIOD <= at + 1
    ensures var was := Replayed(path, side, entry, bars[..n], at, cfg);
      var now := Replayed(path, side, entry, bars[d..], at - d, cfg);
      && (now == was <==> d + ATR_PERIOD <= at || !Gapped(bars, d))
      && (now == was <==> now.atrAtEntry == was.atrAtEntry)
      && (now != was && was.exitPrice != Some(entry) ==>
            d + ATR_PERIOD == at + 1 && (now.exitPrice != was.exitPrice || now.exitR != was.exitR))
  {
    hide *;
    var was := Replayed(path, side, entry, bars[..n], at, cfg);
    var now := Replayed(path, side, entry, bars[d..], at - d, cfg);
    ReplayCausal(path, side, entry, bars[..n], bars, at, cfg);
    ReplayWindow(path, side, entry, bars, d, at, cfg);
    EntryAtrReported(path, side, entry, bars, at, cfg);
    EntryAtrReported(path, side, entry, bars[d..], at - d, cfg);
    if now.atrAtEntry == was.atrAtEntry {
      IsReady(bars[d..], at - d, cfg);
      SameAtrReplays(path, side, entry, bars, d, at, cfg);
    } else if now.exitPrice == was.exitPrice && now.exitR == was.exitR {
      SameExitAtEntry(path, side, entry, bars, d, at, cfg);
    }
  }

  lemma IsReady(bars: seq<Bar>, at: nat, cfg: Config)
    requires Ready(bars, at, cfg)
    ensures at + 1 >= ATR_PERIOD
  {
  }

  /** Two entry ATRs give the same exit in price and in R only at the entry price. */
  lemma SameExitAtEntry(path: Path, side: Side, entry: real, bars: seq<Bar>, d: nat, at: nat, cfg: Config)
    requires d <= at < |bars| && Ready(bars, at, cfg) && Ready(bars[d..], at - d, cfg)
    requires var was := Replayed(path, side, entry, bars, at, cfg);
      var now := Replayed(path, side, entry, bars[d..], at - d, cfg);
      && was.closed && now.atrAtEntry != was.atrAtEntry
      && now.exitPrice == was.exitPrice && now.exitR == was.exitR
    ensures Replayed(path, side, entry, bars, at, cfg).exitPrice == Some(entry)
  {
    var was, now := Replayed(path, side, entry, bars, at, cfg), Replayed(path, side, entry, bars[d..], at - d, cfg);
    RiskFactor(bars, at, cfg);
    hide *;
    ExitInRisk(path, side, entry, bars, at, cfg);
    ClosedHasPrice(path, side, entry, bars[d..], at - d, cfg);
    ExitInRisk(path, side, entry, bars[d..], at - d, cfg);
    SameRatio(if side.Long? then was.exitPrice.value - entry else entry - was.exitPrice.value,
      was.atrAtEntry, now.atrAtEntry, cfg.initialStopAtr);
  }

  lemma RiskFactor(bars: seq<Bar>, at: nat, cfg: Config)
    requires Ready(bars, at, cfg)
    ensures cfg.initialStopAtr > 0.0
  {
    hide Atr;
  }

  lemma ClosedHasPrice(path: Path, side: Side, entry: real, bars: seq<Bar>, at: nat, cfg: Config)
    requires Ready(bars, at, cfg)
    ensures var r := Replayed(path, side, entry, bars, at, cfg); r.exitPrice.Some? <==> r.closed
  {
    hide Atr, Trade.Carry;
  }

  /** The exit in units of the risk that the entry ATR gives. */
  lemma ExitInRisk(path: Path, side: Side, entry: real, bars: seq<Bar>, at: nat, cfg: Config)
    requires Ready(bars, at, cfg) && Replayed(path, side, entry, bars, at, cfg).closed
    ensures var r := Replayed(path, side, entry, bars, at, cfg);
      && r.exitPrice.Some? && r.atrAtEntry > 0.0 && Times(r.atrAtEntry, cfg.initialStopAtr) > 0.0
      && r.exitR == Some(Ratio(
           if side.Long? then r.exitPrice.value - entry else entry - r.exitPrice.value,
           Times(r.atrAtEntry, cfg.initialStopAtr)))
  {
    var t := TradeOf(path, side, entry, bars, at, cfg);
    CarryInRange(t, bars, |bars|);
    hide Trade.Carry, Atr, Times, Ratio;
  }

  lemma SameRatio(v: real, a: real, b: real, k: real)
    requires a > 0.0 && b > 0.0 && a != b && k > 0.0 && Times(a, k) > 0.0 && Times(b, k) > 0.0
    requires Ratio(v, Times(a, k)) == Ratio(v, Times(b, k))
    ensures v == 0.0
  {
    var x, y, q := Times(a, k), Times(b, k), Ratio(v, Times(a, k));
    assert v == q * x && v == q * y;
    ProductSign(q, x - y, q * (x - y));
    ProductSign(a - b, k, (a - b) * k);
    assert x - y == (a - b) * k;
  }

  /** A path that was stopped out at its initial stop has another exit over a window that starts
      ATR_PERIOD - 1 bars before the entry at a gapped bar. */
  lemma EdgeMismatch(path: Path, side: Side, entry: real, bars: seq<Bar>, n: nat, d: nat, at: nat, cfg: Config)
    requires d + ATR_PERIOD == at + 1 && at < n <= |bars| && Gapped(bars, d)
    requires Ready(bars[..n], at, cfg) && Ready(bars[d..], at - d, cfg)
    requires var was := Replayed(path, side, entry, bars[..n], at, cfg);
      was.closed && was.exitPrice == Some(was.initialStop)
    ensures var was := Replayed(path, side, entry, bars[..n], at, cfg);
      var now := Replayed(path, side, entry, bars[d..], at - d, cfg);
      now.exitPrice != was.exitPrice || now.exitR != was.exitR
  {
    ClosedThenSlid(path, side, entry, bars, n, d, at, cfg);
    hide Trade.Carry, Atr, Times, Gapped;
  }
}
