/** What a replay reports, stated on the bars: the running extreme, the level that it puts the stop
    at, and the first bar that ends the trade. */
module ExitLevels {
  import opened RealArithmetic
  import opened Wrappers
  import opened ExitReplay

  // ---------------------------------------------------------------- on the bars

  /** The trade as it is given: nothing here is carried from bar to bar. */
  datatype Case = Case(path: Path, side: Side, entry: real, bars: seq<Bar>, at: nat, cfg: Config) {
    predicate Given() { at < |bars| && Usable(Atr(bars, at)) && cfg.initialStopAtr > 0.0 }

    function Risk(): real
      requires Given()
    {
      Atr(bars, at).value * cfg.initialStopAtr
    }

    /** v for a long trade, -v for a short one. */
    function Favour(v: real): real { if side == Long then v else 0.0 - v }

    /** x is at least as good as y for the trade. */
    predicate AtLeast(x: real, y: real) { Favour(x) >= Favour(y) }

    /** The price reached in the trade's favour on bar i. */
    function Reach(i: nat): real
      requires i < |bars|
    {
      if side == Long then bars[i].high else bars[i].low
    }

    /** x is the best of the entry and the prices reached behind it up to bar i. */
    ghost predicate IsPeak(i: nat, x: real)
      requires i < |bars|
    {
      && AtLeast(x, entry) && (forall j :: at < j <= i ==> AtLeast(x, Reach(j)))
      && (x == entry || exists j :: at < j <= i && x == Reach(j))
    }

    /** A peak of at least armR risks from the entry arms the stop. */
    predicate ArmedBy(x: real)
      requires Given()
    {
      Favour(x - entry) >= cfg.armR * Risk()
    }

    ghost predicate ArmedOn(i: nat)
      requires Given() && i < |bars|
    {
      exists x :: IsPeak(i, x) && ArmedBy(x)
    }

    /** Where a peak x on bar i puts the stop: path A a multiple of that bar's ATR behind the peak,
        path B at a share of the way to it. */
    function Level(i: nat, x: real): real
      requires i < |bars|
    {
      if path == Giveback then entry + cfg.retained * (x - entry)
      else x - Favour(cfg.trailAtr * (if Atr(bars, i).Some? then Atr(bars, i).value else 0.0))
    }

    ghost predicate IsLevel(i: nat, y: real)
      requires Given() && i < |bars|
    {
      exists x :: IsPeak(i, x) && ArmedBy(x) && y == Level(i, x)
    }

    function FirstStop(): real
      requires Given()
    {
      entry - Favour(Risk())
    }

    /** y is the tightest of the initial stop and the levels of the arming bars up to bar i. */
    ghost predicate IsStop(i: nat, y: real)
      requires Given() && i < |bars|
    {
      && AtLeast(y, FirstStop()) && (forall j, l :: at < j <= i && IsLevel(j, l) ==> AtLeast(y, l))
      && (y == FirstStop() || exists j :: at < j <= i && IsLevel(j, y))
    }

    /** Bar i reaches the stop that stands on it. */
    ghost predicate StopsOn(i: nat)
      requires Given() && i < |bars|
    {
      exists y :: IsStop(i, y) && if side == Long then bars[i].low <= y else bars[i].high >= y
    }

    /** Path A cannot place its stop on bar i for want of an ATR. */
    ghost predicate Stuck(i: nat)
      requires Given() && i < |bars|
    {
      path == Control && ArmedOn(i) && !Usable(Atr(bars, i))
    }
  }

  // ---------------------------------------------------------------- uniqueness

  lemma OnePeak(c: Case, i: nat, x: real, y: real)
    requires i < |c.bars| && c.IsPeak(i, x) && c.IsPeak(i, y)
    ensures x == y
  {
  }

  lemma OneLevel(c: Case, i: nat, x: real)
    requires c.Given() && i < |c.bars| && c.IsPeak(i, x)
    ensures forall y :: c.IsLevel(i, y) <==> c.ArmedBy(x) && y == c.Level(i, x)
    ensures c.ArmedOn(i) <==> c.ArmedBy(x)
  {
    hide Case.IsPeak, Case.ArmedBy, Case.Level;
    forall z | c.IsPeak(i, z) ensures z == x { OnePeak(c, i, x, z); }
  }

  lemma OneStop(c: Case, i: nat, x: real, y: real)
    requires c.Given() && i < |c.bars| && c.IsStop(i, x) && c.IsStop(i, y)
    ensures x == y
  {
    hide Case.IsLevel, Case.FirstStop;
  }

  // ---------------------------------------------------------------- what is carried

  function TradeIn(c: Case): Trade
    requires c.Given()
  {
    Trade(c.path, c.side, c.entry, c.at, c.Risk(), c.cfg)
  }

  /** The bars up to last were evaluated and did not end the trade. */
  ghost predicate Quiet(c: Case, last: nat)
    requires c.Given() && last < |c.bars|
  {
    && (forall j :: c.at < j < last ==> !c.StopsOn(j))
    && (forall j :: c.at < j <= last ==> !c.Stuck(j))
    && (last == c.at || last - c.at <= c.cfg.maxBars)
  }

  /** When the stop was first armed. */
  ghost predicate FirstArmed(c: Case, last: nat, armedAt: Option<int>)
    requires c.Given() && last < |c.bars|
  {
    match armedAt
    case None => forall j :: c.at < j <= last ==> !c.ArmedOn(j)
    case Some(ms) => exists j :: c.at < j <= last && IsFirst(c, j) && ms == c.bars[j].openMs
  }

  ghost predicate IsFirst(c: Case, j: nat)
    requires c.Given() && j < |c.bars|
  {
    c.ArmedOn(j) && forall i :: c.at < i < j ==> !c.ArmedOn(i)
  }

  ghost predicate Follows(c: Case, n: nat, s: Carried)
    requires c.Given() && c.at < n <= |c.bars|
  {
    && c.at <= s.last < n && Quiet(c, s.last) && c.IsStop(s.last, s.stop) && FirstArmed(c, s.last, s.armedAt)
    && match s.phase
       case Running =>
         && c.IsPeak(s.last, s.best) && (s.last > c.at ==> !c.StopsOn(s.last) && s.last - c.at < c.cfg.maxBars)
         && (s.last == n - 1 || s.last - c.at >= c.cfg.maxBars)
       case Truncated(ms) =>
         && s.last + 1 < n && c.IsPeak(s.last + 1, s.best) && c.Stuck(s.last + 1) && ms == c.bars[s.last + 1].openMs
         && (s.last > c.at ==> !c.StopsOn(s.last)) && s.last - c.at < c.cfg.maxBars
       case Closed(b, price, reason) =>
         && b == s.last > c.at && c.IsPeak(s.last, s.best)
         && (reason.VirtualStop? <==> c.StopsOn(s.last))
         && (if reason.VirtualStop? then price == s.stop
             else price == c.bars[b].close && s.last - c.at == c.cfg.maxBars)
  }

  lemma PeakStep(c: Case, i: nat, x: real)
    requires c.Given() && c.at <= i && i + 1 < |c.bars| && c.IsPeak(i, x)
    ensures c.IsPeak(i + 1, TradeIn(c).Extend(x, c.bars[i + 1]))
  {
    var y := TradeIn(c).Extend(x, c.bars[i + 1]);
    assert c.AtLeast(y, x) && c.AtLeast(y, c.Reach(i + 1));
    if y == x && x != c.entry {
      var j :| c.at < j <= i && x == c.Reach(j);
    } else if y != x {
      assert y == c.Reach(i + 1);
    }
  }

  lemma ArmsIs(c: Case, i: nat, x: real)
    requires c.Given() && i < |c.bars| && c.IsPeak(i, x)
    ensures TradeIn(c).Arms(x) <==> c.ArmedBy(x)
  {
  }

  lemma StopStep(c: Case, i: nat, x: real, y: real)
    requires c.Given() && c.at <= i && i + 1 < |c.bars| && c.IsPeak(i + 1, x) && c.IsStop(i, y)
    ensures c.IsStop(i + 1,
      if c.ArmedBy(x) then (if c.AtLeast(y, c.Level(i + 1, x)) then y else c.Level(i + 1, x)) else y)
  {
    OneLevel(c, i + 1, x);
    hide Case.IsLevel, Case.IsPeak, Case.ArmedBy, Case.Level, Case.FirstStop;
    var l := c.Level(i + 1, x);
    if c.ArmedBy(x) && !c.AtLeast(y, l) {
      assert c.IsLevel(i + 1, l);
    } else if y != c.FirstStop() {
      var j :| c.at < j <= i && c.IsLevel(j, y);
      assert c.IsLevel(j, y);
    }
  }

  /** The tighter of the stop that stands and the level of a peak that arms. */
  function NextStop(c: Case, i: nat, x: real, y: real): real
    requires c.Given() && i < |c.bars|
  {
    if c.ArmedBy(x) && !c.AtLeast(y, c.Level(i, x)) then c.Level(i, x) else y
  }

  predicate Crosses(c: Case, i: nat, y: real)
    requires i < |c.bars|
  {
    if c.side == Long then c.bars[i].low <= y else c.bars[i].high >= y
  }

  lemma StepIs(c: Case, i: nat, s: Carried)
    requires c.Given() && c.at < i < |c.bars| && s.phase.Running? && i - c.at <= c.cfg.maxBars
    requires c.IsPeak(i, TradeIn(c).Extend(s.best, c.bars[i]))
    ensures var x := TradeIn(c).Extend(s.best, c.bars[i]);
      var after := TradeIn(c).Step(s, c.bars[i], i, Atr(c.bars, i));
      if c.ArmedBy(x) && c.path == Control && !Usable(Atr(c.bars, i)) then
        after == s.(best := x, phase := Truncated(c.bars[i].openMs))
      else
        var y := NextStop(c, i, x, s.stop);
        && after.best == x && after.stop == y && after.last == i
        && after.armedAt == (if c.ArmedBy(x) && s.armedAt.None? then Some(c.bars[i].openMs) else s.armedAt)
        && after.phase == if Crosses(c, i, y) then Closed(i, y, VirtualStop)
             else if i - c.at == c.cfg.maxBars then Closed(i, c.bars[i].close, MaxBars) else Running
  {
    var x := TradeIn(c).Extend(s.best, c.bars[i]);
    ArmsIs(c, i, x);
    LevelIs(c, i, x);
    RatchetIs(c, s.stop, c.Level(i, x));
    CrossedIs(c, i, NextStop(c, i, x, s.stop));
    TradeIs(c);
    hide Case.IsPeak, Atr, Case.ArmedBy, Trade.Arms, Case.Risk, Trade.Extend, Case.Level, Trade.Candidate,
      Trade.Ratchet, Trade.Crossed, Crosses, TradeIn, Usable, Case.AtLeast, Times;
  }

  lemma TradeIs(c: Case)
    requires c.Given()
    ensures var t := TradeIn(c);
      t.path == c.path && t.side == c.side && t.entry == c.entry && t.at == c.at && t.cfg == c.cfg
  {
    hide Case.Risk;
  }

  lemma LevelIs(c: Case, i: nat, x: real)
    requires c.Given() && i < |c.bars|
    ensures TradeIn(c).Candidate(x, if Atr(c.bars, i).Some? then Atr(c.bars, i).value else 0.0) == c.Level(i, x)
  {
    hide Atr, Case.Risk;
  }

  lemma RatchetIs(c: Case, y: real, l: real)
    requires c.Given()
    ensures TradeIn(c).Ratchet(y, l) == if c.AtLeast(y, l) then y else l
  {
    hide Case.Risk;
  }

  lemma CrossedIs(c: Case, i: nat, y: real)
    requires c.Given() && i < |c.bars|
    ensures TradeIn(c).Crossed(y, c.bars[i]) <==> Crosses(c, i, y)
  {
    hide Case.Risk;
  }

  lemma StopsIs(c: Case, i: nat, y: real)
    requires c.Given() && i < |c.bars| && c.IsStop(i, y)
    ensures c.StopsOn(i) <==> Crosses(c, i, y)
  {
    hide Case.IsStop;
    forall z | c.IsStop(i, z) ensures z == y { OneStop(c, i, y, z); }
  }

  lemma ArmedStep(c: Case, i: nat, x: real, armedAt: Option<int>)
    requires c.Given() && c.at < i < |c.bars| && c.IsPeak(i, x) && FirstArmed(c, i - 1, armedAt)
    ensures FirstArmed(c, i, if c.ArmedBy(x) && armedAt.None? then Some(c.bars[i].openMs) else armedAt)
  {
    OneLevel(c, i, x);
    hide Case.ArmedOn, Case.IsPeak, Case.ArmedBy, Case.IsLevel;
    if armedAt.None? && c.ArmedBy(x) { assert IsFirst(c, i); }
  }

  lemma FollowsStep(c: Case, n: nat, s: Carried)
    requires c.Given() && c.at < n < |c.bars| && Follows(c, n, s)
    ensures Follows(c, n + 1, TradeIn(c).Step(s, c.bars[n], n, Atr(c.bars, n)))
  {
    hide Case.IsPeak, Case.IsStop, Case.StopsOn, Case.Stuck, FirstArmed, Atr, Case.ArmedBy, Case.Level, Crosses,
      NextStop, Trade.Extend, Trade.Step;
    if s.phase.Running? && n - c.at <= c.cfg.maxBars {
      var x := TradeIn(c).Extend(s.best, c.bars[n]);
      PeakStep(c, n - 1, s.best);
      StepIs(c, n, s);
      OneLevel(c, n, x);
      StuckIs(c, n, x);
      StopStep(c, n - 1, x, s.stop);
      var y := NextStop(c, n, x, s.stop);
      NextStopIs(c, n, x, s.stop);
      StopsIs(c, n, y);
      ArmedStep(c, n, x, s.armedAt);
    } else {
      StepStays(c, n, s);
    }
  }

  lemma StepStays(c: Case, i: nat, s: Carried)
    requires c.Given() && c.at < i < |c.bars| && !(s.phase.Running? && i - c.at <= c.cfg.maxBars)
    ensures TradeIn(c).Step(s, c.bars[i], i, Atr(c.bars, i)) == s
  {
    hide Atr;
  }

  lemma NextStopIs(c: Case, i: nat, x: real, y: real)
    requires c.Given() && i < |c.bars|
    ensures NextStop(c, i, x, y)
         == if c.ArmedBy(x) then (if c.AtLeast(y, c.Level(i, x)) then y else c.Level(i, x)) else y
  {
  }

  lemma StuckIs(c: Case, i: nat, x: real)
    requires c.Given() && i < |c.bars| && c.IsPeak(i, x)
    ensures c.Stuck(i) <==> c.ArmedBy(x) && c.path == Control && !Usable(Atr(c.bars, i))
  {
    OneLevel(c, i, x);
    hide Case.ArmedOn, Case.IsPeak, Case.ArmedBy, Atr, Case.IsLevel;
  }

  lemma StartFollows(c: Case)
    requires c.Given()
    ensures Follows(c, c.at + 1, TradeIn(c).Start())
  {
    hide Atr, Case.IsLevel, Case.ArmedOn, Case.StopsOn, Case.Stuck;
  }

  lemma {:induction false} CarryFollows(c: Case, n: nat)
    requires c.Given() && c.at < n <= |c.bars|
    ensures Follows(c, n, TradeIn(c).Carry(c.bars, n))
  {
    hide Follows, Trade.Step, Atr, Trade.Start;
    TradeIs(c);
    if n == c.at + 1 {
      StartFollows(c);
    } else {
      CarryFollows(c, n - 1);
      FollowsStep(c, n - 1, TradeIn(c).Carry(c.bars, n - 1));
    }
  }

  // ---------------------------------------------------------------- the report

  /** The trade ends on bar last as reported, or it has not ended on any bar there is. */
  ghost predicate Ends(c: Case, last: nat, r: Report)
    requires c.Given() && last < |c.bars|
  {
    if r.closed then
      && last > c.at && r.truncatedAt.None?
      && r.exitReason == Some(if c.StopsOn(last) then VirtualStop else MaxBars)
      && r.exitPrice == Some(if c.StopsOn(last) then r.stop else c.bars[last].close)
      && (c.StopsOn(last) || last - c.at == c.cfg.maxBars)
      && r.exitR == Some(InRisks(c, r.exitPrice.value)) && r.triggerOpenMs == Some(c.bars[last].openMs)
      && r.triggerVersion == Some(c.bars[last].version) && r.triggerHash == Some(c.bars[last].hash)
    else
      && r.exitReason.None? && r.exitPrice.None? && r.exitR.None?
      && r.triggerOpenMs.None? && r.triggerVersion.None? && r.triggerHash.None?
      && (last > c.at ==> !c.StopsOn(last) && last - c.at < c.cfg.maxBars)
      && (if last + 1 < |c.bars| && last - c.at < c.cfg.maxBars then
            c.Stuck(last + 1) && r.truncatedAt == Some(c.bars[last + 1].openMs)
          else r.truncatedAt.None?)
  }

  /** A price as its distance from the entry in the trade's favour, in initial risks. */
  function InRisks(c: Case, price: real): real
    requires c.Given()
  {
    Ratio(c.Favour(price - c.entry), c.Risk())
  }

  /** Everything that a report says, on the bars. */
  ghost predicate Reports(c: Case, r: Report)
    requires c.Given()
  {
    var last := c.at + r.barsEvaluated;
    && last < |c.bars| && Quiet(c, last) && Ends(c, last, r)
    && c.IsStop(last, r.stop) && FirstArmed(c, last, r.armedAt) && (r.armed <==> r.armedAt.Some?)
    && (if r.truncatedAt.Some? then last + 1 < |c.bars| && c.IsPeak(last + 1, r.peakPrice)
        else c.IsPeak(last, r.peakPrice))
    && Repeats(c, last, r)
    && r.lockedR == InRisks(c, r.stop) && r.peakR == InRisks(c, r.peakPrice)
    && r.currentR == InRisks(c, r.currentPrice)
  }

  /** The fields that repeat what was given. */
  predicate Repeats(c: Case, last: nat, r: Report)
    requires c.Given() && c.at <= last < |c.bars|
  {
    && r.entryPrice == c.entry && r.entryOpenMs == c.bars[c.at].openMs && Atr(c.bars, c.at) == Some(r.atrAtEntry)
    && r.atrLast == (if c.path == Control then Atr(c.bars, last) else None)
    && r.initialRisk == c.Risk() && r.initialStop == c.FirstStop()
    && r.currentPrice == c.bars[last].close && r.lastOpenMs == c.bars[last].openMs
    && r.lastVersion == c.bars[last].version && r.lastHash == c.bars[last].hash
    && |r.chain| == last - c.at + 1
    && forall i :: 0 <= i < |r.chain| ==> r.chain[i] == (c.bars[c.at + i].openMs, c.bars[c.at + i].hash)
  }

  lemma ReportRepeats(c: Case, s: Carried)
    requires c.Given() && c.at <= s.last < |c.bars| && (s.phase.Closed? ==> s.phase.bar < |c.bars|)
    ensures TradeIn(c).risk != 0.0
    ensures var r := ReportOf(TradeIn(c), c.bars, s);
      && Repeats(c, s.last, r) && r.barsEvaluated == s.last - c.at
      && r.stop == s.stop && r.peakPrice == s.best && r.armedAt == s.armedAt && r.armed == s.armedAt.Some?
      && r.lockedR == InRisks(c, s.stop) && r.peakR == InRisks(c, s.best) && r.currentR == InRisks(c, r.currentPrice)
  {
    hide Atr, Ratio;
  }

  lemma ReportEnds(c: Case, s: Carried)
    requires c.Given() && Follows(c, |c.bars|, s)
    ensures TradeIn(c).risk != 0.0 && Ends(c, s.last, ReportOf(TradeIn(c), c.bars, s))
  {
    hide Atr, Ratio, Case.IsStop, Case.IsPeak, Case.StopsOn, Case.Stuck, Quiet, FirstArmed;
  }

  lemma TradeOfCase(c: Case)
    requires c.Given()
    ensures Ready(c.bars, c.at, c.cfg)
    ensures TradeOf(c.path, c.side, c.entry, c.bars, c.at, c.cfg) == TradeIn(c)
  {
    hide Atr;
  }

  lemma ReplayReports(c: Case)
    requires c.Given()
    ensures Ready(c.bars, c.at, c.cfg)
    ensures Reports(c, Replayed(c.path, c.side, c.entry, c.bars, c.at, c.cfg))
  {
    TradeOfCase(c);
    var t := TradeIn(c);
    var s := t.Carry(c.bars, |c.bars|);
    CarryInRange(t, c.bars, |c.bars|);
    CarryFollows(c, |c.bars|);
    ReportRepeats(c, s);
    ReportEnds(c, s);
    hide Atr, Trade.Carry, Ratio, Case.IsStop, Case.IsPeak, Case.StopsOn, Case.Stuck, Quiet, FirstArmed, Repeats, Ends,
      InRisks, TradeOf, TradeIn;
    ReportPeak(c, s);
  }

  lemma ReportPeak(c: Case, s: Carried)
    requires c.Given() && Follows(c, |c.bars|, s)
    ensures TradeIn(c).risk != 0.0
    ensures ReportOf(TradeIn(c), c.bars, s).truncatedAt.Some? <==> s.phase.Truncated?
  {
    hide Atr, Ratio, Case.IsStop, Case.IsPeak, Case.StopsOn, Case.Stuck, Quiet, FirstArmed;
  }

  /** No two reports fit the same trade. */
  lemma OneReport(c: Case, q: Report, r: Report)
    requires c.Given() && Reports(c, q) && Reports(c, r)
    ensures q == r
  {
    SameLast(c, q, r);
    SameLast(c, r, q);
    var last := c.at + r.barsEvaluated;
    OneStop(c, last, q.stop, r.stop);
    OneArmed(c, last, q.armedAt, r.armedAt);
    if r.truncatedAt.Some? {
      OnePeak(c, last + 1, q.peakPrice, r.peakPrice);
    } else {
      OnePeak(c, last, q.peakPrice, r.peakPrice);
    }
    assert q.chain == r.chain;
    hide Case.IsPeak, Case.IsStop, Case.StopsOn, Case.Stuck, Atr, Ratio, FirstArmed, Quiet;
  }

  lemma SameLast(c: Case, q: Report, r: Report)
    requires c.Given() && Reports(c, q) && Reports(c, r)
    ensures q.barsEvaluated >= r.barsEvaluated
  {
    hide Case.IsPeak, Case.IsStop, Case.StopsOn, Case.Stuck, Atr, InRisks, FirstArmed, Repeats;
  }

  lemma OneArmed(c: Case, last: nat, a: Option<int>, b: Option<int>)
    requires c.Given() && last < |c.bars| && FirstArmed(c, last, a) && FirstArmed(c, last, b)
    ensures a == b
  {
    hide Case.ArmedOn;
  }

  /** The replay gives exactly the report that the bars call for. */
  lemma ReplayIs(c: Case, r: Report)
    requires c.Given()
    ensures Ready(c.bars, c.at, c.cfg)
    ensures Reports(c, r) <==> r == Replayed(c.path, c.side, c.entry, c.bars, c.at, c.cfg)
  {
    ReplayReports(c);
    hide Reports, Replayed;
    if Reports(c, r) { OneReport(c, r, Replayed(c.path, c.side, c.entry, c.bars, c.at, c.cfg)); }
  }
}
