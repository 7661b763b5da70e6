/** Virtual exit paths replayed over closed bars, over exact reals: a trailing stop that is
    recomputed from the entry on every update. */
module ExitReplay {
  import opened RealArithmetic
  import opened Wrappers

  datatype Bar = Bar(openMs: int, high: real, low: real, close: real, version: string, hash: string)

  datatype Side = Long | Short

  /** A trails a multiple of the bar's ATR behind the extreme; B retains a fraction of the peak. */
  datatype Path = Control | Giveback

  datatype Config = Config(initialStopAtr: real, armR: real, maxBars: int, trailAtr: real, retained: real)

  // ---------------------------------------------------------------- average true range

  const ATR_PERIOD: nat := 14

  function Abs(x: real): real { if x < 0.0 then -x else x }

  function Max(a: real, b: real): real { if a < b then b else a }

  function Min(a: real, b: real): real { if b < a then b else a }

  function Ratio(a: real, d: real): real
    requires d != 0.0
  {
    a / d
  }

  function TrueRange(bars: seq<Bar>, j: nat): real
    requires j < |bars|
  {
    var b := bars[j];
    if j == 0 then b.high - b.low
    else
      var c := bars[j - 1].close;
      Max(b.high - b.low, Max(Abs(b.high - c), Abs(b.low - c)))
  }

  function RangeSum(bars: seq<Bar>, lo: nat, hi: nat): real
    requires lo <= hi <= |bars|
  {
    if lo == hi then 0.0 else RangeSum(bars, lo, hi - 1) + TrueRange(bars, hi - 1)
  }

  /** Mean true range of the last ATR_PERIOD bars up to bar j; none while there are fewer. */
  function Atr(bars: seq<Bar>, j: nat): Option<real>
    requires j < |bars|
  {
    if j + 1 < ATR_PERIOD then None
    else Some(RangeSum(bars, j + 1 - ATR_PERIOD, j + 1) / ATR_PERIOD as real)
  }

  predicate Usable(a: Option<real>) { a.Some? && a.value > 0.0 }

  // ---------------------------------------------------------------- one bar

  datatype Reason = VirtualStop | MaxBars

  datatype Phase =
    | Running
    | Truncated(at: int)
    | Closed(bar: nat, price: real, reason: Reason)

  datatype Carried = Carried(best: real, stop: real, armedAt: Option<int>, last: nat, phase: Phase)

  /** What stays fixed over the life of a path. */
  datatype Trade = Trade(path: Path, side: Side, entry: real, at: nat, risk: real, cfg: Config) {
    /** v for a long trade, -v for a short one. */
    function Signed(v: real): real { if side.Long? then v else -v }

    /** Distance of a price from the entry in the trade's favour, in units of the initial risk. */
    function R(price: real): real
      requires risk != 0.0
    {
      Ratio(Signed(price - entry), risk)
    }

    function InitialStop(): real { entry - Signed(risk) }

    function Start(): Carried { Carried(entry, InitialStop(), None, at, Running) }

    /** The favourable extreme once bar b is seen. */
    function Extend(best: real, b: Bar): real {
      if side.Long? then Max(best, b.high) else Min(best, b.low)
    }

    predicate Arms(best: real) { Abs(best - entry) >= Times(cfg.armR, risk) }

    function Candidate(best: real, atr: real): real {
      if path.Control? then best - Signed(Times(cfg.trailAtr, atr)) else entry + Times(cfg.retained, best - entry)
    }

    function Ratchet(stop: real, candidate: real): real {
      if side.Long? then Max(stop, candidate) else Min(stop, candidate)
    }

    predicate Crossed(stop: real, b: Bar) {
      if side.Long? then b.low <= stop else b.high >= stop
    }

    /** Extreme first, then the stop, then the cross, all on the same bar. */
    function Step(s: Carried, b: Bar, j: nat, atr: Option<real>): Carried
      requires at < j
    {
      if !s.phase.Running? || j - at > cfg.maxBars then s
      else
        var best := Extend(s.best, b);
        if Arms(best) && path.Control? && !Usable(atr) then
          s.(best := best, phase := Truncated(b.openMs))
        else
          var candidate := Candidate(best, if atr.Some? then atr.value else 0.0);
          var stop := if Arms(best) then Ratchet(s.stop, candidate) else s.stop;
          var armedAt := if Arms(best) && s.armedAt.None? then Some(b.openMs) else s.armedAt;
          var phase :=
            if Crossed(stop, b) then Closed(j, stop, VirtualStop)
            else if j - at == cfg.maxBars then Closed(j, b.close, MaxBars)
            else Running;
          Carried(best, stop, armedAt, j, phase)
    }

    /** The state carried one bar at a time up to the first n bars. */
    function Carry(bars: seq<Bar>, n: nat): Carried
      requires n <= |bars|
    {
      if n <= at + 1 then Start() else Step(Carry(bars, n - 1), bars[n - 1], n - 1, Atr(bars, n - 1))
    }
  }

  // ---------------------------------------------------------------- the replay

  datatype Report = Report(
    closed: bool, exitReason: Option<Reason>, exitPrice: Option<real>, exitR: Option<real>, triggerOpenMs: Option<int>,
    triggerVersion: Option<string>, triggerHash: Option<string>,
    entryPrice: real, entryOpenMs: int, atrAtEntry: real, atrLast: Option<real>, initialRisk: real, initialStop: real,
    armed: bool, armedAt: Option<int>, peakPrice: real, peakR: real, currentPrice: real, currentR: real,
    stop: real, lockedR: real, barsEvaluated: nat, lastOpenMs: int, lastVersion: string, lastHash: string,
    chain: seq<(int, string)>, truncatedAt: Option<int>)

  /** An entry the updater accepts: a known, positive ATR on the entry bar. */
  predicate Ready(bars: seq<Bar>, at: nat, cfg: Config) {
    at < |bars| && Usable(Atr(bars, at)) && cfg.initialStopAtr > 0.0
  }

  function TradeOf(path: Path, side: Side, entry: real, bars: seq<Bar>, at: nat, cfg: Config): (t: Trade)
    requires Ready(bars, at, cfg)
    ensures t.risk > 0.0
  {
    var risk := Times(Atr(bars, at).value, cfg.initialStopAtr);
    ProductSign(Atr(bars, at).value, cfg.initialStopAtr, risk);
    Trade(path, side, entry, at, risk, cfg)
  }

  function Chain(bars: seq<Bar>): seq<(int, string)> {
    seq(|bars|, i requires 0 <= i < |bars| => (bars[i].openMs, bars[i].hash))
  }

  /** The report of a carried state. */
  function ReportOf(t: Trade, bars: seq<Bar>, s: Carried): Report
    requires t.risk != 0.0 && t.at <= s.last < |bars| && Atr(bars, t.at).Some?
    requires s.phase.Closed? ==> s.phase.bar < |bars|
  {
    var c := s.phase.Closed?;
    var last := bars[s.last];
    Report(
      c, if c then Some(s.phase.reason) else None, if c then Some(s.phase.price) else None,
      if c then Some(t.R(s.phase.price)) else None,
      if c then Some(bars[s.phase.bar].openMs) else None,
      if c then Some(bars[s.phase.bar].version) else None, if c then Some(bars[s.phase.bar].hash) else None,
      t.entry, bars[t.at].openMs, Atr(bars, t.at).value, if t.path.Control? then Atr(bars, s.last) else None,
      t.risk, t.InitialStop(),
      s.armedAt.Some?, s.armedAt, s.best, t.R(s.best), last.close, t.R(last.close),
      s.stop, t.R(s.stop), s.last - t.at, last.openMs, last.version, last.hash,
      Chain(bars[t.at..s.last + 1]), if s.phase.Truncated? then Some(s.phase.at) else None)
  }

  lemma {:induction false} CarryInRange(t: Trade, bars: seq<Bar>, n: nat)
    requires t.at < n <= |bars|
    ensures var s := t.Carry(bars, n);
      t.at <= s.last < n && (s.phase.Closed? ==> s.phase.bar == s.last)
  {
    if n > t.at + 1 { CarryInRange(t, bars, n - 1); }
  }

  /** The report over the whole series. */
  function Replayed(path: Path, side: Side, entry: real, bars: seq<Bar>, at: nat, cfg: Config): Report
    requires Ready(bars, at, cfg)
  {
    var t := TradeOf(path, side, entry, bars, at, cfg);
    CarryInRange(t, bars, |bars|);
    ReportOf(t, bars, t.Carry(bars, |bars|))
  }

  /** The from-scratch loop, with its early exits, gives the report of the carried machine. */
  method Replay(path: Path, side: Side, entry: real, bars: seq<Bar>, at: nat, cfg: Config) returns (r: Report)
    requires Ready(bars, at, cfg)
    ensures r == Replayed(path, side, entry, bars, at, cfg)
  {
    ghost var t := TradeOf(path, side, entry, bars, at, cfg);
    var risk := Times(Atr(bars, at).value, cfg.initialStopAtr);
    var trade := Trade(path, side, entry, at, risk, cfg);
    var stop := if side.Long? then entry - risk else entry + risk;
    var best := entry;
    var armedAt: Option<int> := None;
    var last := at;
    var phase := Running;
    var end := if at + cfg.maxBars < |bars| - 1 then at + cfg.maxBars else |bars| - 1;
    var j := at + 1;
    while j <= end && phase.Running?
      invariant at < j <= |bars| && (j <= end + 1 || j == at + 1)
      invariant phase.Running? ==> last == j - 1
      invariant at <= last < |bars| && (phase.Closed? ==> phase.bar == last)
      invariant t.Carry(bars, j) == Carried(best, stop, armedAt, last,
        if phase.Running? && j - 1 - at == cfg.maxBars && j > at + 1 then Closed(last, bars[last].close, MaxBars)
        else phase)
      decreases end - j, phase.Running?
    {
      var b := bars[j];
      best := trade.Extend(best, b);
      if trade.Arms(best) {
        if path.Control? && !Usable(Atr(bars, j)) {
          phase := Truncated(b.openMs);
        } else {
          var candidate := trade.Candidate(best, if Atr(bars, j).Some? then Atr(bars, j).value else 0.0);
          stop := trade.Ratchet(stop, candidate);
          if armedAt.None? { armedAt := Some(b.openMs); }
        }
      }
      if phase.Running? {
        last := j;
        if trade.Crossed(stop, b) { phase := Closed(j, stop, VirtualStop); }
      }
      j := j + 1;
    }
    if phase.Running? && end - at == cfg.maxBars && end > at {
      phase := Closed(end, bars[end].close, MaxBars);
    }
    ghost var s := Carried(best, stop, armedAt, last, phase);
    assert t.Carry(bars, j) == s;
    CarryStays(t, bars, j, |bars|);
    r := ReportOf(trade, bars, Carried(best, stop, armedAt, last, phase));
  }

  // ---------------------------------------------------------------- causality

  /** A state that no later bar changes: finished, or past the last bar of the trade. */
  predicate Settled(t: Trade, s: Carried, n: nat) {
    !s.phase.Running? || n - t.at > t.cfg.maxBars
  }

  lemma {:induction false} CarryStays(t: Trade, bars: seq<Bar>, n: nat, m: nat)
    requires t.at < n <= m <= |bars|
    requires n == m || Settled(t, t.Carry(bars, n), n)
    ensures t.Carry(bars, m) == t.Carry(bars, n)
  {
    if n < m { CarryStays(t, bars, n, m - 1); }
  }

  lemma {:induction false} RangeSumPrefix(bars: seq<Bar>, more: seq<Bar>, lo: nat, hi: nat)
    requires bars <= more && lo <= hi <= |bars|
    ensures RangeSum(more, lo, hi) == RangeSum(bars, lo, hi)
  {
    if lo < hi { RangeSumPrefix(bars, more, lo, hi - 1); }
  }

  /** The ATR of a bar reads that bar and earlier ones only. */
  lemma AtrCausal(bars: seq<Bar>, more: seq<Bar>, j: nat)
    requires bars <= more && j < |bars|
    ensures Atr(more, j) == Atr(bars, j)
  {
    if j + 1 >= ATR_PERIOD { RangeSumPrefix(bars, more, j + 1 - ATR_PERIOD, j + 1); }
  }

  lemma {:induction false} CarryCausal(t: Trade, bars: seq<Bar>, more: seq<Bar>, n: nat)
    requires bars <= more && n <= |bars|
    ensures t.Carry(more, n) == t.Carry(bars, n)
  {
    if n > t.at + 1 {
      CarryCausal(t, bars, more, n - 1);
      AtrCausal(bars, more, n - 1);
    }
  }

  lemma ReadyCausal(path: Path, side: Side, entry: real, bars: seq<Bar>, more: seq<Bar>, at: nat, cfg: Config)
    requires bars <= more && at < |bars|
    ensures Ready(more, at, cfg) <==> Ready(bars, at, cfg)
    ensures Ready(bars, at, cfg) ==>
      TradeOf(path, side, entry, more, at, cfg) == TradeOf(path, side, entry, bars, at, cfg)
  {
    AtrCausal(bars, more, at);
  }

  /** Once a replay is closed or truncated, appending bars changes nothing in its report. */
  lemma ReplayCausal(path: Path, side: Side, entry: real, bars: seq<Bar>, more: seq<Bar>, at: nat, cfg: Config)
    requires bars <= more && Ready(bars, at, cfg)
    requires var r := Replayed(path, side, entry, bars, at, cfg); r.closed || r.truncatedAt.Some?
    ensures Ready(more, at, cfg)
    ensures Replayed(path, side, entry, more, at, cfg) == Replayed(path, side, entry, bars, at, cfg)
  {
    ReadyCausal(path, side, entry, bars, more, at, cfg);
    var t := TradeOf(path, side, entry, bars, at, cfg);
    CarryInRange(t, bars, |bars|);
    var s := t.Carry(bars, |bars|);
    CarryCausal(t, bars, more, |bars|);
    CarryStays(t, more, |bars|, |more|);
    AtrCausal(bars, more, at);
    AtrCausal(bars, more, s.last);
    assert more[at..s.last + 1] == bars[at..s.last + 1];
  }

  // ---------------------------------------------------------------- the ratchet

  /** Parameters as the frozen protocol pins them: a positive risk and a retained share of at least zero. */
  predicate Sound(t: Trade) {
    t.risk > 0.0 && t.cfg.retained >= 0.0
  }

  /** The stop moves in the trade's favour only. */
  predicate NoLooser(t: Trade, before: real, after: real) {
    t.Signed(before) <= t.Signed(after)
  }

  lemma {:induction false} StopRatchets(t: Trade, bars: seq<Bar>, n: nat, m: nat)
    requires n <= m <= |bars|
    ensures NoLooser(t, t.Carry(bars, n).stop, t.Carry(bars, m).stop)
    ensures NoLooser(t, t.Carry(bars, n).best, t.Carry(bars, m).best)
  {
    if n < m { StopRatchets(t, bars, n, m - 1); }
  }

  lemma Divide(a: real, b: real, d: real)
    requires d > 0.0
    ensures a <= b <==> Ratio(a, d) <= Ratio(b, d)
    ensures Ratio(0.0, d) == 0.0 && Ratio(-d, d) == -1.0
  {
    RatioUnits(d);
    var x, y := a / d, b / d;
    assert x * d == a && y * d == b;
    if a <= b && x > y { ProductSign(x - y, d, (x - y) * d); }
    if x <= y && a > b { ProductSign(y - x, d, (y - x) * d); }
  }

  lemma RatioUnits(d: real)
    requires d > 0.0
    ensures Ratio(0.0, d) == 0.0 && Ratio(-d, d) == -1.0
  {
    var m := -d;
    assert m / d == -(d / d);
  }

  lemma RMonotone(t: Trade, a: real, b: real)
    requires t.risk > 0.0 && NoLooser(t, a, b)
    ensures t.R(a) <= t.R(b)
    ensures t.R(t.entry) == 0.0 && t.R(t.InitialStop()) == -1.0
  {
    hide Ratio;
    Divide(t.Signed(a - t.entry), t.Signed(b - t.entry), t.risk);
  }

  /** The report of the whole series in terms of the carried state. */
  lemma ReportFields(path: Path, side: Side, entry: real, bars: seq<Bar>, at: nat, cfg: Config)
    requires Ready(bars, at, cfg)
    ensures var t := TradeOf(path, side, entry, bars, at, cfg);
      var s, r := t.Carry(bars, |bars|), Replayed(path, side, entry, bars, at, cfg);
      && s.last < |bars| && t.at <= s.last && (s.phase.Closed? ==> s.phase.bar < |bars|) && r == ReportOf(t, bars, s)
      && r.lockedR == t.R(s.stop) && r.peakR == t.R(s.best)
  {
    CarryInRange(TradeOf(path, side, entry, bars, at, cfg), bars, |bars|);
  }

  /** As bars are appended the locked result never falls, and it never lies below -1. */
  lemma LockedNeverFalls(path: Path, side: Side, entry: real, bars: seq<Bar>, more: seq<Bar>, at: nat, cfg: Config)
    requires bars <= more && Ready(bars, at, cfg)
    ensures Ready(more, at, cfg)
    ensures -1.0 <= Replayed(path, side, entry, bars, at, cfg).lockedR
    ensures Replayed(path, side, entry, bars, at, cfg).lockedR <= Replayed(path, side, entry, more, at, cfg).lockedR
    ensures 0.0 <= Replayed(path, side, entry, bars, at, cfg).peakR <= Replayed(path, side, entry, more, at, cfg).peakR
  {
    var t := TradeOf(path, side, entry, bars, at, cfg);
    assert t.Carry(bars, 0) == t.Start();
    hide *;
    ReadyCausal(path, side, entry, bars, more, at, cfg);
    ReportFields(path, side, entry, bars, at, cfg);
    ReportFields(path, side, entry, more, at, cfg);
    StopRatchets(t, bars, 0, |bars|);
    StopRatchets(t, more, |bars|, |more|);
    CarryCausal(t, bars, more, |bars|);
    var s, s' := t.Carry(bars, |bars|), t.Carry(more, |more|);
    RMonotone(t, t.InitialStop(), s.stop);
    RMonotone(t, s.stop, s'.stop);
    RMonotone(t, t.entry, s.best);
    RMonotone(t, s.best, s'.best);
  }

  lemma Scaled(k: real, a: real, b: real)
    requires k >= 0.0 && a <= b
    ensures Times(k, a) <= Times(k, b)
    ensures Times(k, 0.0) == 0.0
  {
    ProductSign(k, b - a, k * (b - a));
  }

  /** The stop that path B holds for a given extreme. */
  function GivebackStop(t: Trade, s: Carried): real {
    if s.armedAt.Some? then t.entry + Times(t.cfg.retained, s.best - t.entry) else t.InitialStop()
  }

  lemma {:induction false} GivebackExact(t: Trade, bars: seq<Bar>, n: nat)
    requires Sound(t) && t.path.Giveback? && n <= |bars|
    ensures var s := t.Carry(bars, n);
      s.stop == GivebackStop(t, s) && !s.phase.Truncated? && t.Signed(s.best - t.entry) >= 0.0
      && (s.armedAt.Some? ==> t.Arms(s.best)) && (s.last > t.at && t.Arms(s.best) ==> s.armedAt.Some?)
  {
    if n > t.at + 1 {
      hide Times, Atr;
      GivebackExact(t, bars, n - 1);
      var s, b := t.Carry(bars, n - 1), bars[n - 1];
      var best := t.Extend(s.best, b);
      Scaled(t.cfg.retained, t.Signed(s.best - t.entry), t.Signed(best - t.entry));
      Scaled(t.cfg.retained, 0.0, t.Signed(best - t.entry));
      GivebackSigned(t, s.best);
      GivebackSigned(t, best);
    }
  }

  lemma GivebackSigned(t: Trade, best: real)
    ensures t.Signed(Times(t.cfg.retained, best - t.entry)) == Times(t.cfg.retained, t.Signed(best - t.entry))
  {
  }

  /** Path B: once armed the stop is exactly the entry plus the retained share of the peak, in
      price and in R; before that it is the initial stop. */
  lemma GivebackKeepsShare(side: Side, entry: real, bars: seq<Bar>, at: nat, cfg: Config)
    requires Ready(bars, at, cfg) && cfg.retained >= 0.0
    ensures var r := Replayed(Giveback, side, entry, bars, at, cfg);
      r.stop == (if r.armed then r.entryPrice + Times(cfg.retained, r.peakPrice - r.entryPrice) else r.initialStop)
      && r.lockedR == (if r.armed then Times(cfg.retained, r.peakR) else -1.0)
      && r.truncatedAt.None?
      && (r.armed ==> r.peakR >= cfg.armR)
      && (r.exitReason == Some(VirtualStop) ==> r.exitR == Some(r.lockedR))
  {
    var t := TradeOf(Giveback, side, entry, bars, at, cfg);
    var s := t.Carry(bars, |bars|);
    CarryInRange(t, bars, |bars|);
    GivebackExact(t, bars, |bars|);
    StopExit(t, bars, |bars|);
    GivebackSigned(t, s.best);
    hide Ratio, Times, Trade.Carry, Atr;
    var g := t.Signed(s.best - t.entry);
    RatioOfProduct(cfg.retained, g, t.risk);
    Divide(0.0, g, t.risk);
    if s.armedAt.Some? {
      Divide(Times(cfg.armR, t.risk), g, t.risk);
      RatioOfProduct(cfg.armR, t.risk, t.risk);
    }
  }

  lemma RatioOfProduct(k: real, g: real, d: real)
    requires d > 0.0
    ensures Ratio(Times(k, g), d) == Times(k, Ratio(g, d))
    ensures g == d ==> Times(k, Ratio(g, d)) == k
  {
    var x := Ratio(g, d);
    assert x * d == g;
    assert k * g == (k * x) * d;
  }

  /** A stop exit is filled at the stop; a time exit was not crossed on its bar. */
  lemma {:induction false} StopExit(t: Trade, bars: seq<Bar>, n: nat)
    requires n <= |bars|
    ensures var s := t.Carry(bars, n);
      s.phase.Closed? ==>
        t.at < s.phase.bar < |bars|
        && (if s.phase.reason.VirtualStop? then s.phase.price == s.stop
            else s.phase.price == bars[s.phase.bar].close && !t.Crossed(s.stop, bars[s.phase.bar]))
  {
    if n > t.at + 1 { StopExit(t, bars, n - 1); }
  }

  /** For bars whose close lies between low and high no exit loses more than the initial risk. */
  lemma ExitFloor(path: Path, side: Side, entry: real, bars: seq<Bar>, at: nat, cfg: Config)
    requires Ready(bars, at, cfg)
    requires forall j :: 0 <= j < |bars| ==> bars[j].low <= bars[j].close <= bars[j].high
    ensures var r := Replayed(path, side, entry, bars, at, cfg);
      r.closed ==> r.exitR.value >= r.lockedR >= -1.0
  {
    var t := TradeOf(path, side, entry, bars, at, cfg);
    CarryInRange(t, bars, |bars|);
    var s := t.Carry(bars, |bars|);
    StopExit(t, bars, |bars|);
    LockedNeverFalls(path, side, entry, bars, bars, at, cfg);
    if s.phase.Closed? { Divide(t.Signed(s.stop - entry), t.Signed(s.phase.price - entry), t.risk); }
  }

  // ---------------------------------------------------------------- long and short are mirror images

  function Reflect(e: real, x: real): real { 2.0 * e - x }

  /** The bar seen in a mirror held at price e: prices reflected, high and low swapped. */
  function MirrorBar(e: real, b: Bar): Bar {
    b.(high := Reflect(e, b.low), low := Reflect(e, b.high), close := Reflect(e, b.close))
  }

  function Mirror(e: real, bars: seq<Bar>): seq<Bar> {
    seq(|bars|, i requires 0 <= i < |bars| => MirrorBar(e, bars[i]))
  }

  function Opposite(s: Side): Side { if s.Long? then Short else Long }

  function MirrorState(e: real, s: Carried): Carried {
    s.(best := Reflect(e, s.best), stop := Reflect(e, s.stop),
       phase := if s.phase.Closed? then s.phase.(price := Reflect(e, s.phase.price)) else s.phase)
  }

  lemma {:induction false} RangeSumMirror(e: real, bars: seq<Bar>, lo: nat, hi: nat)
    requires lo <= hi <= |bars|
    ensures RangeSum(Mirror(e, bars), lo, hi) == RangeSum(bars, lo, hi)
  {
    if lo < hi { RangeSumMirror(e, bars, lo, hi - 1); }
  }

  lemma AtrMirror(e: real, bars: seq<Bar>, j: nat)
    requires j < |bars|
    ensures Atr(Mirror(e, bars), j) == Atr(bars, j)
  {
    if j + 1 >= ATR_PERIOD { RangeSumMirror(e, bars, j + 1 - ATR_PERIOD, j + 1); }
  }

  lemma TimesNegates(a: real, b: real)
    ensures Times(a, -b) == -Times(a, b)
  {
  }

  lemma StepMirror(t: Trade, s: Carried, b: Bar, j: nat, atr: Option<real>)
    requires t.at < j
    ensures t.(side := Opposite(t.side)).Step(MirrorState(t.entry, s), MirrorBar(t.entry, b), j, atr)
         == MirrorState(t.entry, t.Step(s, b, j, atr))
  {
    var best := t.Extend(s.best, b);
    TimesNegates(t.cfg.retained, best - t.entry);
    hide Times;
  }

  lemma {:induction false} CarryMirror(t: Trade, bars: seq<Bar>, n: nat)
    requires n <= |bars|
    ensures t.(side := Opposite(t.side)).Carry(Mirror(t.entry, bars), n) == MirrorState(t.entry, t.Carry(bars, n))
  {
    if n > t.at + 1 {
      CarryMirror(t, bars, n - 1);
      AtrMirror(t.entry, bars, n - 1);
      StepMirror(t, t.Carry(bars, n - 1), bars[n - 1], n - 1, Atr(bars, n - 1));
    }
  }

  /** The same exit, on the same bar, armed on the same bar, with the same results in R. */
  ghost predicate SameExit(e: real, r: Report, m: Report) {
    && m.closed == r.closed && m.exitReason == r.exitReason && m.exitR == r.exitR
    && m.triggerOpenMs == r.triggerOpenMs && m.armed == r.armed && m.armedAt == r.armedAt
    && m.peakR == r.peakR && m.currentR == r.currentR && m.lockedR == r.lockedR
    && m.truncatedAt == r.truncatedAt && m.barsEvaluated == r.barsEvaluated
    && m.stop == Reflect(e, r.stop) && m.peakPrice == Reflect(e, r.peakPrice)
  }

  lemma MirrorR(t: Trade, price: real)
    requires t.risk > 0.0
    ensures t.(side := Opposite(t.side)).R(Reflect(t.entry, price)) == t.R(price)
  {
  }

  lemma ReportMirror(t: Trade, bars: seq<Bar>, s: Carried)
    requires t.risk > 0.0 && t.at <= s.last < |bars| && Atr(bars, t.at).Some?
    requires s.phase.Closed? ==> s.phase.bar < |bars|
    ensures Atr(Mirror(t.entry, bars), t.at).Some?
    ensures SameExit(t.entry, ReportOf(t, bars, s),
      ReportOf(t.(side := Opposite(t.side)), Mirror(t.entry, bars), MirrorState(t.entry, s)))
  {
    AtrMirror(t.entry, bars, t.at);
    hide Atr, Trade.R, Chain;
    MirrorR(t, s.best);
    MirrorR(t, s.stop);
    MirrorR(t, bars[s.last].close);
    if s.phase.Closed? { MirrorR(t, s.phase.price); }
  }

  /** Reflecting every price about the entry and flipping the side gives the same exit, on both paths. */
  lemma LongShortMirror(path: Path, side: Side, entry: real, bars: seq<Bar>, at: nat, cfg: Config)
    requires Ready(bars, at, cfg)
    ensures Ready(Mirror(entry, bars), at, cfg)
    ensures SameExit(entry, Replayed(path, side, entry, bars, at, cfg),
      Replayed(path, Opposite(side), entry, Mirror(entry, bars), at, cfg))
  {
    AtrMirror(entry, bars, at);
    var t := TradeOf(path, side, entry, bars, at, cfg);
    var u := t.(side := Opposite(side));
    assert u == TradeOf(path, Opposite(side), entry, Mirror(entry, bars), at, cfg);
    hide *;
    ReportFields(path, side, entry, bars, at, cfg);
    ReportFields(path, Opposite(side), entry, Mirror(entry, bars), at, cfg);
    CarryMirror(t, bars, |bars|);
    ReportMirror(t, bars, t.Carry(bars, |bars|));
  }
}
