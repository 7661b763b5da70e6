/** What an update does, stated on the declared bars: the report of every path it rewrites, and
    exactly the gaps that it notes. */
module ShadowPaths {
  import opened RealArithmetic
  import opened Wrappers
  import opened ExitReplay
  import opened ExitLevels
  import opened ShadowLedger

  // ---------------------------------------------------------------- declared bars

  /** The bars that the scan holds of a symbol, in no particular order. */
  function Declared(rc: Receipts, symbol: string): seq<Bar> {
    if symbol in rc.versions then rc.versions[symbol] else []
  }

  predicate ByOpening(bars: seq<Bar>) {
    forall i :: 0 < i < |bars| ==> bars[i - 1].openMs <= bars[i].openMs
  }

  /** The first n bars open four hours apart. */
  predicate FourHourly(bars: seq<Bar>, n: nat) {
    forall i :: 0 < i < |bars| && i < n ==> bars[i].openMs == bars[i - 1].openMs + 14_400_000
  }

  /** The j-th bar is the first that is not four hours behind the one before. */
  predicate BreaksAt(bars: seq<Bar>, j: nat, prev: int, next: int) {
    && 0 < j < |bars| && FourHourly(bars, j) && prev == bars[j - 1].openMs && next == bars[j].openMs
    && next != prev + 14_400_000
  }

  lemma {:induction false} InsertHas(b: Bar, s: seq<Bar>)
    ensures |Insert(b, s)| == |s| + 1 && multiset(Insert(b, s)) == multiset(s) + multiset{b}
  {
    if !(s == [] || s[|s| - 1].openMs <= b.openMs) {
      InsertHas(b, s[..|s| - 1]);
      assert s == s[..|s| - 1] + [s[|s| - 1]];
    }
  }

  lemma {:induction false} InsertOrders(b: Bar, s: seq<Bar>)
    requires ByOpening(s)
    ensures var r := Insert(b, s);
      |r| == |s| + 1 && ByOpening(r) && (r[|s|] == b || (s != [] && r[|s|] == s[|s| - 1]))
  {
    if !(s == [] || s[|s| - 1].openMs <= b.openMs) {
      var front, last := s[..|s| - 1], s[|s| - 1];
      InsertOrders(b, front);
      assert Insert(b, s) == Insert(b, front) + [last];
    }
  }

  lemma {:induction false} InOrderOrders(s: seq<Bar>)
    ensures ByOpening(InOrder(s)) && multiset(InOrder(s)) == multiset(s)
  {
    hide Insert, ByOpening;
    if s == [] {
      SingleOrdered();
    } else {
      var front, last := s[..|s| - 1], s[|s| - 1];
      InOrderOrders(front);
      InsertOrders(last, InOrder(front));
      InsertHas(last, InOrder(front));
      assert s == front + [last];
    }
  }

  lemma SingleOrdered()
    ensures ByOpening([])
  {
  }

  lemma {:induction false} BreakIs(bars: seq<Bar>, i: nat)
    requires i < |bars| && FourHourly(bars, i + 1)
    ensures FirstBreak(bars, i).NoBreak? <==> FourHourly(bars, |bars|)
    ensures var f := FirstBreak(bars, i); f.Break? ==> exists j :: BreaksAt(bars, j, f.prev, f.next)
    decreases |bars| - i
  {
    if i + 1 < |bars| {
      if bars[i + 1].openMs - bars[i].openMs == TF_MS {
        BreakIs(bars, i + 1);
      } else {
        assert BreaksAt(bars, i + 1, bars[i].openMs, bars[i + 1].openMs);
      }
    }
  }

  /** The series of a symbol: the declared bars by opening, and the first place where they are not
      four hours apart. */
  lemma SeriesIs(rc: Receipts, symbol: string)
    ensures var bars := Series(rc, symbol);
      && multiset(bars) == multiset(Declared(rc, symbol)) && ByOpening(bars)
      && var f := FirstBreak(bars, 0);
      && (f.NoBreak? <==> FourHourly(bars, |bars|))
      && (f.Break? ==> exists j :: BreaksAt(bars, j, f.prev, f.next))
  {
    InOrderOrders(Declared(rc, symbol));
    var bars := Series(rc, symbol);
    if bars != [] { BreakIs(bars, 0); }
  }

  // ---------------------------------------------------------------- one path

  /** The trade of the signal on one path over the bars, entered on bar at. */
  function CaseOf(o: Opportunity, path: Path, bars: seq<Bar>, at: nat, p: Protocol): Case {
    Case(path, if o.key.buy then Long else Short, o.entry, bars, at, p(path))
  }

  /** The update can replay the signal: an unbroken series, the bar of the signal in it, and an ATR there. */
  ghost predicate Replayable(o: Opportunity, bars: seq<Bar>, at: nat) {
    FourHourly(bars, |bars|) && at < |bars| && bars[at].openMs == o.key.openMs && Usable(Atr(bars, at))
  }

  /** What an update makes of a path. */
  ghost predicate Advances(o: Opportunity, path: Path, before: PathRecord, after: PathRecord, rc: Receipts, p: Protocol)
    requires Contract(p)
  {
    var bars := Series(rc, o.key.symbol);
    if before.IsClosed() || forall at :: !Replayable(o, bars, at) then after == before
    else
      && after.Recorded? && after.scan == rc.scan && after.asOf == rc.asOf
      && forall at :: Replayable(o, bars, at) ==> Reports(CaseOf(o, path, bars, at, p), after.report)
  }

  /** The gap that an update notes for the path: its replay stops for want of an ATR, or the path is
      closed and replays to another exit. */
  ghost predicate PathGap(o: Opportunity, path: Path, before: PathRecord, g: Gap, rc: Receipts, p: Protocol)
    requires Contract(p)
  {
    var bars := Series(rc, o.key.symbol);
    exists at, r: Report :: Replayable(o, bars, at) && Reports(CaseOf(o, path, bars, at, p), r) &&
      if before.IsClosed() then
        var was := before.report;
        && g == ReplayMismatch(o.key, path,
             Frozen(was.closed, was.exitReason, was.exitPrice, was.exitR, was.triggerOpenMs),
             Frozen(r.closed, r.exitReason, r.exitPrice, r.exitR, r.triggerOpenMs))
        && g.recorded != g.replayed
      else r.truncatedAt.Some? && g == PathTruncated(o.key, path, r.truncatedAt.value)
  }

  /** The gap that an update notes for the signal itself. */
  ghost predicate SignalGap(o: Opportunity, g: Gap, rc: Receipts) {
    var bars := Series(rc, o.key.symbol);
    if !FourHourly(bars, |bars|) then
      g.SequenceGap? && g.symbol == o.key.symbol && exists j :: BreaksAt(bars, j, g.prev, g.next)
    else if forall i :: 0 <= i < |bars| ==> bars[i].openMs != o.key.openMs then g == EntryBarMissing(o.key)
    else (forall at :: !Replayable(o, bars, at)) && g == EntryAtrIncomplete(o.key)
  }

  lemma OneBreak(bars: seq<Bar>, i: nat, j: nat, a: int, b: int, c: int, d: int)
    requires BreaksAt(bars, i, a, b) && BreaksAt(bars, j, c, d)
    ensures a == c && b == d
  {
  }

  /** There is at most one bar that the signal can be entered on. */
  lemma OneEntry(o: Opportunity, rc: Receipts, at: nat)
    requires Replayable(o, Series(rc, o.key.symbol), at)
    ensures IndexOf(Series(rc, o.key.symbol), o.key.openMs) == Some(at)
    ensures forall i :: Replayable(o, Series(rc, o.key.symbol), i) ==> i == at
  {
    var bars := Series(rc, o.key.symbol);
    SeriesIs(rc, o.key.symbol);
    hide Atr, Series, FourHourly, FirstBreak, IndexOf;
    forall i: nat | i < |bars| && bars[i].openMs == o.key.openMs ensures i == at { OpeningsDistinct(bars, i, at); }
  }

  /** What stands in the way of a replay, as the update finds out. */
  lemma EntryIs(o: Opportunity, rc: Receipts)
    ensures var bars := Series(rc, o.key.symbol);
      var at := IndexOf(bars, o.key.openMs);
      (exists i :: Replayable(o, bars, i)) <==>
        FirstBreak(bars, 0).NoBreak? && at.Some? && Usable(Atr(bars, at.value))
  {
    var bars := Series(rc, o.key.symbol);
    SeriesIs(rc, o.key.symbol);
    hide Atr, Series, FourHourly, FirstBreak, IndexOf;
    if i :| Replayable(o, bars, i) { OneEntry(o, rc, i); }
    var at := IndexOf(bars, o.key.openMs);
    if FirstBreak(bars, 0).NoBreak? && at.Some? && Usable(Atr(bars, at.value)) { assert Replayable(o, bars, at.value); }
  }

  lemma CaseReplays(o: Opportunity, path: Path, bars: seq<Bar>, at: nat, p: Protocol)
    requires Contract(p) && Replayable(o, bars, at)
    ensures CaseOf(o, path, bars, at, p).Given() && Ready(bars, at, p(path))
    ensures var replayed := Replayed(path, SideOf(o.key), o.entry, bars, at, p(path));
      forall r :: Reports(CaseOf(o, path, bars, at, p), r) <==> r == replayed
  {
    var c := CaseOf(o, path, bars, at, p);
    hide Atr, Replayed, Reports;
    forall r: Report ensures Reports(c, r) <==> r == Replayed(path, SideOf(o.key), o.entry, bars, at, p(path)) {
      ReplayIs(c, r);
    }
  }

  lemma AdvancesIs(
    o: Opportunity, path: Path, before: PathRecord, after: PathRecord, at: nat, rc: Receipts, p: Protocol)
    requires Contract(p) && Replayable(o, Series(rc, o.key.symbol), at)
    ensures Advances(o, path, before, after, rc, p) <==>
      after == if before.IsClosed() then before
        else Recorded(Replayed(path, SideOf(o.key), o.entry, Series(rc, o.key.symbol), at, p(path)), rc.scan, rc.asOf)
  {
    OneEntry(o, rc, at);
    CaseReplays(o, path, Series(rc, o.key.symbol), at, p);
    hide Atr, Replayed, Reports, Series, IndexOf, FourHourly, CaseOf, Replayable, SideOf;
  }

  lemma PathGapIs(o: Opportunity, path: Path, before: PathRecord, g: Gap, at: nat, rc: Receipts, p: Protocol)
    requires Contract(p) && Replayable(o, Series(rc, o.key.symbol), at)
    ensures var now := Replayed(path, SideOf(o.key), o.entry, Series(rc, o.key.symbol), at, p(path));
      PathGap(o, path, before, g, rc, p) <==>
        if before.IsClosed() then
          FrozenOf(before.report) != FrozenOf(now)
          && g == ReplayMismatch(o.key, path, FrozenOf(before.report), FrozenOf(now))
        else now.truncatedAt.Some? && g == PathTruncated(o.key, path, now.truncatedAt.value)
  {
    OneEntry(o, rc, at);
    CaseReplays(o, path, Series(rc, o.key.symbol), at, p);
    hide Atr, Replayed, Reports, Series, IndexOf, FourHourly, CaseOf, Replayable, SideOf;
  }

  lemma PathAdvances(b: Book, o: Opportunity, path: Path, at: nat, rc: Receipts, p: Protocol)
    requires Contract(p) && Replayable(o, Series(rc, o.key.symbol), at) && (o.key, path) in b.paths
    ensures var before := b.paths[(o.key, path)];
      var c := UpdatePath(b, o, path, Series(rc, o.key.symbol), at, rc, p);
      && (o.key, path) in c.paths && Advances(o, path, before, c.paths[(o.key, path)], rc, p)
      && forall g :: g in c.gaps <==> g in b.gaps || PathGap(o, path, before, g, rc, p)
  {
    var bars, before := Series(rc, o.key.symbol), b.paths[(o.key, path)];
    var c := UpdatePath(b, o, path, bars, at, rc, p);
    hide Atr, Replayed, Series, Advances, PathGap, FourHourly, SideOf, FrozenOf;
    AdvancesIs(o, path, before, c.paths[(o.key, path)], at, rc, p);
    forall g ensures g in c.gaps <==> g in b.gaps || PathGap(o, path, before, g, rc, p) {
      PathGapIs(o, path, before, g, at, rc, p);
    }
  }

  /** The gap of the signal is what the update of it notes when it gets no further. */
  lemma SignalGapIs(o: Opportunity, rc: Receipts, g: Gap)
    ensures var bars := Series(rc, o.key.symbol);
      var f, at := FirstBreak(bars, 0), IndexOf(bars, o.key.openMs);
      SignalGap(o, g, rc) <==>
        if f.Break? then g == SequenceGap(o.key.symbol, f.prev, f.next)
        else if at.None? then g == EntryBarMissing(o.key)
        else !Usable(Atr(bars, at.value)) && g == EntryAtrIncomplete(o.key)
  {
    var bars := Series(rc, o.key.symbol);
    SeriesIs(rc, o.key.symbol);
    EntryIs(o, rc);
    hide Atr, Series, FourHourly, FirstBreak, IndexOf, BreaksAt, Replayable;
    var f := FirstBreak(bars, 0);
    if f.Break? && g.SequenceGap? && SignalGap(o, g, rc) {
      var i, j :| BreaksAt(bars, i, f.prev, f.next) && BreaksAt(bars, j, g.prev, g.next);
      OneBreak(bars, i, j, f.prev, f.next, g.prev, g.next);
    }
  }

  ghost predicate NotedFor(paths: Paths, o: Opportunity, g: Gap, rc: Receipts, p: Protocol)
    requires Contract(p)
  {
    exists path: Path :: (o.key, path) in paths && PathGap(o, path, paths[(o.key, path)], g, rc, p)
  }

  ghost predicate BothAdvance(before: Paths, after: Paths, o: Opportunity, rc: Receipts, p: Protocol)
    requires Contract(p)
  {
    forall path: Path :: (o.key, path) in before ==>
      (o.key, path) in after && Advances(o, path, before[(o.key, path)], after[(o.key, path)], rc, p)
  }

  lemma OtherPathStays(b: Book, o: Opportunity, path: Path, bars: seq<Bar>, at: nat, rc: Receipts, p: Protocol)
    requires Contract(p) && at < |bars| && Usable(Atr(bars, at))
    ensures var c := UpdatePath(b, o, path, bars, at, rc, p);
      && ((o.key, path) !in b.paths ==> c == b)
      && forall q :: q != (o.key, path) ==>
           (q in c.paths <==> q in b.paths) && (q in b.paths ==> c.paths[q] == b.paths[q])
  {
    hide Atr, Replayed;
  }

  lemma NotedForEither(paths: Paths, o: Opportunity, g: Gap, rc: Receipts, p: Protocol)
    requires Contract(p)
    ensures NotedFor(paths, o, g, rc, p) <==>
      NotedOn(paths, o, Control, g, rc, p) || NotedOn(paths, o, Giveback, g, rc, p)
  {
    hide PathGap;
    if path: Path :| (o.key, path) in paths && PathGap(o, path, paths[(o.key, path)], g, rc, p) {
      match path
      case Control =>
      case Giveback =>
    }
  }

  ghost predicate NotedOn(paths: Paths, o: Opportunity, path: Path, g: Gap, rc: Receipts, p: Protocol)
    requires Contract(p)
  {
    (o.key, path) in paths && PathGap(o, path, paths[(o.key, path)], g, rc, p)
  }

  ghost predicate OneAdvances(before: Paths, after: Paths, o: Opportunity, path: Path, rc: Receipts, p: Protocol)
    requires Contract(p)
  {
    (o.key, path) in before ==>
      (o.key, path) in after && Advances(o, path, before[(o.key, path)], after[(o.key, path)], rc, p)
  }

  lemma BothAre(before: Paths, after: Paths, o: Opportunity, rc: Receipts, p: Protocol)
    requires Contract(p)
    requires OneAdvances(before, after, o, Control, rc, p) && OneAdvances(before, after, o, Giveback, rc, p)
    ensures BothAdvance(before, after, o, rc, p)
  {
    hide Advances;
    forall path: Path | (o.key, path) in before
      ensures (o.key, path) in after && Advances(o, path, before[(o.key, path)], after[(o.key, path)], rc, p)
    {
      match path
      case Control =>
      case Giveback =>
    }
  }

  /** One path of a book whose other paths may already have been advanced. */
  lemma NextPath(b: Book, m: Book, o: Opportunity, path: Path, at: nat, rc: Receipts, p: Protocol)
    requires Contract(p) && Replayable(o, Series(rc, o.key.symbol), at)
    requires (o.key, path) in b.paths <==> (o.key, path) in m.paths
    requires (o.key, path) in b.paths ==> m.paths[(o.key, path)] == b.paths[(o.key, path)]
    ensures var c := UpdatePath(m, o, path, Series(rc, o.key.symbol), at, rc, p);
      && OneAdvances(b.paths, c.paths, o, path, rc, p)
      && (forall g :: g in c.gaps <==> g in m.gaps || NotedOn(b.paths, o, path, g, rc, p))
  {
    if (o.key, path) in b.paths { PathAdvances(m, o, path, at, rc, p); }
    OtherPathStays(m, o, path, Series(rc, o.key.symbol), at, rc, p);
    hide Atr, Series, UpdatePath, PathGap, Advances, FourHourly;
  }

  lemma TwoPathsAdvance(b: Book, o: Opportunity, at: nat, rc: Receipts, p: Protocol)
    requires Contract(p) && Replayable(o, Series(rc, o.key.symbol), at)
    ensures var bars := Series(rc, o.key.symbol);
      var c := UpdatePath(UpdatePath(b, o, Control, bars, at, rc, p), o, Giveback, bars, at, rc, p);
      && BothAdvance(b.paths, c.paths, o, rc, p)
      && forall g :: g in c.gaps <==> g in b.gaps || NotedFor(b.paths, o, g, rc, p)
  {
    var bars := Series(rc, o.key.symbol);
    var m := UpdatePath(b, o, Control, bars, at, rc, p);
    var c := UpdatePath(m, o, Giveback, bars, at, rc, p);
    OtherPathStays(b, o, Control, bars, at, rc, p);
    OtherPathStays(m, o, Giveback, bars, at, rc, p);
    NextPath(b, b, o, Control, at, rc, p);
    NextPath(b, m, o, Giveback, at, rc, p);
    StillAdvances(b.paths, m.paths, c.paths, o, rc, p);
    BothAre(b.paths, c.paths, o, rc, p);
    hide *;
    forall g ensures g in c.gaps <==> g in b.gaps || NotedFor(b.paths, o, g, rc, p) {
      NotedForEither(b.paths, o, g, rc, p);
    }
  }

  lemma StillAdvances(b: Paths, m: Paths, c: Paths, o: Opportunity, rc: Receipts, p: Protocol)
    requires Contract(p) && OneAdvances(b, m, o, Control, rc, p)
    requires (o.key, Control) in m ==> (o.key, Control) in c && c[(o.key, Control)] == m[(o.key, Control)]
    ensures OneAdvances(b, c, o, Control, rc, p)
  {
    hide Advances;
  }

  lemma NotReplayed(paths: Paths, o: Opportunity, rc: Receipts, p: Protocol)
    requires Contract(p) && forall i :: !Replayable(o, Series(rc, o.key.symbol), i)
    ensures BothAdvance(paths, paths, o, rc, p)
    ensures forall g :: !NotedFor(paths, o, g, rc, p)
  {
    hide Replayable, Series;
  }

  /** An update of one signal with no gaps in the ledger. */
  lemma AloneAdvances(paths: Paths, o: Opportunity, rc: Receipts, p: Protocol)
    requires Contract(p)
    ensures var c := Alone(paths, o, rc, p);
      && BothAdvance(paths, c.paths, o, rc, p)
      && forall g :: g in c.gaps <==> SignalGap(o, g, rc) || NotedFor(paths, o, g, rc, p)
  {
    var b, bars := Book([], paths, [], None), Series(rc, o.key.symbol);
    var at := IndexOf(bars, o.key.openMs);
    EntryIs(o, rc);
    forall g ensures SignalGap(o, g, rc) <==> (
      var f := FirstBreak(bars, 0);
      if f.Break? then g == SequenceGap(o.key.symbol, f.prev, f.next)
      else if at.None? then g == EntryBarMissing(o.key)
      else !Usable(Atr(bars, at.value)) && g == EntryAtrIncomplete(o.key)) {
      SignalGapIs(o, rc, g);
    }
    hide Atr, Series, FirstBreak, IndexOf, UpdatePath, Replayable, SignalGap, BothAdvance, NotedFor;
    if i :| Replayable(o, bars, i) {
      OneEntry(o, rc, i);
      TwoPathsAdvance(b, o, i, rc, p);
    } else {
      NotReplayed(paths, o, rc, p);
    }
  }

  // ---------------------------------------------------------------- the whole ledger

  ghost predicate NotedBySome(b: Book, g: Gap, rc: Receipts, p: Protocol)
    requires Contract(p)
  {
    exists o <- b.opportunities :: SignalGap(o, g, rc) || NotedFor(b.paths, o, g, rc, p)
  }

  /** An update advances every path of every signal, notes the gap of each and no other, and touches
      nothing else. */
  lemma UpdateAdvances(b: Book, rc: Receipts, p: Protocol)
    requires Contract(p) && WellFormed(b)
    ensures var c := Updated(b, rc, p);
      && c.opportunities == b.opportunities && c.paths.Keys == b.paths.Keys && c.lastUpdate == Some((rc.scan, rc.asOf))
      && (forall o <- b.opportunities :: BothAdvance(b.paths, c.paths, o, rc, p))
      && (forall g :: g in c.gaps <==>
            g in b.gaps || NotedBySome(b, g, rc, p))
  {
    var n, c := |b.opportunities|, Updated(b, rc, p);
    FirstUpdatedTo(b, n, rc, p);
    FirstGrows(b, n, rc, p);
    hide UpdateFirst, Alone, SignalGap, NotedFor, Advances;
    forall o | o in b.opportunities ensures BothAdvance(b.paths, c.paths, o, rc, p) {
      var i :| 0 <= i < n && b.opportunities[i] == o;
      AloneAdvances(b.paths, o, rc, p);
    }
    forall g ensures NotedBySome(b, g, rc, p) <==>
      exists i :: 0 <= i < n && g in Alone(b.paths, b.opportunities[i], rc, p).gaps {
      forall i | 0 <= i < n ensures g in Alone(b.paths, b.opportunities[i], rc, p).gaps <==>
        SignalGap(b.opportunities[i], g, rc) || NotedFor(b.paths, b.opportunities[i], g, rc, p) {
        AloneAdvances(b.paths, b.opportunities[i], rc, p);
      }
    }
  }

  /** A report of the signal's own trade: bought, it risks a fall and peaks above the entry; sold, it
      risks a rise and peaks below. */
  predicate OnSide(k: Key, r: Report) {
    && r.entryOpenMs == k.openMs
    && if k.buy then r.initialStop < r.entryPrice <= r.peakPrice else r.peakPrice <= r.entryPrice < r.initialStop
  }

  lemma ReportOnSide(o: Opportunity, path: Path, bars: seq<Bar>, at: nat, p: Protocol, r: Report)
    requires Contract(p) && Replayable(o, bars, at)
    requires CaseOf(o, path, bars, at, p).Given() && Reports(CaseOf(o, path, bars, at, p), r)
    ensures OnSide(o.key, r) && r.entryPrice == o.entry
  {
    hide Atr, FourHourly, Quiet, Ends, FirstArmed, Case.IsStop, InRisks;
    ProductSign(Atr(bars, at).value, p(path).initialStopAtr, Atr(bars, at).value * p(path).initialStopAtr);
  }

  /** Every path that an update rewrites reports the trade of its signal. */
  lemma RewrittenOnSide(b: Book, rc: Receipts, p: Protocol)
    requires Contract(p) && WellFormed(b)
    ensures var c := Updated(b, rc, p);
      forall q <- b.paths :: q in c.paths && (c.paths[q] != b.paths[q] ==>
        c.paths[q].Recorded? && OnSide(q.0, c.paths[q].report))
  {
    UpdateAdvances(b, rc, p);
    var c := Updated(b, rc, p);
    hide Updated, Series, Replayable, OnSide, Reports, CaseOf, SignalGap, NotedBySome;
    forall q | q in b.paths && c.paths[q] != b.paths[q] ensures c.paths[q].Recorded? && OnSide(q.0, c.paths[q].report) {
      var i :| 0 <= i < |b.opportunities| && b.opportunities[i].key == q.0;
      var o := b.opportunities[i];
      assert BothAdvance(b.paths, c.paths, o, rc, p);
      var at :| Replayable(o, Series(rc, o.key.symbol), at);
      ReportOnSide(o, q.1, Series(rc, o.key.symbol), at, p, c.paths[q].report);
    }
  }

  // ---------------------------------------------------------------- recording

  /** The decision is on a declared symbol and inside the window, and its i-th signal is the strategy's. */
  predicate Counts(d: Decision, i: nat, window: (int, int), versions: map<string, seq<Bar>>) {
    d.symbol in versions && window.0 <= d.ms && d.ms < window.1 && i < |d.signals| && d.signals[i].ours
  }

  /** v is the newest bar of the symbol that had closed by the decision. */
  ghost predicate SignalBar(d: Decision, v: Bar, versions: map<string, seq<Bar>>)
    requires d.symbol in versions
  {
    && v in versions[d.symbol] && v.openMs + 14_400_000 <= d.ms
    && forall w <- versions[d.symbol] :: w.openMs + 14_400_000 <= d.ms ==> w.openMs <= v.openMs
  }

  /** The i-th signal of the decision is the opportunity: its side, its bar, entered at its close. */
  ghost predicate Offers(d: Decision, i: nat, o: Opportunity, window: (int, int), versions: map<string, seq<Bar>>) {
    Counts(d, i, window, versions) && exists v ::
      SignalBar(d, v, versions) && o == Opportunity(Key(d.symbol, d.signals[i].buy, v.openMs), v.close)
  }

  /** No bar had closed by the decision. */
  ghost predicate Misses(d: Decision, i: nat, g: Gap, window: (int, int), versions: map<string, seq<Bar>>) {
    Counts(d, i, window, versions) && g == SignalBarMissing(d.id, d.symbol) && forall v :: !SignalBar(d, v, versions)
  }

  /** What one signal adds to the ledger. */
  ghost predicate Takes(b: Book, c: Book, d: Decision, i: nat, window: (int, int), versions: map<string, seq<Bar>>) {
    if exists o :: Offers(d, i, o, window, versions) && !Known(b, o.key) then
      exists o :: Offers(d, i, o, window, versions) && !Known(b, o.key)
        && c == b.(opportunities := b.opportunities + [o],
                   paths := b.paths[(o.key, Control) := Opened(o.entry)][(o.key, Giveback) := Opened(o.entry)])
    else if exists g :: Misses(d, i, g, window, versions) then
      exists g :: Misses(d, i, g, window, versions) && c == b.(gaps := b.gaps + [g])
    else c == b
  }

  /** The books between the signals of one decision, the first before it and the last behind it. */
  ghost predicate Taking(books: seq<Book>, d: Decision, n: nat, window: (int, int), versions: map<string, seq<Bar>>) {
    |books| == n + 1 && forall i :: 0 <= i < n ==> Takes(books[i], books[i + 1], d, i, window, versions)
  }

  function Final(books: seq<Book>): Book
    requires books != []
  {
    books[|books| - 1]
  }

  lemma SignalBarIs(d: Decision, versions: map<string, seq<Bar>>)
    requires d.symbol in versions
    ensures var v := LatestClosed(versions[d.symbol], d.ms);
      if v.Some? then
        SignalBar(d, v.value, versions) && forall w :: SignalBar(d, w, versions) ==> w.openMs == v.value.openMs
      else forall w :: !SignalBar(d, w, versions)
  {
    hide LatestClosed;
  }

  lemma SignalTakes(b: Book, d: Decision, i: nat, window: (int, int), versions: map<string, seq<Bar>>)
    requires InWindow(d, window, versions) && i < |d.signals|
    ensures Takes(b, RecordSignal(b, d, d.signals[i], versions), d, i, window, versions)
  {
    SignalBarIs(d, versions);
    hide LatestClosed, Known, SignalBar;
    var v := LatestClosed(versions[d.symbol], d.ms);
    if d.signals[i].ours {
      if v.None? {
        assert Misses(d, i, SignalBarMissing(d.id, d.symbol), window, versions);
      } else {
        var o := Opportunity(Key(d.symbol, d.signals[i].buy, v.value.openMs), v.value.close);
        assert Offers(d, i, o, window, versions);
      }
    }
  }

  lemma OutsideTakes(b: Book, d: Decision, i: nat, window: (int, int), versions: map<string, seq<Bar>>)
    requires !InWindow(d, window, versions)
    ensures Takes(b, b, d, i, window, versions)
  {
  }

  lemma {:induction false} SignalsTake(
    b: Book, d: Decision, n: nat, window: (int, int), versions: map<string, seq<Bar>>)
    returns (books: seq<Book>)
    requires n <= |d.signals|
    ensures Taking(books, d, n, window, versions) && books[0] == b
    ensures books[n] == if InWindow(d, window, versions) then RecordSignals(b, d, n, versions) else b
  {
    if n == 0 {
      books := [b];
    } else {
      var before := SignalsTake(b, d, n - 1, window, versions);
      hide RecordSignal, Takes;
      var last := if InWindow(d, window, versions) then RecordSignals(b, d, n, versions) else b;
      if InWindow(d, window, versions) {
        SignalTakes(before[n - 1], d, n - 1, window, versions);
      } else {
        OutsideTakes(b, d, n - 1, window, versions);
      }
      books := before + [last];
    }
  }

  /** Recording takes every signal of every decision in order: a signal of the strategy in the window
      becomes an opportunity with two open paths, unless its key is known; without a closed bar it
      leaves a gap; all others leave nothing. */
  lemma {:induction false} RecordTakes(b: Book, ds: seq<Decision>, n: nat, window: (int, int),
      versions: map<string, seq<Bar>>) returns (books: seq<seq<Book>>)
    requires n <= |ds|
    ensures |books| == n && forall j :: 0 <= j < n ==> books[j] != []
    ensures forall j :: 0 <= j < n ==> Taking(books[j], ds[j], |ds[j].signals|, window, versions)
    ensures forall j :: 0 <= j < n ==> books[j][0] == if j == 0 then b else Final(books[j - 1])
    ensures RecordAll(b, ds, n, window, versions) == if n == 0 then b else Final(books[n - 1])
  {
    if n == 0 {
      books := [];
    } else {
      var before := RecordTakes(b, ds, n - 1, window, versions);
      var m, d := RecordAll(b, ds, n - 1, window, versions), ds[n - 1];
      var last := SignalsTake(m, d, |d.signals|, window, versions);
      books := before + [last];
      hide RecordSignals, InWindow, Takes;
    }
  }
}
