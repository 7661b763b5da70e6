/** The ledger over scans that hold only the newest bars: when a closed path is reported to
    disagree with its replay although no bar has changed. */
module ShadowWindows {
  import opened Wrappers
  import opened ExitReplay
  import opened ExitWindows
  import opened ShadowLedger

  // ---------------------------------------------------------------- windows of a growing history

  /** All bars that a symbol ever has. */
  type History = string -> seq<Bar>

  /** Which bars of the history a scan shows. */
  datatype Span = Span(from: nat, until: nat)

  type Spans = string -> Span

  predicate Rising(bars: seq<Bar>) {
    forall i, j :: 0 <= i < j < |bars| ==> bars[i].openMs < bars[j].openMs
  }

  ghost predicate Growing(h: History) {
    forall s: string :: Rising(h(s))
  }

  predicate Within(w: Span, bars: seq<Bar>) {
    w.from <= w.until <= |bars|
  }

  function Shown(bars: seq<Bar>, w: Span): seq<Bar>
    requires Within(w, bars)
  {
    bars[w.from..w.until]
  }

  ghost predicate Shows(rc: Receipts, h: History, w: Spans) {
    forall s: string :: Within(w(s), h(s)) && Series(rc, s) == Shown(h(s), w(s))
  }

  predicate NotBefore(v: Span, w: Span) {
    v.from <= w.from && v.until <= w.until
  }

  ghost predicate Slid(v: Spans, w: Spans) {
    forall s: string :: NotBefore(v(s), w(s))
  }

  /** The updates of a run see windows of the history that only ever move on: no bar changes, new
      ones come behind, and old ones may fall out in front. */
  ghost predicate Sliding(es: seq<Event>, h: History, ws: seq<Spans>) {
    && |ws| == |es|
    && (forall i :: 0 <= i < |es| && es[i].Update? ==> Shows(es[i].rc, h, ws[i]))
    && (forall i, j :: 0 <= i < j < |es| && es[i].Update? && es[j].Update? ==> Slid(ws[i], ws[j]))
  }

  const EMPTY_BOOK := Book([], map[], [], None)

  // ---------------------------------------------------------------- one closed path

  /** A report that the replay gave over some window of the history. */
  ghost predicate Witnessed(o: Opportunity, path: Path, r: Report, bars: seq<Bar>, at: nat, w: Span, p: Protocol) {
    && Within(w, bars) && w.from <= at < w.until && bars[at].openMs == o.key.openMs
    && Ready(Shown(bars, w), at - w.from, p(path))
    && r == Replayed(path, SideOf(o.key), o.entry, Shown(bars, w), at - w.from, p(path))
  }

  /** The entry bar is the first bar of the window that has an ATR, and the window starts with a gap. */
  predicate AtEdge(bars: seq<Bar>, from: nat, openMs: int) {
    from + ATR_PERIOD <= |bars| && bars[from + ATR_PERIOD - 1].openMs == openMs && Gapped(bars, from)
  }

  lemma GappedShift(bars: seq<Bar>, from: nat, until: nat, d: nat)
    requires from + d < until <= |bars|
    ensures Gapped(bars[from..until], d) ==> Gapped(bars, from + d)
  {
  }

  /** A path closed over an earlier window, replayed over the present one: the same exit unless the
      entry is at the edge; and off the entry price another exit exactly when the entry ATR changed. */
  lemma ClosedAgrees(
    o: Opportunity, path: Path, r: Report, bars: seq<Bar>, a: nat, v: Span, at: nat, w: Span, p: Protocol)
    requires Rising(bars) && Witnessed(o, path, r, bars, a, v, p) && r.closed && Within(w, bars) && NotBefore(v, w)
    requires at < |Shown(bars, w)| && Shown(bars, w)[at].openMs == o.key.openMs && Ready(Shown(bars, w), at, p(path))
    ensures var now := Replayed(path, SideOf(o.key), o.entry, Shown(bars, w), at, p(path));
      && (now.atrAtEntry == r.atrAtEntry ==> now == r)
      && (now.atrAtEntry != r.atrAtEntry ==> AtEdge(bars, w.from, o.key.openMs) && v.from < w.from)
      && (r.exitPrice != Some(o.entry) ==> (FrozenOf(now) == FrozenOf(r) <==> now.atrAtEntry == r.atrAtEntry))
  {
    hide Replayed, Ready, Gapped, SideOf;
    assert bars[w.from + at].openMs == bars[a].openMs;
    assert a == w.from + at;
    var all, n, d := bars[v.from..w.until], v.until - v.from, w.from - v.from;
    Slices(bars, v, w);
    ClosedThenSlid(path, SideOf(o.key), o.entry, all, n, d, a - v.from, p(path));
    GappedShift(bars, v.from, w.until, d);
    FirstNotGapped(all);
  }

  lemma Slices(bars: seq<Bar>, v: Span, w: Span)
    requires Within(v, bars) && Within(w, bars) && NotBefore(v, w) && w.from <= v.until
    ensures bars[v.from..w.until][..v.until - v.from] == Shown(bars, v)
    ensures bars[v.from..w.until][w.from - v.from..] == Shown(bars, w)
  {
  }

  lemma FirstNotGapped(bars: seq<Bar>)
    requires bars != []
    ensures !Gapped(bars, 0)
  {
  }

  // ---------------------------------------------------------------- one update

  /** Every closed path of the opportunity was closed over a window not after the given one. */
  ghost predicate Explained(b: Book, o: Opportunity, bars: seq<Bar>, now: Span, p: Protocol) {
    forall path: Path :: (o.key, path) in b.paths && b.paths[(o.key, path)].IsClosed() ==>
      ClosedBefore(o, path, b.paths[(o.key, path)].report, bars, now, p)
  }

  ghost predicate ClosedBefore(o: Opportunity, path: Path, r: Report, bars: seq<Bar>, now: Span, p: Protocol) {
    exists at: nat, w: Span :: NotBefore(w, now) && Witnessed(o, path, r, bars, at, w, p)
  }

  ghost predicate AllExplained(b: Book, h: History, now: Spans, p: Protocol) {
    forall i :: 0 <= i < |b.opportunities| ==>
      var s := b.opportunities[i].key.symbol; Explained(b, b.opportunities[i], h(s), now(s), p)
  }

  /** A gap that is no mismatch, or a real one of an entry at the edge of the window. */
  ghost predicate Excused(g: Gap, h: History, now: Spans) {
    g.ReplayMismatch? ==>
      g.recorded != g.replayed && AtEdge(h(g.key.symbol), now(g.key.symbol).from, g.key.openMs)
  }

  lemma PathExplained(b: Book, o: Opportunity, path: Path, bars: seq<Bar>, w: Span, at: nat, rc: Receipts, p: Protocol)
    requires Contract(p) && Rising(bars) && Within(w, bars) && at < |Shown(bars, w)| && Usable(Atr(Shown(bars, w), at))
    requires Shown(bars, w)[at].openMs == o.key.openMs && Explained(b, o, bars, w, p)
    ensures var c := UpdatePath(b, o, path, Shown(bars, w), at, rc, p);
      && Explained(c, o, bars, w, p)
      && (forall g <- c.gaps :: g in b.gaps
           || (g.ReplayMismatch? ==> g.key == o.key && g.recorded != g.replayed && AtEdge(bars, w.from, o.key.openMs)))
  {
    hide Replayed, Atr, AtEdge, Shown;
    var c := UpdatePath(b, o, path, Shown(bars, w), at, rc, p);
    if (o.key, path) in b.paths {
      var before := b.paths[(o.key, path)];
      var now := Replayed(path, SideOf(o.key), o.entry, Shown(bars, w), at, p(path));
      if before.IsClosed() {
        assert ClosedBefore(o, path, before.report, bars, w, p);
        var a: nat, v: Span :| NotBefore(v, w) && Witnessed(o, path, before.report, bars, a, v, p);
        ClosedAgrees(o, path, before.report, bars, a, v, at, w, p);
      } else {
        ReplayWitnessed(o, path, bars, at, w, p);
        NewlyExplained(b, o, path, bars, w, Recorded(now, rc.scan, rc.asOf), p);
      }
    }
  }

  lemma ReplayWitnessed(o: Opportunity, path: Path, bars: seq<Bar>, at: nat, w: Span, p: Protocol)
    requires Within(w, bars) && at < |Shown(bars, w)| && Shown(bars, w)[at].openMs == o.key.openMs
    requires Ready(Shown(bars, w), at, p(path))
    ensures ClosedBefore(o, path, Replayed(path, SideOf(o.key), o.entry, Shown(bars, w), at, p(path)), bars, w, p)
  {
    hide Replayed, Ready;
    var r := Replayed(path, SideOf(o.key), o.entry, Shown(bars, w), at, p(path));
    assert Witnessed(o, path, r, bars, w.from + at, w, p);
  }

  lemma NewlyExplained(b: Book, o: Opportunity, path: Path, bars: seq<Bar>, w: Span, record: PathRecord, p: Protocol)
    requires Explained(b, o, bars, w, p) && (record.IsClosed() ==> ClosedBefore(o, path, record.report, bars, w, p))
    ensures Explained(b.(paths := b.paths[(o.key, path) := record]), o, bars, w, p)
  {
    hide ClosedBefore;
  }

  lemma OneExplained(b: Book, o: Opportunity, h: History, now: Spans, rc: Receipts, p: Protocol)
    requires Contract(p) && Growing(h) && Shows(rc, h, now)
    requires Explained(b, o, h(o.key.symbol), now(o.key.symbol), p)
    ensures var c := UpdateOne(b, o, rc, p);
      Explained(c, o, h(o.key.symbol), now(o.key.symbol), p) && forall g <- c.gaps :: g in b.gaps || Excused(g, h, now)
  {
    hide Replayed, Atr, Series, FirstBreak, UpdatePath, Explained, IndexOf, AtEdge, Rising, Shown;
    var s := o.key.symbol;
    var bars := Series(rc, s);
    if FirstBreak(bars, 0).NoBreak? {
      var at := IndexOf(bars, o.key.openMs);
      if at.Some? && Usable(Atr(bars, at.value)) {
        PathExplained(b, o, Control, h(s), now(s), at.value, rc, p);
        PathExplained(UpdatePath(b, o, Control, bars, at.value, rc, p), o, Giveback, h(s), now(s), at.value, rc, p);
      } else {
        SamePaths(b, UpdateOne(b, o, rc, p), o, h(s), now(s), p);
      }
    } else {
      SamePaths(b, UpdateOne(b, o, rc, p), o, h(s), now(s), p);
    }
  }

  lemma SamePaths(b: Book, c: Book, o: Opportunity, bars: seq<Bar>, w: Span, p: Protocol)
    requires Explained(b, o, bars, w, p)
    requires forall path: Path :: (o.key, path) in c.paths && c.paths[(o.key, path)].IsClosed() ==>
      (o.key, path) in b.paths && c.paths[(o.key, path)] == b.paths[(o.key, path)]
    ensures Explained(c, o, bars, w, p)
  {
    hide ClosedBefore;
  }

  lemma OthersExplained(m: Book, c: Book, o: Opportunity, k: Key, bars: seq<Bar>, w: Span, p: Protocol)
    requires Grows(m, c, k) && o.key != k && Explained(m, o, bars, w, p)
    ensures Explained(c, o, bars, w, p)
  {
    SamePaths(m, c, o, bars, w, p);
  }

  lemma {:induction false} FirstExplained(b: Book, n: nat, h: History, now: Spans, rc: Receipts, p: Protocol)
    requires Contract(p) && DistinctKeys(b) && n <= |b.opportunities| && Growing(h) && Shows(rc, h, now)
    requires AllExplained(b, h, now, p)
    ensures var c := UpdateFirst(b, n, rc, p);
      AllExplained(c, h, now, p) && forall g <- c.gaps :: g in b.gaps || Excused(g, h, now)
  {
    hide UpdateOne, UpdateFirst, Explained, Done, Grows, Shows, Growing, Excused;
    FirstUnfolds(b, n, rc, p);
    if n > 0 {
      FirstExplained(b, n - 1, h, now, rc, p);
      FirstGrows(b, n - 1, rc, p);
      FirstGrows(b, n, rc, p);
      var m, o := UpdateFirst(b, n - 1, rc, p), b.opportunities[n - 1];
      var c := UpdateFirst(b, n, rc, p);
      OneStep(m, o, rc, p);
      OneExplained(m, o, h, now, rc, p);
      forall i | 0 <= i < |b.opportunities|
        ensures var s := b.opportunities[i].key.symbol; Explained(c, b.opportunities[i], h(s), now(s), p)
      {
        var q := b.opportunities[i];
        if i != n - 1 { OthersExplained(m, c, q, o.key, h(q.key.symbol), now(q.key.symbol), p); }
      }
    }
  }

  // ---------------------------------------------------------------- runs

  /** Some update of the run saw the entry of the gap at the edge of its window. */
  ghost predicate Blamed(g: Gap, es: seq<Event>, h: History, ws: seq<Spans>)
    requires |ws| == |es|
  {
    g.ReplayMismatch? ==> exists i :: 0 <= i < |es| && es[i].Update? && Excused(g, h, ws[i])
  }

  lemma LaterExplained(b: Book, h: History, was: Spans, now: Spans, p: Protocol)
    requires AllExplained(b, h, was, p) && Slid(was, now)
    ensures AllExplained(b, h, now, p)
  {
    hide Witnessed;
    forall i | 0 <= i < |b.opportunities|
      ensures Explained(b, b.opportunities[i], h(b.opportunities[i].key.symbol), now(b.opportunities[i].key.symbol), p)
    {
      var o := b.opportunities[i];
      forall path: Path | (o.key, path) in b.paths && b.paths[(o.key, path)].IsClosed()
        ensures ClosedBefore(o, path, b.paths[(o.key, path)].report, h(o.key.symbol), now(o.key.symbol), p)
      {
        LaterClosed(o, path, b.paths[(o.key, path)].report, h(o.key.symbol), was(o.key.symbol), now(o.key.symbol), p);
      }
    }
  }

  lemma LaterClosed(o: Opportunity, path: Path, r: Report, bars: seq<Bar>, was: Span, now: Span, p: Protocol)
    requires ClosedBefore(o, path, r, bars, was, p) && NotBefore(was, now)
    ensures ClosedBefore(o, path, r, bars, now, p)
  {
    hide Witnessed;
    var at: nat, w: Span :| NotBefore(w, was) && Witnessed(o, path, r, bars, at, w, p);
    assert NotBefore(w, now);
  }

  lemma RecordExplained(b: Book, c: Book, h: History, now: Spans, p: Protocol)
    requires Recording(b, c) && WellFormed(b) && AllExplained(b, h, now, p)
    ensures AllExplained(c, h, now, p) && forall g <- c.gaps :: g in b.gaps || !g.ReplayMismatch?
  {
    hide ClosedBefore;
    forall i | 0 <= i < |c.opportunities|
      ensures Explained(c, c.opportunities[i], h(c.opportunities[i].key.symbol), now(c.opportunities[i].key.symbol), p)
    {
      var o := c.opportunities[i];
      forall path: Path | (o.key, path) in c.paths && c.paths[(o.key, path)].IsClosed()
        ensures ClosedBefore(o, path, c.paths[(o.key, path)].report, h(o.key.symbol), now(o.key.symbol), p)
      {
        assert (o.key, path) in b.paths;
        assert Known(b, o.key);
        var j :| 0 <= j < |b.opportunities| && b.opportunities[j].key == o.key;
        assert c.opportunities[j] == b.opportunities[j];
        assert i == j;
        assert Explained(b, b.opportunities[j], h(o.key.symbol), now(o.key.symbol), p);
      }
    }
    forall g | g in c.gaps ensures g in b.gaps || !g.ReplayMismatch? {
      var i :| 0 <= i < |c.gaps| && c.gaps[i] == g;
      if i < |b.gaps| { assert b.gaps[i] == g; }
    }
  }

  /** Over any run from an empty ledger whose scans show windows of growing histories: every closed
      path is explained by a window, and a mismatch is only ever reported of an entry that some
      update saw at the edge, where the window starts at a gap and the entry is its first bar with
      an ATR. */
  lemma {:induction false} MismatchesAtEdges(es: seq<Event>, h: History, ws: seq<Spans>, now: Spans, p: Protocol)
    requires Contract(p) && Growing(h) && Sliding(es, h, ws)
    requires forall i :: 0 <= i < |es| && es[i].Update? ==> Slid(ws[i], now)
    ensures var b := Run(EMPTY_BOOK, es, p);
      WellFormed(b) && AllExplained(b, h, now, p) && forall g <- b.gaps :: Blamed(g, es, h, ws)
  {
    if es != [] {
      hide AllExplained, Excused, Growing, Shows, Slid;
      var k := |es| - 1;
      var m, e := Run(EMPTY_BOOK, es[..k], p), es[k];
      match e
      case Record(ds, window, versions) =>
        MismatchesAtEdges(es[..k], h, ws[..k], now, p);
        AllRecord(m, ds, |ds|, window, versions);
        RecordExplained(m, RecordAll(m, ds, |ds|, window, versions), h, now, p);
        BlameKept(m.gaps, es, h, ws, k);
      case Update(rc) =>
        MismatchesAtEdges(es[..k], h, ws[..k], ws[k], p);
        UpdateExplained(m, h, ws[k], rc, p);
        LaterExplained(Updated(m, rc, p), h, ws[k], now, p);
        BlameKept(m.gaps, es, h, ws, k);
        hide Updated, RecordAll;
        forall g | g in Updated(m, rc, p).gaps ensures Blamed(g, es, h, ws) {
        }
    }
  }

  lemma BlameKept(gaps: seq<Gap>, es: seq<Event>, h: History, ws: seq<Spans>, k: nat)
    requires k <= |es| == |ws| && forall g <- gaps :: Blamed(g, es[..k], h, ws[..k])
    ensures forall g <- gaps :: Blamed(g, es, h, ws)
  {
    hide Excused;
    forall g | g in gaps ensures Blamed(g, es, h, ws) {
      if g.ReplayMismatch? {
        var i :| 0 <= i < k && es[..k][i].Update? && Excused(g, h, ws[..k][i]);
        assert es[i].Update? && Excused(g, h, ws[i]);
      }
    }
  }

  lemma UpdateExplained(b: Book, h: History, now: Spans, rc: Receipts, p: Protocol)
    requires Contract(p) && Growing(h) && WellFormed(b) && Shows(rc, h, now) && AllExplained(b, h, now, p)
    ensures var c := Updated(b, rc, p);
      WellFormed(c) && AllExplained(c, h, now, p) && forall g <- c.gaps :: g in b.gaps || Excused(g, h, now)
  {
    UpdateKeeps(b, rc, p);
    FirstExplained(b, |b.opportunities|, h, now, rc, p);
    hide UpdateFirst, Shows, Growing, Excused, ClosedBefore;
  }

  /** So scans whose windows start without a gap, or at the very first bar of the history, never
      report a mismatch: in particular scans that only ever append. */
  lemma UngappedNeverMismatches(es: seq<Event>, h: History, ws: seq<Spans>, now: Spans, p: Protocol)
    requires Contract(p) && Growing(h) && Sliding(es, h, ws)
    requires forall i :: 0 <= i < |es| && es[i].Update? ==> Slid(ws[i], now)
    requires forall i :: 0 <= i < |es| && es[i].Update? ==> UngappedStarts(h, ws[i])
    ensures forall g <- Run(EMPTY_BOOK, es, p).gaps :: !g.ReplayMismatch?
  {
    MismatchesAtEdges(es, h, ws, now, p);
    hide Run, Sliding, Slid, Growing, AllExplained;
  }

  ghost predicate UngappedStarts(h: History, w: Spans) {
    forall s: string :: w(s).from == 0 || (w(s).from < |h(s)| ==> !Gapped(h(s), w(s).from))
  }

  /** An update gets as far as replaying the opportunity. */
  predicate Processed(o: Opportunity, bars: seq<Bar>) {
    && FirstBreak(bars, 0).NoBreak? && IndexOf(bars, o.key.openMs).Some?
    && Usable(Atr(bars, IndexOf(bars, o.key.openMs).value))
  }

  /** What the present bars replay to. */
  function Now(o: Opportunity, path: Path, bars: seq<Bar>, p: Protocol): Report
    requires Contract(p) && Processed(o, bars)
  {
    Replayed(path, SideOf(o.key), o.entry, bars, IndexOf(bars, o.key.openMs).value, p(path))
  }

  /** And exactly what the next update says of a path that is already closed: it reports a mismatch
      if and only if the frozen fields differ, which only happens at the edge, and, for an exit away
      from the entry price, exactly when the entry ATR is no longer the recorded one. */
  lemma NextUpdate(es: seq<Event>, h: History, ws: seq<Spans>, rc: Receipts, w: Spans, i: nat, path: Path, p: Protocol)
    requires Contract(p) && Growing(h) && |ws| == |es| && Sliding(es + [Update(rc)], h, ws + [w])
    requires var b := Run(EMPTY_BOOK, es, p); (i < |b.opportunities|
      && (b.opportunities[i].key, path) in b.paths && b.paths[(b.opportunities[i].key, path)].IsClosed()
      && Processed(b.opportunities[i], Series(rc, b.opportunities[i].key.symbol)))
    ensures var b := Run(EMPTY_BOOK, es, p);
      var o := b.opportunities[i];
      var was, now := b.paths[(o.key, path)].report, Now(o, path, Series(rc, o.key.symbol), p);
      var mismatch := ReplayMismatch(o.key, path, FrozenOf(was), FrozenOf(now));
      && (mismatch in Updated(b, rc, p).gaps <==> FrozenOf(was) != FrozenOf(now))
      && (FrozenOf(was) != FrozenOf(now) ==> AtEdge(h(o.key.symbol), w(o.key.symbol).from, o.key.openMs))
      && (was.exitPrice != Some(o.entry) ==> (FrozenOf(was) != FrozenOf(now) <==> now.atrAtEntry != was.atrAtEntry))
  {
    hide Run, Growing, Shows, Slid, AllExplained, Updated, AtEdge, Processed, Now, Series, Blamed;
    var b := Run(EMPTY_BOOK, es, p);
    SlidingFront(es, h, ws, rc, w);
    MismatchesAtEdges(es, h, ws, w, p);
    UpdateExplained(b, h, w, rc, p);
    NextReported(b, h, es, ws, w, rc, i, path, p);
    NextAgrees(b, h, w, rc, i, path, p);
  }

  lemma SlidingFront(es: seq<Event>, h: History, ws: seq<Spans>, rc: Receipts, w: Spans)
    requires |ws| == |es| && Sliding(es + [Update(rc)], h, ws + [w])
    ensures Sliding(es, h, ws) && Shows(rc, h, w) && forall i :: 0 <= i < |es| && es[i].Update? ==> Slid(ws[i], w)
  {
    hide Shows, Slid;
    var more, spans := es + [Update(rc)], ws + [w];
    assert more[|es|] == Update(rc) && spans[|es|] == w;
    forall i | 0 <= i < |es| && es[i].Update? ensures Shows(es[i].rc, h, ws[i]) && Slid(ws[i], w) {
      assert more[i] == es[i] && spans[i] == ws[i];
    }
    forall i, j | 0 <= i < j < |es| && es[i].Update? && es[j].Update? ensures Slid(ws[i], ws[j]) {
      assert more[i] == es[i] && more[j] == es[j] && spans[i] == ws[i] && spans[j] == ws[j];
    }
  }

  lemma NextReported(
    b: Book, h: History, es: seq<Event>, ws: seq<Spans>, w: Spans, rc: Receipts, i: nat, path: Path, p: Protocol)
    requires Contract(p) && WellFormed(b) && |ws| == |es| && i < |b.opportunities|
    requires forall g <- b.gaps :: Blamed(g, es, h, ws)
    requires forall g <- Updated(b, rc, p).gaps :: g in b.gaps || Excused(g, h, w)
    requires var o := b.opportunities[i]; ((o.key, path) in b.paths && b.paths[(o.key, path)].IsClosed()
      && Processed(o, Series(rc, o.key.symbol)))
    ensures var o := b.opportunities[i];
      var was, now := b.paths[(o.key, path)].report, Now(o, path, Series(rc, o.key.symbol), p);
      var mismatch := ReplayMismatch(o.key, path, FrozenOf(was), FrozenOf(now));
      mismatch in Updated(b, rc, p).gaps <==> FrozenOf(was) != FrozenOf(now)
  {
    var n, o := |b.opportunities|, b.opportunities[i];
    FirstAreDone(b, n, rc, p);
    FirstGrows(b, n, rc, p);
    hide UpdateFirst, Replayed, Atr, Series, FirstBreak, IndexOf, AtEdge;
    assert Done(UpdateFirst(b, n, rc, p), o, rc, p);
  }

  lemma NextAgrees(b: Book, h: History, w: Spans, rc: Receipts, i: nat, path: Path, p: Protocol)
    requires Contract(p) && Growing(h) && AllExplained(b, h, w, p) && Shows(rc, h, w) && i < |b.opportunities|
    requires var o := b.opportunities[i]; ((o.key, path) in b.paths && b.paths[(o.key, path)].IsClosed()
      && Processed(o, Series(rc, o.key.symbol)))
    ensures var o := b.opportunities[i];
      var was, now := b.paths[(o.key, path)].report, Now(o, path, Series(rc, o.key.symbol), p);
      && (FrozenOf(was) != FrozenOf(now) ==> AtEdge(h(o.key.symbol), w(o.key.symbol).from, o.key.openMs))
      && (was.exitPrice != Some(o.entry) ==> (FrozenOf(was) != FrozenOf(now) <==> now.atrAtEntry != was.atrAtEntry))
  {
    var o := b.opportunities[i];
    var s, was := o.key.symbol, b.paths[(o.key, path)].report;
    hide Replayed, Atr, Series, FirstBreak, AtEdge, Witnessed, Rising;
    assert Explained(b, o, h(s), w(s), p);
    var a: nat, v: Span :| NotBefore(v, w(s)) && Witnessed(o, path, was, h(s), a, v, p);
    ClosedAgrees(o, path, was, h(s), a, v, IndexOf(Series(rc, s), o.key.openMs).value, w(s), p);
  }

  // ---------------------------------------------------------------- two scans that disagree

  function Flat(i: nat): Bar { Bar(i * TF_MS, 100.0, 100.0, 100.0, "v", "h") }

  /** Flat at 86 up to bar 11, then at 100, with a spike in bar 13 and a dip in bar 26. */
  function ExampleBar(i: nat): Bar {
    if i <= 11 then Flat(i).(high := 86.0, low := 86.0, close := 86.0)
    else if i == 13 then Flat(13).(high := 114.0)
    else if i == 26 then Flat(26).(low := 95.0)
    else Flat(i)
  }

  function Example(): seq<Bar> { seq(38, i requires 0 <= i < 38 => ExampleBar(i)) }

  const EXAMPLE_KEY := Key("S", true, 25 * TF_MS)
  const EXAMPLE_CONFIG := Config(2.0, 1.0, 100, 4.0, 0.75)
  function Scan(from: nat, until: nat): Receipts
    requires from <= until <= 38
  {
    Receipts("scan", until, map["S" := Example()[from..until]])
  }

  lemma {:induction false} RisingInOrder(bars: seq<Bar>)
    requires Rising(bars)
    ensures InOrder(bars) == bars
  {
    if bars != [] {
      var front, last := bars[..|bars| - 1], bars[|bars| - 1];
      RisingInOrder(front);
      assert Insert(last, front) == front + [last];
      hide Insert;
    }
  }

  lemma {:induction false} EvenlySpaced(bars: seq<Bar>, i: nat)
    requires i < |bars| || bars == []
    requires forall j :: 0 <= j && j + 1 < |bars| ==> bars[j + 1].openMs - bars[j].openMs == TF_MS
    ensures FirstBreak(bars, i).NoBreak?
    decreases |bars| - i
  {
    if i + 1 < |bars| { EvenlySpaced(bars, i + 1); }
  }

  lemma ExampleOpening(i: nat)
    requires i < 38
    ensures |Example()| == 38 && Example()[i] == ExampleBar(i) && Example()[i].openMs == i * TF_MS
  {
  }

  lemma WindowOpening(from: nat, until: nat, j: nat)
    requires from <= until <= 38 && j < until - from
    ensures |Example()| == 38 && Example()[from..until][j].openMs == (from + j) * TF_MS
  {
    hide Example, ExampleBar;
    ExampleOpening(from + j);
  }

  lemma WindowOpenings(from: nat, until: nat)
    requires from < until <= 38
    ensures |Example()| == 38
    ensures var bars := Example()[from..until];
      Rising(bars) && forall j :: 0 <= j && j + 1 < |bars| ==> bars[j + 1].openMs - bars[j].openMs == TF_MS
  {
    hide Example;
    ExampleOpening(0);
    var bars := Example()[from..until];
    forall i, j | 0 <= i < j < |bars| ensures bars[i].openMs < bars[j].openMs {
      WindowOpening(from, until, i);
      WindowOpening(from, until, j);
    }
    forall j | 0 <= j && j + 1 < |bars| ensures bars[j + 1].openMs - bars[j].openMs == TF_MS {
      WindowOpening(from, until, j);
      WindowOpening(from, until, j + 1);
    }
  }

  lemma RisingIndex(bars: seq<Bar>, at: nat)
    requires Rising(bars) && at < |bars|
    ensures IndexOf(bars, bars[at].openMs) == Some(at)
  {
  }

  lemma ExampleSeries(from: nat, until: nat)
    requires from <= 25 < until <= 38
    ensures |Example()| == 38
    ensures var bars := Series(Scan(from, until), "S");
      bars == Example()[from..until] && FirstBreak(bars, 0).NoBreak? && IndexOf(bars, 25 * TF_MS) == Some(25 - from)
  {
    hide Example, Rising, IndexOf, InOrder, FirstBreak;
    WindowOpenings(from, until);
    var bars := Example()[from..until];
    RisingInOrder(bars);
    EvenlySpaced(bars, 0);
    WindowOpening(from, until, 25 - from);
    RisingIndex(bars, 25 - from);
  }

  lemma ExampleRange(j: nat)
    requires j < 38
    ensures |Example()| == 38 && TrueRange(Example(), j) ==
      if j == 12 || j == 13 then 14.0 else if j == 26 then 5.0 else 0.0
    ensures j == 12 ==> OwnRange(Example()[j]) == 0.0
  {
    ExampleOpening(j);
    if j > 0 { ExampleOpening(j - 1); }
    hide Example;
  }

  /** The true ranges of bars 12 and 13 are 14 each, all later ones up to the entry are 0. */
  lemma ExampleRanges()
    ensures |Example()| == 38
    ensures RangeSum(Example(), 12, 26) == 28.0 && RangeSum(Example(), 13, 26) == 14.0
    ensures Atr(Example(), 25) == Some(2.0) && Gapped(Example(), 12)
  {
    var bars := Example();
    ExampleRange(12);
    ExampleRange(13);
    ExampleOpening(12);
    forall j | 14 <= j < 26 ensures TrueRange(bars, j) == 0.0 { ExampleRange(j); }
    hide Example, TrueRange;
    ZeroRanges(bars, 12, 26);
    ZeroRanges(bars, 13, 26);
    assert RangeSum(bars, 13, 13) == 0.0;
    assert RangeSum(bars, 13, 14) == 14.0;
    assert RangeSum(bars, 12, 12) == 0.0;
    assert RangeSum(bars, 12, 13) == 14.0;
    assert RangeSum(bars, 12, 14) == 28.0;
  }

  lemma {:induction false} ZeroRanges(bars: seq<Bar>, lo: nat, hi: nat)
    requires lo <= 14 <= hi <= |bars| && forall j :: 14 <= j < hi ==> TrueRange(bars, j) == 0.0
    ensures RangeSum(bars, lo, hi) == RangeSum(bars, lo, 14)
  {
    if hi > 14 { ZeroRanges(bars, lo, hi - 1); }
  }

  const EXAMPLE_TRADE := Trade(Control, Long, 100.0, 14, 4.0, EXAMPLE_CONFIG)

  /** The dip in bar 26, the first one behind the entry, crosses the initial stop. */
  lemma DipCrosses(atr: Option<real>)
    ensures EXAMPLE_TRADE.Step(EXAMPLE_TRADE.Start(), ExampleBar(26), 15, atr).phase == Closed(15, 96.0, VirtualStop)
  {
  }

  lemma ExampleReady(bars: seq<Bar>, at: nat, atr: real)
    requires at < |bars| && Atr(bars, at) == Some(atr) && atr > 0.0
    ensures Ready(bars, at, EXAMPLE_CONFIG)
    ensures atr == 2.0 && at == 14 ==> TradeOf(Control, Long, 100.0, bars, at, EXAMPLE_CONFIG) == EXAMPLE_TRADE
  {
    hide Atr;
  }

  lemma ClosedReport(t: Trade, bars: seq<Bar>, s: Carried, j: nat, price: real)
    requires t.risk != 0.0 && t.at <= s.last < |bars| && Atr(bars, t.at).Some?
    requires s.phase == Closed(j, price, VirtualStop) && j < |bars|
    ensures var r := ReportOf(t, bars, s);
      r.closed && r.exitPrice == Some(price) && Some(r.atrAtEntry) == Atr(bars, t.at)
  {
    hide Atr;
  }

  lemma WindowAtr(all: seq<Bar>, from: nat, until: nat, j: nat)
    requires from + j < until <= |all| && j >= ATR_PERIOD
    ensures Atr(all[from..until], j) == Atr(all, from + j)
  {
    hide Atr;
    AtrShift(all, from, j);
    assert all[from..until] <= all[from..];
    AtrCausal(all[from..until], all[from..], j);
  }

  lemma FirstScanReady()
    ensures |Example()| == 38
    ensures var bars := Example()[11..37]; Atr(bars, 14) == Some(2.0) && bars[15] == ExampleBar(26)
  {
    hide Example, ExampleBar, Atr;
    ExampleRanges();
    ExampleOpening(26);
    WindowAtr(Example(), 11, 37, 14);
  }

  /** Over a scan with that entry ATR and that dip the path is stopped out at 96. */
  lemma StopsOut(bars: seq<Bar>)
    requires |bars| > 15 && Atr(bars, 14) == Some(2.0) && bars[15] == ExampleBar(26)
    ensures Ready(bars, 14, EXAMPLE_CONFIG)
    ensures var r := Replayed(Control, Long, 100.0, bars, 14, EXAMPLE_CONFIG);
      r.closed && r.exitPrice == Some(96.0) && r.atrAtEntry == 2.0
  {
    var t := EXAMPLE_TRADE;
    assert t.at == 14 && t.risk == 4.0;
    hide *;
    ExampleReady(bars, 14, 2.0);
    CarryAfterEntry(t, bars);
    DipCrosses(Atr(bars, 15));
    CrossedStays(t, bars, 96.0);
    CarryInRange(t, bars, |bars|);
    ReplayedIs(Control, Long, 100.0, bars, 14, EXAMPLE_CONFIG);
    ClosedReport(t, bars, t.Carry(bars, |bars|), 15, 96.0);
  }

  lemma CarryAfterEntry(t: Trade, bars: seq<Bar>)
    requires t.at + 2 <= |bars|
    ensures t.Carry(bars, t.at + 2) == t.Step(t.Start(), bars[t.at + 1], t.at + 1, Atr(bars, t.at + 1))
  {
    assert t.Carry(bars, t.at + 1) == t.Start();
    hide Atr, Trade.Step;
  }

  lemma CrossedStays(t: Trade, bars: seq<Bar>, price: real)
    requires t.at + 2 <= |bars| && t.Carry(bars, t.at + 2).phase == Closed(t.at + 1, price, VirtualStop)
    ensures t.Carry(bars, |bars|).phase == Closed(t.at + 1, price, VirtualStop)
  {
    CarryStays(t, bars, t.at + 2, |bars|);
    hide Trade.Carry;
  }

  lemma OneRangeLess(bars: seq<Bar>)
    requires |bars| == 38 && RangeSum(bars, 12, 26) == 28.0 && TrueRange(bars, 12) == 14.0 && OwnRange(bars[12]) == 0.0
    ensures Atr(bars[12..], 13) == Some(1.0)
  {
    RangeSumShift(bars, 12, 0, 14);
    hide RangeSum, TrueRange, OwnRange;
  }

  /** Over the second one, without bar 11, the entry ATR is halved. */
  lemma SecondScanReady()
    ensures |Example()| == 38
    ensures Ready(Example()[12..38], 13, EXAMPLE_CONFIG) && Atr(Example()[12..38], 13) == Some(1.0)
  {
    hide *;
    var all := Example();
    ExampleRanges();
    ExampleRange(12);
    OneRangeLess(all);
    assert all[12..] == all[12..38];
    ExampleReady(all[12..38], 13, 1.0);
  }

  /** The signal on bar 25, given when that bar has closed. */
  const EXAMPLE_DECISION := Decision("d", 26 * TF_MS, "S", [Signal(true, true)])

  function ExampleRun(): seq<Event> {
    [Record([EXAMPLE_DECISION], (0, 27 * TF_MS), Scan(0, 26).versions), Update(Scan(11, 37))]
  }

  function ExampleHistory(): History { s => if s == "S" then Example() else [] }

  function ExampleSpans(from: nat, until: nat): Spans {
    s => if s == "S" then Span(from, until) else Span(0, 0)
  }

  function ExampleProtocol(): Protocol { _ => EXAMPLE_CONFIG }

  lemma EntryIsClosed()
    ensures LatestClosed(Scan(0, 26).versions["S"], 26 * TF_MS) == Some(Flat(25))
  {
    hide Example, LatestClosed;
    ExampleOpening(25);
    var bars := Example()[0..26];
    assert bars[25] == Flat(25);
    assert Flat(25) in bars;
    var r := LatestClosed(bars, 26 * TF_MS);
    var j :| 0 <= j < 26 && bars[j] == r.value;
    WindowOpening(0, 26, j);
  }

  /** One signal on a symbol with a closed bar, recorded into the empty ledger. */
  lemma OneRecorded(d: Decision, window: (int, int), versions: map<string, seq<Bar>>, v: Bar)
    requires d.signals == [Signal(true, true)] && InWindow(d, window, versions)
    requires LatestClosed(versions[d.symbol], d.ms) == Some(v)
    ensures var k, b := Key(d.symbol, true, v.openMs), RecordAll(EMPTY_BOOK, [d], 1, window, versions);
      && b.opportunities == [Opportunity(k, v.close)] && b.gaps == []
      && (k, Control) in b.paths && b.paths[(k, Control)] == Opened(v.close)
  {
    hide LatestClosed;
    assert RecordAll(EMPTY_BOOK, [d], 0, window, versions) == EMPTY_BOOK;
    assert RecordSignals(EMPTY_BOOK, d, 0, versions) == EMPTY_BOOK;
    assert RecordSignals(EMPTY_BOOK, d, 1, versions) == RecordSignal(EMPTY_BOOK, d, d.signals[0], versions);
  }

  lemma RunFront(b: Book, es: seq<Event>, e: Event, p: Protocol)
    requires Contract(p)
    ensures Run(b, es + [e], p) == Apply(Run(b, es, p), e, p)
  {
    assert (es + [e])[..|es|] == es;
    hide Apply;
  }

  /** An update records the replay of an open control path. */
  lemma OpenAdvances(b: Book, o: Opportunity, rc: Receipts, p: Protocol)
    requires Contract(p) && b.opportunities == [o] && Processed(o, Series(rc, o.key.symbol))
    requires (o.key, Control) in b.paths && !b.paths[(o.key, Control)].IsClosed()
    ensures var c := Updated(b, rc, p);
      && c.opportunities == [o] && (o.key, Control) in c.paths
      && c.paths[(o.key, Control)] == Recorded(Now(o, Control, Series(rc, o.key.symbol), p), rc.scan, rc.asOf)
  {
    hide Replayed, Atr, Series, FirstBreak, IndexOf, UpdateOne;
    FirstUnfolds(b, 1, rc, p);
    FirstUnfolds(b, 0, rc, p);
    FirstGrows(b, 1, rc, p);
    OneAdvances(b, o, rc, p);
  }

  lemma OneAdvances(b: Book, o: Opportunity, rc: Receipts, p: Protocol)
    requires Contract(p) && Processed(o, Series(rc, o.key.symbol))
    requires (o.key, Control) in b.paths && !b.paths[(o.key, Control)].IsClosed()
    ensures var c := UpdateOne(b, o, rc, p);
      && (o.key, Control) in c.paths
      && c.paths[(o.key, Control)] == Recorded(Now(o, Control, Series(rc, o.key.symbol), p), rc.scan, rc.asOf)
  {
    hide Replayed, Atr, Series, FirstBreak, IndexOf;
  }

  const EXAMPLE_OPPORTUNITY := Opportunity(EXAMPLE_KEY, 100.0)

  /** A scan that shows the entry with its ATR gets as far as replaying the path. */
  lemma ScanReplays(rc: Receipts, bars: seq<Bar>, at: nat, atr: real)
    requires Series(rc, "S") == bars && at < |bars| && Atr(bars, at) == Some(atr) && atr > 0.0
    requires FirstBreak(bars, 0).NoBreak? && IndexOf(bars, 25 * TF_MS) == Some(at)
    ensures Processed(EXAMPLE_OPPORTUNITY, bars) && Ready(bars, at, EXAMPLE_CONFIG)
    ensures var now := Now(EXAMPLE_OPPORTUNITY, Control, bars, ExampleProtocol());
      now.atrAtEntry == atr && now == Replayed(Control, Long, 100.0, bars, at, EXAMPLE_CONFIG)
  {
    hide Atr, Replayed, FirstBreak, IndexOf;
    ExampleReady(bars, at, atr);
    EntryAtrReported(Control, Long, 100.0, bars, at, EXAMPLE_CONFIG);
  }

  lemma AfterRecording()
    ensures var b := Run(EMPTY_BOOK, [ExampleRun()[0]], ExampleProtocol());
      && b.opportunities == [EXAMPLE_OPPORTUNITY] && (EXAMPLE_KEY, Control) in b.paths
      && b.paths[(EXAMPLE_KEY, Control)].Opened?
  {
    var p, e, versions := ExampleProtocol(), ExampleRun()[0], Scan(0, 26).versions;
    hide Example, LatestClosed, RecordAll;
    EntryIsClosed();
    OneRecorded(EXAMPLE_DECISION, (0, 27 * TF_MS), versions, Flat(25));
    RunFront(EMPTY_BOOK, [], e, p);
    assert [] + [e] == [e];
  }

  lemma FirstScanCloses()
    ensures var bars := Series(Scan(11, 37), "S");
      && Processed(EXAMPLE_OPPORTUNITY, bars)
      && var now := Now(EXAMPLE_OPPORTUNITY, Control, bars, ExampleProtocol());
      now.closed && now.exitPrice == Some(96.0) && now.atrAtEntry == 2.0
  {
    hide *;
    FirstScanReady();
    ExampleSeries(11, 37);
    var bars := Example()[11..37];
    StopsOut(bars);
    ScanReplays(Scan(11, 37), bars, 14, 2.0);
  }

  lemma AfterFirstScan()
    ensures var b := Run(EMPTY_BOOK, ExampleRun(), ExampleProtocol());
      && b.opportunities == [EXAMPLE_OPPORTUNITY] && (EXAMPLE_KEY, Control) in b.paths
      && var q := b.paths[(EXAMPLE_KEY, Control)];
      q.IsClosed() && q.report.exitPrice == Some(96.0) && q.report.atrAtEntry == 2.0
  {
    var p, es := ExampleProtocol(), ExampleRun();
    var rc := Scan(11, 37);
    assert es == [es[0]] + [Update(rc)];
    var b := Run(EMPTY_BOOK, [es[0]], p);
    hide Run, Updated, Replayed, Processed, Now, Series, ExampleRun, Scan;
    AfterRecording();
    RunFront(EMPTY_BOOK, [es[0]], Update(rc), p);
    FirstScanCloses();
    OpenAdvances(b, EXAMPLE_OPPORTUNITY, rc, p);
  }

  lemma ScanShows(from: nat, until: nat)
    requires from <= 25 < until <= 38
    ensures Growing(ExampleHistory()) && Shows(Scan(from, until), ExampleHistory(), ExampleSpans(from, until))
  {
    hide Example, InOrder, FirstBreak, IndexOf;
    ExampleSeries(from, until);
    WindowOpenings(0, 38);
    assert Example()[0..38] == Example();
  }

  lemma SlidingPair(e: Event, a: Receipts, b: Receipts, h: History, u: Spans, v: Spans, w: Spans)
    requires e.Record? && Shows(a, h, v) && Shows(b, h, w) && Slid(v, w)
    ensures Sliding([e, Update(a), Update(b)], h, [u, v, w])
  {
    hide Shows, Slid;
  }

  lemma ExampleSlides()
    ensures Contract(ExampleProtocol()) && Growing(ExampleHistory())
    ensures Sliding(ExampleRun() + [Update(Scan(12, 38))], ExampleHistory(),
      [ExampleSpans(0, 0), ExampleSpans(11, 37), ExampleSpans(12, 38)])
  {
    ScanShows(11, 37);
    ScanShows(12, 38);
    assert Slid(ExampleSpans(11, 37), ExampleSpans(12, 38));
    var e := ExampleRun()[0];
    assert ExampleRun() + [Update(Scan(12, 38))] == [e, Update(Scan(11, 37)), Update(Scan(12, 38))];
    hide Scan, ExampleHistory, Growing, Shows, ExampleSpans, Slid, Sliding, Example;
    SlidingPair(e, Scan(11, 37), Scan(12, 38), ExampleHistory(),
      ExampleSpans(0, 0), ExampleSpans(11, 37), ExampleSpans(12, 38));
  }

  /** Two scans of the newest 26 bars, one bar apart. A trade opened at 100 is stopped out at 96 in
      the first. The second starts thirteen bars before the entry at the gap up from 86 to 100; no
      bar has changed, and it reports the closed path as a mismatch. */
  lemma ScansMismatch()
    ensures var h, p := ExampleHistory(), ExampleProtocol();
      var es := ExampleRun() + [Update(Scan(12, 38))];
      && Contract(p) && Growing(h) && Sliding(es, h, [ExampleSpans(0, 0), ExampleSpans(11, 37), ExampleSpans(12, 38)])
      && exists g <- Run(EMPTY_BOOK, es, p).gaps :: g.ReplayMismatch? && g.key == EXAMPLE_KEY && g.path == Control
  {
    var h, p, rc, w := ExampleHistory(), ExampleProtocol(), Scan(12, 38), ExampleSpans(12, 38);
    var es, ws := ExampleRun(), [ExampleSpans(0, 0), ExampleSpans(11, 37)];
    hide Example, Run, Sliding, Growing, Processed, Now, Series, Updated, Atr, FirstBreak, IndexOf;
    ExampleSlides();
    assert ws + [w] == [ExampleSpans(0, 0), ExampleSpans(11, 37), ExampleSpans(12, 38)];
    AfterFirstScan();
    SecondScanReady();
    ExampleSeries(12, 38);
    ScanReplays(rc, Example()[12..38], 13, 1.0);
    NextUpdate(es, h, ws, rc, w, 0, Control, p);
    RunFront(EMPTY_BOOK, es, Update(rc), p);
  }
}
