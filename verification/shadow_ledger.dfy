/** The shadow ledger around the exit replay: opportunities, their two virtual paths, coverage
    gaps, and the update that replays every open path against the latest declared bars. */
module ShadowLedger {
  import opened Wrappers
  import opened ExitReplay

  const TF_MS: int := 14_400_000

  // ---------------------------------------------------------------- declared series

  /** The latest complete scan: its identity and its bars by symbol. */
  datatype Receipts = Receipts(scan: string, asOf: int, versions: map<string, seq<Bar>>)

  function Insert(b: Bar, s: seq<Bar>): seq<Bar> {
    if s == [] || s[|s| - 1].openMs <= b.openMs then s + [b] else Insert(b, s[..|s| - 1]) + [s[|s| - 1]]
  }

  /** The bars in opening order; equal openings keep their order. */
  function InOrder(s: seq<Bar>): seq<Bar> {
    if s == [] then [] else Insert(s[|s| - 1], InOrder(s[..|s| - 1]))
  }

  datatype Break = NoBreak | Break(prev: int, next: int)

  /** The first place where two neighbours are not one bar apart. */
  function FirstBreak(bars: seq<Bar>, i: nat): Break
    requires i < |bars| || bars == []
    decreases |bars| - i
  {
    if bars == [] || i + 1 == |bars| then NoBreak
    else if bars[i + 1].openMs - bars[i].openMs != TF_MS then Break(bars[i].openMs, bars[i + 1].openMs)
    else FirstBreak(bars, i + 1)
  }

  function Series(rc: Receipts, symbol: string): seq<Bar> {
    if symbol in rc.versions then InOrder(rc.versions[symbol]) else []
  }

  /** Without a break every opening is fixed by its position. */
  lemma {:induction false} Spaced(bars: seq<Bar>, i: nat, j: nat)
    requires i <= j < |bars| && FirstBreak(bars, i).NoBreak?
    ensures bars[j].openMs - bars[i].openMs == (j - i) * TF_MS
    decreases j - i
  {
    if i < j { Spaced(bars, i + 1, j); }
  }

  lemma OpeningsDistinct(bars: seq<Bar>, i: nat, j: nat)
    requires i < |bars| && j < |bars| && FirstBreak(bars, 0).NoBreak? && bars[i].openMs == bars[j].openMs
    ensures i == j
  {
    Spaced(bars, 0, i);
    Spaced(bars, 0, j);
  }

  /** Position of the bar that opened at ms. */
  function IndexOf(bars: seq<Bar>, ms: int): (r: Option<nat>)
    ensures r.Some? ==> r.value < |bars| && bars[r.value].openMs == ms
    ensures r.None? ==> forall i :: 0 <= i < |bars| ==> bars[i].openMs != ms
  {
    if bars == [] then None
    else if bars[|bars| - 1].openMs == ms then Some(|bars| - 1)
    else IndexOf(bars[..|bars| - 1], ms)
  }

  // ---------------------------------------------------------------- ledger contents

  datatype Key = Key(symbol: string, buy: bool, openMs: int)

  datatype Opportunity = Opportunity(key: Key, entry: real)

  datatype PathRecord = Opened(entry: real) | Recorded(report: Report, scan: string, asOf: int) {
    predicate IsClosed() { Recorded? && report.closed }
  }

  /** The fields that must never change once a path is closed. */
  datatype Frozen = Frozen(
    closed: bool, reason: Option<Reason>, price: Option<real>, r: Option<real>, trigger: Option<int>)

  function FrozenOf(r: Report): Frozen {
    Frozen(r.closed, r.exitReason, r.exitPrice, r.exitR, r.triggerOpenMs)
  }

  datatype Gap =
    | SignalBarMissing(decision: string, symbol: string)
    | SequenceGap(symbol: string, prev: int, next: int)
    | EntryBarMissing(key: Key)
    | EntryAtrIncomplete(key: Key)
    | PathTruncated(key: Key, path: Path, openMs: int)
    | ReplayMismatch(key: Key, path: Path, recorded: Frozen, replayed: Frozen)

  datatype Book = Book(
    opportunities: seq<Opportunity>, paths: map<(Key, Path), PathRecord>, gaps: seq<Gap>,
    lastUpdate: Option<(string, int)>)

  /** The protocol's geometry for each path. */
  type Protocol = Path -> Config

  ghost predicate Contract(p: Protocol) {
    forall path: Path :: p(path).initialStopAtr > 0.0
  }

  // ---------------------------------------------------------------- one update

  /** An identical gap is recorded once. */
  function AddGap(b: Book, g: Gap): Book {
    if g in b.gaps then b else b.(gaps := b.gaps + [g])
  }

  function SideOf(k: Key): Side { if k.buy then Long else Short }

  /** Update one path of an opportunity whose entry bar is bars[at]. */
  function UpdatePath(b: Book, o: Opportunity, path: Path, bars: seq<Bar>, at: nat, rc: Receipts, p: Protocol): Book
    requires Contract(p) && at < |bars| && Usable(Atr(bars, at))
  {
    if (o.key, path) !in b.paths then b
    else
      var before := b.paths[(o.key, path)];
      var replayed := Replayed(path, SideOf(o.key), o.entry, bars, at, p(path));
      if before.IsClosed() then
        if FrozenOf(before.report) == FrozenOf(replayed) then b
        else AddGap(b, ReplayMismatch(o.key, path, FrozenOf(before.report), FrozenOf(replayed)))
      else
        var noted :=
          if replayed.truncatedAt.Some? then AddGap(b, PathTruncated(o.key, path, replayed.truncatedAt.value)) else b;
        noted.(paths := b.paths[(o.key, path) := Recorded(replayed, rc.scan, rc.asOf)])
  }

  function UpdateOne(b: Book, o: Opportunity, rc: Receipts, p: Protocol): Book
    requires Contract(p)
  {
    var bars := Series(rc, o.key.symbol);
    var broken := FirstBreak(bars, 0);
    if broken.Break? then AddGap(b, SequenceGap(o.key.symbol, broken.prev, broken.next))
    else
      var at := IndexOf(bars, o.key.openMs);
      if at.None? then AddGap(b, EntryBarMissing(o.key))
      else if !Usable(Atr(bars, at.value)) then AddGap(b, EntryAtrIncomplete(o.key))
      else UpdatePath(UpdatePath(b, o, Control, bars, at.value, rc, p), o, Giveback, bars, at.value, rc, p)
  }

  function UpdateFirst(b: Book, n: nat, rc: Receipts, p: Protocol): Book
    requires Contract(p) && n <= |b.opportunities|
  {
    if n == 0 then b else UpdateOne(UpdateFirst(b, n - 1, rc, p), b.opportunities[n - 1], rc, p)
  }

  function Updated(b: Book, rc: Receipts, p: Protocol): Book
    requires Contract(p)
  {
    UpdateFirst(b, |b.opportunities|, rc, p).(lastUpdate := Some((rc.scan, rc.asOf)))
  }

  // ---------------------------------------------------------------- recording opportunities

  datatype Signal = Signal(ours: bool, buy: bool)

  datatype Decision = Decision(id: string, ms: int, symbol: string, signals: seq<Signal>)

  predicate Earliest(bars: seq<Bar>, i: nat)
    requires i < |bars|
  {
    forall j :: 0 <= j < i ==> bars[j].openMs != bars[i].openMs
  }

  /** The newest bar that had closed at time ms; the first of them when several opened together. */
  function LatestClosed(bars: seq<Bar>, ms: int): (r: Option<Bar>)
    ensures r.Some? ==> r.value in bars && r.value.openMs + TF_MS <= ms
    ensures forall b <- bars :: b.openMs + TF_MS <= ms ==> r.Some? && b.openMs <= r.value.openMs
    ensures r.Some? ==> exists i :: 0 <= i < |bars| && bars[i] == r.value && Earliest(bars, i)
  {
    if bars == [] then None
    else
      var rest, b := LatestClosed(bars[..|bars| - 1], ms), bars[|bars| - 1];
      assert forall i :: 0 <= i < |bars| - 1 && Earliest(bars[..|bars| - 1], i) ==> Earliest(bars, i);
      if b.openMs + TF_MS <= ms && (rest.None? || rest.value.openMs < b.openMs) then Some(b) else rest
  }

  predicate Known(b: Book, k: Key) {
    exists i :: 0 <= i < |b.opportunities| && b.opportunities[i].key == k
  }

  /** A signal without a closed bar is a gap each time it is seen; a known opportunity is left alone. */
  function RecordSignal(b: Book, d: Decision, s: Signal, versions: map<string, seq<Bar>>): Book
    requires d.symbol in versions
  {
    if !s.ours then b
    else
      var v := LatestClosed(versions[d.symbol], d.ms);
      if v.None? then b.(gaps := b.gaps + [SignalBarMissing(d.id, d.symbol)])
      else
        var k := Key(d.symbol, s.buy, v.value.openMs);
        if Known(b, k) then b
        else b.(opportunities := b.opportunities + [Opportunity(k, v.value.close)],
                paths := b.paths[(k, Control) := Opened(v.value.close)][(k, Giveback) := Opened(v.value.close)])
  }

  function RecordSignals(b: Book, d: Decision, n: nat, versions: map<string, seq<Bar>>): Book
    requires d.symbol in versions && n <= |d.signals|
  {
    if n == 0 then b else RecordSignal(RecordSignals(b, d, n - 1, versions), d, d.signals[n - 1], versions)
  }

  /** Decisions of declared symbols inside the protocol's window. */
  predicate InWindow(d: Decision, window: (int, int), versions: map<string, seq<Bar>>) {
    d.symbol in versions && window.0 <= d.ms < window.1
  }

  function RecordAll(b: Book, ds: seq<Decision>, n: nat, window: (int, int), versions: map<string, seq<Bar>>): Book
    requires n <= |ds|
  {
    if n == 0 then b
    else
      var c, d := RecordAll(b, ds, n - 1, window, versions), ds[n - 1];
      if InWindow(d, window, versions) then RecordSignals(c, d, |d.signals|, versions) else c
  }

  /** The ledger database. */
  class Ledger {
    var opportunities: seq<Opportunity>
    var paths: map<(Key, Path), PathRecord>
    var gaps: seq<Gap>
    var lastUpdate: Option<(string, int)>

    function Contents(): Book
      reads this
    {
      Book(opportunities, paths, gaps, lastUpdate)
    }

    constructor ()
      ensures Contents() == Book([], map[], [], None)
    {
      opportunities, paths, gaps, lastUpdate := [], map[], [], None;
    }

    method Record(ds: seq<Decision>, window: (int, int), versions: map<string, seq<Bar>>)
      modifies this`opportunities, this`paths, this`gaps
      ensures Contents() == RecordAll(old(Contents()), ds, |ds|, window, versions)
    {
      ghost var start := Contents();
      for i := 0 to |ds|
        invariant Contents() == RecordAll(start, ds, i, window, versions)
      {
        var d := ds[i];
        if InWindow(d, window, versions) {
          ghost var before := Contents();
          for j := 0 to |d.signals|
            invariant Contents() == RecordSignals(before, d, j, versions)
          {
            if d.signals[j].ours {
              var v := LatestClosed(versions[d.symbol], d.ms);
              if v.None? {
                gaps := gaps + [SignalBarMissing(d.id, d.symbol)];
              } else {
                var k := Key(d.symbol, d.signals[j].buy, v.value.openMs);
                var found := Find(k);
                if !found {
                  opportunities := opportunities + [Opportunity(k, v.value.close)];
                  paths := paths[(k, Control) := Opened(v.value.close)][(k, Giveback) := Opened(v.value.close)];
                }
              }
            }
          }
        }
      }
    }

    method Find(k: Key) returns (found: bool)
      ensures found == Known(Contents(), k)
    {
      for i := 0 to |opportunities|
        invariant forall j :: 0 <= j < i ==> opportunities[j].key != k
      {
        if opportunities[i].key == k { return true; }
      }
      return false;
    }

    method NoteGap(g: Gap)
      modifies this`gaps
      ensures Contents() == AddGap(old(Contents()), g)
    {
      if g !in gaps { gaps := gaps + [g]; }
    }

    method AdvancePath(o: Opportunity, path: Path, bars: seq<Bar>, at: nat, rc: Receipts, p: Protocol)
      requires Contract(p) && at < |bars| && Usable(Atr(bars, at))
      modifies this`gaps, this`paths
      ensures Contents() == UpdatePath(old(Contents()), o, path, bars, at, rc, p)
      ensures forall g <- old(gaps) :: g in gaps
    {
      if (o.key, path) !in paths { return; }
      var before := paths[(o.key, path)];
      var replayed := Replay(path, SideOf(o.key), o.entry, bars, at, p(path));
      if before.IsClosed() {
        if FrozenOf(before.report) != FrozenOf(replayed) {
          NoteGap(ReplayMismatch(o.key, path, FrozenOf(before.report), FrozenOf(replayed)));
        }
        return;
      }
      if replayed.truncatedAt.Some? { NoteGap(PathTruncated(o.key, path, replayed.truncatedAt.value)); }
      var after := Recorded(replayed, rc.scan, rc.asOf);
      if after != before { paths := paths[(o.key, path) := after]; }
    }

    /** Advance every eligible path once; the series of a symbol is examined once per run. */
    method Update(rc: Receipts, p: Protocol)
      requires Contract(p)
      modifies this
      ensures Contents() == Updated(old(Contents()), rc, p)
    {
      hide Replayed, Atr, Series, FirstBreak, IndexOf, UpdatePath;
      ghost var start := Contents();
      var broken: map<string, bool> := map[];
      var i := 0;
      while i < |opportunities|
        invariant 0 <= i <= |opportunities| && opportunities == start.opportunities
        invariant Contents() == UpdateFirst(start, i, rc, p)
        invariant forall s <- broken :: broken[s] == FirstBreak(Series(rc, s), 0).Break?
        invariant forall s <- broken :: broken[s] ==>
          var f := FirstBreak(Series(rc, s), 0); SequenceGap(s, f.prev, f.next) in gaps
      {
        var o := opportunities[i];
        var symbol := o.key.symbol;
        var bars := Series(rc, symbol);
        if symbol !in broken {
          var f := FirstBreak(bars, 0);
          if f.Break? { NoteGap(SequenceGap(symbol, f.prev, f.next)); }
          broken := broken[symbol := f.Break?];
        }
        if !broken[symbol] {
          var at := IndexOf(bars, o.key.openMs);
          if at.None? {
            NoteGap(EntryBarMissing(o.key));
          } else if !Usable(Atr(bars, at.value)) {
            NoteGap(EntryAtrIncomplete(o.key));
          } else {
            AdvancePath(o, Control, bars, at.value, rc, p);
            AdvancePath(o, Giveback, bars, at.value, rc, p);
          }
        }
        i := i + 1;
        assert Contents() == UpdateOne(UpdateFirst(start, i - 1, rc, p), o, rc, p);
      }
      lastUpdate := Some((rc.scan, rc.asOf));
    }
  }

  // ---------------------------------------------------------------- running twice

  /** What an update of the opportunity leaves behind when it has nothing more to do. */
  predicate PathDone(b: Book, o: Opportunity, path: Path, bars: seq<Bar>, at: nat, rc: Receipts, p: Protocol)
    requires p(path).initialStopAtr > 0.0 && at < |bars| && Usable(Atr(bars, at))
  {
    (o.key, path) in b.paths ==>
      var before := b.paths[(o.key, path)];
      var now := Replayed(path, SideOf(o.key), o.entry, bars, at, p(path));
      if before.IsClosed() then
        FrozenOf(before.report) == FrozenOf(now)
        || ReplayMismatch(o.key, path, FrozenOf(before.report), FrozenOf(now)) in b.gaps
      else
        before == Recorded(now, rc.scan, rc.asOf)
        && (now.truncatedAt.Some? ==> PathTruncated(o.key, path, now.truncatedAt.value) in b.gaps)
  }

  predicate Done(b: Book, o: Opportunity, rc: Receipts, p: Protocol)
    requires p(Control).initialStopAtr > 0.0 && p(Giveback).initialStopAtr > 0.0
  {
    var bars := Series(rc, o.key.symbol);
    var broken := FirstBreak(bars, 0);
    if broken.Break? then SequenceGap(o.key.symbol, broken.prev, broken.next) in b.gaps
    else
      var at := IndexOf(bars, o.key.openMs);
      if at.None? then EntryBarMissing(o.key) in b.gaps
      else if !Usable(Atr(bars, at.value)) then EntryAtrIncomplete(o.key) in b.gaps
      else PathDone(b, o, Control, bars, at.value, rc, p) && PathDone(b, o, Giveback, bars, at.value, rc, p)
  }

  /** What one update may do to the book: add gaps, and rewrite open paths of one opportunity. */
  ghost predicate Grows(b: Book, c: Book, k: Key) {
    && b.opportunities == c.opportunities && b.lastUpdate == c.lastUpdate && b.paths.Keys == c.paths.Keys
    && (forall g <- b.gaps :: g in c.gaps)
    && (forall q <- b.paths :: q.0 != k || b.paths[q].IsClosed() ==> c.paths[q] == b.paths[q])
  }

  lemma PathStep(b: Book, o: Opportunity, path: Path, bars: seq<Bar>, at: nat, rc: Receipts, p: Protocol)
    requires Contract(p) && at < |bars| && Usable(Atr(bars, at))
    ensures var c := UpdatePath(b, o, path, bars, at, rc, p);
      && Grows(b, c, o.key) && PathDone(c, o, path, bars, at, rc, p)
      && (PathDone(b, o, path, bars, at, rc, p) ==> c == b)
      && (forall q <- b.paths :: q != (o.key, path) ==> c.paths[q] == b.paths[q])
  {
    hide Replayed, Atr;
    if (o.key, path) in b.paths {
      var before := b.paths[(o.key, path)];
      if PathDone(b, o, path, bars, at, rc, p) && !before.IsClosed() {
        assert b.paths[(o.key, path) := before] == b.paths;
      }
    }
  }

  lemma OneStep(b: Book, o: Opportunity, rc: Receipts, p: Protocol)
    requires Contract(p)
    ensures var c := UpdateOne(b, o, rc, p);
      Grows(b, c, o.key) && Done(c, o, rc, p) && (Done(b, o, rc, p) ==> c == b)
  {
    hide Replayed, Atr, UpdatePath, Series, FirstBreak, IndexOf;
    var bars := Series(rc, o.key.symbol);
    if FirstBreak(bars, 0).NoBreak? {
      var at := IndexOf(bars, o.key.openMs);
      if at.Some? && Usable(Atr(bars, at.value)) {
        PathStep(b, o, Control, bars, at.value, rc, p);
        var c := UpdatePath(b, o, Control, bars, at.value, rc, p);
        PathStep(c, o, Giveback, bars, at.value, rc, p);
      }
    }
  }

  lemma DoneSurvives(b: Book, c: Book, o: Opportunity, k: Key, rc: Receipts, p: Protocol)
    requires Contract(p) && Grows(b, c, k) && o.key != k && Done(b, o, rc, p)
    ensures Done(c, o, rc, p)
  {
    hide Replayed, Atr, Series, FirstBreak, IndexOf;
  }

  predicate DistinctKeys(b: Book) {
    forall i, j :: 0 <= i < j < |b.opportunities| ==> b.opportunities[i].key != b.opportunities[j].key
  }

  lemma {:induction false} FirstGrows(b: Book, n: nat, rc: Receipts, p: Protocol)
    requires Contract(p) && n <= |b.opportunities|
    ensures var c := UpdateFirst(b, n, rc, p);
      && c.opportunities == b.opportunities && c.lastUpdate == b.lastUpdate && c.paths.Keys == b.paths.Keys
      && (forall g <- b.gaps :: g in c.gaps)
      && (forall q <- b.paths :: b.paths[q].IsClosed() ==> c.paths[q] == b.paths[q])
  {
    if n > 0 {
      hide UpdateOne, Done;
      FirstGrows(b, n - 1, rc, p);
      OneStep(UpdateFirst(b, n - 1, rc, p), b.opportunities[n - 1], rc, p);
    }
  }

  lemma {:induction false} FirstAreDone(b: Book, n: nat, rc: Receipts, p: Protocol)
    requires Contract(p) && DistinctKeys(b) && n <= |b.opportunities|
    ensures forall i :: 0 <= i < n ==> Done(UpdateFirst(b, n, rc, p), b.opportunities[i], rc, p)
  {
    if n > 0 {
      hide Done, UpdateOne;
      FirstAreDone(b, n - 1, rc, p);
      var mid := UpdateFirst(b, n - 1, rc, p);
      var o := b.opportunities[n - 1];
      OneStep(mid, o, rc, p);
      forall i | 0 <= i < n - 1 ensures Done(UpdateFirst(b, n, rc, p), b.opportunities[i], rc, p) {
        DoneSurvives(mid, UpdateFirst(b, n, rc, p), b.opportunities[i], o.key, rc, p);
      }
    }
  }

  lemma {:induction false} NothingLeft(b: Book, n: nat, rc: Receipts, p: Protocol)
    requires Contract(p) && n <= |b.opportunities|
    requires forall i :: 0 <= i < n ==> Done(b, b.opportunities[i], rc, p)
    ensures UpdateFirst(b, n, rc, p) == b
  {
    if n > 0 {
      hide Done, UpdateOne;
      NothingLeft(b, n - 1, rc, p);
      OneStep(b, b.opportunities[n - 1], rc, p);
    }
  }

  lemma FirstUnfolds(b: Book, n: nat, rc: Receipts, p: Protocol)
    requires Contract(p) && n <= |b.opportunities|
    ensures n == 0 ==> UpdateFirst(b, n, rc, p) == b
    ensures n > 0 ==> UpdateFirst(b, n, rc, p) == UpdateOne(UpdateFirst(b, n - 1, rc, p), b.opportunities[n - 1], rc, p)
  {
    hide UpdateOne;
  }

  lemma DoneIgnoresMeta(b: Book, m: Option<(string, int)>, o: Opportunity, rc: Receipts, p: Protocol)
    requires Contract(p)
    ensures Done(b.(lastUpdate := m), o, rc, p) == Done(b, o, rc, p)
  {
    hide Replayed, Atr, Series, FirstBreak, IndexOf;
  }

  /** A second update from the same receipts leaves the whole ledger as it is. */
  lemma UpdateIdempotent(b: Book, rc: Receipts, p: Protocol)
    requires Contract(p) && DistinctKeys(b)
    ensures Updated(Updated(b, rc, p), rc, p) == Updated(b, rc, p)
  {
    hide Done, UpdateFirst;
    var n := |b.opportunities|;
    FirstAreDone(b, n, rc, p);
    FirstGrows(b, n, rc, p);
    var c := Updated(b, rc, p);
    forall i | 0 <= i < n ensures Done(c, c.opportunities[i], rc, p) {
      DoneIgnoresMeta(UpdateFirst(b, n, rc, p), c.lastUpdate, b.opportunities[i], rc, p);
    }
    NothingLeft(c, n, rc, p);
  }

  // ---------------------------------------------------------------- in any order

  /** One opportunity a key, and path rows for recorded opportunities only. */
  ghost predicate WellFormed(b: Book) {
    DistinctKeys(b) && forall q <- b.paths :: Known(b, q.0)
  }

  type Paths = map<(Key, Path), PathRecord>

  /** Updating one opportunity with no other and no gaps in the ledger. */
  function Alone(paths: Paths, o: Opportunity, rc: Receipts, p: Protocol): Book
    requires Contract(p)
  {
    UpdateOne(Book([], paths, [], None), o, rc, p)
  }

  ghost predicate PathsAgree(a: Paths, b: Paths, k: Key) {
    forall path: Path :: ((k, path) in a <==> (k, path) in b) && ((k, path) in a ==> a[(k, path)] == b[(k, path)])
  }

  /** x, which came from m, is on the key what y is that came from no gaps. */
  ghost predicate Mirrors(m: Book, x: Book, y: Book, k: Key) {
    PathsAgree(x.paths, y.paths, k) && forall g :: g in x.gaps <==> g in m.gaps || g in y.gaps
  }

  lemma PathMirrors(
    m: Book, x: Book, y: Book, o: Opportunity, path: Path, bars: seq<Bar>, at: nat, rc: Receipts, p: Protocol)
    requires Contract(p) && at < |bars| && Usable(Atr(bars, at)) && Mirrors(m, x, y, o.key)
    ensures Mirrors(m, UpdatePath(x, o, path, bars, at, rc, p), UpdatePath(y, o, path, bars, at, rc, p), o.key)
  {
    hide Replayed, Atr;
  }

  lemma OneMirrors(m: Book, o: Opportunity, paths: Paths, rc: Receipts, p: Protocol)
    requires Contract(p) && PathsAgree(m.paths, paths, o.key)
    ensures Mirrors(m, UpdateOne(m, o, rc, p), Alone(paths, o, rc, p), o.key)
  {
    hide Replayed, Atr, UpdatePath, Series, FirstBreak, IndexOf;
    var y := Book([], paths, [], None);
    assert Mirrors(m, m, y, o.key);
    var bars := Series(rc, o.key.symbol);
    if FirstBreak(bars, 0).NoBreak? {
      var at := IndexOf(bars, o.key.openMs);
      if at.Some? && Usable(Atr(bars, at.value)) {
        PathMirrors(m, m, y, o, Control, bars, at.value, rc, p);
        var c, d := UpdatePath(m, o, Control, bars, at.value, rc, p), UpdatePath(y, o, Control, bars, at.value, rc, p);
        PathMirrors(m, c, d, o, Giveback, bars, at.value, rc, p);
      }
    }
  }

  /** What an update leaves, opportunity by opportunity. */
  ghost predicate UpdatedTo(b: Book, n: nat, rc: Receipts, p: Protocol, c: Book)
    requires Contract(p) && n <= |b.opportunities|
  {
    && (forall i :: 0 <= i < n ==>
          var o := b.opportunities[i]; PathsAgree(c.paths, Alone(b.paths, o, rc, p).paths, o.key))
    && (forall i :: n <= i < |b.opportunities| ==> PathsAgree(c.paths, b.paths, b.opportunities[i].key))
    && (forall g :: g in c.gaps <==>
          g in b.gaps || exists i :: 0 <= i < n && g in Alone(b.paths, b.opportunities[i], rc, p).gaps)
  }

  lemma {:induction false} FirstUpdatedTo(b: Book, n: nat, rc: Receipts, p: Protocol)
    requires Contract(p) && DistinctKeys(b) && n <= |b.opportunities|
    ensures UpdatedTo(b, n, rc, p, UpdateFirst(b, n, rc, p))
  {
    hide UpdateOne, UpdateFirst, Alone, Done;
    FirstUnfolds(b, n, rc, p);
    if n > 0 {
      FirstUpdatedTo(b, n - 1, rc, p);
      var m, c, o := UpdateFirst(b, n - 1, rc, p), UpdateFirst(b, n, rc, p), b.opportunities[n - 1];
      OneMirrors(m, o, b.paths, rc, p);
      OneStep(m, o, rc, p);
    }
  }

  /** The result of an update does not depend on the order in which opportunities are visited, but
      for the order in which new gaps are noted. */
  lemma UpdateInAnyOrder(b: Book, c: Book, rc: Receipts, p: Protocol)
    requires Contract(p) && WellFormed(b) && WellFormed(c)
    requires c == b.(opportunities := c.opportunities) && forall o :: o in b.opportunities <==> o in c.opportunities
    ensures var d, e := Updated(b, rc, p), Updated(c, rc, p);
      d.paths == e.paths && forall g :: g in d.gaps <==> g in e.gaps
  {
    hide UpdateFirst, Alone;
    var n := |b.opportunities|;
    FirstUpdatedTo(b, n, rc, p);
    FirstUpdatedTo(c, |c.opportunities|, rc, p);
    FirstGrows(b, n, rc, p);
    FirstGrows(c, |c.opportunities|, rc, p);
    SubsumedBy(b, c, rc, p);
    SubsumedBy(c, b, rc, p);
  }

  lemma SubsumedBy(b: Book, c: Book, rc: Receipts, p: Protocol)
    requires Contract(p) && WellFormed(b)
    requires c == b.(opportunities := c.opportunities) && forall o <- b.opportunities :: o in c.opportunities
    requires UpdatedTo(b, |b.opportunities|, rc, p, UpdateFirst(b, |b.opportunities|, rc, p))
    requires UpdatedTo(c, |c.opportunities|, rc, p, UpdateFirst(c, |c.opportunities|, rc, p))
    ensures var d, e := Updated(b, rc, p), Updated(c, rc, p);
      && (forall q <- b.paths :: q in d.paths <==> q in e.paths)
      && (forall q <- b.paths :: q in d.paths ==> d.paths[q] == e.paths[q])
      && (forall g <- d.gaps :: g in e.gaps)
  {
    hide UpdateFirst, Alone;
    var d, e := Updated(b, rc, p), Updated(c, rc, p);
    forall i | 0 <= i < |b.opportunities|
      ensures PathsAgree(d.paths, e.paths, b.opportunities[i].key)
      ensures forall g <- Alone(b.paths, b.opportunities[i], rc, p).gaps :: g in e.gaps
    {
      assert b.opportunities[i] in c.opportunities;
      var j :| 0 <= j < |c.opportunities| && c.opportunities[j] == b.opportunities[i];
    }
    forall q | q in b.paths ensures PathsAgree(d.paths, e.paths, q.0) {
      var i :| 0 <= i < |b.opportunities| && b.opportunities[i].key == q.0;
    }
  }

  // ---------------------------------------------------------------- whole runs

  datatype Event =
    | Record(ds: seq<Decision>, window: (int, int), versions: map<string, seq<Bar>>)
    | Update(rc: Receipts)

  function Apply(b: Book, e: Event, p: Protocol): Book
    requires Contract(p)
  {
    match e
    case Record(ds, window, versions) => RecordAll(b, ds, |ds|, window, versions)
    case Update(rc) => Updated(b, rc, p)
  }

  function Run(b: Book, es: seq<Event>, p: Protocol): Book
    requires Contract(p)
  {
    if es == [] then b else Apply(Run(b, es[..|es| - 1], p), es[|es| - 1], p)
  }

  /** What recording may do: append opportunities that were not known, and gaps. */
  ghost predicate Recording(b: Book, c: Book) {
    && WellFormed(c) && b.opportunities <= c.opportunities && b.gaps <= c.gaps && b.lastUpdate == c.lastUpdate
    && (forall q <- b.paths :: q in c.paths && c.paths[q] == b.paths[q])
    && (forall q <- c.paths :: q in b.paths || c.paths[q].Opened?)
    && (forall i :: |b.gaps| <= i < |c.gaps| ==> c.gaps[i].SignalBarMissing?)
  }

  lemma KnownGrows(b: Book, c: Book, k: Key)
    requires b.opportunities <= c.opportunities && Known(b, k)
    ensures Known(c, k)
  {
    var i :| 0 <= i < |b.opportunities| && b.opportunities[i].key == k;
    assert c.opportunities[i] == b.opportunities[i];
  }

  lemma SignalRecords(b: Book, d: Decision, s: Signal, versions: map<string, seq<Bar>>)
    requires WellFormed(b) && d.symbol in versions
    ensures Recording(b, RecordSignal(b, d, s, versions))
  {
    var c := RecordSignal(b, d, s, versions);
    if c.opportunities != b.opportunities {
      var k := c.opportunities[|b.opportunities|].key;
      assert Known(c, k);
      forall q | q in c.paths ensures Known(c, q.0) {
        if q in b.paths { KnownGrows(b, c, q.0); }
      }
    }
  }

  lemma RecordingTransitive(a: Book, b: Book, c: Book)
    requires Recording(a, b) && Recording(b, c)
    ensures Recording(a, c)
  {
  }

  lemma {:induction false} SignalsRecord(b: Book, d: Decision, n: nat, versions: map<string, seq<Bar>>)
    requires WellFormed(b) && d.symbol in versions && n <= |d.signals|
    ensures Recording(b, RecordSignals(b, d, n, versions))
  {
    if n > 0 {
      hide RecordSignal;
      SignalsRecord(b, d, n - 1, versions);
      var m := RecordSignals(b, d, n - 1, versions);
      SignalRecords(m, d, d.signals[n - 1], versions);
      RecordingTransitive(b, m, RecordSignals(b, d, n, versions));
    }
  }

  lemma {:induction false} AllRecord(
    b: Book, ds: seq<Decision>, n: nat, window: (int, int), versions: map<string, seq<Bar>>)
    requires WellFormed(b) && n <= |ds|
    ensures Recording(b, RecordAll(b, ds, n, window, versions))
  {
    if n > 0 {
      hide RecordSignals;
      AllRecord(b, ds, n - 1, window, versions);
      var m := RecordAll(b, ds, n - 1, window, versions);
      if InWindow(ds[n - 1], window, versions) {
        SignalsRecord(m, ds[n - 1], |ds[n - 1].signals|, versions);
        RecordingTransitive(b, m, RecordAll(b, ds, n, window, versions));
      }
    }
  }

  lemma UpdateKeeps(b: Book, rc: Receipts, p: Protocol)
    requires Contract(p) && WellFormed(b)
    ensures var c := Updated(b, rc, p);
      && WellFormed(c) && c.opportunities == b.opportunities && c.paths.Keys == b.paths.Keys
      && (forall g <- b.gaps :: g in c.gaps)
      && (forall q <- b.paths :: b.paths[q].IsClosed() ==> c.paths[q] == b.paths[q])
  {
    FirstGrows(b, |b.opportunities|, rc, p);
    hide UpdateFirst;
    var c := Updated(b, rc, p);
    forall q | q in c.paths ensures Known(c, q.0) {
      KnownGrows(b, c, q.0);
    }
  }

  /** Over any run a path recorded closed is never rewritten, and no gap is ever lost. */
  lemma {:induction false} ClosedForever(b: Book, es: seq<Event>, p: Protocol)
    requires Contract(p) && WellFormed(b)
    ensures var c := Run(b, es, p);
      && WellFormed(c) && (forall g <- b.gaps :: g in c.gaps)
      && (forall q <- b.paths :: q in c.paths && (b.paths[q].IsClosed() ==> c.paths[q] == b.paths[q]))
  {
    if es != [] {
      ClosedForever(b, es[..|es| - 1], p);
      var m, e := Run(b, es[..|es| - 1], p), es[|es| - 1];
      match e
      case Record(ds, window, versions) => AllRecord(m, ds, |ds|, window, versions);
      case Update(rc) => UpdateKeeps(m, rc, p);
    }
  }

  // ---------------------------------------------------------------- recording twice

  /** The gap a signal leaves, if no bar had closed when it was given. */
  function Missing(d: Decision, s: Signal, versions: map<string, seq<Bar>>): seq<Gap>
    requires d.symbol in versions
  {
    if s.ours && LatestClosed(versions[d.symbol], d.ms).None? then [SignalBarMissing(d.id, d.symbol)] else []
  }

  function MissingOf(d: Decision, n: nat, versions: map<string, seq<Bar>>): seq<Gap>
    requires d.symbol in versions && n <= |d.signals|
  {
    if n == 0 then [] else MissingOf(d, n - 1, versions) + Missing(d, d.signals[n - 1], versions)
  }

  function MissingAll(ds: seq<Decision>, n: nat, window: (int, int), versions: map<string, seq<Bar>>): seq<Gap>
    requires n <= |ds|
  {
    if n == 0 then []
    else
      MissingAll(ds, n - 1, window, versions)
      + (if InWindow(ds[n - 1], window, versions) then MissingOf(ds[n - 1], |ds[n - 1].signals|, versions) else [])
  }

  /** Every signal of the decision with a closed bar has its opportunity. */
  ghost predicate Covered(b: Book, d: Decision, n: nat, versions: map<string, seq<Bar>>)
    requires d.symbol in versions && n <= |d.signals|
  {
    forall i :: 0 <= i < n && d.signals[i].ours ==>
      var v := LatestClosed(versions[d.symbol], d.ms);
      v.Some? ==> Known(b, Key(d.symbol, d.signals[i].buy, v.value.openMs))
  }

  ghost predicate AllCovered(b: Book, ds: seq<Decision>, n: nat, window: (int, int), versions: map<string, seq<Bar>>)
    requires n <= |ds|
  {
    forall i :: 0 <= i < n && InWindow(ds[i], window, versions) ==> Covered(b, ds[i], |ds[i].signals|, versions)
  }

  lemma CoveredGrows(b: Book, c: Book, d: Decision, n: nat, versions: map<string, seq<Bar>>)
    requires d.symbol in versions && n <= |d.signals|
    requires b.opportunities <= c.opportunities && Covered(b, d, n, versions)
    ensures Covered(c, d, n, versions)
  {
    hide LatestClosed, Known;
    forall k | Known(b, k) ensures Known(c, k) { KnownGrows(b, c, k); }
  }

  lemma {:induction false} SignalsCovered(b: Book, d: Decision, n: nat, versions: map<string, seq<Bar>>)
    requires d.symbol in versions && n <= |d.signals|
    ensures var c := RecordSignals(b, d, n, versions);
      && Covered(c, d, n, versions) && b.opportunities <= c.opportunities
      && c.gaps == b.gaps + MissingOf(d, n, versions)
      && (Covered(b, d, n, versions) ==> c == b.(gaps := c.gaps))
  {
    if n > 0 {
      hide LatestClosed;
      SignalsCovered(b, d, n - 1, versions);
      var m, c := RecordSignals(b, d, n - 1, versions), RecordSignals(b, d, n, versions);
      SignalCovered(m, d, d.signals[n - 1], versions);
      CoveredGrows(m, c, d, n - 1, versions);
      hide Known, RecordSignal;
    }
  }

  lemma SignalCovered(b: Book, d: Decision, s: Signal, versions: map<string, seq<Bar>>)
    requires d.symbol in versions
    ensures var c, v := RecordSignal(b, d, s, versions), LatestClosed(versions[d.symbol], d.ms);
      && b.opportunities <= c.opportunities && c.gaps == b.gaps + Missing(d, s, versions)
      && (s.ours && v.Some? ==> Known(c, Key(d.symbol, s.buy, v.value.openMs)))
      && (s.ours && v.Some? && Known(b, Key(d.symbol, s.buy, v.value.openMs)) ==> c == b)
      && (!s.ours || v.None? ==> c == b.(gaps := c.gaps))
  {
    var c := RecordSignal(b, d, s, versions);
    if c.opportunities != b.opportunities {
      assert c.opportunities[|b.opportunities|].key
          == Key(d.symbol, s.buy, LatestClosed(versions[d.symbol], d.ms).value.openMs);
    }
  }

  lemma {:induction false} RecordCovers(b: Book, ds: seq<Decision>, n: nat, window: (int, int),
      versions: map<string, seq<Bar>>)
    requires n <= |ds|
    ensures var c := RecordAll(b, ds, n, window, versions);
      && AllCovered(c, ds, n, window, versions) && b.opportunities <= c.opportunities
      && c.gaps == b.gaps + MissingAll(ds, n, window, versions)
      && (AllCovered(b, ds, n, window, versions) ==> c == b.(gaps := c.gaps))
  {
    if n > 0 {
      hide Covered;
      RecordCovers(b, ds, n - 1, window, versions);
      var m, c, d := RecordAll(b, ds, n - 1, window, versions), RecordAll(b, ds, n, window, versions), ds[n - 1];
      if InWindow(d, window, versions) {
        SignalsCovered(m, d, |d.signals|, versions);
        if AllCovered(b, ds, n, window, versions) { CoveredGrows(b, m, d, |d.signals|, versions); }
        forall i | 0 <= i < n - 1 && InWindow(ds[i], window, versions)
          ensures Covered(c, ds[i], |ds[i].signals|, versions)
        {
          CoveredGrows(m, c, ds[i], |ds[i].signals|, versions);
        }
      }
    }
  }

  /** Recording the same decisions again leaves opportunities and paths alone, but repeats the gap
      of every signal without a closed bar: it is idempotent exactly when there is none. */
  lemma RecordTwice(b: Book, ds: seq<Decision>, window: (int, int), versions: map<string, seq<Bar>>)
    ensures var once, missing := RecordAll(b, ds, |ds|, window, versions), MissingAll(ds, |ds|, window, versions);
      && RecordAll(once, ds, |ds|, window, versions) == once.(gaps := once.gaps + missing)
      && (RecordAll(once, ds, |ds|, window, versions) == once <==> missing == [])
  {
    hide AllCovered;
    RecordCovers(b, ds, |ds|, window, versions);
    RecordCovers(RecordAll(b, ds, |ds|, window, versions), ds, |ds|, window, versions);
  }

  /** One decision with one signal on a symbol without bars: recorded twice, its gap is there twice. */
  lemma RecordRepeatsGap()
    ensures var d := Decision("d", 0, "S", [Signal(true, true)]);
      var once := RecordAll(Book([], map[], [], None), [d], 1, (0, 1), map["S" := []]);
      && once.gaps == [SignalBarMissing("d", "S")]
      && RecordAll(once, [d], 1, (0, 1), map["S" := []]).gaps
           == [SignalBarMissing("d", "S"), SignalBarMissing("d", "S")]
  {
    var d, versions := Decision("d", 0, "S", [Signal(true, true)]), map["S" := []];
    var once := RecordAll(Book([], map[], [], None), [d], 1, (0, 1), versions);
    OneMissing(Book([], map[], [], None), d, versions);
    OneMissing(once, d, versions);
  }

  lemma OneMissing(b: Book, d: Decision, versions: map<string, seq<Bar>>)
    requires d.ms == 0 && d.signals == [Signal(true, true)] && d.symbol in versions && versions[d.symbol] == []
    ensures RecordAll(b, [d], 1, (0, 1), versions) == b.(gaps := b.gaps + [SignalBarMissing(d.id, d.symbol)])
  {
    assert RecordAll(b, [d], 0, (0, 1), versions) == b && RecordSignals(b, d, 0, versions) == b;
    assert RecordSignals(b, d, 1, versions) == RecordSignal(b, d, d.signals[0], versions);
  }
}
