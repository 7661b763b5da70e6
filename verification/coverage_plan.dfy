/** Coverage repair, first half: reconcile a baseline with its grid and plan one request for every
    symbol with missing bars. */
module CoveragePlan {
  import opened Sequences
  import Rotation

  type Symbol = Rotation.Symbol

  datatype Bar = Bar(open: real, high: real, low: real, close: real, volume: real)

  datatype Key = Key(symbol: Symbol, open: int)

  datatype Candle = Candle(key: Key, bar: Bar)

  datatype Experiment = Experiment(
    tf: int, warmupStart: int, resolveUntil: int, symbols: nat, barsPerSymbol: nat, presentTotal: nat,
    missingTotal: nat, affectedSymbols: nat, maxBars: nat, maxRequests: nat)

  datatype Refusal =
    | Membership | GridLength | OutsideGrid | DuplicateCandle | CoverageDisagrees | CountsDisagree
    | Unmappable | NoBarBefore | RangeTooLong | TooManyRequests

  datatype Result<+T> = Ok(value: T) | Refused(why: Refusal)

  /** A reconciled baseline. */
  datatype Base = Base(members: seq<Symbol>, candles: seq<Candle>, present: map<Key, Bar>, missing: seq<Key>)

  // ---------------------------------------------------------------- the grid

  /** The bar opens from one instant up to, but not including, another. */
  function Opens(first: int, until: int, tf: int): (r: seq<int>)
    requires tf > 0
    ensures Rotation.Ascending(r) && forall o <- r :: first <= o < until
    ensures first < until ==> r != [] && r[0] == first
    decreases until - first
  {
    if first >= until then []
    else
      var rest := Opens(first + tf, until, tf);
      Prepend(first, rest);
      [first] + rest
  }

  lemma Prepend(first: int, rest: seq<int>)
    requires Rotation.Ascending(rest) && forall o <- rest :: first < o
    ensures Rotation.Ascending([first] + rest)
  {
    var r := [first] + rest;
    forall i, j | 0 <= i < j < |r| ensures r[i] < r[j] {
      assert r[j] == rest[j - 1] && rest[j - 1] in rest;
    }
  }

  function Grid(e: Experiment): seq<int>
    requires e.tf > 0
  {
    Opens(e.warmupStart, e.resolveUntil, e.tf)
  }

  /** The window is a whole number of bars. */
  predicate Aligned(e: Experiment)
    requires e.tf > 0
  {
    (e.resolveUntil - e.warmupStart) % e.tf == 0
  }

  lemma DivideStep(x: int, d: int)
    requires d > 0
    ensures x / d == (x - d) / d + 1 && x % d == (x - d) % d
  {
    var q, r := x / d, x % d;
    assert x - d == (q - 1) * d + r;
    Quotient(x - d, d, q - 1, r);
  }

  lemma Quotient(x: int, d: int, q: int, r: int)
    requires d > 0 && x == q * d + r && 0 <= r < d
    ensures x / d == q && x % d == r
  {
    var p, s := x / d, x % d;
    var gap := p - q;
    GapTimes(x, d, p, s, q, r);
    if gap >= 1 { AtLeast(gap, d); }
    if gap <= -1 { AtLeast(-gap, d); }
  }

  lemma GapTimes(x: int, d: int, p: int, s: int, q: int, r: int)
    requires x == p * d + s == q * d + r
    ensures (p - q) * d == r - s && -(p - q) * d == s - r
  {
  }

  lemma AtLeast(k: int, d: int)
    requires k >= 1 && d > 0
    ensures k * d >= d
  {
  }

  /** The number of opens is the quotient rounded up: the count that the plan computes falls one
      short exactly when the window is not a whole number of bars. */
  lemma {:induction false} OpensCount(first: int, until: int, tf: int)
    requires tf > 0 && first < until
    ensures |Opens(first, until, tf)| == (until - tf - first) / tf + (if (until - first) % tf == 0 then 1 else 2)
    ensures var last := Opens(first, until, tf)[|Opens(first, until, tf)| - 1];
      last <= until - tf <==> (until - first) % tf == 0
    decreases until - first
  {
    DivideStep(until - first, tf);
    DivideStep(until - tf - first, tf);
    if first + tf < until {
      OpensCount(first + tf, until, tf);
    } else if first + tf == until {
      Quotient(0, tf, 0, 0);
    } else {
      Quotient(until - first, tf, 0, until - first);
    }
  }

  /** The opens from a point of the grid on are the later part of the grid. */
  lemma {:induction false} OpensFrom(first: int, until: int, tf: int, start: int)
    requires tf > 0 && start in Opens(first, until, tf)
    ensures forall o :: o in Opens(start, until, tf) <==> o in Opens(first, until, tf) && o >= start
    ensures (until - start) % tf == (until - first) % tf
    decreases until - first
  {
    var rest := Opens(first + tf, until, tf);
    assert forall o :: o in Opens(first, until, tf) <==> o == first || o in rest;
    if start != first {
      OpensFrom(first + tf, until, tf, start);
      DivideStep(until - first, tf);
    }
  }

  // ---------------------------------------------------------------- selections

  /** The opens of a symbol that are (not) among the keys, in order. */
  function Select(opens: seq<int>, s: Symbol, keys: set<Key>, among: bool): (r: seq<int>)
    ensures forall o :: o in r <==> o in opens && (Key(s, o) in keys <==> among)
    ensures |r| <= |opens|
  {
    if opens == [] then []
    else
      var n := |opens| - 1;
      assert opens == opens[..n] + [opens[n]];
      Select(opens[..n], s, keys, among) + if Key(s, opens[n]) in keys <==> among then [opens[n]] else []
  }

  lemma {:induction false} SelectSplits(opens: seq<int>, s: Symbol, keys: set<Key>)
    ensures |Select(opens, s, keys, true)| + |Select(opens, s, keys, false)| == |opens|
  {
    if opens != [] {
      SelectSplits(opens[..|opens| - 1], s, keys);
    }
  }

  lemma Append(front: seq<int>, o: int)
    requires Rotation.Ascending(front) && forall x <- front :: x < o
    ensures Rotation.Ascending(front + [o])
  {
    forall i, j | 0 <= i < j < |front| + 1 ensures (front + [o])[i] < (front + [o])[j] {
      assert front[i] in front;
    }
  }

  lemma {:induction false} SelectAscending(opens: seq<int>, s: Symbol, keys: set<Key>, among: bool)
    requires Rotation.Ascending(opens)
    ensures Rotation.Ascending(Select(opens, s, keys, among))
  {
    if opens != [] {
      var n := |opens| - 1;
      SelectAscending(opens[..n], s, keys, among);
      var front := Select(opens[..n], s, keys, among);
      forall o | o in front ensures o < opens[n] {
        var i :| 0 <= i < n && opens[i] == o;
      }
      Append(front, opens[n]);
    }
  }

  // ---------------------------------------------------------------- reconciliation

  predicate OnGrid(e: Experiment, members: seq<Symbol>, k: Key)
    requires e.tf > 0
  {
    k.symbol in members && k.open in Grid(e)
  }

  predicate KeysDistinct(candles: seq<Candle>) {
    forall i, j :: 0 <= i < j < |candles| ==> candles[i].key != candles[j].key
  }

  /** The candles by key, refusing the first one that is off the grid or repeated. */
  method ReadCandles(e: Experiment, members: seq<Symbol>, candles: seq<Candle>) returns (r: Result<map<Key, Bar>>)
    requires e.tf > 0
    ensures r.Ok? <==> (forall c <- candles :: OnGrid(e, members, c.key)) && KeysDistinct(candles)
    ensures r.Ok? ==> Indexes(candles, r.value)
    ensures r.Refused? ==> r.why.OutsideGrid? || r.why.DuplicateCandle?
  {
    hide *;
    var opens := Grid(e);
    var present: map<Key, Bar> := map[];
    var i := 0;
    ReadStart(e, members, candles);
    while i < |candles|
      invariant 0 <= i <= |candles| && ReadSoFar(e, members, candles[..i], present)
    {
      var c := candles[i];
      ReadStep(e, members, candles, i, present);
      if c.key.symbol !in members || c.key.open !in opens { return Refused(OutsideGrid); }
      if c.key in present { return Refused(DuplicateCandle); }
      present := present[c.key := c.bar];
      i := i + 1;
    }
    ReadEnd(e, members, candles, present);
    r := Ok(present);
  }

  ghost predicate ReadSoFar(e: Experiment, members: seq<Symbol>, candles: seq<Candle>, present: map<Key, Bar>)
    requires e.tf > 0
  {
    (forall c <- candles :: OnGrid(e, members, c.key)) && KeysDistinct(candles) && Indexes(candles, present)
  }

  lemma ReadStart(e: Experiment, members: seq<Symbol>, candles: seq<Candle>)
    requires e.tf > 0
    ensures ReadSoFar(e, members, candles[..0], map[])
  {
  }

  lemma ReadEnd(e: Experiment, members: seq<Symbol>, candles: seq<Candle>, present: map<Key, Bar>)
    requires e.tf > 0 && ReadSoFar(e, members, candles[..|candles|], present)
    ensures (forall c <- candles :: OnGrid(e, members, c.key)) && KeysDistinct(candles) && Indexes(candles, present)
  {
    assert candles[..|candles|] == candles;
  }

  lemma ReadStep(e: Experiment, members: seq<Symbol>, candles: seq<Candle>, i: nat, present: map<Key, Bar>)
    requires e.tf > 0 && i < |candles| && ReadSoFar(e, members, candles[..i], present)
    ensures var k := candles[i].key;
      if k.symbol in members && k.open in Grid(e) && k !in present then
        ReadSoFar(e, members, candles[..i + 1], present[k := candles[i].bar])
      else !((forall c <- candles :: OnGrid(e, members, c.key)) && KeysDistinct(candles))
  {
    hide Grid;
    var c := candles[i];
    assert candles[..i + 1] == candles[..i] + [c] && c in candles;
    if c.key in present {
      var j :| 0 <= j < i && candles[..i][j].key == c.key;
      assert candles[j].key == candles[i].key;
    } else {
      var more, updated := candles[..i + 1], present[c.key := c.bar];
      forall k | k in updated ensures exists j :: 0 <= j < |more| && more[j].key == k {
        if k != c.key {
          var j :| 0 <= j < i && candles[..i][j].key == k;
          assert more[j].key == k;
        } else {
          assert more[i].key == k;
        }
      }
    }
  }

  /** The map holds exactly the candles. */
  predicate Indexes(candles: seq<Candle>, present: map<Key, Bar>) {
    && (forall c <- candles :: c.key in present && present[c.key] == c.bar)
    && (forall k <- present :: exists i :: 0 <= i < |candles| && candles[i].key == k)
  }

  /** Missing keys, or present ones, symbol by symbol. */
  function Keys(members: seq<Symbol>, opens: seq<int>, keys: set<Key>, among: bool): (r: seq<Key>)
    ensures forall k :: k in r <==> k.symbol in members && k.open in opens && (k in keys <==> among)
  {
    if members == [] then []
    else
      var n := |members| - 1;
      assert members == members[..n] + [members[n]];
      Keys(members[..n], opens, keys, among) + KeysOf(members[n], Select(opens, members[n], keys, among))
  }

  function KeysOf(s: Symbol, opens: seq<int>): (r: seq<Key>)
    ensures |r| == |opens| && forall i :: 0 <= i < |r| ==> r[i] == Key(s, opens[i])
    ensures forall k :: k in r <==> k.symbol == s && k.open in opens
  {
    var r := seq(|opens|, i requires 0 <= i < |opens| => Key(s, opens[i]));
    assert forall k :: k in r ==> exists i :: 0 <= i < |r| && r[i] == k;
    assert forall o :: o in opens ==> exists i :: 0 <= i < |opens| && opens[i] == o && r[i] == Key(s, o);
    r
  }

  lemma {:induction false} KeysDistinctly(members: seq<Symbol>, opens: seq<int>, keys: set<Key>, among: bool)
    requires Distinct(members) && Rotation.Ascending(opens)
    ensures Distinct(Keys(members, opens, keys, among))
  {
    if members != [] {
      var n := |members| - 1;
      KeysDistinctly(members[..n], opens, keys, among);
      SelectAscending(opens, members[n], keys, among);
      var a, b := Keys(members[..n], opens, keys, among), KeysOf(members[n], Select(opens, members[n], keys, among));
      forall i, j | 0 <= i < j < |a + b| ensures (a + b)[i] != (a + b)[j] {
        if i < |a| <= j { assert a[i] in a && b[j - |a|] in b && members[n] !in members[..n]; }
      }
    }
  }

  lemma TimesNext(n: nat, k: nat)
    ensures (n + 1) * k == n * k + k
  {
  }

  lemma {:induction false} KeysSplit(members: seq<Symbol>, opens: seq<int>, keys: set<Key>)
    ensures |Keys(members, opens, keys, true)| + |Keys(members, opens, keys, false)| == |members| * |opens|
  {
    if members != [] {
      var n := |members| - 1;
      KeysSplit(members[..n], opens, keys);
      SelectSplits(opens, members[n], keys);
      TimesNext(n, |opens|);
    }
  }

  /** Members that are not repeated, and candles on the grid that are not repeated. */
  ghost predicate Reconciled(e: Experiment, b: Base)
    requires e.tf > 0
  {
    && Distinct(b.members) && KeysDistinct(b.candles) && Indexes(b.candles, b.present)
    && (forall k <- b.present :: OnGrid(e, b.members, k))
    && b.missing == Keys(Rotation.Sorted(set s | s in b.members), Grid(e), b.present.Keys, false)
  }

  /** What the manifest says of a symbol: valid and missing bars. */
  type Coverage = map<Symbol, (int, int)>

  function PresentOf(present: map<Key, Bar>, s: Symbol): set<Key> {
    set k | k in present && k.symbol == s
  }

  predicate CoverageAgrees(e: Experiment, members: seq<Symbol>, present: map<Key, Bar>, coverage: Coverage) {
    forall s <- members ::
      s in coverage && coverage[s] == (|PresentOf(present, s)|, e.barsPerSymbol - |PresentOf(present, s)|)
  }

  function Affected(missing: seq<Key>): (r: seq<Symbol>)
    ensures Rotation.Ascending(r) && forall s :: s in r <==> exists k <- missing :: k.symbol == s
  {
    Rotation.Sorted(set k | k in missing :: k.symbol)
  }

  predicate CountsAgree(e: Experiment, b: Base)
    requires e.tf > 0
  {
    && |b.present| == e.presentTotal && |b.missing| == e.missingTotal && |Affected(b.missing)| == e.affectedSymbols
    && |Grid(e)| * |b.members| == e.symbols * e.barsPerSymbol
  }

  /** Present and missing keys of the given candles. */
  ghost predicate BaseOf(e: Experiment, members: seq<Symbol>, candles: seq<Candle>, b: Base)
    requires e.tf > 0
  {
    Reconciled(e, b) && b.members == members && b.candles == candles
  }

  /** The baseline is what everything says it is: members, grid, candles, coverage and counts. */
  ghost predicate Agreeing(e: Experiment, members: seq<Symbol>, universe: seq<Symbol>, candles: seq<Candle>,
      coverage: Coverage, b: Base)
    requires e.tf > 0
  {
    && BaseOf(e, members, candles, b) && members == universe && |members| == e.symbols && |Grid(e)| == e.barsPerSymbol
    && CoverageAgrees(e, members, b.present, coverage) && CountsAgree(e, b)
  }

  /** Only one base fits the candles. */
  lemma OneBase(e: Experiment, a: Base, b: Base)
    requires e.tf > 0 && Reconciled(e, a) && Reconciled(e, b) && a.members == b.members && a.candles == b.candles
    ensures a == b
  {
    hide Grid, Keys;
    forall k | k in a.present ensures k in b.present && b.present[k] == a.present[k] {
      var i :| 0 <= i < |a.candles| && a.candles[i].key == k;
      assert a.candles[i] in a.candles;
    }
    forall k | k in b.present ensures k in a.present {
      var i :| 0 <= i < |b.candles| && b.candles[i].key == k;
      assert b.candles[i] in b.candles;
    }
    assert a.present == b.present;
  }

  lemma OnlyOnGrid(e: Experiment, b: Base)
    requires e.tf > 0 && Reconciled(e, b)
    ensures (forall c <- b.candles :: OnGrid(e, b.members, c.key)) && KeysDistinct(b.candles) && Distinct(b.members)
  {
    hide Grid, Keys;
  }

  method Reconcile(e: Experiment, members: seq<Symbol>, universe: seq<Symbol>, candles: seq<Candle>, coverage: Coverage)
      returns (r: Result<Base>)
    requires e.tf > 0
    ensures r.Ok? ==> Agreeing(e, members, universe, candles, coverage, r.value)
    ensures r.Refused? ==> forall b :: !Agreeing(e, members, universe, candles, coverage, b)
    ensures r == Refused(OutsideGrid) || r == Refused(DuplicateCandle) <==>
      && members == universe && |members| == e.symbols && Distinct(members) && |Grid(e)| == e.barsPerSymbol
      && !((forall c <- candles :: OnGrid(e, members, c.key)) && KeysDistinct(candles))
  {
    hide Keys, Grid, CoverageAgrees, CountsAgree, Indexes, KeysDistinct, OnGrid, Distinct;
    forall b | Agreeing(e, members, universe, candles, coverage, b)
      ensures (forall c <- candles :: OnGrid(e, members, c.key)) && KeysDistinct(candles) && Distinct(members)
    {
      OnlyOnGrid(e, b);
    }
    if members != universe || |members| != e.symbols || !Distinct(members) { return Refused(Membership); }
    var opens := Grid(e);
    if |opens| != e.barsPerSymbol { return Refused(GridLength); }
    var read := ReadCandles(e, members, candles);
    if read.Refused? { return Refused(read.why); }
    var present := read.value;
    var missing := Keys(Rotation.Sorted(set s | s in members), opens, present.Keys, false);
    var b := Base(members, candles, present, missing);
    IndexedOnGrid(e, members, candles, present);
    KeysAddUp(e, b);
    forall other | Agreeing(e, members, universe, candles, coverage, other) ensures other == b {
      OneBase(e, other, b);
    }
    if !CoverageAgrees(e, members, present, coverage) { return Refused(CoverageDisagrees); }
    if !CountsAgree(e, b) || |present| + |missing| != |opens| * |members| { return Refused(CountsDisagree); }
    r := Ok(b);
  }

  lemma IndexedOnGrid(e: Experiment, members: seq<Symbol>, candles: seq<Candle>, present: map<Key, Bar>)
    requires e.tf > 0 && Indexes(candles, present) && forall c <- candles :: OnGrid(e, members, c.key)
    ensures forall k <- present :: OnGrid(e, members, k)
  {
    forall k | k in present ensures OnGrid(e, members, k) {
      var i :| 0 <= i < |candles| && candles[i].key == k;
      assert candles[i] in candles;
    }
  }

  /** Present and missing keys partition members times grid, each key once: nothing is lost and
      nothing is counted twice. */
  lemma KeysAddUp(e: Experiment, b: Base)
    requires e.tf > 0 && Reconciled(e, b)
    ensures forall k :: OnGrid(e, b.members, k) <==> k in b.present || k in b.missing
    ensures forall k <- b.missing :: k !in b.present
    ensures Distinct(b.missing)
    ensures |b.candles| == |b.present| && |b.present| + |b.missing| == |Grid(e)| * |b.members|
  {
    var sorted, grid := Rotation.Sorted(set s | s in b.members), Grid(e);
    SortedSize(b.members);
    Rotation.AscendingDistinct(sorted);
    hide Grid, KeysDistinct, Indexes, Distinct;
    KeysDistinctly(sorted, grid, b.present.Keys, false);
    KeysSplit(sorted, grid, b.present.Keys);
    FoundSize(sorted, grid, b.present.Keys);
    CandleCount(b.candles, b.present);
    Commute(|b.members|, |grid|);
    hide Keys;
  }

  lemma FoundSize(sorted: seq<Symbol>, grid: seq<int>, keys: set<Key>)
    requires Distinct(sorted) && Rotation.Ascending(grid) && forall k <- keys :: k.symbol in sorted && k.open in grid
    ensures |Keys(sorted, grid, keys, true)| == |keys|
  {
    KeysDistinctly(sorted, grid, keys, true);
    DistinctSize(Keys(sorted, grid, keys, true));
    hide Keys;
    assert (set k | k in Keys(sorted, grid, keys, true)) == keys;
  }

  lemma Commute(a: int, b: int)
    ensures a * b == b * a
  {
  }

  lemma SortedSize(members: seq<Symbol>)
    requires Distinct(members)
    ensures |Rotation.Sorted(set s | s in members)| == |members|
    ensures forall s :: s in Rotation.Sorted(set s | s in members) <==> s in members
  {
    var sorted := Rotation.Sorted(set s | s in members);
    DistinctSize(members);
    Rotation.AscendingDistinct(sorted);
    DistinctSize(sorted);
    SameMembers(sorted, members);
  }

  lemma CandleCount(candles: seq<Candle>, present: map<Key, Bar>)
    requires KeysDistinct(candles) && Indexes(candles, present)
    ensures |candles| == |present|
  {
    var keys := seq(|candles|, i requires 0 <= i < |candles| => candles[i].key);
    DistinctSize(keys);
    forall k ensures k in keys <==> k in present {
      if k in keys {
        var i :| 0 <= i < |keys| && keys[i] == k;
        assert candles[i] in candles;
      }
      if k in present {
        var i :| 0 <= i < |candles| && candles[i].key == k;
        assert keys[i] == k;
      }
    }
    assert (set k | k in keys) == present.Keys;
  }

  // ---------------------------------------------------------------- the plan

  const LIMIT := 100

  datatype Request = Request(
    index: nat, symbol: Symbol, start: int, end: int, lastOpen: int, bars: int, overlap: seq<int>, missing: seq<int>)

  function LastOpen(e: Experiment): int { e.resolveUntil - e.tf }

  function MissingOf(e: Experiment, b: Base, s: Symbol): seq<int>
    requires e.tf > 0
  {
    Select(Grid(e), s, b.present.Keys, false)
  }

  /** The present opens of a symbol from one instant up to, but not including, another. */
  function PresentBetween(b: Base, s: Symbol, from: int, until: int): (r: seq<int>)
    ensures Rotation.Ascending(r)
    ensures forall o :: o in r <==> Key(s, o) in b.present && from <= o < until
  {
    Rotation.Sorted(set k | k in b.present && k.symbol == s && from <= k.open < until :: k.open)
  }

  /** What a request must be: it starts at the last bar before the first gap and runs to the last
      open, overlapping what is present and asking for all that is missing. */
  ghost predicate Requests(e: Experiment, b: Base, s: Symbol, rq: Request)
    requires e.tf > 0
  {
    && rq.symbol == s && rq.missing == MissingOf(e, b, s) && rq.missing != []
    && Key(s, rq.start) in b.present && rq.start < rq.missing[0]
    && (forall o :: Key(s, o) in b.present && o < rq.missing[0] ==> o <= rq.start)
    && Rotation.Ascending(rq.overlap) && (forall o :: o in rq.overlap <==> Key(s, o) in b.present && o >= rq.start)
    && rq.lastOpen == LastOpen(e) && rq.end == rq.lastOpen + e.tf - 1
    && rq.bars == (rq.lastOpen - rq.start) / e.tf + 1 && rq.bars <= e.maxBars && rq.bars <= LIMIT
  }

  ghost predicate Planned(e: Experiment, b: Base, plan: seq<Request>)
    requires e.tf > 0
  {
    var affected := Affected(b.missing);
    && |plan| == |affected| <= e.maxRequests
    && forall i :: 0 <= i < |plan| ==> plan[i].index == i && Requests(e, b, affected[i], plan[i])
  }

  method RequestFor(e: Experiment, b: Base, s: Symbol, index: nat, plain: set<Symbol>) returns (r: Result<Request>)
    requires e.tf > 0 && Reconciled(e, b) && MissingOf(e, b, s) != []
    ensures r.Ok? ==> r.value.index == index && Requests(e, b, s, r.value)
    ensures r.Refused? ==> r.why.Unmappable? || r.why.NoBarBefore? || r.why.RangeTooLong?
    ensures r.Refused? && s in plain ==> forall rq :: !Requests(e, b, s, rq)
    ensures r == Refused(Unmappable) <==> s !in plain
    ensures r == Refused(NoBarBefore) <==> s in plain && forall o :: Key(s, o) in b.present ==>
      o >= MissingOf(e, b, s)[0]
  {
    hide MissingOf, Reconciled, PresentBetween, Opens, Grid, Select;
    if s !in plain { return Refused(Unmappable); }
    var missing := MissingOf(e, b, s);
    var before := PresentBetween(b, s, e.warmupStart, missing[0]);
    PresentInside(e, b, s);
    Latest(before);
    if before == [] { return Refused(NoBarBefore); }
    var start := before[|before| - 1];
    var bars := (LastOpen(e) - start) / e.tf + 1;
    if bars > e.maxBars || bars > LIMIT { return Refused(RangeTooLong); }
    var overlap := PresentBetween(b, s, start, e.resolveUntil);
    r := Ok(Request(index, s, start, LastOpen(e) + e.tf - 1, LastOpen(e), bars, overlap, missing));
  }

  lemma PresentInside(e: Experiment, b: Base, s: Symbol)
    requires e.tf > 0 && Reconciled(e, b)
    ensures forall o :: Key(s, o) in b.present ==> e.warmupStart <= o < e.resolveUntil
  {
    forall o | Key(s, o) in b.present ensures e.warmupStart <= o < e.resolveUntil {
      assert OnGrid(e, b.members, Key(s, o));
    }
  }

  lemma Latest(xs: seq<int>)
    requires Rotation.Ascending(xs)
    ensures xs != [] ==> xs[|xs| - 1] in xs && forall o <- xs :: o <= xs[|xs| - 1]
    ensures xs == [] ==> forall o :: o !in xs
  {
    forall o | o in xs ensures o <= xs[|xs| - 1] {
      var i :| 0 <= i < |xs| && xs[i] == o;
    }
  }

  method BuildPlan(e: Experiment, b: Base, plain: set<Symbol>) returns (r: Result<seq<Request>>)
    requires e.tf > 0 && Reconciled(e, b)
    ensures r.Ok? ==> Planned(e, b, r.value)
    ensures r.Refused? && !r.why.Unmappable? ==> forall plan :: !Planned(e, b, plan)
    ensures r == Refused(TooManyRequests) ==> |Affected(b.missing)| > e.maxRequests
    ensures r == Refused(NoBarBefore) ==> exists s <- Affected(b.missing) :: Key(s, e.warmupStart) !in b.present
    ensures r == Refused(Unmappable) ==> exists s <- Affected(b.missing) :: s !in plain
  {
    hide Requests, Reconciled, MissingOf, Affected;
    var affected := Affected(b.missing);
    var plan: seq<Request> := [];
    var i := 0;
    while i < |affected|
      invariant 0 <= i <= |affected| && |plan| == i
      invariant forall j :: 0 <= j < i ==> plan[j].index == j && Requests(e, b, affected[j], plan[j])
    {
      var s := affected[i];
      assert s in affected;
      AffectedMisses(e, b, s);
      var rq := RequestFor(e, b, s, i, plain);
      if rq.Refused? {
        if rq.why.NoBarBefore? { FirstBarMissing(e, b, s); }
        return Refused(rq.why);
      }
      plan := plan + [rq.value];
      i := i + 1;
    }
    if |plan| > e.maxRequests { return Refused(TooManyRequests); }
    r := Ok(plan);
  }

  lemma AffectedMisses(e: Experiment, b: Base, s: Symbol)
    requires e.tf > 0 && Reconciled(e, b) && s in Affected(b.missing)
    ensures MissingOf(e, b, s) != []
    ensures forall o :: o in MissingOf(e, b, s) <==> Key(s, o) in b.missing
  {
    hide Affected;
    SortedSize(b.members);
    var k :| k in b.missing && k.symbol == s;
    assert k.open in MissingOf(e, b, s);
  }

  /** No bar before the first gap means that the very first bar of the grid is missing. */
  lemma FirstBarMissing(e: Experiment, b: Base, s: Symbol)
    requires e.tf > 0 && Reconciled(e, b) && MissingOf(e, b, s) != []
    requires forall o :: Key(s, o) in b.present ==> o >= MissingOf(e, b, s)[0]
    ensures Key(s, e.warmupStart) !in b.present
  {
    var first := MissingOf(e, b, s)[0];
    assert first in MissingOf(e, b, s);
    assert first in Grid(e) && Key(s, first) !in b.present;
  }

  // ---------------------------------------------------------------- what a plan covers

  /** Every missing key is asked for by exactly one request, and nothing else is asked for. */
  lemma PlanCovers(e: Experiment, b: Base, plan: seq<Request>, k: Key)
    requires e.tf > 0 && Reconciled(e, b) && Planned(e, b, plan)
    ensures k in b.missing <==> exists i :: 0 <= i < |plan| && plan[i].symbol == k.symbol && k.open in plan[i].missing
    ensures forall i, j :: 0 <= i < j < |plan| ==> plan[i].symbol < plan[j].symbol
  {
    var affected := Affected(b.missing);
    hide Reconciled, MissingOf;
    if k in b.missing {
      assert k.symbol in affected;
      var i :| 0 <= i < |affected| && affected[i] == k.symbol;
      AffectedMisses(e, b, affected[i]);
      assert plan[i].symbol == k.symbol && k.open in plan[i].missing;
    }
    if i :| 0 <= i < |plan| && plan[i].symbol == k.symbol && k.open in plan[i].missing {
      assert affected[i] in affected;
      AffectedMisses(e, b, affected[i]);
    }
  }

  /** Overlap and missing opens partition the grid from the start of the request on. The range that
      is asked for ends at the last bar of the grid, and the bar count is right, exactly when the
      window is a whole number of bars; otherwise the last bar of the grid lies outside it. */
  lemma RequestPartition(e: Experiment, b: Base, s: Symbol, rq: Request)
    requires e.tf > 0 && Reconciled(e, b) && s in b.members && Requests(e, b, s, rq)
    ensures forall o :: o in Opens(rq.start, e.resolveUntil, e.tf) <==> o in rq.overlap || o in rq.missing
    ensures forall o <- rq.overlap :: o !in rq.missing
    ensures |rq.overlap| + |rq.missing| == |Opens(rq.start, e.resolveUntil, e.tf)|
    ensures rq.bars == |rq.overlap| + |rq.missing| <==> Aligned(e)
    ensures (forall o :: o in rq.overlap || o in rq.missing ==> o <= rq.lastOpen) <==> Aligned(e)
  {
    hide *;
    var opens := Opens(rq.start, e.resolveUntil, e.tf);
    RequestStarts(e, b, s, rq);
    OpensFrom(e.warmupStart, e.resolveUntil, e.tf, rq.start);
    OpensCount(rq.start, e.resolveUntil, e.tf);
    RequestOpens(e, b, s, rq);
    RequestCount(rq.overlap, rq.missing, opens);
    Latest(opens);
  }

  lemma RequestStarts(e: Experiment, b: Base, s: Symbol, rq: Request)
    requires e.tf > 0 && Reconciled(e, b) && Requests(e, b, s, rq)
    ensures rq.start in Opens(e.warmupStart, e.resolveUntil, e.tf) && Rotation.Ascending(rq.overlap)
    ensures rq.bars == (e.resolveUntil - e.tf - rq.start) / e.tf + 1 && rq.lastOpen == e.resolveUntil - e.tf
    ensures Aligned(e) <==> (e.resolveUntil - e.warmupStart) % e.tf == 0
    ensures Grid(e) == Opens(e.warmupStart, e.resolveUntil, e.tf)
  {
    hide Opens, Select, MissingOf, Indexes, KeysDistinct, Distinct, Keys;
    assert OnGrid(e, b.members, Key(s, rq.start));
  }

  lemma RequestOpens(e: Experiment, b: Base, s: Symbol, rq: Request)
    requires e.tf > 0 && Reconciled(e, b) && s in b.members && Requests(e, b, s, rq)
    ensures forall o :: o in rq.overlap || o in rq.missing <==> o in Grid(e) && o >= rq.start
    ensures forall o <- rq.overlap :: o !in rq.missing
    ensures Rotation.Ascending(rq.missing)
  {
    SelectAscending(Grid(e), s, b.present.Keys, false);
    hide Grid;
    forall o | o in rq.missing ensures o >= rq.start {
      var i :| 0 <= i < |rq.missing| && rq.missing[i] == o;
      assert i == 0 || rq.missing[0] < rq.missing[i];
    }
    forall o | Key(s, o) in b.present ensures o in Grid(e) {
      assert OnGrid(e, b.members, Key(s, o));
    }
  }

  lemma RequestCount(a: seq<int>, c: seq<int>, all: seq<int>)
    requires Rotation.Ascending(a) && Rotation.Ascending(c) && Rotation.Ascending(all)
    requires (forall o :: o in a || o in c <==> o in all) && forall o <- a :: o !in c
    ensures |a| + |c| == |all|
  {
    Rotation.AscendingDistinct(a);
    Rotation.AscendingDistinct(c);
    Rotation.AscendingDistinct(all);
    var both := a + c;
    forall i, j | 0 <= i < j < |both| ensures both[i] != both[j] {
      if i < |a| <= j { assert both[i] in a && both[j] in c; }
    }
    DistinctSize(both);
    DistinctSize(all);
    SameMembers(both, all);
  }

  // ---------------------------------------------------------------- a window that is not whole

  /** Two and a half bars: the bars at 0 and 2 are there, the one at 4 is missing. */
  const UNEVEN := Experiment(2, 0, 5, 1, 3, 2, 1, 1, 25, 42)
  const FLAT := Bar(1.0, 1.0, 1.0, 1.0, 0.0)
  const UNEVEN_BASE := Base([7], [Candle(Key(7, 0), FLAT), Candle(Key(7, 2), FLAT)],
    map[Key(7, 0) := FLAT, Key(7, 2) := FLAT], [Key(7, 4)])

  /** Every request that there can be for the missing bar has a range that ends before it. */
  lemma UnevenMissesLastBar(rq: Request)
    ensures Reconciled(UNEVEN, UNEVEN_BASE) && !Aligned(UNEVEN)
    ensures Requests(UNEVEN, UNEVEN_BASE, 7, Request(0, 7, 2, 4, 3, 1, [2], [4]))
    ensures Requests(UNEVEN, UNEVEN_BASE, 7, rq) ==> 4 in rq.missing && rq.lastOpen == 3 && rq.bars == 1
  {
    UnevenReconciled();
    hide Reconciled, Opens, Select, Keys, Grid;
    UnevenGrid();
    UnevenSelects();
    assert UNEVEN_BASE.present.Keys == {Key(7, 0), Key(7, 2)};
    assert Rotation.Ascending([2]);
  }

  lemma UnevenReconciled()
    ensures Reconciled(UNEVEN, UNEVEN_BASE)
  {
    hide Opens, Select, Keys, Grid;
    UnevenGrid();
    UnevenSelects();
    SortedOne();
    UnevenIndexed();
    assert UNEVEN_BASE.present.Keys == {Key(7, 0), Key(7, 2)};
    assert [7][0] == 7 && [0, 2, 4][0] == 0 && [0, 2, 4][1] == 2;
    hide Indexes, KeysDistinct;
  }

  lemma UnevenIndexed()
    ensures Indexes(UNEVEN_BASE.candles, UNEVEN_BASE.present) && KeysDistinct(UNEVEN_BASE.candles)
  {
    assert UNEVEN_BASE.candles[0].key == Key(7, 0) && UNEVEN_BASE.candles[1].key == Key(7, 2);
  }

  lemma UnevenGrid()
    ensures Grid(UNEVEN) == [0, 2, 4]
  {
    assert Opens(6, 5, 2) == [];
    assert Opens(4, 5, 2) == [4];
    assert Opens(2, 5, 2) == [2, 4];
  }

  lemma UnevenSelects()
    ensures Select([0, 2, 4], 7, {Key(7, 0), Key(7, 2)}, false) == [4]
    ensures Keys([7], [0, 2, 4], {Key(7, 0), Key(7, 2)}, false) == [Key(7, 4)]
  {
    var keys := {Key(7, 0), Key(7, 2)};
    assert [0, 2, 4][..2] == [0, 2] && [0, 2][..1] == [0] && [0][..0] == [];
    assert Select([0], 7, keys, false) == [];
    assert Select([0, 2], 7, keys, false) == [];
    assert Keys([7][..0], [0, 2, 4], keys, false) == [];
  }

  lemma SortedOne()
    ensures Rotation.Sorted(set s | s in [7]) == [7]
  {
    assert (set s | s in [7]) == {7};
    var sorted := Rotation.Sorted({7});
    Rotation.AscendingDistinct(sorted);
    HeldSize(sorted, {7});
    assert sorted[0] in sorted;
  }
}
