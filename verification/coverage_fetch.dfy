/** Coverage repair, second half: one response a request, one ledger status a missing key, and the
    repaired input. */
module CoverageFetch {
  import opened Sequences
  import opened Wrappers
  import opened CoveragePlan

  // ---------------------------------------------------------------- one response

  /** A row of a response: whether it has the twelve fields, its times, and its numbers when all
      five can be read. */
  datatype RawRow = RawRow(shaped: bool, open: Option<int>, close: Option<int>, bar: Option<Bar>)

  datatype Body = Unparseable | NotAList | RowList(rows: seq<RawRow>)

  datatype RowError =
    | UnparseableJson | WrongShape | WrongRowShape | BadOpenTime | MisalignedOpenTime | OutOfRange | BadCloseTime
    | NotClosed | BadNumber | InconsistentOhlcv | DuplicateOpenTime

  predicate Consistent(b: Bar) {
    && b.open > 0.0 && b.high > 0.0 && b.low > 0.0 && b.close > 0.0 && b.volume >= 0.0
    && b.high >= b.open && b.high >= b.close && b.low <= b.open && b.low <= b.close
  }

  /** What is wrong with a row by itself. */
  function Problem(row: RawRow, rq: Request, tf: int, retrieved: int): Option<RowError>
    requires tf > 0
  {
    if !row.shaped then Some(WrongRowShape)
    else if row.open.None? || row.open.value < 0 then Some(BadOpenTime)
    else if row.open.value % tf != 0 then Some(MisalignedOpenTime)
    else if !(rq.start <= row.open.value <= rq.lastOpen) then Some(OutOfRange)
    else if row.close.None? || row.close.value != row.open.value + tf - 1 then Some(BadCloseTime)
    else if row.open.value + tf > retrieved then Some(NotClosed)
    else if row.bar.None? then Some(BadNumber)
    else if !Consistent(row.bar.value) then Some(InconsistentOhlcv)
    else None
  }

  /** A row is accepted with twelve fields, an aligned open time in the requested range, the close
      time of that bar, the bar closed when it was retrieved, and five consistent numbers. */
  lemma RightRowIs(row: RawRow, rq: Request, tf: int, retrieved: int)
    requires tf > 0
    ensures Problem(row, rq, tf, retrieved).None? <==>
      && row.shaped && row.open.Some? && row.open.value >= 0 && row.open.value % tf == 0
      && rq.start <= row.open.value && row.open.value <= rq.lastOpen
      && row.close == Some(row.open.value + tf - 1) && row.open.value + tf <= retrieved && row.bar.Some?
      && var b := row.bar.value;
      && 0.0 < b.low <= b.open <= b.high && b.low <= b.close <= b.high && 0.0 <= b.volume
  {
  }

  /** What each error says of a row by itself. */
  predicate Says(error: RowError, row: RawRow, rq: Request, tf: int, retrieved: int)
    requires tf > 0
  {
    match error
    case WrongRowShape => !row.shaped
    case BadOpenTime => row.open.None? || row.open.value < 0
    case MisalignedOpenTime => row.open.Some? && row.open.value % tf > 0
    case OutOfRange => row.open.Some? && (row.open.value < rq.start || rq.lastOpen < row.open.value)
    case BadCloseTime => row.open.Some? && row.close != Some(row.open.value + tf - 1)
    case NotClosed => row.open.Some? && retrieved < row.open.value + tf
    case BadNumber => row.bar.None?
    case InconsistentOhlcv => row.bar.Some? && (
      var b := row.bar.value;
      b.low <= 0.0 || b.volume < 0.0 || b.high < b.open || b.high < b.close || b.open < b.low || b.close < b.low)
    case _ => false
  }

  const CHECKS := [WrongRowShape, BadOpenTime, MisalignedOpenTime, OutOfRange, BadCloseTime, NotClosed, BadNumber,
                   InconsistentOhlcv]

  predicate FirstToSay(i: nat, row: RawRow, rq: Request, tf: int, retrieved: int)
    requires tf > 0 && i < |CHECKS|
  {
    Says(CHECKS[i], row, rq, tf, retrieved) && forall j :: 0 <= j < i ==> !Says(CHECKS[j], row, rq, tf, retrieved)
  }

  /** The first error that says so is the one reported. */
  lemma FirstProblem(row: RawRow, rq: Request, tf: int, retrieved: int)
    requires tf > 0
    ensures match Problem(row, rq, tf, retrieved)
      case None => forall e <- CHECKS :: !Says(e, row, rq, tf, retrieved)
      case Some(error) => exists i :: 0 <= i < |CHECKS| && CHECKS[i] == error && FirstToSay(i, row, rq, tf, retrieved)
  {
    var p := Problem(row, rq, tf, retrieved);
    if p.Some? {
      var i := match p.value
        case WrongRowShape => 0
        case BadOpenTime => 1
        case MisalignedOpenTime => 2
        case OutOfRange => 3
        case BadCloseTime => 4
        case NotClosed => 5
        case BadNumber => 6
        case _ => 7;
      assert CHECKS[i] == p.value;
    }
  }

  /** Every row is right, and no open time comes twice: one bad row fails the whole response. */
  predicate AllRight(rows: seq<RawRow>, rq: Request, tf: int, retrieved: int)
    requires tf > 0
  {
    && (forall i :: 0 <= i < |rows| ==> Problem(rows[i], rq, tf, retrieved).None?)
    && forall i, j :: 0 <= i < j < |rows| ==> rows[i].open != rows[j].open
  }

  /** The map holds exactly the bars of the rows. */
  predicate Holds(bars: map<int, Bar>, rows: seq<RawRow>) {
    && (forall i :: 0 <= i < |rows| ==> rows[i].open.Some? && rows[i].bar.Some?)
    && (forall i :: 0 <= i < |rows| ==> rows[i].open.value in bars && bars[rows[i].open.value] == rows[i].bar.value)
    && (forall o <- bars :: exists i :: 0 <= i < |rows| && rows[i].open == Some(o))
  }

  method ValidateKlines(body: Body, rq: Request, tf: int, retrieved: int)
      returns (bars: map<int, Bar>, errors: seq<RowError>)
    requires tf > 0
    ensures errors == [] <==> body.RowList? && AllRight(body.rows, rq, tf, retrieved)
    ensures errors == [] ==> Holds(bars, body.rows)
    ensures body.Unparseable? ==> errors == [UnparseableJson]
    ensures body.NotAList? ==> errors == [WrongShape]
    ensures body.RowList? ==> forall error :: error in errors && error != DuplicateOpenTime <==>
      exists i :: 0 <= i < |body.rows| && Problem(body.rows[i], rq, tf, retrieved) == Some(error)
    ensures forall o <- bars ::
      rq.start <= o <= rq.lastOpen && o % tf == 0 && o + tf <= retrieved && Consistent(bars[o])
  {
    bars, errors := map[], [];
    if body.Unparseable? { return map[], [UnparseableJson]; }
    if body.NotAList? { return map[], [WrongShape]; }
    var rows := body.rows;
    var i := 0;
    while i < |rows|
      invariant 0 <= i <= |rows|
      invariant errors == [] <==> AllRight(rows[..i], rq, tf, retrieved)
      invariant errors == [] ==> Holds(bars, rows[..i])
      invariant forall error :: error in errors && error != DuplicateOpenTime <==>
        exists j :: 0 <= j < i && Problem(rows[j], rq, tf, retrieved) == Some(error)
      invariant forall o <- bars ::
        rq.start <= o <= rq.lastOpen && o % tf == 0 && o + tf <= retrieved && Consistent(bars[o])
    {
      var problem := Problem(rows[i], rq, tf, retrieved);
      RowStep(rows, i, rq, tf, retrieved, bars);
      if problem.Some? {
        errors := errors + [problem.value];
      } else if rows[i].open.value in bars {
        errors := errors + [DuplicateOpenTime];
      } else {
        bars := bars[rows[i].open.value := rows[i].bar.value];
      }
      i := i + 1;
    }
    assert rows[..i] == rows;
  }

  lemma RowStep(rows: seq<RawRow>, i: nat, rq: Request, tf: int, retrieved: int, bars: map<int, Bar>)
    requires tf > 0 && i < |rows|
    ensures AllRight(rows[..i + 1], rq, tf, retrieved) ==> AllRight(rows[..i], rq, tf, retrieved)
    ensures AllRight(rows[..i], rq, tf, retrieved) && Holds(bars, rows[..i]) ==>
      (AllRight(rows[..i + 1], rq, tf, retrieved) <==>
        Problem(rows[i], rq, tf, retrieved).None? && rows[i].open.Some? && rows[i].open.value !in bars)
    ensures (AllRight(rows[..i], rq, tf, retrieved) && Holds(bars, rows[..i])
      && Problem(rows[i], rq, tf, retrieved).None? && rows[i].open.value !in bars) ==>
      Holds(bars[rows[i].open.value := rows[i].bar.value], rows[..i + 1])
  {
    RightRow(rows[i], rq, tf, retrieved);
    hide Problem, Consistent;
    var before, after := rows[..i], rows[..i + 1];
    assert forall j :: 0 <= j < i ==> after[j] == before[j] == rows[j];
    assert after[i] == rows[i];
    if AllRight(after, rq, tf, retrieved) {
      forall j | 0 <= j < i ensures Problem(before[j], rq, tf, retrieved).None? {
        assert Problem(after[j], rq, tf, retrieved).None?;
      }
    }
    if AllRight(before, rq, tf, retrieved) && Holds(bars, before) && Problem(rows[i], rq, tf, retrieved).None? {
      if rows[i].open.value in bars {
        var j :| 0 <= j < i && before[j].open == Some(rows[i].open.value);
        assert after[j].open == after[i].open;
      } else {
        forall j | 0 <= j < i ensures after[j].open != after[i].open {
          assert before[j].open.value in bars;
        }
        var more := bars[rows[i].open.value := rows[i].bar.value];
        forall o | o in more ensures exists j :: 0 <= j < |after| && after[j].open == Some(o) {
          if o in bars {
            var j :| 0 <= j < i && before[j].open == Some(o);
            assert after[j].open == Some(o);
          } else {
            assert after[i].open == Some(o);
          }
        }
      }
    }
  }

  lemma RightRow(row: RawRow, rq: Request, tf: int, retrieved: int)
    requires tf > 0
    ensures Problem(row, rq, tf, retrieved).None? ==> row.open.Some? && row.bar.Some?
  {
  }

  // ---------------------------------------------------------------- one request

  datatype Response = NetworkError | Http(status: nat, sameUrl: bool, oversized: bool, body: Body, retrieved: int)

  datatype Outcome = Validated(bars: map<int, Bar>) | RequestFailed | InvalidResponse

  const TOO_MANY := 429
  const BANNED := 418

  /** The response came back whole from the address that was asked. */
  predicate Usable(r: Response) {
    r.Http? && r.sameUrl && r.status == 200 && !r.oversized
  }

  /** A refusal after which no further request is made. */
  predicate Stops(r: Response) {
    r.Http? && (r.status == TOO_MANY || r.status == BANNED)
  }

  predicate StoppedBy(r: Response, status: nat) {
    Stops(r) && r.status == status
  }

  /** The outcome is the one that the response calls for. */
  ghost predicate OutcomeOf(out: Outcome, r: Response, rq: Request, tf: int)
    requires tf > 0
  {
    && (out.RequestFailed? <==> !Usable(r))
    && (out.Validated? <==> Usable(r) && r.body.RowList? && AllRight(r.body.rows, rq, tf, r.retrieved))
    && (out.Validated? ==> Holds(out.bars, r.body.rows))
  }

  method Perform(r: Response, rq: Request, tf: int) returns (out: Outcome)
    requires tf > 0
    ensures OutcomeOf(out, r, rq, tf)
  {
    hide AllRight, Holds;
    if r.NetworkError? || !r.sameUrl || r.status != 200 || r.oversized { return RequestFailed; }
    var bars, errors := ValidateKlines(r.body, rq, tf, r.retrieved);
    out := if errors != [] then InvalidResponse else Validated(bars);
  }

  /** The bars of a valid response are determined by it. */
  lemma BarsDetermined(a: map<int, Bar>, b: map<int, Bar>, rows: seq<RawRow>)
    requires Holds(a, rows) && Holds(b, rows)
    ensures a == b
  {
    forall o | o in a ensures o in b && a[o] == b[o] {
      var i :| 0 <= i < |rows| && rows[i].open == Some(o);
    }
    forall o | o in b ensures o in a {
      var i :| 0 <= i < |rows| && rows[i].open == Some(o);
    }
  }

  // ---------------------------------------------------------------- overlap

  datatype Flag = OverlapMissing(key: Key) | OverlapMismatch(key: Key)

  predicate OverlapAgrees(rq: Request, bars: map<int, Bar>, present: map<Key, Bar>) {
    forall o <- rq.overlap :: o in bars && Key(rq.symbol, o) in present && bars[o] == present[Key(rq.symbol, o)]
  }

  method CompareOverlap(rq: Request, bars: map<int, Bar>, present: map<Key, Bar>) returns (flags: seq<Flag>)
    requires forall o <- rq.overlap :: Key(rq.symbol, o) in present
    ensures flags == [] <==> OverlapAgrees(rq, bars, present)
    ensures forall f <- flags :: f.key.symbol == rq.symbol && f.key.open in rq.overlap
    ensures forall o <- rq.overlap :: OverlapMissing(Key(rq.symbol, o)) in flags <==> o !in bars
    ensures forall o <- rq.overlap ::
      OverlapMismatch(Key(rq.symbol, o)) in flags <==> o in bars && bars[o] != present[Key(rq.symbol, o)]
  {
    flags := [];
    var i := 0;
    while i < |rq.overlap|
      invariant 0 <= i <= |rq.overlap|
      invariant flags == [] <==> (forall j :: 0 <= j < i ==>
        rq.overlap[j] in bars && bars[rq.overlap[j]] == present[Key(rq.symbol, rq.overlap[j])])
      invariant forall f <- flags :: (f.key.symbol == rq.symbol && f.key.open in rq.overlap[..i]
        && (f.OverlapMissing? <==> f.key.open !in bars)
        && (f.OverlapMismatch? ==> bars[f.key.open] != present[f.key]))
      invariant forall j :: 0 <= j < i && rq.overlap[j] !in bars ==>
        OverlapMissing(Key(rq.symbol, rq.overlap[j])) in flags
      invariant forall j ::
        0 <= j < i && rq.overlap[j] in bars && bars[rq.overlap[j]] != present[Key(rq.symbol, rq.overlap[j])] ==>
        OverlapMismatch(Key(rq.symbol, rq.overlap[j])) in flags
    {
      var o := rq.overlap[i];
      assert rq.overlap[..i + 1] == rq.overlap[..i] + [o];
      if o !in bars {
        flags := flags + [OverlapMissing(Key(rq.symbol, o))];
      } else if bars[o] != present[Key(rq.symbol, o)] {
        flags := flags + [OverlapMismatch(Key(rq.symbol, o))];
      }
      i := i + 1;
    }
  }

  // ---------------------------------------------------------------- all requests

  datatype Status = Recovered | AbsentInResponse | FailedRequest | InvalidBody | NotAttempted

  datatype Entry = Entry(status: Status, index: nat)

  /** A request is made unless the limit is reached or an earlier one was refused for good. */
  predicate Attempted(e: Experiment, responses: seq<Response>, i: nat) {
    i < e.maxRequests && forall j :: 0 <= j < i && j < |responses| ==> !Stops(responses[j])
  }

  /** The status that one open of one request deserves. */
  ghost predicate StatusOf(e: Experiment, plan: seq<Request>, responses: seq<Response>, i: nat, o: int, status: Status)
    requires e.tf > 0 && i < |plan| == |responses|
  {
    var r := responses[i];
    var right := Usable(r) && r.body.RowList? && AllRight(r.body.rows, plan[i], e.tf, r.retrieved);
    match status
    case NotAttempted => !Attempted(e, responses, i)
    case FailedRequest => Attempted(e, responses, i) && !Usable(r)
    case InvalidBody => Attempted(e, responses, i) && Usable(r) && !right
    case Recovered => Attempted(e, responses, i) && right && Returns(r.body.rows, o)
    case AbsentInResponse => Attempted(e, responses, i) && right && !Returns(r.body.rows, o)
  }

  predicate Returns(rows: seq<RawRow>, o: int) {
    exists k :: 0 <= k < |rows| && rows[k].open == Some(o)
  }

  /** Exactly one status fits, whatever came back. */
  lemma OneStatus(e: Experiment, plan: seq<Request>, responses: seq<Response>, i: nat, o: int) returns (status: Status)
    requires e.tf > 0 && i < |plan| == |responses|
    ensures StatusOf(e, plan, responses, i, o, status)
    ensures forall other :: StatusOf(e, plan, responses, i, o, other) ==> other == status
  {
    hide AllRight, Returns, Attempted;
    var r := responses[i];
    if !Attempted(e, responses, i) {
      status := NotAttempted;
    } else if !Usable(r) {
      status := FailedRequest;
    } else if !(r.body.RowList? && AllRight(r.body.rows, plan[i], e.tf, r.retrieved)) {
      status := InvalidBody;
    } else {
      status := if Returns(r.body.rows, o) then Recovered else AbsentInResponse;
    }
  }

  /** The ledger of the first n requests: one entry a missing open, each the one it deserves. */
  ghost predicate LedgerOf(e: Experiment, plan: seq<Request>, responses: seq<Response>, n: nat, ledger: map<Key, Entry>)
    requires e.tf > 0 && n <= |plan| == |responses|
  {
    && (forall i, o :: 0 <= i < n && o in plan[i].missing ==>
          Key(plan[i].symbol, o) in ledger && ledger[Key(plan[i].symbol, o)].index == i
          && StatusOf(e, plan, responses, i, o, ledger[Key(plan[i].symbol, o)].status))
    && (forall k <- ledger ::
          ledger[k].index < n && plan[ledger[k].index].symbol == k.symbol && k.open in plan[ledger[k].index].missing)
  }

  /** Recovered bars are those of the ledger, taken from the response of their request. */
  ghost predicate RecoveredOf(responses: seq<Response>, ledger: map<Key, Entry>, recovered: map<Key, Bar>) {
    && (forall k :: k in recovered <==> k in ledger && ledger[k].status.Recovered?)
    && (forall k <- recovered :: ledger[k].index < |responses|
          && BarFrom(responses[ledger[k].index], k.open, recovered[k]))
  }

  /** The candles are those of the recovered keys, each with the bar that the response of its own
      request gave for it. */
  ghost predicate AddedFrom(responses: seq<Response>, ledger: map<Key, Entry>, added: seq<Candle>) {
    && (forall c <- added :: c.key in ledger && ledger[c.key].status.Recovered?)
    && (forall c <- added ::
          ledger[c.key].index < |responses| && BarFrom(responses[ledger[c.key].index], c.key.open, c.bar))
    && (forall k <- ledger :: ledger[k].status.Recovered? ==> exists i :: 0 <= i < |added| && added[i].key == k)
  }

  predicate BarFrom(r: Response, o: int, bar: Bar) {
    r.Http? && r.body.RowList? && exists i ::
      0 <= i < |r.body.rows| && r.body.rows[i].open == Some(o) && r.body.rows[i].bar == Some(bar)
  }

  /** After gets one entry for every open of the request and keeps all others. */
  ghost predicate Adds(before: map<Key, Entry>, after: map<Key, Entry>, rq: Request) {
    && (forall k :: k in after <==> k in before || (k.symbol == rq.symbol && k.open in rq.missing))
    && (forall k <- before :: k.symbol != rq.symbol ==> after[k] == before[k])
    && (forall o <- rq.missing :: after[Key(rq.symbol, o)].index == rq.index)
  }

  /** The same entry for every open of a request. */
  function Marked(ledger: map<Key, Entry>, rq: Request, status: Status): (r: map<Key, Entry>)
    ensures Adds(ledger, r, rq) && forall o <- rq.missing :: r[Key(rq.symbol, o)].status == status
  {
    ledger + map o | o in rq.missing :: Key(rq.symbol, o) := Entry(status, rq.index)
  }

  /** An entry for every open of a request whose response was valid. */
  method Settle(rq: Request, bars: map<int, Bar>, ledger: map<Key, Entry>, recovered: map<Key, Bar>)
      returns (after: map<Key, Entry>, bank: map<Key, Bar>)
    requires forall k <- recovered :: k.symbol != rq.symbol
    ensures Adds(ledger, after, rq)
    ensures forall o <- rq.missing ::
      after[Key(rq.symbol, o)].status == if o in bars then Recovered else AbsentInResponse
    ensures forall k ::
      k in bank <==> k in recovered || (k.symbol == rq.symbol && k.open in rq.missing && k.open in bars)
    ensures forall k <- bank :: bank[k] == if k in recovered then recovered[k] else bars[k.open]
  {
    after, bank := ledger, recovered;
    var i := 0;
    assert rq.missing[..0] == [];
    while i < |rq.missing|
      invariant 0 <= i <= |rq.missing|
      invariant forall k :: k in after <==> k in ledger || (k.symbol == rq.symbol && k.open in rq.missing[..i])
      invariant forall k <- ledger :: k.symbol != rq.symbol ==> after[k] == ledger[k]
      invariant forall o <- rq.missing[..i] ::
        after[Key(rq.symbol, o)] == Entry(if o in bars then Recovered else AbsentInResponse, rq.index)
      invariant forall k ::
        k in bank <==> k in recovered || (k.symbol == rq.symbol && k.open in rq.missing[..i] && k.open in bars)
      invariant forall k <- bank :: bank[k] == if k in recovered then recovered[k] else bars[k.open]
    {
      var o := rq.missing[i];
      assert rq.missing[..i + 1] == rq.missing[..i] + [o];
      if o in bars {
        after := after[Key(rq.symbol, o) := Entry(Recovered, rq.index)];
        bank := bank[Key(rq.symbol, o) := bars[o]];
      } else {
        after := after[Key(rq.symbol, o) := Entry(AbsentInResponse, rq.index)];
      }
      i := i + 1;
    }
    assert rq.missing[..i] == rq.missing;
  }

  predicate SymbolsDistinct(plan: seq<Request>) {
    (forall i :: 0 <= i < |plan| ==> plan[i].index == i)
    && forall i, j :: 0 <= i < j < |plan| ==> plan[i].symbol != plan[j].symbol
  }

  /** The overlap of a request that came back valid agrees with the baseline. */
  ghost predicate OverlapFine(e: Experiment, plan: seq<Request>, responses: seq<Response>, present: map<Key, Bar>,
      i: nat)
    requires e.tf > 0 && i < |plan| == |responses|
  {
    var r := responses[i];
    Attempted(e, responses, i) && Usable(r) && r.body.RowList? && AllRight(r.body.rows, plan[i], e.tf, r.retrieved) ==>
      forall bars :: Holds(bars, r.body.rows) ==> OverlapAgrees(plan[i], bars, present)
  }

  /** The fetch was stopped by the first attempted request that was refused for good, if any. */
  ghost predicate StopIs(e: Experiment, responses: seq<Response>, stopped: Option<nat>) {
    match stopped
    case None => forall j :: 0 <= j < |responses| && j < e.maxRequests ==>
      !(responses[j].Http? && (responses[j].status == 418 || responses[j].status == 429))
    case Some(status) =>
      exists j :: 0 <= j < |responses| && Attempted(e, responses, j) && StoppedBy(responses[j], status)
  }

  /** The flag that request i calls for: its response came back valid, and leaves out a bar of the
      overlap or gives another one than the baseline. */
  ghost predicate FlagDue(e: Experiment, plan: seq<Request>, responses: seq<Response>, present: map<Key, Bar>, i: nat,
      f: Flag)
    requires e.tf > 0 && i < |plan| == |responses|
  {
    var r := responses[i];
    && Attempted(e, responses, i) && Usable(r) && r.body.RowList? && AllRight(r.body.rows, plan[i], e.tf, r.retrieved)
    && f.key.symbol == plan[i].symbol && f.key.open in plan[i].overlap
    && if f.OverlapMissing? then !Returns(r.body.rows, f.key.open)
       else f.key in present && exists bar :: BarFrom(r, f.key.open, bar) && bar != present[f.key]
  }

  ghost predicate FlagsDue(e: Experiment, plan: seq<Request>, responses: seq<Response>, present: map<Key, Bar>, n: nat,
      flags: seq<Flag>)
    requires e.tf > 0 && n <= |plan| == |responses|
  {
    forall f :: f in flags <==> exists i :: 0 <= i < n && FlagDue(e, plan, responses, present, i, f)
  }

  method Fetch(e: Experiment, plan: seq<Request>, present: map<Key, Bar>, responses: seq<Response>)
      returns (ledger: map<Key, Entry>, recovered: map<Key, Bar>, flags: seq<Flag>, stopped: Option<nat>)
    requires e.tf > 0 && |responses| == |plan| && SymbolsDistinct(plan)
    requires forall i :: 0 <= i < |plan| ==> forall o <- plan[i].overlap :: Key(plan[i].symbol, o) in present
    ensures LedgerOf(e, plan, responses, |plan|, ledger)
    ensures RecoveredOf(responses, ledger, recovered)
    ensures flags == [] <==> forall i :: 0 <= i < |plan| ==> OverlapFine(e, plan, responses, present, i)
    ensures FlagsDue(e, plan, responses, present, |plan|, flags)
    ensures StopIs(e, responses, stopped)
  {
    hide LedgerOf, RecoveredOf, OverlapFine, StatusOf, Adds, Holds, AllRight, OverlapAgrees, OutcomeOf, Usable,
      Attempted, FlagsDue;
    ledger, recovered, flags, stopped := map[], map[], [], None;
    var i := 0;
    FetchStarts(e, plan, responses, present);
    while i < |plan|
      invariant 0 <= i <= |plan|
      invariant LedgerOf(e, plan, responses, i, ledger) && RecoveredOf(responses, ledger, recovered)
      invariant flags == [] <==> forall j :: 0 <= j < i ==> OverlapFine(e, plan, responses, present, j)
      invariant FlagsDue(e, plan, responses, present, i, flags)
      invariant stopped.Some? <==> exists j :: 0 <= j < i && j < e.maxRequests && Stops(responses[j])
      invariant stopped.Some? ==>
        exists j :: 0 <= j < i && Attempted(e, responses, j) && StoppedBy(responses[j], stopped.value)
    {
      var rq, r := plan[i], responses[i];
      ghost var before, bank := ledger, recovered;
      AttemptedIff(e, responses, i);
      NewSymbol(e, plan, responses, i, ledger, recovered);
      if stopped.Some? || rq.index >= e.maxRequests {
        ledger := Marked(ledger, rq, NotAttempted);
        IdleStatus(e, plan, responses, present, i);
        NothingDue(e, plan, responses, present, i, flags);
        Unsettled(e, plan, responses, i, before, ledger, NotAttempted, recovered);
      } else {
        var out := Perform(r, rq, e.tf);
        if out.Validated? {
          ledger, recovered := Settle(rq, out.bars, ledger, recovered);
          Settled(e, plan, responses, i, before, ledger, out.bars, bank, recovered);
          var more := CompareOverlap(rq, out.bars, present);
          Compared(e, plan, responses, present, i, out.bars);
          MoreDue(e, plan, responses, present, i, out.bars, flags, more);
          flags := flags + more;
        } else {
          var status := if out.RequestFailed? then FailedRequest else InvalidBody;
          ledger := Marked(ledger, rq, status);
          FailedStatus(e, plan, responses, present, i, out, status);
          NothingDue(e, plan, responses, present, i, flags);
          Unsettled(e, plan, responses, i, before, ledger, status, recovered);
          if Stops(r) { stopped := Some(r.status); }
        }
        StopsUnusable(r, rq, e.tf, out);
      }
      i := i + 1;
    }
  }

  lemma StopsUnusable(r: Response, rq: Request, tf: int, out: Outcome)
    requires tf > 0 && OutcomeOf(out, r, rq, tf)
    ensures out.Validated? ==> !Stops(r)
  {
  }

  lemma FetchStarts(e: Experiment, plan: seq<Request>, responses: seq<Response>, present: map<Key, Bar>)
    requires e.tf > 0 && |responses| == |plan|
    ensures LedgerOf(e, plan, responses, 0, map[]) && RecoveredOf(responses, map[], map[])
    ensures FlagsDue(e, plan, responses, present, 0, [])
  {
  }

  lemma AttemptedIff(e: Experiment, responses: seq<Response>, i: nat)
    requires i < |responses|
    ensures Attempted(e, responses, i) <==>
      i < e.maxRequests && !exists j :: 0 <= j < i && j < e.maxRequests && Stops(responses[j])
  {
  }

  lemma NewSymbol(e: Experiment, plan: seq<Request>, responses: seq<Response>, i: nat, ledger: map<Key, Entry>,
      recovered: map<Key, Bar>)
    requires e.tf > 0 && i < |plan| == |responses| && SymbolsDistinct(plan)
    requires LedgerOf(e, plan, responses, i, ledger) && RecoveredOf(responses, ledger, recovered)
    ensures forall k <- ledger :: k.symbol != plan[i].symbol
    ensures forall k <- recovered :: k.symbol != plan[i].symbol
  {
    hide StatusOf, BarFrom;
  }

  /** A further request extends the ledger when each of its opens gets the status it deserves. */
  lemma LedgerStep(e: Experiment, plan: seq<Request>, responses: seq<Response>, i: nat, before: map<Key, Entry>,
      after: map<Key, Entry>)
    requires e.tf > 0 && i < |plan| == |responses| && SymbolsDistinct(plan)
    requires LedgerOf(e, plan, responses, i, before) && Adds(before, after, plan[i])
    requires forall o <- plan[i].missing :: StatusOf(e, plan, responses, i, o, after[Key(plan[i].symbol, o)].status)
    ensures LedgerOf(e, plan, responses, i + 1, after)
  {
    hide StatusOf;
  }

  /** A request without bars: all its opens get the one status, and nothing is recovered. */
  lemma Unsettled(e: Experiment, plan: seq<Request>, responses: seq<Response>, i: nat,
      before: map<Key, Entry>, after: map<Key, Entry>, status: Status, recovered: map<Key, Bar>)
    requires e.tf > 0 && i < |plan| == |responses| && SymbolsDistinct(plan)
    requires LedgerOf(e, plan, responses, i, before) && Adds(before, after, plan[i])
    requires RecoveredOf(responses, before, recovered)
    requires forall o <- plan[i].missing :: after[Key(plan[i].symbol, o)].status == status
    requires forall o <- plan[i].missing :: StatusOf(e, plan, responses, i, o, status)
    requires status != Recovered && forall k <- before :: k.symbol != plan[i].symbol
    ensures LedgerOf(e, plan, responses, i + 1, after) && RecoveredOf(responses, after, recovered)
  {
    LedgerStep(e, plan, responses, i, before, after);
    hide LedgerOf, StatusOf, BarFrom;
  }

  lemma IdleStatus(e: Experiment, plan: seq<Request>, responses: seq<Response>, present: map<Key, Bar>, i: nat)
    requires e.tf > 0 && i < |plan| == |responses| && !Attempted(e, responses, i)
    ensures forall o :: StatusOf(e, plan, responses, i, o, NotAttempted)
    ensures OverlapFine(e, plan, responses, present, i)
    ensures forall f :: !FlagDue(e, plan, responses, present, i, f)
  {
    hide Attempted, AllRight;
  }

  lemma FailedStatus(e: Experiment, plan: seq<Request>, responses: seq<Response>, present: map<Key, Bar>, i: nat,
      out: Outcome, status: Status)
    requires e.tf > 0 && i < |plan| == |responses| && Attempted(e, responses, i)
    requires OutcomeOf(out, responses[i], plan[i], e.tf) && !out.Validated?
    requires status == if out.RequestFailed? then FailedRequest else InvalidBody
    ensures forall o :: StatusOf(e, plan, responses, i, o, status)
    ensures OverlapFine(e, plan, responses, present, i)
    ensures forall f :: !FlagDue(e, plan, responses, present, i, f)
  {
    hide Attempted, AllRight, Usable;
  }

  /** A valid response: the opens it returns are recovered with its bars, the others are absent. */
  lemma Settled(e: Experiment, plan: seq<Request>, responses: seq<Response>, i: nat,
      before: map<Key, Entry>, after: map<Key, Entry>, bars: map<int, Bar>,
      bank: map<Key, Bar>, recovered: map<Key, Bar>)
    requires e.tf > 0 && i < |plan| == |responses| && SymbolsDistinct(plan) && Attempted(e, responses, i)
    requires OutcomeOf(Validated(bars), responses[i], plan[i], e.tf)
    requires LedgerOf(e, plan, responses, i, before) && Adds(before, after, plan[i])
    requires RecoveredOf(responses, before, bank)
    requires forall o <- plan[i].missing ::
      after[Key(plan[i].symbol, o)].status == if o in bars then Recovered else AbsentInResponse
    requires forall k ::
      k in recovered <==> k in bank || (k.symbol == plan[i].symbol && k.open in plan[i].missing && k.open in bars)
    requires forall k <- recovered :: recovered[k] == if k in bank then bank[k] else bars[k.open]
    requires forall k <- before :: k.symbol != plan[i].symbol
    ensures LedgerOf(e, plan, responses, i + 1, after) && RecoveredOf(responses, after, recovered)
  {
    SettledStatus(e, plan, responses, i, bars);
    LedgerStep(e, plan, responses, i, before, after);
    SettledBars(responses[i], plan[i], e.tf, bars);
    hide *;
    SettledBank(responses, plan[i], i, before, after, bars, bank, recovered);
  }

  lemma SettledBank(responses: seq<Response>, rq: Request, i: nat, before: map<Key, Entry>, after: map<Key, Entry>,
      bars: map<int, Bar>, bank: map<Key, Bar>, recovered: map<Key, Bar>)
    requires i < |responses| && rq.index == i && RecoveredOf(responses, before, bank) && Adds(before, after, rq)
    requires forall o <- rq.missing ::
      after[Key(rq.symbol, o)].status == if o in bars then Recovered else AbsentInResponse
    requires forall k ::
      k in recovered <==> k in bank || (k.symbol == rq.symbol && k.open in rq.missing && k.open in bars)
    requires forall k <- recovered :: recovered[k] == if k in bank then bank[k] else bars[k.open]
    requires forall k <- before :: k.symbol != rq.symbol
    requires forall o :: o in bars ==> BarFrom(responses[i], o, bars[o])
    ensures RecoveredOf(responses, after, recovered)
  {
    hide BarFrom;
  }

  lemma SettledStatus(e: Experiment, plan: seq<Request>, responses: seq<Response>, i: nat, bars: map<int, Bar>)
    requires e.tf > 0 && i < |plan| == |responses| && Attempted(e, responses, i)
    requires OutcomeOf(Validated(bars), responses[i], plan[i], e.tf)
    ensures forall o :: StatusOf(e, plan, responses, i, o, if o in bars then Recovered else AbsentInResponse)
  {
    hide Attempted, AllRight;
    var rows := responses[i].body.rows;
    forall o ensures o in bars <==> Returns(rows, o) {
      if Returns(rows, o) {
        var k :| 0 <= k < |rows| && rows[k].open == Some(o);
      }
    }
  }

  lemma SettledBars(r: Response, rq: Request, tf: int, bars: map<int, Bar>)
    requires tf > 0 && OutcomeOf(Validated(bars), r, rq, tf)
    ensures forall o :: o in bars ==> BarFrom(r, o, bars[o])
  {
    hide AllRight;
    forall o | o in bars ensures BarFrom(r, o, bars[o]) {
      var k :| 0 <= k < |r.body.rows| && r.body.rows[k].open == Some(o);
    }
  }

  lemma Compared(e: Experiment, plan: seq<Request>, responses: seq<Response>, present: map<Key, Bar>, i: nat,
      bars: map<int, Bar>)
    requires e.tf > 0 && i < |plan| == |responses| && Attempted(e, responses, i)
    requires OutcomeOf(Validated(bars), responses[i], plan[i], e.tf)
    ensures OverlapFine(e, plan, responses, present, i) <==> OverlapAgrees(plan[i], bars, present)
  {
    hide Attempted, AllRight, OverlapAgrees, Holds;
    forall others | Holds(others, responses[i].body.rows) ensures others == bars {
      BarsDetermined(others, bars, responses[i].body.rows);
    }
  }

  lemma NothingDue(e: Experiment, plan: seq<Request>, responses: seq<Response>, present: map<Key, Bar>, i: nat,
      flags: seq<Flag>)
    requires e.tf > 0 && i < |plan| == |responses| && FlagsDue(e, plan, responses, present, i, flags)
    requires forall f :: !FlagDue(e, plan, responses, present, i, f)
    ensures FlagsDue(e, plan, responses, present, i + 1, flags)
  {
    hide FlagDue;
  }

  lemma MoreDue(e: Experiment, plan: seq<Request>, responses: seq<Response>, present: map<Key, Bar>, i: nat,
      bars: map<int, Bar>, flags: seq<Flag>, more: seq<Flag>)
    requires e.tf > 0 && i < |plan| == |responses| && Attempted(e, responses, i)
    requires OutcomeOf(Validated(bars), responses[i], plan[i], e.tf)
    requires FlagsDue(e, plan, responses, present, i, flags)
    requires forall o <- plan[i].overlap :: Key(plan[i].symbol, o) in present
    requires forall f <- more :: f.key.symbol == plan[i].symbol && f.key.open in plan[i].overlap
    requires forall o <- plan[i].overlap :: OverlapMissing(Key(plan[i].symbol, o)) in more <==> o !in bars
    requires forall o <- plan[i].overlap ::
      OverlapMismatch(Key(plan[i].symbol, o)) in more <==> o in bars && bars[o] != present[Key(plan[i].symbol, o)]
    ensures FlagsDue(e, plan, responses, present, i + 1, flags + more)
  {
    forall f ensures f in more <==> FlagDue(e, plan, responses, present, i, f) {
      DueIs(e, plan, responses, present, i, bars, f);
    }
    hide FlagDue;
  }

  lemma DueIs(e: Experiment, plan: seq<Request>, responses: seq<Response>, present: map<Key, Bar>, i: nat,
      bars: map<int, Bar>, f: Flag)
    requires e.tf > 0 && i < |plan| == |responses| && Attempted(e, responses, i)
    requires OutcomeOf(Validated(bars), responses[i], plan[i], e.tf)
    requires forall o <- plan[i].overlap :: Key(plan[i].symbol, o) in present
    ensures FlagDue(e, plan, responses, present, i, f) <==>
      && f.key.symbol == plan[i].symbol && f.key.open in plan[i].overlap
      && if f.OverlapMissing? then f.key.open !in bars
         else f.key.open in bars && bars[f.key.open] != present[f.key]
  {
    SettledStatus(e, plan, responses, i, bars);
    SettledBars(responses[i], plan[i], e.tf, bars);
    forall bar | BarFrom(responses[i], f.key.open, bar) ensures f.key.open in bars && bar == bars[f.key.open] {
      OneBar(responses[i], bars, f.key.open, bar, plan[i], e.tf);
    }
    ReturnsIff(bars, responses[i].body.rows, f.key.open);
    hide Attempted, AllRight, BarFrom, Returns, Holds;
  }

  lemma ReturnsIff(bars: map<int, Bar>, rows: seq<RawRow>, o: int)
    requires Holds(bars, rows)
    ensures o in bars <==> Returns(rows, o)
  {
    if Returns(rows, o) {
      var k :| 0 <= k < |rows| && rows[k].open == Some(o);
    }
  }

  lemma OneBar(r: Response, bars: map<int, Bar>, o: int, bar: Bar, rq: Request, tf: int)
    requires tf > 0 && OutcomeOf(Validated(bars), r, rq, tf) && BarFrom(r, o, bar)
    ensures o in bars && bar == bars[o]
  {
    hide AllRight;
  }

  // ---------------------------------------------------------------- the whole repair

  lemma PlanIsFetchable(e: Experiment, b: Base, plan: seq<Request>)
    requires e.tf > 0 && Reconciled(e, b) && Planned(e, b, plan)
    ensures SymbolsDistinct(plan)
    ensures forall i :: 0 <= i < |plan| ==> forall o <- plan[i].overlap :: Key(plan[i].symbol, o) in b.present
  {
    PlanCovers(e, b, plan, Key(0, 0));
    hide Reconciled, MissingOf, Affected;
  }

  /** Every missing key has exactly one ledger entry, of the one request that asked for it, and no
      other key has any, for every mix of responses, failures and refusals. */
  lemma EveryKeyOnce(e: Experiment, b: Base, plan: seq<Request>, responses: seq<Response>, ledger: map<Key, Entry>)
    requires e.tf > 0 && Reconciled(e, b) && Planned(e, b, plan) && |responses| == |plan|
    requires LedgerOf(e, plan, responses, |plan|, ledger)
    ensures forall k :: k in ledger <==> k in b.missing
    ensures forall k <- ledger ::
      ledger[k].index < |plan| && StatusOf(e, plan, responses, ledger[k].index, k.open, ledger[k].status)
  {
    hide Reconciled, Planned, StatusOf;
    forall k ensures k in ledger <==> k in b.missing {
      PlanCovers(e, b, plan, k);
    }
  }

  function Count(missing: seq<Key>, ledger: map<Key, Entry>, status: Status): nat {
    if missing == [] then 0
    else
      var k := missing[|missing| - 1];
      Count(missing[..|missing| - 1], ledger, status) + if k in ledger && ledger[k].status == status then 1 else 0
  }

  /** The five counts add up, and all keys are recovered exactly when that count is the total. */
  lemma {:induction false} CountsAddUp(missing: seq<Key>, ledger: map<Key, Entry>)
    requires forall k <- missing :: k in ledger
    ensures Count(missing, ledger, Recovered) + Count(missing, ledger, AbsentInResponse)
      + Count(missing, ledger, FailedRequest) + Count(missing, ledger, InvalidBody)
      + Count(missing, ledger, NotAttempted) == |missing|
    ensures Count(missing, ledger, Recovered) <= |missing|
    ensures Count(missing, ledger, Recovered) == |missing| <==> forall k <- missing :: ledger[k].status.Recovered?
  {
    if missing != [] {
      var n := |missing| - 1;
      CountsAddUp(missing[..n], ledger);
      assert missing == missing[..n] + [missing[n]];
    }
  }

  /** The recovered candles, in the order of the missing keys. */
  function Added(missing: seq<Key>, recovered: map<Key, Bar>): (r: seq<Candle>)
    ensures forall i :: 0 <= i < |r| ==> r[i].key in missing && r[i].key in recovered && r[i].bar == recovered[r[i].key]
    ensures forall k <- missing :: k in recovered ==> Candle(k, recovered[k]) in r
  {
    if missing == [] then []
    else
      var n := |missing| - 1;
      assert missing == missing[..n] + [missing[n]];
      Added(missing[..n], recovered)
      + if missing[n] in recovered then [Candle(missing[n], recovered[missing[n]])] else []
  }

  lemma {:induction false} AddedDistinct(missing: seq<Key>, recovered: map<Key, Bar>)
    requires Distinct(missing)
    ensures KeysDistinct(Added(missing, recovered))
  {
    if missing != [] {
      var n := |missing| - 1;
      AddedDistinct(missing[..n], recovered);
      var front := Added(missing[..n], recovered);
      forall i | 0 <= i < |front| ensures front[i].key != missing[n] {
        assert front[i].key in missing[..n];
      }
    }
  }

  method VerifyRepaired(candles: seq<Candle>, base: seq<Candle>, recovered: map<Key, Bar>, missing: seq<Key>)
      returns (ok: bool)
    requires |base| <= |candles|
    ensures ok <==>
      && candles[..|base|] == base && KeysDistinct(candles[|base|..])
      && (forall k :: k in recovered <==> exists i :: |base| <= i < |candles| && candles[i].key == k)
      && (forall i :: |base| <= i < |candles| ==> candles[i].key in missing)
  {
    var keys := set i | |base| <= i < |candles| :: candles[i].key;
    ok := candles[..|base|] == base && KeysDistinct(candles[|base|..]) && keys == recovered.Keys
      && forall i :: |base| <= i < |candles| ==> candles[i].key in missing;
  }

  /** Every bar of the grid of every member is there. */
  ghost predicate GapFree(e: Experiment, members: seq<Symbol>, candles: seq<Candle>)
    requires e.tf > 0
  {
    forall k :: OnGrid(e, members, k) ==> exists i :: 0 <= i < |candles| && candles[i].key == k
  }

  /** What a fetch leaves; accounted and checked are the outcomes of its two final checks, either
      of which would refuse the result. */
  datatype Repair = Repair(
    ledger: map<Key, Entry>, counts: map<Status, nat>, complete: bool, candles: seq<Candle>, flags: seq<Flag>,
    stopped: Option<nat>, accounted: bool, checked: bool)

  const STATUSES := {Recovered, AbsentInResponse, FailedRequest, InvalidBody, NotAttempted}

  method FetchAndRepair(e: Experiment, b: Base, plan: seq<Request>, responses: seq<Response>) returns (r: Repair)
    requires e.tf > 0 && Reconciled(e, b) && CountsAgree(e, b) && Planned(e, b, plan) && |responses| == |plan|
    ensures r.accounted && r.checked
    ensures LedgerOf(e, plan, responses, |plan|, r.ledger) && forall k :: k in r.ledger <==> k in b.missing
    ensures r.counts == map s | s in STATUSES :: Count(b.missing, r.ledger, s)
    ensures |r.candles| == |b.candles| + r.counts[Recovered] && r.candles[..|b.candles|] == b.candles
    ensures KeysDistinct(r.candles) && forall c <- r.candles :: OnGrid(e, b.members, c.key)
    ensures r.complete <==> GapFree(e, b.members, r.candles)
    ensures r.flags == [] <==> forall i :: 0 <= i < |plan| ==> OverlapFine(e, plan, responses, b.present, i)
    ensures FlagsDue(e, plan, responses, b.present, |plan|, r.flags) && StopIs(e, responses, r.stopped)
    ensures AddedFrom(responses, r.ledger, r.candles[|b.candles|..])
  {
    hide *;
    PlanIsFetchable(e, b, plan);
    var ledger, recovered, flags, stopped := Fetch(e, plan, b.present, responses);
    EveryKeyOnce(e, b, plan, responses, ledger);
    RecoveredKeys(responses, ledger, recovered);
    r := Assemble(e, b, ledger, recovered, flags, stopped);
    AddedOrigin(b.missing, responses, ledger, recovered);
  }

  /** From the ledger on: count, check the accounting, build the repaired candles, check them. */
  method Assemble(e: Experiment, b: Base, ledger: map<Key, Entry>, recovered: map<Key, Bar>, flags: seq<Flag>,
      stopped: Option<nat>)
      returns (r: Repair)
    requires e.tf > 0 && Reconciled(e, b) && CountsAgree(e, b)
    requires forall k :: k in ledger <==> k in b.missing
    requires forall k :: k in recovered <==> k in ledger && ledger[k].status.Recovered?
    ensures r.accounted && r.checked && r.ledger == ledger && r.flags == flags && r.stopped == stopped
    ensures r.counts == map s | s in STATUSES :: Count(b.missing, ledger, s)
    ensures Recovered in r.counts && |r.candles| == |b.candles| + r.counts[Recovered]
    ensures r.candles[..|b.candles|] == b.candles
    ensures KeysDistinct(r.candles) && forall c <- r.candles :: OnGrid(e, b.members, c.key)
    ensures r.complete <==> GapFree(e, b.members, r.candles)
    ensures r.candles[|b.candles|..] == Added(b.missing, recovered)
  {
    hide *;
    CountsAddUp(b.missing, ledger);
    MissingTotal(e, b);
    var counts := map s | s in STATUSES :: Count(b.missing, ledger, s);
    CountsOf(b.missing, ledger, counts);
    var total := counts[Recovered] + counts[AbsentInResponse]
      + counts[FailedRequest] + counts[InvalidBody] + counts[NotAttempted];
    var added := Added(b.missing, recovered);
    var candles := b.candles + added;
    AddedCount(b.missing, ledger, recovered);
    NoGapIff(e, b, ledger, recovered);
    CandlesCheck(e, b, recovered);
    var checked := VerifyRepaired(candles, b.candles, recovered, b.missing);
    r := Repair(ledger, counts, counts[Recovered] == e.missingTotal, candles, flags, stopped,
      |b.missing| == e.missingTotal && total == e.missingTotal, checked);
  }

  /** What is built passes the check that is made of it. */
  lemma CandlesCheck(e: Experiment, b: Base, recovered: map<Key, Bar>)
    requires e.tf > 0 && Reconciled(e, b) && forall k <- recovered :: k in b.missing
    ensures var candles := b.candles + Added(b.missing, recovered);
      && KeysDistinct(candles) && (forall c <- candles :: OnGrid(e, b.members, c.key))
      && candles[..|b.candles|] == b.candles && candles[|b.candles|..] == Added(b.missing, recovered)
      && KeysDistinct(candles[|b.candles|..])
      && (forall k :: k in recovered <==> exists i :: |b.candles| <= i < |candles| && candles[i].key == k)
      && (forall i :: |b.candles| <= i < |candles| ==> candles[i].key in b.missing)
  {
    hide *;
    RepairedKeys(e, b, recovered);
    Joined(b.candles, Added(b.missing, recovered), recovered);
  }

  lemma RecoveredKeys(responses: seq<Response>, ledger: map<Key, Entry>, recovered: map<Key, Bar>)
    requires RecoveredOf(responses, ledger, recovered)
    ensures forall k :: k in recovered <==> k in ledger && ledger[k].status.Recovered?
  {
  }

  lemma CountsOf(missing: seq<Key>, ledger: map<Key, Entry>, counts: map<Status, nat>)
    requires counts == map s | s in STATUSES :: Count(missing, ledger, s)
    ensures forall s :: s in counts && counts[s] == Count(missing, ledger, s)
  {
    hide Count;
    forall s: Status ensures s in STATUSES {
      match s
      case Recovered =>
      case AbsentInResponse =>
      case FailedRequest =>
      case InvalidBody =>
      case NotAttempted =>
    }
  }

  lemma Joined(base: seq<Candle>, added: seq<Candle>, recovered: map<Key, Bar>)
    requires forall k :: k in recovered <==> exists i :: 0 <= i < |added| && added[i].key == k
    ensures (base + added)[..|base|] == base && (base + added)[|base|..] == added
    ensures forall k :: k in recovered <==> exists i :: |base| <= i < |base + added| && (base + added)[i].key == k
    ensures forall i :: |base| <= i < |base + added| ==> (base + added)[i].key in recovered
  {
    var all := base + added;
    forall k ensures k in recovered <==> exists i :: |base| <= i < |all| && all[i].key == k {
      if k in recovered {
        var i :| 0 <= i < |added| && added[i].key == k;
        assert all[|base| + i].key == k;
      }
      if i :| |base| <= i < |all| && all[i].key == k {
        assert added[i - |base|].key == k;
      }
    }
    forall i | |base| <= i < |all| ensures all[i].key in recovered {
      assert added[i - |base|].key == all[i].key;
    }
  }

  lemma MissingTotal(e: Experiment, b: Base)
    requires e.tf > 0 && CountsAgree(e, b)
    ensures |b.missing| == e.missingTotal
  {
  }

  lemma {:induction false} AddedCount(missing: seq<Key>, ledger: map<Key, Entry>, recovered: map<Key, Bar>)
    requires forall k <- missing :: k in ledger
    requires forall k :: k in recovered <==> k in ledger && ledger[k].status.Recovered?
    ensures |Added(missing, recovered)| == Count(missing, ledger, Recovered)
  {
    if missing != [] {
      AddedCount(missing[..|missing| - 1], ledger, recovered);
      assert missing[|missing| - 1] in missing;
    }
  }

  lemma AddedKeys(missing: seq<Key>, recovered: map<Key, Bar>, added: seq<Candle>, k: Key)
    requires added == Added(missing, recovered)
    ensures k in missing && k in recovered <==> exists i :: 0 <= i < |added| && added[i].key == k
  {
    hide Added;
    if k in missing && k in recovered {
      var c := Candle(k, recovered[k]);
      assert c in added;
      var i :| 0 <= i < |added| && added[i] == c;
      assert added[i].key == k;
    }
    if i :| 0 <= i < |added| && added[i].key == k {
      assert added[i].key in missing && added[i].key in recovered;
    }
  }

  lemma AddedOrigin(missing: seq<Key>, responses: seq<Response>, ledger: map<Key, Entry>, recovered: map<Key, Bar>)
    requires RecoveredOf(responses, ledger, recovered) && forall k <- ledger :: k in missing
    ensures AddedFrom(responses, ledger, Added(missing, recovered))
  {
    var added := Added(missing, recovered);
    hide Added, BarFrom;
    forall k | k in ledger && ledger[k].status.Recovered? ensures exists i :: 0 <= i < |added| && added[i].key == k {
      AddedKeys(missing, recovered, added, k);
    }
    forall c | c in added
      ensures c.key in recovered && BarFrom(responses[ledger[c.key].index], c.key.open, c.bar)
    {
      var i :| 0 <= i < |added| && added[i] == c;
    }
  }

  lemma JoinDistinct(base: seq<Candle>, added: seq<Candle>)
    requires KeysDistinct(base) && KeysDistinct(added)
    requires forall i, j :: 0 <= i < |base| && 0 <= j < |added| ==> base[i].key != added[j].key
    ensures KeysDistinct(base + added)
  {
  }

  /** The repaired candles: the baseline first and untouched, then the recovered ones, no key
      twice, and all on the grid. */
  lemma RepairedKeys(e: Experiment, b: Base, recovered: map<Key, Bar>)
    requires e.tf > 0 && Reconciled(e, b) && forall k <- recovered :: k in b.missing
    ensures var added := Added(b.missing, recovered);
      && KeysDistinct(added) && KeysDistinct(b.candles + added)
      && (forall k :: k in recovered <==> exists i :: 0 <= i < |added| && added[i].key == k)
      && (forall c <- b.candles :: OnGrid(e, b.members, c.key)) && (forall c <- added :: OnGrid(e, b.members, c.key))
  {
    KeysAddUp(e, b);
    BaseParts(e, b);
    var added := Added(b.missing, recovered);
    hide Reconciled, Grid, OnGrid, Added;
    AddedDistinct(b.missing, recovered);
    forall k ensures k in recovered <==> exists i :: 0 <= i < |added| && added[i].key == k {
      AddedKeys(b.missing, recovered, added, k);
    }
    forall i, j | 0 <= i < |b.candles| && 0 <= j < |added| ensures b.candles[i].key != added[j].key {
      assert b.candles[i] in b.candles;
    }
    JoinDistinct(b.candles, added);
  }

  lemma BaseParts(e: Experiment, b: Base)
    requires e.tf > 0 && Reconciled(e, b)
    ensures KeysDistinct(b.candles) && Indexes(b.candles, b.present)
    ensures forall c <- b.candles :: c.key in b.present && OnGrid(e, b.members, c.key)
  {
    hide Grid;
  }

  /** There is no gap exactly when every missing key was recovered. */
  lemma NoGapIff(e: Experiment, b: Base, ledger: map<Key, Entry>, recovered: map<Key, Bar>)
    requires e.tf > 0 && Reconciled(e, b)
    requires forall k :: k in ledger <==> k in b.missing
    requires forall k :: k in recovered <==> k in ledger && ledger[k].status.Recovered?
    ensures GapFree(e, b.members, b.candles + Added(b.missing, recovered))
       <==> Count(b.missing, ledger, Recovered) == |b.missing|
  {
    hide *;
    KeysAddUp(e, b);
    BaseParts(e, b);
    CountsAddUp(b.missing, ledger);
    RepairedKeys(e, b, recovered);
    JoinedKeys(b.candles, b.present, Added(b.missing, recovered), recovered);
    GapFreeIs(e, b.members, b.candles + Added(b.missing, recovered));
  }

  lemma GapFreeIs(e: Experiment, members: seq<Symbol>, candles: seq<Candle>)
    requires e.tf > 0
    ensures GapFree(e, members, candles) <==>
      forall k :: OnGrid(e, members, k) ==> exists i :: 0 <= i < |candles| && candles[i].key == k
  {
  }

  lemma JoinedKeys(base: seq<Candle>, present: map<Key, Bar>, added: seq<Candle>, recovered: map<Key, Bar>)
    requires Indexes(base, present) && forall k :: k in recovered <==> exists i :: 0 <= i < |added| && added[i].key == k
    ensures forall k ::
      (exists i :: 0 <= i < |base + added| && (base + added)[i].key == k) <==> k in present || k in recovered
  {
    var candles := base + added;
    forall k ensures (exists i :: 0 <= i < |candles| && candles[i].key == k) <==> k in present || k in recovered {
      if k in present {
        var i :| 0 <= i < |base| && base[i].key == k;
        assert candles[i].key == k;
      } else if k in recovered {
        var i :| 0 <= i < |added| && added[i].key == k;
        assert candles[|base| + i].key == k;
      }
      if i :| 0 <= i < |candles| && candles[i].key == k {
        if i < |base| { assert base[i] in base; } else { assert added[i - |base|].key == k; }
      }
    }
  }
}
