/** Discretionary admission: which symbols of a cohort get one of the deep slots.

    Events first, then a reserved exploration rotation, then symbols that a strategy requires,
    then ranked salience, then a rotation over merely relevant symbols. */
module Admission {
  import opened Sequences
  import opened Wrappers
  import opened Rotation

  // ---------------------------------------------------------------- data

  /** Validated reserves; the configuration refuses negative numbers and forced admission. */
  datatype Policy = Policy(maxDeepSlots: nat, eventReserve: nat, explorationReserve: nat)

  datatype Row = Row(symbol: Symbol, crypto: bool, availableAt: Option<int>, quality: bool, quoteVolume: Option<real>)

  /** A salience row; rankKey is the salience rounded to twelve significant digits. */
  datatype Score = Score(salience: Option<real>, rankKey: real, eligible: bool, components: string)

  datatype Observation = Observation(
    knownSchema: bool, sourceCut: Option<int>, byVolume: bool, rows: map<Symbol, Row>, peers: seq<Symbol>,
    scores: map<Symbol, Score>, threshold: real, anchorMs: int, relevance: set<Symbol>, requiredBy: set<Symbol>,
    requiredSymbols: seq<Symbol>, contextAnchors: seq<Symbol>, exposure: seq<Symbol>)

  /** What the digest of an event observation covers. */
  datatype Signature = Signature(anchorMs: int, components: string)

  datatype Body = Body(
    exploration: Option<Symbol>, relevance: Option<Symbol>, signatures: map<Symbol, Signature>, generation: int)

  /** Digests are injective: a digest is either the value it was taken of, or of nothing known. */
  datatype Digest = OfBody(Body) | OfReceipt(Content) | Forged(string)

  datatype State = State(body: Body, sha: Digest)

  datatype Category = Deferred | Event | Exploration | StrategyRequired | Ranked | Relevant | WarmupRelevant | Volume

  datatype Reason =
    | NewAnomaly | RotatingExploration | ExplicitRequirement | SalienceAtThreshold | RotatingRelevance
    | CapacityDeferred | NothingQualifies | InputUnusable | TopVolume | VolumeCapacityDeferred

  datatype Detail = Detail(symbol: Symbol, score: Option<real>, category: Category, reason: Reason)

  datatype Roles = Roles(
    broad: seq<Symbol>, peers: seq<Symbol>, deep: seq<Symbol>, anchors: seq<Symbol>, exposure: seq<Symbol>,
    event: seq<Symbol>, exploration: seq<Symbol>)

  datatype Content = Content(
    policy: Policy, observation: Observation, prior: State, next: State, roles: Roles, rows: seq<Detail>,
    tieBreak: seq<Symbol>, admitted: seq<Symbol>, deferred: seq<Symbol>, used: int, unused: int,
    unusedEvent: int, unusedExploration: int, requiredDeferred: seq<Symbol>)

  datatype Receipt = Receipt(content: Content, id: Digest)

  datatype Refusal =
    | StateCorrupt | ObservationInvalid | CutInvalid | CohortInvalid | PeersInvalid | VolumeReservesForbidden
    | ThresholdInvalid | SalienceInvalid | RolesInvalid | RoleBoundariesInvalid | ReceiptCorrupt | ReplayMismatch
    | DeferredAdmitted

  datatype Result<+T> = Ok(value: T) | Refused(why: Refusal)

  // ---------------------------------------------------------------- rotation state

  const INITIAL_BODY := Body(None, None, map[], 0)
  const INITIAL_STATE := State(INITIAL_BODY, OfBody(INITIAL_BODY))

  predicate ValidState(s: State) {
    s.sha == OfBody(s.body) && s.body.generation >= 0
  }

  // ---------------------------------------------------------------- sequences

  function Filter(xs: seq<Symbol>, p: Symbol -> bool): (r: seq<Symbol>)
    ensures forall x :: x in r <==> x in xs && p(x)
    ensures |r| <= |xs|
  {
    if xs == [] then []
    else
      var rest, x := Filter(xs[..|xs| - 1], p), xs[|xs| - 1];
      assert xs == xs[..|xs| - 1] + [x];
      if p(x) then rest + [x] else rest
  }

  /** The members of xs that are not yet chosen. */
  function Fresh(xs: seq<Symbol>, chosen: seq<Symbol>): seq<Symbol> {
    Filter(xs, x => x !in chosen)
  }

  function Take(xs: seq<Symbol>, n: nat): (r: seq<Symbol>)
    ensures |r| <= n && r <= xs
    ensures |r| < n ==> r == xs
  {
    if |xs| <= n then xs else xs[..n]
  }

  function Last(xs: seq<Symbol>, otherwise: Option<Symbol>): Option<Symbol> {
    if xs == [] then otherwise else Some(xs[|xs| - 1])
  }

  // ---------------------------------------------------------------- the observation

  predicate Usable(o: Observation, s: Symbol)
    requires o.sourceCut.Some?
  {
    && s in o.rows && o.rows[s].availableAt.Some?
    && 0 <= o.rows[s].availableAt.value <= o.sourceCut.value && o.rows[s].quality
  }

  function ValidSet(o: Observation): set<Symbol>
    requires o.sourceCut.Some?
  {
    set s | s in o.rows && Usable(o, s)
  }

  function SalienceOf(o: Observation, s: Symbol): Option<real> {
    if s in o.scores then o.scores[s].salience else None
  }

  predicate Scored(o: Observation, s: Symbol) {
    s in o.scores && o.scores[s].eligible && o.scores[s].salience.Some?
  }

  predicate Qualifies(o: Observation, s: Symbol)
    requires o.sourceCut.Some?
  {
    Usable(o, s) && Scored(o, s) && o.scores[s].salience.value >= o.threshold
  }

  /** Higher key first, then the smaller symbol. */
  predicate Outranks(key: Symbol -> real, a: Symbol, b: Symbol) {
    key(a) > key(b) || (key(a) == key(b) && a < b)
  }

  predicate InRankOrder(key: Symbol -> real, xs: seq<Symbol>) {
    forall i, j :: 0 <= i < j < |xs| ==> Outranks(key, xs[i], xs[j])
  }

  function InsertRanked(key: Symbol -> real, xs: seq<Symbol>, s: Symbol): (r: seq<Symbol>)
    requires s !in xs && InRankOrder(key, xs)
    ensures InRankOrder(key, r) && forall x :: x in r <==> x in xs || x == s
  {
    if xs == [] then [s]
    else
      var n := |xs| - 1;
      assert xs == xs[..n] + [xs[n]];
      if Outranks(key, xs[n], s) then xs + [s]
      else
        var front := InsertRanked(key, xs[..n], s);
        assert forall x <- front :: Outranks(key, x, xs[n]);
        front + [xs[n]]
  }

  function SortRanked(key: Symbol -> real, xs: seq<Symbol>): (r: seq<Symbol>)
    requires Distinct(xs)
    ensures InRankOrder(key, r) && forall x :: x in r <==> x in xs
  {
    if xs == [] then []
    else
      var n := |xs| - 1;
      assert xs == xs[..n] + [xs[n]];
      InsertRanked(key, SortRanked(key, xs[..n]), xs[n])
  }

  lemma RankOrderDistinct(key: Symbol -> real, xs: seq<Symbol>)
    requires InRankOrder(key, xs)
    ensures Distinct(xs)
  {
    forall i, j | 0 <= i < j < |xs| ensures xs[i] != xs[j] {
      assert Outranks(key, xs[i], xs[j]);
    }
  }

  function RankKey(o: Observation): Symbol -> real {
    s => if s in o.scores then o.scores[s].rankKey else 0.0
  }

  /** Qualifying symbols, best first. */
  function RankedOf(o: Observation): (r: seq<Symbol>)
    requires o.sourceCut.Some?
    ensures InRankOrder(RankKey(o), r) && Distinct(r)
    ensures forall s :: s in r <==> Qualifies(o, s)
  {
    var r := SortRanked(RankKey(o), Sorted(set s | s in o.rows && Qualifies(o, s)));
    RankOrderDistinct(RankKey(o), r);
    r
  }

  function SignatureOf(o: Observation, s: Symbol): Signature
    requires s in o.scores
  {
    Signature(o.anchorMs, o.scores[s].components)
  }

  function SignaturesOf(o: Observation, ranked: seq<Symbol>): map<Symbol, Signature>
    requires forall s <- ranked :: s in o.scores
  {
    map s | s in ranked :: SignatureOf(o, s)
  }

  /** A ranked symbol whose observation differs from the one remembered. */
  predicate IsNew(o: Observation, was: Body, s: Symbol) {
    s in o.scores && (s !in was.signatures || was.signatures[s] != SignatureOf(o, s))
  }

  // ---------------------------------------------------------------- the plan

  function EventCapacity(p: Policy): nat {
    if p.eventReserve < p.maxDeepSlots then p.eventReserve else p.maxDeepSlots
  }

  function ExplorationCapacity(p: Policy): nat {
    var left := p.maxDeepSlots - EventCapacity(p);
    if p.explorationReserve < left then p.explorationReserve else left
  }

  function RankedCapacity(p: Policy): nat {
    p.maxDeepSlots - EventCapacity(p) - ExplorationCapacity(p)
  }

  /** The picks of each stage, in order, and where the two cursors end. */
  datatype Plan = Plan(
    event: seq<Symbol>, explored: seq<Symbol>, required: seq<Symbol>, ranked: seq<Symbol>, relevant: seq<Symbol>,
    exploration: Option<Symbol>, relevance: Option<Symbol>) {
    function Chosen(): seq<Symbol> { event + explored + required + ranked + relevant }
  }

  /** The exploration cursor after up to n fresh symbols were taken in the given order. */
  function ExplorationCursor(order: seq<Symbol>, unseen: seq<Symbol>, n: nat, cursor: Option<Symbol>): Option<Symbol> {
    if n == 0 then cursor else if |unseen| >= n then Some(unseen[n - 1]) else Last(order, cursor)
  }

  function RequiredSet(o: Observation): set<Symbol>
    requires o.sourceCut.Some?
  {
    set s | s in o.rows && Usable(o, s) && s in o.requiredBy
  }

  function RelevantSet(o: Observation, chosen: seq<Symbol>): set<Symbol>
    requires o.sourceCut.Some?
  {
    set s | s in o.rows && Usable(o, s) && s in o.relevance && s !in chosen
  }

  function PlanOf(o: Observation, p: Policy, was: Body): Plan
    requires o.sourceCut.Some?
  {
    var ranked := RankedOf(o);
    var event := Take(Filter(ranked, s => IsNew(o, was, s)), EventCapacity(p));
    var order := Rotate(ValidSet(o), was.exploration);
    var unseen := Fresh(order, event);
    var explored := Take(unseen, ExplorationCapacity(p));
    var exploration := ExplorationCursor(order, unseen, ExplorationCapacity(p), was.exploration);
    var required := Take(Fresh(Rotate(RequiredSet(o), was.relevance), event + explored), RankedCapacity(p));
    var cursor := Last(required, was.relevance);
    var chosen := event + explored + required;
    var fill := Take(Fresh(ranked, chosen), RankedCapacity(p) - |required|);
    var relevant := Take(Rotate(RelevantSet(o, chosen + fill), cursor), RankedCapacity(p) - |required| - |fill|);
    Plan(event, explored, required, fill, relevant, exploration, Last(relevant, cursor))
  }

  // ---------------------------------------------------------------- the loops

  /** The exploration loop: walk the rotation, skip what is chosen, stop at the reserve. */
  method Explore(order: seq<Symbol>, chosen: seq<Symbol>, capacity: nat, start: Option<Symbol>)
      returns (explored: seq<Symbol>, cursor: Option<Symbol>)
    requires Distinct(order)
    ensures explored == Take(Fresh(order, chosen), capacity)
    ensures cursor == ExplorationCursor(order, Fresh(order, chosen), capacity, start)
  {
    hide Filter, Fresh, Distinct;
    explored, cursor := [], start;
    var all := chosen;
    var i := 0;
    FreshEnds(order, chosen);
    while i < |order| && |explored| < capacity
      invariant 0 <= i <= |order| && |explored| <= capacity
      invariant explored == Fresh(order[..i], chosen) && all == chosen + explored
      invariant cursor == Last(order[..i], start)
      invariant |explored| == capacity ==> cursor == Last(explored, start)
    {
      var s := order[i];
      FreshStep(order, i, chosen);
      cursor := Some(s);
      if s !in all {
        all := all + [s];
        explored := explored + [s];
      }
      i := i + 1;
    }
    FreshPrefix(order, i, chosen);
    FreshEnds(order, chosen);
    assert order[..|order|] == order;
  }

  /** Walk an order and take what is not chosen, up to a capacity. */
  method Fill(order: seq<Symbol>, chosen: seq<Symbol>, capacity: nat, start: Option<Symbol>)
      returns (picked: seq<Symbol>, cursor: Option<Symbol>)
    requires Distinct(order)
    ensures picked == Take(Fresh(order, chosen), capacity)
    ensures cursor == Last(picked, start)
  {
    hide Filter, Fresh, Distinct;
    picked, cursor := [], start;
    var i := 0;
    FreshEnds(order, chosen);
    while i < |order| && |picked| < capacity
      invariant 0 <= i <= |order| && |picked| <= capacity
      invariant picked == Fresh(order[..i], chosen)
      invariant cursor == Last(picked, start)
    {
      FreshStep(order, i, chosen);
      if order[i] !in chosen + picked {
        picked := picked + [order[i]];
        cursor := Some(order[i]);
      }
      i := i + 1;
    }
    FreshPrefix(order, i, chosen);
  }

  lemma FreshEnds(order: seq<Symbol>, chosen: seq<Symbol>)
    ensures Fresh(order[..0], chosen) == [] && Fresh(order[..|order|], chosen) == Fresh(order, chosen)
  {
    assert order[..|order|] == order;
  }

  lemma FreshStep(order: seq<Symbol>, i: nat, chosen: seq<Symbol>)
    requires i < |order| && Distinct(order)
    ensures Fresh(order[..i + 1], chosen) == Fresh(order[..i], chosen) + (if order[i] in chosen then [] else [order[i]])
    ensures order[i] !in Fresh(order[..i], chosen)
    ensures Last(order[..i + 1], None) == Some(order[i])
  {
    assert order[..i + 1][..i] == order[..i];
  }

  lemma {:induction false} FreshPrefix(order: seq<Symbol>, i: nat, chosen: seq<Symbol>)
    requires i <= |order|
    ensures Fresh(order[..i], chosen) <= Fresh(order, chosen)
    decreases |order|
  {
    if i == |order| {
      assert order[..i] == order;
    } else {
      FreshPrefix(order[..|order| - 1], i, chosen);
      assert order[..|order| - 1][..i] == order[..i];
    }
  }

  /** The five stages, as the program runs them. */
  method Choose(o: Observation, p: Policy, was: Body) returns (plan: Plan)
    requires o.sourceCut.Some?
    ensures plan == PlanOf(o, p, was)
  {
    hide RankedOf, ValidSet, RequiredSet, RelevantSet, Fresh, Filter, Take, Last, ExplorationCursor;
    var ranked := RankedOf(o);
    var events := Filter(ranked, s => IsNew(o, was, s));
    var event := Take(events, EventCapacity(p));
    var explored, exploration :=
      Explore(Rotate(ValidSet(o), was.exploration), event, ExplorationCapacity(p), was.exploration);
    var chosen := event + explored;
    var required, cursor := Fill(Rotate(RequiredSet(o), was.relevance), chosen, RankedCapacity(p), was.relevance);
    chosen := chosen + required;
    var fill, _ := Fill(ranked, chosen, RankedCapacity(p) - |required|, None);
    chosen := chosen + fill;
    RelevantFresh(o, chosen, cursor);
    var relevant, relevance :=
      Fill(Rotate(RelevantSet(o, chosen), cursor), chosen, RankedCapacity(p) - |required| - |fill|, cursor);
    plan := Plan(event, explored, required, fill, relevant, exploration, relevance);
  }

  lemma RelevantFresh(o: Observation, chosen: seq<Symbol>, cursor: Option<Symbol>)
    requires o.sourceCut.Some?
    ensures var order := Rotate(RelevantSet(o, chosen), cursor); Fresh(order, chosen) == order
  {
    NothingChosen(Rotate(RelevantSet(o, chosen), cursor), chosen);
  }

  lemma {:induction false} NothingChosen(order: seq<Symbol>, chosen: seq<Symbol>)
    requires forall s <- order :: s !in chosen
    ensures Fresh(order, chosen) == order
  {
    if order != [] {
      NothingChosen(order[..|order| - 1], chosen);
      assert order[|order| - 1] in order;
    }
  }

  // ---------------------------------------------------------------- receipts

  predicate RolesValid(r: Roles) {
    Distinct(r.broad) && Distinct(r.peers) && Distinct(r.deep) && Distinct(r.anchors) && Distinct(r.exposure)
    && Distinct(r.event) && Distinct(r.exploration)
  }

  predicate BoundariesValid(r: Roles) {
    && (forall s <- r.deep :: s in r.broad) && (forall s <- r.peers :: s in r.broad)
    && (forall s <- r.event :: s in r.deep) && (forall s <- r.exploration :: s in r.deep)
    && (forall s <- r.event :: s !in r.exploration)
  }

  function CategoryOf(o: Observation, plan: Plan, s: Symbol): Category {
    if s in plan.event then Event
    else if s in plan.explored then Exploration
    else if s in plan.required then StrategyRequired
    else if s in plan.ranked then Ranked
    else if s in plan.relevant then if SalienceOf(o, s).Some? then Relevant else WarmupRelevant
    else Deferred
  }

  function ReasonOf(o: Observation, plan: Plan, s: Symbol): Reason
    requires o.sourceCut.Some?
  {
    match CategoryOf(o, plan, s)
    case Event => NewAnomaly
    case Exploration => RotatingExploration
    case StrategyRequired => ExplicitRequirement
    case Ranked => SalienceAtThreshold
    case Relevant => RotatingRelevance
    case WarmupRelevant => RotatingRelevance
    case Volume => TopVolume
    case Deferred =>
      if !Usable(o, s) then InputUnusable
      else if Qualifies(o, s) || s in o.relevance then CapacityDeferred
      else NothingQualifies
  }

  function Details(o: Observation, members: seq<Symbol>, plan: Plan): seq<Detail>
    requires o.sourceCut.Some?
  {
    seq(|members|, i requires 0 <= i < |members| =>
      Detail(members[i], SalienceOf(o, members[i]), CategoryOf(o, plan, members[i]), ReasonOf(o, plan, members[i])))
  }

  function Seal(c: Content): Receipt { Receipt(c, OfReceipt(c)) }

  function NextState(b: Body): State { State(b, OfBody(b)) }

  /** What every admission checks before it selects anything. */
  function Precheck(o: Observation, s: State): Option<Refusal> {
    if !ValidState(s) then Some(StateCorrupt)
    else if !o.knownSchema || o.sourceCut.None? then Some(ObservationInvalid)
    else if o.sourceCut.value < 0 then Some(CutInvalid)
    else if exists m <- o.rows :: o.rows[m].symbol != m || !o.rows[m].crypto then Some(CohortInvalid)
    else if exists m <- o.peers :: m !in o.rows then Some(PeersInvalid)
    else None
  }

  function SalienceCheck(o: Observation): Option<Refusal> {
    if o.threshold < 0.0 then Some(ThresholdInvalid)
    else if exists m <- o.rows :: SalienceOf(o, m).Some? && SalienceOf(o, m).value < 0.0 then Some(SalienceInvalid)
    else None
  }

  /** Build the roles and, if they are valid, the receipt around them. */
  function Conclude(c: Content): Result<Receipt> {
    if !RolesValid(c.roles) then Refused(RolesInvalid)
    else if !BoundariesValid(c.roles) then Refused(RoleBoundariesInvalid)
    else Ok(Seal(c))
  }

  function Members(o: Observation): (r: seq<Symbol>)
    ensures Ascending(r) && Holds(r, o.rows.Keys)
  {
    Sorted(o.rows.Keys)
  }

  /** The distinct peers in order. */
  function Peers(o: Observation): seq<Symbol> {
    Sorted(set s | s in o.peers)
  }

  function SalienceContent(o: Observation, p: Policy, s: State, plan: Plan): Content
    requires o.sourceCut.Some?
  {
    var members, ranked, chosen := Members(o), RankedOf(o), plan.Chosen();
    var next := Body(plan.exploration, plan.relevance, SignaturesOf(o, ranked), s.body.generation + 1);
    Content(p, o, s, NextState(next),
      Roles(members, Peers(o), chosen, o.contextAnchors, o.exposure, plan.event, plan.explored),
      Details(o, members, plan), ranked, chosen, Fresh(members, chosen), |chosen|, p.maxDeepSlots - |chosen|,
      EventCapacity(p) - |plan.event|, ExplorationCapacity(p) - |plan.explored|, Fresh(o.requiredSymbols, chosen))
  }

  predicate VolumeUsable(o: Observation, s: Symbol)
    requires o.sourceCut.Some?
  {
    Usable(o, s) && o.rows[s].quoteVolume.Some? && o.rows[s].quoteVolume.value > 0.0
  }

  function VolumeKey(o: Observation): Symbol -> real {
    s => if s in o.rows && o.rows[s].quoteVolume.Some? then o.rows[s].quoteVolume.value else 0.0
  }

  function VolumeRanked(o: Observation): (r: seq<Symbol>)
    requires o.sourceCut.Some?
    ensures InRankOrder(VolumeKey(o), r) && Distinct(r)
    ensures forall s :: s in r <==> VolumeUsable(o, s)
  {
    var r := SortRanked(VolumeKey(o), Sorted(set s | s in o.rows && VolumeUsable(o, s)));
    RankOrderDistinct(VolumeKey(o), r);
    r
  }

  function VolumeDetail(o: Observation, chosen: seq<Symbol>, s: Symbol): Detail
    requires o.sourceCut.Some?
  {
    Detail(s, None, if s in chosen then Volume else Deferred,
      if s in chosen then TopVolume else if VolumeUsable(o, s) then VolumeCapacityDeferred else InputUnusable)
  }

  function VolumeContent(o: Observation, p: Policy, s: State): Content
    requires o.sourceCut.Some?
  {
    var members, ranked := Members(o), VolumeRanked(o);
    var chosen := Take(ranked, p.maxDeepSlots);
    Content(p, o, s, NextState(s.body.(generation := s.body.generation + 1)),
      Roles(members, Peers(o), chosen, o.contextAnchors, o.exposure, [], []),
      seq(|members|, i requires 0 <= i < |members| => VolumeDetail(o, chosen, members[i])),
      ranked, chosen, Fresh(members, chosen), |chosen|, p.maxDeepSlots - |chosen|, 0, 0, [])
  }

  function Admitted(o: Observation, p: Policy, s: State): Result<Receipt> {
    var bad := Precheck(o, s);
    if bad.Some? then Refused(bad.value)
    else if o.byVolume then
      if p.eventReserve > 0 || p.explorationReserve > 0 then Refused(VolumeReservesForbidden)
      else Conclude(VolumeContent(o, p, s))
    else
      var worse := SalienceCheck(o);
      if worse.Some? then Refused(worse.value) else Conclude(SalienceContent(o, p, s, PlanOf(o, p, s.body)))
  }

  method Admit(o: Observation, p: Policy, s: State) returns (r: Result<Receipt>)
    ensures r == Admitted(o, p, s)
  {
    var bad := Precheck(o, s);
    if bad.Some? { return Refused(bad.value); }
    if o.byVolume {
      if p.eventReserve > 0 || p.explorationReserve > 0 { return Refused(VolumeReservesForbidden); }
      return Conclude(VolumeContent(o, p, s));
    }
    bad := SalienceCheck(o);
    if bad.Some? { return Refused(bad.value); }
    var plan := Choose(o, p, s.body);
    r := Conclude(SalienceContent(o, p, s, plan));
  }

  function VerifyReceipt(r: Receipt): Result<Receipt> {
    if r.id != OfReceipt(r.content) then Refused(ReceiptCorrupt)
    else
      var replay := Admitted(r.content.observation, r.content.policy, r.content.prior);
      if replay.Refused? then replay else if replay.value != r then Refused(ReplayMismatch) else Ok(r)
  }

  /** A receipt verifies exactly when admission, replayed on what it records, gives it back. */
  lemma VerifiesIff(r: Receipt)
    ensures VerifyReceipt(r) == Ok(r) <==> Admitted(r.content.observation, r.content.policy, r.content.prior) == Ok(r)
    ensures VerifyReceipt(r).Ok? ==> VerifyReceipt(r) == Ok(r)
    ensures r.id != OfReceipt(r.content) ==> VerifyReceipt(r) == Refused(ReceiptCorrupt)
    ensures r.id == OfReceipt(r.content) ==>
      match Admitted(r.content.observation, r.content.policy, r.content.prior)
      case Refused(why) => VerifyReceipt(r) == Refused(why)
      case Ok(again) => again != r ==> VerifyReceipt(r) == Refused(ReplayMismatch)
  {
    hide VolumeContent, SalienceContent, PlanOf, Precheck, SalienceCheck;
  }

  /** Whatever admission issues verifies, and starts from the state it was given. */
  lemma IssuedVerifies(o: Observation, p: Policy, s: State)
    ensures Admitted(o, p, s).Ok? ==> (
      var r := Admitted(o, p, s).value;
      && VerifyReceipt(r) == Ok(r) && ValidState(s) && ValidState(r.content.next)
      && r.content.prior == s && r.content.observation == o && r.content.policy == p
      && r.content.next.body.generation == s.body.generation + 1
      && r.content.next != s)
  {
    hide PlanOf, RankedOf, VolumeRanked, Details, RolesValid, BoundariesValid, SignaturesOf;
  }

  // ---------------------------------------------------------------- runs

  /** What admission issues for the observation, policy and state that the receipt records. */
  predicate Genuine(r: Receipt) {
    Admitted(r.content.observation, r.content.policy, r.content.prior) == Ok(r)
  }

  /** Consecutive generations: each admission starts from the state the previous one left. A
      refused admission leaves no receipt and no state. */
  ghost predicate Linked(run: seq<Receipt>) {
    && (forall i :: 0 <= i < |run| ==> Genuine(run[i]))
    && (forall i :: 0 < i < |run| ==> run[i].content.prior == run[i - 1].content.next)
  }

  lemma GenuineSalience(r: Receipt)
    requires Genuine(r) && !r.content.observation.byVolume
    ensures var c := r.content; c.observation.sourceCut.Some? && ValidState(c.prior)
    ensures var c, plan := r.content, PlanOf(r.content.observation, r.content.policy, r.content.prior.body);
      && c.admitted == plan.Chosen() && c.next.body.exploration == plan.exploration
      && c.next.body.relevance == plan.relevance
      && c.next.body.signatures == SignaturesOf(c.observation, RankedOf(c.observation))
  {
    hide PlanOf, RankedOf, Details, RolesValid, BoundariesValid, SignaturesOf, Members, Peers, Fresh, SalienceCheck;
  }

  lemma GenuineVolume(r: Receipt)
    requires Genuine(r) && r.content.observation.byVolume
    ensures r.content.observation.sourceCut.Some?
    ensures r.content.next.body == r.content.prior.body.(generation := r.content.prior.body.generation + 1)
    ensures r.content.admitted == Take(VolumeRanked(r.content.observation), r.content.policy.maxDeepSlots)
  {
    hide VolumeRanked, VolumeDetail, RolesValid, BoundariesValid, Members, Peers, Fresh, Take;
  }
}
