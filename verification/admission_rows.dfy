/** What a receipt says of every symbol, stated on the observation and in the numbers of the policy. */
module AdmissionRows {
  import opened Sequences
  import opened Wrappers
  import opened Rotation
  import opened Admission
  import opened AdmissionProperties

  // ---------------------------------------------------------------- when a receipt is issued

  /** Nothing refuses the admission. */
  ghost predicate Issuable(o: Observation, p: Policy, s: State) {
    && s.sha == OfBody(s.body) && s.body.generation >= 0 && o.knownSchema
    && o.sourceCut.Some? && o.sourceCut.value >= 0
    && (forall m <- o.rows :: o.rows[m].crypto && o.rows[m].symbol == m) && (forall m <- o.peers :: m in o.rows)
    && Distinct(o.contextAnchors) && Distinct(o.exposure)
    && if o.byVolume then p.eventReserve == p.explorationReserve == 0
       else o.threshold >= 0.0 && forall m <- o.rows :: m in o.scores && o.scores[m].salience.Some? ==>
         o.scores[m].salience.value >= 0.0
  }

  /** A receipt is issued exactly when nothing refuses it; its cohort is all crypto. */
  lemma IssuedIff(o: Observation, p: Policy, s: State)
    ensures Admitted(o, p, s).Ok? <==> Issuable(o, p, s)
  {
    AdmissionAccounts(o, p, s);
    hide RolesValid, BoundariesValid, PlanOf, SalienceContent, VolumeContent, Accounted;
    if Precheck(o, s).None? { ContentRoles(o, p, s); }
  }

  /** What each refusal says. */
  ghost predicate Blocks(why: Refusal, o: Observation, p: Policy, s: State) {
    match why
    case StateCorrupt => s.sha != OfBody(s.body) || s.body.generation < 0
    case ObservationInvalid => !o.knownSchema || o.sourceCut.None?
    case CutInvalid => o.sourceCut.Some? && o.sourceCut.value < 0
    case CohortInvalid => exists m <- o.rows :: !(o.rows[m].crypto && o.rows[m].symbol == m)
    case PeersInvalid => exists m <- o.peers :: m !in o.rows
    case VolumeReservesForbidden => o.byVolume && p.eventReserve + p.explorationReserve > 0
    case ThresholdInvalid => !o.byVolume && o.threshold < 0.0
    case SalienceInvalid => !o.byVolume && exists m <- o.rows :: NegativeSalience(o, m)
    case RolesInvalid => !Distinct(o.contextAnchors) || !Distinct(o.exposure)
    case _ => false
  }

  predicate NegativeSalience(o: Observation, m: Symbol) {
    m in o.scores && o.scores[m].salience.Some? && o.scores[m].salience.value < 0.0
  }

  const CHECKS := [StateCorrupt, ObservationInvalid, CutInvalid, CohortInvalid, PeersInvalid, VolumeReservesForbidden,
                   ThresholdInvalid, SalienceInvalid, RolesInvalid]

  ghost predicate FirstToBlock(i: nat, o: Observation, p: Policy, s: State)
    requires i < |CHECKS|
  {
    Blocks(CHECKS[i], o, p, s) && forall j :: 0 <= j < i ==> !Blocks(CHECKS[j], o, p, s)
  }

  /** A refusal is the first one in this order that is true. */
  lemma FirstRefusal(o: Observation, p: Policy, s: State)
    requires Admitted(o, p, s).Refused?
    ensures exists i :: 0 <= i < |CHECKS| && CHECKS[i] == Admitted(o, p, s).why && FirstToBlock(i, o, p, s)
  {
    AdmissionAccounts(o, p, s);
    IssuedIff(o, p, s);
    hide RolesValid, BoundariesValid, PlanOf, SalienceContent, VolumeContent, Accounted;
    var why := Admitted(o, p, s).why;
    var i := match why
      case StateCorrupt => 0
      case ObservationInvalid => 1
      case CutInvalid => 2
      case CohortInvalid => 3
      case PeersInvalid => 4
      case VolumeReservesForbidden => 5
      case ThresholdInvalid => 6
      case SalienceInvalid => 7
      case _ => 8;
    assert FirstToBlock(i, o, p, s);
  }

  /** Roles are well formed when no list repeats a symbol, the deep and the peer symbols are broad
      ones, and events and exploration are deep and have nothing in common. */
  lemma RolesChecked(r: Roles)
    ensures RolesValid(r) && BoundariesValid(r) <==>
      && (forall xs <- [r.broad, r.peers, r.deep, r.anchors, r.exposure, r.event, r.exploration] :: Distinct(xs))
      && (forall s <- r.deep + r.peers :: s in r.broad) && (forall s <- r.event + r.exploration :: s in r.deep)
      && (forall s <- r.exploration :: s !in r.event)
  {
    hide Distinct;
    var lists := [r.broad, r.peers, r.deep, r.anchors, r.exposure, r.event, r.exploration];
    assert lists[0] in lists && lists[1] in lists && lists[2] in lists && lists[3] in lists;
    assert lists[4] in lists && lists[5] in lists && lists[6] in lists;
    forall s ensures s in r.deep + r.peers <==> s in r.deep || s in r.peers {
    }
    forall s ensures s in r.event + r.exploration <==> s in r.event || s in r.exploration {
    }
  }

  // ---------------------------------------------------------------- on the observation

  /** A valid ticker that was available at the cut. */
  predicate Valid(o: Observation, s: Symbol)
    requires o.sourceCut.Some?
  {
    && s in o.rows && o.rows[s].quality
    && o.rows[s].availableAt.Some? && 0 <= o.rows[s].availableAt.value <= o.sourceCut.value
  }

  predicate HasSalience(o: Observation, s: Symbol) {
    s in o.scores && o.scores[s].salience.Some?
  }

  /** An eligible salience at or above the threshold. */
  predicate Salient(o: Observation, s: Symbol) {
    HasSalience(o, s) && o.scores[s].eligible && o.scores[s].salience.value >= o.threshold
  }

  /** A salience observation other than the one remembered. */
  predicate Novel(o: Observation, was: Body, s: Symbol) {
    s in o.scores && !(s in was.signatures && was.signatures[s].anchorMs == o.anchorMs
      && was.signatures[s].components == o.scores[s].components)
  }

  lemma Meanings(o: Observation, was: Body)
    requires o.sourceCut.Some?
    ensures forall s :: Usable(o, s) <==> Valid(o, s)
    ensures forall s :: Qualifies(o, s) <==> Valid(o, s) && Salient(o, s)
    ensures forall s :: IsNew(o, was, s) <==> Novel(o, was, s)
    ensures forall s :: SalienceOf(o, s).Some? <==> HasSalience(o, s)
  {
  }

  // ---------------------------------------------------------------- capacity

  function Least(a: int, b: int): int { if a < b then a else b }

  /** The slots of a salience receipt in the numbers of the policy: events up to their reserve,
      exploration up to its own or what events leave, the rest for all others; none of them stays
      unused while there is a symbol for it. */
  ghost predicate Filled(c: Content)
    requires c.observation.sourceCut.Some?
  {
    var o, p, event, explored := c.observation, c.policy, c.roles.event, c.roles.exploration;
    var eventSlots := Least(p.eventReserve, p.maxDeepSlots);
    var explorationSlots := Least(p.explorationReserve, p.maxDeepSlots - eventSlots);
    var others := |c.admitted| - |event| - |explored|;
    && |event| <= p.eventReserve && |explored| <= p.explorationReserve
    && |event| + c.unusedEvent == eventSlots && |explored| + c.unusedExploration == explorationSlots
    && 0 <= others <= p.maxDeepSlots - eventSlots - explorationSlots
    && event + explored <= c.admitted
    && (|event| < eventSlots ==>
          forall s :: Valid(o, s) && Salient(o, s) && Novel(o, c.prior.body, s) ==> s in event)
    && (|explored| < explorationSlots ==> forall s :: Valid(o, s) ==> s in event || s in explored)
    && (others < p.maxDeepSlots - eventSlots - explorationSlots ==>
          forall s :: Valid(o, s) && (s in o.requiredBy || Salient(o, s) || s in o.relevance) ==> s in c.admitted)
  }

  /** The category that the symbol has, by what it is and where it was admitted. */
  function CategoryFor(c: Content, s: Symbol): Category {
    var o := c.observation;
    if s in c.roles.event then Event
    else if s in c.roles.exploration then Exploration
    else if s !in c.admitted then Deferred
    else if s in o.requiredBy then StrategyRequired
    else if Salient(o, s) then Ranked
    else if HasSalience(o, s) then Relevant
    else WarmupRelevant
  }

  function ReasonFor(c: Content, s: Symbol): Reason
    requires c.observation.sourceCut.Some?
  {
    var o := c.observation;
    if s in c.roles.event then NewAnomaly
    else if s in c.roles.exploration then RotatingExploration
    else if s in c.admitted then
      if s in o.requiredBy then ExplicitRequirement
      else if Salient(o, s) then SalienceAtThreshold
      else RotatingRelevance
    else if !Valid(o, s) then InputUnusable
    else if Salient(o, s) || s in o.relevance then CapacityDeferred
    else NothingQualifies
  }

  /** Symbols are admitted for what they are. */
  ghost predicate Deserved(c: Content)
    requires c.observation.sourceCut.Some?
  {
    var o := c.observation;
    && (forall s <- c.roles.event :: Valid(o, s) && Salient(o, s) && Novel(o, c.prior.body, s))
    && (forall s <- c.admitted :: Valid(o, s))
    && (forall s <- c.admitted :: s !in c.roles.event && s !in c.roles.exploration ==>
          s in o.requiredBy || Salient(o, s) || s in o.relevance)
  }

  /** One row a member in order, with its salience, its category and its reason. */
  ghost predicate Explained(c: Content)
    requires c.observation.sourceCut.Some?
  {
    && |c.rows| == |c.observation.rows|
    && (forall i, j :: 0 <= i < j < |c.rows| ==> c.rows[i].symbol < c.rows[j].symbol)
    && forall i :: 0 <= i < |c.rows| ==> var s := c.rows[i].symbol;
      && s in c.observation.rows
      && c.rows[i].score == (if s in c.observation.scores then c.observation.scores[s].salience else None)
      && c.rows[i].category == CategoryFor(c, s) && c.rows[i].reason == ReasonFor(c, s)
  }

  // ---------------------------------------------------------------- why it is so

  lemma IssuedContent(r: Receipt)
    requires Genuine(r) && !r.content.observation.byVolume
    ensures var c := r.content;
      && Precheck(c.observation, c.prior).None?
      && c == SalienceContent(c.observation, c.policy, c.prior, PlanOf(c.observation, c.policy, c.prior.body))
  {
    hide PlanOf, SalienceContent, RolesValid, BoundariesValid, SalienceCheck;
  }

  lemma ContentParts(o: Observation, p: Policy, s: State, plan: Plan)
    requires o.sourceCut.Some?
    ensures var c := SalienceContent(o, p, s, plan);
      && c.observation == o && c.policy == p && c.prior == s
      && c.roles.event == plan.event && c.roles.exploration == plan.explored && c.admitted == plan.Chosen()
      && c.unusedEvent == EventCapacity(p) - |plan.event|
      && c.unusedExploration == ExplorationCapacity(p) - |plan.explored|
      && c.rows == Details(o, Members(o), plan)
  {
    hide RankedOf, Details, Members, Peers, Fresh, SignaturesOf, EventCapacity, ExplorationCapacity, Plan.Chosen;
  }

  lemma Capacities(p: Policy)
    ensures EventCapacity(p) == Least(p.eventReserve, p.maxDeepSlots)
    ensures ExplorationCapacity(p) == Least(p.explorationReserve, p.maxDeepSlots - EventCapacity(p))
    ensures RankedCapacity(p) == p.maxDeepSlots - EventCapacity(p) - ExplorationCapacity(p)
  {
  }

  /** Fewer events than slots for them: every new qualifying symbol is one. */
  lemma EventsExhausted(o: Observation, p: Policy, was: Body)
    requires o.sourceCut.Some?
    ensures var event := PlanOf(o, p, was).event;
      |event| < EventCapacity(p) ==> forall s :: Qualifies(o, s) && IsNew(o, was, s) ==> s in event
  {
    FirstStage(o, p, was);
    hide PlanOf, Qualifies, IsNew, EventCapacity;
  }

  lemma ExplorationExhausted(o: Observation, p: Policy, was: Body)
    requires o.sourceCut.Some?
    ensures var plan := PlanOf(o, p, was);
      |plan.explored| < ExplorationCapacity(p) ==> forall s :: Usable(o, s) ==> s in plan.event || s in plan.explored
  {
    hide *;
    var plan := PlanOf(o, p, was);
    LaterStages(o, p, was);
    SetMembers(o, []);
    RotateHas(ValidSet(o), was.exploration);
    if |plan.explored| < ExplorationCapacity(p) {
      forall s | Usable(o, s) ensures s in plan.event || s in plan.explored {
        FreshExhausted(Rotate(ValidSet(o), was.exploration), plan.event, ExplorationCapacity(p), s);
      }
    }
  }

  /** Fewer required picks than slots: every usable required symbol is chosen by then. */
  lemma RequiredExhausted(o: Observation, p: Policy, was: Body)
    requires o.sourceCut.Some?
    ensures var plan := PlanOf(o, p, was);
      |plan.required| < RankedCapacity(p) ==>
        forall s :: Usable(o, s) && s in o.requiredBy ==> s in plan.event + plan.explored || s in plan.required
  {
    hide *;
    var plan := PlanOf(o, p, was);
    LaterStages(o, p, was);
    SetMembers(o, []);
    RotateHas(RequiredSet(o), was.relevance);
    if |plan.required| < RankedCapacity(p) {
      forall s | Usable(o, s) && s in o.requiredBy ensures s in plan.event + plan.explored || s in plan.required {
        FreshExhausted(Rotate(RequiredSet(o), was.relevance), plan.event + plan.explored, RankedCapacity(p), s);
      }
    }
  }

  lemma RankedExhausted(o: Observation, p: Policy, was: Body)
    requires o.sourceCut.Some?
    ensures var plan := PlanOf(o, p, was);
      |plan.required| + |plan.ranked| < RankedCapacity(p) ==>
        forall s :: Qualifies(o, s) ==> s in plan.event + plan.explored + plan.required || s in plan.ranked
  {
    hide *;
    var plan := PlanOf(o, p, was);
    LaterStages(o, p, was);
    var n := RankedCapacity(p) - |plan.required|;
    if |plan.ranked| < n {
      forall s | Qualifies(o, s) ensures s in plan.event + plan.explored + plan.required || s in plan.ranked {
        FreshExhausted(RankedOf(o), plan.event + plan.explored + plan.required, n, s);
      }
    }
  }

  lemma RelevantExhausted(o: Observation, p: Policy, was: Body)
    requires o.sourceCut.Some?
    ensures var plan := PlanOf(o, p, was);
      |plan.required| + |plan.ranked| + |plan.relevant| < RankedCapacity(p) ==>
        forall s :: Usable(o, s) && s in o.relevance ==>
          s in plan.event + plan.explored + plan.required + plan.ranked || s in plan.relevant
  {
    hide *;
    var plan := PlanOf(o, p, was);
    LaterStages(o, p, was);
    var chosen, cursor := plan.event + plan.explored + plan.required + plan.ranked, Last(plan.required, was.relevance);
    SetMembers(o, chosen);
    RotateHas(RelevantSet(o, chosen), cursor);
    TakeAll(Rotate(RelevantSet(o, chosen), cursor), RankedCapacity(p) - |plan.required| - |plan.ranked|);
  }

  lemma TakeAll(xs: seq<Symbol>, n: nat)
    ensures |Take(xs, n)| < n ==> Take(xs, n) == xs
  {
  }

  /** What the stages pick, in the words of this module. */
  ghost predicate Picked(o: Observation, p: Policy, was: Body, plan: Plan)
    requires o.sourceCut.Some?
  {
    && |plan.event| <= EventCapacity(p) && |plan.explored| <= ExplorationCapacity(p)
    && |plan.required| + |plan.ranked| + |plan.relevant| <= RankedCapacity(p)
    && (forall s <- plan.event :: Valid(o, s) && Salient(o, s) && Novel(o, was, s))
    && (forall s <- plan.Chosen() :: Valid(o, s))
    && (forall s <- plan.required :: s in o.requiredBy) && (forall s <- plan.ranked :: Salient(o, s))
    && (forall s <- plan.relevant :: s in o.relevance)
  }

  /** And what they leave when they do not use their slots. */
  ghost predicate Exhausted(o: Observation, p: Policy, was: Body, plan: Plan)
    requires o.sourceCut.Some?
  {
    var n := RankedCapacity(p);
    && (|plan.event| < EventCapacity(p) ==>
          forall s :: Valid(o, s) && Salient(o, s) && Novel(o, was, s) ==> s in plan.event)
    && (|plan.explored| < ExplorationCapacity(p) ==> forall s :: Valid(o, s) ==> s in plan.event || s in plan.explored)
    && (|plan.required| < n ==> forall s :: Valid(o, s) && s in o.requiredBy ==>
          s in plan.event + plan.explored || s in plan.required)
    && (|plan.required| + |plan.ranked| < n ==> forall s :: Valid(o, s) && Salient(o, s) ==>
          s in plan.event + plan.explored + plan.required || s in plan.ranked)
    && (|plan.required| + |plan.ranked| + |plan.relevant| < n ==> forall s :: Valid(o, s) && s in o.relevance ==>
          s in plan.event + plan.explored + plan.required + plan.ranked || s in plan.relevant)
  }

  ghost predicate Stages(o: Observation, p: Policy, was: Body, plan: Plan)
    requires o.sourceCut.Some?
  {
    Picked(o, p, was, plan) && Exhausted(o, p, was, plan)
  }

  lemma StagedPicks(o: Observation, p: Policy, was: Body, plan: Plan)
    requires o.sourceCut.Some? && Staged(o, p, plan) && forall s <- plan.event :: IsNew(o, was, s)
    ensures Picked(o, p, was, plan)
  {
    Meanings(o, was);
    hide Valid, Salient, Novel, Usable, Qualifies, IsNew, EventCapacity, ExplorationCapacity, RankedCapacity, Distinct;
    assert forall s <- plan.event :: s in plan.event + plan.ranked && s in plan.Chosen();
    assert forall s <- plan.ranked :: s in plan.event + plan.ranked;
  }

  lemma PlanPicks(o: Observation, p: Policy, was: Body)
    requires o.sourceCut.Some?
    ensures Picked(o, p, was, PlanOf(o, p, was))
  {
    hide *;
    StagesHold(o, p, was);
    EventPicks(o, p, was);
    StagedPicks(o, p, was, PlanOf(o, p, was));
  }

  lemma PlanExhausts(o: Observation, p: Policy, was: Body)
    requires o.sourceCut.Some?
    ensures Exhausted(o, p, was, PlanOf(o, p, was))
  {
    EventsExhausted(o, p, was);
    ExplorationExhausted(o, p, was);
    RequiredExhausted(o, p, was);
    RankedExhausted(o, p, was);
    RelevantExhausted(o, p, was);
    Meanings(o, was);
    hide PlanOf, Valid, Salient, Novel, Usable, Qualifies, IsNew, EventCapacity, ExplorationCapacity, RankedCapacity;
  }

  lemma StagesGiven(o: Observation, p: Policy, was: Body)
    requires o.sourceCut.Some?
    ensures Stages(o, p, was, PlanOf(o, p, was))
  {
    PlanPicks(o, p, was);
    PlanExhausts(o, p, was);
    hide Picked, Exhausted, PlanOf;
  }

  lemma SlotsFilled(r: Receipt)
    requires Genuine(r) && !r.content.observation.byVolume
    ensures r.content.observation.sourceCut.Some? && Filled(r.content) && Deserved(r.content)
  {
    hide *;
    IssuedContent(r);
    var c := r.content;
    HasCut(c.observation, c.prior);
    var plan := PlanOf(c.observation, c.policy, c.prior.body);
    ContentParts(c.observation, c.policy, c.prior, plan);
    StagesGiven(c.observation, c.policy, c.prior.body);
    StagesFill(c, plan);
  }

  lemma StagesFill(c: Content, plan: Plan)
    requires c.observation.sourceCut.Some? && Stages(c.observation, c.policy, c.prior.body, plan)
    requires c.roles.event == plan.event && c.roles.exploration == plan.explored && c.admitted == plan.Chosen()
    requires c.unusedEvent == EventCapacity(c.policy) - |plan.event|
    requires c.unusedExploration == ExplorationCapacity(c.policy) - |plan.explored|
    ensures Filled(c) && Deserved(c)
  {
    Capacities(c.policy);
    hide Valid, Salient, Novel, EventCapacity, ExplorationCapacity, RankedCapacity, Distinct;
  }

  lemma HasCut(o: Observation, s: State)
    requires Precheck(o, s).None?
    ensures o.sourceCut.Some?
  {
  }

  lemma CategoriesFit(c: Content, plan: Plan, s: Symbol)
    requires c.observation.sourceCut.Some? && Stages(c.observation, c.policy, c.prior.body, plan)
    requires c.roles.event == plan.event && c.roles.exploration == plan.explored && c.admitted == plan.Chosen()
    ensures CategoryOf(c.observation, plan, s) == CategoryFor(c, s)
    ensures ReasonOf(c.observation, plan, s) == ReasonFor(c, s)
  {
    Meanings(c.observation, c.prior.body);
    hide Valid, Salient, Novel, Usable, Qualifies, IsNew, HasSalience, SalienceOf, EventCapacity, ExplorationCapacity,
      RankedCapacity, Distinct;
  }

  lemma RowsExplained(r: Receipt)
    requires Genuine(r) && !r.content.observation.byVolume
    ensures r.content.observation.sourceCut.Some? && Explained(r.content)
  {
    hide *;
    IssuedContent(r);
    var c := r.content;
    HasCut(c.observation, c.prior);
    var plan := PlanOf(c.observation, c.policy, c.prior.body);
    ContentParts(c.observation, c.policy, c.prior, plan);
    StagesGiven(c.observation, c.policy, c.prior.body);
    forall s ensures CategoryOf(c.observation, plan, s) == CategoryFor(c, s)
      && ReasonOf(c.observation, plan, s) == ReasonFor(c, s) {
      CategoriesFit(c, plan, s);
    }
    RowsAre(c, plan);
  }

  lemma RowsAre(c: Content, plan: Plan)
    requires c.observation.sourceCut.Some? && c.rows == Details(c.observation, Members(c.observation), plan)
    requires forall s :: CategoryOf(c.observation, plan, s) == CategoryFor(c, s)
    requires forall s :: ReasonOf(c.observation, plan, s) == ReasonFor(c, s)
    ensures Explained(c)
  {
    hide CategoryOf, CategoryFor, ReasonOf, ReasonFor, Members;
    MembersCount(c.observation);
  }

  // ---------------------------------------------------------------- by volume

  /** A valid ticker with a positive quote volume. */
  predicate Traded(o: Observation, s: Symbol)
    requires o.sourceCut.Some?
  {
    Valid(o, s) && o.rows[s].quoteVolume.Some? && o.rows[s].quoteVolume.value > 0.0
  }

  /** The largest volumes are admitted, by falling volume and then by name. */
  ghost predicate LargestFirst(c: Content)
    requires c.observation.sourceCut.Some?
  {
    var o := c.observation;
    && |c.admitted| <= c.policy.maxDeepSlots && (forall s <- c.admitted :: Traded(o, s))
    && (|c.admitted| < c.policy.maxDeepSlots ==> forall s :: Traded(o, s) ==> s in c.admitted)
    && forall i, s :: 0 <= i < |c.admitted| && Traded(o, s) && s !in c.admitted[..i + 1] ==> Larger(o, c.admitted[i], s)
  }

  ghost predicate VolumeExplained(c: Content)
    requires c.observation.sourceCut.Some?
  {
    var o := c.observation;
    && |c.rows| == |o.rows| && (forall i, j :: 0 <= i < j < |c.rows| ==> c.rows[i].symbol < c.rows[j].symbol)
    && forall i :: 0 <= i < |c.rows| ==> var s := c.rows[i].symbol;
      && s in o.rows && c.rows[i].score.None?
      && c.rows[i].category == (if s in c.admitted then Volume else Deferred)
      && c.rows[i].reason == if s in c.admitted then TopVolume
           else if Traded(o, s) then VolumeCapacityDeferred else InputUnusable
  }

  predicate Larger(o: Observation, a: Symbol, b: Symbol)
    requires o.sourceCut.Some? && Traded(o, a) && Traded(o, b)
  {
    var x, y := o.rows[a].quoteVolume.value, o.rows[b].quoteVolume.value;
    x > y || (x == y && a < b)
  }

  lemma IssuedByVolume(r: Receipt)
    requires Genuine(r) && r.content.observation.byVolume
    ensures var c := r.content;
      Precheck(c.observation, c.prior).None? && c == VolumeContent(c.observation, c.policy, c.prior)
  {
    hide VolumeContent, RolesValid, BoundariesValid;
  }

  /** A volume receipt: the largest volumes, a row for each member, and no reserves. */
  lemma VolumesAdmitted(r: Receipt)
    requires Genuine(r) && r.content.observation.byVolume
    ensures var c := r.content;
      && c.observation.sourceCut.Some? && LargestFirst(c) && VolumeExplained(c)
      && c.roles.event == [] == c.roles.exploration && c.unusedEvent == 0 == c.unusedExploration
  {
    hide *;
    IssuedByVolume(r);
    var c := r.content;
    HasCut(c.observation, c.prior);
    VolumeParts(c.observation, c.policy, c.prior);
    VolumesFirst(c);
    VolumeRowsAre(c);
  }

  lemma VolumeParts(o: Observation, p: Policy, s: State)
    requires o.sourceCut.Some?
    ensures var c := VolumeContent(o, p, s);
      && c.observation == o && c.policy == p && c.roles.event == [] == c.roles.exploration
      && c.unusedEvent == 0 == c.unusedExploration && c.admitted == Take(VolumeRanked(o), p.maxDeepSlots)
      && c.rows == seq(|Members(o)|, i requires 0 <= i < |Members(o)| => VolumeDetail(o, c.admitted, Members(o)[i]))
  {
    hide VolumeRanked, Take, Fresh, Members, Peers, VolumeDetail;
  }

  lemma VolumeMeanings(o: Observation)
    requires o.sourceCut.Some?
    ensures forall s :: VolumeUsable(o, s) <==> Traded(o, s)
    ensures forall a, b :: Traded(o, a) && Traded(o, b) ==> (Outranks(VolumeKey(o), a, b) <==> Larger(o, a, b))
  {
  }

  lemma VolumesFirst(c: Content)
    requires c.observation.sourceCut.Some? && c.admitted == Take(VolumeRanked(c.observation), c.policy.maxDeepSlots)
    ensures LargestFirst(c)
  {
    var o, ranked := c.observation, VolumeRanked(c.observation);
    VolumeMeanings(o);
    hide VolumeRanked, VolumeUsable, Traded, Larger, Outranks, VolumeKey;
    forall s | s in c.admitted ensures Traded(o, s) { assert s in ranked; }
    forall i, s | 0 <= i < |c.admitted| && Traded(o, s) && s !in c.admitted[..i + 1]
      ensures Larger(o, c.admitted[i], s)
    {
      var j :| 0 <= j < |ranked| && ranked[j] == s;
      AmongFirst(c.admitted, ranked, i, j);
      assert Outranks(VolumeKey(o), ranked[i], ranked[j]);
      assert c.admitted[i] in c.admitted;
    }
  }

  lemma AmongFirst(front: seq<Symbol>, xs: seq<Symbol>, i: nat, j: nat)
    requires front <= xs && i < |front| && j < |xs|
    ensures j <= i ==> xs[j] in front[..i + 1]
  {
    if j <= i { assert front[..i + 1][j] == xs[j]; }
  }

  lemma VolumeRowsAre(c: Content)
    requires c.observation.sourceCut.Some?
    requires var o := c.observation;
      c.rows == seq(|Members(o)|, i requires 0 <= i < |Members(o)| => VolumeDetail(o, c.admitted, Members(o)[i]))
    ensures VolumeExplained(c)
  {
    MembersCount(c.observation);
    VolumeMeanings(c.observation);
    hide Members, VolumeUsable, Traded;
  }

  // ---------------------------------------------------------------- what every receipt carries

  /** The roles and the lists of a receipt, by the observation; tied symbols are the ones ranked. */
  ghost predicate Carries(c: Content) {
    var o := c.observation;
    && Ascending(c.roles.broad) && (forall s :: s in c.roles.broad <==> s in o.rows)
    && Ascending(c.roles.peers) && (forall s :: s in c.roles.peers <==> s in o.peers)
    && c.roles.deep == c.admitted && c.roles.anchors == o.contextAnchors && c.roles.exposure == o.exposure
    && Ascending(c.deferred) && (forall s :: s in c.deferred <==> s in o.rows && s !in c.admitted)
    && c.next.sha == OfBody(c.next.body) && c.next.body.generation == c.prior.body.generation + 1
    && (o.byVolume ==> c.requiredDeferred == [])
    && (!o.byVolume ==> forall s :: s in c.requiredDeferred <==> s in o.requiredSymbols && s !in c.admitted)
  }

  lemma {:induction false} FilterAscends(xs: seq<Symbol>, p: Symbol -> bool)
    requires Ascending(xs)
    ensures Ascending(Filter(xs, p))
  {
    if xs != [] {
      var n := |xs| - 1;
      FilterAscends(xs[..n], p);
      var front, r := Filter(xs[..n], p), Filter(xs, p);
      forall i, j | 0 <= i < j < |r| ensures r[i] < r[j] {
        assert front[i] in front;
        var k :| 0 <= k < n && xs[k] == front[i];
        if j < |front| { assert front[i] < front[j]; }
      }
    }
  }

  lemma FreshAscends(xs: seq<Symbol>, chosen: seq<Symbol>)
    requires Ascending(xs)
    ensures Ascending(Fresh(xs, chosen))
  {
    FilterAscends(xs, x => x !in chosen);
  }

  lemma ReceiptCarries(r: Receipt)
    requires Genuine(r)
    ensures Carries(r.content)
  {
    hide *;
    var c := r.content;
    var o := c.observation;
    FreshAscends(Members(o), c.admitted);
    if o.byVolume {
      IssuedByVolume(r);
      HasCut(o, c.prior);
      VolumeCarries(o, c.policy, c.prior);
    } else {
      IssuedContent(r);
      HasCut(o, c.prior);
      SalienceCarries(o, c.policy, c.prior, PlanOf(o, c.policy, c.prior.body));
    }
  }

  lemma VolumeCarries(o: Observation, p: Policy, s: State)
    requires o.sourceCut.Some? && o.byVolume && Ascending(Fresh(Members(o), VolumeContent(o, p, s).admitted))
    ensures Carries(VolumeContent(o, p, s))
  {
    hide VolumeRanked, VolumeDetail, Take, Ascending;
  }

  lemma SalienceCarries(o: Observation, p: Policy, s: State, plan: Plan)
    requires o.sourceCut.Some? && !o.byVolume && Ascending(Fresh(Members(o), SalienceContent(o, p, s, plan).admitted))
    ensures Carries(SalienceContent(o, p, s, plan))
  {
    hide RankedOf, Details, SignaturesOf, EventCapacity, ExplorationCapacity, Plan.Chosen, Ascending;
  }
}
