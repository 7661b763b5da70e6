/** What every admission guarantees: accounting, priority, and the projection of candidates. */
module AdmissionProperties {
  import opened Sequences
  import opened Wrappers
  import opened Rotation
  import opened Admission

  // ---------------------------------------------------------------- sequences

  /** xs is what is left of ys after dropping some elements. */
  lemma {:induction false} FilterKeepsOrder(xs: seq<Symbol>, p: Symbol -> bool)
    requires Distinct(xs)
    ensures Distinct(Filter(xs, p))
  {
    if xs != [] {
      var n := |xs| - 1;
      FilterKeepsOrder(xs[..n], p);
      assert xs[n] !in xs[..n];
    }
  }

  lemma FreshPicks(xs: seq<Symbol>, chosen: seq<Symbol>, n: nat)
    requires Distinct(xs)
    ensures var r := Take(Fresh(xs, chosen), n);
      Distinct(r) && |r| <= n && (forall s <- r :: s in xs && s !in chosen)
  {
    FilterKeepsOrder(xs, x => x !in chosen);
    var f := Fresh(xs, chosen);
    forall s | s in Take(f, n) ensures s in f { assert Take(f, n) <= f; }
  }

  lemma DistinctConcat(a: seq<Symbol>, b: seq<Symbol>)
    requires Distinct(a) && Distinct(b) && forall s <- b :: s !in a
    ensures Distinct(a + b)
  {
    var c := a + b;
    forall i, j | 0 <= i < j < |c| ensures c[i] != c[j] {
      if i < |a| <= j { assert c[j] == b[j - |a|] && c[j] in b && c[i] in a; }
    }
  }

  // ---------------------------------------------------------------- the stages

  /** The stages of a plan pick distinct usable symbols, each within its capacity. */
  ghost predicate Staged(o: Observation, p: Policy, plan: Plan)
    requires o.sourceCut.Some?
  {
    && Distinct(plan.Chosen()) && (forall s <- plan.Chosen() :: Usable(o, s))
    && Distinct(plan.event) && Distinct(plan.explored)
    && (forall s <- plan.explored :: s !in plan.event)
    && (forall s <- plan.event + plan.ranked :: Qualifies(o, s))
    && (forall s <- plan.required :: s in o.requiredBy) && (forall s <- plan.relevant :: s in o.relevance)
    && |plan.event| <= EventCapacity(p) && |plan.explored| <= ExplorationCapacity(p)
    && |plan.required| + |plan.ranked| + |plan.relevant| <= RankedCapacity(p)
  }

  lemma StagesHold(o: Observation, p: Policy, was: Body)
    requires o.sourceCut.Some?
    ensures Staged(o, p, PlanOf(o, p, was))
  {
    hide PlanOf, RankedOf, Usable, Qualifies, EventCapacity, ExplorationCapacity, RankedCapacity;
    EventPicks(o, p, was);
    ExploredPicks(o, p, was);
    RequiredPicks(o, p, was);
    RankedPicks(o, p, was);
    RelevantPicks(o, p, was);
    var plan := PlanOf(o, p, was);
    DistinctConcat(plan.event, plan.explored);
    DistinctConcat(plan.event + plan.explored, plan.required);
    DistinctConcat(plan.event + plan.explored + plan.required, plan.ranked);
    DistinctConcat(plan.event + plan.explored + plan.required + plan.ranked, plan.relevant);
    QualifyingIsUsable(o);
  }

  /** The picks of the later stages, each from what the earlier ones left. */
  lemma LaterStages(o: Observation, p: Policy, was: Body)
    requires o.sourceCut.Some?
    ensures var plan, n := PlanOf(o, p, was), RankedCapacity(p);
      var before := plan.event + plan.explored;
      var chosen, cursor := before + plan.required + plan.ranked, Last(plan.required, was.relevance);
      && plan.explored == Take(Fresh(Rotate(ValidSet(o), was.exploration), plan.event), ExplorationCapacity(p))
      && plan.required == Take(Fresh(Rotate(RequiredSet(o), was.relevance), before), n)
      && |plan.required| <= n && plan.ranked == Take(Fresh(RankedOf(o), before + plan.required), n - |plan.required|)
      && |plan.required| + |plan.ranked| <= n
      && plan.relevant == Take(Rotate(RelevantSet(o, chosen), cursor), n - |plan.required| - |plan.ranked|)
      && plan.relevance == Last(plan.relevant, cursor)
  {
    hide RankedOf, Rotate, Filter, Fresh, Take, Last, ValidSet, RequiredSet, RelevantSet, EventCapacity,
      ExplorationCapacity,
         RankedCapacity;
  }

  lemma SetMembers(o: Observation, chosen: seq<Symbol>)
    requires o.sourceCut.Some?
    ensures forall s :: s in ValidSet(o) <==> Usable(o, s)
    ensures forall s :: s in RequiredSet(o) <==> Usable(o, s) && s in o.requiredBy
    ensures forall s :: s in RelevantSet(o, chosen) <==> Usable(o, s) && s in o.relevance && s !in chosen
  {
  }

  lemma RotatePicks(among: set<Symbol>, cursor: Option<Symbol>, chosen: seq<Symbol>, n: nat)
    ensures var r := Take(Fresh(Rotate(among, cursor), chosen), n);
      Distinct(r) && |r| <= n && forall s <- r :: s in among && s !in chosen
  {
    hide Fresh, Rotate;
    FreshPicks(Rotate(among, cursor), chosen, n);
  }

  lemma ExploredPicks(o: Observation, p: Policy, was: Body)
    requires o.sourceCut.Some?
    ensures var plan := PlanOf(o, p, was);
      Distinct(plan.explored) && |plan.explored| <= ExplorationCapacity(p)
      && forall s <- plan.explored :: Usable(o, s) && s !in plan.event
  {
    hide *;
    LaterStages(o, p, was);
    SetMembers(o, []);
    RotatePicks(ValidSet(o), was.exploration, PlanOf(o, p, was).event, ExplorationCapacity(p));
  }

  lemma RequiredPicks(o: Observation, p: Policy, was: Body)
    requires o.sourceCut.Some?
    ensures var plan := PlanOf(o, p, was);
      Distinct(plan.required) && |plan.required| <= RankedCapacity(p)
      && forall s <- plan.required :: Usable(o, s) && s in o.requiredBy && s !in plan.event + plan.explored
  {
    hide *;
    var plan := PlanOf(o, p, was);
    LaterStages(o, p, was);
    SetMembers(o, []);
    RotatePicks(RequiredSet(o), was.relevance, plan.event + plan.explored, RankedCapacity(p));
  }

  lemma RankedPicks(o: Observation, p: Policy, was: Body)
    requires o.sourceCut.Some?
    ensures var plan := PlanOf(o, p, was);
      Distinct(plan.ranked) && |plan.required| + |plan.ranked| <= RankedCapacity(p)
      && forall s <- plan.ranked :: Qualifies(o, s) && s !in plan.event + plan.explored + plan.required
  {
    hide *;
    var plan := PlanOf(o, p, was);
    LaterStages(o, p, was);
    FreshPicks(RankedOf(o), plan.event + plan.explored + plan.required, RankedCapacity(p) - |plan.required|);
  }

  lemma RelevantPicks(o: Observation, p: Policy, was: Body)
    requires o.sourceCut.Some?
    ensures var plan := PlanOf(o, p, was);
      Distinct(plan.relevant) && |plan.required| + |plan.ranked| + |plan.relevant| <= RankedCapacity(p)
      && forall s <- plan.relevant ::
           Usable(o, s) && s in o.relevance && s !in plan.event + plan.explored + plan.required + plan.ranked
  {
    hide *;
    var plan := PlanOf(o, p, was);
    var chosen, cursor := plan.event + plan.explored + plan.required + plan.ranked, Last(plan.required, was.relevance);
    LaterStages(o, p, was);
    SetMembers(o, chosen);
    RelevantFresh(o, chosen, cursor);
    RotatePicks(RelevantSet(o, chosen), cursor, chosen, RankedCapacity(p) - |plan.required| - |plan.ranked|);
  }

  lemma QualifyingIsUsable(o: Observation)
    requires o.sourceCut.Some?
    ensures forall s :: Qualifies(o, s) ==> Usable(o, s)
    ensures forall s :: Usable(o, s) ==> s in o.rows
  {
  }

  lemma EventPicks(o: Observation, p: Policy, was: Body)
    requires o.sourceCut.Some?
    ensures var event := PlanOf(o, p, was).event;
      Distinct(event) && |event| <= EventCapacity(p) && forall s <- event :: Qualifies(o, s) && IsNew(o, was, s)
  {
    FirstStage(o, p, was);
    hide PlanOf, RankedOf, Qualifies, IsNew, Fresh, Filter, Take;
    FilterKeepsOrder(RankedOf(o), s => IsNew(o, was, s));
    FrontPicks(Filter(RankedOf(o), s => IsNew(o, was, s)), EventCapacity(p));
  }

  lemma FirstStage(o: Observation, p: Policy, was: Body)
    requires o.sourceCut.Some?
    ensures PlanOf(o, p, was).event == Take(Filter(RankedOf(o), s => IsNew(o, was, s)), EventCapacity(p))
  {
    hide RankedOf, Rotate, Filter, Fresh, Take, Last, ValidSet, RequiredSet, RelevantSet, EventCapacity,
      ExplorationCapacity,
         RankedCapacity, IsNew;
  }

  lemma FrontPicks(xs: seq<Symbol>, n: nat)
    requires Distinct(xs)
    ensures Distinct(Take(xs, n)) && |Take(xs, n)| <= n && forall s <- Take(xs, n) :: s in xs
  {
    forall s | s in Take(xs, n) ensures s in xs { assert Take(xs, n) <= xs; }
  }

  // ---------------------------------------------------------------- accounting

  /** Admitted symbols are distinct, usable and within capacity, and with the deferred ones they
      make up the cohort; capacity is fully accounted for, reserves included. */
  ghost predicate Balanced(c: Content)
    requires c.observation.sourceCut.Some?
  {
    && Distinct(c.admitted) && |c.admitted| <= c.policy.maxDeepSlots
    && (forall s <- c.admitted :: Usable(c.observation, s))
    && Distinct(c.deferred)
    && (forall s :: s in c.observation.rows <==> s in c.admitted || s in c.deferred)
    && (forall s <- c.admitted :: s !in c.deferred)
    && |c.admitted| + |c.deferred| == |c.observation.rows|
    && c.used == |c.admitted| && c.used + c.unused == c.policy.maxDeepSlots && c.unused >= 0
    && c.unusedEvent >= 0 && c.unusedExploration >= 0 && c.unusedEvent + c.unusedExploration <= c.unused
  }

  /** One row a member, deferred exactly where the member was not admitted. */
  ghost predicate RowsMatch(c: Content) {
    |c.rows| == |c.observation.rows|
    && (forall i :: 0 <= i < |c.rows| ==>
          c.rows[i].symbol in c.observation.rows && (c.rows[i].category.Deferred? <==> c.rows[i].symbol !in c.admitted))
    && (forall s <- c.observation.rows :: exists i :: 0 <= i < |c.rows| && c.rows[i].symbol == s)
  }

  ghost predicate Accounted(c: Content) {
    c.observation.sourceCut.Some? && Balanced(c) && RowsMatch(c)
    && RolesValid(c.roles) && BoundariesValid(c.roles) && c.roles.deep == c.admitted
  }

  lemma MembersCount(o: Observation)
    ensures Distinct(Members(o)) && |Members(o)| == |o.rows|
  {
    AscendingDistinct(Members(o));
    HeldSize(Members(o), o.rows.Keys);
  }

  /** The parts of a receipt that the books are read from. */
  lemma Balance(c: Content)
    requires var o := c.observation; o.sourceCut.Some?
    requires Distinct(c.admitted) && |c.admitted| <= c.policy.maxDeepSlots
    requires forall s <- c.admitted :: Usable(c.observation, s)
    requires c.deferred == Fresh(Members(c.observation), c.admitted)
    requires c.used == |c.admitted| && c.unused == c.policy.maxDeepSlots - |c.admitted|
    requires c.unusedEvent >= 0 && c.unusedExploration >= 0 && c.unusedEvent + c.unusedExploration <= c.unused
    ensures Balanced(c)
  {
    hide Usable, Fresh, Members, Distinct;
    MembersCount(c.observation);
    QualifyingIsUsable(c.observation);
    Partition(Members(c.observation), c.admitted);
  }

  /** Admitted and deferred members add up to the cohort. */
  lemma Partition(members: seq<Symbol>, chosen: seq<Symbol>)
    requires Distinct(members) && Distinct(chosen) && forall s <- chosen :: s in members
    ensures Distinct(Fresh(members, chosen)) && |chosen| + |Fresh(members, chosen)| == |members|
    ensures forall s :: s in Fresh(members, chosen) <==> s in members && s !in chosen
  {
    var rest := Fresh(members, chosen);
    FilterKeepsOrder(members, x => x !in chosen);
    DistinctConcat(chosen, rest);
    DistinctSize(chosen + rest);
    DistinctSize(members);
    hide Fresh;
    forall x ensures x in chosen + rest <==> x in members {
      assert x in chosen + rest <==> x in chosen || x in rest;
    }
    SameMembers(chosen + rest, members);
  }

  lemma SalienceAccounts(o: Observation, p: Policy, s: State)
    requires Precheck(o, s).None? && Distinct(o.contextAnchors) && Distinct(o.exposure)
    ensures Accounted(SalienceContent(o, p, s, PlanOf(o, p, s.body)))
  {
    var plan := PlanOf(o, p, s.body);
    StagesHold(o, p, s.body);
    hide PlanOf;
    SalienceBalances(o, p, s, plan);
    SalienceRows(o, p, s, plan);
    SalienceRoles(o, p, s, plan);
    hide Balanced, RowsMatch, RolesValid, BoundariesValid, Staged, Precheck;
  }

  lemma SalienceBalances(o: Observation, p: Policy, s: State, plan: Plan)
    requires o.sourceCut.Some? && Staged(o, p, plan)
    ensures Balanced(SalienceContent(o, p, s, plan))
  {
    hide RankedOf, Usable, Qualifies, Details, SignaturesOf, Fresh, Members, Peers, Distinct, Balanced;
    Balance(SalienceContent(o, p, s, plan));
  }

  lemma SalienceRows(o: Observation, p: Policy, s: State, plan: Plan)
    requires o.sourceCut.Some?
    ensures RowsMatch(SalienceContent(o, p, s, plan))
  {
    hide RankedOf, ReasonOf, SignaturesOf, Fresh, Members, Peers, CategoryOf;
    var c := SalienceContent(o, p, s, plan);
    MembersCount(o);
    Categories(o, plan);
    forall m | m in o.rows ensures exists i :: 0 <= i < |c.rows| && c.rows[i].symbol == m {
      var i :| 0 <= i < |Members(o)| && Members(o)[i] == m;
      assert c.rows[i].symbol == m;
    }
  }

  lemma SalienceRoles(o: Observation, p: Policy, s: State, plan: Plan)
    requires Precheck(o, s).None? && Distinct(o.contextAnchors) && Distinct(o.exposure) && Staged(o, p, plan)
    ensures var r := SalienceContent(o, p, s, plan).roles;
      RolesValid(r) && BoundariesValid(r) && r.deep == plan.Chosen()
  {
    hide RankedOf, Usable, Qualifies, Details, SignaturesOf, Fresh, Members, Peers;
    MembersCount(o);
    PeersAreMembers(o);
    QualifyingIsUsable(o);
  }

  lemma Categories(o: Observation, plan: Plan)
    ensures forall s :: CategoryOf(o, plan, s).Deferred? <==> s !in plan.Chosen()
  {
  }

  lemma PeersAreMembers(o: Observation)
    requires forall m <- o.peers :: m in o.rows
    ensures Distinct(Peers(o)) && forall m <- Peers(o) :: m in Members(o)
  {
    AscendingDistinct(Peers(o));
  }

  lemma VolumeAccounts(o: Observation, p: Policy, s: State)
    requires Precheck(o, s).None? && Distinct(o.contextAnchors) && Distinct(o.exposure)
    ensures Accounted(VolumeContent(o, p, s))
  {
    VolumeBalances(o, p, s);
    VolumeRows(o, p, s);
    VolumeRoles(o, p, s);
    hide Balanced, RowsMatch, RolesValid, BoundariesValid, Precheck;
  }

  lemma VolumeBalances(o: Observation, p: Policy, s: State)
    requires o.sourceCut.Some?
    ensures Balanced(VolumeContent(o, p, s))
  {
    hide *;
    VolumePicks(o, p);
    VolumeFields(o, p, s);
    Balance(VolumeContent(o, p, s));
  }

  lemma VolumeFields(o: Observation, p: Policy, s: State)
    requires o.sourceCut.Some?
    ensures var c := VolumeContent(o, p, s);
      && c.observation == o && c.policy == p && c.admitted == Take(VolumeRanked(o), p.maxDeepSlots)
      && c.deferred == Fresh(Members(o), c.admitted) && c.used == |c.admitted|
      && c.unused == p.maxDeepSlots - |c.admitted|
      && c.unusedEvent == 0 == c.unusedExploration
  {
    hide VolumeRanked, Take, Fresh, Members, Peers, VolumeDetail;
  }

  lemma VolumeRoles(o: Observation, p: Policy, s: State)
    requires Precheck(o, s).None? && Distinct(o.contextAnchors) && Distinct(o.exposure)
    ensures var r := VolumeContent(o, p, s).roles;
      RolesValid(r) && BoundariesValid(r) && r.deep == VolumeContent(o, p, s).admitted
  {
    VolumePicks(o, p);
    hide Usable, VolumeRanked, VolumeUsable, Take, Fresh, Members, Peers;
    MembersCount(o);
    PeersAreMembers(o);
    QualifyingIsUsable(o);
  }

  lemma VolumeRows(o: Observation, p: Policy, s: State)
    requires o.sourceCut.Some?
    ensures RowsMatch(VolumeContent(o, p, s))
  {
    hide VolumeRanked, Fresh, Members, Peers, Take, VolumeUsable;
    var c := VolumeContent(o, p, s);
    MembersCount(o);
    forall m | m in o.rows ensures exists i :: 0 <= i < |c.rows| && c.rows[i].symbol == m {
      var i :| 0 <= i < |Members(o)| && Members(o)[i] == m;
      assert c.rows[i].symbol == m;
    }
  }

  lemma VolumePicks(o: Observation, p: Policy)
    requires o.sourceCut.Some?
    ensures var chosen := Take(VolumeRanked(o), p.maxDeepSlots);
      Distinct(chosen) && |chosen| <= p.maxDeepSlots && forall s <- chosen :: VolumeUsable(o, s) && Usable(o, s)
  {
    hide Usable;
    var ranked := VolumeRanked(o);
    var chosen := Take(ranked, p.maxDeepSlots);
    forall x | x in chosen ensures x in ranked { assert chosen <= ranked; }
  }

  /** Roles can only be refused for repeated anchors or exposure symbols: their boundaries always
      hold. Every issued receipt, under either selection, is fully accounted. */
  lemma AdmissionAccounts(o: Observation, p: Policy, s: State)
    ensures Admitted(o, p, s) != Refused(RoleBoundariesInvalid)
    ensures Admitted(o, p, s) == Refused(RolesInvalid) ==> !Distinct(o.contextAnchors) || !Distinct(o.exposure)
    ensures Admitted(o, p, s).Ok? ==>
      Accounted(Admitted(o, p, s).value.content) && ValidState(Admitted(o, p, s).value.content.next)
  {
    hide RolesValid, BoundariesValid, Accounted, PlanOf, SalienceContent, VolumeContent;
    if Precheck(o, s).None? {
      ContentRoles(o, p, s);
      if Distinct(o.contextAnchors) && Distinct(o.exposure) {
        SalienceAccounts(o, p, s);
        VolumeAccounts(o, p, s);
        AccountedRoles(SalienceContent(o, p, s, PlanOf(o, p, s.body)));
        AccountedRoles(VolumeContent(o, p, s));
      }
    }
  }

  lemma AccountedRoles(c: Content)
    requires Accounted(c)
    ensures RolesValid(c.roles) && BoundariesValid(c.roles)
  {
  }

  lemma ContentRoles(o: Observation, p: Policy, s: State)
    requires Precheck(o, s).None?
    ensures var a, b := SalienceContent(o, p, s, PlanOf(o, p, s.body)), VolumeContent(o, p, s);
      && a.observation == o && b.observation == o && ValidState(a.next) && ValidState(b.next)
      && (RolesValid(a.roles) || RolesValid(b.roles) ==> Distinct(o.contextAnchors) && Distinct(o.exposure))
  {
    hide PlanOf, RankedOf, VolumeRanked, SignaturesOf;
  }

  // ---------------------------------------------------------------- priority

  /** Taking fewer than the capacity means taking everything. */
  lemma FreshExhausted(xs: seq<Symbol>, chosen: seq<Symbol>, n: nat, s: Symbol)
    requires s in xs && |Take(Fresh(xs, chosen), n)| < n
    ensures s in chosen || s in Take(Fresh(xs, chosen), n)
  {
  }

  /** Required symbols come first: when any symbol is admitted as ranked, relevant or warm-up
      relevant, no usable required symbol is deferred. */
  lemma RequiredFirst(o: Observation, p: Policy, was: Body)
    requires o.sourceCut.Some?
    ensures var plan := PlanOf(o, p, was);
      plan.ranked != [] || plan.relevant != [] ==> forall s :: Usable(o, s) && s in o.requiredBy ==> s in plan.Chosen()
  {
    hide *;
    var plan := PlanOf(o, p, was);
    LaterStages(o, p, was);
    SetMembers(o, []);
    if plan.ranked != [] || plan.relevant != [] {
      forall s | Usable(o, s) && s in o.requiredBy ensures s in plan.Chosen() {
        RotateHas(RequiredSet(o), was.relevance);
        FreshExhausted(Rotate(RequiredSet(o), was.relevance), plan.event + plan.explored, RankedCapacity(p), s);
        ChosenHas(plan, s);
      }
    }
  }

  lemma RotateHas(among: set<Symbol>, cursor: Option<Symbol>)
    ensures forall x :: x in Rotate(among, cursor) <==> x in among
  {
    hide Rotate;
  }

  lemma ChosenHas(plan: Plan, s: Symbol)
    requires s in plan.event + plan.explored || s in plan.required
    ensures s in plan.Chosen()
  {
  }

  /** A qualifying symbol is deferred only behind better ones: everything admitted as ranked
      outranks it. */
  lemma RankedBest(o: Observation, p: Policy, was: Body, a: Symbol, b: Symbol)
    requires o.sourceCut.Some?
    ensures var plan := PlanOf(o, p, was);
      a in plan.ranked && Qualifies(o, b) && b !in plan.Chosen() ==> Outranks(RankKey(o), a, b)
  {
    hide *;
    var plan := PlanOf(o, p, was);
    LaterStages(o, p, was);
    if a in plan.ranked && Qualifies(o, b) && b !in plan.Chosen() {
      if b in plan.event + plan.explored + plan.required || b in plan.ranked { ChosenPart(plan, b); }
      TakenFirst(RankedOf(o), plan.event + plan.explored + plan.required, RankedCapacity(p) - |plan.required|,
        RankKey(o), a, b);
    }
  }

  lemma ChosenPart(plan: Plan, s: Symbol)
    requires s in plan.event + plan.explored + plan.required || s in plan.ranked
    ensures s in plan.Chosen()
  {
  }

  /** A new event is passed over by the event stage only behind better new events. */
  lemma EventsBest(o: Observation, p: Policy, was: Body, a: Symbol, b: Symbol)
    requires o.sourceCut.Some?
    ensures var event := PlanOf(o, p, was).event;
      a in event && Qualifies(o, b) && IsNew(o, was, b) && b !in event ==> Outranks(RankKey(o), a, b)
  {
    FirstStage(o, p, was);
    hide PlanOf, RankedOf, Qualifies, IsNew, Fresh, Filter, Take;
    var event := PlanOf(o, p, was).event;
    var events := Filter(RankedOf(o), s => IsNew(o, was, s));
    if a in event && Qualifies(o, b) && IsNew(o, was, b) && b !in event {
      FilterOrder(RankedOf(o), s => IsNew(o, was, s), RankKey(o));
      PrefixFirst(events, EventCapacity(p), RankKey(o), a, b);
    }
  }

  lemma {:induction false} FilterOrder(xs: seq<Symbol>, p: Symbol -> bool, key: Symbol -> real)
    requires InRankOrder(key, xs)
    ensures InRankOrder(key, Filter(xs, p))
  {
    if xs != [] {
      var n := |xs| - 1;
      FilterOrder(xs[..n], p, key);
      forall x | x in Filter(xs[..n], p) ensures Outranks(key, x, xs[n]) {
        var i :| 0 <= i < n && xs[i] == x;
      }
    }
  }

  lemma PrefixFirst(xs: seq<Symbol>, n: nat, key: Symbol -> real, a: Symbol, b: Symbol)
    requires InRankOrder(key, xs) && a in Take(xs, n) && b in xs && b !in Take(xs, n)
    ensures Outranks(key, a, b)
  {
    var i :| 0 <= i < |Take(xs, n)| && Take(xs, n)[i] == a;
    var j :| 0 <= j < |xs| && xs[j] == b;
    assert forall k :: 0 <= k < |Take(xs, n)| ==> xs[k] == Take(xs, n)[k] && xs[k] in Take(xs, n);
    assert i < j;
  }

  lemma TakenFirst(xs: seq<Symbol>, chosen: seq<Symbol>, n: nat, key: Symbol -> real, a: Symbol, b: Symbol)
    requires InRankOrder(key, xs) && a in Take(Fresh(xs, chosen), n) && b in xs
    requires b !in chosen && b !in Take(Fresh(xs, chosen), n)
    ensures Outranks(key, a, b)
  {
    FilterOrder(xs, x => x !in chosen, key);
    PrefixFirst(Fresh(xs, chosen), n, key, a, b);
  }

  /** The same observation is no event twice: once its signatures are remembered, admitting the
      same salience again picks no event, under any policy. */
  lemma EventsRemembered(o: Observation, q: Policy, next: Body)
    requires o.sourceCut.Some? && next.signatures == SignaturesOf(o, RankedOf(o))
    ensures PlanOf(o, q, next).event == []
  {
    EventPicks(o, q, next);
    hide PlanOf, Qualifies, IsNew;
    var event := PlanOf(o, q, next).event;
    if event != [] {
      Remembered(o, next, event[0]);
    }
  }

  lemma Remembered(o: Observation, was: Body, s: Symbol)
    requires o.sourceCut.Some? && was.signatures == SignaturesOf(o, RankedOf(o)) && Qualifies(o, s)
    ensures !IsNew(o, was, s)
  {
    assert s in RankedOf(o);
  }

  // ---------------------------------------------------------------- candidates

  datatype Kind =
    | VolumeShortlist | NewEvent | RequiredByStrategy | StandingSalience
    | RotatingRelevanceKind | RotatingExplorationKind

  /** The kind of urgency of an admission category; a deferred category has none. */
  function KindOf(c: Category): Option<Kind> {
    match c
    case Volume => Some(VolumeShortlist)
    case Event => Some(NewEvent)
    case StrategyRequired => Some(RequiredByStrategy)
    case Ranked => Some(StandingSalience)
    case Relevant => Some(RotatingRelevanceKind)
    case WarmupRelevant => Some(RotatingRelevanceKind)
    case Exploration => Some(RotatingExplorationKind)
    case Deferred => None
  }

  datatype Candidate = Candidate(rank: nat, symbol: Symbol, category: Category, kind: Kind)

  /** The row of a symbol, the last one when there are several. */
  function RowOf(rows: seq<Detail>, s: Symbol): (r: Option<Detail>)
    ensures r.Some? ==> r.value in rows && r.value.symbol == s
    ensures r.None? ==> forall i :: 0 <= i < |rows| ==> rows[i].symbol != s
  {
    if rows == [] then None
    else if rows[|rows| - 1].symbol == s then Some(rows[|rows| - 1])
    else RowOf(rows[..|rows| - 1], s)
  }

  /** Project the admitted symbols, refusing a symbol without a row or of a deferred category. */
  method Candidates(r: Receipt) returns (out: Result<seq<Candidate>>)
    ensures VerifyReceipt(r).Refused? ==> out == Refused(VerifyReceipt(r).why)
    ensures VerifyReceipt(r).Ok? ==> out.Ok? && |out.value| == |r.content.admitted|
    ensures VerifyReceipt(r).Ok? ==> forall i :: 0 <= i < |out.value| ==>
      out.value[i].rank == i + 1 && out.value[i].symbol == r.content.admitted[i]
      && !out.value[i].category.Deferred? && KindOf(out.value[i].category) == Some(out.value[i].kind)
      && exists row <- r.content.rows :: row.symbol == out.value[i].symbol && row.category == out.value[i].category
  {
    hide VerifyReceipt, Admitted, Accounted;
    var verified := VerifyReceipt(r);
    if verified.Refused? { return Refused(verified.why); }
    VerifiedAccounted(r);
    var c := r.content;
    var list: seq<Candidate> := [];
    for i := 0 to |c.admitted|
      invariant |list| == i
      invariant forall j :: 0 <= j < i ==>
        list[j].rank == j + 1 && list[j].symbol == c.admitted[j]
        && !list[j].category.Deferred? && KindOf(list[j].category) == Some(list[j].kind)
        && exists row <- c.rows :: row.symbol == list[j].symbol && row.category == list[j].category
    {
      var row := RowOf(c.rows, c.admitted[i]);
      AdmittedRow(c, i);
      if row.None? || KindOf(row.value.category).None? { return Refused(DeferredAdmitted); }
      list := list + [Candidate(i + 1, c.admitted[i], row.value.category, KindOf(row.value.category).value)];
    }
    out := Ok(list);
  }

  lemma VerifiedAccounted(r: Receipt)
    requires VerifyReceipt(r).Ok?
    ensures Accounted(r.content)
  {
    VerifiesIff(r);
    AdmissionAccounts(r.content.observation, r.content.policy, r.content.prior);
    hide Admitted, Accounted;
  }

  lemma AdmittedRow(c: Content, i: nat)
    requires Accounted(c) && i < |c.admitted|
    ensures var row := RowOf(c.rows, c.admitted[i]); row.Some? && KindOf(row.value.category).Some?
  {
    hide RolesValid, BoundariesValid, Usable;
    assert c.admitted[i] in c.admitted;
  }
}
