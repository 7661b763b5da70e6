/** Fairness over runs of admissions: which symbols can never be kept waiting for ever, and which can. */
module AdmissionFairness {
  import opened Sequences
  import opened Wrappers
  import opened Rotation
  import opened Admission
  import opened AdmissionProperties

  // ---------------------------------------------------------------- overtaking

  function ExplorationOf(b: Body): Option<Symbol> { b.exploration }

  function RelevanceOf(b: Body): Option<Symbol> { b.relevance }

  /** Generations that selected by salience; volume admissions move no cursor. */
  function Turns(run: seq<Receipt>): nat {
    if run == [] then 0
    else Turns(run[..|run| - 1]) + if run[|run| - 1].content.observation.byVolume then 0 else 1
  }

  /** A generation either leaves the cursor alone or moves it past at least k symbols towards s. */
  ghost predicate Approaches(r: Receipt, cursor: Body -> Option<Symbol>, u: set<Symbol>, k: nat, s: Symbol) {
    var a, b := cursor(r.content.prior.body), cursor(r.content.next.body);
    if r.content.observation.byVolume then a == b else |Ahead(u, b, s)| + k <= |Ahead(u, a, s)|
  }

  /** A cursor cannot keep approaching a symbol for longer than the circle is round. */
  lemma CircleBound(run: seq<Receipt>, cursor: Body -> Option<Symbol>, u: set<Symbol>, k: nat, s: Symbol)
    requires Linked(run) && s in u
    requires forall i :: 0 <= i < |run| ==> Approaches(run[i], cursor, u, k, s)
    ensures Turns(run) * k < |u|
  {
    if run == [] {
      assert s in u;
    } else {
      hide Approaches, Ahead;
      Overtaken(run, cursor, u, k, s);
      StaysAhead(u, cursor(run[|run| - 1].content.next.body), s);
      StaysAhead(u, cursor(run[0].content.prior.body), s);
    }
  }

  lemma StaysAhead(u: set<Symbol>, cursor: Option<Symbol>, s: Symbol)
    requires s in u
    ensures 1 <= |Ahead(u, cursor, s)| <= |u|
  {
    assert s in Ahead(u, cursor, s);
    SubsetSize(Ahead(u, cursor, s), u);
  }

  lemma {:induction false} Overtaken(run: seq<Receipt>, cursor: Body -> Option<Symbol>, u: set<Symbol>, k: nat,
      s: Symbol)
    requires Linked(run) && run != []
    requires forall i :: 0 <= i < |run| ==> Approaches(run[i], cursor, u, k, s)
    ensures |Ahead(u, cursor(run[|run| - 1].content.next.body), s)| + Turns(run) * k
         <= |Ahead(u, cursor(run[0].content.prior.body), s)|
  {
    hide Ahead, Genuine;
    var n := |run| - 1;
    if n > 0 {
      Overtaken(run[..n], cursor, u, k, s);
      assert run[..n][0] == run[0] && run[..n][n - 1] == run[n - 1];
    }
    assert Turns(run) * k == Turns(run[..n]) * k + if run[n].content.observation.byVolume then 0 else k;
  }

  // ---------------------------------------------------------------- stages that wait

  lemma {:induction false} FilterVisits(xs: seq<Symbol>, p: Symbol -> bool, cursor: Option<Symbol>)
    requires Visits(xs, cursor)
    ensures Visits(Filter(xs, p), cursor)
  {
    if xs != [] {
      var n := |xs| - 1;
      FilterVisits(xs[..n], p, cursor);
      forall x | x in Filter(xs[..n], p) ensures Before(cursor, x, xs[n]) {
        var i :| 0 <= i < n && xs[i] == x;
      }
    }
  }

  lemma PrefixHas(xs: seq<Symbol>, n: nat, j: int)
    requires 0 <= j < |xs| && j < n
    ensures xs[j] in Take(xs, n)
  {
    assert Take(xs, n)[j] == xs[j];
  }

  lemma FreshWaits(order: seq<Symbol>, chosen: seq<Symbol>, cursor: Option<Symbol>, s: Symbol)
    requires Visits(order, cursor) && Distinct(order) && s in order && s !in chosen
    ensures var waiting := Fresh(order, chosen);
      && Visits(waiting, cursor) && Distinct(waiting) && s in waiting && forall x <- waiting :: x in order
  {
    FilterVisits(order, x => x !in chosen, cursor);
    FilterKeepsOrder(order, x => x !in chosen);
    hide Before, Visits, Distinct;
  }

  /** Where a waiting symbol stands when the first n in line are taken without it. */
  lemma LeftWaiting(waiting: seq<Symbol>, n: nat, cursor: Option<Symbol>, s: Symbol)
    requires Visits(waiting, cursor) && Distinct(waiting) && s in waiting && s !in Take(waiting, n)
    ensures n <= |waiting| && Take(waiting, n) == waiting[..n]
    ensures Visits(waiting[..n], cursor) && Distinct(waiting[..n])
    ensures forall x <- waiting[..n] :: x in waiting && x != s && Before(cursor, x, s)
  {
    hide Before;
    var j :| 0 <= j < |waiting| && waiting[j] == s;
    var picks := waiting[..n];
    if j < n { PrefixHas(waiting, n, j); }
    forall x | x in picks ensures x in waiting && x != s && Before(cursor, x, s) {
      var i :| 0 <= i < n && picks[i] == x;
      assert waiting[i] == x;
    }
  }

  /** A stage that walks a rotation and leaves s out has filled its capacity, and moving the
      cursor to its last pick brings s closer by as much. */
  lemma StagePasses(among: set<Symbol>, cursor: Option<Symbol>, chosen: seq<Symbol>, n: nat, u: set<Symbol>, s: Symbol)
    requires n > 0 && among <= u && s in among && s !in chosen
    requires s !in Take(Fresh(Rotate(among, cursor), chosen), n)
    ensures var picks := Take(Fresh(Rotate(among, cursor), chosen), n);
      && |picks| == n <= |Fresh(Rotate(among, cursor), chosen)|
      && picks[n - 1] == Fresh(Rotate(among, cursor), chosen)[n - 1]
      && |Ahead(u, Some(picks[n - 1]), s)| + n <= |Ahead(u, cursor, s)|
  {
    var order := Rotate(among, cursor);
    var waiting := Fresh(order, chosen);
    hide *;
    RotateHas(among, cursor);
    FreshWaits(order, chosen, cursor, s);
    LeftWaiting(waiting, n, cursor, s);
    CursorProgress(u, cursor, waiting[..n], s);
  }

  // ---------------------------------------------------------------- exploration

  /** When the exploration stage fills its capacity, its cursor rests on its last pick. */
  lemma ExploredLast(o: Observation, p: Policy, was: Body)
    requires o.sourceCut.Some?
    ensures var plan := PlanOf(o, p, was);
      && plan.explored == Take(Fresh(Rotate(ValidSet(o), was.exploration), plan.event), ExplorationCapacity(p))
      && (|plan.explored| == ExplorationCapacity(p) > 0 ==>
            plan.exploration == Some(plan.explored[|plan.explored| - 1]))
  {
    hide Usable, RankedOf, ValidSet, Fresh, Filter, Rotate, ExplorationCapacity, EventCapacity;
  }

  lemma MissedByAll(plan: Plan, s: Symbol)
    requires s !in plan.Chosen()
    ensures s !in plan.event + plan.explored && s !in plan.event && s !in plan.explored
    ensures s !in plan.event + plan.explored + plan.required + plan.ranked
    ensures s !in plan.required && s !in plan.ranked && s !in plan.relevant
  {
  }

  /** Missing s in a salience admission moves the exploration cursor towards s. */
  lemma ExplorationMoves(o: Observation, p: Policy, was: Body, u: set<Symbol>, e: nat, s: Symbol)
    requires o.sourceCut.Some? && ExplorationCapacity(p) >= e >= 1 && s in ValidSet(o) && ValidSet(o) <= u
    requires s !in PlanOf(o, p, was).Chosen()
    ensures |Ahead(u, PlanOf(o, p, was).exploration, s)| + e <= |Ahead(u, was.exploration, s)|
  {
    hide *;
    var plan := PlanOf(o, p, was);
    MissedByAll(plan, s);
    ExploredLast(o, p, was);
    StagePasses(ValidSet(o), was.exploration, plan.event, ExplorationCapacity(p), u, s);
  }

  lemma ExplorationApproaches(r: Receipt, u: set<Symbol>, e: nat, s: Symbol)
    requires Genuine(r) && s !in r.content.admitted
    requires var c := r.content; !c.observation.byVolume ==>
      && c.observation.sourceCut.Some? && ExplorationCapacity(c.policy) >= e >= 1
      && s in ValidSet(c.observation) && ValidSet(c.observation) <= u
    ensures Approaches(r, ExplorationOf, u, e, s)
  {
    hide Genuine, PlanOf, ValidSet, Ahead, ExplorationCapacity;
    var c := r.content;
    if c.observation.byVolume {
      GenuineVolume(r);
    } else {
      GenuineSalience(r);
      ExplorationMoves(c.observation, c.policy, c.prior.body, u, e, s);
    }
  }

  /** Exploration never starves: a symbol that is usable at every salience admission is admitted
      at least once in any ceil(|u| / e) of them, wherever the run starts, whatever volume
      admissions come in between and however the usable sets change inside u. */
  lemma ExplorationFair(run: seq<Receipt>, u: set<Symbol>, e: nat, s: Symbol)
    requires Linked(run) && s in u && e >= 1
    requires forall r <- run :: !r.content.observation.byVolume ==>
      && r.content.observation.sourceCut.Some? && ExplorationCapacity(r.content.policy) >= e
      && s in ValidSet(r.content.observation) && ValidSet(r.content.observation) <= u
    requires Turns(run) * e >= |u|
    ensures exists r <- run :: s in r.content.admitted
  {
    if forall r <- run :: s !in r.content.admitted {
      forall i | 0 <= i < |run| ensures Approaches(run[i], ExplorationOf, u, e, s) {
        assert run[i] in run;
        ExplorationApproaches(run[i], u, e, s);
      }
      CircleBound(run, ExplorationOf, u, e, s);
    }
  }

  // ---------------------------------------------------------------- required symbols

  /** When the required stage fills the ranked capacity, it is the last to move the shared cursor. */
  lemma RequiredLast(o: Observation, p: Policy, was: Body)
    requires o.sourceCut.Some?
    ensures var plan := PlanOf(o, p, was);
      && plan.required
           == Take(Fresh(Rotate(RequiredSet(o), was.relevance), plan.event + plan.explored), RankedCapacity(p))
      && (|plan.required| == RankedCapacity(p) > 0 ==> plan.relevance == Some(plan.required[|plan.required| - 1]))
  {
    RelevantPicks(o, p, was);
    hide Usable, RankedOf, Fresh, Filter, Rotate, RankedCapacity, RequiredSet, RelevantSet;
  }

  /** Missing s, though required, moves the shared cursor towards s. */
  lemma RequiredMoves(o: Observation, p: Policy, was: Body, u: set<Symbol>, k: nat, s: Symbol)
    requires o.sourceCut.Some? && RankedCapacity(p) >= k >= 1 && s in RequiredSet(o) && RequiredSet(o) <= u
    requires s !in PlanOf(o, p, was).Chosen()
    ensures |Ahead(u, PlanOf(o, p, was).relevance, s)| + k <= |Ahead(u, was.relevance, s)|
  {
    hide *;
    var plan := PlanOf(o, p, was);
    MissedByAll(plan, s);
    RequiredLast(o, p, was);
    StagePasses(RequiredSet(o), was.relevance, plan.event + plan.explored, RankedCapacity(p), u, s);
  }

  lemma RequiredApproaches(r: Receipt, u: set<Symbol>, k: nat, s: Symbol)
    requires Genuine(r) && s !in r.content.admitted
    requires var c := r.content; !c.observation.byVolume ==>
      && c.observation.sourceCut.Some? && RankedCapacity(c.policy) >= k >= 1
      && s in RequiredSet(c.observation) && RequiredSet(c.observation) <= u
    ensures Approaches(r, RelevanceOf, u, k, s)
  {
    hide Genuine, PlanOf, RequiredSet, Ahead, RankedCapacity;
    var c := r.content;
    if c.observation.byVolume {
      GenuineVolume(r);
    } else {
      GenuineSalience(r);
      RequiredMoves(c.observation, c.policy, c.prior.body, u, k, s);
    }
  }

  /** Required symbols rotate fairly: a symbol that is usable and required at every salience
      admission is admitted at least once in any ceil(|u| / k) of them. */
  lemma RequiredFair(run: seq<Receipt>, u: set<Symbol>, k: nat, s: Symbol)
    requires Linked(run) && s in u && k >= 1
    requires forall r <- run :: !r.content.observation.byVolume ==>
      && r.content.observation.sourceCut.Some? && RankedCapacity(r.content.policy) >= k
      && s in RequiredSet(r.content.observation) && RequiredSet(r.content.observation) <= u
    requires Turns(run) * k >= |u|
    ensures exists r <- run :: s in r.content.admitted
  {
    if forall r <- run :: s !in r.content.admitted {
      forall i | 0 <= i < |run| ensures Approaches(run[i], RelevanceOf, u, k, s) {
        assert run[i] in run;
        RequiredApproaches(run[i], u, k, s);
      }
      CircleBound(run, RelevanceOf, u, k, s);
    }
  }

  // ---------------------------------------------------------------- merely relevant symbols

  lemma RelevantLast(o: Observation, p: Policy, was: Body)
    requires o.sourceCut.Some?
    ensures var plan := PlanOf(o, p, was);
      var n := RankedCapacity(p) - |plan.required| - |plan.ranked|;
      var chosen := plan.event + plan.explored + plan.required + plan.ranked;
      var cursor := Last(plan.required, was.relevance);
      && n >= 0 && plan.relevant == Take(Rotate(RelevantSet(o, chosen), cursor), n)
      && (|plan.relevant| == n > 0 ==> plan.relevance == Some(plan.relevant[n - 1]))
  {
    RelevantPicks(o, p, was);
    hide Usable, RankedOf, Fresh, Filter, Rotate, RankedCapacity, RequiredSet, RelevantSet;
  }

  lemma RelevantWaits(o: Observation, chosen: seq<Symbol>, u: set<Symbol>, s: Symbol)
    requires o.sourceCut.Some? && s in ValidSet(o) && s in o.relevance && s !in chosen
    requires ValidSet(o) * o.relevance <= u
    ensures s in RelevantSet(o, chosen) && RelevantSet(o, chosen) <= u
  {
  }

  lemma LastOfNone(otherwise: Option<Symbol>)
    ensures Last([], otherwise) == otherwise
  {
  }

  /** With no required symbol and k more ranked slots than qualifying symbols, relevance has at
      least k slots. */
  lemma RelevantSlots(o: Observation, p: Policy, was: Body, k: nat)
    requires o.sourceCut.Some? && RequiredSet(o) == {} && RankedCapacity(p) >= |RankedOf(o)| + k
    ensures var plan := PlanOf(o, p, was); plan.required == [] && RankedCapacity(p) - |plan.ranked| >= k
  {
    hide *;
    var plan := PlanOf(o, p, was);
    LaterStages(o, p, was);
    RotateSize(RequiredSet(o), was.relevance);
    TakenSize(Rotate(RequiredSet(o), was.relevance), plan.event + plan.explored, RankedCapacity(p));
    TakenSize(RankedOf(o), plan.event + plan.explored + plan.required, RankedCapacity(p) - |plan.required|);
  }

  lemma RotateSize(among: set<Symbol>, cursor: Option<Symbol>)
    ensures |Rotate(among, cursor)| == |among|
  {
    hide Rotate;
    HeldSize(Rotate(among, cursor), among);
  }

  lemma TakenSize(xs: seq<Symbol>, chosen: seq<Symbol>, n: nat)
    ensures |Take(Fresh(xs, chosen), n)| <= |xs|
  {
  }

  lemma RelevantMoves(o: Observation, p: Policy, was: Body, u: set<Symbol>, k: nat, s: Symbol)
    requires o.sourceCut.Some? && s in ValidSet(o) && s in o.relevance && ValidSet(o) * o.relevance <= u
    requires RequiredSet(o) == {} && RankedCapacity(p) >= |RankedOf(o)| + k && k >= 1
    requires s !in PlanOf(o, p, was).Chosen()
    ensures |Ahead(u, PlanOf(o, p, was).relevance, s)| + k <= |Ahead(u, was.relevance, s)|
  {
    hide *;
    LastOfNone(was.relevance);
    RelevantSlots(o, p, was, k);
    var plan := PlanOf(o, p, was);
    var chosen := plan.event + plan.explored + plan.required + plan.ranked;
    MissedByAll(plan, s);
    RelevantLast(o, p, was);
    RelevantWaits(o, chosen, u, s);
    var order := Rotate(RelevantSet(o, chosen), was.relevance);
    RotateHas(RelevantSet(o, chosen), was.relevance);
    var n := RankedCapacity(p) - |plan.required| - |plan.ranked|;
    LeftWaiting(order, n, was.relevance, s);
    CursorProgress(u, was.relevance, order[..n], s);
  }

  lemma RelevantApproaches(r: Receipt, u: set<Symbol>, k: nat, s: Symbol)
    requires Genuine(r) && s !in r.content.admitted && RelevanceTurn(r, u, k, s)
    ensures Approaches(r, RelevanceOf, u, k, s)
  {
    hide Genuine, PlanOf, RankedOf, ValidSet, RequiredSet, RankedCapacity, Ahead;
    var c := r.content;
    if c.observation.byVolume {
      GenuineVolume(r);
    } else {
      GenuineSalience(r);
      RelevantMoves(c.observation, c.policy, c.prior.body, u, k, s);
    }
  }

  /** A generation in which s is usable and relevant, no usable symbol is required, and the ranked
      capacity exceeds the qualifying symbols by at least k. */
  ghost predicate RelevanceTurn(r: Receipt, u: set<Symbol>, k: nat, s: Symbol) {
    var c := r.content;
    !c.observation.byVolume ==>
      && c.observation.sourceCut.Some? && s in ValidSet(c.observation) && s in c.observation.relevance
      && ValidSet(c.observation) * c.observation.relevance <= u
      && RequiredSet(c.observation) == {}
      && RankedCapacity(c.policy) >= |RankedOf(c.observation)| + k && k >= 1
  }

  /** Relevance rotates fairly as long as no symbol is required and ranked slots are left over. */
  lemma RelevanceFair(run: seq<Receipt>, u: set<Symbol>, k: nat, s: Symbol)
    requires Linked(run) && s in u
    requires forall r <- run :: RelevanceTurn(r, u, k, s)
    requires Turns(run) * k >= |u|
    ensures exists r <- run :: s in r.content.admitted
  {
    if forall r <- run :: s !in r.content.admitted {
      forall i | 0 <= i < |run| ensures Approaches(run[i], RelevanceOf, u, k, s) {
        assert run[i] in run;
        RelevantApproaches(run[i], u, k, s);
      }
      CircleBound(run, RelevanceOf, u, k, s);
    }
  }

  lemma OneHeld(xs: seq<Symbol>, a: Symbol)
    requires Holds(xs, {a}) && Distinct(xs)
    ensures xs == [a]
  {
    assert a in xs;
    DistinctSize(xs);
    assert (set x | x in xs) == {a};
  }

  lemma TwoHeld(xs: seq<Symbol>, cursor: Option<Symbol>, a: Symbol, b: Symbol)
    requires Holds(xs, {a, b}) && Distinct(xs) && Visits(xs, cursor)
    requires a != b && !Before(cursor, b, a)
    ensures xs == [a, b]
  {
    assert a in xs && b in xs;
    DistinctSize(xs);
    assert (set x | x in xs) == {a, b};
    assert |{a, b}| == 2;
  }

  /** One required symbol, 1, and two relevant ones, 2 and 3; none with qualifying salience. */
  ghost predicate Crowded(o: Observation) {
    && o.sourceCut.Some? && ValidSet(o) == {1, 2, 3} && o.requiredBy == {1} && o.relevance == {2, 3}
    && forall s :: !Qualifies(o, s)
  }

  const TWO_SLOTS := Policy(2, 0, 0)

  lemma CrowdedSets(o: Observation)
    requires Crowded(o)
    ensures o.sourceCut.Some? && RequiredSet(o) == {1} && RelevantSet(o, [1]) == {2, 3} && forall s :: !Qualifies(o, s)
    ensures EventCapacity(TWO_SLOTS) == ExplorationCapacity(TWO_SLOTS) == 0 && RankedCapacity(TWO_SLOTS) == 2
  {
    assert forall s :: s in ValidSet(o) <==> Usable(o, s);
    assert 1 in ValidSet(o) && 2 in ValidSet(o) && 3 in ValidSet(o);
  }

  lemma CrowdedPlan(o: Observation, was: Body)
    requires o.sourceCut.Some? && Crowded(o)
    ensures PlanOf(o, TWO_SLOTS, was).Chosen() == [1, 2]
  {
    hide *;
    CrowdedSets(o);
    var plan := PlanOf(o, TWO_SLOTS, was);
    CrowdedFirst(o, was);
    CrowdedParts(plan, was.relevance);
    RelevantLast(o, TWO_SLOTS, was);
    RotatedPair();
  }

  lemma CrowdedParts(plan: Plan, cursor: Option<Symbol>)
    ensures Last([1], cursor) == Some(1) && [] + [] + [1] + [] == [1] && Take([2, 3], 1) == [2] && Take([1], 2) == [1]
    ensures plan.event == plan.explored == plan.ranked == [] && plan.required == [1] && plan.relevant == [2] ==>
      plan.Chosen() == [1, 2]
  {
  }

  lemma HeadQualifies(o: Observation, ranked: seq<Symbol>)
    requires o.sourceCut.Some? && forall s <- ranked :: Qualifies(o, s)
    ensures ranked != [] ==> Qualifies(o, ranked[0])
  {
  }

  lemma CrowdedFirst(o: Observation, was: Body)
    requires o.sourceCut.Some? && Crowded(o)
    ensures var plan := PlanOf(o, TWO_SLOTS, was);
      plan.event == [] && plan.explored == [] && plan.required == [1] && plan.ranked == []
  {
    hide *;
    CrowdedSets(o);
    var plan := PlanOf(o, TWO_SLOTS, was);
    EventPicks(o, TWO_SLOTS, was);
    ExploredPicks(o, TWO_SLOTS, was);
    RankedPicks(o, TWO_SLOTS, was);
    RequiredLast(o, TWO_SLOTS, was);
    OneHeld(Rotate({1}, was.relevance), 1);
    NothingChosen([1], []);
    CrowdedParts(plan, was.relevance);
    HeadQualifies(o, plan.ranked);
  }

  lemma RotatedPair()
    ensures Rotate({2, 3}, Some(1)) == [2, 3]
  {
    hide Rotate;
    TwoHeld(Rotate({2, 3}, Some(1)), Some(1), 2, 3);
  }

  /** Fairness does not extend to merely relevant symbols beside required ones. The two share a
      cursor: the required pick puts it back in every generation, so symbol 3, usable and relevant
      in all of them, is admitted in none, wherever the run starts and however long it is. */
  lemma RelevanceStarves(run: seq<Receipt>)
    requires Linked(run)
    requires forall r <- run ::
      !r.content.observation.byVolume && Crowded(r.content.observation) && r.content.policy == TWO_SLOTS
    ensures forall r <- run ::
      3 !in r.content.admitted && 3 in ValidSet(r.content.observation) && 3 in r.content.observation.relevance
  {
    hide Genuine, PlanOf, ValidSet;
    forall r | r in run ensures r.content.admitted == [1, 2] {
      var i :| 0 <= i < |run| && run[i] == r;
      GenuineSalience(r);
      CrowdedPlan(r.content.observation, r.content.prior.body);
    }
  }

  const CROWDED := Observation(true, Some(0), false,
    map[1 := Row(1, true, Some(0), true, None), 2 := Row(2, true, Some(0), true, None),
        3 := Row(3, true, Some(0), true, None)],
    [], map[], 0.0, 0, {2, 3}, {1}, [], [], [])

  lemma CrowdedExists(s: State)
    requires ValidState(s)
    ensures Crowded(CROWDED) && !CROWDED.byVolume
    ensures Precheck(CROWDED, s).None? && SalienceCheck(CROWDED).None?
  {
  }

  /** Such runs exist, of every length, from the initial state. */
  lemma {:induction false} CrowdedRun(n: nat) returns (run: seq<Receipt>)
    ensures Linked(run) && |run| == n && (n > 0 ==> run[0].content.prior == INITIAL_STATE)
    ensures forall r <- run ::
      !r.content.observation.byVolume && Crowded(r.content.observation) && r.content.policy == TWO_SLOTS
  {
    hide Admitted, Crowded, CROWDED;
    if n == 0 {
      run := [];
    } else {
      var before := CrowdedRun(n - 1);
      var s := if n == 1 then INITIAL_STATE else before[n - 2].content.next;
      if n > 1 { GenuineNext(before[n - 2]); }
      var r := CrowdedNext(s);
      run := before + [r];
    }
  }

  lemma GenuineNext(r: Receipt)
    requires Genuine(r)
    ensures ValidState(r.content.next)
  {
    IssuedVerifies(r.content.observation, r.content.policy, r.content.prior);
    hide Admitted;
  }

  lemma CrowdedNext(s: State) returns (r: Receipt)
    requires ValidState(s)
    ensures Genuine(r) && r.content.prior == s
    ensures r.content.observation == CROWDED && !CROWDED.byVolume && Crowded(CROWDED) && r.content.policy == TWO_SLOTS
  {
    CrowdedExists(s);
    hide Crowded, PlanOf, RolesValid, BoundariesValid, RankedOf, Details, Precheck, SalienceCheck, SalienceContent;
    r := Seal(SalienceContent(CROWDED, TWO_SLOTS, s, PlanOf(CROWDED, TWO_SLOTS, s.body)));
    SalienceAccounts(CROWDED, TWO_SLOTS, s);
    assert SalienceContent(CROWDED, TWO_SLOTS, s, PlanOf(CROWDED, TWO_SLOTS, s.body)).prior == s;
  }
}
