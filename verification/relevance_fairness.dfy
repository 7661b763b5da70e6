/** Exactly when merely relevant symbols rotate fairly beside required ones.

    The required and the relevant loop share a cursor. With fixed sets, the required picks put the
    cursor back to the last required symbol before it; relevance gets past the next one only if its
    slots reach beyond it. */
module RelevanceFairness {
  import opened Sequences
  import opened Wrappers
  import opened Rotation
  import opened Admission
  import opened AdmissionProperties
  import opened AdmissionFairness

  // ---------------------------------------------------------------- the circle

  /** The relevant symbols between one required symbol and the next; all of them when it is alone. */
  function Arc(required: set<Symbol>, relevant: set<Symbol>, y: Symbol): set<Symbol> {
    set t | t in relevant && forall r <- required :: Before(Some(y), t, r)
  }

  /** The required symbols on the way from y to t. */
  function Between(required: set<Symbol>, y: Symbol, t: Symbol): set<Symbol> {
    set r | r in required && Before(Some(y), r, t)
  }

  /** Where the required loop leaves the cursor when it picks all required symbols. */
  function Pivot(required: set<Symbol>, cursor: Option<Symbol>): Option<Symbol> {
    Last(Rotate(required, cursor), cursor)
  }

  /** What the relevance loop picks then, and where it leaves the cursor. */
  function Picks(required: set<Symbol>, relevant: set<Symbol>, n: nat, cursor: Option<Symbol>): seq<Symbol> {
    Take(Rotate(relevant, Pivot(required, cursor)), n)
  }

  function NextCursor(required: set<Symbol>, relevant: set<Symbol>, n: nat, cursor: Option<Symbol>): Option<Symbol> {
    Last(Picks(required, relevant, n, cursor), Pivot(required, cursor))
  }

  /** The condition, on the two sets and the number of slots alone. */
  predicate Rotates(required: set<Symbol>, relevant: set<Symbol>, slots: nat) {
    || relevant == {}
    || |required| + |relevant| <= slots
    || (|required| < slots && forall y <- required :: |Arc(required, relevant, y)| < slots - |required|)
  }

  /** The pivot is the required symbol visited last from the cursor. */
  lemma PivotIs(required: set<Symbol>, cursor: Option<Symbol>)
    requires required != {}
    ensures var y := Pivot(required, cursor);
      y.Some? && y.value in required && forall r <- required :: r == y.value || Before(cursor, r, y.value)
  {
    hide Rotate, Before;
    var order := Rotate(required, cursor);
    RotateHas(required, cursor);
    RotateSize(required, cursor);
    forall r | r in required ensures r == order[|order| - 1] || Before(cursor, r, order[|order| - 1]) {
      var i :| 0 <= i < |order| && order[i] == r;
    }
  }

  /** From y past r to the last pick p, and on to t: the pivot of p lies beyond y, before t. */
  lemma PivotAdvances(y: Symbol, r: Symbol, p: Symbol, q: Symbol, t: Symbol)
    requires Before(Some(y), r, p) && Before(Some(y), p, t) && q != p
    requires (r == q || Before(Some(p), r, q)) && (y == q || Before(Some(p), y, q))
    ensures Before(Some(y), q, t) && !Before(Some(q), q, t)
    ensures forall s :: Before(Some(q), s, t) ==> Before(Some(y), s, t)
  {
  }

  // ---------------------------------------------------------------- going round

  /** The last pick reaches past a required symbol when the arc in front is shorter than the slots. */
  lemma PassesRequired(required: set<Symbol>, relevant: set<Symbol>, n: nat, y: Symbol, picks: seq<Symbol>)
    returns (r: Symbol)
    requires required !! relevant && |Arc(required, relevant, y)| < n == |picks| && Distinct(picks)
    requires Visits(picks, Some(y)) && forall x <- picks :: x in relevant
    ensures r in required && Before(Some(y), r, picks[n - 1])
  {
    hide Before, Visits, Distinct, Arc;
    var outside := LeavesSet(picks, Arc(required, relevant, y));
    r := Crossed(required, relevant, y, outside);
    FurtherPick(picks, Some(y), outside);
    PastLast(y, r, outside, picks[n - 1]);
  }

  /** When every arc is shorter than the slots, missing t moves the pivot over at least one
      required symbol towards t, and over none beyond it. */
  lemma PivotMoves(required: set<Symbol>, relevant: set<Symbol>, n: nat, cursor: Option<Symbol>, t: Symbol)
    requires required !! relevant && required != {} && t in relevant
    requires forall y <- required :: |Arc(required, relevant, y)| < n
    requires t !in Picks(required, relevant, n, cursor)
    ensures var next := NextCursor(required, relevant, n, cursor);
      && Pivot(required, cursor).Some? && Pivot(required, next).Some?
      && |Between(required, Pivot(required, next).value, t)| < |Between(required, Pivot(required, cursor).value, t)|
  {
    hide *;
    PivotIs(required, cursor);
    var y := Pivot(required, cursor).value;
    StepFrom(required, relevant, n, cursor, y);
    var picks := Picks(required, relevant, n, cursor);
    MissedPicks(relevant, n, y, t);
    var p := picks[n - 1];
    var r := PassesRequired(required, relevant, n, y, picks);
    PivotIs(required, Some(p));
    var q := Pivot(required, Some(p)).value;
    PivotAdvances(y, r, p, q, t);
    Nearer(required, y, q, t);
  }

  lemma StepFrom(required: set<Symbol>, relevant: set<Symbol>, n: nat, cursor: Option<Symbol>, y: Symbol)
    requires Pivot(required, cursor) == Some(y)
    ensures Picks(required, relevant, n, cursor) == Take(Rotate(relevant, Some(y)), n)
    ensures var picks := Picks(required, relevant, n, cursor);
      picks != [] ==> NextCursor(required, relevant, n, cursor) == Some(picks[|picks| - 1])
  {
    hide Pivot, Rotate, Take;
  }

  /** The picks that leave t out: n of them, each visited before t. */
  lemma MissedPicks(relevant: set<Symbol>, n: nat, y: Symbol, t: Symbol)
    requires t in relevant && t !in Take(Rotate(relevant, Some(y)), n)
    ensures var picks := Take(Rotate(relevant, Some(y)), n);
      && |picks| == n && Visits(picks, Some(y)) && Distinct(picks)
      && forall x <- picks :: x in relevant && Before(Some(y), x, t)
  {
    hide Rotate, Before, Visits, Distinct, Take;
    RotateHas(relevant, Some(y));
    LeftWaiting(Rotate(relevant, Some(y)), n, Some(y), t);
  }

  /** A relevant symbol outside an arc lies beyond a required one. */
  lemma Crossed(required: set<Symbol>, relevant: set<Symbol>, y: Symbol, p: Symbol) returns (r: Symbol)
    requires required !! relevant && p in relevant && p !in Arc(required, relevant, y)
    ensures r in required && Before(Some(y), r, p)
  {
    r :| r in required && !Before(Some(y), p, r);
    assert r != p;
  }

  lemma FurtherPick(picks: seq<Symbol>, cursor: Option<Symbol>, x: Symbol)
    requires Visits(picks, cursor) && x in picks
    ensures x == picks[|picks| - 1] || Before(cursor, x, picks[|picks| - 1])
  {
    var i :| 0 <= i < |picks| && picks[i] == x;
  }

  lemma PastLast(y: Symbol, r: Symbol, x: Symbol, p: Symbol)
    requires Before(Some(y), r, x) && (x == p || Before(Some(y), x, p))
    ensures Before(Some(y), r, p)
  {
  }

  lemma Nearer(required: set<Symbol>, y: Symbol, q: Symbol, t: Symbol)
    requires q in required && Before(Some(y), q, t) && !Before(Some(q), q, t)
    requires forall s :: Before(Some(q), s, t) ==> Before(Some(y), s, t)
    ensures |Between(required, q, t)| < |Between(required, y, t)|
  {
    hide Before;
    SubsetSize(Between(required, q, t) + {q}, Between(required, y, t));
  }

  // ---------------------------------------------------------------- going nowhere

  /** When an arc holds at least as many relevant symbols as there are slots, a cursor at its
      start never leaves it: the picks stay the same. */
  lemma PivotStays(required: set<Symbol>, relevant: set<Symbol>, n: nat, cursor: Option<Symbol>, y: Symbol)
    requires required !! relevant && y in required && Pivot(required, cursor) == Some(y)
    requires 0 < n <= |Arc(required, relevant, y)|
    ensures Picks(required, relevant, n, cursor) == Take(Rotate(relevant, Some(y)), n)
    ensures |Picks(required, relevant, n, cursor)| == n
    ensures Pivot(required, NextCursor(required, relevant, n, cursor)) == Some(y)
  {
    hide Pivot, Rotate, Before, Visits, Distinct, Arc;
    var order := Rotate(relevant, Some(y));
    RotateSize(relevant, Some(y));
    ArcInside(required, relevant, y);
    var p := order[n - 1];
    assert NextCursor(required, relevant, n, cursor) == Some(p);
    ArcFirst(required, relevant, y, order, n - 1);
    PivotIs(required, Some(p));
    ArcPivot(required, relevant, y, p, Pivot(required, Some(p)).value);
  }

  lemma ArcInside(required: set<Symbol>, relevant: set<Symbol>, y: Symbol)
    ensures |Arc(required, relevant, y)| <= |relevant|
  {
    SubsetSize(Arc(required, relevant, y), relevant);
  }

  /** The members of an arc are visited first. */
  lemma ArcFirst(required: set<Symbol>, relevant: set<Symbol>, y: Symbol, order: seq<Symbol>, i: nat)
    requires required !! relevant && order == Rotate(relevant, Some(y))
    requires i < |order| && i < |Arc(required, relevant, y)|
    ensures order[i] in Arc(required, relevant, y)
  {
    var arc := Arc(required, relevant, y);
    RotateHas(relevant, Some(y));
    hide Rotate, Arc;
    assert order[i] in order;
    if order[i] !in arc {
      var r := Crossed(required, relevant, y, order[i]);
      forall a | a in arc ensures a in order[..i] {
        ArcMember(required, relevant, y, a);
        var j :| 0 <= j < |order| && order[j] == a;
        if j > i { Beyond(order, Some(y), i, j, r); }
      }
      var a := NotExhausted(arc, order[..i]);
    }
  }

  lemma ArcMember(required: set<Symbol>, relevant: set<Symbol>, y: Symbol, a: Symbol)
    requires a in Arc(required, relevant, y)
    ensures a in relevant && forall r <- required :: Before(Some(y), a, r)
  {
  }

  lemma Beyond(order: seq<Symbol>, cursor: Option<Symbol>, i: nat, j: nat, r: Symbol)
    requires i < j < |order| && Visits(order, cursor) && Before(cursor, r, order[i])
    ensures !Before(cursor, order[j], r)
  {
    assert Before(cursor, order[i], order[j]);
  }

  /** From inside an arc the pivot is where the arc starts. */
  lemma ArcPivot(required: set<Symbol>, relevant: set<Symbol>, y: Symbol, p: Symbol, q: Symbol)
    requires y in required && q in required && p in Arc(required, relevant, y)
    requires y == q || Before(Some(p), y, q)
    ensures y == q
  {
    ArcMember(required, relevant, y, p);
    assert Before(Some(y), p, q);
  }

  // ---------------------------------------------------------------- no way past a long arc

  /** n picks that reach an arc with n symbols or more end inside it. */
  lemma StopsInArc(required: set<Symbol>, relevant: set<Symbol>, n: nat, y: Symbol, z: Symbol)
    requires required !! relevant && y in required && z in required && 0 < n <= |Arc(required, relevant, z)|
    ensures n <= |Rotate(relevant, Some(y))|
    ensures var p := Rotate(relevant, Some(y))[n - 1];
      Before(Some(y), z, p) ==> p in Arc(required, relevant, z)
  {
    hide Rotate, Visits, Distinct, Arc, Before;
    var order, arc := Rotate(relevant, Some(y)), Arc(required, relevant, z);
    RotateSize(relevant, Some(y));
    ArcInside(required, relevant, z);
    RotateHas(relevant, Some(y));
    var p := order[n - 1];
    assert p in order;
    if Before(Some(y), z, p) && p !in arc {
      var r := Crossed(required, relevant, z, p);
      forall a | a in arc ensures a in order[..n - 1] {
        ArcMember(required, relevant, z, a);
        Overtaken(y, z, a, r, p);
        EarlierPick(order, Some(y), a, n - 1);
      }
      var a := NotExhausted(arc, order[..n - 1]);
    }
  }

  lemma Overtaken(y: Symbol, z: Symbol, a: Symbol, r: Symbol, p: Symbol)
    requires Before(Some(y), z, p) && Before(Some(z), r, p) && Before(Some(z), a, r) && Before(Some(z), a, y)
    ensures Before(Some(y), a, p)
  {
  }

  lemma EarlierPick(order: seq<Symbol>, cursor: Option<Symbol>, a: Symbol, i: nat)
    requires i < |order| && a in order && Visits(order, cursor) && Before(cursor, a, order[i])
    ensures a in order[..i]
  {
    var j :| 0 <= j < |order| && order[j] == a;
    NotBehind(order, cursor, i, j);
    assert order[..i][j] == a;
  }

  lemma NotBehind(order: seq<Symbol>, cursor: Option<Symbol>, i: nat, j: nat)
    requires i < |order| && j < |order| && Visits(order, cursor)
    ensures i <= j ==> !Before(cursor, order[j], order[i])
  {
    if i < j { assert Before(cursor, order[i], order[j]); }
  }

  /** One generation before a short arc brings the pivot closer to a long one, and never beyond it. */
  lemma PivotNearer(required: set<Symbol>, relevant: set<Symbol>, n: nat, cursor: Option<Symbol>, y: Symbol, z: Symbol)
    returns (q: Symbol)
    requires required !! relevant && y in required && z in required && Pivot(required, cursor) == Some(y)
    requires |Arc(required, relevant, y)| < n <= |Arc(required, relevant, z)|
    ensures q in required && Pivot(required, NextCursor(required, relevant, n, cursor)) == Some(q)
    ensures q == z || |Between(required, q, z)| < |Between(required, y, z)|
  {
    hide *;
    var order := Rotate(relevant, Some(y));
    RotateHas(relevant, Some(y));
    StopsInArc(required, relevant, n, y, z);
    var picks := Take(order, n);
    StepFrom(required, relevant, n, cursor, y);
    FrontOf(order, n, Some(y));
    var p := picks[n - 1];
    var r := PassesRequired(required, relevant, n, y, picks);
    PivotIs(required, Some(p));
    q := Pivot(required, Some(p)).value;
    if p in Arc(required, relevant, z) {
      ArcPivot(required, relevant, z, p, q);
    } else {
      AheadOf(y, z, p);
      PivotAdvances(y, r, p, q, z);
      Nearer(required, y, q, z);
    }
  }

  lemma AheadOf(y: Symbol, z: Symbol, p: Symbol)
    requires !Before(Some(y), z, p) && z != p
    ensures Before(Some(y), p, z)
  {
  }

  lemma FrontOf(order: seq<Symbol>, n: nat, cursor: Option<Symbol>)
    requires n <= |order| && Visits(order, cursor) && Distinct(order)
    ensures var picks := Take(order, n);
      |picks| == n && picks == order[..n] && Visits(picks, cursor) && Distinct(picks) && forall x <- picks :: x in order
  {
    hide Before;
  }

  /** Where the cursor stands after k generations. */
  function CursorAfter(
    required: set<Symbol>, relevant: set<Symbol>, n: nat, cursor: Option<Symbol>, k: nat): Option<Symbol>
  {
    if k == 0 then cursor else NextCursor(required, relevant, n, CursorAfter(required, relevant, n, cursor, k - 1))
  }

  /** From every cursor the pivot ends up at the start of a long arc, if there is one. */
  lemma {:induction false} PivotTrapped(
    required: set<Symbol>, relevant: set<Symbol>, n: nat, cursor: Option<Symbol>, z: Symbol, k: nat, y: Symbol)
    returns (m: nat, q: Symbol)
    requires required !! relevant && z in required && 0 < n <= |Arc(required, relevant, z)| && y in required
    requires Pivot(required, CursorAfter(required, relevant, n, cursor, k)) == Some(y)
    ensures q in required && n <= |Arc(required, relevant, q)|
    ensures Pivot(required, CursorAfter(required, relevant, n, cursor, m)) == Some(q)
    decreases |Between(required, y, z)|
  {
    hide Pivot, NextCursor, Arc, Between;
    if n <= |Arc(required, relevant, y)| {
      m, q := k, y;
    } else {
      var next := PivotNearer(required, relevant, n, CursorAfter(required, relevant, n, cursor, k), y, z);
      if next == z {
        m, q := k + 1, z;
      } else {
        m, q := PivotTrapped(required, relevant, n, cursor, z, k + 1, next);
      }
    }
  }

  lemma {:induction false} TrapHolds(
    required: set<Symbol>, relevant: set<Symbol>, n: nat, cursor: Option<Symbol>, y: Symbol, m: nat, i: nat)
    requires required !! relevant && y in required && 0 < n <= |Arc(required, relevant, y)| && m <= i
    requires Pivot(required, CursorAfter(required, relevant, n, cursor, m)) == Some(y)
    ensures Pivot(required, CursorAfter(required, relevant, n, cursor, i)) == Some(y)
  {
    hide Pivot, NextCursor, Arc, Picks;
    if i > m {
      TrapHolds(required, relevant, n, cursor, y, m, i - 1);
      PivotStays(required, relevant, n, CursorAfter(required, relevant, n, cursor, i - 1), y);
    }
  }

  // ---------------------------------------------------------------- one generation

  /** Fixed usable required symbols, fixed merely relevant ones, and no qualifying salience. */
  ghost predicate Fixed(o: Observation, required: set<Symbol>, relevant: set<Symbol>) {
    && o.sourceCut.Some? && RequiredSet(o) == required && ValidSet(o) * o.relevance - required == relevant
    && forall s :: !Qualifies(o, s)
  }

  /** A policy without reserves. */
  function Unreserved(slots: nat): Policy { Policy(slots, 0, 0) }

  lemma UnreservedCapacity(slots: nat)
    ensures EventCapacity(Unreserved(slots)) == ExplorationCapacity(Unreserved(slots)) == 0
    ensures RankedCapacity(Unreserved(slots)) == slots
  {
  }

  /** Only the required and the relevant loop pick anything. */
  lemma FixedStages(o: Observation, required: set<Symbol>, relevant: set<Symbol>, slots: nat, was: Body)
    requires o.sourceCut.Some? && Fixed(o, required, relevant)
    ensures var plan := PlanOf(o, Unreserved(slots), was);
      && plan.event == [] && plan.explored == [] && plan.ranked == []
      && plan.required == Take(Rotate(required, was.relevance), slots)
  {
    hide *;
    FixedParts(o, required, relevant);
    UnreservedCapacity(slots);
    var p := Unreserved(slots);
    var plan := PlanOf(o, p, was);
    EventPicks(o, p, was);
    ExploredPicks(o, p, was);
    RankedPicks(o, p, was);
    HeadQualifies(o, plan.ranked);
    LaterStages(o, p, was);
    assert [] + [] == plan.event + plan.explored;
    NothingChosen(Rotate(required, was.relevance), []);
  }

  lemma FixedParts(o: Observation, required: set<Symbol>, relevant: set<Symbol>)
    requires o.sourceCut.Some? && Fixed(o, required, relevant)
    ensures RequiredSet(o) == required && forall s :: !Qualifies(o, s)
    ensures forall chosen: seq<Symbol> :: Holds(chosen, required) ==> RelevantSet(o, chosen) == relevant
  {
    hide Qualifies;
    forall chosen: seq<Symbol> | Holds(chosen, required) ensures RelevantSet(o, chosen) == relevant {
      SetMembers(o, chosen);
      hide Usable, RelevantSet, ValidSet, RequiredSet;
      forall s ensures s in RelevantSet(o, chosen) <==> s in relevant {
      }
    }
  }

  /** With slots to spare all required symbols are admitted, and relevance picks behind the pivot. */
  lemma FixedPlan(o: Observation, required: set<Symbol>, relevant: set<Symbol>, slots: nat, was: Body)
    requires o.sourceCut.Some? && Fixed(o, required, relevant) && |required| < slots
    ensures var plan, n := PlanOf(o, Unreserved(slots), was), slots - |required|;
      && plan.Chosen() == Rotate(required, was.relevance) + Picks(required, relevant, n, was.relevance)
      && plan.relevance == NextCursor(required, relevant, n, was.relevance)
  {
    hide *;
    var p, cursor := Unreserved(slots), was.relevance;
    var plan := PlanOf(o, p, was);
    FixedStages(o, required, relevant, slots, was);
    RotateSize(required, cursor);
    WholeTaken(Rotate(required, cursor), slots);
    UnreservedCapacity(slots);
    LaterStages(o, p, was);
    FixedParts(o, required, relevant);
    RotateHeld(required, cursor);
    NextIs(required, relevant, slots - |required|, cursor);
    OnlyTwo(plan);
  }

  lemma RotateHeld(among: set<Symbol>, cursor: Option<Symbol>)
    ensures Holds(Rotate(among, cursor), among)
  {
    hide Rotate;
  }

  lemma WholeTaken(xs: seq<Symbol>, n: nat)
    requires |xs| <= n
    ensures Take(xs, n) == xs
  {
  }

  lemma OnlyTwo(plan: Plan)
    requires plan.event == [] && plan.explored == [] && plan.ranked == []
    ensures plan.event + plan.explored + plan.required + plan.ranked == plan.required
    ensures plan.Chosen() == plan.required + plan.relevant
  {
  }

  lemma NextIs(required: set<Symbol>, relevant: set<Symbol>, n: nat, cursor: Option<Symbol>)
    ensures var picks := Take(Rotate(relevant, Last(Rotate(required, cursor), cursor)), n);
      && Picks(required, relevant, n, cursor) == picks
      && NextCursor(required, relevant, n, cursor) == Last(picks, Last(Rotate(required, cursor), cursor))
  {
    hide Rotate, Take, Last;
  }

  /** Without slots to spare nothing but required symbols is admitted. */
  lemma FixedFull(o: Observation, required: set<Symbol>, relevant: set<Symbol>, slots: nat, was: Body)
    requires o.sourceCut.Some? && Fixed(o, required, relevant) && |required| >= slots
    ensures forall s <- PlanOf(o, Unreserved(slots), was).Chosen() :: s in required
  {
    hide *;
    var p := Unreserved(slots);
    var plan := PlanOf(o, p, was);
    FixedStages(o, required, relevant, slots, was);
    RotateSize(required, was.relevance);
    RotateHas(required, was.relevance);
    FrontTaken(Rotate(required, was.relevance), slots);
    UnreservedCapacity(slots);
    RelevantPicks(o, p, was);
    OnlyTwo(plan);
  }

  lemma FrontTaken(xs: seq<Symbol>, n: nat)
    ensures n <= |xs| ==> |Take(xs, n)| == n
    ensures forall s <- Take(xs, n) :: s in xs
  {
    forall s | s in Take(xs, n) ensures s in xs { assert Take(xs, n) <= xs; }
  }

  // ---------------------------------------------------------------- runs

  ghost predicate FixedTurn(r: Receipt, required: set<Symbol>, relevant: set<Symbol>, slots: nat) {
    && !r.content.observation.byVolume && Fixed(r.content.observation, required, relevant)
    && r.content.policy == Unreserved(slots)
  }

  /** A run over fixed sets with a fixed number of slots, from any state. */
  ghost predicate FixedRun(run: seq<Receipt>, required: set<Symbol>, relevant: set<Symbol>, slots: nat) {
    Linked(run) && forall i :: 0 <= i < |run| ==> FixedTurn(run[i], required, relevant, slots)
  }

  /** Every relevant symbol is admitted at least once. */
  ghost predicate Serves(run: seq<Receipt>, relevant: set<Symbol>) {
    forall t <- relevant :: Served(run, t)
  }

  ghost predicate Served(run: seq<Receipt>, t: Symbol) {
    exists i :: 0 <= i < |run| && t in run[i].content.admitted
  }

  /** Every run of at least n generations admits every relevant symbol. */
  ghost predicate ServedWithin(required: set<Symbol>, relevant: set<Symbol>, slots: nat, n: nat) {
    forall run: seq<Receipt> :: FixedRun(run, required, relevant, slots) && |run| >= n ==> Serves(run, relevant)
  }

  /** A generation with slots to spare: what it admits and where it leaves the cursor. */
  lemma TurnSpares(r: Receipt, required: set<Symbol>, relevant: set<Symbol>, slots: nat)
    requires Genuine(r) && FixedTurn(r, required, relevant, slots) && |required| < slots
    ensures var n, cursor := slots - |required|, r.content.prior.body.relevance;
      && r.content.admitted == Rotate(required, cursor) + Picks(required, relevant, n, cursor)
      && r.content.next.body.relevance == NextCursor(required, relevant, n, cursor)
  {
    hide Genuine, PlanOf, Fixed, Rotate, Picks, NextCursor, Unreserved;
    GenuineSalience(r);
    FixedPlan(r.content.observation, required, relevant, slots, r.content.prior.body);
  }

  lemma TurnFull(r: Receipt, required: set<Symbol>, relevant: set<Symbol>, slots: nat)
    requires Genuine(r) && FixedTurn(r, required, relevant, slots) && |required| >= slots
    ensures forall s <- r.content.admitted :: s in required
  {
    hide Genuine, PlanOf, Fixed, Unreserved;
    GenuineSalience(r);
    FixedFull(r.content.observation, required, relevant, slots, r.content.prior.body);
  }

  // ---------------------------------------------------------------- enough: every symbol is served

  /** A run that misses t has brought the pivot closer to t in every generation. */
  lemma {:induction false} PivotsApproach(
    run: seq<Receipt>, required: set<Symbol>, relevant: set<Symbol>, slots: nat, t: Symbol)
    requires run != [] && FixedRun(run, required, relevant, slots) && !Served(run, t) && t in relevant
    requires required !! relevant && required != {} && |required| < slots
    requires forall y <- required :: |Arc(required, relevant, y)| < slots - |required|
    ensures var first, last := run[0].content.prior.body.relevance, run[|run| - 1].content.next.body.relevance;
      && Pivot(required, first).Some? && Pivot(required, last).Some?
      && |Between(required, Pivot(required, last).value, t)| + |run|
           <= |Between(required, Pivot(required, first).value, t)|
  {
    hide Genuine, Fixed, Rotate, Picks, NextCursor, Pivot, Between, Arc, Unreserved;
    var n := |run| - 1;
    var r := run[n];
    TurnSpares(r, required, relevant, slots);
    assert t !in r.content.admitted;
    PivotMoves(required, relevant, slots - |required|, r.content.prior.body.relevance, t);
    if n > 0 {
      assert run[..n][0] == run[0] && run[..n][n - 1] == run[n - 1];
      PivotsApproach(run[..n], required, relevant, slots, t);
    }
  }

  lemma BetweenBound(required: set<Symbol>, y: Symbol, t: Symbol)
    ensures |Between(required, y, t)| <= |required|
  {
    SubsetSize(Between(required, y, t), required);
  }

  lemma ShortArcsServe(required: set<Symbol>, relevant: set<Symbol>, slots: nat)
    requires required !! relevant && required != {} && |required| < slots
    requires forall y <- required :: |Arc(required, relevant, y)| < slots - |required|
    ensures ServedWithin(required, relevant, slots, |required| + 1)
  {
    hide FixedRun, Arc, Served;
    forall run: seq<Receipt>, t: Symbol
      | FixedRun(run, required, relevant, slots) && |run| >= |required| + 1 && t in relevant
      ensures Served(run, t)
    {
      if !Served(run, t) {
        PivotsApproach(run, required, relevant, slots, t);
        BetweenBound(required, Pivot(required, run[0].content.prior.body.relevance).value, t);
      }
    }
  }

  /** Slots for all: every generation admits everything. */
  lemma RoomServes(required: set<Symbol>, relevant: set<Symbol>, slots: nat)
    requires relevant != {} && |required| + |relevant| <= slots
    ensures ServedWithin(required, relevant, slots, 1)
  {
    hide Linked, FixedTurn, Serves;
    forall run: seq<Receipt> | FixedRun(run, required, relevant, slots) && |run| >= 1 ensures Serves(run, relevant) {
      RoomTurn(run, required, relevant, slots);
    }
  }

  lemma RoomTurn(run: seq<Receipt>, required: set<Symbol>, relevant: set<Symbol>, slots: nat)
    requires relevant != {} && |required| + |relevant| <= slots && run != [] && FixedRun(run, required, relevant, slots)
    ensures Serves(run, relevant)
  {
    hide Genuine, FixedTurn, Rotate, Pivot;
    var x := Member(relevant);
    var r, n := run[0], slots - |required|;
    assert |relevant| > 0;
    TurnSpares(r, required, relevant, slots);
    var order := Rotate(relevant, Pivot(required, r.content.prior.body.relevance));
    RotateSize(relevant, Pivot(required, r.content.prior.body.relevance));
    RotateHas(relevant, Pivot(required, r.content.prior.body.relevance));
    WholeTaken(order, n);
    forall t | t in relevant ensures Served(run, t) {
      assert t in order;
    }
  }

  /** Without required symbols relevance simply rotates. */
  lemma AloneServes(relevant: set<Symbol>, slots: nat)
    requires slots >= 1
    ensures ServedWithin({}, relevant, slots, |relevant|)
  {
    hide FixedTurn, Served, Linked;
    forall run: seq<Receipt>, t: Symbol | FixedRun(run, {}, relevant, slots) && |run| >= |relevant| && t in relevant
      ensures Served(run, t)
    {
      AloneTurns(run, relevant, slots, t);
    }
  }

  lemma AloneTurns(run: seq<Receipt>, relevant: set<Symbol>, slots: nat, t: Symbol)
    requires slots >= 1 && FixedRun(run, {}, relevant, slots) && |run| >= |relevant| && t in relevant
    ensures Served(run, t)
  {
    hide Genuine, Fixed, RankedOf, RankedCapacity, Unreserved;
    forall r: Receipt | r in run ensures RelevanceTurn(r, relevant, 1, t) && !r.content.observation.byVolume {
      var i :| 0 <= i < |run| && run[i] == r;
      AloneTurn(r, relevant, slots, t);
    }
    AllTurns(run);
    RelevanceFair(run, relevant, 1, t);
    var r :| r in run && t in r.content.admitted;
    var i :| 0 <= i < |run| && run[i] == r;
  }

  lemma {:induction false} AllTurns(run: seq<Receipt>)
    requires forall r <- run :: !r.content.observation.byVolume
    ensures Turns(run) == |run|
  {
    if run != [] {
      assert run[|run| - 1] in run;
      AllTurns(run[..|run| - 1]);
    }
  }

  lemma AloneTurn(r: Receipt, relevant: set<Symbol>, slots: nat, t: Symbol)
    requires FixedTurn(r, {}, relevant, slots) && slots >= 1 && t in relevant
    ensures RelevanceTurn(r, relevant, 1, t)
  {
    hide Qualifies, RankedCapacity, ValidSet, RequiredSet;
    var o := r.content.observation;
    HeadQualifies(o, RankedOf(o));
    UnreservedCapacity(slots);
  }

  // ---------------------------------------------------------------- not enough: some symbol starves

  /** An observation with just these symbols. */
  function Observed(required: set<Symbol>, relevant: set<Symbol>): Observation {
    Observation(true, Some(0), false, map s | s in required + relevant :: Row(s, true, Some(0), true, None),
      [], map[], 0.0, 0, relevant, required, [], [], [])
  }

  lemma ObservedIsFixed(required: set<Symbol>, relevant: set<Symbol>, s: State)
    requires required !! relevant && ValidState(s)
    ensures Fixed(Observed(required, relevant), required, relevant) && !Observed(required, relevant).byVolume
    ensures Precheck(Observed(required, relevant), s).None? && SalienceCheck(Observed(required, relevant)).None?
  {
    var o := Observed(required, relevant);
    assert forall m :: m in o.rows <==> m in required || m in relevant;
    assert forall m <- o.rows :: o.rows[m].symbol == m && Usable(o, m);
    assert RequiredSet(o) == required;
  }

  lemma FixedNext(required: set<Symbol>, relevant: set<Symbol>, slots: nat, s: State) returns (r: Receipt)
    requires required !! relevant && ValidState(s)
    ensures Genuine(r) && r.content.prior == s && FixedTurn(r, required, relevant, slots)
  {
    ObservedIsFixed(required, relevant, s);
    hide Fixed, Observed, PlanOf, RolesValid, BoundariesValid, RankedOf, Details, Precheck, SalienceCheck,
      SalienceContent;
    var o, p := Observed(required, relevant), Unreserved(slots);
    NoAnchors(required, relevant);
    r := Seal(SalienceContent(o, p, s, PlanOf(o, p, s.body)));
    SalienceAccounts(o, p, s);
    ContentOf(o, p, s);
  }

  lemma NoAnchors(required: set<Symbol>, relevant: set<Symbol>)
    ensures Observed(required, relevant).contextAnchors == [] == Observed(required, relevant).exposure
  {
  }

  lemma ContentOf(o: Observation, p: Policy, s: State)
    requires o.sourceCut.Some?
    ensures var c := SalienceContent(o, p, s, PlanOf(o, p, s.body)); c.prior == s && c.observation == o && c.policy == p
  {
    hide PlanOf, RankedOf, SignaturesOf, Details;
  }

  /** From every state there are runs of every length. */
  lemma {:induction false} FixedRunFrom(required: set<Symbol>, relevant: set<Symbol>, slots: nat, s: State, n: nat)
    returns (run: seq<Receipt>)
    requires required !! relevant && ValidState(s)
    ensures FixedRun(run, required, relevant, slots) && |run| == n && (n > 0 ==> run[0].content.prior == s)
  {
    hide Genuine, FixedTurn;
    if n == 0 {
      run := [];
    } else {
      var before := FixedRunFrom(required, relevant, slots, s, n - 1);
      if n > 1 { GenuineNext(before[n - 2]); }
      var r := FixedNext(required, relevant, slots, if n == 1 then s else before[n - 2].content.next);
      run := before + [r];
    }
  }

  lemma {:induction false} RunCursor(
    run: seq<Receipt>, required: set<Symbol>, relevant: set<Symbol>, slots: nat, i: nat)
    requires FixedRun(run, required, relevant, slots) && i < |run| && |required| < slots
    ensures run[i].content.prior.body.relevance
         == CursorAfter(required, relevant, slots - |required|, run[0].content.prior.body.relevance, i)
  {
    hide Fixed, Genuine, Unreserved, Rotate, Picks, NextCursor;
    if i > 0 {
      RunCursor(run, required, relevant, slots, i - 1);
      TurnSpares(run[i - 1], required, relevant, slots);
    }
  }

  /** In every run from the state, t is admitted by none of the generations from the n-th on. */
  ghost predicate Starves(required: set<Symbol>, relevant: set<Symbol>, slots: nat, s: State, t: Symbol, n: nat) {
    forall run: seq<Receipt>, i: nat ::
      FixedRun(run, required, relevant, slots) && n <= i < |run| && run[0].content.prior == s ==>
        t !in run[i].content.admitted
  }

  lemma LongArcStarves(required: set<Symbol>, relevant: set<Symbol>, slots: nat, z: Symbol, s: State)
    returns (t: Symbol, n: nat)
    requires required !! relevant && z in required && |required| < slots < |required| + |relevant|
    requires slots - |required| <= |Arc(required, relevant, z)|
    ensures t in relevant && Starves(required, relevant, slots, s, t, n)
  {
    hide FixedRun, Rotate, Pivot, Arc, Take;
    var room, cursor := slots - |required|, s.body.relevance;
    assert CursorAfter(required, relevant, room, cursor, 0) == cursor;
    PivotIs(required, cursor);
    var y;
    n, y := PivotTrapped(required, relevant, room, cursor, z, 0, Pivot(required, cursor).value);
    var picks := Take(Rotate(relevant, Some(y)), room);
    t := NotExhausted(relevant, picks);
    forall run: seq<Receipt>, i: nat
      | FixedRun(run, required, relevant, slots) && n <= i < |run| && run[0].content.prior == s
      ensures t !in run[i].content.admitted
    {
      TrapHolds(required, relevant, room, cursor, y, n, i);
      RunCursor(run, required, relevant, slots, i);
      TrappedTurn(run, required, relevant, slots, y, i);
    }
  }

  /** With the pivot at the start of a long arc only required symbols and its first ones are admitted. */
  lemma TrappedTurn(run: seq<Receipt>, required: set<Symbol>, relevant: set<Symbol>, slots: nat, y: Symbol, i: nat)
    requires FixedRun(run, required, relevant, slots) && i < |run|
    requires required !! relevant && y in required && |required| < slots
    requires slots - |required| <= |Arc(required, relevant, y)|
    requires Pivot(required, run[i].content.prior.body.relevance) == Some(y)
    ensures forall s <- run[i].content.admitted ::
      s in required || s in Take(Rotate(relevant, Some(y)), slots - |required|)
  {
    hide Fixed, Genuine, Unreserved, Rotate, Picks, NextCursor, Pivot, Arc, Take;
    TurnSpares(run[i], required, relevant, slots);
    PivotStays(required, relevant, slots - |required|, run[i].content.prior.body.relevance, y);
    RotateHas(required, run[i].content.prior.body.relevance);
  }

  lemma FullStarves(required: set<Symbol>, relevant: set<Symbol>, slots: nat, s: State, t: Symbol)
    requires required !! relevant && t in relevant && |required| >= slots
    ensures Starves(required, relevant, slots, s, t, 0)
  {
    hide FixedTurn, Linked, Genuine;
    forall run: seq<Receipt>, i: nat | FixedRun(run, required, relevant, slots) && i < |run|
      ensures t !in run[i].content.admitted
    {
      GenuineIn(run, i);
      TurnFull(run[i], required, relevant, slots);
    }
  }

  lemma GenuineIn(run: seq<Receipt>, i: nat)
    requires Linked(run) && i < |run|
    ensures Genuine(run[i])
  {
  }

  /** Outside the condition, every state has a relevant symbol that is never admitted again after
      finitely many generations. */
  lemma EveryStateStarves(required: set<Symbol>, relevant: set<Symbol>, slots: nat, s: State)
    returns (t: Symbol, n: nat)
    requires required !! relevant && !Rotates(required, relevant, slots)
    ensures t in relevant && Starves(required, relevant, slots, s, t, n)
  {
    hide Starves, Arc;
    if |required| >= slots {
      t := Member(relevant);
      n := 0;
      FullStarves(required, relevant, slots, s, t);
    } else {
      var z :| z in required && |Arc(required, relevant, z)| >= slots - |required|;
      t, n := LongArcStarves(required, relevant, slots, z, s);
    }
  }

  lemma LaterRun(run: seq<Receipt>, required: set<Symbol>, relevant: set<Symbol>, slots: nat, k: nat)
    requires FixedRun(run, required, relevant, slots) && k <= |run|
    ensures FixedRun(run[k..], required, relevant, slots)
  {
    hide FixedTurn, Genuine;
  }

  lemma NeverServed(required: set<Symbol>, relevant: set<Symbol>, slots: nat, n: nat)
    requires required !! relevant && !Rotates(required, relevant, slots)
    ensures !ServedWithin(required, relevant, slots, n)
  {
    hide FixedRun, Rotates;
    var t, k := EveryStateStarves(required, relevant, slots, INITIAL_STATE);
    var run := FixedRunFrom(required, relevant, slots, INITIAL_STATE, k + n);
    LaterRun(run, required, relevant, slots, k);
    assert !Served(run[k..], t);
  }

  // ---------------------------------------------------------------- exactly when

  /** Over fixed sets, without reserves and qualifying salience: there is a number of generations
      within which every run, from every cursor, admits every merely relevant symbol, exactly when
      there are slots for all, or when some are left beside the required symbols and every arc
      between neighbouring required symbols holds fewer relevant symbols than are left. */
  lemma RelevanceFairIff(required: set<Symbol>, relevant: set<Symbol>, slots: nat)
    requires required !! relevant
    ensures Rotates(required, relevant, slots) <==> exists n: nat :: ServedWithin(required, relevant, slots, n)
  {
    hide ServedWithin, Arc;
    if relevant == {} {
      NothingToServe(required, slots);
    } else if |required| + |relevant| <= slots {
      RoomServes(required, relevant, slots);
    } else if !Rotates(required, relevant, slots) {
      forall n: nat ensures !ServedWithin(required, relevant, slots, n) {
        NeverServed(required, relevant, slots, n);
      }
    } else if required == {} {
      AloneServes(relevant, slots);
    } else {
      ShortArcsServe(required, relevant, slots);
    }
  }

  lemma NothingToServe(required: set<Symbol>, slots: nat)
    ensures ServedWithin(required, {}, slots, 0)
  {
  }

  /** The smallest failing case: two slots, one required symbol and two relevant ones. */
  lemma CrowdedStarves()
    ensures !Rotates({1}, {2, 3}, 2)
  {
    assert Arc({1}, {2, 3}, 1) == {2, 3};
    assert |{2, 3}| == 2;
  }
}
