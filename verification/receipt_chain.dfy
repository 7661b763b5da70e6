/** Committing admissions: prepare outside the writer lock, compare and swap inside it.

    Any number of callers run the same three sections; between two sections of one caller the
    others may do anything, and a caller may stop at any point. */
module ReceiptChain {
  import opened Wrappers
  import opened Rotation
  import opened Admission
  import opened AdmissionFairness

  // ---------------------------------------------------------------- the journal

  /** The two stored keys: the rotation and the latest receipt. */
  datatype Pair = Pair(state: Option<State>, receipt: Option<Receipt>)

  /** The keys and every admission event, oldest first. */
  datatype Store = Store(pair: Pair, events: seq<Receipt>)

  const NOTHING := Pair(None, None)
  const EMPTY := Store(NOTHING, [])

  datatype Failure =
    RotationOrReceiptMissing | RotationReceiptMismatch | ChangedDuringPrepare | AdmissionRefused(why: Refusal)

  datatype Outcome = Ready(receipt: Receipt) | Failed(failure: Failure)

  /** What preparing makes of the pair that was read and of the events seen after it. */
  function Prepared(original: Pair, events: seq<Receipt>, o: Observation, p: Policy): Outcome {
    if original.state.None? || original.receipt.None? then
      if original != NOTHING || events != [] then Failed(RotationOrReceiptMissing)
      else Issue(o, p, INITIAL_STATE)
    else
      var prior := VerifyReceipt(original.receipt.value);
      if prior.Refused? then Failed(AdmissionRefused(prior.why))
      else if original.state.value != prior.value.content.next then Failed(RotationReceiptMismatch)
      else Issue(o, p, original.state.value)
  }

  function Issue(o: Observation, p: Policy, s: State): Outcome {
    var r := Admitted(o, p, s);
    if r.Refused? then Failed(AdmissionRefused(r.why))
    else
      var again := VerifyReceipt(r.value);
      if again.Refused? then Failed(AdmissionRefused(again.why)) else Ready(r.value)
  }

  /** The sections one after the other, without interference. */
  function PersistAlone(store: Store, o: Observation, p: Policy): (Outcome, Store) {
    var out := Prepared(store.pair, store.events, o, p);
    if out.Failed? then (out, store)
    else
      var (failure, after) := Commit(store, store.pair, out.receipt);
      if failure.Some? then (Failed(failure.value), after) else (out, after)
  }

  /** The section under the writer lock: nothing is written unless the pair is the one read. */
  function Commit(store: Store, original: Pair, r: Receipt): (Option<Failure>, Store) {
    if store.pair != original then (Some(ChangedDuringPrepare), store)
    else if original == NOTHING && store.events != [] then (Some(RotationOrReceiptMissing), store)
    else (None, Store(Pair(Some(r.content.next), Some(r)), store.events + [r]))
  }

  class Journal {
    var state: Option<State>
    var receipt: Option<Receipt>
    var events: seq<Receipt>

    constructor ()
      ensures Contents() == EMPTY
    {
      state, receipt, events := None, None, [];
    }

    function Contents(): Store
      reads this
    {
      Store(Pair(state, receipt), events)
    }

    method Prepare(original: Pair, o: Observation, p: Policy) returns (out: Outcome)
      ensures out == Prepared(original, events, o, p)
    {
      hide VerifyReceipt, Admitted;
      var from := INITIAL_STATE;
      if original.state.None? || original.receipt.None? {
        if original != NOTHING || events != [] { return Failed(RotationOrReceiptMissing); }
      } else {
        from := original.state.value;
        var prior := VerifyReceipt(original.receipt.value);
        if prior.Refused? { return Failed(AdmissionRefused(prior.why)); }
        if from != prior.value.content.next { return Failed(RotationReceiptMismatch); }
      }
      var r := Admit(o, p, from);
      if r.Refused? { return Failed(AdmissionRefused(r.why)); }
      var again := VerifyReceipt(r.value);
      if again.Refused? { return Failed(AdmissionRefused(again.why)); }
      out := Ready(r.value);
    }

    method WriteUnderLock(original: Pair, r: Receipt) returns (failure: Option<Failure>)
      modifies this
      ensures (failure, Contents()) == Commit(old(Contents()), original, r)
    {
      if Pair(state, receipt) != original { return Some(ChangedDuringPrepare); }
      if original == NOTHING && events != [] { return Some(RotationOrReceiptMissing); }
      events := events + [r];
      state, receipt := Some(r.content.next), Some(r);
      failure := None;
    }

    method Persist(o: Observation, p: Policy) returns (out: Outcome)
      modifies this
      ensures (out, Contents()) == PersistAlone(old(Contents()), o, p)
    {
      hide Prepared;
      var original := Pair(state, receipt);
      out := Prepare(original, o, p);
      if out.Ready? {
        var failure := WriteUnderLock(original, out.receipt);
        if failure.Some? { return Failed(failure.value); }
      }
    }
  }

  // ---------------------------------------------------------------- the invariant

  /** The rotation after the given events. */
  function Current(events: seq<Receipt>): State {
    if events == [] then INITIAL_STATE else events[|events| - 1].content.next
  }

  /** The pair stored when only the first k events had happened. */
  function PairAt(events: seq<Receipt>, k: nat): Pair
    requires k <= |events|
  {
    if k == 0 then NOTHING else Pair(Some(events[k - 1].content.next), Some(events[k - 1]))
  }

  /** One unforked chain from the initial state, whose end is what is stored. */
  ghost predicate Sound(store: Store) {
    && store.pair == PairAt(store.events, |store.events|)
    && Linked(store.events)
    && (store.events != [] ==> store.events[0].content.prior == INITIAL_STATE)
  }

  /** Issuing from a state is admission from it: the receipt just issued always verifies. */
  lemma IssueIs(o: Observation, p: Policy, s: State)
    ensures var r := Admitted(o, p, s);
      Issue(o, p, s) == if r.Ok? then Ready(r.value) else Failed(AdmissionRefused(r.why))
  {
    hide Admitted, VerifyReceipt;
    if Admitted(o, p, s).Ok? { IssuedVerifies(o, p, s); }
  }

  lemma GenuineVerifies(r: Receipt)
    requires Genuine(r)
    ensures VerifyReceipt(r) == Ok(r)
  {
    hide Admitted, VerifyReceipt;
    VerifiesIff(r);
  }

  /** For any pair whatever: a half of it is refused, and nothing where events are; so is a receipt
      that does not verify, and a rotation other than the one that the receipt leads to. Otherwise
      the admission is from that rotation, or from the initial one where there is nothing yet. */
  lemma PairChecked(original: Pair, events: seq<Receipt>, o: Observation, p: Policy)
    ensures var out := Prepared(original, events, o, p);
      match (original.state, original.receipt)
      case (None, None) =>
        if events == [] then Issues(out, o, p, INITIAL_STATE) else out == Failed(RotationOrReceiptMissing)
      case (Some(state), Some(receipt)) =>
        if VerifyReceipt(receipt).Refused? then out == Failed(AdmissionRefused(VerifyReceipt(receipt).why))
        else if state != receipt.content.next then out == Failed(RotationReceiptMismatch)
        else Issues(out, o, p, state)
      case _ => out == Failed(RotationOrReceiptMissing)
  {
    hide VerifyReceipt, Admitted, Issue;
    if original.state.None? || original.receipt.None? {
      IssueIs(o, p, INITIAL_STATE);
    } else {
      VerifiesIff(original.receipt.value);
      IssueIs(o, p, original.state.value);
    }
  }

  /** The outcome of the admission itself. */
  predicate Issues(out: Outcome, o: Observation, p: Policy, s: State) {
    match Admitted(o, p, s)
    case Ok(r) => out == Ready(r)
    case Refused(why) => out == Failed(AdmissionRefused(why))
  }

  /** And a receipt is written exactly when the pair is still the one read, and is not missing where
      events are; then the two keys and the event are of that receipt. */
  lemma CommitsIff(store: Store, original: Pair, r: Receipt)
    ensures var (failure, after) := Commit(store, original, r);
      && (failure.None? <==>
            store.pair == original && (original.state.None? && original.receipt.None? ==> store.events == []))
      && after == (if failure.Some? then store
           else Store(Pair(Some(r.content.next), Some(r)), store.events + [r]))
      && (failure == Some(ChangedDuringPrepare) <==> store.pair != original)
  {
  }

  /** What preparing gives for a pair that was stored after the first k events. */
  lemma PreparedFrom(events: seq<Receipt>, k: nat, o: Observation, p: Policy)
    requires k <= |events| && forall i :: 0 <= i < |events| ==> Genuine(events[i])
    ensures Prepared(PairAt(events, k), events, o, p) ==
      if k == 0 && events != [] then Failed(RotationOrReceiptMissing) else Issue(o, p, Current(events[..k]))
  {
    hide VerifyReceipt, Admitted, Genuine, Issue;
    if k > 0 {
      GenuineVerifies(events[k - 1]);
    }
  }

  lemma IssuedExtends(o: Observation, p: Policy, s: State)
    requires Admitted(o, p, s).Ok?
    ensures var r := Admitted(o, p, s).value; Genuine(r) && r.content.prior == s
  {
    hide Admitted;
    IssuedVerifies(o, p, s);
  }

  /** A receipt prepared from the pair at k commits exactly when no event has happened since, and
      then extends the chain by itself. */
  lemma CommitExtends(store: Store, k: nat, o: Observation, p: Policy)
    requires Sound(store) && k <= |store.events| && Admitted(o, p, Current(store.events[..k])).Ok?
    ensures var r := Admitted(o, p, Current(store.events[..k])).value;
      Commit(store, PairAt(store.events, k), r) ==
        if k == |store.events| then (None, Store(Pair(Some(r.content.next), Some(r)), store.events + [r]))
        else (Some(ChangedDuringPrepare), store)
    ensures Sound(Commit(store, PairAt(store.events, k), Admitted(o, p, Current(store.events[..k])).value).1)
  {
    hide Admitted, Genuine;
    IssuedExtends(o, p, Current(store.events[..k]));
    assert store.events[..|store.events|] == store.events;
    if k < |store.events| {
      Generation(store, |store.events| - 1);
      if k > 0 { Generation(store, k - 1); }
    }
  }

  /** Without interference nothing but admission itself can refuse, and then nothing is written. */
  lemma PersistAloneExtends(store: Store, o: Observation, p: Policy)
    requires Sound(store)
    ensures var r := Admitted(o, p, Current(store.events)); var (out, after) := PersistAlone(store, o, p);
      && Sound(after)
      && (if r.Ok? then out == Ready(r.value) && after.events == store.events + [r.value]
          else out == Failed(AdmissionRefused(r.why)) && after == store)
  {
    hide Admitted, Genuine, Prepared, Issue, Commit;
    assert store.events[..|store.events|] == store.events;
    PreparedFrom(store.events, |store.events|, o, p);
    IssueIs(o, p, Current(store.events));
    if Admitted(o, p, Current(store.events)).Ok? {
      CommitExtends(store, |store.events|, o, p);
    }
  }

  /** Generations count the chain: the receipt at position k leads from generation k to k + 1. */
  lemma {:induction false} Generation(store: Store, k: nat)
    requires Sound(store) && k < |store.events|
    ensures store.events[k].content.prior.body.generation == k
    ensures store.events[k].content.next.body.generation == k + 1
  {
    hide Admitted;
    var c := store.events[k].content;
    IssuedVerifies(c.observation, c.policy, c.prior);
    if k > 0 {
      Generation(store, k - 1);
    }
  }

  /** No two committed receipts start from the same state. */
  lemma Unforked(store: Store, i: nat, j: nat)
    requires Sound(store) && i < |store.events| && j < |store.events|
    requires store.events[i].content.prior == store.events[j].content.prior
    ensures i == j
  {
    Generation(store, i);
    Generation(store, j);
  }

  // ---------------------------------------------------------------- concurrent callers

  /** A caller that has read the pair after k events keeps what it read. */
  datatype Phase =
    | Idle
    | HasRead(original: Pair)
    | HasPrepared(original: Pair, receipt: Receipt)
    | Committed(receipt: Receipt)
    | Raised(failure: Failure)

  datatype System = System(store: Store, callers: map<nat, Phase>) {
    function PhaseOf(c: nat): Phase { if c in callers then callers[c] else Idle }
    function With(c: nat, phase: Phase): System { this.(callers := callers[c := phase]) }
  }

  datatype Action =
    | ReadPair(caller: nat)
    | DoPrepare(caller: nat, o: Observation, p: Policy)
    | DoCommit(caller: nat)
    | Stop(caller: nat)

  /** One section of one caller; an action that does not fit the caller's phase does nothing. */
  function Step(s: System, a: Action): System {
    match a
    case ReadPair(c) =>
      var phase := s.PhaseOf(c);
      if phase.HasRead? || phase.HasPrepared? then s else s.With(c, HasRead(s.store.pair))
    case DoPrepare(c, o, p) =>
      var phase := s.PhaseOf(c);
      if !phase.HasRead? then s
      else
        var out := Prepared(phase.original, s.store.events, o, p);
        s.With(c, if out.Ready? then HasPrepared(phase.original, out.receipt) else Raised(out.failure))
    case DoCommit(c) =>
      var phase := s.PhaseOf(c);
      if !phase.HasPrepared? then s
      else
        var out := Commit(s.store, phase.original, phase.receipt);
        s.(store := out.1).With(c, if out.0.None? then Committed(phase.receipt) else Raised(out.0.value))
    case Stop(c) => s.With(c, Idle)
  }

  function Run(actions: seq<Action>): System {
    if actions == [] then System(EMPTY, map[]) else Step(Run(actions[..|actions| - 1]), actions[|actions| - 1])
  }

  /** The pair was stored at some earlier point of the chain. */
  ghost predicate Earlier(pair: Pair, events: seq<Receipt>) {
    exists k :: 0 <= k <= |events| && pair == PairAt(events, k)
  }

  ghost predicate CallerSound(phase: Phase, events: seq<Receipt>) {
    match phase
    case Idle => true
    case HasRead(original) => Earlier(original, events)
    case HasPrepared(original, r) =>
      exists k :: 0 <= k <= |events| && original == PairAt(events, k) && PreparedAt(events, k, r)
    case Committed(r) => r in events
    case Raised(f) =>
      f.AdmissionRefused? || (events != [] && (f.RotationOrReceiptMissing? || f.ChangedDuringPrepare?))
  }

  ghost predicate PreparedAt(events: seq<Receipt>, k: nat, r: Receipt)
    requires k <= |events|
  {
    exists o, p :: Admitted(o, p, Current(events[..k])) == Ok(r)
  }

  ghost predicate Invariant(s: System) {
    Sound(s.store) && forall c :: CallerSound(s.PhaseOf(c), s.store.events)
  }

  lemma MoreEvents(phase: Phase, events: seq<Receipt>, r: Receipt)
    requires CallerSound(phase, events)
    ensures CallerSound(phase, events + [r])
  {
    hide Admitted;
    var more := events + [r];
    match phase
    case HasRead(original) =>
      var k :| 0 <= k <= |events| && original == PairAt(events, k);
      assert original == PairAt(more, k);
    case HasPrepared(original, q) =>
      var k :| 0 <= k <= |events| && original == PairAt(events, k) && PreparedAt(events, k, q);
      assert original == PairAt(more, k) && more[..k] == events[..k];
      assert PreparedAt(more, k, q);
    case Idle =>
    case Committed(q) =>
    case Raised(f) =>
  }

  /** The other callers stay sound when the store does not shrink. */
  lemma OthersSound(s: System, c: nat, phase: Phase, store: Store)
    requires forall d :: CallerSound(s.PhaseOf(d), store.events)
    requires CallerSound(phase, store.events)
    ensures forall d :: CallerSound(s.(store := store).With(c, phase).PhaseOf(d), store.events)
  {
    hide CallerSound;
    forall d ensures CallerSound(s.(store := store).With(c, phase).PhaseOf(d), store.events) {
      if d != c { assert s.(store := store).With(c, phase).PhaseOf(d) == s.PhaseOf(d); }
    }
  }

  lemma ReadKeeps(s: System, c: nat)
    requires Invariant(s)
    ensures Invariant(Step(s, ReadPair(c)))
  {
    hide Linked, PairAt;
    var read := HasRead(s.store.pair);
    assert CallerSound(read, s.store.events) by {
      assert s.store.pair == PairAt(s.store.events, |s.store.events|);
    }
    OthersSound(s, c, read, s.store);
  }

  lemma PrepareKeeps(s: System, c: nat, o: Observation, p: Policy)
    requires Invariant(s)
    ensures Invariant(Step(s, DoPrepare(c, o, p)))
  {
    hide Prepared, Admitted, Genuine, PairAt, Current;
    var phase, events := s.PhaseOf(c), s.store.events;
    assert CallerSound(phase, events);
    if phase.HasRead? {
      var k :| 0 <= k <= |events| && phase.original == PairAt(events, k);
      PreparedFrom(events, k, o, p);
      IssueIs(o, p, Current(events[..k]));
      var out := Prepared(phase.original, events, o, p);
      if out.Ready? {
        assert PreparedAt(events, k, out.receipt);
        OthersSound(s, c, HasPrepared(phase.original, out.receipt), s.store);
      } else {
        OthersSound(s, c, Raised(out.failure), s.store);
      }
    }
  }

  lemma CommitKeeps(s: System, c: nat)
    requires Invariant(s)
    ensures Invariant(Step(s, DoCommit(c)))
  {
    hide Admitted, Genuine, PairAt, Current, Commit, Linked, Sound;
    var phase, events := s.PhaseOf(c), s.store.events;
    assert CallerSound(phase, events);
    if phase.HasPrepared? {
      var k :| 0 <= k <= |events| && phase.original == PairAt(events, k) && PreparedAt(events, k, phase.receipt);
      var o, p :| Admitted(o, p, Current(events[..k])) == Ok(phase.receipt);
      CommitExtends(s.store, k, o, p);
      var (failure, after) := Commit(s.store, phase.original, phase.receipt);
      if failure.None? {
        forall d ensures CallerSound(s.PhaseOf(d), after.events) {
          MoreEvents(s.PhaseOf(d), events, phase.receipt);
        }
        OthersSound(s, c, Committed(phase.receipt), after);
      } else {
        assert events != [];
        OthersSound(s, c, Raised(failure.value), after);
      }
    }
  }

  /** In every run of every number of callers the journal holds one unforked chain; a caller that
      was told its receipt is committed finds it there; and the stored pair is never found to
      contradict itself. */
  lemma {:induction false} ChainUnforked(actions: seq<Action>)
    ensures Invariant(Run(actions))
  {
    if actions != [] {
      var s, a := Run(actions[..|actions| - 1]), actions[|actions| - 1];
      ChainUnforked(actions[..|actions| - 1]);
      hide Invariant;
      match a
      case ReadPair(c) => ReadKeeps(s, c);
      case DoPrepare(c, o, p) => PrepareKeeps(s, c, o, p);
      case DoCommit(c) => CommitKeeps(s, c);
      case Stop(c) => StopKeeps(s, c);
    }
  }

  lemma StopKeeps(s: System, c: nat)
    requires Invariant(s)
    ensures Invariant(Step(s, Stop(c)))
  {
    hide Sound;
    OthersSound(s, c, Idle, s.store);
  }

  /** The chain only grows, and only at its end. */
  lemma {:induction false} HistoryKept(actions: seq<Action>, more: seq<Action>)
    ensures Run(actions).store.events <= Run(actions + more).store.events
  {
    if more == [] {
      assert actions + more == actions;
    } else {
      var n := |more| - 1;
      HistoryKept(actions, more[..n]);
      assert (actions + more)[..|actions + more| - 1] == actions + more[..n];
      hide Prepared;
    }
  }

  /** A pair that was stored after k events is stored again after no other number of events. */
  lemma PairsDiffer(store: Store, j: nat, k: nat)
    requires Sound(store) && j <= |store.events| && k <= |store.events|
    requires PairAt(store.events, j) == PairAt(store.events, k)
    ensures j == k
  {
    hide Genuine;
    if j > 0 { Generation(store, j - 1); }
    if k > 0 { Generation(store, k - 1); }
  }

  /** Of the callers that prepared from one and the same pair at most one commits: once c has,
      whatever happens next, d is told that the rotation changed and writes nothing. */
  lemma AtMostOneCommits(actions: seq<Action>, between: seq<Action>, c: nat, d: nat, original: Pair, r: Receipt)
    requires Run(actions).PhaseOf(c).HasPrepared? && Run(actions).PhaseOf(c).original == original
    requires Run(actions + [DoCommit(c)]).PhaseOf(c).Committed?
    requires Run(actions + [DoCommit(c)] + between).PhaseOf(d) == HasPrepared(original, r)
    ensures var s := Run(actions + [DoCommit(c)] + between);
      && Step(s, DoCommit(d)).PhaseOf(d) == Raised(ChangedDuringPrepare) && Step(s, DoCommit(d)).store == s.store
  {
    hide Prepared, Admitted, Genuine, Linked, PairAt, Current;
    var before, after := Run(actions), Run(actions + [DoCommit(c)]);
    var s := Run(actions + [DoCommit(c)] + between);
    assert (actions + [DoCommit(c)])[..|actions + [DoCommit(c)]| - 1] == actions;
    assert before.store.pair == original && |after.store.events| == |before.store.events| + 1;
    ChainUnforked(actions);
    ChainUnforked(actions + [DoCommit(c)] + between);
    HistoryKept(actions + [DoCommit(c)], between);
    assert before.store.events <= s.store.events;
    SamePair(before.store.events, s.store.events, |before.store.events|);
    if s.store.pair == original {
      PairsDiffer(s.store, |before.store.events|, |s.store.events|);
    }
  }

  lemma SamePair(events: seq<Receipt>, more: seq<Receipt>, k: nat)
    requires events <= more && k <= |events|
    ensures PairAt(events, k) == PairAt(more, k)
  {
  }

  /** So the fairness of exploration holds of what is stored, under concurrency as well: any
      stretch of the committed chain with enough salience admissions admits a symbol that was
      usable in all of them. */
  lemma StoredChainExplores(actions: seq<Action>, i: nat, j: nat, u: set<Symbol>, e: nat, s: Symbol)
    requires i <= j <= |Run(actions).store.events| && s in u && e >= 1
    requires forall r <- Run(actions).store.events[i..j] :: !r.content.observation.byVolume ==>
      && r.content.observation.sourceCut.Some? && ExplorationCapacity(r.content.policy) >= e
      && s in ValidSet(r.content.observation) && ValidSet(r.content.observation) <= u
    requires Turns(Run(actions).store.events[i..j]) * e >= |u|
    ensures exists r <- Run(actions).store.events[i..j] :: s in r.content.admitted
  {
    hide Genuine, ValidSet, ExplorationCapacity, Turns, Step;
    ChainUnforked(actions);
    ExplorationFair(Run(actions).store.events[i..j], u, e, s);
  }

  /** Two callers on an empty journal: the first reads the pair, the second commits the first
      receipt, and the first is told that a receipt is missing. */
  lemma FirstReceiptRace()
    ensures var o, p := CROWDED, TWO_SLOTS;
      var s := Run([ReadPair(0)] + [ReadPair(1)] + [DoPrepare(1, o, p)] + [DoCommit(1)] + [DoPrepare(0, o, p)]);
      && s.PhaseOf(1).Committed? && |s.store.events| == 1 && s.PhaseOf(0) == Raised(RotationOrReceiptMissing)
  {
    hide Admitted, CROWDED, TWO_SLOTS, Prepared, Issue;
    var o, p := CROWDED, TWO_SLOTS;
    CrowdedAdmitted();
    var r := Admitted(o, p, INITIAL_STATE).value;
    EmptyPrepares(o, p, r);
    RunMore([], ReadPair(0));
    RunMore([ReadPair(0)], ReadPair(1));
    RunMore([ReadPair(0)] + [ReadPair(1)], DoPrepare(1, o, p));
    RunMore([ReadPair(0)] + [ReadPair(1)] + [DoPrepare(1, o, p)], DoCommit(1));
    RunMore([ReadPair(0)] + [ReadPair(1)] + [DoPrepare(1, o, p)] + [DoCommit(1)], DoPrepare(0, o, p));
  }

  lemma RunMore(actions: seq<Action>, a: Action)
    ensures Run(actions + [a]) == Step(Run(actions), a)
  {
    hide Step;
    assert (actions + [a])[..|actions|] == actions;
  }

  lemma CrowdedAdmitted()
    ensures Admitted(CROWDED, TWO_SLOTS, INITIAL_STATE).Ok?
  {
    var r := CrowdedNext(INITIAL_STATE);
    hide Admitted, Crowded;
  }

  lemma EmptyPrepares(o: Observation, p: Policy, r: Receipt)
    requires Admitted(o, p, INITIAL_STATE) == Ok(r)
    ensures Prepared(NOTHING, [], o, p) == Ready(r)
    ensures forall events: seq<Receipt> :: events != [] ==>
      Prepared(NOTHING, events, o, p) == Failed(RotationOrReceiptMissing)
  {
    hide Admitted, VerifyReceipt, Issue;
    IssueIs(o, p, INITIAL_STATE);
  }
}
