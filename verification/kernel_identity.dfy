/** The single-kernel protocol: an exclusive lock, a published record, crashes and reused pids.

    The world below is the part of the operating system that the protocol touches. Every step is
    one system call of one process, so any interleaving of processes is a sequence of steps. */
module KernelIdentity {
  import opened Wrappers

  // ---------------------------------------------------------------- the world

  /** A process is identified by its pid and its start ticks: a pid may come back, the pair never does. */
  datatype Proc = Proc(pid: nat, ticks: int)

  /** The published identity. Ticks are absent when the publisher could not read its own, and
      then readers reject the record as malformed. */
  datatype Record = Record(instance: nat, pid: nat, ticks: Option<int>, bound: Option<nat>)

  /** The open file description that holds the lock: of a kernel instance, or of a process that
      only probes whether the lock is free. */
  datatype Handle = OfInstance(id: nat) | OfProbe(proc: Proc)

  /** Where an instance is between opening the lock file and closing it. */
  datatype Stage =
    | Opened
    | Locked
    | Holding(ticks: Option<int>)
    | Releasing(own: bool)
    | Unlinked
    | Closed

  datatype Instance = Instance(proc: Proc, stage: Stage)

  datatype World = World(
    live: map<nat, int>, born: set<Proc>, lockFile: bool, lock: Option<Handle>, record: Option<Record>,
    instances: map<nat, Instance>)

  const BOOT := World(map[], {}, false, None, None, map[])

  predicate Alive(w: World, p: Proc) {
    p.pid in w.live && w.live[p.pid] == p.ticks
  }

  predicate HoldsLock(stage: Stage) {
    stage.Locked? || stage.Holding? || stage.Releasing? || stage.Unlinked?
  }

  /** The process whose open file description holds the lock. */
  function HolderOf(w: World): Option<Proc> {
    match w.lock
    case None => None
    case Some(OfProbe(p)) => Some(p)
    case Some(OfInstance(i)) => if i in w.instances then Some(w.instances[i].proc) else None
  }

  predicate At(w: World, i: nat, stage: Stage) {
    i in w.instances && w.instances[i].stage == stage
  }

  function Move(w: World, i: nat, stage: Stage): World
    requires i in w.instances
  {
    w.(instances := w.instances[i := w.instances[i].(stage := stage)])
  }

  // ---------------------------------------------------------------- steps

  datatype Step =
    | Spawn(pid: nat, ticks: int)
    | Die(pid: nat)
    | Open(id: nat, pid: nat)
    | TryLock(id: nat)
    | LegacyFound(id: nat)
    | LegacyAbsent(id: nat, readable: bool)
    | Publish(id: nat, bound: Option<nat>)
    | ReadForRelease(id: nat, readable: bool)
    | Unlink(id: nat)
    | Close(id: nat)
    | Probe(pid: nat)
    | Unprobe

  /** The process ends, by exit or crash: the system closes what it had open. */
  function Killed(w: World, p: Proc): World {
    w.(live := w.live - {p.pid},
       lock := if HolderOf(w) == Some(p) then None else w.lock,
       instances := map i | i in w.instances ::
         if w.instances[i].proc == p then w.instances[i].(stage := Closed) else w.instances[i])
  }

  function Do(w: World, s: Step): World {
    match s
    case Spawn(pid, ticks) =>
      if pid in w.live || Proc(pid, ticks) in w.born then w
      else w.(live := w.live[pid := ticks], born := w.born + {Proc(pid, ticks)})
    case Die(pid) => if pid in w.live then Killed(w, Proc(pid, w.live[pid])) else w
    case Open(i, pid) =>
      if i in w.instances || pid !in w.live then w
      else w.(lockFile := true, instances := w.instances[i := Instance(Proc(pid, w.live[pid]), Opened)])
    case TryLock(i) =>
      if !At(w, i, Opened) then w
      else if w.lock.None? then Move(w, i, Locked).(lock := Some(OfInstance(i)))
      else Move(w, i, Closed)
    case LegacyFound(i) =>
      if !At(w, i, Locked) then w else Move(w, i, Closed).(lock := None)
    case LegacyAbsent(i, readable) =>
      if !At(w, i, Locked) then w
      else Move(w, i, Holding(if readable then Some(w.instances[i].proc.ticks) else None))
    case Publish(i, bound) =>
      if i !in w.instances || !w.instances[i].stage.Holding? then w
      else w.(record := Some(Record(i, w.instances[i].proc.pid, w.instances[i].stage.ticks, bound)))
    case ReadForRelease(i, readable) =>
      if i !in w.instances || !w.instances[i].stage.Holding? then w
      else Move(w, i, Releasing(readable && Parsed(w.record) && w.record.value.instance == i))
    case Unlink(i) =>
      if i !in w.instances || !w.instances[i].stage.Releasing? then w
      else
        var after := Move(w, i, Unlinked);
        if w.instances[i].stage.own then after.(record := None) else after
    case Close(i) =>
      if !At(w, i, Unlinked) then w else Move(w, i, Closed).(lock := None)
    case Probe(pid) =>
      if w.lock.None? && pid in w.live then w.(lockFile := true, lock := Some(OfProbe(Proc(pid, w.live[pid])))) else w
    case Unprobe =>
      if w.lock.Some? && w.lock.value.OfProbe? then w.(lock := None) else w
  }

  /** What a reader accepts as a record. */
  predicate Parsed(record: Option<Record>) {
    record.Some? && record.value.ticks.Some?
  }

  function ProcOf(r: Record): Proc
    requires r.ticks.Some?
  {
    Proc(r.pid, r.ticks.value)
  }

  function After(steps: seq<Step>): World {
    if steps == [] then BOOT else Do(After(steps[..|steps| - 1]), steps[|steps| - 1])
  }

  // ---------------------------------------------------------------- the invariant

  ghost predicate ProcsBorn(w: World) {
    && (forall pid <- w.live :: Proc(pid, w.live[pid]) in w.born)
    && (Parsed(w.record) ==> ProcOf(w.record.value) in w.born)
  }

  /** Exactly the instance in a locking stage holds the lock, and holders are alive. */
  ghost predicate LockMatches(w: World) {
    && (forall i <- w.instances :: HoldsLock(w.instances[i].stage) <==> w.lock == Some(OfInstance(i)))
    && (w.lock.Some? && w.lock.value.OfInstance? ==> w.lock.value.id in w.instances)
    && (w.lock.Some? || w.instances.Keys != {} ==> w.lockFile)
    && (forall i <- w.instances :: w.instances[i].stage != Closed ==> Alive(w, w.instances[i].proc))
    && (w.lock.Some? && w.lock.value.OfProbe? ==> Alive(w, w.lock.value.proc))
  }

  /** What an instance remembers is true of it: its ticks, and that the record it is about to
      unlink is its own. */
  ghost predicate LocalsTrue(w: World) {
    forall i <- w.instances ::
      && (w.instances[i].stage.Holding? && w.instances[i].stage.ticks.Some? ==>
            w.instances[i].stage.ticks.value == w.instances[i].proc.ticks)
      && (w.instances[i].stage == Releasing(true) ==> w.record.Some? && w.record.value.instance == i)
  }

  ghost predicate Consistent(w: World) {
    ProcsBorn(w) && LockMatches(w) && LocalsTrue(w)
  }

  /** If the record names a live process, that process holds the lock with the recorded instance. */
  ghost predicate RecordNamesHolder(w: World) {
    Parsed(w.record) && Alive(w, ProcOf(w.record.value)) ==>
      var i := w.record.value.instance;
      && w.lock == Some(OfInstance(i)) && i in w.instances && w.instances[i].proc == ProcOf(w.record.value)
      && (w.instances[i].stage.Holding? || w.instances[i].stage == Releasing(true))
  }

  lemma BornStep(w: World, s: Step)
    requires Consistent(w)
    ensures ProcsBorn(Do(w, s))
  {
    match s
    case Publish(i, bound) =>
      if i in w.instances && w.instances[i].stage.Holding? {
        assert Alive(w, w.instances[i].proc);
      }
    case _ =>
  }

  lemma LockStep(w: World, s: Step)
    requires Consistent(w)
    ensures LockMatches(Do(w, s))
  {
    hide ProcsBorn, LocalsTrue;
    if s.Die? {
      if s.pid in w.live { KilledLock(w, Proc(s.pid, w.live[s.pid])); }
    } else if s.Spawn? {
      SpawnLock(w, s.pid, s.ticks);
    } else {
      hide Alive;
    }
  }

  lemma KilledLock(w: World, p: Proc)
    requires LockMatches(w) && Alive(w, p)
    ensures LockMatches(Killed(w, p))
  {
    var after := Killed(w, p);
    forall i | i in after.instances ensures HoldsLock(after.instances[i].stage) <==> after.lock == Some(OfInstance(i)) {
      assert HoldsLock(w.instances[i].stage) <==> w.lock == Some(OfInstance(i));
    }
  }

  lemma SpawnLock(w: World, pid: nat, ticks: int)
    requires LockMatches(w)
    ensures LockMatches(Do(w, Spawn(pid, ticks)))
  {
    hide HoldsLock;
    forall i | i in w.instances && w.instances[i].stage != Closed
      ensures Alive(Do(w, Spawn(pid, ticks)), w.instances[i].proc)
    {
      assert Alive(w, w.instances[i].proc);
    }
  }

  lemma LocalsStep(w: World, s: Step)
    requires Consistent(w)
    ensures LocalsTrue(Do(w, s))
  {
  }

  lemma NamesStep(w: World, s: Step)
    requires Consistent(w) && RecordNamesHolder(w) && !(s.ReadForRelease? && !s.readable)
    ensures RecordNamesHolder(Do(w, s))
  {
  }

  /** In every interleaving an instance in a locking stage is the one and only holder of the lock. */
  lemma {:induction false} AlwaysConsistent(steps: seq<Step>)
    ensures Consistent(After(steps))
  {
    if steps != [] {
      hide ProcsBorn, LockMatches, LocalsTrue, Do;
      AlwaysConsistent(steps[..|steps| - 1]);
      BornStep(After(steps[..|steps| - 1]), steps[|steps| - 1]);
      LockStep(After(steps[..|steps| - 1]), steps[|steps| - 1]);
      LocalsStep(After(steps[..|steps| - 1]), steps[|steps| - 1]);
    }
  }

  lemma AtMostOneHolder(steps: seq<Step>, i: nat, j: nat)
    requires var w := After(steps); (i in w.instances && j in w.instances
      && HoldsLock(w.instances[i].stage) && HoldsLock(w.instances[j].stage))
    ensures i == j
  {
    AlwaysConsistent(steps);
    hide After;
  }

  /** Every release could read the record it had to compare with. */
  predicate ReleasesCouldRead(steps: seq<Step>) {
    forall s <- steps :: !(s.ReadForRelease? && !s.readable)
  }

  /** As long as releases can read the record, a record that names a live process names the
      holder of the lock: no crash, reused pid, late start or failed publication breaks it. */
  lemma {:induction false} RecordNamesHolderAlways(steps: seq<Step>)
    requires ReleasesCouldRead(steps)
    ensures RecordNamesHolder(After(steps))
  {
    if steps != [] {
      var n := |steps| - 1;
      RecordNamesHolderAlways(steps[..n]);
      AlwaysConsistent(steps[..n]);
      assert steps[n] in steps;
      hide ProcsBorn, LockMatches, LocalsTrue, RecordNamesHolder, Do;
      NamesStep(After(steps[..n]), steps[n]);
    }
  }

  /** A release undoes a publication exactly when it could read the record. When it could not, it
      closes the lock and leaves its record behind, naming a live process that holds nothing. */
  lemma ReleaseOutcome(steps: seq<Step>, i: nat, readable: bool)
    requires var w := After(steps); (i in w.instances && w.instances[i].stage.Holding? && Parsed(w.record)
      && w.record.value.instance == i && ProcOf(w.record.value) == w.instances[i].proc)
    ensures var w := After(steps + [ReadForRelease(i, readable)] + [Unlink(i)] + [Close(i)]);
      && w.lock.None? && (w.record.None? <==> readable) && (RecordNamesHolder(w) <==> readable)
  {
    AlwaysConsistent(steps);
    AfterMore(steps, ReadForRelease(i, readable));
    AfterMore(steps + [ReadForRelease(i, readable)], Unlink(i));
    AfterMore(steps + [ReadForRelease(i, readable)] + [Unlink(i)], Close(i));
    hide After;
  }

  lemma AfterMore(steps: seq<Step>, s: Step)
    ensures After(steps + [s]) == Do(After(steps), s)
  {
    assert (steps + [s])[..|steps|] == steps;
  }

  /** An instance that gives up the lock, whatever the reason, never holds it again. */
  lemma GivenUpForGood(steps: seq<Step>, s: Step, more: seq<Step>, i: nat)
    requires After(steps).lock == Some(OfInstance(i)) && After(steps + [s]).lock != Some(OfInstance(i))
    ensures After(steps + [s] + more).lock != Some(OfInstance(i))
  {
    AlwaysConsistent(steps);
    AfterMore(steps, s);
    GivenUpCloses(After(steps), s, i);
    ClosedForever(steps + [s], more, i);
    AlwaysConsistent(steps + [s] + more);
    hide After, Do;
  }

  lemma GivenUpCloses(w: World, s: Step, i: nat)
    requires Consistent(w) && w.lock == Some(OfInstance(i)) && Do(w, s).lock != Some(OfInstance(i))
    ensures At(Do(w, s), i, Closed)
  {
  }

  lemma {:induction false} ClosedForever(steps: seq<Step>, more: seq<Step>, i: nat)
    requires At(After(steps), i, Closed)
    ensures At(After(steps + more), i, Closed)
  {
    if more == [] {
      assert steps + more == steps;
    } else {
      var n := |more| - 1;
      ClosedForever(steps, more[..n], i);
      assert steps + more == steps + more[..n] + [more[n]];
      AfterMore(steps + more[..n], more[n]);
      ClosedStays(After(steps + more[..n]), more[n], i);
      hide After, Do;
    }
  }

  lemma ClosedStays(w: World, s: Step, i: nat)
    requires At(w, i, Closed)
    ensures At(Do(w, s), i, Closed)
  {
  }

  /** An unlink that removes a record removes the releasing instance's own, never a successor's. */
  lemma UnlinkRemovesOwn(steps: seq<Step>, i: nat)
    requires var w := After(steps); i in w.instances && w.instances[i].stage.Releasing?
    ensures var w, after := After(steps), Do(After(steps), Unlink(i));
      && (after.record != w.record ==> w.record.Some? && w.record.value.instance == i && after.record.None?)
      && after.lock == w.lock == Some(OfInstance(i))
  {
    AlwaysConsistent(steps);
    hide After;
  }

  /** Only the holder of the lock changes the record. */
  lemma OnlyHolderWrites(steps: seq<Step>, s: Step)
    requires Do(After(steps), s).record != After(steps).record
    ensures (s.Publish? || s.Unlink?) && After(steps).lock == Some(OfInstance(s.id))
  {
    AlwaysConsistent(steps);
    hide After;
  }
}
