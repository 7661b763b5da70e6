/** Readers of the kernel's identity: several reads, none of them atomic with another, while the
    machine moves on underneath. What a verdict says was true at some instant of the call. */
module KernelStatus {
  import opened Wrappers
  import opened KernelIdentity

  /** The machine after the first t steps. */
  function W(steps: seq<Step>, t: nat): World
    requires t <= |steps|
  {
    After(steps[..t])
  }

  // ---------------------------------------------------------------- time

  lemma {:induction false} BornStays(steps: seq<Step>, a: nat, b: nat)
    requires a <= b <= |steps|
    ensures W(steps, a).born <= W(steps, b).born
  {
    if a < b {
      BornStays(steps, a, b - 1);
      assert steps[..b][..b - 1] == steps[..b - 1];
    }
  }

  lemma {:induction false} NotReborn(steps: seq<Step>, p: Proc, a: nat, b: nat)
    requires a <= b <= |steps| && p in W(steps, a).born && !Alive(W(steps, a), p)
    ensures !Alive(W(steps, b), p)
  {
    if a < b {
      NotReborn(steps, p, a, b - 1);
      BornStays(steps, a, b - 1);
      assert steps[..b][..b - 1] == steps[..b - 1];
    }
  }

  /** A process that existed before an instant and is alive after it was alive at that instant. */
  lemma AliveBetween(steps: seq<Step>, p: Proc, a: nat, b: nat, c: nat)
    requires a <= b <= c <= |steps| && p in W(steps, a).born && Alive(W(steps, c), p)
    ensures Alive(W(steps, b), p)
  {
    hide W;
    BornStays(steps, a, b);
    if !Alive(W(steps, b), p) {
      NotReborn(steps, p, b, c);
    }
  }

  lemma WorldAt(steps: seq<Step>, t: nat)
    requires t <= |steps|
    ensures Consistent(W(steps, t))
    ensures ReleasesCouldRead(steps) ==> RecordNamesHolder(W(steps, t))
  {
    AlwaysConsistent(steps[..t]);
    if ReleasesCouldRead(steps) {
      RecordNamesHolderAlways(steps[..t]);
    }
  }

  // ---------------------------------------------------------------- status only

  datatype Reading = NotFound | Unreadable | Readable

  /** What the reads of one call returned. */
  datatype Evidence = Evidence(
    first: Reading, second: Option<Record>, holders: Option<seq<nat>>, processes: seq<nat>, ambiguous: seq<nat>,
    ticks: Option<int>)

  datatype State = Running | NoKernel | StaleRecord | UnlockedProcess | Unknown

  datatype Reason =
    | RecordUnreadable | RecordMalformed | LockTableUnavailable | ProcessTableAmbiguous
    | LockHeldWithoutRecord | RecordDoesNotMatchHolder | HolderNotKernelRun | RecordAliveWithoutLock

  datatype Status = Status(state: State, verified: bool, reasons: seq<Reason>)

  /** The record that the call works with. */
  function RecordOf(e: Evidence): Option<Record> {
    if e.first.Readable? && Parsed(e.second) then e.second else None
  }

  /** Every read could be made and understood. */
  predicate Complete(e: Evidence) {
    !e.first.Unreadable? && (e.first.Readable? ==> Parsed(e.second)) && e.holders.Some? && e.ambiguous == []
  }

  /** The recorded process is alive with the recorded start ticks. */
  predicate RecordAlive(e: Evidence) {
    RecordOf(e).Some? && e.ticks == RecordOf(e).value.ticks
  }

  function Verdict(e: Evidence): State {
    if !Complete(e) then Unknown
    else if e.holders.value != [] then
      if RecordAlive(e) && RecordOf(e).value.pid in e.holders.value && RecordOf(e).value.pid in e.processes then Running
      else Unknown
    else if e.processes != [] then UnlockedProcess
    else if RecordAlive(e) then Unknown
    else if RecordOf(e).Some? then StaleRecord
    else NoKernel
  }

  /** The evidence that each answer stands on, read by read. UNKNOWN is left for everything else. */
  predicate Answers(e: Evidence, s: State) {
    var alive := e.first.Readable? && e.second.Some? && e.second.value.ticks.Some? && e.ticks == e.second.value.ticks;
    var known := !e.first.Unreadable? && (e.first.Readable? ==> e.second.Some? && e.second.value.ticks.Some?)
      && e.holders.Some? && e.ambiguous == [];
    && (s.Running? <==> known && alive && e.second.value.pid in e.holders.value && e.second.value.pid in e.processes)
    && (s.UnlockedProcess? <==> known && e.holders.value == [] && e.processes != [])
    && (s.StaleRecord? <==> known && e.holders.value == [] && e.processes == [] && e.first.Readable? && !alive)
    && (s.NoKernel? <==> known && e.holders.value == [] && e.processes == [] && e.first.NotFound?)
  }

  lemma VerdictAnswers(e: Evidence)
    ensures Answers(e, Verdict(e))
  {
  }

  method StatusOnly(e: Evidence) returns (out: Status)
    ensures out.state == Verdict(e) && (out.verified <==> out.state.Running?)
    ensures !Complete(e) ==> out.state.Unknown?
    ensures Answers(e, out.state)
    ensures out.state.Unknown? <==> out.reasons != []
    ensures RecordUnreadable in out.reasons <==> e.first.Unreadable?
    ensures RecordMalformed in out.reasons <==> e.first.Readable? && !Parsed(e.second)
    ensures LockTableUnavailable in out.reasons <==> e.holders.None?
    ensures ProcessTableAmbiguous in out.reasons <==> e.ambiguous != []
    ensures LockHeldWithoutRecord in out.reasons <==> Complete(e) && e.holders.value != [] && RecordOf(e).None?
    ensures RecordDoesNotMatchHolder in out.reasons <==> (Complete(e) && e.holders.value != [] && RecordOf(e).Some?
      && (RecordOf(e).value.pid !in e.holders.value || !RecordAlive(e)))
    ensures RecordAliveWithoutLock in out.reasons <==>
      Complete(e) && e.holders.value == [] && e.processes == [] && RecordAlive(e)
    ensures HolderNotKernelRun in out.reasons <==> (Complete(e) && RecordAlive(e)
      && RecordOf(e).value.pid in e.holders.value && RecordOf(e).value.pid !in e.processes)
  {
    VerdictAnswers(e);
    hide Answers;
    var reasons: seq<Reason> := [];
    var rec: Option<Record> := None;
    if e.first.Unreadable? { reasons := reasons + [RecordUnreadable]; }
    if e.first.Readable? {
      if Parsed(e.second) { rec := e.second; } else { reasons := reasons + [RecordMalformed]; }
    }
    if e.holders.None? { reasons := reasons + [LockTableUnavailable]; }
    if e.ambiguous != [] { reasons := reasons + [ProcessTableAmbiguous]; }
    if reasons != [] { return Status(Unknown, false, reasons); }
    var alive := rec.Some? && e.ticks == rec.value.ticks;
    var holders := e.holders.value;
    if holders != [] {
      if rec.None? { return Status(Unknown, false, [LockHeldWithoutRecord]); }
      if rec.value.pid !in holders || !alive { return Status(Unknown, false, [RecordDoesNotMatchHolder]); }
      if rec.value.pid !in e.processes { return Status(Unknown, false, [HolderNotKernelRun]); }
      return Status(Running, true, []);
    }
    if e.processes != [] { return Status(UnlockedProcess, false, []); }
    if alive { return Status(Unknown, false, [RecordAliveWithoutLock]); }
    out := Status(if rec.Some? then StaleRecord else NoKernel, false, []);
  }

  // ---------------------------------------------------------------- soundness

  /** The instants, in steps of the machine, at which the reads of one call took effect. */
  datatype Times = Times(first: nat, second: nat, stat: nat, table: nat, ticks: nat)

  predicate InOrder(tm: Times, steps: seq<Step>) {
    tm.first <= tm.second <= tm.stat <= tm.table <= tm.ticks <= |steps|
  }

  /** The pids that the lock table lists for the lock file. */
  function HolderPids(w: World): seq<nat> {
    var holder := HolderOf(w);
    if holder.Some? then [holder.value.pid] else []
  }

  /** Reads return what was there when they took effect, or fail; a failed read says nothing. */
  ghost predicate Observed(e: Evidence, steps: seq<Step>, tm: Times) {
    InOrder(tm, steps)
    && (e.first.NotFound? ==> W(steps, tm.first).record.None?)
    && (e.first.Readable? && e.second.Some? ==> W(steps, tm.second).record == e.second)
    && (e.holders.Some? ==>
          (e.holders.value == [] && !W(steps, tm.stat).lockFile) || e.holders.value == HolderPids(W(steps, tm.table)))
    && (RecordOf(e).Some? && e.ticks.Some? ==> Alive(W(steps, tm.ticks), Proc(RecordOf(e).value.pid, e.ticks.value)))
  }

  /** RUNNING is sound: at the instant the lock table was read, the recorded process held the lock. */
  lemma RunningSound(e: Evidence, steps: seq<Step>, tm: Times)
    requires Observed(e, steps, tm) && Verdict(e).Running?
    ensures HolderOf(W(steps, tm.table)) == Some(ProcOf(RecordOf(e).value))
  {
    var p := ProcOf(RecordOf(e).value);
    hide W;
    WorldAt(steps, tm.second);
    WorldAt(steps, tm.table);
    AliveBetween(steps, p, tm.second, tm.table, tm.ticks);
    HolderAlive(W(steps, tm.table));
  }

  lemma HolderAlive(w: World)
    requires Consistent(w) && HolderOf(w).Some?
    ensures Alive(w, HolderOf(w).value)
  {
  }

  lemma NoFileNoHolder(w: World)
    requires Consistent(w) && (!w.lockFile || HolderPids(w) == [])
    ensures w.lock.None?
  {
  }

  /** NONE and STALE_RECORD are sound: at an instant of the call nobody held the lock. */
  lemma NoneSound(e: Evidence, steps: seq<Step>, tm: Times)
    requires Observed(e, steps, tm) && (Verdict(e).NoKernel? || Verdict(e).StaleRecord?)
    ensures exists t :: tm.first <= t <= tm.ticks && W(steps, t).lock.None?
    ensures Verdict(e).NoKernel? ==> W(steps, tm.first).record.None?
  {
    hide W, HolderPids;
    WorldAt(steps, tm.stat);
    WorldAt(steps, tm.table);
    if W(steps, tm.stat).lockFile {
      NoFileNoHolder(W(steps, tm.table));
    } else {
      NoFileNoHolder(W(steps, tm.stat));
    }
  }

  /** Reads that all succeed. */
  ghost predicate Exact(e: Evidence, steps: seq<Step>, tm: Times) {
    InOrder(tm, steps) && e.ambiguous == []
    && e.first == (if W(steps, tm.first).record.Some? then Readable else NotFound)
    && e.second == W(steps, tm.second).record
    && e.holders == Some(if W(steps, tm.stat).lockFile then HolderPids(W(steps, tm.table)) else [])
    && (RecordOf(e).Some? ==>
          var live, pid := W(steps, tm.ticks).live, RecordOf(e).value.pid;
          e.ticks == if pid in live then Some(live[pid]) else None)
  }

  /** And verdicts are found: when all reads succeed while a kernel holds the lock with its record
      published, the verdict is RUNNING; while nobody holds it, no kernel process is listed and the
      record, if any, names no live process, the verdict is NONE or STALE_RECORD. */
  lemma VerdictsFound(e: Evidence, steps: seq<Step>, tm: Times, record: Option<Record>)
    requires Exact(e, steps, tm) && (record.Some? ==> Parsed(record))
    requires forall t :: tm.first <= t <= tm.ticks ==> W(steps, t).record == record
    ensures record.Some? && record.value.pid in e.processes
      && (forall t :: tm.first <= t <= tm.ticks ==> HolderOf(W(steps, t)) == Some(ProcOf(record.value)))
      ==> Verdict(e).Running?
    ensures e.processes == [] && (forall t :: tm.first <= t <= tm.ticks ==>
        W(steps, t).lock.None? && (record.Some? ==> !Alive(W(steps, t), ProcOf(record.value))))
      ==> Verdict(e) == if record.Some? then StaleRecord else NoKernel
  {
    hide W;
    WorldAt(steps, tm.stat);
    WorldAt(steps, tm.ticks);
    if HolderOf(W(steps, tm.ticks)).Some? { HolderAlive(W(steps, tm.ticks)); }
  }

  // ---------------------------------------------------------------- inspect and stop

  datatype Found = FoundRunning | FoundStale | FoundNone | FoundLegacy

  datatype Inspection = Inspection(found: Found, record: Option<Record>, verified: bool)

  /** Record, then a probe of the lock, then the ticks of the recorded process; the legacy scan
      only when the lock was free. */
  function Inspect(record: Option<Record>, held: bool, ticks: Option<int>, legacy: bool): Inspection {
    var rec := if Parsed(record) then record else None;
    Inspection(
      if !held && legacy then FoundLegacy
      else if held then FoundRunning
      else if rec.Some? then FoundStale
      else FoundNone,
      rec, held && rec.Some? && ticks == rec.value.ticks)
  }

  /** What an inspection finds, on what it read. */
  lemma InspectAnswers(record: Option<Record>, held: bool, ticks: Option<int>, legacy: bool)
    ensures var i := Inspect(record, held, ticks, legacy);
      var readable := record.Some? && record.value.ticks.Some?;
      && (i.found == FoundRunning <==> held) && (i.found == FoundLegacy <==> !held && legacy)
      && (i.found == FoundStale <==> !held && !legacy && readable)
      && (i.found == FoundNone <==> !held && !legacy && !readable)
      && i.record == (if readable then record else None)
      && (i.verified <==> held && readable && ticks == record.value.ticks)
  {
  }

  /** Times of the record read, the probe and the ticks read. */
  ghost predicate Inspected(steps: seq<Step>, a: nat, b: nat, c: nat, record: Option<Record>, held: bool,
      ticks: Option<int>) {
    a <= b <= c <= |steps|
    && (record.Some? ==> W(steps, a).record == record)
    && held == W(steps, b).lock.Some?
    && (Parsed(record) && ticks.Some? ==> Alive(W(steps, c), Proc(record.value.pid, ticks.value)))
  }

  /** A verified inspection names the process that held the lock when the record was read and that
      has been alive ever since; the verdicts of absence saw the lock free. */
  lemma InspectSound(steps: seq<Step>, a: nat, b: nat, c: nat, record: Option<Record>, held: bool,
      ticks: Option<int>, legacy: bool)
    requires Inspected(steps, a, b, c, record, held, ticks) && ReleasesCouldRead(steps)
    ensures var i := Inspect(record, held, ticks, legacy);
      && (i.verified ==> (i.found.FoundRunning? && HolderOf(W(steps, a)) == Some(ProcOf(i.record.value))
            && W(steps, a).lock == Some(OfInstance(i.record.value.instance))
            && Alive(W(steps, b), ProcOf(i.record.value)) && Alive(W(steps, c), ProcOf(i.record.value))))
      && (!i.found.FoundRunning? ==> W(steps, b).lock.None?)
  {
    hide W;
    WorldAt(steps, a);
    if Inspect(record, held, ticks, legacy).verified {
      AliveBetween(steps, ProcOf(record.value), a, a, c);
      AliveBetween(steps, ProcOf(record.value), a, b, c);
    }
  }

  /** An unverified RUNNING proves nothing: with the lock free, the probe of any process is enough
      for it, and a machine on which one process has started is already such a case. */
  lemma ProbeLooksRunning(steps: seq<Step>, pid: nat, record: Option<Record>, ticks: Option<int>, legacy: bool)
    requires After(steps).lock.None? && pid in After(steps).live
    ensures var w := After(steps + [Probe(pid)]);
      && Inspect(record, w.lock.Some?, ticks, legacy).found.FoundRunning?
      && forall i <- w.instances :: !HoldsLock(w.instances[i].stage)
    ensures After([] + [Spawn(1, 1)]).lock.None? && 1 in After([] + [Spawn(1, 1)]).live
  {
    AlwaysConsistent(steps);
    AfterMore(steps, Probe(pid));
    AlwaysConsistent(steps + [Probe(pid)]);
    AfterMore([], Spawn(1, 1));
    assert After([]) == BOOT;
    hide After;
  }

  const EXIT_STOP_TIMEOUT := 4
  const EXIT_UNVERIFIED := 5

  /** Signal the verified holder, then wait; polls are the outcomes of the lock probes made before
      the deadline. */
  method StopKernel(i: Inspection, recheck: Option<int>, polls: seq<bool>) returns (signalled: Option<nat>, exit: nat)
    requires i.verified ==> i.found.FoundRunning? && Parsed(i.record)
    ensures signalled.Some? <==> i.verified && recheck == i.record.value.ticks
    ensures signalled.Some? ==> signalled.value == i.record.value.pid
    ensures exit == 0 <==> i.found.FoundNone? || i.found.FoundStale? || (signalled.Some? && false in polls)
    ensures exit == 4 <==> signalled.Some? && false !in polls
    ensures exit in {0, 4, 5}
  {
    signalled := None;
    if i.found.FoundNone? || i.found.FoundStale? { return None, 0; }
    if i.found.FoundLegacy? || !i.verified { return None, EXIT_UNVERIFIED; }
    if recheck != i.record.value.ticks { return None, EXIT_UNVERIFIED; }
    signalled := Some(i.record.value.pid);
    var k := 0;
    while k < |polls|
      invariant 0 <= k <= |polls| && false !in polls[..k]
    {
      if !polls[k] { return signalled, 0; }
      k := k + 1;
    }
    assert polls == polls[..k];
    exit := EXIT_STOP_TIMEOUT;
  }

  /** Only a process that held the lock during the call is signalled, and it is still the one
      behind its pid at the last check. */
  lemma StopSignalsHolder(steps: seq<Step>, a: nat, b: nat, c: nat, d: nat,
      record: Option<Record>, held: bool, ticks: Option<int>, legacy: bool, recheck: Option<int>)
    requires Inspected(steps, a, b, c, record, held, ticks) && ReleasesCouldRead(steps) && c <= d <= |steps|
    requires Parsed(record) && recheck.Some? ==> Alive(W(steps, d), Proc(record.value.pid, recheck.value))
    requires Inspect(record, held, ticks, legacy).verified && recheck == record.value.ticks
    ensures HolderOf(W(steps, a)) == Some(ProcOf(record.value))
    ensures forall t :: a <= t <= d ==> Alive(W(steps, t), ProcOf(record.value))
  {
    hide W;
    InspectSound(steps, a, b, c, record, held, ticks, legacy);
    WorldAt(steps, a);
    forall t | a <= t <= d ensures Alive(W(steps, t), ProcOf(record.value)) {
      AliveBetween(steps, ProcOf(record.value), a, t, d);
    }
  }

  // ---------------------------------------------------------------- without readable records

  /** The instance holds the lock and has published. */
  predicate Published(w: World, i: nat) {
    && i in w.instances && w.instances[i].stage.Holding?
    && Parsed(w.record) && w.record.value.instance == i && ProcOf(w.record.value) == w.instances[i].proc
  }

  /** The instance releases without being able to read its record, and another process probes. */
  function UnreadRelease(steps: seq<Step>, i: nat): seq<Step> {
    steps + [ReadForRelease(i, false)] + [Unlink(i)] + [Close(i)]
  }

  /** Then an inspection that reads the record before that probe is verified, and a stop signals a
      process that is alive but held the lock at no instant of the call. */
  lemma UnreadReleaseMisleads(steps: seq<Step>, i: nat, pid: nat)
    requires Published(After(steps), i) && pid in After(steps).live && pid != After(steps).record.value.pid
    ensures var run, record := UnreadRelease(steps, i) + [Probe(pid)], After(steps).record;
      var a, b := |run| - 1, |run|;
      && Inspected(run, a, b, b, record, true, record.value.ticks)
      && Inspect(record, true, record.value.ticks, false).verified && Alive(W(run, b), ProcOf(record.value))
      && (forall t :: a <= t <= b ==> HolderOf(W(run, t)) != Some(ProcOf(record.value)))
  {
    var before, p := UnreadRelease(steps, i), ProcOf(After(steps).record.value);
    var run := before + [Probe(pid)];
    LeftBehind(steps, i);
    AfterMore(before, Probe(pid));
    assert run[..|run| - 1] == before && run[..|run|] == run;
    hide After, UnreadRelease;
    forall t | |run| - 1 <= t <= |run| ensures HolderOf(W(run, t)) != Some(p) {
      assert W(run, t) == After(before) || W(run, t) == After(run);
    }
  }

  /** What such a release leaves: the record, its live process, and a free lock. */
  lemma LeftBehind(steps: seq<Step>, i: nat)
    requires Published(After(steps), i)
    ensures var w, after := After(steps), After(UnreadRelease(steps, i));
      after.lock.None? && after.record == w.record && after.live == w.live && Alive(w, ProcOf(w.record.value))
  {
    AlwaysConsistent(steps);
    AfterMore(steps, ReadForRelease(i, false));
    AfterMore(steps + [ReadForRelease(i, false)], Unlink(i));
    AfterMore(steps + [ReadForRelease(i, false)] + [Unlink(i)], Close(i));
    hide After;
  }

  /** A kernel that has published, and a second process. */
  function TwoProcesses(): seq<Step> {
    [Spawn(1, 1), Spawn(2, 2), Open(0, 1), TryLock(0), LegacyAbsent(0, true), Publish(0, None)]
  }

  lemma TwoProcessesPublished()
    ensures var w := After(TwoProcesses()); Published(w, 0) && 2 in w.live && w.record.value.pid == 1
  {
    var s, p := TwoProcesses(), Proc(1, 1);
    var w := BOOT.(live := map[1 := 1, 2 := 2], born := {p, Proc(2, 2)});
    assert After([]) == BOOT;
    AfterMore([], s[0]);
    AfterMore([s[0]], s[1]);
    assert [] + [s[0]] == [s[0]] && [s[0]] + [s[1]] == s[..2];
    StartsKernel(s[..2], w);
    assert s[..2] + [s[2]] + [s[3]] + [s[4]] + [s[5]] == s;
  }

  lemma StartsKernel(front: seq<Step>, w: World)
    requires After(front) == w && w.live == map[1 := 1, 2 := 2] && w.lock.None? && w.instances == map[]
    ensures var after := After(front + [Open(0, 1)] + [TryLock(0)] + [LegacyAbsent(0, true)] + [Publish(0, None)]);
      Published(after, 0) && after.live == w.live && after.record.value.pid == 1
  {
    AfterMore(front, Open(0, 1));
    AfterMore(front + [Open(0, 1)], TryLock(0));
    AfterMore(front + [Open(0, 1)] + [TryLock(0)], LegacyAbsent(0, true));
    AfterMore(front + [Open(0, 1)] + [TryLock(0)] + [LegacyAbsent(0, true)], Publish(0, None));
    hide After;
  }
}
