/** The object that a kernel keeps for its life: acquire, bind, release, each running on its own
    against the machine. */
module KernelInstance {
  import opened Wrappers
  import opened KernelIdentity

  datatype Refusal = WrongRevision | LockHeld(record: Option<Record>) | LegacyProcess

  class Machine {
    var world: World

    constructor ()
      ensures world == BOOT
    {
      world := BOOT;
    }

    method System(s: Step)
      modifies this
      ensures world == Do(old(world), s)
    {
      world := Do(world, s);
    }
  }

  /** What a reader gets from the record file: nothing when it is absent or malformed. */
  function ReadRecord(w: World): Option<Record> {
    if Parsed(w.record) then w.record else None
  }

  /** The machine after an acquisition that nothing interrupts. */
  function Acquired(w: World, id: nat, pid: nat, legacy: bool, readable: bool): World {
    var tried := Do(Do(w, Open(id, pid)), TryLock(id));
    if !At(tried, id, Locked) then tried
    else if legacy then Do(tried, LegacyFound(id))
    else Do(Do(tried, LegacyAbsent(id, readable)), Publish(id, None))
  }

  /** The machine after a release that nothing interrupts. */
  function Released(w: World, id: nat, readable: bool): World {
    Do(Do(Do(w, ReadForRelease(id, readable)), Unlink(id)), Close(id))
  }

  class Kernel {
    const machine: Machine
    const id: nat
    const pid: nat
    var hasLock: bool
    var record: Option<Record>

    constructor (machine: Machine, id: nat, pid: nat)
      ensures this.machine == machine && this.id == id && this.pid == pid && !hasLock && record.None?
    {
      this.machine, this.id, this.pid := machine, id, pid;
      hasLock, record := false, None;
    }

    /** The object and the machine agree on whether this instance has the lock, and on its record. */
    ghost predicate Valid()
      reads this, machine
    {
      && Consistent(machine.world)
      && (hasLock ==>
           && id in machine.world.instances && machine.world.instances[id].stage.Holding?
           && record.Some? && record.value.instance == id
           && machine.world.instances[id].proc.pid == record.value.pid == pid
           && machine.world.instances[id].stage.ticks == record.value.ticks)
    }

    /** A checkout that is not the expected revision is refused before the lock file is opened. */
    method Acquire(expected: bool, legacy: bool, readable: bool) returns (refused: Option<Refusal>)
      requires Valid() && !hasLock && pid in machine.world.live && id !in machine.world.instances
      modifies this, machine
      ensures Valid()
      ensures machine.world ==
        if expected then Acquired(old(machine.world), id, pid, legacy, readable) else old(machine.world)
      ensures hasLock == refused.None? == (expected && old(machine.world).lock.None? && !legacy)
      ensures refused == Some(WrongRevision) <==> !expected
      ensures refused == Some(LegacyProcess) <==> expected && old(machine.world).lock.None? && legacy
      ensures expected && old(machine.world).lock.Some? ==> (
        var found := old(machine.world).record;
        refused == Some(LockHeld(if found.Some? && found.value.ticks.Some? then found else None)))
      ensures hasLock ==> record == machine.world.record && record.Some?
      ensures hasLock ==>
        record.value.ticks == (if readable then Some(machine.world.live[pid]) else None) && record.value.bound.None?
      ensures !hasLock ==>
        machine.world.record == old(machine.world).record && machine.world.lock == old(machine.world).lock
    {
      hide ProcsBorn, LockMatches, LocalsTrue;
      if !expected { return Some(WrongRevision); }
      KeepsConsistent(machine.world, Open(id, pid));
      machine.System(Open(id, pid));
      KeepsConsistent(machine.world, TryLock(id));
      machine.System(TryLock(id));
      if !At(machine.world, id, Locked) {
        return Some(LockHeld(ReadRecord(machine.world)));
      }
      if legacy {
        KeepsConsistent(machine.world, LegacyFound(id));
        machine.System(LegacyFound(id));
        return Some(LegacyProcess);
      }
      KeepsConsistent(machine.world, LegacyAbsent(id, readable));
      machine.System(LegacyAbsent(id, readable));
      hasLock := true;
      record := Some(Record(id, pid, machine.world.instances[id].stage.ticks, None));
      KeepsConsistent(machine.world, Publish(id, None));
      machine.System(Publish(id, None));
      refused := None;
    }

    method BindHeartbeat(heartbeat: nat)
      requires Valid() && hasLock
      modifies this, machine
      ensures Valid() && hasLock && machine.world == Do(old(machine.world), Publish(id, Some(heartbeat)))
      ensures record == machine.world.record == Some(old(record).value.(bound := Some(heartbeat)))
    {
      hide ProcsBorn, LockMatches, LocalsTrue;
      record := Some(record.value.(bound := Some(heartbeat)));
      KeepsConsistent(machine.world, Publish(id, Some(heartbeat)));
      machine.System(Publish(id, Some(heartbeat)));
    }

    /** Unlinking comes before closing, and only of the own record. */
    method Release(readable: bool)
      requires Valid()
      modifies this, machine
      ensures Valid() && !hasLock
      ensures old(hasLock) ==> machine.world == Released(old(machine.world), id, readable)
      ensures old(hasLock) ==> machine.world.lock.None?
      ensures old(hasLock) ==> (machine.world.record == (
        if readable && Parsed(old(machine.world).record) && old(machine.world).record.value.instance == id then None
        else old(machine.world).record))
      ensures !old(hasLock) ==> machine.world == old(machine.world)
    {
      hide ProcsBorn, LockMatches, LocalsTrue;
      if hasLock {
        KeepsConsistent(machine.world, ReadForRelease(id, readable));
        machine.System(ReadForRelease(id, readable));
        KeepsConsistent(machine.world, Unlink(id));
        machine.System(Unlink(id));
        KeepsConsistent(machine.world, Close(id));
        machine.System(Close(id));
        hasLock := false;
      }
    }
  }

  lemma KeepsConsistent(w: World, s: Step)
    requires Consistent(w)
    ensures Consistent(Do(w, s))
  {
    BornStep(w, s);
    LockStep(w, s);
    LocalsStep(w, s);
  }

  lemma AcquiredHolds(w: World, id: nat, pid: nat)
    requires Consistent(w) && w.lock.None? && pid in w.live && id !in w.instances
    ensures var held := Acquired(w, id, pid, false, true);
      && held.lock == Some(OfInstance(id)) && Parsed(held.record) && held.live == w.live
      && held.record.value.instance == id && ProcOf(held.record.value) == Proc(pid, w.live[pid])
      && id in held.instances && held.instances[id] == Instance(Proc(pid, w.live[pid]), Holding(Some(w.live[pid])))
      && held.instances.Keys == w.instances.Keys + {id} && RecordNamesHolder(held)
  {
    hide Consistent;
  }

  /** Acquiring and releasing again leaves neither lock nor record, whatever stale record a crash
      had left, and any other instance can acquire next. */
  lemma AcquireThenRelease(w: World, id: nat, pid: nat, next: nat, q: nat)
    requires Consistent(w) && w.lock.None? && pid in w.live && id !in w.instances
    requires next !in w.instances && next != id && q in w.live
    ensures var held := Acquired(w, id, pid, false, true);
      var gone := Released(held, id, true);
      && RecordNamesHolder(held) && gone.lock.None? && gone.record.None?
      && Acquired(gone, next, q, false, true).lock == Some(OfInstance(next))
  {
    hide *;
    AcquiredHolds(w, id, pid);
    var held := Acquired(w, id, pid, false, true);
    ReleasedFrees(held, id);
    FreeAcquires(Released(held, id, true), next, q);
  }

  lemma ReleasedFrees(held: World, id: nat)
    requires held.lock == Some(OfInstance(id)) && Parsed(held.record) && held.record.value.instance == id
    requires id in held.instances && held.instances[id].stage.Holding?
    ensures var gone := Released(held, id, true);
      gone.lock.None? && gone.record.None? && gone.live == held.live && gone.instances.Keys == held.instances.Keys
  {
  }

  lemma FreeAcquires(w: World, id: nat, pid: nat)
    requires w.lock.None? && pid in w.live && id !in w.instances
    ensures Acquired(w, id, pid, false, true).lock == Some(OfInstance(id))
  {
  }

  /** While one instance holds the lock no other acquires it, and the attempt changes neither the
      lock nor the record. */
  lemma SecondAcquireRefused(w: World, id: nat, pid: nat, legacy: bool, readable: bool)
    requires Consistent(w) && w.lock.Some? && pid in w.live && id !in w.instances
    ensures var after := Acquired(w, id, pid, legacy, readable);
      after.lock == w.lock && after.record == w.record && At(after, id, Closed)
  {
  }
}
