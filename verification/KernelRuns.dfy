/** Runs of the kernel: sequences of system calls by the running task and timer interrupts. */
module KernelRuns {
  import opened Config
  import opened Schedule
  import opened KernelSpec
  import opened WellFormedness
  import opened Invariants
  import opened Startup

  datatype Event =
    | Create
    | Lock(m: int)
    | Unlock(m: int)
    | Wait(dev: nat)
    | Tick
    | Spawn(tasks: seq<TaskDesc>, addrOk: bool)

  /** One atomic step. The idle task makes no system calls. A call that suspends its caller needs a
      ready task to switch to. Tasks are created anew only while no mutex is held or awaited. */
  ghost predicate Next(s: State, e: Event, u: State) {
    && Shape(s)
    && match e
       case Tick => u == KernelSpec.Tick(s)
       case Create => s.cur != IDLE_PRIO && u == MutexCreate(s).0
       case Lock(m) => s.cur != IDLE_PRIO && s.run != map[] && u == MutexLock(s, m).0
       case Unlock(m) => s.cur != IDLE_PRIO && u == MutexUnlock(s, m).0
       case Wait(d) => s.cur != IDLE_PRIO && s.run != map[] && u == EventWait(s, d).0
       case Spawn(tasks, ok) => s.cur != IDLE_PRIO && Bootable(s) && u == TaskCreate(s, tasks, ok).0
  }

  ghost predicate IsRun(ss: seq<State>, es: seq<Event>) {
    |ss| == |es| + 1 && forall i :: 0 <= i < |es| ==> Next(ss[i], es[i], ss[i + 1])
  }

  /** A run that starts right after the first successful `task_create`. */
  ghost predicate IsSystemRun(boot: State, tasks: seq<TaskDesc>, ss: seq<State>, es: seq<Event>) {
    Bootable(boot) && IsRun(ss, es) && TaskCreate(boot, tasks, true) == (ss[0], 1)
  }

  /** Some run from boot with these tasks ends in `s`. */
  ghost predicate Reached(tasks: seq<TaskDesc>, s: State) {
    exists ss, es :: IsSystemRun(BootState(), tasks, ss, es) && s == ss[|es|]
  }

  // ---------------------------------------------------------------------------
  // Well-formedness and the invariant, over whole runs
  // ---------------------------------------------------------------------------

  lemma StepKeeps(s: State, e: Event, u: State)
    requires WellFormed(s) && Next(s, e, u)
    ensures WellFormed(u)
  {
    match e {
      case Tick => TickKeeps(s, u);
      case Create => MutexCreateKeeps(s);
      case Lock(m) => MutexLockKeeps(s, m);
      case Unlock(m) => MutexUnlockKeeps(s, m);
      case Wait(d) => EventWaitKeeps(s, d);
      case Spawn(tasks, ok) =>
        if u != s {
          var v := Populate(s, Reorder(tasks));
          PopulateYields(s, Reorder(tasks), v);
          DispatchSleepKeeps(v);
        }
    }
  }

  lemma TickClock(s: State, v: State, u: State, d: nat)
    requires Invariant(s) && v == s.(now := s.now + TIME_RESOLUTION) && Shape(u) && d < NUM_DEVICES
    requires u.nextMatch[d] == s.nextMatch[d] + if Due(v, d) then DevFreq(d) else 0
    ensures u.nextMatch[d] == NextSignal(s.epoch, DevFreq(d), v.now)
  {
    NextSignalStep(s.epoch, DevFreq(d), s.now, s.nextMatch[d]);
  }

  lemma TickInvariant(s: State, v: State, u: State)
    requires Invariant(s) && v == s.(now := s.now + TIME_RESOLUTION) && u == DevUpdate(v)
    ensures Invariant(u)
  {
    TickHolds(s, v, u);
    forall d | 0 <= d < NUM_DEVICES ensures u.nextMatch[d] == NextSignal(u.epoch, DevFreq(d), u.now) {
      TickClock(s, v, u, d);
    }
  }

  lemma WaitInvariant(s: State, d: nat, u: State)
    requires Invariant(s) && s.cur != IDLE_PRIO && s.run != map[] && u == EventWait(s, d).0
    ensures Invariant(u)
  {
    if s.tcbs[s.cur].holdsLock == 0 && d < NUM_DEVICES { EventWaitHolds(s, d, u); }
  }

  lemma LockInvariant(s: State, m: int, u: State)
    requires Invariant(s) && s.cur != IDLE_PRIO && s.run != map[] && u == MutexLock(s, m).0
    ensures Invariant(u)
  {
    MutexLockHolds(s, m, u);
    if !BadMutex(s, m) && s.mutexes[m].holder != Some(s.cur) { NeverBlocks(s, m); }
  }

  lemma SpawnInvariant(s: State, tasks: seq<TaskDesc>, ok: bool, u: State)
    requires Invariant(s) && Bootable(s) && u == TaskCreate(s, tasks, ok).0
    ensures Invariant(u)
  {
    if TaskCreate(s, tasks, ok).1 == 1 { StartsRight(s, tasks, u); }
  }

  lemma MutexStepHolds(s: State, e: Event, u: State)
    requires Invariant(s) && Next(s, e, u) && (e.Create? || e.Lock? || e.Unlock?)
    ensures Invariant(u)
  {
    match e {
      case Create => MutexCreateHolds(s, u);
      case Lock(m) => LockInvariant(s, m, u);
      case Unlock(m) => MutexUnlockHolds(s, m, u);
    }
  }

  lemma StepHolds(s: State, e: Event, u: State)
    requires Invariant(s) && Next(s, e, u)
    ensures Invariant(u)
  {
    if e.Tick? {
      TickInvariant(s, s.(now := s.now + TIME_RESOLUTION), u);
    } else if e.Wait? {
      WaitInvariant(s, e.dev, u);
    } else if e.Spawn? {
      SpawnInvariant(s, e.tasks, e.addrOk, u);
    } else {
      MutexStepHolds(s, e, u);
    }
  }

  lemma {:induction false} RunKeeps(ss: seq<State>, es: seq<Event>, i: nat)
    requires IsRun(ss, es) && WellFormed(ss[0]) && i <= |es|
    ensures WellFormed(ss[i])
  {
    if i > 0 {
      RunKeeps(ss, es, i - 1);
      StepKeeps(ss[i - 1], es[i - 1], ss[i]);
    }
  }

  /** The invariant holds in every state of every run. */
  lemma {:induction false} RunHolds(ss: seq<State>, es: seq<Event>, i: nat)
    requires IsRun(ss, es) && Invariant(ss[0]) && i <= |es|
    ensures Invariant(ss[i])
  {
    if i > 0 {
      RunHolds(ss, es, i - 1);
      StepHolds(ss[i - 1], es[i - 1], ss[i]);
    }
  }

  lemma Reachable(boot: State, tasks: seq<TaskDesc>, ss: seq<State>, es: seq<Event>, i: nat)
    requires IsSystemRun(boot, tasks, ss, es) && i <= |es|
    ensures Invariant(ss[i])
  {
    StartsRight(boot, tasks, ss[0]);
    RunHolds(ss, es, i);
  }

  lemma ReachedInvariant(tasks: seq<TaskDesc>, s: State)
    requires Reached(tasks, s)
    ensures Invariant(s)
  {
    var ss, es :| IsSystemRun(BootState(), tasks, ss, es) && s == ss[|es|];
    Reachable(BootState(), tasks, ss, es, |es|);
  }

  lemma ReachedFirst(tasks: seq<TaskDesc>, s: State)
    requires TaskCreate(BootState(), tasks, true) == (s, 1)
    ensures Reached(tasks, s)
  {
    assert IsSystemRun(BootState(), tasks, [s], []);
  }

  lemma RunGrows(ss: seq<State>, es: seq<Event>, e: Event, u: State)
    requires IsRun(ss, es) && Next(ss[|es|], e, u)
    ensures IsRun(ss + [u], es + [e])
  {
    var ss1, es1 := ss + [u], es + [e];
    forall i | 0 <= i < |es1| ensures Next(ss1[i], es1[i], ss1[i + 1]) {
      if i < |es| { assert Next(ss[i], es[i], ss[i + 1]); }
    }
  }

  lemma ReachedStep(tasks: seq<TaskDesc>, s: State, e: Event, u: State)
    requires Reached(tasks, s) && Next(s, e, u)
    ensures Reached(tasks, u)
  {
    var ss, es :| IsSystemRun(BootState(), tasks, ss, es) && s == ss[|es|];
    RunGrows(ss, es, e, u);
    assert IsSystemRun(BootState(), tasks, ss + [u], es + [e]);
  }
}
