/** Runs from boot that reach the states in which the kernel falls short: an unlock that leaves a
    better task ready, and a `dev_wait` interrupted in its window. */
module Scenarios {
  import opened Config
  import opened Schedule
  import opened KernelSpec
  import opened Invariants
  import opened Startup
  import opened KernelRuns
  import opened KernelTheorems
  import opened WaitWindow

  /** Two light tasks of periods 50 and 100. */
  function TwoTasks(): seq<TaskDesc> {
    [TaskDesc(0, 0, 0, 1, 50, 0), TaskDesc(0, 0, 0, 1, 100, 0)]
  }

  // ---------------------------------------------------------------------------
  // First steps
  // ---------------------------------------------------------------------------

  lemma TwoTasksFit(s: State)
    requires Shape(s)
    ensures TaskCreate(s, TwoTasks(), true).1 == 1
  {
    var a, b := TaskDesc(0, 0, 0, 1, 50, 0), TaskDesc(0, 0, 0, 1, 100, 0);
    assert TwoTasks() == [a] + [b] && [b] == [b] + [];
    LoadOfCons(a, [b]);
    LoadOfCons(b, []);
    CountsOfCons(a, [b], 0);
    CountsOfCons(b, [], 0);
    AcceptedWithoutBlockingIff(s, TwoTasks(), true);
  }

  /** Task 1 runs, task 2 is ready, no device has signalled, no mutex is held. */
  ghost predicate JustStarted(s: State) {
    && Invariant(s) && s.numTasks == 2 && s.cur == 1 && s.run.Keys == {2, IDLE_PRIO} && s.now == 0
    && (forall d :: 0 <= d < NUM_DEVICES ==> s.queues[d] == [] && s.nextMatch[d] == DevFreq(d))
    && s.tcbs[1].holdsLock == 0
  }

  lemma TwoTasksPopulated(boot: State, v: State)
    requires boot == BootState() && v == Populate(boot, Reorder(TwoTasks()))
    ensures v.run.Keys == {1, 2, IDLE_PRIO} && v.now == 0 && v.curMutexNum == 0 && v.numTasks == 2
    ensures forall d :: 0 <= d < NUM_DEVICES ==> v.queues[d] == [] && v.nextMatch[d] == DevFreq(d)
    ensures v.tcbs[1].holdsLock == 0
  {
    assert forall p: Slot :: p in v.run <==> InUse(p, 2);
  }

  lemma Starts() returns (s: State)
    ensures Reached(TwoTasks(), s) && JustStarted(s) && s.curMutexNum == 0
  {
    var boot, tasks := BootState(), TwoTasks();
    BootStateBoots();
    TwoTasksFit(boot);
    s := TaskCreate(boot, tasks, true).0;
    ReachedFirst(tasks, s);
    StartedWell(boot, tasks, Populate(boot, Reorder(tasks)), s);
  }

  lemma StartedWell(boot: State, tasks: seq<TaskDesc>, v: State, s: State)
    requires boot == BootState() && tasks == TwoTasks() && Bootable(boot)
    requires TaskCreate(boot, tasks, true) == (s, 1) && v == Populate(boot, Reorder(tasks))
    ensures JustStarted(s) && s.curMutexNum == 0
  {
    FirstDispatch(boot, tasks, v, s);
    StartsRight(boot, tasks, s);
    TwoTasksPopulated(boot, v);
  }

  /** Nothing but the clock moves while no device is due. */
  lemma QuietTick(s: State, u: State)
    requires Invariant(s) && forall d :: 0 <= d < NUM_DEVICES ==> s.now + TIME_RESOLUTION < s.nextMatch[d]
    requires u == s.(now := s.now + TIME_RESOLUTION)
    ensures Next(s, Event.Tick, u)
  {
    var t := KernelSpec.Tick(s);
    TickHolds(s, u, t);
    assert forall d :: 0 <= d < NUM_DEVICES ==> !Due(u, d);
    assert t.queues == s.queues && t.nextMatch == s.nextMatch;
  }

  lemma {:induction false} QuietTicks(tasks: seq<TaskDesc>, s: State, n: nat, u: State)
    requires Reached(tasks, s) && u == s.(now := s.now + n * TIME_RESOLUTION)
    requires Shape(s) && forall d :: 0 <= d < NUM_DEVICES ==> s.now + n * TIME_RESOLUTION < s.nextMatch[d]
    ensures Reached(tasks, u)
  {
    if n > 0 {
      var v := s.(now := s.now + (n - 1) * TIME_RESOLUTION);
      QuietTicks(tasks, s, n - 1, v);
      ReachedInvariant(tasks, v);
      QuietTick(v, u);
      ReachedStep(tasks, v, Event.Tick, u);
    }
  }

  /** Task 1 waits for device 3, the one of period 50, and task 2 runs. */
  ghost predicate FirstWaits(s: State) {
    && Invariant(s) && s.numTasks == 2 && s.cur == 2 && s.run.Keys == {IDLE_PRIO} && s.queues[3] == [1]
    && (forall d :: 0 <= d < NUM_DEVICES ==> s.nextMatch[d] == DevFreq(d))
    && (forall d :: 0 <= d < 3 ==> s.queues[d] == [])
    && s.tcbs[2].holdsLock == 0
  }

  lemma OneWaits(s: State, u: State)
    requires JustStarted(s) && u == EventWait(s, 3).0
    ensures Next(s, Wait(3), u) && FirstWaits(u) && u.now == s.now && u.mutexes == s.mutexes
    ensures u.curMutexNum == s.curMutexNum
  {
    EventWaitHolds(s, 3, u);
    assert Next(s, Wait(3), u);
    StepHolds(s, Wait(3), u);
    assert 2 in s.run.Keys && u.cur in s.run.Keys;
    assert 2 !in u.run ==> u.cur == 2;
    NothingHeld(s);
  }

  // ---------------------------------------------------------------------------
  // The window in dev_wait
  // ---------------------------------------------------------------------------

  lemma FirstAboutToWake(s: State, d: nat, v: State)
    requires FirstWaits(s) && s.now == 45 && d < NUM_DEVICES && v == InWindow(s, d)
    ensures Preempts(s, v) && (Due(v, d) <==> d == 3)
  {
    assert Due(v, 3) && 1 in v.queues[3];
    var p: Slot := 1;
    assert WokenBelow(v, NUM_DEVICES, p) && SomeoneDue(v);
    assert DevFreq(0) == 100 && DevFreq(1) == 200 && DevFreq(2) == 500;
  }

  lemma WaitsUntilWoken() returns (s: State)
    ensures Reached(TwoTasks(), s) && FirstWaits(s) && s.now == 45
  {
    var a := Starts();
    var b := EventWait(a, 3).0;
    OneWaits(a, b);
    ReachedStep(TwoTasks(), a, Wait(3), b);
    s := b.(now := 45);
    QuietTicks(TwoTasks(), b, 9, s);
    ReachedInvariant(TwoTasks(), s);
  }

  /** Both ways to go wrong are real: after 45 ms of this run, task 2 may call `dev_wait` on device 3
      and lose itself, or on device 0 and be in two places, if the next interrupt hits the window. */
  lemma WindowGoesWrong() returns (s: State)
    ensures Reached(TwoTasks(), s) && s.cur == 2
    ensures CanWait(s, 3) && Preempts(s, InWindow(s, 3)) && Due(InWindow(s, 3), 3)
    ensures CanWait(s, 0) && Preempts(s, InWindow(s, 0)) && !Due(InWindow(s, 0), 0)
  {
    s := WaitsUntilWoken();
    FirstAboutToWake(s, 3, InWindow(s, 3));
    FirstAboutToWake(s, 0, InWindow(s, 0));
  }

  // ---------------------------------------------------------------------------
  // An unlock that leaves a better task ready
  // ---------------------------------------------------------------------------

  /** Task 2 holds mutex 0 while task 1 waits for device 3. */
  ghost predicate SecondLocks(s: State) {
    && Invariant(s) && s.cur == 2 && s.queues[3] == [1] && s.tcbs[2].holdsLock == 1
    && s.mutexes[0].holder == Some(2)
    && (forall d :: 0 <= d < NUM_DEVICES ==> s.nextMatch[d] == DevFreq(d))
  }

  lemma Creates(s: State, u: State)
    requires JustStarted(s) && s.curMutexNum == 0 && u == MutexCreate(s).0
    ensures Next(s, Create, u) && JustStarted(u) && !u.mutexes[0].available && u.mutexes[0].holder == None
  {
    assert Next(s, Create, u);
    StepHolds(s, Create, u);
    NothingHeld(s);
  }

  lemma Locks(s: State, u: State)
    requires FirstWaits(s) && !s.mutexes[0].available && s.mutexes[0].holder == None && u == MutexLock(s, 0).0
    ensures Next(s, Lock(0), u) && SecondLocks(u) && u.now == s.now
  {
    NeverDry(s);
    assert Next(s, Lock(0), u);
    StepHolds(s, Lock(0), u);
    NeverBlocks(s, 0);
  }

  /** The tick that wakes task 1 does not interrupt the critical section. */
  lemma WokenInside(s: State, v: State, u: State)
    requires SecondLocks(s) && s.now == 45 && v == s.(now := 50) && u == DevUpdate(v)
    ensures Next(s, Event.Tick, u) && Invariant(u) && u.cur == 2 && 1 in u.run
    ensures u.tcbs[2].holdsLock == 1 && u.mutexes[0].holder == Some(2) && !u.mutexes[0].available
  {
    assert Next(s, Event.Tick, u);
    StepHolds(s, Event.Tick, u);
    TickHolds(s, v, u);
    assert u.mutexes[0].holder.Some?;
    assert Due(v, 3) && 1 in v.queues[3];
    var t: Slot := 1;
    assert WokenBelow(v, NUM_DEVICES, t);
  }

  lemma Unlocks(s: State, u: State)
    requires Invariant(s) && s.cur == 2 && 1 in s.run && s.tcbs[2].holdsLock == 1
    requires s.mutexes[0].holder == Some(2) && !s.mutexes[0].available && u == MutexUnlock(s, 0).0
    ensures Next(s, Unlock(0), u) && Restores(s, Unlock(0), u) && Shape(u) && !BestRuns(u)
  {
    assert Next(s, Unlock(0), u) && Restores(s, Unlock(0), u);
    UnlockLeavesBetterTaskReadyIff(s, 0, u);
  }

  lemma CreatesAndWaits() returns (s: State)
    ensures Reached(TwoTasks(), s) && FirstWaits(s) && s.now == 0
    ensures !s.mutexes[0].available && s.mutexes[0].holder == None
  {
    var a := Starts();
    var b := MutexCreate(a).0;
    Creates(a, b);
    ReachedStep(TwoTasks(), a, Create, b);
    s := EventWait(b, 3).0;
    OneWaits(b, s);
    ReachedStep(TwoTasks(), b, Wait(3), s);
  }

  lemma LocksAndWaits() returns (s: State)
    ensures Reached(TwoTasks(), s) && SecondLocks(s) && s.now == 45
  {
    var a := CreatesAndWaits();
    var b := MutexLock(a, 0).0;
    Locks(a, b);
    ReachedStep(TwoTasks(), a, Lock(0), b);
    s := b.(now := 45);
    QuietTicks(TwoTasks(), b, 9, s);
    ReachedInvariant(TwoTasks(), s);
  }

  /** A run in which the running task is not the best one: task 2 locks a mutex, a tick wakes task 1,
      task 2 unlocks and runs on. */
  lemma UnlockGoesWrong() returns (s: State, u: State)
    ensures Reached(TwoTasks(), s) && Next(s, Unlock(0), u) && Restores(s, Unlock(0), u)
    ensures Reached(TwoTasks(), u) && u.cur == 2 && 1 in u.run && Shape(u) && !BestRuns(u)
  {
    var a := LocksAndWaits();
    s := DevUpdate(a.(now := 50));
    WokenInside(a, a.(now := 50), s);
    ReachedStep(TwoTasks(), a, Event.Tick, s);
    u := MutexUnlock(s, 0).0;
    Unlocks(s, u);
    ReachedStep(TwoTasks(), s, Unlock(0), u);
    UnlockLeavesBetterTaskReadyIff(s, 0, u);
  }
}
