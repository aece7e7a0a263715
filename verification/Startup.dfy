/** From the state the loader leaves to the first running task (kernel/syscall/proc.c:task_create,
    kernel/sched/sched.c). */
module Startup {
  import opened Config
  import opened Schedule
  import opened KernelSpec
  import opened Invariants

  /** What `task_create` builds upon: mutexes may exist, but nobody holds or awaits one. */
  ghost predicate Bootable(s: State) {
    && Shape(s) && TableOk(s)
    && (forall m: MutexId :: s.mutexes[m].holder == None && s.queues[MutexQueue(m)] == [])
    && (forall t: Slot :: t != IDLE_PRIO ==> s.tcbs[t].nativePrio < IDLE_PRIO && s.tcbs[t].curPrio < IDLE_PRIO)
  }

  /** Zeroed memory after `mutex_init`. */
  function BootState(): State {
    State(
      seq(OS_MAX_TASKS, _ => Tcb(0, 0, 0, None, None)), 0, map[], seq(NUM_QUEUES, _ => []),
      seq(OS_NUM_MUTEX, _ => Mutex(true, None, false)), 0, seq(NUM_DEVICES, _ => 0), 0, 0, 0)
  }

  lemma BootStateBoots()
    ensures Bootable(BootState())
  {}

  /** Task creation may be repeated when no mutex is held. */
  lemma QuiescentIsBootable(s: State)
    requires Scheduling(s) && forall m: MutexId :: s.mutexes[m].holder == None
    ensures Bootable(s)
  {}

  lemma PopulateYields(s: State, order: seq<TaskDesc>, u: State)
    requires Bootable(s) && |order| <= OS_AVAIL_TASKS && u == Populate(s, order)
    ensures Yielding(u)
  {
    forall t: Slot ensures Ready(u, t) <==> InUse(t, |order|) {
      if Ready(u, t) { assert u.run[u.tcbs[t].curPrio] == u.tcbs[t].curPrio; }
    }
    forall k | NUM_DEVICES <= k < NUM_QUEUES ensures u.queues[k] == [] {
      assert k == MutexQueue(k - NUM_DEVICES);
    }
  }

  lemma LeastInUse(run: map<Slot, Slot>, n: nat, p: Slot)
    requires p in run && forall q :: q in run ==> p <= q
    requires forall q: Slot :: q in run <==> InUse(q, n)
    requires n <= OS_AVAIL_TASKS
    ensures p == if n == 0 then IDLE_PRIO else 1
  {
    assert InUse(p, n);
    if n > 0 { assert InUse(1, n); }
  }

  lemma ShortestFirst(tasks: seq<TaskDesc>, order: seq<TaskDesc>)
    requires tasks != [] && order == Reorder(tasks)
    ensures order[0] in tasks && forall t :: t in tasks ==> order[0].T <= t.T
  {
    ReorderGuarantee(tasks);
    SameMembers(order, tasks);
    assert order[0] in order;
  }

  /** The state a successful `task_create` leaves, up to who runs: the first task of the ordered list. */
  lemma FirstDispatch(s: State, tasks: seq<TaskDesc>, v: State, u: State)
    requires Bootable(s) && TaskCreate(s, tasks, true) == (u, 1) && v == Populate(s, Reorder(tasks))
    ensures Scheduling(u) && BestRuns(u)
    ensures u == v.(run := v.run - {u.cur}, cur := u.cur) && u.cur == if tasks == [] then IDLE_PRIO else 1
  {
    PopulateYields(s, Reorder(tasks), v);
    DispatchSleepHolds(v, u);
    LeastInUse(v.run, |tasks|, u.cur);
  }

  lemma PopulatedJobs(s: State, order: seq<TaskDesc>, v: State)
    requires Shape(s) && |order| <= OS_AVAIL_TASKS && v == Populate(s, order)
    ensures v.numTasks == |order| && v.epoch == v.now == s.now
    ensures forall i :: 1 <= i <= |order| ==> v.tcbs[i].job == Some(order[i - 1])
    ensures Clockwork(v)
  {}

  /** A successful `task_create` establishes every kernel invariant, and the task it starts has a
      period no longer than that of any other; the idle task runs when there is none. */
  lemma {:induction false} StartsRight(s: State, tasks: seq<TaskDesc>, u: State)
    requires Bootable(s) && TaskCreate(s, tasks, true) == (u, 1)
    ensures Invariant(u) && BestRuns(u)
    ensures u.numTasks == |tasks| && u.epoch == u.now == s.now
    ensures forall i :: 1 <= i <= |tasks| ==> u.tcbs[i].job == Some(Reorder(tasks)[i - 1])
    ensures tasks == [] ==> u.cur == IDLE_PRIO
    ensures tasks != [] ==> u.tcbs[u.cur].job.Some? && u.tcbs[u.cur].job.value in tasks
    ensures tasks != [] ==> forall t :: t in tasks ==> u.tcbs[u.cur].job.value.T <= t.T
  {
    var order := Reorder(tasks);
    var v := Populate(s, order);
    FirstDispatch(s, tasks, v, u);
    PopulatedJobs(s, order, v);
    if tasks != [] { ShortestFirst(tasks, order); }
  }

  /** What the utilization test asks of a list as it is passed in. If some period is zero, the first
      such descriptor decides alone; otherwise every task of the reordered list meets its bound. */
  predicate Schedulable(tasks: seq<TaskDesc>)
    requires |tasks| <= OS_AVAIL_TASKS
  {
    var zeros := WithPeriod(tasks, 0);
    if zeros != [] then IsVoid(zeros[0])
    else forall k :: 0 <= k < |tasks| ==> MeetsBound(Reorder(tasks), BoundTable(|tasks|), k)
  }

  /** Any task set is accepted iff it is not too large, lies in user memory and is schedulable in this
      sense; a refused one changes nothing. */
  lemma AcceptedIff(s: State, tasks: seq<TaskDesc>, addrOk: bool)
    requires Shape(s)
    ensures TaskCreate(s, tasks, addrOk).1 == 1 <==> |tasks| <= OS_AVAIL_TASKS && addrOk && Schedulable(tasks)
    ensures TaskCreate(s, tasks, addrOk).1 != 1 ==> TaskCreate(s, tasks, addrOk).0 == s
  {
    if |tasks| <= OS_AVAIL_TASKS {
      if WithPeriod(tasks, 0) != [] { ZeroPeriodDecides(tasks); } else { PositivePeriodsIff(tasks); }
    }
  }

  /** All answers of `task_create`, each with its cause. */
  lemma CreationAnswers(s: State, tasks: seq<TaskDesc>, addrOk: bool, r: int)
    requires Shape(s) && r == TaskCreate(s, tasks, addrOk).1
    ensures r == -EINVAL <==> |tasks| > OS_AVAIL_TASKS
    ensures r == -EFAULT <==> |tasks| <= OS_AVAIL_TASKS && !addrOk
    ensures r == -ESCHED <==> |tasks| <= OS_AVAIL_TASKS && addrOk && !Schedulable(tasks)
    ensures r == 1 || r == -EINVAL || r == -EFAULT || r == -ESCHED
  {
    AcceptedIff(s, tasks, addrOk);
  }

  /** Without blocking terms: total utilization within the bound for the size of the set, unless some
      period is zero; then the first descriptor with a zero period must have no computation time. */
  lemma AcceptedWithoutBlockingIff(s: State, tasks: seq<TaskDesc>, addrOk: bool)
    requires Shape(s) && forall x :: x in tasks ==> x.B == 0
    ensures TaskCreate(s, tasks, addrOk).1 == 1 <==>
      && |tasks| <= OS_AVAIL_TASKS && addrOk
      && if WithPeriod(tasks, 0) != [] then WithPeriod(tasks, 0)[0].C == 0
         else tasks == [] || Load(tasks) <= Bound(|tasks| - 1)
  {
    AcceptedIff(s, tasks, addrOk);
    if |tasks| <= OS_AVAIL_TASKS {
      if WithPeriod(tasks, 0) != [] {
        FirstOfZeroPeriod(tasks);
      } else {
        PositivePeriodsIff(tasks);
        if tasks != [] { AdmitWithoutBlocking(tasks); }
      }
    }
  }

  lemma {:induction false} FirstOfZeroPeriod(tasks: seq<TaskDesc>)
    requires WithPeriod(tasks, 0) != []
    ensures WithPeriod(tasks, 0)[0] in tasks && WithPeriod(tasks, 0)[0].T == 0
  {
    if tasks[0].T != 0 { FirstOfZeroPeriod(tasks[1..]); }
  }

  /** An overloaded set is accepted if it contains an all-zero descriptor. */
  lemma OverloadAccepted(s: State, heavy: TaskDesc, empty: TaskDesc)
    requires Shape(s) && heavy == TaskDesc(0, 0, 0, 50, 10, 0) && empty == TaskDesc(0, 0, 0, 0, 0, 0)
    ensures Load([heavy, empty]) == 5.0
    ensures TaskCreate(s, [heavy, empty], true).1 == 1 && TaskCreate(s, [heavy], true).1 == -ESCHED
  {
    OverloadAdmitted(heavy, empty);
  }

  /** Rate-monotonic priorities: a better priority never goes with a longer period. */
  predicate RateMonotonic(tcbs: seq<Tcb>, n: nat) {
    forall i, j :: 1 <= i < j <= n && j < |tcbs| && tcbs[i].job.Some? && tcbs[j].job.Some? ==>
      tcbs[i].job.value.T <= tcbs[j].job.value.T
  }

  lemma JobsInOrder(tcbs: seq<Tcb>, r: seq<TaskDesc>)
    requires |r| < |tcbs| && forall i :: 1 <= i <= |r| ==> tcbs[i].job == Some(r[i - 1])
    ensures RateMonotonic(tcbs, |r|) <==> SortedByPeriod(r)
  {
    if RateMonotonic(tcbs, |r|) {
      forall i, j | 0 <= i < j < |r| ensures r[i].T <= r[j].T {
        assert tcbs[i + 1].job.value.T <= tcbs[j + 1].job.value.T;
      }
    }
    if SortedByPeriod(r) {
      forall i, j | 1 <= i < j <= |r| ensures tcbs[i].job.value.T <= tcbs[j].job.value.T {
        assert r[i - 1].T <= r[j - 1].T;
      }
    }
  }

  /** Priorities come out rate-monotonic iff the task list is sortable. */
  lemma RateMonotonicIff(s: State, tasks: seq<TaskDesc>, u: State)
    requires Bootable(s) && TaskCreate(s, tasks, true) == (u, 1)
    ensures RateMonotonic(u.tcbs, |tasks|) <==> Sortable(tasks)
  {
    StartsRight(s, tasks, u);
    ReorderSortsIff(tasks);
    JobsInOrder(u.tcbs, Reorder(tasks));
  }

  /** `task_create` leaves the mutex table alone, so repeating it re-establishes the invariant iff
      no mutex is held at the call. */
  lemma RespawnIff(s: State, tasks: seq<TaskDesc>, u: State)
    requires Invariant(s) && TaskCreate(s, tasks, true) == (u, 1)
    ensures Invariant(u) <==> forall m: MutexId :: s.mutexes[m].holder == None
  {
    if forall m: MutexId :: s.mutexes[m].holder == None {
      QuiescentIsBootable(s);
      StartsRight(s, tasks, u);
    } else {
      var m: MutexId :| s.mutexes[m].holder != None;
      SpawnForgetsLocks(s, tasks, u);
      HeldByZero(u.mutexes, u.cur);
      assert u.mutexes[m].holder == Some(u.cur) ==> HeldBy(u.mutexes, u.cur) > 0;
    }
  }

  lemma SpawnForgetsLocks(s: State, tasks: seq<TaskDesc>, u: State)
    requires Shape(s) && TaskCreate(s, tasks, true) == (u, 1)
    ensures u.mutexes == s.mutexes && Live(u, u.cur) && u.tcbs[u.cur].holdsLock == 0
  {
    var v := Populate(s, Reorder(tasks));
    var h := Highest(v.run);
    assert InUse(v.run[h], |tasks|) && v.tcbs[v.run[h]].resume == None;
  }
}
