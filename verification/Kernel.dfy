/** The kernel routines on their own data: statically allocated tables, updated in place. Each method
    keeps the ghost state `A` equal to what `KernelSpec` says, and the tables representing it. */
module Kernel {
  import opened Config
  import opened Schedule
  import opened KernelSpec
  import opened WellFormedness
  import opened KernelMemory
  import RunQueue
  import Invariants
  import Startup

  class System {
    const tcb: array<TcbRec>            // system_tcb
    const gtMutex: array<MutexRec>
    const devices: array<DevRec>
    const rq: RunQueue.Queue
    var curTcb: Slot
    var curMutexNum: nat
    var sysTime: nat
    ghost var A: State

    ghost function Footprint(): set<object> {
      {this, tcb, gtMutex, devices, rq, rq.runBits, rq.runList}
    }

    ghost function Snapshot(): Memory
      reads this, tcb, gtMutex, devices, rq, rq.runBits, rq.runList
      requires rq.Valid()
    {
      Memory(tcb[..], gtMutex[..], devices[..], curTcb, curMutexNum, sysTime, rq.Contents())
    }

    /** The tables represent `A`. */
    ghost predicate Rep()
      reads this, tcb, gtMutex, devices, rq, rq.runBits, rq.runList
    {
      rq.Valid() && Represents(Snapshot(), A)
    }

    ghost predicate Valid()
      reads this, tcb, gtMutex, devices, rq, rq.runBits, rq.runList
    {
      Rep() && WellFormed(A)
    }

    /** Zeroed memory and `mutex_init`. In the source `cur_tcb` is NULL until the first task runs;
        here it has the value 0, which nothing uses before then. */
    constructor ()
      ensures Rep() && A == Startup.BootState()
      ensures fresh(Footprint())
    {
      tcb := new TcbRec[OS_MAX_TASKS](_ => TcbRec(0, 0, 0, NULL, None, None));
      gtMutex := new MutexRec[OS_NUM_MUTEX](_ => MutexRec(false, NULL, false, NULL));
      devices := new DevRec[NUM_DEVICES](_ => DevRec(NULL, 0));
      rq := new RunQueue.Queue();
      curTcb, curMutexNum, sysTime := 0, 0, 0;
      A := Startup.BootState();
      new;
      MutexInit();
      assert forall k :: 0 <= k < NUM_QUEUES ==> Heads(Snapshot())[k] == NULL;
    }

    method MutexInit()
      requires gtMutex.Length == OS_NUM_MUTEX
      modifies gtMutex, this`curMutexNum
      ensures forall m :: 0 <= m < OS_NUM_MUTEX ==> gtMutex[m] == MutexRec(true, NULL, false, NULL)
      ensures curMutexNum == 0
    {
      var i := 0;
      while i < OS_NUM_MUTEX
        invariant 0 <= i <= OS_NUM_MUTEX
        invariant forall m :: 0 <= m < i ==> gtMutex[m] == MutexRec(true, NULL, false, NULL)
      {
        gtMutex[i] := MutexRec(true, NULL, false, NULL);
        i := i + 1;
      }
      curMutexNum := 0;
    }

    // -------------------------------------------------------------------------
    // ctx_switch.c
    // -------------------------------------------------------------------------

    /** The rest of `mutex_lock` once the mutex is the current task's. */
    method FinishLock(m: MutexId)
      requires Rep()
      modifies this, tcb, gtMutex
      ensures Rep() && A == Acquire(old(A), m)
      ensures rq.Contents() == old(rq.Contents())
    {
      ghost var c := Snapshot();
      gtMutex[m] := gtMutex[m].(pHoldingTcb := curTcb);
      tcb[curTcb] := tcb[curTcb].(holdsLock := tcb[curTcb].holdsLock + 1);
      tcb[curTcb] := tcb[curTcb].(curPrio := HIGHEST_PRIO);
      A := Acquire(A, m);
      AcquireRepresents(c, old(A), m, Snapshot());
    }

    /** `ctx_switch_full`: task `t` continues where it was suspended. */
    method CtxSwitch(t: Slot)
      requires Rep()
      modifies this, tcb, gtMutex
      ensures Rep() && A == SwitchTo(old(A), t)
      ensures rq.Contents() == old(rq.Contents())
    {
      ghost var c := Snapshot();
      curTcb := t;
      A := A.(cur := t);
      if tcb[t].resume.Some? {
        var m := tcb[t].resume.value;
        ghost var r := tcb[t].(resume := None);
        tcb[t] := tcb[t].(resume := None);
        A := A.(tcbs := A.tcbs[t := A.tcbs[t].(resume := None)]);
        ChainsSameLink(c.tcb, Heads(c), A.queues, t, r);
        assert Heads(Snapshot()) == Heads(c);
        FinishLock(m);
      } else {
        assert Heads(Snapshot()) == Heads(c);
      }
    }

    /** `runqueue_remove(highest_prio())` */
    method TakeHighest() returns (task: Slot)
      requires Rep() && A.run != map[]
      modifies this`A, rq, rq.runBits, rq.runList
      ensures Rep() && A == old(A).(run := old(A).run - {Highest(old(A).run)})
      ensures task == old(A).run[Highest(old(A).run)]
    {
      ghost var c, s := Snapshot(), A;
      var h := rq.HighestPrio();
      assert h == Highest(A.run);
      task := rq.Remove(h);
      A := A.(run := A.run - {h});
      ScalarsRepresent(c, s, Snapshot(), A);
    }

    /** `dispatch_sleep`, and `dispatch_nosave`, which differs only in the registers it saves. */
    method DispatchSleep()
      requires Rep() && A.run != map[]
      modifies Footprint()
      ensures Rep() && A == KernelSpec.DispatchSleep(old(A))
    {
      var taskToSwitch := TakeHighest();
      CtxSwitch(taskToSwitch);
    }

    method DispatchSave()
      requires Rep()
      modifies Footprint()
      ensures Rep() && A == KernelSpec.DispatchSave(old(A))
    {
      ghost var c, s := Snapshot(), A;
      var h := rq.HighestPrio();
      assert h == Highest(A.run);
      if tcb[curTcb].curPrio > h {
        rq.Add(curTcb, tcb[curTcb].curPrio);
        A := A.(run := A.run[A.tcbs[A.cur].curPrio := A.cur]);
        ScalarsRepresent(c, s, Snapshot(), A);
        assert A.tcbs[A.cur].curPrio in A.run;
        DispatchSleep();
      }
    }

    // -------------------------------------------------------------------------
    // mutex.c
    // -------------------------------------------------------------------------

    method MutexCreate() returns (r: int)
      requires Valid()
      modifies this, gtMutex
      ensures Valid() && (A, r) == KernelSpec.MutexCreate(old(A))
    {
      MutexCreateKeeps(A);
      if curMutexNum == OS_NUM_MUTEX {
        return -ENOMEM;
      }
      ghost var c, s := Snapshot(), A;
      var r0 := gtMutex[curMutexNum].(bAvailable := false);
      gtMutex[curMutexNum] := r0;
      curMutexNum := curMutexNum + 1;
      A := KernelSpec.MutexCreate(A).0;
      MutexRepresents(c, s, curMutexNum - 1, r0, curMutexNum, Snapshot(), A);
      r := curMutexNum - 1;
    }

    /** The last TCB of the non-empty queue of mutex `m`. */
    method LastWaiter(m: MutexId) returns (last: Slot)
      requires Valid() && gtMutex[m].pSleepQueue != NULL
      ensures A.queues[MutexQueue(m)] != [] && last == A.queues[MutexQueue(m)][|A.queues[MutexQueue(m)]| - 1]
    {
      ghost var q := A.queues[MutexQueue(m)];
      ghost var i := 0;
      assert Chain(tcb[..], Heads(Snapshot())[MutexQueue(m)], q);
      last := gtMutex[m].pSleepQueue;
      assert q[0..] == q;
      while tcb[last].sleepQueue != NULL
        invariant 0 <= i < |q| && last == q[i] && Chain(tcb[..], last, q[i..])
        decreases |q| - i
      {
        assert q[i..][1..] == q[i + 1..];
        last := tcb[last].sleepQueue;
        i := i + 1;
      }
      assert q[i..][1..] == q[i + 1..];
      assert Chain(tcb[..], NULL, q[i + 1..]);
    }

    /** The current task goes to the back of the queue of mutex `m`. */
    method JoinQueue(m: MutexId)
      requires Valid()
      modifies this, tcb, gtMutex
      ensures Rep() && A == Await(old(A), m)
    {
      ghost var c, s := Snapshot(), A;
      var last: int := gtMutex[m].pSleepQueue;
      assert Chain(c.tcb, Heads(c)[MutexQueue(m)], s.queues[MutexQueue(m)]);
      if last == NULL {
        tcb[curTcb] := tcb[curTcb].(sleepQueue := NULL, resume := Some(m));
        gtMutex[m] := gtMutex[m].(pSleepQueue := curTcb);
        A := Await(A, m);
        AwaitFirstRepresents(c, s, m, Snapshot());
      } else {
        var tail := LastWaiter(m);
        tcb[curTcb] := tcb[curTcb].(sleepQueue := NULL, resume := Some(m));
        tcb[tail] := tcb[tail].(sleepQueue := curTcb);
        A := Await(A, m);
        AwaitLastRepresents(c, s, m, tail, Snapshot());
      }
    }

    /** The blocking branch of `mutex_lock`. */
    method Block(m: MutexId)
      requires Valid() && A.cur != IDLE_PRIO
      modifies Footprint()
      ensures Rep() && Await(old(A), m).run != map[] && A == KernelSpec.DispatchSleep(Await(old(A), m))
    {
      ghost var s := A;
      JoinQueue(m);
      JoiningSuspends(s, MutexQueue(m), s.queues[MutexQueue(m)] + [s.cur], A);
      DispatchSleepKeeps(A);
      DispatchSleep();
    }

    /** The other branch: the mutex is free. */
    method TakeFree(m: MutexId)
      requires Rep()
      modifies this, tcb, gtMutex
      ensures Rep()
      ensures A == Acquire(old(A).(mutexes := old(A).mutexes[m := old(A).mutexes[m].(locked := true)]), m)
    {
      ghost var c, s := Snapshot(), A;
      gtMutex[m] := gtMutex[m].(bLock := true);
      A := A.(mutexes := A.mutexes[m := A.mutexes[m].(locked := true)]);
      MutexRepresents(c, s, m, gtMutex[m], curMutexNum, Snapshot(), A);
      FinishLock(m);
    }

    /** A caller that has to wait is suspended here; 0 is what it gets when it has the mutex. */
    method MutexLock(mutex: int) returns (r: int)
      requires Valid() && A.cur != IDLE_PRIO
      modifies Footprint()
      ensures Valid() && old(A).run != map[] && (A, r) == KernelSpec.MutexLock(old(A), mutex)
    {
      MutexLockKeeps(A, mutex);
      if mutex < 0 || mutex >= OS_NUM_MUTEX || gtMutex[mutex].bAvailable {
        return -EINVAL;
      }
      assert AbsMutex(gtMutex[mutex]) == A.mutexes[mutex];
      if curTcb == gtMutex[mutex].pHoldingTcb {
        return -EDEADLOCK;
      }
      if gtMutex[mutex].bLock {
        Block(mutex);
      } else {
        TakeFree(mutex);
      }
      r := 0;
    }

    /** The end of `mutex_unlock`: `next`, or nobody, is the new holder. */
    method GiveUp(m: MutexId, next: int)
      requires Rep() && -1 <= next < OS_MAX_TASKS && (next == NULL ==> !gtMutex[m].bLock)
      modifies this, tcb, gtMutex
      ensures Rep() && A == Release(old(A), m, AbsPtr(next))
    {
      ghost var c, s := Snapshot(), A;
      gtMutex[m] := gtMutex[m].(pHoldingTcb := next);
      tcb[curTcb] := tcb[curTcb].(holdsLock := tcb[curTcb].holdsLock - 1);
      if tcb[curTcb].holdsLock == 0 {
        tcb[curTcb] := tcb[curTcb].(curPrio := tcb[curTcb].nativePrio);
      }
      A := Release(A, m, AbsPtr(next));
      assert gtMutex[m] == c.gtMutex[m].(pHoldingTcb := next, bLock := c.gtMutex[m].bLock && next != NULL);
      ReleaseRepresents(c, s, m, next, Snapshot());
    }

    /** The first waiter becomes ready; without waiters the mutex is unlocked. */
    method WakeFirst(m: MutexId) returns (task: int)
      requires Valid()
      modifies Footprint()
      ensures Rep() && -1 <= task < OS_MAX_TASKS && (task == NULL ==> !gtMutex[m].bLock)
      ensures AbsPtr(task) == NextHolder(old(A), m) && A == FirstWoken(old(A), m)
    {
      ghost var c, s, k := Snapshot(), A, MutexQueue(m);
      assert Chain(c.tcb, Heads(c)[k], s.queues[k]);
      task := gtMutex[m].pSleepQueue;
      if task != NULL {
        gtMutex[m] := gtMutex[m].(pSleepQueue := tcb[task].sleepQueue);
        tcb[task] := tcb[task].(sleepQueue := NULL);
        rq.Add(task, tcb[task].curPrio);
        A := PopReady(A, k);
        PopMutexRepresents(c, s, m, task, Snapshot());
      } else {
        gtMutex[m] := gtMutex[m].(bLock := false);
        A := A.(mutexes := A.mutexes[m := A.mutexes[m].(locked := false)]);
        MutexRepresents(c, s, m, gtMutex[m], curMutexNum, Snapshot(), A);
      }
    }

    method Unlock(m: MutexId)
      requires Valid()
      modifies Footprint()
      ensures Rep() && A == Unlocked(old(A), m)
    {
      var taskToWaken := WakeFirst(m);
      assert AbsPtr(taskToWaken) == NextHolder(old(A), m);
      GiveUp(m, taskToWaken);
    }

    method MutexUnlock(mutex: int) returns (r: int)
      requires Valid() && A.cur != IDLE_PRIO
      modifies Footprint()
      ensures Valid() && (A, r) == KernelSpec.MutexUnlock(old(A), mutex)
    {
      if mutex < 0 || mutex >= OS_NUM_MUTEX || gtMutex[mutex].bAvailable {
        return -EINVAL;
      }
      assert AbsMutex(gtMutex[mutex]) == A.mutexes[mutex];
      if curTcb != gtMutex[mutex].pHoldingTcb {
        return -EPERM;
      }
      MutexUnlockKeeps(A, mutex);
      UnlockedIsMutexUnlock(A, mutex);
      Unlock(mutex);
      r := 0;
    }

    // -------------------------------------------------------------------------
    // device.c, proc.c:event_wait, kernel_helpers.c:C_IRQ_handler
    // -------------------------------------------------------------------------

    method DevWait(dev: nat)
      requires Valid() && A.cur != IDLE_PRIO && dev < NUM_DEVICES
      modifies Footprint()
      ensures Valid() && old(A).run != map[] && A == KernelSpec.DispatchSleep(PushFront(old(A), dev))
    {
      ghost var c, s := Snapshot(), A;
      assert Ready(s, IDLE_PRIO);
      tcb[curTcb] := tcb[curTcb].(sleepQueue := devices[dev].sleepQueue);
      devices[dev] := devices[dev].(sleepQueue := curTcb);
      A := PushFront(A, dev);
      PushFrontRepresents(c, s, dev, Snapshot());
      JoiningSuspends(s, dev, [s.cur] + s.queues[dev], A);
      DispatchSleepKeeps(A);
      DispatchSleep();
    }

    /** 0 is what the caller gets when it has been woken. */
    method EventWait(dev: nat) returns (r: int)
      requires Valid() && A.cur != IDLE_PRIO
      modifies Footprint()
      ensures Valid() && old(A).run != map[] && (A, r) == KernelSpec.EventWait(old(A), dev)
    {
      assert Ready(A, IDLE_PRIO);
      if tcb[curTcb].holdsLock != 0 {
        return -EHOLDSLOCK;
      }
      if dev >= NUM_DEVICES {
        return -EINVAL;
      }
      DevWait(dev);
      r := 0;
    }

    /** One task of the chain of device `i` becomes ready; `next` is the rest of the chain. */
    method WakeOne(i: nat, it: Slot) returns (next: int)
      requires rq.Valid() && Draining(Snapshot(), A, i, it) && WellFormed(A)
      modifies this`A, tcb, rq, rq.runBits, rq.runList
      ensures rq.Valid() && Draining(Snapshot(), A, i, next) && WellFormed(A)
      ensures old(A).queues[i] != [] && A == PopReady(old(A), i)
    {
      ghost var c, s := Snapshot(), A;
      rq.Add(it, tcb[it].curPrio);
      next := tcb[it].sleepQueue;
      tcb[it] := tcb[it].(sleepQueue := NULL);
      DrainStepRepresents(c, s, i, it, Snapshot());
      PopReadyKeeps(s, i);
      A := PopReady(s, i);
    }

    /** The inner loop of `dev_update`: everybody on the chain of device `i` becomes ready. */
    method WakeAll(i: nat) returns (needCtx: bool)
      requires rq.Valid() && i < devices.Length && Draining(Snapshot(), A, i, devices[i].sleepQueue) && WellFormed(A)
      modifies this`A, tcb, rq, rq.runBits, rq.runList
      ensures rq.Valid() && Draining(Snapshot(), A, i, NULL) && WellFormed(A)
      ensures A == Drain(old(A), i) && (needCtx <==> old(A).queues[i] != [])
    {
      ghost var s := A;
      needCtx := false;
      var it := devices[i].sleepQueue;
      while it != NULL
        invariant rq.Valid() && Draining(Snapshot(), A, i, it) && WellFormed(A)
        invariant Drain(A, i) == Drain(s, i)
        invariant if needCtx then s.queues[i] != [] else A == s
        decreases |A.queues[i]|
      {
        assert Chain(tcb[..], Heads(Snapshot())[i := it][i], A.queues[i]);
        needCtx := true;
        it := WakeOne(i, it);
      }
      assert Chain(tcb[..], Heads(Snapshot())[i := it][i], A.queues[i]);
    }

    /** One round of the outer loop: device `i` at time `millis`. */
    method SignalDevice(i: nat, millis: nat) returns (woken: bool)
      requires Valid() && i < NUM_DEVICES && millis == sysTime
      modifies this`A, tcb, devices, rq, rq.runBits, rq.runList
      ensures Valid() && A == Signal(old(A), i) && (woken <==> Due(old(A), i) && old(A).queues[i] != [])
    {
      woken := false;
      if devices[i].nextMatch <= millis {
        ghost var s := A;
        assert Heads(Snapshot())[i := devices[i].sleepQueue] == Heads(Snapshot());
        woken := WakeAll(i);
        ghost var c, v := Snapshot(), A;
        devices[i] := devices[i].(sleepQueue := NULL);
        devices[i] := devices[i].(nextMatch := devices[i].nextMatch + DevFreq(i));
        DrainDoneRepresents(c, v, i, Snapshot());
        A := v.(nextMatch := v.nextMatch[i := v.nextMatch[i] + DevFreq(i)]);
        OtherFieldsDoNotMatter(v, A);
      }
    }

    method SignalDevices(millis: nat) returns (needCtx: bool)
      requires Valid() && millis == sysTime
      modifies this`A, tcb, devices, rq, rq.runBits, rq.runList
      ensures Valid() && A == SignalFirst(old(A), |old(A).nextMatch|) && (needCtx <==> SomeoneDue(old(A)))
    {
      ghost var s := A;
      needCtx := false;
      var i := 0;
      while i < NUM_DEVICES
        invariant 0 <= i <= NUM_DEVICES && millis == sysTime
        invariant Valid() && A == SignalFirst(s, i)
        invariant needCtx <==> SomeoneDueBelow(s, i)
      {
        needCtx := SignalRound(i, millis, s, needCtx);
        i := i + 1;
      }
    }

    method SignalRound(i: nat, millis: nat, ghost s: State, needCtx: bool) returns (r: bool)
      requires Valid() && i < NUM_DEVICES && millis == sysTime && Shape(s)
      requires A == SignalFirst(s, i) && (needCtx <==> SomeoneDueBelow(s, i))
      modifies this`A, tcb, devices, rq, rq.runBits, rq.runList
      ensures Valid() && A == SignalFirst(s, i + 1) && (r <==> SomeoneDueBelow(s, i + 1))
    {
      var woken := SignalDevice(i, millis);
      SignalStep(s, i, old(A), A, woken);
      r := needCtx || woken;
    }

    method DevUpdate(millis: nat)
      requires Valid() && millis == sysTime
      modifies Footprint()
      ensures Valid() && A == KernelSpec.DevUpdate(old(A))
    {
      var needCtx := SignalDevices(millis);
      if needCtx {
        DispatchSaveKeeps(A);
        DispatchSave();
      }
    }

    method TimerInterrupt()
      requires Valid()
      modifies Footprint()
      ensures Valid() && A == Tick(old(A))
    {
      ghost var c, s := Snapshot(), A;
      sysTime := sysTime + TIME_RESOLUTION;
      A := A.(now := A.now + TIME_RESOLUTION);
      ScalarsRepresent(c, s, Snapshot(), A);
      OtherFieldsDoNotMatter(s, A);
      DevUpdate(sysTime);
    }

    // -------------------------------------------------------------------------
    // proc.c:task_create, sched.c
    // -------------------------------------------------------------------------

    method DevInit()
      requires devices.Length == NUM_DEVICES
      modifies devices
      ensures forall d :: 0 <= d < NUM_DEVICES ==> devices[d] == DevRec(NULL, sysTime + DevFreq(d))
    {
      var i := 0;
      while i < NUM_DEVICES
        invariant 0 <= i <= NUM_DEVICES
        invariant forall d :: 0 <= d < i ==> devices[d] == DevRec(NULL, sysTime + DevFreq(d))
      {
        devices[i] := DevRec(NULL, sysTime + DevFreq(i));
        i := i + 1;
      }
    }

    /** One round of `allocate_tasks`: task `j` of the list, in slot `j + 1`. */
    method AllocateTask(order: seq<TaskDesc>, j: nat)
      requires rq.Valid() && tcb.Length == OS_MAX_TASKS && j < |order| <= OS_AVAIL_TASKS
      requires rq.Contents() == Filled(j + 2, |order|)
      modifies tcb, rq, rq.runBits, rq.runList
      ensures rq.Valid() && rq.Contents() == Filled(j + 1, |order|)
      ensures tcb[..] == old(tcb[..])[j + 1 := TcbRec(j + 1, j + 1, 0, NULL, None, Some(order[j]))]
    {
      var i := j + 1;
      tcb[i] := TcbRec(i, i, 0, NULL, None, Some(order[j]));
      rq.Add(i, i);
      FilledStep(i, |order|);
    }

    /** The tasks of the list, best last. */
    method AllocateList(order: seq<TaskDesc>)
      requires rq.Valid() && rq.Contents() == map[] && tcb.Length == OS_MAX_TASKS && |order| <= OS_AVAIL_TASKS
      modifies tcb, rq, rq.runBits, rq.runList
      ensures rq.Valid() && rq.Contents() == Filled(1, |order|)
      ensures AllocatedFrom(old(tcb[..]), tcb[..], order, 1)
    {
      ghost var tcb0 := tcb[..];
      var j := |order| - 1;
      FilledEmpty(|order| + 1, |order|);
      while j >= 0
        invariant -1 <= j < |order|
        invariant rq.Valid() && rq.Contents() == Filled(j + 2, |order|)
        invariant AllocatedFrom(tcb0, tcb[..], order, j + 2)
      {
        ghost var tcb1 := tcb[..];
        AllocateTask(order, j);
        AllocatedStep(tcb0, tcb1, order, j, tcb[..]);
        j := j - 1;
      }
    }

    /** The idle task; its link is left as it is. */
    method AllocateIdle()
      requires rq.Valid() && tcb.Length == OS_MAX_TASKS
      modifies tcb, rq, rq.runBits, rq.runList
      ensures rq.Valid() && rq.Contents() == old(rq.Contents())[IDLE_PRIO := IDLE_PRIO]
      ensures tcb[..] == old(tcb[..])[IDLE_PRIO := IdleRec(old(tcb[IDLE_PRIO]))]
    {
      tcb[IDLE_PRIO] := TcbRec(IDLE_PRIO, IDLE_PRIO, 0, tcb[IDLE_PRIO].sleepQueue, None, None);
      rq.Add(IDLE_PRIO, IDLE_PRIO);
    }

    /** The TCB of every task and of the idle task, all of them ready. */
    method AllocateTasks(order: seq<TaskDesc>)
      requires rq.View().Sized() && tcb.Length == OS_MAX_TASKS && |order| <= OS_AVAIL_TASKS
      modifies tcb, rq, rq.runBits, rq.runList
      ensures rq.Valid() && rq.Contents() == AllReady(|order|)
      ensures tcb.Length == OS_MAX_TASKS && Allocated(old(tcb[..]), tcb[..], order)
    {
      ghost var tcb0 := tcb[..];
      rq.Init();
      AllocateList(order);
      ghost var tcb1 := tcb[..];
      AllocateIdle();
      FilledWithIdle(|order|);
      AllocatedAll(tcb0, tcb1, order, tcb[..]);
    }

    method CopyTasks(tasks: array<TaskDesc>) returns (order: array<TaskDesc>)
      ensures fresh(order) && order[..] == tasks[..]
    {
      order := new TaskDesc[tasks.Length];
      var i := tasks.Length - 1;
      while i >= 0
        invariant -1 <= i < tasks.Length
        invariant forall k :: i < k < tasks.Length ==> order[k] == tasks[k]
      {
        order[i] := tasks[i];
        i := i - 1;
      }
    }

    /** `addrOk` is the outcome of the address check. When all is well the call does not return to its
        caller: the first task runs. */
    method TaskCreate(tasks: array<TaskDesc>, addrOk: bool) returns (r: int)
      requires Rep() && forall m: MutexId :: A.queues[MutexQueue(m)] == []
      modifies Footprint()
      ensures Rep() && (A, r) == KernelSpec.TaskCreate(old(A), old(tasks[..]), addrOk)
      ensures Startup.Bootable(old(A)) && r == 1 ==> Valid() && Invariants.Invariant(A)
    {
      if tasks.Length > OS_AVAIL_TASKS {
        return -EINVAL;
      }
      if !addrOk {
        return -EFAULT;
      }
      var order := CopyTasks(tasks);
      var schedulable := AssignSchedule(order);
      if !schedulable {
        return -ESCHED;
      }
      Populate(order[..]);
      DispatchSleep();
      r := 1;
      if Startup.Bootable(old(A)) {
        Startup.StartsRight(old(A), old(tasks[..]), A);
      }
    }

    /** `dev_init` and `allocate_tasks` for the ordered list. */
    method Populate(order: seq<TaskDesc>)
      requires Rep() && |order| <= OS_AVAIL_TASKS && forall m: MutexId :: A.queues[MutexQueue(m)] == []
      modifies Footprint()
      ensures Rep() && A == KernelSpec.Populate(old(A), order)
    {
      ghost var c, s := Snapshot(), A;
      DevInit();
      AllocateTasks(order);
      A := KernelSpec.Populate(A, order);
      PopulateRepresents(c, s, order, Snapshot());
    }
  }
}
