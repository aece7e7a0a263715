/** What the invariants mean for the tasks: conservation, no contention, priorities and punctual
    devices, in every state of every run. */
module KernelTheorems {
  import opened Config
  import opened Schedule
  import opened KernelSpec
  import opened Invariants
  import opened Startup
  import opened KernelRuns

  // ---------------------------------------------------------------------------
  // Every task is in exactly one place
  // ---------------------------------------------------------------------------

  function CountIn(queues: seq<seq<Slot>>, t: Slot): nat {
    if queues == [] then 0 else multiset(queues[0])[t] + CountIn(queues[1..], t)
  }

  ghost function SlotsOf(run: map<Slot, Slot>, t: Slot): set<Slot> {
    set p | p in run && run[p] == t
  }

  /** How often `t` occurs as the current task, in the run queue and on all the queues together. */
  ghost function PlaceCount(s: State, t: Slot): nat {
    (if t == s.cur then 1 else 0) + |SlotsOf(s.run, t)| + CountIn(s.queues, t)
  }

  lemma {:induction false} CountNoDup(q: seq<Slot>, t: Slot)
    requires NoDup(q)
    ensures multiset(q)[t] == if t in q then 1 else 0
  {
    if q != [] {
      assert q == [q[0]] + q[1..];
      assert NoDup(q[1..]) by {
        forall i, j | 0 <= i < j < |q| - 1 ensures q[1..][i] != q[1..][j] {
          assert q[i + 1] != q[j + 1];
        }
      }
      CountNoDup(q[1..], t);
      if q[0] in q[1..] {
        var j :| 0 <= j < |q| - 1 && q[1..][j] == q[0];
        assert q[0] != q[j + 1];
      }
    }
  }

  lemma {:induction false} CountDisjoint(queues: seq<seq<Slot>>, t: Slot)
    requires forall k :: 0 <= k < |queues| ==> NoDup(queues[k])
    requires forall k, l :: 0 <= k < l < |queues| ==> !(t in queues[k] && t in queues[l])
    ensures CountIn(queues, t) == if exists k :: 0 <= k < |queues| && t in queues[k] then 1 else 0
  {
    if queues != [] {
      var rest := queues[1..];
      assert forall k :: 0 <= k < |rest| ==> rest[k] == queues[k + 1];
      forall k, l | 0 <= k < l < |rest| ensures !(t in rest[k] && t in rest[l]) {
        assert !(t in queues[k + 1] && t in queues[l + 1]);
      }
      CountDisjoint(rest, t);
      CountNoDup(queues[0], t);
      if k :| 0 <= k < |queues| && t in queues[k] {
        if k > 0 { assert t in rest[k - 1]; }
      }
      if k :| 0 <= k < |rest| && t in rest[k] {
        assert t in queues[k + 1];
      }
    }
  }

  lemma SlotsWhenReady(s: State, t: Slot)
    requires WellFormed(s)
    ensures |SlotsOf(s.run, t)| == if Ready(s, t) then 1 else 0
  {
    var p := s.tcbs[t].curPrio;
    assert SlotsOf(s.run, t) == if Ready(s, t) then {p} else {};
  }

  /** In any well-formed state nobody is in two places. */
  lemma AtMostOnePlace(s: State, t: Slot)
    requires WellFormed(s)
    ensures PlaceCount(s, t) <= 1
    ensures PlaceCount(s, t) == 1 <==>
      t == s.cur || Ready(s, t) || exists k :: 0 <= k < NUM_QUEUES && t in s.queues[k]
  {
    SlotsWhenReady(s, t);
    CountDisjoint(s.queues, t);
  }

  /** In any reachable state every task of the system is in exactly one place, and nobody else is
      anywhere; a ready task is in the slot of its own priority. */
  lemma ExactlyOnePlace(s: State, t: Slot)
    requires Invariant(s)
    ensures PlaceCount(s, t) == if Live(s, t) then 1 else 0
    ensures t in s.run ==> s.run[t] == t == s.tcbs[t].curPrio
    ensures Live(s, t) && t != s.cur && !Ready(s, t) ==> exists d :: 0 <= d < NUM_DEVICES && t in s.queues[d]
  {
    AtMostOnePlace(s, t);
    OwnSlots(s);
    if k :| 0 <= k < NUM_QUEUES && t in s.queues[k] {
      assert s.queues[k] != [] && AllInUse(s.queues[k], s.numTasks);
    }
    if OnChain(s.queues, t) {
      var d :| 0 <= d < NUM_DEVICES && t in s.queues[d];
    }
  }

  // ---------------------------------------------------------------------------
  // Locks
  // ---------------------------------------------------------------------------

  /** A successful `mutex_lock` returns to its caller at once: no task ever waits for a mutex, and
      the slot reserved for lock holders stays empty. */
  lemma LockNeverSuspends(s: State, m: int, u: State)
    requires Invariant(s) && Next(s, Lock(m), u)
    ensures u.cur == s.cur && u.run == s.run && u.queues == s.queues && HIGHEST_PRIO !in s.run
    ensures forall k :: NUM_DEVICES <= k < NUM_QUEUES ==> s.queues[k] == []
    ensures MutexLock(s, m).1 == 0 <==> !BadMutex(s, m) && s.mutexes[m].holder == None
    ensures MutexLock(s, m).1 == 0 ==> u.mutexes[m].holder == Some(s.cur) && u.mutexes[m].locked
  {
    OwnSlots(s);
    if !BadMutex(s, m) && s.mutexes[m].holder != Some(s.cur) { NeverBlocks(s, m); }
  }

  /** All answers of `mutex_lock`, each with its cause; a refusal changes nothing. */
  lemma LockAnswers(s: State, m: int, u: State, r: int)
    requires Invariant(s) && Next(s, Lock(m), u) && r == MutexLock(s, m).1
    ensures r == -EINVAL <==> m < 0 || m >= s.curMutexNum
    ensures r == -EDEADLOCK <==> 0 <= m < OS_NUM_MUTEX && s.mutexes[m].holder == Some(s.cur)
    ensures r == 0 <==> 0 <= m < s.curMutexNum && s.mutexes[m].holder == None
    ensures r != 0 ==> u == s && (r == -EINVAL || r == -EDEADLOCK)
  {
    if 0 <= m < OS_NUM_MUTEX {
      var n: MutexId := m;
      assert s.mutexes[n].available <==> n >= s.curMutexNum;
    }
  }

  /** All answers of `mutex_unlock`. */
  lemma UnlockAnswers(s: State, m: int, u: State, r: int)
    requires Invariant(s) && Next(s, Unlock(m), u) && r == MutexUnlock(s, m).1
    ensures r == -EINVAL <==> m < 0 || m >= s.curMutexNum
    ensures r == -EPERM <==> 0 <= m < s.curMutexNum && s.mutexes[m].holder != Some(s.cur)
    ensures r == 0 <==> 0 <= m < OS_NUM_MUTEX && s.mutexes[m].holder == Some(s.cur)
    ensures r == 0 ==> Shape(u) && u.mutexes[m].holder == None && !u.mutexes[m].locked
    ensures r != 0 ==> u == s && (r == -EINVAL || r == -EPERM)
  {
    if 0 <= m < OS_NUM_MUTEX {
      var n: MutexId := m;
      assert s.mutexes[n].available <==> n >= s.curMutexNum;
      assert s.queues[MutexQueue(n)] == [];
    }
  }

  /** An unlock undoes a lock completely, nested or not: the whole kernel is as it was before. */
  lemma UnlockUndoesLock(s: State, m: int, u: State)
    requires Invariant(s) && Next(s, Lock(m), u) && MutexLock(s, m).1 == 0
    ensures Shape(u) && MutexUnlock(u, m) == (s, 0)
  {
    NeverBlocks(s, m);
    HeldByZero(s.mutexes, s.cur);
    var c, x, t := s.cur, s.mutexes[m], s.tcbs[s.cur];
    var y, v := x.(locked := true, holder := Some(c)), t.(holdsLock := t.holdsLock + 1, curPrio := HIGHEST_PRIO);
    assert u == s.(mutexes := s.mutexes[m := y], tcbs := s.tcbs[c := v]);
    assert x == y.(holder := None, locked := false);
    assert t == v.(holdsLock := t.holdsLock, curPrio := t.curPrio);
    assert s.mutexes[m := y][m := x] == s.mutexes && s.tcbs[c := v][c := t] == s.tcbs;
  }

  /** `mutex_create` hands out a number that was invalid before, until all mutexes are in use. */
  lemma CreateGivesFresh(s: State, u: State, r: int)
    requires Invariant(s) && MutexCreate(s) == (u, r)
    ensures r == -ENOMEM <==> forall m: MutexId :: !s.mutexes[m].available
    ensures r != -ENOMEM ==> Shape(u) && BadMutex(s, r) && !BadMutex(u, r) && u.mutexes[r].holder == None
    ensures forall m: MutexId :: m != r ==> u.mutexes[m] == s.mutexes[m]
  {
    if s.curMutexNum < OS_NUM_MUTEX {
      var n: MutexId := s.curMutexNum;
      assert s.mutexes[n].available;
    }
  }

  /** Who holds what: `holds_lock` counts the held mutexes, the priority is raised exactly while it
      is positive, only the running task holds any, and never more than there are. */
  lemma LockAccounting(s: State, t: Slot)
    requires Invariant(s) && Live(s, t)
    ensures s.tcbs[t].holdsLock == HeldBy(s.mutexes, t) <= OS_NUM_MUTEX
    ensures s.tcbs[t].curPrio == HIGHEST_PRIO <==> s.tcbs[t].holdsLock > 0
    ensures s.tcbs[t].holdsLock == 0 ==> s.tcbs[t].curPrio == s.tcbs[t].nativePrio == t
    ensures s.tcbs[t].holdsLock > 0 ==> t == s.cur && t != IDLE_PRIO
  {
    HeldByZero(s.mutexes, t);
  }

  // ---------------------------------------------------------------------------
  // The run queue never runs dry or overflows
  // ---------------------------------------------------------------------------

  /** The idle task is running or ready, so a task that suspends itself always finds a successor;
      and whoever is about to be queued finds its slot empty. */
  lemma NeverDry(s: State)
    requires Scheduling(s)
    ensures s.cur == IDLE_PRIO || (IDLE_PRIO in s.run && s.run[IDLE_PRIO] == IDLE_PRIO)
    ensures s.cur != IDLE_PRIO ==> s.run != map[]
    ensures forall t: Slot :: Live(s, t) && !Ready(s, t) && s.tcbs[t].holdsLock == 0 ==> s.tcbs[t].curPrio !in s.run
  {
    OwnSlots(s);
    assert Ready(s, IDLE_PRIO) ==> s.run[s.tcbs[IDLE_PRIO].curPrio] == IDLE_PRIO;
  }

  /** A tick that has somebody to wake consults `highest_prio` on a non-empty queue. */
  lemma DispatchSaveSeesSomebody(s: State, u: State)
    requires Scheduling(s) && SomeoneDue(s) && u == SignalFirst(s, |s.nextMatch|)
    ensures u.run != map[]
  {
    SignalFirstMoves(s, |s.nextMatch|, u);
    var d :| 0 <= d < NUM_DEVICES && Due(s, d) && s.queues[d] != [];
    assert s.queues[d][0] in s.queues[d];
    assert WokenBelow(s, NUM_DEVICES, s.queues[d][0]);
  }

  // ---------------------------------------------------------------------------
  // The best task runs, except after an unlock
  // ---------------------------------------------------------------------------

  /** An unlock that gives up the last lock, and with it the raised priority, without dispatching. */
  ghost predicate Restores(s: State, e: Event, u: State)
    requires Shape(s)
  {
    e.Unlock? && MutexUnlock(s, e.m).1 == 0 && s.tcbs[s.cur].holdsLock == 1
  }

  /** The dispatcher ran: somebody was woken, the caller went to sleep, or tasks were created. */
  ghost predicate Dispatches(s: State, e: Event, u: State)
    requires Shape(s)
  {
    match e
    case Tick => SomeoneDue(s.(now := s.now + TIME_RESOLUTION))
    case Wait(d) => s.run != map[] && EventWait(s, d).1 == 0
    case Spawn(tasks, ok) => TaskCreate(s, tasks, ok).1 == 1
    case _ => false
  }

  lemma SpawnFindsBest(s: State, tasks: seq<TaskDesc>, ok: bool, u: State)
    requires Bootable(s) && TaskCreate(s, tasks, ok) == (u, 1)
    ensures Shape(u) && BestRuns(u)
  {
    StartsRight(s, tasks, u);
  }

  lemma TickOutcome(s: State, v: State, u: State)
    requires Scheduling(s) && v == s.(now := s.now + TIME_RESOLUTION) && u == DevUpdate(v)
    ensures Shape(u) && u.tcbs == s.tcbs
    ensures if SomeoneDue(v) then BestRuns(u) else u.cur == s.cur && u.run == s.run
  {
    TickHolds(s, v, u);
  }

  lemma WaitFindsBest(s: State, d: nat, u: State)
    requires Invariant(s) && Next(s, Wait(d), u) && EventWait(s, d).1 == 0
    ensures Shape(u) && BestRuns(u)
  {
    EventWaitHolds(s, d, u);
  }

  lemma DispatchFindsBest(s: State, e: Event, u: State)
    requires Invariant(s) && Next(s, e, u) && Dispatches(s, e, u)
    ensures Shape(u) && BestRuns(u)
  {
    match e {
      case Tick => TickOutcome(s, s.(now := s.now + TIME_RESOLUTION), u);
      case Wait(d) => WaitFindsBest(s, d, u);
      case Spawn(tasks, ok) => SpawnFindsBest(s, tasks, ok, u);
    }
  }

  lemma CallsKeepBest(s: State, e: Event, u: State)
    requires Invariant(s) && Next(s, e, u) && BestRuns(s) && !e.Tick?
    requires !Restores(s, e, u) && !Dispatches(s, e, u)
    ensures Shape(u) && BestRuns(u)
  {
    match e {
      case Create =>
      case Lock(m) => LockNeverSuspends(s, m, u); OwnSlots(s);
      case Unlock(m) =>
        if MutexUnlock(s, m).1 == 0 {
          HeldByZero(s.mutexes, s.cur);
          assert s.queues[MutexQueue(m)] == [];
        }
      case Wait(d) =>
      case Spawn(tasks, ok) =>
    }
  }

  lemma QuietStepsKeepBest(s: State, e: Event, u: State)
    requires Invariant(s) && Next(s, e, u) && BestRuns(s) && !Restores(s, e, u) && !Dispatches(s, e, u)
    ensures Shape(u) && BestRuns(u)
  {
    if e.Tick? {
      TickOutcome(s, s.(now := s.now + TIME_RESOLUTION), u);
    } else {
      CallsKeepBest(s, e, u);
    }
  }

  lemma BestStep(s: State, e: Event, u: State)
    requires Invariant(s) && Next(s, e, u)
    ensures Shape(u)
    ensures BestRuns(u) || Restores(s, e, u) || (!BestRuns(s) && !Dispatches(s, e, u))
  {
    if Dispatches(s, e, u) {
      DispatchFindsBest(s, e, u);
    } else if BestRuns(s) && !Restores(s, e, u) {
      QuietStepsKeepBest(s, e, u);
    } else {
      StepHolds(s, e, u);
    }
  }

  ghost predicate NoDispatch(ss: seq<State>, es: seq<Event>, k: nat) {
    k < |es| < |ss| && Shape(ss[k]) && !Dispatches(ss[k], es[k], ss[k + 1])
  }

  ghost predicate UndispatchedSince(ss: seq<State>, es: seq<Event>, j: nat, i: nat) {
    && j < i <= |es| < |ss|
    && Shape(ss[j]) && Restores(ss[j], es[j], ss[j + 1])
    && forall k :: j < k < i ==> NoDispatch(ss, es, k)
  }

  ghost predicate BestOrExcused(ss: seq<State>, es: seq<Event>, i: nat) {
    i < |ss| && Shape(ss[i]) && (BestRuns(ss[i]) || exists j :: 0 <= j < i && UndispatchedSince(ss, es, j, i))
  }

  lemma ExcuseStep(ss: seq<State>, es: seq<Event>, i: nat)
    requires 0 < i <= |es| < |ss| && Invariant(ss[i - 1]) && Next(ss[i - 1], es[i - 1], ss[i])
    requires BestOrExcused(ss, es, i - 1)
    ensures BestOrExcused(ss, es, i)
  {
    var s, e, u := ss[i - 1], es[i - 1], ss[i];
    BestStep(s, e, u);
    if Restores(s, e, u) {
      assert UndispatchedSince(ss, es, i - 1, i);
    } else if !BestRuns(u) {
      var j :| 0 <= j < i - 1 && UndispatchedSince(ss, es, j, i - 1);
      assert NoDispatch(ss, es, i - 1);
      assert UndispatchedSince(ss, es, j, i);
    }
  }

  lemma ExcuseStepOfRun(ss: seq<State>, es: seq<Event>, i: nat)
    requires IsRun(ss, es) && Invariant(ss[0]) && 0 < i <= |es| && BestOrExcused(ss, es, i - 1)
    ensures BestOrExcused(ss, es, i)
  {
    RunHolds(ss, es, i - 1);
    assert Next(ss[i - 1], es[i - 1], ss[i - 1 + 1]);
    ExcuseStep(ss, es, i);
  }

  /** Whenever a ready task has at least the priority of the running one, an unlock has restored the
      native priority and nothing has been dispatched since. */
  lemma {:induction false} BestRunsExceptAfterUnlock(ss: seq<State>, es: seq<Event>, i: nat)
    requires IsRun(ss, es) && Invariant(ss[0]) && BestRuns(ss[0]) && i <= |es|
    ensures BestOrExcused(ss, es, i)
  {
    if i > 0 {
      BestRunsExceptAfterUnlock(ss, es, i - 1);
      ExcuseStepOfRun(ss, es, i);
    }
  }

  /** The exact condition: an unlock that restores the native priority leaves the running task the best
      one iff no better task became ready during the critical section. Such a task stays ready while
      its former victim runs on. */
  lemma UnlockLeavesBetterTaskReadyIff(s: State, m: int, u: State)
    requires Invariant(s) && Next(s, Unlock(m), u) && Restores(s, Unlock(m), u)
    ensures Shape(u) && u.cur == s.cur && u.run == s.run
    ensures BestRuns(u) <==> forall p :: p in s.run ==> s.cur < p
  {
    assert s.queues[MutexQueue(m)] == [];
    assert u.tcbs[u.cur].curPrio == s.cur;
  }

  // ---------------------------------------------------------------------------
  // Devices are punctual
  // ---------------------------------------------------------------------------

  /** `next_match` after `k` ticks, as `dev_update` computes it step by step. */
  function TickedMatch(t0: nat, f: nat, k: nat): nat {
    if k == 0 then t0 + f
    else
      var n := TickedMatch(t0, f, k - 1);
      if n <= t0 + k * TIME_RESOLUTION then n + f else n
  }

  /** Signals never drift, for any period of at least one tick. */
  lemma {:induction false} SignalsNeverDrift(t0: nat, f: nat, k: nat)
    requires f >= TIME_RESOLUTION
    ensures TickedMatch(t0, f, k) == NextSignal(t0, f, t0 + k * TIME_RESOLUTION)
  {
    if k == 0 {
      assert 0 / f == 0;
    } else {
      SignalsNeverDrift(t0, f, k - 1);
      NextSignalStep(t0, f, t0 + (k - 1) * TIME_RESOLUTION, TickedMatch(t0, f, k - 1));
    }
  }

  /** A tick takes a sleeper off its chain iff the device is due, and then it is ready or running. */
  lemma SleeperTick(s: State, v: State, u: State, d: nat, t: Slot)
    requires Scheduling(s) && v == s.(now := s.now + TIME_RESOLUTION) && u == DevUpdate(v)
    requires d < NUM_DEVICES && t in s.queues[d]
    ensures Shape(u)
    ensures if Due(v, d) then t !in u.queues[d] && (t == u.cur || t in u.run)
            else t in u.queues[d] && u.nextMatch[d] == s.nextMatch[d]
  {
    TickHolds(s, v, u);
    assert t in v.queues[d];
    if Due(v, d) { assert WokenBelow(v, NUM_DEVICES, t); }
  }

  /** No system call disturbs a sleeper. */
  lemma SleeperCall(s: State, e: Event, u: State, d: nat, t: Slot)
    requires Invariant(s) && Next(s, e, u) && !e.Spawn? && !e.Tick? && d < NUM_DEVICES && t in s.queues[d]
    ensures Shape(u) && t in u.queues[d] && u.nextMatch == s.nextMatch
  {
    match e {
      case Create =>
      case Lock(m) => LockNeverSuspends(s, m, u);
      case Unlock(m) => if MutexUnlock(s, m).1 == 0 { assert s.queues[MutexQueue(m)] == []; }
      case Wait(c) => if u != s { EventWaitHolds(s, c, u); }
    }
  }

  /** `event_wait` is refused to a task that holds any mutex; otherwise the caller sleeps. */
  lemma WaitOutcome(s: State, d: nat, u: State)
    requires Invariant(s) && Next(s, Wait(d), u)
    ensures EventWait(s, d).1 == -EHOLDSLOCK <==> exists m: MutexId :: s.mutexes[m].holder == Some(s.cur)
    ensures EventWait(s, d).1 == -EINVAL <==>
      d >= NUM_DEVICES && forall m: MutexId :: s.mutexes[m].holder != Some(s.cur)
    ensures EventWait(s, d).1 == 0 <==>
      d < NUM_DEVICES && forall m: MutexId :: s.mutexes[m].holder != Some(s.cur)
    ensures EventWait(s, d).1 != 0 ==> u == s
    ensures EventWait(s, d).1 == 0 ==>
      Shape(u) && d < NUM_DEVICES && s.cur in u.queues[d] && u.cur != s.cur && !Ready(u, s.cur)
  {
    HeldByZero(s.mutexes, s.cur);
    if EventWait(s, d).1 == 0 { EventWaitHolds(s, d, u); }
  }

  lemma SpawnEmptiesChains(s: State, tasks: seq<TaskDesc>, ok: bool, u: State, d: nat)
    requires Bootable(s) && u == TaskCreate(s, tasks, ok).0 && d < NUM_DEVICES
    ensures u == s || (|u.queues| == NUM_QUEUES && u.queues[d] == [])
  {
    if TaskCreate(s, tasks, ok).1 == 1 {
      var v := Populate(s, Reorder(tasks));
      PopulateYields(s, Reorder(tasks), v);
      DispatchSleepHolds(v, u);
    }
  }

  lemma SleeperStep(s: State, e: Event, u: State, d: nat, t: Slot)
    requires Invariant(s) && Next(s, e, u) && d < NUM_DEVICES && Shape(u) && t in s.queues[d] && t in u.queues[d]
    ensures u.nextMatch[d] == s.nextMatch[d]
  {
    if e.Tick? {
      SleeperTick(s, s.(now := s.now + TIME_RESOLUTION), u, d, t);
    } else if e.Spawn? {
      SpawnEmptiesChains(s, e.tasks, e.addrOk, u, d);
    } else {
      SleeperCall(s, e, u, d, t);
    }
  }

  lemma NotYetDue(s: State, d: nat)
    requires Invariant(s) && d < NUM_DEVICES
    ensures s.now < s.nextMatch[d] <= s.now + DevFreq(d)
  {
    NextSignalStep(s.epoch, DevFreq(d), s.now, s.nextMatch[d]);
  }

  ghost predicate AsleepDuring(ss: seq<State>, i: nat, j: nat, d: nat, t: Slot) {
    i <= j < |ss| && d < NUM_DEVICES && forall k :: i <= k <= j ==> Shape(ss[k]) && t in ss[k].queues[d]
  }

  lemma {:induction false} SameSignal(ss: seq<State>, es: seq<Event>, i: nat, j: nat, d: nat, t: Slot)
    requires IsRun(ss, es) && Invariant(ss[0]) && AsleepDuring(ss, i, j, d, t)
    ensures ss[j].nextMatch[d] == ss[i].nextMatch[d]
    decreases j
  {
    if i < j {
      var k := j - 1;
      assert AsleepDuring(ss, i, k, d, t);
      SameSignal(ss, es, i, k, d, t);
      SleeperStepOfRun(ss, es, k, d, t);
    }
  }

  lemma SleeperStepOfRun(ss: seq<State>, es: seq<Event>, k: nat, d: nat, t: Slot)
    requires IsRun(ss, es) && Invariant(ss[0]) && k < |es| && AsleepDuring(ss, k, k + 1, d, t)
    ensures ss[k + 1].nextMatch[d] == ss[k].nextMatch[d]
  {
    RunHolds(ss, es, k);
    SleeperStep(ss[k], es[k], ss[k + 1], d, t);
  }

  /** A task still asleep on a device has been there for less than the period of the device. */
  lemma SleepersWakeInTime(ss: seq<State>, es: seq<Event>, i: nat, j: nat, d: nat, t: Slot)
    requires IsRun(ss, es) && Invariant(ss[0]) && AsleepDuring(ss, i, j, d, t)
    ensures ss[j].now < ss[i].nextMatch[d] <= ss[i].now + DevFreq(d)
  {
    SameSignal(ss, es, i, j, d, t);
    RunHolds(ss, es, i);
    RunHolds(ss, es, j);
    NotYetDue(ss[i], d);
    NotYetDue(ss[j], d);
  }
}
