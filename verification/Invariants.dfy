/** What holds in every state the kernel can reach once tasks have been created. */
module Invariants {
  import opened Config
  import opened KernelSpec
  import opened WellFormedness

  // ---------------------------------------------------------------------------
  // The invariant
  // ---------------------------------------------------------------------------

  predicate Live(s: State, t: Slot) {
    InUse(t, s.numTasks)
  }

  predicate OnChain(queues: seq<seq<Slot>>, t: Slot)
    requires |queues| == NUM_QUEUES
  {
    exists d :: 0 <= d < NUM_DEVICES && t in queues[d]
  }

  predicate AllInUse(q: seq<Slot>, n: nat) {
    forall t :: t in q ==> InUse(t, n)
  }

  /** Only tasks of the system are anywhere, and nobody waits for a mutex. */
  ghost predicate Members(s: State)
    requires Shape(s)
  {
    && s.numTasks <= OS_AVAIL_TASKS
    && (forall p :: p in s.run ==> Live(s, s.run[p]))
    && (forall d :: 0 <= d < NUM_DEVICES ==> AllInUse(s.queues[d], s.numTasks))
    && (forall k :: NUM_DEVICES <= k < NUM_QUEUES ==> s.queues[k] == [])
    && (forall t: Slot :: Live(s, t) ==> s.tcbs[t].nativePrio == t && s.tcbs[t].resume == None)
  }

  /** No task of the system is lost. */
  ghost predicate NobodyLost(s: State)
    requires Shape(s)
  {
    Live(s, s.cur) && forall t: Slot :: Live(s, t) ==> t == s.cur || Ready(s, t) || OnChain(s.queues, t)
  }

  /** How many mutexes `t` holds. */
  function HeldBy(ms: seq<Mutex>, t: Slot): nat {
    if ms == [] then 0 else (if ms[0].holder == Some(t) then 1 else 0) + HeldBy(ms[1..], t)
  }

  /** Created mutexes are those below `curMutexNum`; a mutex is locked iff it has a holder. */
  ghost predicate TableOk(s: State)
    requires Shape(s)
  {
    forall m: MutexId ::
      && (s.mutexes[m].available <==> m >= s.curMutexNum)
      && (s.mutexes[m].locked <==> s.mutexes[m].holder.Some?)
      && (s.mutexes[m].holder.Some? ==> !s.mutexes[m].available)
  }

  /** Highest Locker Priority: only the current task holds mutexes, at the highest priority. */
  ghost predicate Locks(s: State)
    requires Shape(s)
  {
    && TableOk(s)
    && (forall m: MutexId :: s.mutexes[m].holder.Some? ==> s.mutexes[m].holder.value == s.cur && s.cur != IDLE_PRIO)
    && (forall t: Slot :: Live(s, t) ==> s.tcbs[t].holdsLock == HeldBy(s.mutexes, t))
    && (forall t: Slot :: Live(s, t) ==>
          s.tcbs[t].curPrio == if s.tcbs[t].holdsLock > 0 then HIGHEST_PRIO else s.tcbs[t].nativePrio)
  }

  /** When a device set up at `t0` with period `f` signals next. */
  function NextSignal(t0: nat, f: nat, now: nat): nat
    requires t0 <= now && f > 0
  {
    t0 + f * ((now - t0) / f + 1)
  }

  ghost predicate Clockwork(s: State)
    requires Shape(s)
  {
    s.epoch <= s.now
    && forall d :: 0 <= d < NUM_DEVICES ==> s.nextMatch[d] == NextSignal(s.epoch, DevFreq(d), s.now)
  }

  ghost predicate Scheduling(s: State) {
    WellFormed(s) && Members(s) && NobodyLost(s) && Locks(s)
  }

  ghost predicate Invariant(s: State) {
    Scheduling(s) && Clockwork(s)
  }

  /** Just before `dispatch_sleep`, when the current task holds nothing. */
  ghost predicate Yielding(s: State) {
    && Suspending(s) && Members(s) && TableOk(s)
    && (forall t: Slot :: Live(s, t) ==> Ready(s, t) || OnChain(s.queues, t))
    && (forall m: MutexId :: s.mutexes[m].holder == None)
    && (forall t: Slot :: Live(s, t) ==> s.tcbs[t].holdsLock == 0 && s.tcbs[t].curPrio == t)
  }

  // ---------------------------------------------------------------------------
  // Counting held mutexes
  // ---------------------------------------------------------------------------

  lemma {:induction false} HeldByUpdate(ms: seq<Mutex>, m: nat, x: Mutex, t: Slot)
    requires m < |ms|
    ensures HeldBy(ms[m := x], t) == HeldBy(ms, t)
      - (if ms[m].holder == Some(t) then 1 else 0) + (if x.holder == Some(t) then 1 else 0)
  {
    if m == 0 {
      assert ms[0 := x][1..] == ms[1..];
    } else {
      assert ms[m := x][1..] == ms[1..][m - 1 := x];
      HeldByUpdate(ms[1..], m - 1, x, t);
    }
  }

  lemma {:induction false} HeldByZero(ms: seq<Mutex>, t: Slot)
    ensures HeldBy(ms, t) == 0 <==> forall m :: 0 <= m < |ms| ==> ms[m].holder != Some(t)
    ensures HeldBy(ms, t) <= |ms|
  {
    if ms != [] {
      HeldByZero(ms[1..], t);
      assert forall m :: 0 <= m < |ms| - 1 ==> ms[1..][m] == ms[m + 1];
      if forall m :: 0 <= m < |ms| ==> ms[m].holder != Some(t) {
        assert ms[0].holder != Some(t);
        forall m | 0 <= m < |ms| - 1 ensures ms[1..][m].holder != Some(t) {
          assert ms[m + 1].holder != Some(t);
        }
      } else {
        var m :| 0 <= m < |ms| && ms[m].holder == Some(t);
        if m > 0 { assert ms[1..][m - 1].holder == Some(t); }
      }
    }
  }

  /** A task that holds nothing is not slowed down, and neither is anybody else. */
  lemma NothingHeld(s: State)
    requires Scheduling(s) && s.tcbs[s.cur].holdsLock == 0
    ensures forall m: MutexId :: s.mutexes[m].holder == None
    ensures forall t: Slot :: Live(s, t) ==> s.tcbs[t].holdsLock == 0 && s.tcbs[t].curPrio == t
  {
    HeldByZero(s.mutexes, s.cur);
    forall t: Slot | Live(s, t) ensures s.tcbs[t].holdsLock == 0 { HeldByZero(s.mutexes, t); }
  }

  /** Everybody but the current task has its native priority, and so its own slot. */
  lemma OthersAtNative(s: State, t: Slot)
    requires Scheduling(s) && Live(s, t) && t != s.cur
    ensures s.tcbs[t].holdsLock == 0 && s.tcbs[t].curPrio == t
  {
    HeldByZero(s.mutexes, t);
  }

  lemma OwnSlots(s: State)
    requires Scheduling(s)
    ensures forall p :: p in s.run ==> s.run[p] == p && p != s.cur && Live(s, p) && p != HIGHEST_PRIO
  {
    forall p | p in s.run ensures s.run[p] == p && p != s.cur && Live(s, p) {
      assert Ready(s, s.run[p]);
      OthersAtNative(s, s.run[p]);
    }
  }

  // ---------------------------------------------------------------------------
  // Dispatching
  // ---------------------------------------------------------------------------

  lemma DispatchSleepHolds(s: State, u: State)
    requires Yielding(s) && s.run != map[] && u == DispatchSleep(s)
    ensures Scheduling(u)
    ensures u == s.(run := u.run, cur := u.cur)
    ensures u.cur in s.run && s.run[u.cur] == u.cur && u.run == s.run - {u.cur}
    ensures forall p :: p in u.run ==> u.cur < p
  {
    DispatchSleepKeeps(s);
    var h := Highest(s.run);
    assert Ready(s, s.run[h]);
    assert u == s.(run := s.run - {h}, cur := h);
    forall t: Slot ensures Ready(u, t) <==> Ready(s, t) && t != h {}
    forall t: Slot | Live(s, t) ensures HeldBy(s.mutexes, t) == 0 { HeldByZero(s.mutexes, t); }
    forall t: Slot | Live(u, t) ensures t == u.cur || Ready(u, t) || OnChain(u.queues, t) {
      assert Ready(s, t) || OnChain(s.queues, t);
    }
  }

  lemma PreemptionYields(s: State, v: State)
    requires Scheduling(s) && s.tcbs[s.cur].holdsLock == 0
    requires v == s.(run := s.run[s.tcbs[s.cur].curPrio := s.cur])
    ensures Yielding(v) && s.tcbs[s.cur].curPrio !in s.run
  {
    NothingHeld(s);
    OwnSlots(s);
    RequeueSuspends(s);
    forall t: Slot | Live(s, t) ensures Ready(v, t) || OnChain(v.queues, t) {
      assert t == s.cur || Ready(s, t) || OnChain(s.queues, t);
    }
  }

  lemma PreemptionHolds(s: State, v: State, u: State)
    requires Scheduling(s) && s.tcbs[s.cur].holdsLock == 0
    requires v == s.(run := s.run[s.tcbs[s.cur].curPrio := s.cur]) && v.run != map[] && u == DispatchSleep(v)
    ensures Scheduling(u) && u == s.(run := u.run, cur := u.cur)
    ensures forall p :: p in u.run ==> u.cur < p
    ensures u.run.Keys + {u.cur} == s.run.Keys + {s.cur}
  {
    NothingHeld(s);
    PreemptionYields(s, v);
    DispatchSleepHolds(v, u);
  }

  lemma AlreadyBest(s: State)
    requires Scheduling(s) && s.tcbs[s.cur].curPrio <= Highest(s.run)
    ensures forall p :: p in s.run ==> s.tcbs[s.cur].curPrio < p
  {
    OwnSlots(s);
    assert s.tcbs[s.cur].curPrio == s.cur || s.tcbs[s.cur].curPrio == HIGHEST_PRIO;
  }

  /** `dispatch_save` leaves the better of the current and the best ready task running. */
  lemma DispatchSaveHolds(s: State, u: State)
    requires Scheduling(s) && u == DispatchSave(s)
    ensures Scheduling(u) && u == s.(run := u.run, cur := u.cur)
    ensures forall p :: p in u.run ==> u.tcbs[u.cur].curPrio < p
    ensures u.run.Keys + {u.cur} == s.run.Keys + {s.cur}
  {
    var c := s.tcbs[s.cur].curPrio;
    if c > Highest(s.run) {
      assert s.tcbs[s.cur].holdsLock == 0 by { HeldByZero(s.mutexes, s.cur); }
      var v := s.(run := s.run[c := s.cur]);
      assert c in v.run;
      PreemptionHolds(s, v, u);
      NothingHeld(s);
    } else {
      AlreadyBest(s);
    }
  }

  // ---------------------------------------------------------------------------
  // Mutexes
  // ---------------------------------------------------------------------------

  lemma MutexCreateHolds(s: State, u: State)
    requires Scheduling(s) && u == MutexCreate(s).0
    ensures Scheduling(u)
  {
    MutexCreateKeeps(s);
    if s.curMutexNum < OS_NUM_MUTEX {
      var n := s.curMutexNum;
      forall t: Slot ensures HeldBy(u.mutexes, t) == HeldBy(s.mutexes, t) {
        HeldByUpdate(s.mutexes, n, s.mutexes[n].(available := false), t);
      }
      forall t: Slot ensures Ready(u, t) == Ready(s, t) {}
    }
  }

  lemma LockFreeMutexHolds(s: State, m: MutexId, u: State)
    requires Scheduling(s) && s.cur != IDLE_PRIO
    requires !s.mutexes[m].available && !s.mutexes[m].locked
    requires u == Acquire(s.(mutexes := s.mutexes[m := s.mutexes[m].(locked := true)]), m)
    ensures Scheduling(u)
  {
    var v := s.(mutexes := s.mutexes[m := s.mutexes[m].(locked := true)]);
    OtherFieldsDoNotMatter(s, v);
    AcquireKeeps(v, m);
    var x := s.mutexes[m].(locked := true, holder := Some(s.cur));
    assert u.mutexes == s.mutexes[m := x];
    forall t: Slot ensures HeldBy(u.mutexes, t) == HeldBy(s.mutexes, t) + if t == s.cur then 1 else 0 {
      HeldByUpdate(s.mutexes, m, x, t);
    }
    forall t: Slot | t != s.cur ensures Ready(u, t) == Ready(s, t) {}
  }

  /** No contention: a mutex is locked only while its holder runs, so a created mutex that the
      current task does not hold is free. */
  lemma NeverBlocks(s: State, m: int)
    requires Scheduling(s) && !BadMutex(s, m) && s.mutexes[m].holder != Some(s.cur)
    ensures !s.mutexes[m].locked && s.queues[MutexQueue(m)] == []
  {}

  lemma MutexLockHolds(s: State, m: int, u: State)
    requires Scheduling(s) && s.cur != IDLE_PRIO && s.run != map[] && u == MutexLock(s, m).0
    ensures Scheduling(u)
  {
    if !BadMutex(s, m) && s.mutexes[m].holder != Some(s.cur) {
      NeverBlocks(s, m);
      LockFreeMutexHolds(s, m, u);
    }
  }

  lemma ReleaseHolds(s: State, m: MutexId, u: State)
    requires Scheduling(s) && s.mutexes[m].holder == Some(s.cur) && u == Release(s, m, None)
    ensures Scheduling(u)
  {
    ReleaseKeeps(s, m, None);
    var x := s.mutexes[m].(locked := false, holder := None);
    assert u.mutexes == s.mutexes[m := x];
    forall t: Slot ensures HeldBy(u.mutexes, t) == HeldBy(s.mutexes, t) - if t == s.cur then 1 else 0 {
      HeldByUpdate(s.mutexes, m, x, t);
    }
    forall t: Slot | t != s.cur ensures Ready(u, t) == Ready(s, t) {}
  }

  lemma MutexUnlockHolds(s: State, m: int, u: State)
    requires Scheduling(s) && s.cur != IDLE_PRIO && u == MutexUnlock(s, m).0
    ensures Scheduling(u)
  {
    if !BadMutex(s, m) && s.mutexes[m].holder == Some(s.cur) {
      assert s.queues[MutexQueue(m)] == [];
      ReleaseHolds(s, m, u);
    }
  }

  // ---------------------------------------------------------------------------
  // Devices
  // ---------------------------------------------------------------------------

  /** The caller of `dev_wait` is on its chain and about to call `dispatch_sleep`. */
  lemma WaitYields(s: State, d: nat, v: State)
    requires Scheduling(s) && s.cur != IDLE_PRIO && s.tcbs[s.cur].holdsLock == 0
    requires d < NUM_DEVICES && v == PushFront(s, d)
    ensures Yielding(v)
  {
    JoiningSuspends(s, d, [s.cur] + s.queues[d], v);
    NothingHeld(s);
    forall t: Slot ensures Ready(v, t) == Ready(s, t) {}
    forall t: Slot | Live(v, t) ensures Ready(v, t) || OnChain(v.queues, t) {
      if t == s.cur {
        assert t in v.queues[d];
      } else if OnChain(s.queues, t) {
        var e :| 0 <= e < NUM_DEVICES && t in s.queues[e];
        assert t in v.queues[e];
      }
    }
    assert AllInUse(s.queues[d], s.numTasks);
  }

  lemma EventWaitHolds(s: State, d: nat, u: State)
    requires Scheduling(s) && s.cur != IDLE_PRIO && s.run != map[] && u == EventWait(s, d).0
    requires s.tcbs[s.cur].holdsLock == 0 && d < NUM_DEVICES
    ensures Scheduling(u)
    ensures u == s.(run := u.run, cur := u.cur, queues := s.queues[d := [s.cur] + s.queues[d]])
    ensures u.cur in s.run && u.run == s.run - {u.cur}
    ensures forall p :: p in u.run ==> u.cur < p
  {
    WaitYields(s, d, PushFront(s, d));
    DispatchSleepHolds(PushFront(s, d), u);
  }

  lemma PopReadyHolds(s: State, d: nat, u: State)
    requires Scheduling(s) && d < NUM_DEVICES && s.queues[d] != [] && u == PopReady(s, d)
    ensures Scheduling(u)
    ensures s.tcbs[s.queues[d][0]].curPrio !in s.run
    ensures u.run == s.run[s.queues[d][0] := s.queues[d][0]]
  {
    var q := s.queues[d];
    var t := q[0];
    assert t in q && q == [t] + q[1..];
    assert AllInUse(q, s.numTasks);
    PopReadyKeeps(s, d);
    OthersAtNative(s, t);
    OwnSlots(s);
    assert !Ready(s, t);
    assert t !in s.run;
    forall x: Slot ensures Ready(u, x) <==> x == t || Ready(s, x) {}
    forall x: Slot | Live(u, x) ensures x == u.cur || Ready(u, x) || OnChain(u.queues, x) {
      if x != t && OnChain(s.queues, x) {
        var e :| 0 <= e < NUM_DEVICES && x in s.queues[e];
        assert x in u.queues[e];
      }
    }
    assert AllInUse(q[1..], s.numTasks);
  }

  lemma WokenOneByOne(run: map<Slot, Slot>, q: seq<Slot>, all: map<Slot, Slot>)
    requires q != [] && forall t: Slot :: t in all <==> t in run[q[0] := q[0]] || t in q[1..]
    ensures forall t: Slot :: t in all <==> t in run || t in q
  {
    assert q == [q[0]] + q[1..];
  }

  lemma {:induction false} DrainHolds(s: State, d: nat, u: State)
    requires Scheduling(s) && d < NUM_DEVICES && u == Drain(s, d)
    ensures Scheduling(u)
    ensures forall t: Slot :: t in u.run <==> t in s.run || t in s.queues[d]
    decreases |s.queues[d]|
  {
    if s.queues[d] != [] {
      var v := PopReady(s, d);
      PopReadyHolds(s, d, v);
      DrainHolds(v, d, u);
      WokenOneByOne(s.run, s.queues[d], u.run);
    }
  }

  /** A device below `n` has signalled `t`. */
  predicate WokenBelow(s: State, n: nat, t: Slot)
    requires Shape(s) && n <= NUM_DEVICES
  {
    exists d :: 0 <= d < n && Due(s, d) && t in s.queues[d]
  }

  lemma ClockDoesNotMatter(s: State, u: State)
    requires Scheduling(s) && Shape(u) && u == s.(now := u.now, nextMatch := u.nextMatch)
    ensures Scheduling(u)
  {
    OtherFieldsDoNotMatter(s, u);
    forall t: Slot ensures Ready(u, t) == Ready(s, t) {}
  }

  lemma SignalMoves(s: State, d: nat, u: State)
    requires Scheduling(s) && d < NUM_DEVICES && u == Signal(s, d)
    ensures Scheduling(u) && u == s.(run := u.run, queues := u.queues, nextMatch := u.nextMatch)
    ensures forall t: Slot :: t in u.run <==> t in s.run || (Due(s, d) && t in s.queues[d])
    ensures u.queues == if Due(s, d) then s.queues[d := []] else s.queues
    ensures u.nextMatch == s.nextMatch[d := s.nextMatch[d] + if Due(s, d) then DevFreq(d) else 0]
  {
    if Due(s, d) {
      var w := Drain(s, d);
      DrainHolds(s, d, w);
      ClockDoesNotMatter(w, u);
    }
  }

  /** Exactly the sleepers of those of the first `n` devices that are due have become ready. */
  ghost predicate Moved(s: State, n: nat, u: State)
    requires Shape(s) && n <= NUM_DEVICES
  {
    && Shape(u) && u == s.(run := u.run, queues := u.queues, nextMatch := u.nextMatch)
    && (forall t: Slot :: t in u.run <==> t in s.run || WokenBelow(s, n, t))
    && (forall k :: 0 <= k < NUM_QUEUES ==> u.queues[k] == if k < n && Due(s, k) then [] else s.queues[k])
    && (forall d :: 0 <= d < NUM_DEVICES ==>
          u.nextMatch[d] == s.nextMatch[d] + if d < n && Due(s, d) then DevFreq(d) else 0)
  }

  lemma NothingMoved(s: State)
    requires Shape(s)
    ensures Moved(s, 0, s)
  {}

  lemma MovedStep(s: State, d: nat, v: State, u: State)
    requires Shape(s) && d < NUM_DEVICES && Moved(s, d, v)
    requires Shape(u) && u == v.(run := u.run, queues := u.queues, nextMatch := u.nextMatch)
    requires forall t: Slot :: t in u.run <==> t in v.run || (Due(v, d) && t in v.queues[d])
    requires u.queues == if Due(v, d) then v.queues[d := []] else v.queues
    requires u.nextMatch == v.nextMatch[d := v.nextMatch[d] + if Due(v, d) then DevFreq(d) else 0]
    ensures Moved(s, d + 1, u)
  {
    assert v.queues[d] == s.queues[d] && v.nextMatch[d] == s.nextMatch[d];
    assert forall t: Slot :: WokenBelow(s, d + 1, t) <==> WokenBelow(s, d, t) || (Due(s, d) && t in s.queues[d]);
  }

  lemma OneMoreSignal(s: State, d: nat, v: State, u: State)
    requires Shape(s) && Scheduling(v) && d < NUM_DEVICES && Moved(s, d, v) && u == Signal(v, d)
    ensures Scheduling(u) && Moved(s, d + 1, u)
  {
    SignalMoves(v, d, u);
    MovedStep(s, d, v, u);
  }

  /** `dev_update` moves exactly the sleepers of the due devices to the run queue. */
  lemma {:induction false} SignalFirstMoves(s: State, n: nat, u: State)
    requires Scheduling(s) && n <= NUM_DEVICES && u == SignalFirst(s, n)
    ensures Scheduling(u) && Moved(s, n, u)
  {
    if n == 0 {
      NothingMoved(s);
    } else {
      var v := SignalFirst(s, n - 1);
      SignalFirstMoves(s, n - 1, v);
      OneMoreSignal(s, n - 1, v, u);
    }
  }

  /** The running task is strictly better than every ready one. */
  ghost predicate BestRuns(s: State)
    requires Shape(s)
  {
    forall p :: p in s.run ==> s.tcbs[s.cur].curPrio < p
  }

  /** What a timer interrupt does, `v` being the state with the clock advanced. */
  lemma TickHolds(s: State, v: State, u: State)
    requires Scheduling(s) && v == s.(now := s.now + TIME_RESOLUTION) && u == DevUpdate(v)
    ensures Scheduling(u) && u == v.(run := u.run, cur := u.cur, queues := u.queues, nextMatch := u.nextMatch)
    ensures forall t: Slot :: t == u.cur || t in u.run <==> t == s.cur || t in s.run || WokenBelow(v, NUM_DEVICES, t)
    ensures forall k :: 0 <= k < NUM_QUEUES ==>
      u.queues[k] == if k < NUM_DEVICES && Due(v, k) then [] else s.queues[k]
    ensures forall d :: 0 <= d < NUM_DEVICES ==>
      u.nextMatch[d] == s.nextMatch[d] + if Due(v, d) then DevFreq(d) else 0
    ensures if SomeoneDue(v) then BestRuns(u) else u.cur == s.cur && u.run == s.run
  {
    ClockDoesNotMatter(s, v);
    var n := |v.nextMatch|;
    var w := SignalFirst(v, n);
    SignalFirstMoves(v, n, w);
    if SomeoneDue(v) {
      DispatchAfterSignals(v, w, u);
    } else {
      forall t: Slot ensures !WokenBelow(v, n, t) {}
      SameRun(v, w);
    }
  }

  lemma SameRun(s: State, u: State)
    requires Scheduling(s) && Scheduling(u) && forall t: Slot :: t in s.run <==> t in u.run
    ensures u.run == s.run
  {
    OwnSlots(s);
    OwnSlots(u);
  }

  lemma DispatchAfterSignals(v: State, w: State, u: State)
    requires Scheduling(v) && Scheduling(w) && w == v.(run := w.run, queues := w.queues, nextMatch := w.nextMatch)
    requires forall t: Slot :: t in w.run <==> t in v.run || WokenBelow(v, NUM_DEVICES, t)
    requires u == DispatchSave(w)
    ensures Scheduling(u) && u == w.(run := u.run, cur := u.cur) && BestRuns(u)
    ensures forall t: Slot :: t == u.cur || t in u.run <==> t == v.cur || t in v.run || WokenBelow(v, NUM_DEVICES, t)
  {
    DispatchSaveHolds(w, u);
    forall t: Slot ensures t == u.cur || t in u.run <==> t == w.cur || t in w.run {
      assert t == u.cur || t in u.run <==> t in u.run.Keys + {u.cur};
    }
  }

  lemma MultipleIsLarge(d: int, f: int)
    requires f > 0
    ensures d >= 1 ==> d * f >= f
    ensures d <= -1 ==> d * f <= -f
  {}

  lemma QuotientIs(x: nat, f: nat, q: nat, r: nat)
    requires f > 0 && x == f * q + r && r < f
    ensures x / f == q
  {
    var d := x / f - q;
    assert d * f == r - x % f;
    MultipleIsLarge(d, f);
  }

  lemma QuotientStep(x: nat, f: nat, c: nat)
    requires f > 0 && c <= f
    ensures (x + c) / f == x / f + if x % f + c < f then 0 else 1
  {
    var q, r := x / f, x % f;
    var p := f * q;
    assert x == p + r;
    if r + c < f {
      QuotientIs(x + c, f, q, r + c);
    } else {
      assert f * (q + 1) == p + f;
      QuotientIs(x + c, f, q + 1, r + c - f);
    }
  }

  /** Advancing one tick, for any period of at least one tick. */
  lemma NextSignalStep(t0: nat, f: nat, now: nat, n: nat)
    requires t0 <= now && f >= TIME_RESOLUTION && n == NextSignal(t0, f, now)
    ensures NextSignal(t0, f, now + TIME_RESOLUTION) == if n <= now + TIME_RESOLUTION then n + f else n
    ensures now < n <= now + f
  {
    var x := now - t0;
    QuotientStep(x, f, TIME_RESOLUTION);
    var q := x / f;
    var p := f * q;
    assert x == p + x % f && f * (q + 1) == p + f && f * (q + 1 + 1) == p + f + f;
    assert x + TIME_RESOLUTION == now + TIME_RESOLUTION - t0;
  }
}
