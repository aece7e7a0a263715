/** Every kernel operation keeps a well-formed state well-formed, whether or not it is reachable:
    no operation puts a task in two places or loses the idle task. */
module WellFormedness {
  import opened Config
  import opened KernelSpec

  /** The moment inside a blocking call just before `dispatch_sleep`: the task that still is the
      current one may already stand on a queue; the idle task is ready. */
  ghost predicate Suspending(s: State) {
    && Shape(s)
    && PrioritiesSane(s)
    && Ready(s, IDLE_PRIO)
    && (forall p :: p in s.run ==> s.tcbs[s.run[p]].curPrio == p)
    && QueuesDisjoint(s)
  }

  lemma AcquireKeeps(s: State, m: MutexId)
    requires WellFormed(s) && s.cur != IDLE_PRIO
    ensures WellFormed(Acquire(s, m))
  {
    var u := Acquire(s, m);
    forall t: Slot | t != s.cur ensures Ready(u, t) == Ready(s, t) {}
  }

  lemma DispatchSleepKeeps(s: State)
    requires Suspending(s)
    ensures s.run != map[] && WellFormed(DispatchSleep(s))
  {
    assert IDLE_PRIO in s.run;
    var h := Highest(s.run);
    var t := s.run[h];
    var u := s.(run := s.run - {h}, cur := t);
    forall x: Slot ensures Ready(u, x) <==> Ready(s, x) && x != t {}
    assert Ready(s, t);
    assert WellFormed(u);
    if s.tcbs[t].resume.Some? {
      var v := u.(tcbs := u.tcbs[t := u.tcbs[t].(resume := None)]);
      forall x: Slot ensures Ready(v, x) == Ready(u, x) {}
      assert WellFormed(v);
      AcquireKeeps(v, s.tcbs[t].resume.value);
    }
  }

  lemma RequeueSuspends(s: State)
    requires WellFormed(s)
    ensures Suspending(s.(run := s.run[s.tcbs[s.cur].curPrio := s.cur]))
  {
    var p := s.tcbs[s.cur].curPrio;
    var u := s.(run := s.run[p := s.cur]);
    forall x: Slot | x != s.cur ensures Ready(u, x) ==> Ready(s, x) {}
  }

  lemma DispatchSaveKeeps(s: State)
    requires WellFormed(s)
    ensures WellFormed(DispatchSave(s))
  {
    RequeueSuspends(s);
    DispatchSleepKeeps(s.(run := s.run[s.tcbs[s.cur].curPrio := s.cur]));
  }

  /** Putting the current task on one queue, at either end. */
  lemma JoiningSuspends(s: State, k: nat, q: seq<Slot>, u: State)
    requires WellFormed(s) && s.cur != IDLE_PRIO && k < NUM_QUEUES
    requires q == [s.cur] + s.queues[k] || q == s.queues[k] + [s.cur]
    requires Shape(u) && u == s.(queues := s.queues[k := q], tcbs := u.tcbs)
    requires forall t: Slot :: u.tcbs[t] == s.tcbs[t].(resume := u.tcbs[t].resume) && (t == IDLE_PRIO ==> u.tcbs[t] == s.tcbs[t])
    ensures Suspending(u)
  {
    forall t: Slot ensures Ready(u, t) == Ready(s, t) {}
    assert forall t: Slot :: t in q <==> t == s.cur || t in s.queues[k];
    assert s.cur !in s.queues[k];
    assert NoDup(s.queues[k]);
    assert NoDup(q);
  }

  lemma PopReadyKeeps(s: State, k: nat)
    requires WellFormed(s) && k < NUM_QUEUES && s.queues[k] != []
    ensures WellFormed(PopReady(s, k))
  {
    var q := s.queues[k];
    var t, u := q[0], PopReady(s, k);
    assert t in q && q == [t] + q[1..];
    assert NoDup(q);
    forall x: Slot | x in q[1..] ensures x != t && x in q {
      var i :| 0 <= i < |q| - 1 && q[1..][i] == x;
      assert q[i + 1] == x;
    }
    assert NoDup(q[1..]);
    forall x: Slot | x != t ensures Ready(u, x) ==> Ready(s, x) {}
    assert Ready(s, IDLE_PRIO) ==> Ready(u, IDLE_PRIO);
  }

  lemma ReleaseKeeps(s: State, m: MutexId, next: Option<Slot>)
    requires WellFormed(s) && s.cur != IDLE_PRIO
    ensures WellFormed(Release(s, m, next))
  {
    var u := Release(s, m, next);
    forall t: Slot | t != s.cur ensures Ready(u, t) == Ready(s, t) {}
  }

  lemma {:induction false} DrainKeeps(s: State, k: nat)
    requires WellFormed(s) && k < NUM_QUEUES
    ensures WellFormed(Drain(s, k))
    decreases |s.queues[k]|
  {
    if s.queues[k] != [] {
      PopReadyKeeps(s, k);
      DrainKeeps(PopReady(s, k), k);
    }
  }

  lemma OtherFieldsDoNotMatter(s: State, u: State)
    requires WellFormed(s) && Shape(u)
    requires u.tcbs == s.tcbs && u.cur == s.cur && u.run == s.run && u.queues == s.queues
    ensures WellFormed(u)
  {
    forall t: Slot ensures Ready(u, t) == Ready(s, t) {}
  }

  lemma {:induction false} SignalFirstKeeps(s: State, n: nat)
    requires WellFormed(s) && n <= NUM_DEVICES
    ensures WellFormed(SignalFirst(s, n))
  {
    if n > 0 {
      SignalFirstKeeps(s, n - 1);
      var v := SignalFirst(s, n - 1);
      DrainKeeps(v, n - 1);
      if Due(v, n - 1) { OtherFieldsDoNotMatter(Drain(v, n - 1), Signal(v, n - 1)); }
    }
  }

  /** Queues behind the first `n` are left alone. */
  lemma {:induction false} SignalsSpareOthers(s: State, n: nat, k: nat)
    requires Shape(s) && n <= NUM_DEVICES && n <= k < NUM_QUEUES
    ensures SignalFirst(s, n).queues[k] == s.queues[k]
    ensures k < NUM_DEVICES ==> SignalFirst(s, n).nextMatch[k] == s.nextMatch[k]
  {
    if n > 0 { SignalsSpareOthers(s, n - 1, k); }
  }

  lemma DevUpdateKeeps(s: State)
    requires WellFormed(s)
    ensures WellFormed(DevUpdate(s))
  {
    SignalFirstKeeps(s, |s.nextMatch|);
    DispatchSaveKeeps(SignalFirst(s, |s.nextMatch|));
  }

  lemma TickKeeps(s: State, u: State)
    requires WellFormed(s) && u == Tick(s)
    ensures WellFormed(u)
  {
    var v := s.(now := s.now + TIME_RESOLUTION);
    OtherFieldsDoNotMatter(s, v);
    DevUpdateKeeps(v);
  }

  lemma EventWaitKeeps(s: State, d: nat)
    requires WellFormed(s) && s.cur != IDLE_PRIO
    ensures s.run != map[] && WellFormed(EventWait(s, d).0)
  {
    assert Ready(s, IDLE_PRIO);
    if d < NUM_DEVICES {
      JoiningSuspends(s, d, [s.cur] + s.queues[d], PushFront(s, d));
      DispatchSleepKeeps(PushFront(s, d));
    }
  }

  lemma MutexLockKeeps(s: State, m: int)
    requires WellFormed(s) && s.cur != IDLE_PRIO
    ensures s.run != map[] && WellFormed(MutexLock(s, m).0)
  {
    assert Ready(s, IDLE_PRIO);
    if !BadMutex(s, m) {
      JoiningSuspends(s, MutexQueue(m), s.queues[MutexQueue(m)] + [s.cur], Await(s, m));
      DispatchSleepKeeps(Await(s, m));
      var u := s.(mutexes := s.mutexes[m := s.mutexes[m].(locked := true)]);
      OtherFieldsDoNotMatter(s, u);
      AcquireKeeps(u, m);
    }
  }

  lemma MutexUnlockKeeps(s: State, m: int)
    requires WellFormed(s) && s.cur != IDLE_PRIO
    ensures WellFormed(MutexUnlock(s, m).0)
  {
    if !BadMutex(s, m) {
      var k := MutexQueue(m);
      if s.queues[k] == [] {
        ReleaseKeeps(s, m, None);
      } else {
        PopReadyKeeps(s, k);
        ReleaseKeeps(PopReady(s, k), m, Some(s.queues[k][0]));
      }
    }
  }

  lemma MutexCreateKeeps(s: State)
    requires WellFormed(s)
    ensures WellFormed(MutexCreate(s).0)
  {
    OtherFieldsDoNotMatter(s, MutexCreate(s).0);
  }
}
