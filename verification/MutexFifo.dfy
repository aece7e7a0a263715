/** Mutex queues are first-in first-out from any well-formed state on, including the states with
    contended mutexes that the priority rule keeps out of real runs. */
module MutexFifo {
  import opened Config
  import opened Schedule
  import opened KernelSpec
  import opened WellFormedness
  import opened KernelRuns

  predicate Blocks(s: State, m: int)
    requires Shape(s)
  {
    !BadMutex(s, m) && s.mutexes[m].holder != Some(s.cur) && s.mutexes[m].locked
  }

  predicate HandsOver(s: State, m: int)
    requires Shape(s)
  {
    !BadMutex(s, m) && s.mutexes[m].holder == Some(s.cur) && s.queues[MutexQueue(m)] != []
  }

  /** Who starts waiting for mutex `m` in this step. */
  function Arrival(s: State, e: Event, m: MutexId): seq<Slot>
    requires Shape(s)
  {
    if e == Lock(m) && Blocks(s, m) then [s.cur] else []
  }

  /** Who is made the owner of mutex `m` by the unlock of its holder in this step. */
  function Served(s: State, e: Event, m: MutexId): seq<Slot>
    requires Shape(s)
  {
    if e == Unlock(m) && HandsOver(s, m) then [s.queues[MutexQueue(m)][0]] else []
  }

  lemma TickSparesMutexes(s: State, v: State, u: State, k: nat)
    requires Shape(s) && v == s.(now := s.now + TIME_RESOLUTION) && u == DevUpdate(v)
    requires NUM_DEVICES <= k < NUM_QUEUES
    ensures Shape(u) && u.queues[k] == s.queues[k]
  {
    SignalsSpareOthers(v, |v.nextMatch|, k);
  }

  lemma LockAppends(s: State, a: int, m: MutexId, u: State)
    requires Shape(s) && Next(s, Lock(a), u)
    ensures Shape(u) && u.queues[MutexQueue(m)] == s.queues[MutexQueue(m)] + Arrival(s, Lock(a), m)
  {
    if Blocks(s, a) {
      assert u.queues == Await(s, a).queues;
    }
  }

  /** A caller that has to wait is suspended in the middle of `mutex_lock`, and somebody else runs. */
  lemma {:induction false} WaiterIsSuspended(s: State, a: int, u: State)
    requires WellFormed(s) && Next(s, Lock(a), u) && Blocks(s, a)
    ensures Shape(u) && u.cur != s.cur && !Ready(u, s.cur) && u.tcbs[s.cur].resume == Some(a)
  {
    var v := Await(s, a);
    var h := Highest(v.run);
    assert v.run == s.run && v.run[h] != s.cur;
    LockAppends(s, a, a, u);
  }

  /** Whoever was suspended in `mutex_lock` has the mutex when it runs again: as holder, counted, and at
      the highest priority. */
  lemma ResumedWaiterHolds(s: State, t: Slot, m: MutexId, u: State)
    requires Shape(s) && s.tcbs[t].resume == Some(m) && u == SwitchTo(s, t)
    ensures Shape(u) && u.cur == t && u.mutexes[m].holder == Some(t)
    ensures u.tcbs[t].holdsLock == s.tcbs[t].holdsLock + 1 && u.tcbs[t].curPrio == HIGHEST_PRIO
    ensures u.tcbs[t].resume == None
  {}

  /** The head of the queue becomes owner and ready; the mutex stays locked. */
  lemma UnlockServesHead(s: State, a: int, m: MutexId, u: State)
    requires WellFormed(s) && Next(s, Unlock(a), u)
    ensures Shape(u) && Served(s, Unlock(a), m) + u.queues[MutexQueue(m)] == s.queues[MutexQueue(m)]
    ensures a == m && HandsOver(s, m) ==>
      var head := s.queues[MutexQueue(m)][0];
      u.mutexes[m].holder == Some(head) && u.mutexes[m].locked == s.mutexes[m].locked && Ready(u, head)
    ensures MutexUnlock(s, a).1 == 0 ==>
      var held := s.tcbs[s.cur].holdsLock - 1;
      u.tcbs[s.cur] == s.tcbs[s.cur].(holdsLock := held,
        curPrio := if held == 0 then s.tcbs[s.cur].nativePrio else s.tcbs[s.cur].curPrio)
  {
    if HandsOver(s, a) {
      var q := s.queues[MutexQueue(a)];
      assert q == [q[0]] + q[1..];
      assert q[0] in q;
    }
  }

  lemma {:induction false} OthersSpareMutexes(s: State, e: Event, u: State, m: MutexId)
    requires WellFormed(s) && Next(s, e, u) && (e.Create? || e.Wait? || e.Spawn?)
    ensures Shape(u) && u.queues[MutexQueue(m)] == s.queues[MutexQueue(m)]
  {
    match e {
      case Create =>
      case Wait(d) => WaitSparesMutexes(s, d, u, m);
      case Spawn(tasks, ok) => SpawnSparesMutexes(s, tasks, ok, u, m);
    }
  }

  lemma WaitSparesMutexes(s: State, d: nat, u: State, m: MutexId)
    requires Shape(s) && s.run != map[] && u == EventWait(s, d).0
    ensures Shape(u) && u.queues[MutexQueue(m)] == s.queues[MutexQueue(m)]
  {
    if u != s { assert u.queues == PushFront(s, d).queues; }
  }

  lemma {:induction false} SpawnSparesMutexes(s: State, tasks: seq<TaskDesc>, ok: bool, u: State, m: MutexId)
    requires Shape(s) && u == TaskCreate(s, tasks, ok).0
    ensures Shape(u) && u.queues[MutexQueue(m)] == s.queues[MutexQueue(m)]
  {
    if u != s { assert u.queues == Populate(s, Reorder(tasks)).queues; }
  }

  lemma {:induction false} OnlyCallsMatter(s: State, e: Event, u: State, m: MutexId)
    requires WellFormed(s) && Next(s, e, u) && !e.Lock? && !e.Unlock?
    ensures Shape(u) && u.queues[MutexQueue(m)] == s.queues[MutexQueue(m)]
  {
    if e.Tick? {
      TickSparesMutexes(s, s.(now := s.now + TIME_RESOLUTION), u, MutexQueue(m));
    } else {
      OthersSpareMutexes(s, e, u, m);
    }
  }

  lemma NobodyMoves(s: State, e: Event, m: MutexId)
    requires Shape(s) && !e.Lock? && !e.Unlock?
    ensures Served(s, e, m) == [] && Arrival(s, e, m) == []
  {}

  lemma NothingJoins(q: seq<Slot>, p: seq<Slot>)
    requires q == p
    ensures [] + q == p + []
  {}

  /** One step, any mutex: what leaves at the front and what joins at the back. */
  lemma {:induction false} FifoStep(s: State, e: Event, u: State, m: MutexId)
    requires WellFormed(s) && Next(s, e, u)
    ensures Shape(u)
    ensures Served(s, e, m) + u.queues[MutexQueue(m)] == s.queues[MutexQueue(m)] + Arrival(s, e, m)
  {
    if e.Lock? {
      LockAppends(s, e.m, m, u);
    } else if e.Unlock? {
      UnlockServesHead(s, e.m, m, u);
    } else {
      OnlyCallsMatter(s, e, u, m);
      NobodyMoves(s, e, m);
      NothingJoins(u.queues[MutexQueue(m)], s.queues[MutexQueue(m)]);
    }
  }

  /** All who started waiting for `m` in the first `n` steps, in order. */
  ghost function Arrivals(ss: seq<State>, es: seq<Event>, m: MutexId, n: nat): seq<Slot>
    requires IsRun(ss, es) && n <= |es|
  {
    if n == 0 then []
    else
      assert Next(ss[n - 1], es[n - 1], ss[n - 1 + 1]);
      Arrivals(ss, es, m, n - 1) + Arrival(ss[n - 1], es[n - 1], m)
  }

  /** All who were made owner of `m` by an unlock in the first `n` steps, in order. */
  ghost function Handovers(ss: seq<State>, es: seq<Event>, m: MutexId, n: nat): seq<Slot>
    requires IsRun(ss, es) && n <= |es|
  {
    if n == 0 then []
    else
      assert Next(ss[n - 1], es[n - 1], ss[n - 1 + 1]);
      Handovers(ss, es, m, n - 1) + Served(ss[n - 1], es[n - 1], m)
  }

  lemma FifoStepOfRun(ss: seq<State>, es: seq<Event>, m: MutexId, k: nat)
    requires IsRun(ss, es) && WellFormed(ss[0]) && k < |es|
    ensures Shape(ss[k]) && Shape(ss[k + 1])
    ensures Served(ss[k], es[k], m) + ss[k + 1].queues[MutexQueue(m)]
         == ss[k].queues[MutexQueue(m)] + Arrival(ss[k], es[k], m)
  {
    RunKeeps(ss, es, k);
    FifoStep(ss[k], es[k], ss[k + 1], m);
  }

  ghost predicate InOrder(ss: seq<State>, es: seq<Event>, m: MutexId, n: nat)
    requires IsRun(ss, es) && n <= |es|
  {
    && Shape(ss[0]) && Shape(ss[n])
    && Handovers(ss, es, m, n) + ss[n].queues[MutexQueue(m)] == ss[0].queues[MutexQueue(m)] + Arrivals(ss, es, m, n)
  }

  lemma InOrderStep(ss: seq<State>, es: seq<Event>, m: MutexId, k: nat)
    requires IsRun(ss, es) && k < |es| && InOrder(ss, es, m, k) && Shape(ss[k + 1])
    requires Served(ss[k], es[k], m) + ss[k + 1].queues[MutexQueue(m)]
          == ss[k].queues[MutexQueue(m)] + Arrival(ss[k], es[k], m)
    ensures InOrder(ss, es, m, k + 1)
  {
    Regroup(Handovers(ss, es, m, k), Served(ss[k], es[k], m), ss[k + 1].queues[MutexQueue(m)],
      ss[k].queues[MutexQueue(m)], ss[0].queues[MutexQueue(m)], Arrivals(ss, es, m, k), Arrival(ss[k], es[k], m));
  }

  lemma InOrderAtFirst(ss: seq<State>, es: seq<Event>, m: MutexId)
    requires IsRun(ss, es) && Shape(ss[0])
    ensures InOrder(ss, es, m, 0)
  {
    NothingJoins(ss[0].queues[MutexQueue(m)], ss[0].queues[MutexQueue(m)]);
  }

  lemma {:induction false} InOrderNext(ss: seq<State>, es: seq<Event>, m: MutexId, k: nat, n: nat)
    requires IsRun(ss, es) && WellFormed(ss[0]) && k < |es| && InOrder(ss, es, m, k) && n == k + 1
    ensures InOrder(ss, es, m, n)
  {
    FifoStepOfRun(ss, es, m, k);
    InOrderStep(ss, es, m, k);
  }

  lemma {:induction false} StaysInOrder(ss: seq<State>, es: seq<Event>, m: MutexId, n: nat)
    requires IsRun(ss, es) && WellFormed(ss[0]) && n <= |es|
    ensures InOrder(ss, es, m, n)
  {
    if n == 0 {
      InOrderAtFirst(ss, es, m);
    } else {
      var k := n - 1;
      StaysInOrder(ss, es, m, k);
      InOrderNext(ss, es, m, k, n);
    }
  }

  /** Over any run from any well-formed state, the waiters are served in the order in which they
      queued: those served, followed by those still waiting, are those who waited at the start
      followed by those who arrived. */
  lemma Fifo(ss: seq<State>, es: seq<Event>, m: MutexId, n: nat)
    requires IsRun(ss, es) && WellFormed(ss[0]) && n <= |es|
    ensures Shape(ss[n])
    ensures Handovers(ss, es, m, n) + ss[n].queues[MutexQueue(m)]
         == ss[0].queues[MutexQueue(m)] + Arrivals(ss, es, m, n)
  {
    StaysInOrder(ss, es, m, n);
  }

  lemma Regroup(h: seq<Slot>, x: seq<Slot>, q: seq<Slot>, p: seq<Slot>, q0: seq<Slot>, a: seq<Slot>, y: seq<Slot>)
    requires h + p == q0 + a && x + q == p + y
    ensures (h + x) + q == q0 + (a + y)
  {
    assert (h + x) + q == h + (x + q) == h + (p + y) == (h + p) + y == (q0 + a) + y == q0 + (a + y);
  }
}
