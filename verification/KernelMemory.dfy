/** The kernel's data as it lies in memory: tables of records, TCBs linked through one field.
    A `tcb_t *` is an index into `system_tcb`, or NULL. */
module KernelMemory {
  import opened Config
  import opened Schedule
  import opened KernelSpec
  import opened WellFormedness

  const NULL := -1

  datatype TcbRec = TcbRec(
    nativePrio: Slot, curPrio: Slot, holdsLock: int, sleepQueue: int, resume: Option<MutexId>, job: Option<TaskDesc>)

  datatype MutexRec = MutexRec(bAvailable: bool, pHoldingTcb: int, bLock: bool, pSleepQueue: int)

  datatype DevRec = DevRec(sleepQueue: int, nextMatch: nat)

  /** `run` is what the run queue represents; the other fields are the raw tables. */
  datatype Memory = Memory(
    tcb: seq<TcbRec>, gtMutex: seq<MutexRec>, devices: seq<DevRec>,
    cur: Slot, curMutexNum: nat, time: nat, run: map<Slot, Slot>)

  function AbsTcb(r: TcbRec): Tcb {
    Tcb(r.nativePrio, r.curPrio, r.holdsLock, r.resume, r.job)
  }

  function AbsPtr(p: int): Option<Slot> {
    if 0 <= p < OS_MAX_TASKS then Some(p) else None
  }

  function AbsMutex(r: MutexRec): Mutex {
    Mutex(r.bAvailable, AbsPtr(r.pHoldingTcb), r.bLock)
  }

  predicate Sized(c: Memory) {
    |c.tcb| == OS_MAX_TASKS && |c.gtMutex| == OS_NUM_MUTEX && |c.devices| == NUM_DEVICES
    && c.curMutexNum <= OS_NUM_MUTEX
  }

  /** The list of TCBs from `head` along the links is exactly `q`. */
  ghost predicate Chain(tcb: seq<TcbRec>, head: int, q: seq<Slot>)
    requires |tcb| == OS_MAX_TASKS
    decreases q
  {
    if q == [] then head == NULL
    else head == q[0] && Chain(tcb, tcb[q[0]].sleepQueue, q[1..])
  }

  function Heads(c: Memory): (heads: seq<int>)
    requires Sized(c)
    ensures |heads| == NUM_QUEUES
  {
    seq(NUM_QUEUES, (k: nat) requires k < NUM_QUEUES =>
      if k < NUM_DEVICES then c.devices[k].sleepQueue else c.gtMutex[k - NUM_DEVICES].pSleepQueue)
  }

  ghost predicate Chains(tcb: seq<TcbRec>, heads: seq<int>, queues: seq<seq<Slot>>)
    requires |tcb| == OS_MAX_TASKS
  {
    |heads| == |queues| && forall k :: 0 <= k < |queues| ==> Chain(tcb, heads[k], queues[k])
  }

  /** Everything but the queues. */
  ghost predicate Tables(c: Memory, s: State) {
    && Sized(c) && Shape(s)
    && (forall t: Slot :: AbsTcb(c.tcb[t]) == s.tcbs[t])
    && (forall m: MutexId :: AbsMutex(c.gtMutex[m]) == s.mutexes[m])
    && (forall d :: 0 <= d < NUM_DEVICES ==> c.devices[d].nextMatch == s.nextMatch[d])
    && c.cur == s.cur && c.curMutexNum == s.curMutexNum && c.time == s.now && c.run == s.run
  }

  ghost predicate Represents(c: Memory, s: State) {
    Tables(c, s) && Chains(c.tcb, Heads(c), s.queues)
  }

  // ---------------------------------------------------------------------------
  // Lists through the link field
  // ---------------------------------------------------------------------------

  lemma {:induction false} ChainFrame(tcb: seq<TcbRec>, head: int, q: seq<Slot>, t: Slot, r: TcbRec)
    requires |tcb| == OS_MAX_TASKS && Chain(tcb, head, q) && (t !in q || r.sleepQueue == tcb[t].sleepQueue)
    ensures Chain(tcb[t := r], head, q)
    decreases q
  {
    if q != [] {
      ChainFrame(tcb, tcb[q[0]].sleepQueue, q[1..], t, r);
    }
  }

  /** Changing a record without its link changes no list. */
  lemma ChainsSameLink(tcb: seq<TcbRec>, heads: seq<int>, queues: seq<seq<Slot>>, t: Slot, r: TcbRec)
    requires |tcb| == OS_MAX_TASKS && Chains(tcb, heads, queues) && r.sleepQueue == tcb[t].sleepQueue
    ensures Chains(tcb[t := r], heads, queues)
  {
    forall k | 0 <= k < |queues| ensures Chain(tcb[t := r], heads[k], queues[k]) {
      ChainFrame(tcb, heads[k], queues[k], t, r);
    }
  }

  lemma ChainPush(tcb: seq<TcbRec>, head: int, q: seq<Slot>, t: Slot, r: TcbRec)
    requires |tcb| == OS_MAX_TASKS && Chain(tcb, head, q) && t !in q && r.sleepQueue == head
    ensures Chain(tcb[t := r], t, [t] + q)
  {
    ChainFrame(tcb, head, q, t, r);
    assert ([t] + q)[1..] == q;
  }

  lemma HeadNotInTail(q: seq<Slot>)
    requires NoDup(q) && q != []
    ensures q[0] !in q[1..] && NoDup(q[1..])
  {
    forall i | 0 <= i < |q| - 1 ensures q[1..][i] != q[0] {
      assert q[0] != q[i + 1];
    }
    forall i, j | 0 <= i < j < |q| - 1 ensures q[1..][i] != q[1..][j] {
      assert q[i + 1] != q[j + 1];
    }
  }

  lemma ChainPop(tcb: seq<TcbRec>, head: int, q: seq<Slot>, r: TcbRec)
    requires |tcb| == OS_MAX_TASKS && Chain(tcb, head, q) && q != [] && NoDup(q)
    ensures head == q[0] && Chain(tcb[q[0] := r], tcb[q[0]].sleepQueue, q[1..])
  {
    HeadNotInTail(q);
    ChainFrame(tcb, tcb[q[0]].sleepQueue, q[1..], q[0], r);
  }

  lemma {:induction false} ChainAppend(tcb: seq<TcbRec>, head: int, q: seq<Slot>, t: Slot, r: TcbRec)
    requires |tcb| == OS_MAX_TASKS && Chain(tcb, head, q) && q != [] && NoDup(q)
    requires tcb[t].sleepQueue == NULL && t !in q && r.sleepQueue == t
    ensures Chain(tcb[q[|q| - 1] := r], head, q + [t])
    decreases q
  {
    HeadNotInTail(q);
    var last := q[|q| - 1];
    assert (q + [t])[1..] == q[1..] + [t];
    if |q| == 1 {
      assert q[1..] + [t] == [t] && [t][1..] == [];
    } else {
      assert q[1..][|q| - 2] == last;
      ChainAppend(tcb, tcb[q[0]].sleepQueue, q[1..], t, r);
    }
  }

  /** Rewriting the record of `t` changes only the list `k` that it is on, or is put on. */
  lemma ChainsUpdate(
    tcb: seq<TcbRec>, heads: seq<int>, queues: seq<seq<Slot>>, k: nat, t: Slot, r: TcbRec, head: int, q: seq<Slot>)
    requires |tcb| == OS_MAX_TASKS && Chains(tcb, heads, queues) && k < |queues|
    requires forall l :: 0 <= l < |queues| && l != k ==> t !in queues[l]
    requires Chain(tcb[t := r], head, q)
    ensures Chains(tcb[t := r], heads[k := head], queues[k := q])
  {
    var tcb1, heads1, queues1 := tcb[t := r], heads[k := head], queues[k := q];
    forall l | 0 <= l < |queues1| ensures Chain(tcb1, heads1[l], queues1[l]) {
      if l != k { ChainFrame(tcb, heads[l], queues[l], t, r); }
    }
  }

  lemma HeadsOfDevices(c: Memory, d: nat, r: DevRec)
    requires Sized(c) && d < NUM_DEVICES
    ensures Heads(c.(devices := c.devices[d := r])) == Heads(c)[d := r.sleepQueue]
  {}

  lemma HeadsOfMutexes(c: Memory, m: MutexId, r: MutexRec)
    requires Sized(c)
    ensures Heads(c.(gtMutex := c.gtMutex[m := r])) == Heads(c)[MutexQueue(m) := r.pSleepQueue]
  {}

  // ---------------------------------------------------------------------------
  // Kernel operations on memory
  // ---------------------------------------------------------------------------

  /** Changing the run queue, the current task or the clock moves no list. */
  lemma ScalarsRepresent(c: Memory, s: State, d: Memory, u: State)
    requires Represents(c, s)
    requires d == c.(run := d.run, cur := d.cur, time := d.time)
    requires u == s.(run := d.run, cur := d.cur, now := d.time)
    ensures Represents(d, u)
  {
    assert Heads(d) == Heads(c);
  }

  /** Changing a mutex without its queue moves no list. */
  lemma MutexRepresents(c: Memory, s: State, m: MutexId, r: MutexRec, n: nat, d: Memory, u: State)
    requires Represents(c, s) && r.pSleepQueue == c.gtMutex[m].pSleepQueue && n <= OS_NUM_MUTEX
    requires d == c.(gtMutex := c.gtMutex[m := r], curMutexNum := n)
    requires u == s.(mutexes := s.mutexes[m := AbsMutex(r)], curMutexNum := n)
    ensures Represents(d, u)
  {
    HeadsOfMutexes(c, m, r);
    assert Heads(d) == Heads(c);
  }

  /** The tail of `mutex_lock`. */
  lemma AcquireRepresents(c: Memory, s: State, m: MutexId, d: Memory)
    requires Represents(c, s)
    requires var t := c.tcb[c.cur];
      d == c.(gtMutex := c.gtMutex[m := c.gtMutex[m].(pHoldingTcb := c.cur)],
              tcb := c.tcb[c.cur := t.(holdsLock := t.holdsLock + 1, curPrio := HIGHEST_PRIO)])
    ensures Represents(d, Acquire(s, m))
  {
    HeadsOfMutexes(c, m, c.gtMutex[m].(pHoldingTcb := c.cur));
    assert Heads(d) == Heads(c);
    ChainsSameLink(c.tcb, Heads(c), s.queues, c.cur, d.tcb[c.cur]);
  }

  /** The tail of `mutex_unlock`. */
  lemma ReleaseRepresents(c: Memory, s: State, m: MutexId, next: int, d: Memory)
    requires Represents(c, s) && -1 <= next < OS_MAX_TASKS
    requires var t := c.tcb[c.cur];
      var held := t.holdsLock - 1;
      d == c.(gtMutex := c.gtMutex[m := c.gtMutex[m].(pHoldingTcb := next, bLock := c.gtMutex[m].bLock && next != NULL)],
              tcb := c.tcb[c.cur := t.(holdsLock := held, curPrio := if held == 0 then t.nativePrio else t.curPrio)])
    ensures Represents(d, Release(s, m, AbsPtr(next)))
  {
    HeadsOfMutexes(c, m, d.gtMutex[m]);
    assert Heads(d) == Heads(c);
    ChainsSameLink(c.tcb, Heads(c), s.queues, c.cur, d.tcb[c.cur]);
  }

  lemma PushFrontRepresents(c: Memory, s: State, k: nat, d: Memory)
    requires Represents(c, s) && WellFormed(s) && k < NUM_DEVICES
    requires d == c.(tcb := c.tcb[c.cur := c.tcb[c.cur].(sleepQueue := c.devices[k].sleepQueue)],
                     devices := c.devices[k := c.devices[k].(sleepQueue := c.cur)])
    ensures Represents(d, PushFront(s, k))
  {
    var r := d.tcb[c.cur];
    HeadsOfDevices(c, k, d.devices[k]);
    ChainPush(c.tcb, Heads(c)[k], s.queues[k], c.cur, r);
    ChainsUpdate(c.tcb, Heads(c), s.queues, k, c.cur, r, c.cur, [c.cur] + s.queues[k]);
  }

  /** A TCB on no list may have its link rewritten. */
  lemma ChainsFree(tcb: seq<TcbRec>, heads: seq<int>, queues: seq<seq<Slot>>, t: Slot, r: TcbRec)
    requires |tcb| == OS_MAX_TASKS && Chains(tcb, heads, queues)
    requires forall l :: 0 <= l < |queues| ==> t !in queues[l]
    ensures Chains(tcb[t := r], heads, queues)
  {
    forall k | 0 <= k < |queues| ensures Chain(tcb[t := r], heads[k], queues[k]) {
      ChainFrame(tcb, heads[k], queues[k], t, r);
    }
  }

  /** `mutex_lock` joins an empty queue. */
  lemma AwaitFirstRepresents(c: Memory, s: State, m: MutexId, d: Memory)
    requires Represents(c, s) && WellFormed(s) && s.queues[MutexQueue(m)] == []
    requires d == c.(tcb := c.tcb[c.cur := c.tcb[c.cur].(sleepQueue := NULL, resume := Some(m))],
                     gtMutex := c.gtMutex[m := c.gtMutex[m].(pSleepQueue := c.cur)])
    ensures Represents(d, Await(s, m))
  {
    var r, k := d.tcb[c.cur], MutexQueue(m);
    HeadsOfMutexes(c, m, d.gtMutex[m]);
    assert Chain(c.tcb, Heads(c)[k], []);
    ChainPush(c.tcb, NULL, [], c.cur, r);
    assert [c.cur] + [] == [] + [c.cur];
    ChainsUpdate(c.tcb, Heads(c), s.queues, k, c.cur, r, c.cur, [c.cur]);
  }

  /** `mutex_lock` joins behind the last waiter `last`. */
  lemma AwaitLastRepresents(c: Memory, s: State, m: MutexId, last: Slot, d: Memory)
    requires Represents(c, s) && WellFormed(s) && s.queues[MutexQueue(m)] != []
    requires last == s.queues[MutexQueue(m)][|s.queues[MutexQueue(m)]| - 1]
    requires var tcb1 := c.tcb[c.cur := c.tcb[c.cur].(sleepQueue := NULL, resume := Some(m))];
      d == c.(tcb := tcb1[last := tcb1[last].(sleepQueue := c.cur)])
    ensures Represents(d, Await(s, m))
  {
    var k := MutexQueue(m);
    var q := s.queues[k];
    var tcb1 := c.tcb[c.cur := c.tcb[c.cur].(sleepQueue := NULL, resume := Some(m))];
    var r := tcb1[last].(sleepQueue := c.cur);
    assert last in q;
    ChainsFree(c.tcb, Heads(c), s.queues, c.cur, tcb1[c.cur]);
    assert Chain(tcb1, Heads(c)[k], q);
    ChainAppend(tcb1, Heads(c)[k], q, c.cur, r);
    ChainsUpdate(tcb1, Heads(c), s.queues, k, last, r, Heads(c)[k], q + [c.cur]);
    assert Heads(c)[k := Heads(c)[k]] == Heads(c);
  }

  /** `mutex_unlock` unlinks the first waiter and makes it ready. */
  lemma PopMutexRepresents(c: Memory, s: State, m: MutexId, t: Slot, d: Memory)
    requires Represents(c, s) && WellFormed(s) && c.gtMutex[m].pSleepQueue == t
    requires d == c.(tcb := c.tcb[t := c.tcb[t].(sleepQueue := NULL)],
                     gtMutex := c.gtMutex[m := c.gtMutex[m].(pSleepQueue := c.tcb[t].sleepQueue)],
                     run := c.run[c.tcb[t].curPrio := t])
    ensures s.queues[MutexQueue(m)] != [] && s.queues[MutexQueue(m)][0] == t
    ensures Represents(d, PopReady(s, MutexQueue(m)))
  {
    var k := MutexQueue(m);
    var q := s.queues[k];
    assert Chain(c.tcb, Heads(c)[k], q);
    assert t in q;
    HeadsOfMutexes(c, m, d.gtMutex[m]);
    ChainPop(c.tcb, t, q, d.tcb[t]);
    ChainsUpdate(c.tcb, Heads(c), s.queues, k, t, d.tcb[t], c.tcb[t].sleepQueue, q[1..]);
  }

  /** `dev_update` in the middle of draining device `k`: `it` is the rest of its list. */
  ghost predicate Draining(c: Memory, s: State, k: nat, it: int) {
    Tables(c, s) && k < NUM_DEVICES && Chains(c.tcb, Heads(c)[k := it], s.queues)
  }

  lemma DrainStepRepresents(c: Memory, s: State, k: nat, t: Slot, d: Memory)
    requires Draining(c, s, k, t) && WellFormed(s)
    requires d == c.(tcb := c.tcb[t := c.tcb[t].(sleepQueue := NULL)], run := c.run[c.tcb[t].curPrio := t])
    ensures s.queues[k] != [] && s.queues[k][0] == t
    ensures Draining(d, PopReady(s, k), k, c.tcb[t].sleepQueue)
  {
    var q, heads := s.queues[k], Heads(c)[k := t];
    assert Chain(c.tcb, heads[k], q);
    assert t in q;
    ChainPop(c.tcb, t, q, d.tcb[t]);
    ChainsUpdate(c.tcb, heads, s.queues, k, t, d.tcb[t], c.tcb[t].sleepQueue, q[1..]);
    assert Heads(d) == Heads(c);
    assert heads[k := c.tcb[t].sleepQueue] == Heads(d)[k := c.tcb[t].sleepQueue];
  }

  lemma DrainDoneRepresents(c: Memory, s: State, k: nat, d: Memory)
    requires Draining(c, s, k, NULL)
    requires d == c.(devices := c.devices[k := DevRec(NULL, c.devices[k].nextMatch + DevFreq(k))])
    ensures s.queues[k] == []
    ensures Represents(d, s.(nextMatch := s.nextMatch[k := s.nextMatch[k] + DevFreq(k)]))
  {
    HeadsOfDevices(c, k, d.devices[k]);
    assert Chain(c.tcb, Heads(c)[k := NULL][k], s.queues[k]);
  }

  /** TCB `t` when `allocate_tasks` has set up those from `lo` on, and the idle task if `idleToo`. */
  function AllocatedTcb(r: TcbRec, order: seq<TaskDesc>, lo: nat, idleToo: bool, t: Slot): Tcb
    requires lo >= 1
  {
    if lo <= t <= |order| then Tcb(t, t, 0, None, Some(order[t - 1]))
    else if idleToo && t == IDLE_PRIO then IDLE_TCB
    else AbsTcb(r)
  }

  ghost predicate AllocatedFrom(before: seq<TcbRec>, after: seq<TcbRec>, order: seq<TaskDesc>, lo: nat) {
    |before| == |after| == OS_MAX_TASKS && lo >= 1
    && forall t: Slot :: AbsTcb(after[t]) == AllocatedTcb(before[t], order, lo, false, t)
  }

  lemma AllocatedStep(
    before: seq<TcbRec>, now: seq<TcbRec>, order: seq<TaskDesc>, j: nat, after: seq<TcbRec>)
    requires j < |order| <= OS_AVAIL_TASKS && AllocatedFrom(before, now, order, j + 2)
    requires after == now[j + 1 := TcbRec(j + 1, j + 1, 0, NULL, None, Some(order[j]))]
    ensures AllocatedFrom(before, after, order, j + 1)
  {}

  function IdleRec(r: TcbRec): TcbRec {
    TcbRec(IDLE_PRIO, IDLE_PRIO, 0, r.sleepQueue, None, None)
  }

  ghost predicate Allocated(before: seq<TcbRec>, after: seq<TcbRec>, order: seq<TaskDesc>) {
    |before| == |after| == OS_MAX_TASKS
    && forall t: Slot :: AbsTcb(after[t]) == AllocatedTcb(before[t], order, 1, true, t)
  }

  lemma AllocatedAll(before: seq<TcbRec>, now: seq<TcbRec>, order: seq<TaskDesc>, after: seq<TcbRec>)
    requires |order| <= OS_AVAIL_TASKS && AllocatedFrom(before, now, order, 1)
    requires after == now[IDLE_PRIO := IdleRec(now[IDLE_PRIO])]
    ensures Allocated(before, after, order)
  {}

  /** The tables after `dev_init` and `allocate_tasks`, the mutex queues having been empty. */
  lemma PopulateRepresents(c: Memory, s: State, order: seq<TaskDesc>, d: Memory)
    requires Represents(c, s) && |order| <= OS_AVAIL_TASKS && forall m: MutexId :: s.queues[MutexQueue(m)] == []
    requires d == c.(tcb := d.tcb, devices := d.devices, run := AllReady(|order|)) && Sized(d)
    requires Allocated(c.tcb, d.tcb, order)
    requires forall k :: 0 <= k < NUM_DEVICES ==> d.devices[k] == DevRec(NULL, c.time + DevFreq(k))
    ensures Represents(d, Populate(s, order))
  {
    var u := Populate(s, order);
    forall k | 0 <= k < NUM_QUEUES ensures Chain(d.tcb, Heads(d)[k], u.queues[k]) {
      if k >= NUM_DEVICES {
        assert s.queues[MutexQueue(k - NUM_DEVICES)] == [];
        assert Chain(c.tcb, Heads(c)[k], s.queues[k]);
      }
    }
  }

  ghost predicate SomeoneDueBelow(s: State, n: nat)
    requires Shape(s) && n <= NUM_DEVICES
  {
    exists d :: 0 <= d < n && Due(s, d) && s.queues[d] != []
  }

  /** One round of the outer loop of `dev_update`. */
  lemma SignalStep(s: State, i: nat, a: State, b: State, woken: bool)
    requires Shape(s) && i < NUM_DEVICES && a == SignalFirst(s, i) && b == Signal(a, i)
    requires woken <==> Due(a, i) && a.queues[i] != []
    ensures b == SignalFirst(s, i + 1)
    ensures SomeoneDueBelow(s, i + 1) <==> SomeoneDueBelow(s, i) || woken
  {
    SignalsSpareOthers(s, i, i);
  }

  // ---------------------------------------------------------------------------
  // Filling the run queue at start-up
  // ---------------------------------------------------------------------------

  ghost predicate Between(p: Slot, lo: nat, n: nat) {
    lo <= p <= n
  }

  /** The tasks in slots `lo` to `n` ready. */
  ghost function Filled(lo: nat, n: nat): map<Slot, Slot> {
    map p: Slot | Between(p, lo, n) :: p
  }

  ghost function AllReady(n: nat): map<Slot, Slot> {
    map p: Slot | InUse(p, n) :: p
  }

  lemma FilledEmpty(lo: nat, n: nat)
    requires n < lo
    ensures Filled(lo, n) == map[]
  {}

  lemma FilledStep(i: Slot, n: nat)
    requires i <= n
    ensures Filled(i, n) == Filled(i + 1, n)[i := i]
  {
    forall p: Slot ensures Between(p, i, n) <==> p == i || Between(p, i + 1, n) {}
  }

  lemma FilledWithIdle(n: nat)
    ensures AllReady(n) == Filled(1, n)[IDLE_PRIO := IDLE_PRIO]
  {
    forall p: Slot ensures InUse(p, n) <==> p == IDLE_PRIO || Between(p, 1, n) {}
  }

  // ---------------------------------------------------------------------------
  // The two halves of mutex_unlock
  // ---------------------------------------------------------------------------

  function NextHolder(s: State, m: MutexId): Option<Slot>
    requires Shape(s)
  {
    if s.queues[MutexQueue(m)] == [] then None else Some(s.queues[MutexQueue(m)][0])
  }

  /** The first waiter is ready, or, without waiters, the mutex is no longer locked. */
  function FirstWoken(s: State, m: MutexId): (u: State)
    requires Shape(s)
    ensures Shape(u)
  {
    if s.queues[MutexQueue(m)] == [] then s.(mutexes := s.mutexes[m := s.mutexes[m].(locked := false)])
    else PopReady(s, MutexQueue(m))
  }

  function Unlocked(s: State, m: MutexId): State
    requires Shape(s)
  {
    Release(FirstWoken(s, m), m, NextHolder(s, m))
  }

  lemma UnlockedIsMutexUnlock(s: State, m: MutexId)
    requires Shape(s) && !BadMutex(s, m) && s.mutexes[m].holder == Some(s.cur)
    ensures KernelSpec.MutexUnlock(s, m) == (Unlocked(s, m), 0)
  {
    if s.queues[MutexQueue(m)] == [] {
      var x := s.mutexes[m];
      assert s.mutexes[m := x.(locked := false)][m := x.(holder := None, locked := false)]
        == s.mutexes[m := x.(holder := None, locked := false)];
    }
  }
}
