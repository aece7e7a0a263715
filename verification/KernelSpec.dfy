/** The kernel as a state machine over values: run queue as a map, sleep chains and mutex queues as
    sequences. Each function says what one C routine does to this state; `Kernel.dfy` proves that
    the bitmaps, arrays and link fields do the same. */
module KernelSpec {
  import opened Config
  import opened Schedule
  import RunQueue

  /** `resume` is the part of the saved context that matters here: a task suspended inside
      `mutex_lock(m)` finishes that call when it next runs. `job` is what it was launched with. */
  datatype Tcb = Tcb(nativePrio: Slot, curPrio: Slot, holdsLock: int, resume: Option<MutexId>, job: Option<TaskDesc>)

  /** `available` means not yet created, as in the source. */
  datatype Mutex = Mutex(available: bool, holder: Option<Slot>, locked: bool)

  /** `queues` holds all the lists threaded through the one link field of a TCB: first the sleep
      chains of the devices, then the queues of the mutexes. `numTasks` and `epoch` record the last
      successful `task_create`: how many tasks it set up, and when. */
  datatype State = State(
    tcbs: seq<Tcb>,
    cur: Slot,
    run: map<Slot, Slot>,
    queues: seq<seq<Slot>>,
    mutexes: seq<Mutex>,
    curMutexNum: nat,
    nextMatch: seq<nat>,
    now: nat,
    numTasks: nat,
    epoch: nat)

  const NUM_QUEUES := NUM_DEVICES + OS_NUM_MUTEX

  function MutexQueue(m: MutexId): nat { NUM_DEVICES + m }

  // ---------------------------------------------------------------------------
  // Well-formed states, reachable or not
  // ---------------------------------------------------------------------------

  predicate Shape(s: State) {
    && |s.tcbs| == OS_MAX_TASKS && |s.queues| == NUM_QUEUES
    && |s.mutexes| == OS_NUM_MUTEX && |s.nextMatch| == NUM_DEVICES
    && s.curMutexNum <= OS_NUM_MUTEX
  }

  /** Only the idle task has the idle priority. */
  ghost predicate PrioritiesSane(s: State)
    requires Shape(s)
  {
    forall t: Slot ::
      if t == IDLE_PRIO then s.tcbs[t].nativePrio == s.tcbs[t].curPrio == IDLE_PRIO && s.tcbs[t].resume == None
      else s.tcbs[t].nativePrio < IDLE_PRIO && s.tcbs[t].curPrio < IDLE_PRIO
  }

  predicate Ready(s: State, t: Slot)
    requires |s.tcbs| == OS_MAX_TASKS
  {
    s.tcbs[t].curPrio in s.run && s.run[s.tcbs[t].curPrio] == t
  }

  predicate NoDup(q: seq<Slot>) {
    forall i, j :: 0 <= i < j < |q| ==> q[i] != q[j]
  }

  /** Nobody stands twice on queues, or on a queue while ready; the idle task never does. */
  ghost predicate QueuesDisjoint(s: State)
    requires Shape(s)
  {
    && (forall k, t: Slot :: 0 <= k < NUM_QUEUES && t in s.queues[k] ==> !Ready(s, t) && t != IDLE_PRIO)
    && (forall k :: 0 <= k < NUM_QUEUES ==> NoDup(s.queues[k]))
    && (forall k, l, t: Slot ::
          0 <= k < NUM_QUEUES && 0 <= l < NUM_QUEUES && t in s.queues[k] && t in s.queues[l] ==> k == l)
  }

  /** Nobody is in two places: running, ready at its own priority, or once on one queue. */
  ghost predicate OnePlace(s: State)
    requires Shape(s)
  {
    && (forall p :: p in s.run ==> s.tcbs[s.run[p]].curPrio == p)
    && QueuesDisjoint(s)
    && !Ready(s, s.cur)
    && (forall k :: 0 <= k < NUM_QUEUES ==> s.cur !in s.queues[k])
  }

  ghost predicate WellFormed(s: State) {
    Shape(s) && PrioritiesSane(s) && OnePlace(s) && (s.cur == IDLE_PRIO || Ready(s, IDLE_PRIO))
  }

  // ---------------------------------------------------------------------------
  // Dispatcher (kernel/sched/ctx_switch.c)
  // ---------------------------------------------------------------------------

  /** The least key from `p` on. */
  function LeastFrom(run: map<Slot, Slot>, p: Slot): (least: Slot)
    ensures p <= least && forall q: Slot :: q in run && p <= q ==> least in run && least <= q
    decreases OS_MAX_TASKS - p
  {
    if p in run || p == OS_MAX_TASKS - 1 then p else LeastFrom(run, p + 1)
  }

  function Highest(run: map<Slot, Slot>): (p: Slot)
    ensures RunQueue.IsHighest(run, p)
  {
    if run == map[] then 0 else LeastFrom(run, 0)
  }

  /** The current task becomes the holder of mutex `m` and runs at the highest priority. */
  function Acquire(s: State, m: MutexId): State
    requires Shape(s)
  {
    var t := s.tcbs[s.cur];
    s.(mutexes := s.mutexes[m := s.mutexes[m].(holder := Some(s.cur))],
       tcbs := s.tcbs[s.cur := t.(holdsLock := t.holdsLock + 1, curPrio := HIGHEST_PRIO)])
  }

  /** Context switch to `t`, which then finishes the `mutex_lock` it was suspended in, if any. */
  function SwitchTo(s: State, t: Slot): State
    requires Shape(s)
  {
    var u := s.(cur := t);
    match s.tcbs[t].resume
    case None => u
    case Some(m) => Acquire(u.(tcbs := u.tcbs[t := u.tcbs[t].(resume := None)]), m)
  }

  /** `dispatch_sleep` and `dispatch_nosave`: run the best ready task instead of the current one. */
  function DispatchSleep(s: State): State
    requires Shape(s) && s.run != map[]
  {
    var h := Highest(s.run);
    SwitchTo(s.(run := s.run - {h}), s.run[h])
  }

  /** `dispatch_save`: preempt the current task if a better one is ready. On an empty queue
      `highest_prio` answers 0, and the current task is queued and picked again. */
  function DispatchSave(s: State): State
    requires Shape(s)
  {
    var p := s.tcbs[s.cur].curPrio;
    if p > Highest(s.run) then
      var u := s.(run := s.run[p := s.cur]);
      assert p in u.run;
      DispatchSleep(u)
    else s
  }

  // ---------------------------------------------------------------------------
  // Mutexes (kernel/lock/mutex.c)
  // ---------------------------------------------------------------------------

  function MutexCreate(s: State): (State, int)
    requires Shape(s)
  {
    if s.curMutexNum == OS_NUM_MUTEX then (s, -ENOMEM)
    else
      var n := s.curMutexNum;
      (s.(mutexes := s.mutexes[n := s.mutexes[n].(available := false)], curMutexNum := n + 1), n)
  }

  predicate BadMutex(s: State, m: int)
    requires Shape(s)
  {
    m < 0 || m >= OS_NUM_MUTEX || s.mutexes[m].available
  }

  /** The current task goes to the back of the queue of mutex `m` and is suspended in `mutex_lock`. */
  function Await(s: State, m: MutexId): State
    requires Shape(s)
  {
    s.(queues := s.queues[MutexQueue(m) := s.queues[MutexQueue(m)] + [s.cur]],
       tcbs := s.tcbs[s.cur := s.tcbs[s.cur].(resume := Some(m))])
  }

  function MutexLock(s: State, m: int): (State, int)
    requires Shape(s) && s.run != map[]
  {
    if BadMutex(s, m) then (s, -EINVAL)
    else if s.mutexes[m].holder == Some(s.cur) then (s, -EDEADLOCK)
    else if s.mutexes[m].locked then (DispatchSleep(Await(s, m)), 0)
    else (Acquire(s.(mutexes := s.mutexes[m := s.mutexes[m].(locked := true)]), m), 0)
  }

  /** The head of queue `k` becomes ready at its current priority. */
  function PopReady(s: State, k: nat): State
    requires Shape(s) && k < NUM_QUEUES && s.queues[k] != []
  {
    var t := s.queues[k][0];
    s.(queues := s.queues[k := s.queues[k][1..]], run := s.run[s.tcbs[t].curPrio := t])
  }

  /** The current task gives up one lock and falls back to its native priority after the last. */
  function Release(s: State, m: MutexId, next: Option<Slot>): State
    requires Shape(s)
  {
    var t := s.tcbs[s.cur];
    var held := t.holdsLock - 1;
    s.(mutexes := s.mutexes[m := s.mutexes[m].(holder := next, locked := s.mutexes[m].locked && next.Some?)],
       tcbs := s.tcbs[s.cur := t.(holdsLock := held, curPrio := if held == 0 then t.nativePrio else t.curPrio)])
  }

  function MutexUnlock(s: State, m: int): (State, int)
    requires Shape(s)
  {
    if BadMutex(s, m) then (s, -EINVAL)
    else if s.mutexes[m].holder != Some(s.cur) then (s, -EPERM)
    else if s.queues[MutexQueue(m)] == [] then (Release(s, m, None), 0)
    else
      var head := s.queues[MutexQueue(m)][0];
      (Release(PopReady(s, MutexQueue(m)), m, Some(head)), 0)
  }

  // ---------------------------------------------------------------------------
  // Devices (kernel/device.c, kernel/syscall/proc.c)
  // ---------------------------------------------------------------------------

  /** The current task goes to the front of the sleep chain of device `d`. */
  function PushFront(s: State, d: nat): State
    requires Shape(s) && d < NUM_DEVICES
  {
    s.(queues := s.queues[d := [s.cur] + s.queues[d]])
  }

  function EventWait(s: State, d: nat): (State, int)
    requires Shape(s) && s.run != map[]
  {
    if s.tcbs[s.cur].holdsLock != 0 then (s, -EHOLDSLOCK)
    else if d >= NUM_DEVICES then (s, -EINVAL)
    else (DispatchSleep(PushFront(s, d)), 0)
  }

  /** Everybody on queue `k` becomes ready, from the head on. */
  function Drain(s: State, k: nat): (u: State)
    requires Shape(s) && k < NUM_QUEUES
    ensures u == s.(run := u.run, queues := s.queues[k := []])
    decreases |s.queues[k]|
  {
    if s.queues[k] == [] then s else Drain(PopReady(s, k), k)
  }

  predicate Due(s: State, d: nat)
    requires Shape(s) && d < NUM_DEVICES
  {
    s.nextMatch[d] <= s.now
  }

  function Signal(s: State, d: nat): (u: State)
    requires Shape(s) && d < NUM_DEVICES
  {
    if Due(s, d) then Drain(s, d).(nextMatch := s.nextMatch[d := s.nextMatch[d] + DevFreq(d)]) else s
  }

  /** The first `n` devices are examined and signalled. */
  function SignalFirst(s: State, n: nat): (u: State)
    requires Shape(s) && n <= NUM_DEVICES
    ensures Shape(u) && u == s.(run := u.run, queues := u.queues, nextMatch := u.nextMatch)
  {
    if n == 0 then s else Signal(SignalFirst(s, n - 1), n - 1)
  }

  /** `need_ctx`: some task is about to be woken. */
  predicate SomeoneDue(s: State)
    requires Shape(s)
  {
    exists d :: 0 <= d < NUM_DEVICES && Due(s, d) && s.queues[d] != []
  }

  /** `dev_update` at time `s.now`. */
  function DevUpdate(s: State): State
    requires Shape(s)
  {
    var u := SignalFirst(s, |s.nextMatch|);
    if SomeoneDue(s) then DispatchSave(u) else u
  }

  /** A timer interrupt. */
  function Tick(s: State): State
    requires Shape(s)
  {
    DevUpdate(s.(now := s.now + TIME_RESOLUTION))
  }

  // ---------------------------------------------------------------------------
  // Task creation (kernel/syscall/proc.c, kernel/sched/sched.c)
  // ---------------------------------------------------------------------------

  const IDLE_TCB := Tcb(IDLE_PRIO, IDLE_PRIO, 0, None, None)

  /** The TCB table `allocate_tasks` leaves: task `j` of the ordered list in slot `j + 1`. */
  function Allocate(tcbs: seq<Tcb>, order: seq<TaskDesc>): (r: seq<Tcb>)
    requires |tcbs| == OS_MAX_TASKS && |order| <= OS_AVAIL_TASKS
    ensures |r| == OS_MAX_TASKS
  {
    seq(OS_MAX_TASKS, (i: nat) requires i < OS_MAX_TASKS =>
      if 1 <= i <= |order| then Tcb(i, i, 0, None, Some(order[i - 1]))
      else if i == IDLE_PRIO then IDLE_TCB
      else tcbs[i])
  }

  /** The TCB slots of a system of `n` tasks. */
  predicate InUse(t: Slot, n: nat) {
    1 <= t <= n || t == IDLE_PRIO
  }

  /** All tasks ready, all device chains empty, nobody running yet. */
  function Populate(s: State, order: seq<TaskDesc>): (u: State)
    requires Shape(s) && |order| <= OS_AVAIL_TASKS
    ensures Shape(u) && IDLE_PRIO in u.run
  {
    assert InUse(IDLE_PRIO, |order|);
    s.(tcbs := Allocate(s.tcbs, order),
       run := map p: Slot | InUse(p, |order|) :: p,
       queues := seq(NUM_QUEUES, (k: nat) requires k < NUM_QUEUES => if k < NUM_DEVICES then [] else s.queues[k]),
       nextMatch := seq(NUM_DEVICES, (d: nat) requires d < NUM_DEVICES => s.now + DevFreq(d)),
       numTasks := |order|,
       epoch := s.now)
  }

  /** `addrOk` stands for the check that the descriptors lie in user memory. */
  function TaskCreate(s: State, tasks: seq<TaskDesc>, addrOk: bool): (State, int)
    requires Shape(s)
  {
    if |tasks| > OS_AVAIL_TASKS then (s, -EINVAL)
    else if !addrOk then (s, -EFAULT)
    else if !Admit(Reorder(tasks)) then (s, -ESCHED)
    else
      (DispatchSleep(Populate(s, Reorder(tasks))), 1)
  }
}
