/** `dev_wait` as the source has it (kernel/device.c): interrupts are enabled between queueing the
    caller and `dispatch_sleep`. What one timer interrupt in this window does, and exactly when it
    does no harm. */
module WaitWindow {
  import opened Config
  import opened KernelSpec
  import opened Invariants
  import opened KernelRuns
  import opened KernelTheorems

  // ---------------------------------------------------------------------------
  // Signals while the caller is on its chain and still running
  // ---------------------------------------------------------------------------

  /** The idle task runs in `x`; here it is ready and `c` runs in its place. */
  function Beside(x: State, c: Slot): State {
    x.(cur := c, run := x.run[IDLE_PRIO := IDLE_PRIO])
  }

  /** The converse: whoever runs in `v` is set aside, and the idle task runs. */
  function Aside(v: State): State {
    v.(cur := IDLE_PRIO, run := v.run - {IDLE_PRIO})
  }

  lemma AsideHolds(v: State, x: State)
    requires Yielding(v) && x == Aside(v)
    ensures Scheduling(x) && v == Beside(x, v.cur)
  {
    assert Ready(v, IDLE_PRIO);
    forall t: Slot ensures Ready(x, t) <==> Ready(v, t) && t != IDLE_PRIO {}
    forall t: Slot | Live(v, t) ensures HeldBy(v.mutexes, t) == 0 { HeldByZero(v.mutexes, t); }
    forall t: Slot | Live(x, t) ensures t == x.cur || Ready(x, t) || OnChain(x.queues, t) {
      assert Ready(v, t) || OnChain(v.queues, t);
    }
  }

  lemma BesideYields(x: State, c: Slot, v: State)
    requires Scheduling(x) && x.cur == IDLE_PRIO && v == Beside(x, c)
    ensures Yielding(v)
  {
    assert x.tcbs[x.cur].holdsLock == 0 by { HeldByZero(x.mutexes, x.cur); }
    NothingHeld(x);
    OwnSlots(x);
    forall t: Slot ensures Ready(v, t) <==> Ready(x, t) || t == IDLE_PRIO {}
    forall t: Slot | Live(v, t) ensures Ready(v, t) || OnChain(v.queues, t) {
      assert t == x.cur || Ready(x, t) || OnChain(x.queues, t);
    }
  }

  /** Nobody on the chains would take the slot of the idle task. */
  predicate NoIdlers(s: State)
    requires Shape(s)
  {
    forall d, t :: 0 <= d < NUM_DEVICES && t in s.queues[d] ==> s.tcbs[t].curPrio != IDLE_PRIO
  }

  lemma {:induction false} DrainBeside(x: State, c: Slot, k: nat)
    requires Shape(x) && k < NUM_QUEUES && forall t :: t in x.queues[k] ==> x.tcbs[t].curPrio != IDLE_PRIO
    ensures Drain(Beside(x, c), k) == Beside(Drain(x, k), c)
    decreases |x.queues[k]|
  {
    if x.queues[k] != [] {
      var y, t := PopReady(x, k), x.queues[k][0];
      var p := x.tcbs[t].curPrio;
      assert t in x.queues[k];
      assert x.run[IDLE_PRIO := IDLE_PRIO][p := t] == x.run[p := t][IDLE_PRIO := IDLE_PRIO];
      assert PopReady(Beside(x, c), k) == Beside(y, c);
      DrainBeside(y, c, k);
    }
  }

  lemma {:induction false} SignalFirstBeside(x: State, c: Slot, n: nat)
    requires Shape(x) && n <= NUM_DEVICES && NoIdlers(x)
    ensures SignalFirst(Beside(x, c), n) == Beside(SignalFirst(x, n), c)
    ensures NoIdlers(SignalFirst(x, n))
  {
    if n > 0 {
      var y := SignalFirst(x, n - 1);
      SignalFirstBeside(x, c, n - 1);
      DrainBeside(y, c, n - 1);
    }
  }

  // ---------------------------------------------------------------------------
  // One interrupt in the window
  // ---------------------------------------------------------------------------

  /** The caller of `dev_wait(d)` has queued itself, and the clock has ticked. */
  function InWindow(s: State, d: nat): State
    requires Shape(s) && d < NUM_DEVICES
  {
    PushFront(s, d).(now := s.now + TIME_RESOLUTION)
  }

  ghost predicate CanWait(s: State, d: nat) {
    Invariant(s) && s.cur != IDLE_PRIO && s.tcbs[s.cur].holdsLock == 0 && d < NUM_DEVICES
  }

  lemma OwnPriority(s: State, d: nat)
    requires CanWait(s, d)
    ensures s.tcbs[s.cur].curPrio == s.cur
  {
    NothingHeld(s);
  }

  /** The interrupt wakes somebody, and some ready or woken task is better than the caller. */
  predicate Preempts(s: State, v: State)
    requires Shape(s) && Shape(v)
  {
    SomeoneDue(v) && exists p: Slot :: p < s.cur && (p in s.run || WokenBelow(v, NUM_DEVICES, p))
  }

  /** `x` and `y` are the states before and after the signals, with the caller set aside. */
  ghost predicate Window(s: State, d: nat, v: State, x: State, y: State) {
    && CanWait(s, d) && v == InWindow(s, d)
    && Scheduling(x) && x.cur == IDLE_PRIO && v == Beside(x, s.cur)
    && Scheduling(y) && Moved(x, NUM_DEVICES, y)
    && SignalFirst(v, |v.nextMatch|) == Beside(y, s.cur)
  }

  lemma WindowSignals(x: State, c: Slot, v: State)
    requires Scheduling(x) && v == Beside(x, c)
    ensures SignalFirst(v, |v.nextMatch|) == Beside(SignalFirst(x, NUM_DEVICES), c)
  {
    forall d, t | 0 <= d < NUM_DEVICES && t in x.queues[d] ensures x.tcbs[t].curPrio != IDLE_PRIO {
      assert t != IDLE_PRIO;
    }
    SignalFirstBeside(x, c, NUM_DEVICES);
  }

  lemma WindowOpens(s: State, d: nat, v: State) returns (x: State, y: State)
    requires CanWait(s, d) && v == InWindow(s, d)
    ensures Window(s, d, v, x, y)
  {
    var q := PushFront(s, d);
    WaitYields(s, d, q);
    x := Aside(q);
    AsideHolds(q, x);
    ClockDoesNotMatter(x, x.(now := v.now));
    x := x.(now := v.now);
    WindowSignals(x, s.cur, v);
    y := SignalFirst(x, NUM_DEVICES);
    SignalFirstMoves(x, NUM_DEVICES, y);
  }

  lemma WokenSame(x: State, c: Slot, v: State, p: Slot)
    requires Shape(x) && v == Beside(x, c)
    ensures WokenBelow(v, NUM_DEVICES, p) <==> WokenBelow(x, NUM_DEVICES, p)
    ensures SomeoneDue(v) <==> SomeoneDue(x)
  {
    assert forall d :: 0 <= d < NUM_DEVICES ==> Due(v, d) == Due(x, d);
  }

  /** Who is ready after the signals: the idle task, and who was ready before or has been woken. */
  lemma WindowReady(s: State, d: nat, v: State, x: State, y: State, p: Slot)
    requires Window(s, d, v, x, y)
    ensures p in Beside(y, s.cur).run <==> p == IDLE_PRIO || p in s.run || WokenBelow(v, NUM_DEVICES, p)
    ensures s.tcbs[s.cur].curPrio == s.cur
  {
    WokenSame(x, s.cur, v, p);
    OwnPriority(s, d);
    assert v.run == s.run;
    assert p in v.run <==> p in x.run || p == IDLE_PRIO;
  }

  /** Without preemption the caller is still running when the interrupt is over. */
  lemma NotPreempted(s: State, d: nat, v: State, x: State, y: State, t: State)
    requires Window(s, d, v, x, y) && !Preempts(s, v) && t == DevUpdate(v)
    ensures t == Beside(y, s.cur)
  {
    var w := Beside(y, s.cur);
    if SomeoneDue(v) {
      WindowReady(s, d, v, x, y, Highest(w.run));
      assert IDLE_PRIO in w.run;
      assert Highest(w.run) >= s.cur;
      assert w.tcbs[w.cur].curPrio == s.cur;
    }
  }

  /** With preemption the caller is queued and the best ready task runs. */
  lemma Preempted(s: State, d: nat, v: State, x: State, y: State, w: State, t: State)
    requires Window(s, d, v, x, y) && Preempts(s, v) && t == DevUpdate(v)
    requires w == Beside(y, s.cur).(run := Beside(y, s.cur).run[s.cur := s.cur])
    ensures w.run != map[] && t == DispatchSleep(w)
    ensures exists p :: p in w.run && p < s.cur
  {
    var b := Beside(y, s.cur);
    var p: Slot :| p < s.cur && (p in s.run || WokenBelow(v, NUM_DEVICES, p));
    WindowReady(s, d, v, x, y, p);
    assert p in b.run && p in w.run;
    assert b.tcbs[b.cur].curPrio == s.cur;
    assert Highest(b.run) <= p;
    assert s.cur in w.run;
  }

  lemma ClockAfter(s: State, u: State)
    requires Invariant(s) && Shape(u) && u.now == s.now + TIME_RESOLUTION && u.epoch == s.epoch
    requires forall d :: 0 <= d < NUM_DEVICES ==>
      u.nextMatch[d] == s.nextMatch[d] + if s.nextMatch[d] <= u.now then DevFreq(d) else 0
    ensures Clockwork(u)
  {
    forall d | 0 <= d < NUM_DEVICES ensures u.nextMatch[d] == NextSignal(u.epoch, DevFreq(d), u.now) {
      NextSignalStep(s.epoch, DevFreq(d), s.now, s.nextMatch[d]);
    }
  }

  lemma WindowClock(s: State, d: nat, v: State, x: State, y: State, u: State)
    requires Window(s, d, v, x, y) && Shape(u)
    requires u.now == y.now && u.epoch == y.epoch && u.nextMatch == y.nextMatch
    ensures Clockwork(u)
  {
    ClockAfter(s, u);
  }

  /** The rest of `dev_wait` when the caller was not preempted: all is as it should be. */
  lemma FinishHolds(s: State, d: nat, v: State, x: State, y: State, t: State)
    requires Window(s, d, v, x, y) && t == Beside(y, s.cur)
    ensures t.run != map[] && Invariant(DispatchSleep(t))
  {
    BesideYields(y, s.cur, t);
    assert IDLE_PRIO in t.run;
    var u := DispatchSleep(t);
    DispatchSleepHolds(t, u);
    WindowClock(s, d, v, x, y, u);
  }

  /** Preempted although the interrupt woke it: the caller is ready like anybody else, and nothing
      in the kernel's data tells that it still has to call `dispatch_sleep`. */
  lemma WokenAndPreempted(s: State, d: nat, v: State, t: State)
    requires CanWait(s, d) && v == InWindow(s, d) && Preempts(s, v) && Due(v, d) && t == DevUpdate(v)
    ensures Invariant(t) && BestRuns(t) && s.cur in t.run && t.tcbs == s.tcbs
  {
    var x, y := WindowOpens(s, d, v);
    var b := Beside(y, s.cur);
    WokenIsReady(s, d, v, x, y, b);
    Preempted(s, d, v, x, y, b, t);
    SwitchedTo(y, s.cur, b, t);
    WindowClock(s, d, v, x, y, t);
  }

  lemma InOwnSlot(y: State, c: Slot, p: Slot)
    requires Scheduling(y) && p in Beside(y, c).run
    ensures Beside(y, c).run[p := p] == Beside(y, c).run
  {
    OwnSlots(y);
  }

  lemma WokenIsReady(s: State, d: nat, v: State, x: State, y: State, b: State)
    requires Window(s, d, v, x, y) && Due(v, d) && b == Beside(y, s.cur)
    ensures s.cur in b.run && b == b.(run := b.run[s.cur := s.cur])
  {
    assert s.cur in v.queues[d];
    assert WokenBelow(v, NUM_DEVICES, s.cur);
    WindowReady(s, d, v, x, y, s.cur);
    InOwnSlot(y, s.cur, s.cur);
  }

  lemma SwitchedTo(y: State, c: Slot, b: State, t: State)
    requires Scheduling(y) && y.cur == IDLE_PRIO && b == Beside(y, c) && c in b.run
    requires b.run != map[] && t == DispatchSleep(b) && exists p :: p in b.run && p < c
    ensures Scheduling(t) && BestRuns(t) && c in t.run && t == y.(run := t.run, cur := t.cur)
  {
    BesideYields(y, c, b);
    DispatchSleepHolds(b, t);
    NothingHeld(t);
  }

  lemma CountOnChain(y: State, d: nat, c: Slot)
    requires WellFormed(y) && d < NUM_DEVICES && c in y.queues[d]
    ensures CountIn(y.queues, c) == 1 && c !in y.run.Values
  {
    AtMostOnePlace(y, c);
    SlotsWhenReady(y, c);
    assert forall p :: p in y.run && y.run[p] == c ==> Ready(y, c);
  }

  lemma SwitchAway(y: State, c: Slot, w: State, t: State)
    requires Scheduling(y) && y.cur == IDLE_PRIO && c != IDLE_PRIO && c !in y.run.Values && Live(y, c)
    requires w == Beside(y, c).(run := Beside(y, c).run[c := c])
    requires w.run != map[] && t == DispatchSleep(w) && exists p :: p in w.run && p < c
    ensures t.cur < c && t.queues == y.queues && t.cur in w.run && t.run == w.run - {t.cur}
  {
    OwnSlots(y);
    var h := Highest(w.run);
    assert h in y.run && w.run[h] == h;
    assert y.tcbs[h].resume == None;
  }

  lemma SlotsOfBoth(y: State, c: Slot, h: Slot, run: map<Slot, Slot>)
    requires c != IDLE_PRIO && c !in y.run.Values && h != c
    requires run == y.run[IDLE_PRIO := IDLE_PRIO][c := c] - {h}
    ensures SlotsOf(run, c) == {c}
  {
    assert c in run && run[c] == c;
    assert forall p :: p in y.run ==> y.run[p] in y.run.Values;
  }

  /** Preempted without being woken: the caller is ready and on its chain at the same time. */
  lemma SplitWaitDoublesTask(s: State, d: nat, v: State, t: State)
    requires CanWait(s, d) && v == InWindow(s, d) && Preempts(s, v) && !Due(v, d) && t == DevUpdate(v)
    ensures Shape(t) && t.cur != s.cur && Ready(t, s.cur) && s.cur in t.queues[d] && PlaceCount(t, s.cur) == 2
  {
    var x, y := WindowOpens(s, d, v);
    var c := s.cur;
    var w := Beside(y, c).(run := Beside(y, c).run[c := c]);
    Preempted(s, d, v, x, y, w, t);
    assert c in v.queues[d] && y.queues[d] == v.queues[d];
    CountOnChain(y, d, c);
    SwitchAway(y, c, w, t);
    SlotsOfBoth(y, c, t.cur, t.run);
    OwnPriority(s, d);
  }

  // ---------------------------------------------------------------------------
  // The caller comes back
  // ---------------------------------------------------------------------------

  /** The kernel runs on after the interrupt until `c` is switched to. The tasks are not replaced. */
  ghost predicate Comeback(t: State, ss: seq<State>, es: seq<Event>, c: Slot) {
    && IsRun(ss, es) && ss[0] == t && Shape(ss[|es|]) && ss[|es|].cur == c
    && forall k :: 0 <= k < |es| ==> ss[k].cur != c && !es[k].Spawn?
  }

  /** `dispatch_sleep` in state `r` leaves `c` in no place at all. */
  ghost predicate Vanishes(r: State, c: Slot) {
    && Shape(r) && r.run != map[] && Shape(DispatchSleep(r))
    && PlaceCount(DispatchSleep(r), c) == 0 && !Invariant(DispatchSleep(r))
  }

  /** A task that executes `dispatch_sleep` without being on a chain is gone. */
  lemma SleepingNowhere(r: State, c: Slot)
    requires Invariant(r) && r.cur == c && c != IDLE_PRIO
    ensures Vanishes(r, c)
  {
    NeverDry(r);
    OwnSlots(r);
    var h := Highest(r.run);
    var u := DispatchSleep(r);
    assert u == r.(run := r.run - {h}, cur := h);
    ExactlyOnePlace(r, c);
    assert SlotsOf(r.run, c) == {} && SlotsOf(u.run, c) == {};
    if Invariant(u) { ExactlyOnePlace(u, c); }
  }

  lemma RunPrepended(t: State, e: Event, ss: seq<State>, es: seq<Event>)
    requires IsRun(ss, es) && Next(t, e, ss[0])
    ensures IsRun([t] + ss, [e] + es)
  {
    var ss1, es1 := [t] + ss, [e] + es;
    forall i | 0 <= i < |es1| ensures Next(ss1[i], es1[i], ss1[i + 1]) {
      if i > 0 { assert Next(ss[i - 1], es[i - 1], ss[i - 1 + 1]); }
    }
  }

  lemma NextInLine(t: State, c: Slot) returns (u: State)
    requires Invariant(t) && BestRuns(t) && t.tcbs[t.cur].holdsLock == 0 && c in t.run && c != IDLE_PRIO
    ensures Next(t, Wait(0), u) && Invariant(u) && BestRuns(u) && u.tcbs[u.cur].holdsLock == 0
    ensures t.cur < u.cur <= c && (u.cur == c || c in u.run)
  {
    u := EventWait(t, 0).0;
    NothingHeld(t);
    OwnSlots(t);
    EventWaitHolds(t, 0, u);
    assert Next(t, Wait(0), u);
    StepHolds(t, Wait(0), u);
    assert u.tcbs == t.tcbs;
  }

  lemma ComebackAtOnce(t: State, u: State, c: Slot)
    requires Next(t, Wait(0), u) && t.cur != c && Shape(u) && u.cur == c
    ensures Comeback(t, [t, u], [Wait(0)], c)
  {}

  /** A ready task comes back as soon as all better ones wait for a device. */
  lemma {:induction false} ComesBackEventually(t: State, c: Slot) returns (ss: seq<State>, es: seq<Event>)
    requires Invariant(t) && BestRuns(t) && t.tcbs[t.cur].holdsLock == 0 && c in t.run && c != IDLE_PRIO
    ensures Comeback(t, ss, es, c)
    decreases c - t.cur
  {
    var u := NextInLine(t, c);
    if u.cur == c {
      ss, es := [t, u], [Wait(0)];
      ComebackAtOnce(t, u, c);
    } else {
      var ss1, es1 := ComesBackEventually(u, c);
      ss, es := [t] + ss1, [Wait(0)] + es1;
      ComebackPrepended(t, u, ss1, es1, c, ss, es);
    }
  }

  lemma ComebackPrepended(
    t: State, u: State, ss1: seq<State>, es1: seq<Event>, c: Slot, ss: seq<State>, es: seq<Event>)
    requires Comeback(u, ss1, es1, c) && t.cur != c && Next(t, Wait(0), u)
    requires ss == [t] + ss1 && es == [Wait(0)] + es1
    ensures Comeback(t, ss, es, c)
  {
    RunPrepended(t, Wait(0), ss1, es1);
    forall k | 0 <= k < |es| ensures ss[k].cur != c && !es[k].Spawn? {
      if k > 0 { assert ss[k] == ss1[k - 1] && es[k] == es1[k - 1]; }
    }
  }

  lemma VanishesOnReturn(t: State, ss: seq<State>, es: seq<Event>, c: Slot)
    requires Invariant(t) && Comeback(t, ss, es, c) && c != IDLE_PRIO
    ensures Vanishes(ss[|es|], c)
  {
    RunHolds(ss, es, |es|);
    SleepingNowhere(ss[|es|], c);
  }

  /** Preempted and woken: whenever the caller runs again, however the kernel got there, its
      `dispatch_sleep` leaves it in no place at all; and there is such a run. */
  lemma SplitWaitLosesTask(s: State, d: nat, v: State, t: State)
    requires CanWait(s, d) && v == InWindow(s, d) && Preempts(s, v) && Due(v, d) && t == DevUpdate(v)
    ensures Invariant(t)
    ensures forall ss: seq<State>, es: seq<Event> :: Comeback(t, ss, es, s.cur) ==> Vanishes(ss[|es|], s.cur)
    ensures exists ss: seq<State>, es: seq<Event> :: Comeback(t, ss, es, s.cur)
  {
    WokenAndPreempted(s, d, v, t);
    forall ss: seq<State>, es: seq<Event> | Comeback(t, ss, es, s.cur) ensures Vanishes(ss[|es|], s.cur) {
      VanishesOnReturn(t, ss, es, s.cur);
    }
    NothingHeld(s);
    var ss, es := ComesBackEventually(t, s.cur);
  }

  // ---------------------------------------------------------------------------
  // When the window is harmless
  // ---------------------------------------------------------------------------

  /** After an interrupt in the window: the invariant holds once the caller has executed its
      `dispatch_sleep`, and, if others run first, also before that. */
  ghost predicate EndsWell(t: State, c: Slot)
    requires Shape(t)
  {
    if t.cur == c then t.run != map[] && Invariant(DispatchSleep(t))
    else
      && Invariant(t)
      && forall ss: seq<State>, es: seq<Event> :: Comeback(t, ss, es, c) ==>
           ss[|es|].run != map[] && Invariant(DispatchSleep(ss[|es|]))
  }

  /** The exact condition, for every state a call of `dev_wait` can start from and every device: one
      interrupt in the window is harmless iff it does not preempt the caller. */
  lemma SplitWaitIff(s: State, d: nat, v: State, t: State)
    requires CanWait(s, d) && v == InWindow(s, d) && t == DevUpdate(v)
    ensures Shape(t) && (EndsWell(t, s.cur) <==> !Preempts(s, v))
  {
    if !Preempts(s, v) {
      var x, y := WindowOpens(s, d, v);
      NotPreempted(s, d, v, x, y, t);
      FinishHolds(s, d, v, x, y, t);
    } else if Due(v, d) {
      LostIsNotWell(s, d, v, t);
    } else {
      SplitWaitDoublesTask(s, d, v, t);
      TwiceIsNotWell(s, t);
    }
  }

  lemma LostIsNotWell(s: State, d: nat, v: State, t: State)
    requires CanWait(s, d) && v == InWindow(s, d) && Preempts(s, v) && Due(v, d) && t == DevUpdate(v)
    ensures Shape(t) && !EndsWell(t, s.cur)
  {
    WokenAndPreempted(s, d, v, t);
    OwnSlots(t);
    SplitWaitLosesTask(s, d, v, t);
    var ss: seq<State>, es: seq<Event> :| Comeback(t, ss, es, s.cur);
    assert !Invariant(DispatchSleep(ss[|es|]));
  }

  lemma TwiceIsNotWell(s: State, t: State)
    requires Shape(t) && PlaceCount(t, s.cur) == 2 && Ready(t, s.cur) && t.cur != s.cur
    ensures !EndsWell(t, s.cur)
  {
    if Invariant(t) { ExactlyOnePlace(t, s.cur); }
  }
}
