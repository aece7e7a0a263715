/** The run queue: a two-level bitmap over an array with one slot per priority
    (kernel/sched/run_queue.c). A TCB is named by its index in `system_tcb`. */
module RunQueue {
  import opened Config

  /** What an empty slot of `run_list` holds. */
  const NULL := -1

  predicate Bit(b: bv8, i: nat)
    requires i < 8
  {
    b & (1 << i) != 0
  }

  function SetBit(b: bv8, i: nat): bv8
    requires i < 8
  {
    b | (1 << i)
  }

  function ClearBit(b: bv8, i: nat): bv8
    requires i < 8
  {
    b & !(1 << i)
  }

  /** `prio_unmap_table`: 16 lines of 16 entries, which differ only in their first column. */
  function PrioUnmap(b: bv8): bv8 {
    if b & 0x0F != 0 then UnmapColumn(b & 0x0F) else UnmapLine(b >> 4)
  }

  function UnmapColumn(column: bv8): bv8 {
    match column
    case 1 => 0 case 2 => 1 case 3 => 0 case 4 => 2 case 5 => 0 case 6 => 1 case 7 => 0 case 8 => 3
    case 9 => 0 case 10 => 1 case 11 => 0 case 12 => 2 case 13 => 0 case 14 => 1 case _ => 0
  }

  function UnmapLine(line: bv8): bv8 {
    match line
    case 0 => 0 case 1 => 4 case 2 => 5 case 3 => 4 case 4 => 6 case 5 => 4 case 6 => 5 case 7 => 4
    case 8 => 7 case 9 => 4 case 10 => 5 case 11 => 4 case 12 => 6 case 13 => 4 case 14 => 5 case _ => 4
  }

  /** The table finds the lowest bit that is set. */
  lemma PrioUnmapIsLowest(b: bv8, i: nat)
    requires i < 8
    ensures PrioUnmap(b) < 8
    ensures b != 0 ==> Bit(b, PrioUnmap(b) as nat)
    ensures i < PrioUnmap(b) as nat ==> !Bit(b, i)
    ensures Bit(b, i) ==> b != 0
    ensures b == 0 ==> PrioUnmap(b) == 0
  {}

  lemma MasksDiffer(i: nat, j: nat)
    requires i < 8 && j < 8
    ensures if i == j then (1 as bv8) << i == 1 << j else ((1 as bv8) << i) & (1 << j) == 0
    ensures (1 as bv8) << i != 0
  {}

  lemma BitAfterSet(b: bv8, i: nat, j: nat)
    requires i < 8 && j < 8
    ensures Bit(SetBit(b, i), j) <==> i == j || Bit(b, j)
  {
    MasksDiffer(i, j);
    SetMask(b, 1 << i, 1 << j);
  }

  lemma SetMask(b: bv8, m: bv8, n: bv8)
    requires m != 0
    ensures m == n ==> (b | m) & n != 0
    ensures m & n == 0 ==> (b | m) & n == b & n
  {}

  lemma ClearMask(b: bv8, m: bv8, n: bv8)
    ensures m == n ==> b & !m & n == 0
    ensures m & n == 0 ==> b & !m & n == b & n
  {}

  lemma BitAfterClear(b: bv8, i: nat, j: nat)
    requires i < 8 && j < 8
    ensures Bit(ClearBit(b, i), j) <==> i != j && Bit(b, j)
  {
    MasksDiffer(i, j);
    ClearMask(b, 1 << i, 1 << j);
  }

  /** `group_run_bits`, `run_bits` and `run_list`. */
  datatype Trie = Trie(group: bv8, bits: seq<bv8>, list: seq<int>) {

    predicate Sized() {
      |bits| == OS_MAX_TASKS / NUM_RUN_GROUP && |list| == OS_MAX_TASKS
    }

    predicate Queued(prio: Slot)
      requires Sized()
    {
      Bit(bits[prio / NUM_RUN_GROUP], prio % NUM_RUN_GROUP)
    }

    /** A group bit mirrors its byte, and a set bit stands for a filled slot. A clear bit says nothing
        about the slot, which `runqueue_init` leaves as it was. */
    ghost predicate Valid() {
      && Sized()
      && (forall g :: 0 <= g < |bits| ==> (Bit(group, g) <==> bits[g] != 0))
      && (forall p: Slot :: Queued(p) ==> 0 <= list[p] < OS_MAX_TASKS)
    }

    /** The partial map from priority to task that the bitmaps and the array represent. */
    ghost function Contents(): map<Slot, Slot>
      requires Valid()
    {
      map p: Slot | Queued(p) :: list[p]
    }

    function Clear(): Trie
      requires Sized()
    {
      Trie(0, seq(OS_MAX_TASKS / NUM_RUN_GROUP, _ => 0), list)
    }

    function Add(task: Slot, prio: Slot): Trie
      requires Sized()
    {
      var g, b := prio / NUM_RUN_GROUP, prio % NUM_RUN_GROUP;
      Trie(SetBit(group, g), bits[g := SetBit(bits[g], b)], list[prio := task])
    }

    function Remove(prio: Slot): Trie
      requires Sized()
    {
      var g, b := prio / NUM_RUN_GROUP, prio % NUM_RUN_GROUP;
      var byte := ClearBit(bits[g], b);
      Trie(if byte == 0 then ClearBit(group, g) else group, bits[g := byte], list[prio := NULL])
    }

    function Highest(): Slot
      requires Sized()
    {
      PrioUnmapIsLowest(group, 0);
      var g := PrioUnmap(group) as nat;
      PrioUnmapIsLowest(bits[g], 0);
      g * NUM_RUN_GROUP + PrioUnmap(bits[g]) as nat
    }
  }

  /** What `highest_prio` should say about a queue: its least key, and 0 when there is none. */
  ghost predicate IsHighest(run: map<Slot, Slot>, prio: Slot) {
    if run == map[] then prio == 0 else prio in run && forall p :: p in run ==> prio <= p
  }

  lemma SamePlace(p: Slot, q: Slot)
    ensures p == q <==> p / NUM_RUN_GROUP == q / NUM_RUN_GROUP && p % NUM_RUN_GROUP == q % NUM_RUN_GROUP
  {}

  lemma ClearRefines(t: Trie)
    requires t.Sized()
    ensures t.Clear().Valid() && t.Clear().Contents() == map[]
  {
    forall g | 0 <= g < 8 ensures !Bit(0, g) { PrioUnmapIsLowest(0, g); }
  }

  lemma AddBits(t: Trie, task: Slot, prio: Slot, p: Slot)
    requires t.Valid()
    ensures t.Add(task, prio).Queued(p) <==> p == prio || t.Queued(p)
  {
    SamePlace(p, prio);
    BitAfterSet(t.bits[prio / NUM_RUN_GROUP], prio % NUM_RUN_GROUP, p % NUM_RUN_GROUP);
  }

  /** `runqueue_add` is map update. */
  lemma AddRefines(t: Trie, task: Slot, prio: Slot)
    requires t.Valid()
    ensures t.Add(task, prio).Valid()
    ensures t.Add(task, prio).Contents() == t.Contents()[prio := task]
  {
    var u := t.Add(task, prio);
    var g, b := prio / NUM_RUN_GROUP, prio % NUM_RUN_GROUP;
    forall h | 0 <= h < |u.bits| ensures Bit(u.group, h) <==> u.bits[h] != 0 {
      BitAfterSet(t.group, g, h);
      BitAfterSet(t.bits[g], b, b);
      PrioUnmapIsLowest(u.bits[g], b);
    }
    forall p: Slot ensures u.Queued(p) <==> p == prio || t.Queued(p) {
      AddBits(t, task, prio, p);
    }
  }

  lemma RemoveBits(t: Trie, prio: Slot, p: Slot)
    requires t.Valid()
    ensures t.Remove(prio).Queued(p) <==> p != prio && t.Queued(p)
  {
    SamePlace(p, prio);
    BitAfterClear(t.bits[prio / NUM_RUN_GROUP], prio % NUM_RUN_GROUP, p % NUM_RUN_GROUP);
  }

  /** `runqueue_remove` is removal of the key. */
  lemma RemoveRefines(t: Trie, prio: Slot)
    requires t.Valid()
    ensures t.Remove(prio).Valid()
    ensures t.Remove(prio).Contents() == t.Contents() - {prio}
  {
    var u := t.Remove(prio);
    var g := prio / NUM_RUN_GROUP;
    forall h | 0 <= h < |u.bits| ensures Bit(u.group, h) <==> u.bits[h] != 0 {
      BitAfterClear(t.group, g, h);
    }
    forall p: Slot ensures u.Queued(p) <==> p != prio && t.Queued(p) {
      RemoveBits(t, prio, p);
    }
  }

  lemma QueuedAt(t: Trie, g: nat, b: nat)
    requires t.Sized() && g < 8 && b < 8
    ensures t.Queued(g * NUM_RUN_GROUP + b) == Bit(t.bits[g], b)
  {
    var p := g * NUM_RUN_GROUP + b;
    assert p / NUM_RUN_GROUP == g && p % NUM_RUN_GROUP == b;
  }

  lemma HighestIsQueued(t: Trie)
    requires t.Valid() && t.group != 0
    ensures t.Queued(t.Highest())
  {
    PrioUnmapIsLowest(t.group, 0);
    var g := PrioUnmap(t.group) as nat;
    assert t.bits[g] != 0;
    PrioUnmapIsLowest(t.bits[g], 0);
    QueuedAt(t, g, PrioUnmap(t.bits[g]) as nat);
  }

  lemma PrioUnmapAtMost(b: bv8, i: nat)
    requires i < 8 && Bit(b, i)
    ensures b != 0 && PrioUnmap(b) as nat <= i
  {
    PrioUnmapIsLowest(b, i);
  }

  lemma HighestParts(t: Trie) returns (g: nat, b: nat)
    requires t.Sized()
    ensures g < 8 && b < 8 && g == PrioUnmap(t.group) as nat && b == PrioUnmap(t.bits[g]) as nat
    ensures t.Highest() == g * NUM_RUN_GROUP + b
  {
    PrioUnmapIsLowest(t.group, 0);
    g := PrioUnmap(t.group) as nat;
    PrioUnmapIsLowest(t.bits[g], 0);
    b := PrioUnmap(t.bits[g]) as nat;
  }

  lemma PartsCompare(g: nat, b: nat, p: nat)
    requires b < NUM_RUN_GROUP && g <= p / NUM_RUN_GROUP
    requires g == p / NUM_RUN_GROUP ==> b <= p % NUM_RUN_GROUP
    ensures g * NUM_RUN_GROUP + b <= p
  {}

  lemma HighestIsLeast(t: Trie, p: Slot)
    requires t.Valid() && t.Queued(p)
    ensures t.group != 0 && t.Highest() <= p
  {
    var pg, pb := p / NUM_RUN_GROUP, p % NUM_RUN_GROUP;
    var g, b := HighestParts(t);
    PrioUnmapAtMost(t.bits[pg], pb);
    assert Bit(t.group, pg);
    PrioUnmapAtMost(t.group, pg);
    PartsCompare(g, b, p);
  }

  /** `highest_prio` is the least key of the map, and 0 on the empty map. */
  lemma HighestRefines(t: Trie)
    requires t.Valid()
    ensures IsHighest(t.Contents(), t.Highest())
  {
    forall p | p in t.Contents() ensures t.group != 0 && t.Highest() <= p {
      HighestIsLeast(t, p);
    }
    if t.group == 0 {
      PrioUnmapIsLowest(t.group, 0);
      PrioUnmapIsLowest(t.bits[0], 0);
    } else {
      HighestIsQueued(t);
      assert t.Highest() in t.Contents();
    }
  }

  // ---------------------------------------------------------------------------
  // Any sequence of operations
  // ---------------------------------------------------------------------------

  datatype Op = Init | Add(task: Slot, prio: Slot) | Remove(prio: Slot)

  function RunTrie(t: Trie, ops: seq<Op>): (u: Trie)
    requires t.Sized()
    ensures u.Sized()
    decreases |ops|
  {
    if ops == [] then t
    else
      var n := |ops| - 1;
      var u := RunTrie(t, ops[..n]);
      match ops[n]
      case Init => u.Clear()
      case Add(task, prio) => u.Add(task, prio)
      case Remove(prio) => u.Remove(prio)
  }

  ghost function RunMap(ops: seq<Op>): map<Slot, Slot>
    decreases |ops|
  {
    if ops == [] then map[]
    else
      var n := |ops| - 1;
      match ops[n]
      case Init => map[]
      case Add(task, prio) => RunMap(ops[..n])[prio := task]
      case Remove(prio) => RunMap(ops[..n]) - {prio}
  }

  /** Started by an init on any memory contents, every history of operations behaves like the map. */
  lemma {:induction false} HistoryRefines(t: Trie, ops: seq<Op>)
    requires t.Sized()
    ensures var u := RunTrie(t.Clear(), ops); u.Valid() && u.Contents() == RunMap(ops)
    ensures IsHighest(RunMap(ops), RunTrie(t.Clear(), ops).Highest())
    decreases |ops|
  {
    if ops == [] {
      ClearRefines(t);
    } else {
      var n := |ops| - 1;
      HistoryRefines(t, ops[..n]);
      var u := RunTrie(t.Clear(), ops[..n]);
      match ops[n] {
        case Init => ClearRefines(u);
        case Add(task, prio) => AddRefines(u, task, prio);
        case Remove(prio) => RemoveRefines(u, prio);
      }
    }
    HighestRefines(RunTrie(t.Clear(), ops));
  }

  // ---------------------------------------------------------------------------
  // The source's arrays, in place
  // ---------------------------------------------------------------------------

  class Queue {
    var groupRunBits: bv8
    const runBits: array<bv8>
    const runList: array<int>

    ghost function View(): Trie
      reads this, runBits, runList
    {
      Trie(groupRunBits, runBits[..], runList[..])
    }

    ghost predicate Valid()
      reads this, runBits, runList
    {
      View().Valid()
    }

    ghost function Contents(): map<Slot, Slot>
      reads this, runBits, runList
      requires Valid()
    {
      View().Contents()
    }

    constructor ()
      ensures Valid() && Contents() == map[]
      ensures fresh(this) && fresh(runBits) && fresh(runList)
    {
      groupRunBits := 0;
      runBits := new bv8[OS_MAX_TASKS / NUM_RUN_GROUP](_ => 0);
      runList := new int[OS_MAX_TASKS](_ => NULL);
      new;
      ghost var t := View();
      assert t == t.Clear();
      ClearRefines(t);
    }

    method Init()
      requires View().Sized()
      modifies this, runBits
      ensures Valid() && Contents() == map[]
      ensures runList[..] == old(runList[..])
    {
      groupRunBits := 0;
      ghost var t := View();
      var i := 0;
      while i < OS_MAX_TASKS / NUM_RUN_GROUP
        invariant 0 <= i <= runBits.Length == 8
        invariant groupRunBits == 0 && runList[..] == t.list
        invariant forall k :: 0 <= k < i ==> runBits[k] == 0
      {
        runBits[i] := 0;
        i := i + 1;
      }
      assert View() == t.Clear();
      ClearRefines(t);
    }

    method Add(task: Slot, prio: Slot)
      requires Valid()
      modifies this, runBits, runList
      ensures Valid() && Contents() == old(Contents())[prio := task]
    {
      ghost var t := View();
      var groupId := prio / NUM_RUN_GROUP;
      var bit := prio % NUM_RUN_GROUP;
      groupRunBits := SetBit(groupRunBits, groupId);
      runBits[groupId] := SetBit(runBits[groupId], bit);
      runList[prio] := task;
      assert View() == t.Add(task, prio);
      AddRefines(t, task, prio);
    }

    /** The two asserts of the source are the precondition: the bit is set, the slot is filled. */
    method Remove(prio: Slot) returns (task: Slot)
      requires Valid() && prio in Contents()
      modifies this, runBits, runList
      ensures Valid() && Contents() == old(Contents()) - {prio}
      ensures task == old(Contents())[prio]
    {
      ghost var t := View();
      var groupId := prio / NUM_RUN_GROUP;
      var bit := prio % NUM_RUN_GROUP;
      assert Bit(runBits[groupId], bit);
      assert t.list[prio] != NULL;
      runBits[groupId] := ClearBit(runBits[groupId], bit);
      if runBits[groupId] == 0 {
        groupRunBits := ClearBit(groupRunBits, groupId);
      }
      task := runList[prio];
      runList[prio] := NULL;
      assert View() == t.Remove(prio);
      RemoveRefines(t, prio);
    }

    method HighestPrio() returns (prio: Slot)
      requires Valid()
      ensures IsHighest(Contents(), prio)
    {
      ghost var t := View();
      PrioUnmapIsLowest(groupRunBits, 0);
      var groupId := PrioUnmap(groupRunBits) as nat;
      PrioUnmapIsLowest(runBits[groupId], 0);
      var bit := PrioUnmap(runBits[groupId]) as nat;
      prio := groupId * NUM_RUN_GROUP + bit;
      assert prio == t.Highest();
      HighestRefines(t);
    }
  }
}
