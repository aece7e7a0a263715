/** The admission test and the reordering of the task list (kernel/sched/ub_test.c). */
module Schedule {
  import opened Config

  /** What user code passes to `task_create`: where to start, and the timing parameters. */
  datatype TaskDesc = TaskDesc(lambda: nat, data: nat, stackPos: nat, C: nat, T: nat, B: nat)

  // ---------------------------------------------------------------------------
  // Reordering
  // ---------------------------------------------------------------------------

  /** One comparison: `x` stands just left of `r`, whose head is being carried to the left. */
  function Carry(x: TaskDesc, r: seq<TaskDesc>): (s: seq<TaskDesc>)
    requires r != []
    ensures |s| == |r| + 1
  {
    if r[0].T < x.T then [r[0], x] + r[1..] else [x] + r
  }

  /** One inner loop: the shortest period is carried from the right end to the left end. */
  function Pass(a: seq<TaskDesc>): (r: seq<TaskDesc>)
    ensures |r| == |a|
  {
    if |a| <= 1 then a else Carry(a[0], Pass(a[1..]))
  }

  /** All the passes: each pass leaves its last position alone from then on. */
  function Reorder(a: seq<TaskDesc>): (r: seq<TaskDesc>)
    ensures |r| == |a|
    decreases |a|
  {
    if |a| <= 1 then a
    else
      var b := Pass(a);
      Reorder(b[..|b| - 1]) + [b[|b| - 1]]
  }

  predicate SortedByPeriod(a: seq<TaskDesc>) {
    forall i, j :: 0 <= i < j < |a| ==> a[i].T <= a[j].T
  }

  /** The tasks of one period, in list order. */
  function WithPeriod(a: seq<TaskDesc>, v: nat): seq<TaskDesc> {
    if a == [] then []
    else if a[0].T == v then [a[0]] + WithPeriod(a[1..], v)
    else WithPeriod(a[1..], v)
  }

  function CountShorter(a: seq<TaskDesc>, v: nat): nat {
    if a == [] then 0 else (if a[0].T < v then 1 else 0) + CountShorter(a[1..], v)
  }

  function CountEqual(a: seq<TaskDesc>, v: nat): nat {
    if a == [] then 0 else (if a[0].T == v then 1 else 0) + CountEqual(a[1..], v)
  }

  function CountLonger(a: seq<TaskDesc>, v: nat): nat {
    if a == [] then 0 else (if a[0].T > v then 1 else 0) + CountLonger(a[1..], v)
  }

  /** `a` and `b` hold the same tasks, and tasks of equal period in the same order. */
  ghost predicate StablePermutation(a: seq<TaskDesc>, b: seq<TaskDesc>) {
    multiset(a) == multiset(b) && forall v: nat :: WithPeriod(a, v) == WithPeriod(b, v)
  }

  lemma CountsOfCons(x: TaskDesc, a: seq<TaskDesc>, v: nat)
    ensures CountShorter([x] + a, v) == (if x.T < v then 1 else 0) + CountShorter(a, v)
    ensures CountEqual([x] + a, v) == (if x.T == v then 1 else 0) + CountEqual(a, v)
    ensures CountLonger([x] + a, v) == (if x.T > v then 1 else 0) + CountLonger(a, v)
    ensures WithPeriod([x] + a, v) == (if x.T == v then [x] else []) + WithPeriod(a, v)
  {
    assert ([x] + a)[1..] == a;
  }

  lemma {:induction false} CountsOfSnoc(a: seq<TaskDesc>, z: TaskDesc, v: nat)
    ensures CountShorter(a + [z], v) == CountShorter(a, v) + (if z.T < v then 1 else 0)
    ensures CountEqual(a + [z], v) == CountEqual(a, v) + (if z.T == v then 1 else 0)
    ensures CountLonger(a + [z], v) == CountLonger(a, v) + (if z.T > v then 1 else 0)
    ensures WithPeriod(a + [z], v) == WithPeriod(a, v) + (if z.T == v then [z] else [])
  {
    if a == [] {
      assert a + [z] == [z] + a;
      CountsOfCons(z, a, v);
    } else {
      CountsOfSnoc(a[1..], z, v);
      assert a + [z] == [a[0]] + (a[1..] + [z]);
      CountsOfCons(a[0], a[1..] + [z], v);
    }
  }

  /** A comparison swaps neighbours only when their periods differ. */
  lemma CarryKeeps(x: TaskDesc, r: seq<TaskDesc>, v: nat)
    requires r != []
    ensures WithPeriod(Carry(x, r), v) == WithPeriod([x] + r, v)
    ensures CountShorter(Carry(x, r), v) == CountShorter([x] + r, v)
    ensures CountEqual(Carry(x, r), v) == CountEqual([x] + r, v)
    ensures CountLonger(Carry(x, r), v) == CountLonger([x] + r, v)
  {
    var y, s := r[0], r[1..];
    assert r == [y] + s;
    CountsOfCons(y, s, v);
    CountsOfCons(x, r, v);
    CountsOfCons(x, s, v);
    CountsOfCons(y, [x] + s, v);
    assert [y, x] + s == [y] + ([x] + s);
  }

  lemma {:induction false} PassKeeps(a: seq<TaskDesc>, v: nat)
    ensures WithPeriod(Pass(a), v) == WithPeriod(a, v)
    ensures CountShorter(Pass(a), v) == CountShorter(a, v)
    ensures CountEqual(Pass(a), v) == CountEqual(a, v)
    ensures CountLonger(Pass(a), v) == CountLonger(a, v)
  {
    if |a| > 1 {
      var r := Pass(a[1..]);
      PassKeeps(a[1..], v);
      CarryKeeps(a[0], r, v);
      CountsOfCons(a[0], r, v);
      CountsOfCons(a[0], a[1..], v);
      assert a == [a[0]] + a[1..];
    }
  }

  lemma CarryPermutes(x: TaskDesc, r: seq<TaskDesc>)
    requires r != []
    ensures multiset(Carry(x, r)) == multiset{x} + multiset(r)
  {
    var y, s := r[0], r[1..];
    assert r == [y] + s;
    assert [y, x] + s == [y] + ([x] + s);
    assert multiset([y] + ([x] + s)) == multiset{y} + (multiset{x} + multiset(s));
    assert multiset([x] + r) == multiset{x} + multiset(r);
  }

  lemma {:induction false} PassPermutes(a: seq<TaskDesc>)
    ensures multiset(Pass(a)) == multiset(a)
  {
    if |a| > 1 {
      PassPermutes(a[1..]);
      CarryPermutes(a[0], Pass(a[1..]));
      assert a == [a[0]] + a[1..];
    }
  }

  lemma SameMembers(a: seq<TaskDesc>, b: seq<TaskDesc>)
    requires multiset(a) == multiset(b)
    ensures forall x :: x in a <==> x in b
  {
    assert forall x :: x in a <==> x in multiset(a);
    assert forall x :: x in b <==> x in multiset(b);
  }

  lemma {:induction false} PassPutsMinFirst(a: seq<TaskDesc>)
    requires a != []
    ensures forall x :: x in a ==> Pass(a)[0].T <= x.T
  {
    if |a| > 1 {
      PassPutsMinFirst(a[1..]);
      assert forall x :: x in a ==> x == a[0] || x in a[1..];
    }
  }

  /** Position 0 is settled by the first pass, and the whole list is a stable permutation. */
  lemma {:induction false} ReorderGuarantee(a: seq<TaskDesc>)
    ensures StablePermutation(Reorder(a), a)
    ensures a != [] ==> forall x :: x in a ==> Reorder(a)[0].T <= x.T
    decreases |a|
  {
    if |a| > 1 {
      var b := Pass(a);
      var c, z := b[..|b| - 1], b[|b| - 1];
      assert b == c + [z];
      ReorderGuarantee(c);
      PassPermutes(a);
      PassPutsMinFirst(a);
      assert c[0] in multiset(c) && c[0] == b[0];
      assert Reorder(a)[0] in multiset(Reorder(c)) by { assert Reorder(a)[0] == Reorder(c)[0]; }
      forall v: nat ensures WithPeriod(Reorder(a), v) == WithPeriod(a, v) {
        PassKeeps(a, v);
        CountsOfSnoc(c, z, v);
        CountsOfSnoc(Reorder(c), z, v);
      }
    }
  }

  // ---------------------------------------------------------------------------
  // When is the result sorted?
  // ---------------------------------------------------------------------------

  /** The exact condition: among the tasks listed after task `i`, those of strictly shorter period
      exceed by at most one the tasks that belong behind it (longer period anywhere in the list,
      or equal period listed later). */
  predicate Sortable(a: seq<TaskDesc>) {
    forall i :: 0 <= i < |a| ==>
      CountShorter(a[i + 1..], a[i].T) <= 1 + CountLonger(a, a[i].T) + CountEqual(a[i + 1..], a[i].T)
  }

  /** The same condition read down a part `s` of the list, with the counts of longer periods taken
      over `g` and an allowance `d`. */
  predicate Fits(s: seq<TaskDesc>, g: seq<TaskDesc>, d: nat) {
    s == [] ||
    (CountShorter(s[1..], s[0].T) <= d + CountLonger(g, s[0].T) + CountEqual(s[1..], s[0].T)
     && Fits(s[1..], g, d))
  }

  lemma {:induction false} FitsByIndex(s: seq<TaskDesc>, g: seq<TaskDesc>, d: nat)
    ensures Fits(s, g, d) <==> forall i :: 0 <= i < |s| ==>
      CountShorter(s[i + 1..], s[i].T) <= d + CountLonger(g, s[i].T) + CountEqual(s[i + 1..], s[i].T)
  {
    if s != [] {
      var t := s[1..];
      FitsByIndex(t, g, d);
      forall i | 0 <= i < |t| ensures t[i + 1..] == s[i + 2..] && t[i] == s[i + 1] {}
      if forall i :: 0 <= i < |s| ==>
          CountShorter(s[i + 1..], s[i].T) <= d + CountLonger(g, s[i].T) + CountEqual(s[i + 1..], s[i].T) {
        forall i | 0 <= i < |t|
          ensures CountShorter(t[i + 1..], t[i].T) <= d + CountLonger(g, t[i].T) + CountEqual(t[i + 1..], t[i].T)
        {
          assert s[(i + 1) + 1..] == t[i + 1..];
        }
      } else {
        var i :| 0 <= i < |s| &&
          CountShorter(s[i + 1..], s[i].T) > d + CountLonger(g, s[i].T) + CountEqual(s[i + 1..], s[i].T);
        if i > 0 { assert t[i - 1] == s[i] && t[(i - 1) + 1..] == s[i + 1..]; }
      }
    }
  }

  lemma FitsOfCons(x: TaskDesc, s: seq<TaskDesc>, g: seq<TaskDesc>, d: nat)
    ensures Fits([x] + s, g, d)
       <==> CountShorter(s, x.T) <= d + CountLonger(g, x.T) + CountEqual(s, x.T) && Fits(s, g, d)
  {
    assert ([x] + s)[1..] == s;
  }

  lemma {:induction false} NoneShorter(a: seq<TaskDesc>, v: nat)
    requires forall x :: x in a ==> v <= x.T
    ensures CountShorter(a, v) == 0
  {
    if a != [] { NoneShorter(a[1..], v); }
  }

  lemma {:induction false} NoneLonger(a: seq<TaskDesc>, v: nat)
    requires forall x :: x in a ==> x.T <= v
    ensures CountLonger(a, v) == 0
  {
    if a != [] { NoneLonger(a[1..], v); }
  }

  lemma {:induction false} SomeShorter(a: seq<TaskDesc>, v: nat, x: TaskDesc)
    requires x in a && x.T < v
    ensures CountShorter(a, v) >= 1
  {
    if a[0] != x { SomeShorter(a[1..], v, x); }
  }

  lemma {:induction false} NoneEqual(a: seq<TaskDesc>, v: nat)
    requires forall x :: x in a ==> x.T != v
    ensures CountEqual(a, v) == 0
  {
    if a != [] { NoneEqual(a[1..], v); }
  }

  /** Being passed by a shorter period uses up one unit of allowance. */
  lemma FitsOfCarry(x: TaskDesc, r: seq<TaskDesc>, g: seq<TaskDesc>, d: nat)
    requires r != [] && forall z :: z in r ==> r[0].T <= z.T
    ensures Fits(Carry(x, r), g, d)
       <==> CountShorter(r, x.T) <= d + 1 + CountLonger(g, x.T) + CountEqual(r, x.T) && Fits(r, g, d)
  {
    var y, s := r[0], r[1..];
    assert r == [y] + s;
    CountsOfCons(y, s, x.T);
    FitsOfCons(y, s, g, d);
    if y.T < x.T {
      NoneShorter(s, y.T);
      CountsOfCons(x, s, y.T);
      FitsOfCons(x, s, g, d);
      FitsOfCons(y, [x] + s, g, d);
      assert [y, x] + s == [y] + ([x] + s);
    } else {
      NoneShorter(r, x.T);
      FitsOfCons(x, r, g, d);
    }
  }

  lemma {:induction false} FitsOfPass(a: seq<TaskDesc>, g: seq<TaskDesc>, d: nat)
    ensures Fits(Pass(a), g, d) <==> Fits(a, g, d + 1)
  {
    if |a| == 1 {
      assert a[1..] == [];
    } else if |a| > 1 {
      var x, r := a[0], Pass(a[1..]);
      FitsOfPass(a[1..], g, d);
      PassKeeps(a[1..], x.T);
      PassPutsMinFirst(a[1..]);
      PassPermutes(a[1..]);
      SameMembers(r, a[1..]);
      FitsOfCarry(x, r, g, d);
    }
  }

  /** Dropping a maximal last task: it belonged behind every other one. */
  lemma {:induction false} FitsWithoutMax(s: seq<TaskDesc>, z: TaskDesc, c: seq<TaskDesc>)
    requires forall x :: x in s ==> x.T <= z.T
    ensures Fits(s + [z], c + [z], 0) <==> Fits(s, c, 1)
  {
    if s == [] {
      assert [] + [z] == [z] + [];
      FitsOfCons(z, [], c + [z], 0);
    } else {
      var x, t := s[0], s[1..];
      assert x in s && s == [x] + t && s + [z] == [x] + (t + [z]);
      FitsWithoutMax(t, z, c);
      FitsOfCons(x, t, c, 1);
      FitsOfCons(x, t + [z], c + [z], 0);
      CountsOfSnoc(t, z, x.T);
      CountsOfSnoc(c, z, x.T);
    }
  }

  /** Without allowance the last task of longest period must stand at the very end. */
  lemma {:induction false} MaxMustBeLast(s: seq<TaskDesc>, z: TaskDesc, g: seq<TaskDesc>, m: TaskDesc)
    requires m in s && z.T < m.T && CountLonger(g, m.T) == 0
    ensures !Fits(s + [z], g, 0)
  {
    var x, t := s[0], s[1..];
    assert s + [z] == [x] + (t + [z]);
    FitsOfCons(x, t + [z], g, 0);
    if y :| y in t && y.T == m.T {
      MaxMustBeLast(t, z, g, y);
    } else {
      assert x.T == m.T;
      NoneEqual(t + [z], m.T);
      assert z in t + [z];
      SomeShorter(t + [z], m.T, z);
    }
  }

  lemma {:induction false} LongestOf(a: seq<TaskDesc>) returns (m: TaskDesc)
    requires a != []
    ensures m in a && forall x :: x in a ==> x.T <= m.T
  {
    m := a[0];
    if |a| > 1 {
      var n := LongestOf(a[1..]);
      if m.T < n.T { m := n; }
    }
  }

  lemma {:induction false} FitsSameCounts(s: seq<TaskDesc>, g: seq<TaskDesc>, h: seq<TaskDesc>, d: nat)
    requires forall v: nat :: CountLonger(g, v) == CountLonger(h, v)
    ensures Fits(s, g, d) <==> Fits(s, h, d)
  {
    if s != [] { FitsSameCounts(s[1..], g, h, d); }
  }

  /** Sortability of a list against that of what the next pass works on. */
  lemma FitsStep(a: seq<TaskDesc>, c: seq<TaskDesc>, z: TaskDesc)
    requires |a| > 1 && Pass(a) == c + [z]
    ensures Fits(a, a, 1) <==> (forall x :: x in c ==> x.T <= z.T) && Fits(c, c, 1)
  {
    var b := c + [z];
    forall v: nat ensures CountLonger(a, v) == CountLonger(b, v) {
      PassKeeps(a, v);
    }
    FitsOfPass(a, a, 0);
    FitsSameCounts(b, a, b, 0);
    if forall x :: x in c ==> x.T <= z.T {
      FitsWithoutMax(c, z, c);
    } else {
      var m := LongestOf(b);
      var y :| y in c && z.T < y.T;
      assert y in b;
      assert m in c;
      NoneLonger(b, m.T);
      MaxMustBeLast(c, z, b, m);
    }
  }

  lemma SortedOfSnoc(r: seq<TaskDesc>, z: TaskDesc)
    ensures SortedByPeriod(r + [z]) <==> SortedByPeriod(r) && forall x :: x in r ==> x.T <= z.T
  {
    var s := r + [z];
    if SortedByPeriod(s) {
      forall i, j | 0 <= i < j < |r| ensures r[i].T <= r[j].T {
        assert s[i] == r[i] && s[j] == r[j];
      }
      forall i | 0 <= i < |r| ensures r[i].T <= z.T {
        assert s[i] == r[i] && s[|r|] == z;
      }
    }
  }

  lemma {:induction false} ReorderSortsIffFits(a: seq<TaskDesc>)
    ensures SortedByPeriod(Reorder(a)) <==> Fits(a, a, 1)
    decreases |a|
  {
    if |a| == 1 {
      assert a == [a[0]] + [];
      FitsOfCons(a[0], [], a, 1);
    } else if |a| > 1 {
      var b := Pass(a);
      var c, z := b[..|b| - 1], b[|b| - 1];
      assert b == c + [z];
      ReorderSortsIffFits(c);
      FitsStep(a, c, z);
      ReorderGuarantee(c);
      SameMembers(Reorder(c), c);
      SortedOfSnoc(Reorder(c), z);
    }
  }

  /** The passes sort exactly the sortable lists. */
  lemma ReorderSortsIff(a: seq<TaskDesc>)
    ensures SortedByPeriod(Reorder(a)) <==> Sortable(a)
  {
    ReorderSortsIffFits(a);
    FitsByIndex(a, a, 1);
  }

  /** The easy sufficient condition: nobody has two strictly shorter periods to the right. */
  lemma NearlySortedGetsSorted(a: seq<TaskDesc>)
    requires forall i :: 0 <= i < |a| ==> CountShorter(a[i + 1..], a[i].T) <= 1
    ensures SortedByPeriod(Reorder(a))
  {
    ReorderSortsIff(a);
  }

  /** Periods 3, 2, 1 come out as 1, 3, 2: the documented promise of a sorted list is not kept. */
  lemma ReorderNeedNotSort(x: TaskDesc)
    ensures var a := [x.(T := 3), x.(T := 2), x.(T := 1)];
            !SortedByPeriod(Reorder(a)) && Reorder(a) == [x.(T := 1), x.(T := 3), x.(T := 2)]
  {
    var a := [x.(T := 3), x.(T := 2), x.(T := 1)];
    assert a[1..] == [a[1], a[2]] && a[1..][1..] == [a[2]];
    assert Pass(a[1..]) == [a[2], a[1]];
    assert [a[2], a[1]][1..] == [a[1]];
    var b := [a[2], a[0], a[1]];
    assert Pass(a) == b;
    assert b[..2] == [a[2], a[0]] && b[..2][1..] == [a[0]];
    assert Pass(b[..2]) == b[..2] && b[..2][..1] == [a[2]];
    assert Reorder(b[..2]) == b[..2];
    assert Reorder(a)[1].T > Reorder(a)[2].T;
  }

  // ---------------------------------------------------------------------------
  // Admission
  // ---------------------------------------------------------------------------

  /** `bound_table[i]`: the utilization bound for `i + 1` tasks. */
  function Bound(i: nat): real
    requires i < OS_MAX_TASKS
  {
    match i
    case 0 => 1.0000 case 1 => 0.8284 case 2 => 0.7798 case 3 => 0.7568
    case 4 => 0.7435 case 5 => 0.7348 case 6 => 0.7286 case 7 => 0.7241
    case 8 => 0.7205 case 9 => 0.7177 case 10 => 0.7155 case 11 => 0.7136
    case 12 => 0.7120 case 13 => 0.7106 case 14 => 0.7094 case 15 => 0.7084
    case 16 => 0.7075 case 17 => 0.7067 case 18 => 0.7059 case 19 => 0.7053
    case 20 => 0.7047 case 21 => 0.7042 case 22 => 0.7037 case 23 => 0.7033
    case 24 => 0.7028 case 25 => 0.7025 case 26 => 0.7021 case 27 => 0.7018
    case 28 => 0.7015 case 29 => 0.7012 case 30 => 0.7010 case 31 => 0.7007
    case 32 => 0.7005 case 33 => 0.7003 case 34 => 0.7001 case 35 => 0.6999
    case 36 => 0.6997 case 37 => 0.6995 case 38 => 0.6993 case 39 => 0.6992
    case 40 => 0.6990 case 41 => 0.6989 case 42 => 0.6988 case 43 => 0.6986
    case 44 => 0.6985 case 45 => 0.6984 case 46 => 0.6983 case 47 => 0.6982
    case 48 => 0.6981 case 49 => 0.6980 case 50 => 0.6979 case 51 => 0.6978
    case 52 => 0.6977 case 53 => 0.6976 case 54 => 0.6975 case 55 => 0.6975
    case 56 => 0.6974 case 57 => 0.6973 case 58 => 0.6972 case 59 => 0.6972
    case 60 => 0.6971 case 61 => 0.6970 case 62 => 0.6970 case _ => 0.6969
  }

  /** The first `n` entries of the table. */
  function BoundTable(n: nat): (table: seq<real>)
    requires n <= OS_MAX_TASKS
  {
    seq(n, (i: nat) requires i < n => Bound(i))
  }

  /** A C `float` without rounding: division by a zero period gives an infinity or not-a-number. */
  datatype Float = Num(x: real) | Inf | NaN

  function Div(n: nat, t: nat): Float {
    if t > 0 then Num(n as real / t as real) else if n > 0 then Inf else NaN
  }

  function Plus(a: Float, b: Float): Float {
    match (a, b)
    case (Num(x), Num(y)) => Num(x + y)
    case (NaN, _) => NaN
    case (_, NaN) => NaN
    case _ => Inf
  }

  /** Every comparison with not-a-number is false. */
  predicate Exceeds(a: Float, bound: real) {
    match a
    case Num(x) => x > bound
    case Inf => true
    case NaN => false
  }

  /** The test from task `i` on, with `u` the utilization of the tasks before it. */
  predicate AdmitFrom(a: seq<TaskDesc>, table: seq<real>, i: nat, u: Float)
    requires i <= |a| <= |table|
    decreases |a| - i
  {
    i == |a| ||
    (!Exceeds(Plus(u, Div(a[i].C + a[i].B, a[i].T)), table[i])
     && AdmitFrom(a, table, i + 1, Plus(u, Div(a[i].C, a[i].T))))
  }

  predicate Admit(a: seq<TaskDesc>)
    requires |a| <= OS_MAX_TASKS
  {
    AdmitFrom(a, BoundTable(|a|), 0, Num(0.0))
  }

  function Share(t: TaskDesc): real {
    if t.T == 0 then 0.0 else t.C as real / t.T as real
  }

  /** Total utilization. */
  function Load(a: seq<TaskDesc>): real {
    if a == [] then 0.0 else Share(a[0]) + Load(a[1..])
  }

  /** Task `i` meets its bound: utilization of the tasks before it, plus its own with blocking. */
  predicate MeetsBound(a: seq<TaskDesc>, table: seq<real>, i: nat)
    requires i < |a| <= |table|
  {
    a[i].T > 0 && Load(a[..i]) + (a[i].C + a[i].B) as real / a[i].T as real <= table[i]
  }

  predicate IsVoid(t: TaskDesc) {
    t.C == 0 && t.T == 0 && t.B == 0
  }

  /** Index of the first task whose three timing parameters are all zero. */
  function FirstVoid(a: seq<TaskDesc>): (n: nat)
    ensures n <= |a| && (n < |a| ==> IsVoid(a[n]))
    ensures forall i :: 0 <= i < n ==> !IsVoid(a[i])
  {
    if a == [] || IsVoid(a[0]) then 0 else 1 + FirstVoid(a[1..])
  }

  lemma LoadOfCons(x: TaskDesc, a: seq<TaskDesc>)
    ensures Load([x] + a) == Share(x) + Load(a)
  {
    assert ([x] + a)[1..] == a;
  }

  lemma {:induction false} LoadOfSnoc(a: seq<TaskDesc>, z: TaskDesc)
    ensures Load(a + [z]) == Load(a) + Share(z)
  {
    if a == [] {
      assert a + [z] == [z] + [];
      LoadOfCons(z, []);
    } else {
      assert a + [z] == [a[0]] + (a[1..] + [z]);
      LoadOfSnoc(a[1..], z);
      LoadOfCons(a[0], a[1..] + [z]);
    }
  }

  lemma {:induction false} NaNAdmitsTheRest(a: seq<TaskDesc>, table: seq<real>, i: nat)
    requires i <= |a| <= |table|
    ensures AdmitFrom(a, table, i, NaN)
    decreases |a| - i
  {
    if i < |a| { NaNAdmitsTheRest(a, table, i + 1); }
  }

  lemma {:induction false} AdmitFromIff(a: seq<TaskDesc>, table: seq<real>, i: nat)
    requires i <= FirstVoid(a) && |a| <= |table|
    ensures AdmitFrom(a, table, i, Num(Load(a[..i])))
       <==> forall k :: i <= k < FirstVoid(a) ==> MeetsBound(a, table, k)
    decreases |a| - i
  {
    if i < FirstVoid(a) {
      if a[i].T > 0 {
        assert a[..i + 1] == a[..i] + [a[i]];
        LoadOfSnoc(a[..i], a[i]);
        AdmitFromIff(a, table, i + 1);
        var t, u := a[i], Load(a[..i]);
        assert Div(t.C, t.T) == Num(Share(t));
        assert AdmitFrom(a, table, i, Num(u))
          <==> MeetsBound(a, table, i) && AdmitFrom(a, table, i + 1, Num(u + Share(t)));
      } else {
        assert !MeetsBound(a, table, i);
      }
    } else if i < |a| {
      NaNAdmitsTheRest(a, table, i + 1);
    }
  }

  /** The test, for every list: it accepts iff every task before the first all-zero one has a
      positive period and meets its bound. */
  lemma AdmitIff(a: seq<TaskDesc>)
    requires |a| <= OS_MAX_TASKS
    ensures Admit(a) <==> forall k :: 0 <= k < FirstVoid(a) ==> MeetsBound(a, BoundTable(|a|), k)
  {
    assert a[..0] == [] && Load(a[..0]) == 0.0;
    var table := BoundTable(|a|);
    AdmitFromIff(a, table, 0);
    assert Admit(a) == AdmitFrom(a, table, 0, Num(Load(a[..0])));
  }

  lemma {:induction false} FirstOfPeriod(a: seq<TaskDesc>, v: nat)
    ensures (exists x :: x in a && x.T == v) <==> WithPeriod(a, v) != []
    ensures a != [] && a[0].T == v ==> WithPeriod(a, v) != [] && WithPeriod(a, v)[0] == a[0]
  {
    if a != [] {
      FirstOfPeriod(a[1..], v);
      assert forall x :: x in a <==> x == a[0] || x in a[1..];
    }
  }

  /** A zero period in the list as it was passed in decides the whole test: such tasks come to the
      front, and the first of them is rejected, or, if it is all zero, lets everything else pass. */
  lemma ZeroPeriodDecides(a: seq<TaskDesc>)
    requires |a| <= OS_MAX_TASKS && WithPeriod(a, 0) != []
    ensures Admit(Reorder(a)) <==> IsVoid(WithPeriod(a, 0)[0])
  {
    var r := Reorder(a);
    ReorderGuarantee(a);
    FirstOfPeriod(a, 0);
    assert r[0].T == 0;
    FirstOfPeriod(r, 0);
    AdmitIff(r);
    if !IsVoid(r[0]) { assert !MeetsBound(r, BoundTable(|r|), 0); }
  }

  /** Without zero periods every task of the reordered list has to meet its bound. */
  lemma PositivePeriodsIff(a: seq<TaskDesc>)
    requires |a| <= OS_MAX_TASKS && WithPeriod(a, 0) == []
    ensures Admit(Reorder(a)) <==> forall k :: 0 <= k < |a| ==> MeetsBound(Reorder(a), BoundTable(|a|), k)
    ensures forall x :: x in a ==> x.T > 0
  {
    var r := Reorder(a);
    ReorderGuarantee(a);
    SameMembers(r, a);
    FirstOfPeriod(a, 0);
    AdmitIff(r);
    forall k | 0 <= k < |r| ensures r[k].T > 0 {
      assert r[k] in r;
    }
  }

  /** An all-zero descriptor switches the test off: here a task with five times the capacity of the
      processor is admitted in its company. */
  lemma OverloadAdmitted(heavy: TaskDesc, empty: TaskDesc)
    requires heavy == TaskDesc(0, 0, 0, 50, 10, 0) && empty == TaskDesc(0, 0, 0, 0, 0, 0)
    ensures Load([heavy, empty]) == 5.0 && Admit(Reorder([heavy, empty])) && !Admit(Reorder([heavy]))
  {
    var a := [heavy, empty];
    assert a == [heavy] + [empty] && [heavy] == [heavy] + [] && [empty] == [empty] + [];
    LoadOfCons(heavy, [empty]);
    LoadOfCons(empty, []);
    CountsOfCons(heavy, [empty], 0);
    CountsOfCons(empty, [], 0);
    assert WithPeriod(a, 0) == [empty];
    ZeroPeriodDecides(a);
    assert [heavy][..0] == [];
    AdmitIff([heavy]);
    assert FirstVoid([heavy]) == 1 && !MeetsBound([heavy], BoundTable(1), 0);
  }

  lemma {:induction false} LoadOfPass(a: seq<TaskDesc>)
    ensures Load(Pass(a)) == Load(a)
  {
    if |a| > 1 {
      var x, r := a[0], Pass(a[1..]);
      LoadOfPass(a[1..]);
      LoadOfCons(x, r);
      assert r == [r[0]] + r[1..];
      LoadOfCons(r[0], r[1..]);
      LoadOfCons(x, r[1..]);
      LoadOfCons(r[0], [x] + r[1..]);
      assert [r[0], x] + r[1..] == [r[0]] + ([x] + r[1..]);
    }
  }

  lemma {:induction false} LoadOfReorder(a: seq<TaskDesc>)
    ensures Load(Reorder(a)) == Load(a)
    decreases |a|
  {
    if |a| > 1 {
      var b := Pass(a);
      var c, z := b[..|b| - 1], b[|b| - 1];
      assert b == c + [z];
      LoadOfReorder(c);
      LoadOfPass(a);
      LoadOfSnoc(c, z);
      LoadOfSnoc(Reorder(c), z);
    }
  }

  lemma {:induction false} LoadOfPrefix(a: seq<TaskDesc>, i: nat)
    requires i <= |a|
    ensures Load(a[..i]) <= Load(a)
    decreases |a| - i
  {
    if i == |a| {
      assert a[..i] == a;
    } else {
      LoadOfPrefix(a, i + 1);
      assert a[..i + 1] == a[..i] + [a[i]];
      LoadOfSnoc(a[..i], a[i]);
    }
  }

  lemma BoundDecreases(i: nat)
    requires i + 1 < OS_MAX_TASKS
    ensures Bound(i + 1) <= Bound(i)
  {}

  predicate Decreasing(table: seq<real>) {
    forall i, j :: 0 <= i <= j < |table| ==> table[j] <= table[i]
  }

  lemma {:induction false} DecreasingBySteps(table: seq<real>, i: nat, j: nat)
    requires i <= j < |table| && forall k :: 0 < k < |table| ==> table[k] <= table[k - 1]
    ensures table[j] <= table[i]
    decreases j - i
  {
    if i < j { DecreasingBySteps(table, i, j - 1); }
  }

  lemma BoundTableDecreases(n: nat, table: seq<real>)
    requires n <= OS_MAX_TASKS && table == BoundTable(n)
    ensures Decreasing(table)
  {
    forall k | 0 < k < n ensures table[k] <= table[k - 1] {
      BoundDecreases(k - 1);
    }
    forall i, j | 0 <= i <= j < n ensures table[j] <= table[i] {
      DecreasingBySteps(table, i, j);
    }
  }

  lemma LastBound(n: nat, table: seq<real>)
    requires 0 < n <= OS_MAX_TASKS && table == BoundTable(n)
    ensures |table| == n && table[n - 1] == Bound(n - 1)
  {}

  lemma AdmitIffLoad(r: seq<TaskDesc>, n: nat)
    requires 0 < n == |r| <= OS_MAX_TASKS
    requires forall k :: 0 <= k < n ==> r[k].T > 0 && r[k].B == 0
    ensures Admit(r) <==> Load(r) <= Bound(n - 1)
  {
    var table := BoundTable(n);
    BoundTableDecreases(n, table);
    LastBound(n, table);
    AdmitIff(r);
    AllMeetIffLastMeets(r, table);
  }

  /** Without blocking terms only the total utilization matters, whatever the list order. */
  lemma AdmitWithoutBlocking(a: seq<TaskDesc>)
    requires 0 < |a| <= OS_MAX_TASKS
    requires forall x :: x in a ==> x.T > 0 && x.B == 0
    ensures Admit(Reorder(a)) <==> Load(a) <= Bound(|a| - 1)
  {
    var r := Reorder(a);
    ReorderGuarantee(a);
    SameMembers(r, a);
    LoadOfReorder(a);
    forall k | 0 <= k < |r| ensures r[k].T > 0 && r[k].B == 0 {
      assert r[k] in r;
    }
    AdmitIffLoad(r, |a|);
  }

  lemma AllMeetIffLastMeets(r: seq<TaskDesc>, table: seq<real>)
    requires 0 < |r| == |table| && Decreasing(table)
    requires forall k :: 0 <= k < |r| ==> r[k].T > 0 && r[k].B == 0
    ensures (forall k :: 0 <= k < FirstVoid(r) ==> MeetsBound(r, table, k)) <==> Load(r) <= table[|r| - 1]
  {
    var n := |r|;
    assert FirstVoid(r) == n && r[..n] == r;
    MeetsBoundWithoutBlocking(r, table, n - 1);
    if Load(r) <= table[n - 1] {
      forall k | 0 <= k < n ensures MeetsBound(r, table, k) {
        MeetsBoundWithoutBlocking(r, table, k);
        LoadOfPrefix(r, k + 1);
      }
    }
  }

  lemma MeetsBoundWithoutBlocking(r: seq<TaskDesc>, table: seq<real>, k: nat)
    requires k < |r| <= |table| && r[k].T > 0 && r[k].B == 0
    ensures MeetsBound(r, table, k) <==> Load(r[..k + 1]) <= table[k]
  {
    assert r[..k + 1] == r[..k] + [r[k]];
    LoadOfSnoc(r[..k], r[k]);
  }

  // ---------------------------------------------------------------------------
  // The source's loops, in place
  // ---------------------------------------------------------------------------

  /** `t` is `s` after one pass over positions `0..i`. */
  ghost predicate OnePass(s: seq<TaskDesc>, i: nat, t: seq<TaskDesc>) {
    i < |s| == |t| && t[..i + 1] == Pass(s[..i + 1]) && t[i + 1..] == s[i + 1..]
  }

  /** Only positions below `i` are still to be reordered, towards the result for `goal`. */
  ghost predicate Settled(s: seq<TaskDesc>, i: nat, goal: seq<TaskDesc>) {
    i <= |s| && Reorder(s[..i]) + s[i..] == Reorder(goal)
  }

  lemma {:induction false} ReorderUnfold(p: seq<TaskDesc>, b: seq<TaskDesc>, n: nat)
    requires b == Pass(p) && |p| == n + 1
    ensures Reorder(p) == Reorder(b[..n]) + [b[n]]
  {
    if n == 0 { assert b == [b[0]] && b[..0] == []; }
  }

  lemma SettledByPass(s: seq<TaskDesc>, i: nat, t: seq<TaskDesc>, goal: seq<TaskDesc>)
    requires OnePass(s, i, t) && Settled(s, i + 1, goal)
    ensures Settled(t, i, goal)
  {
    var b, rest := t[..i + 1], t[i + 1..];
    ReorderUnfold(s[..i + 1], b, i);
    assert b[..i] == t[..i] && b[i] == t[i] && t[i..] == [t[i]] + rest;
    var r := Reorder(t[..i]);
    assert (r + [t[i]]) + rest == r + ([t[i]] + rest);
  }

  /** `t` is `s` when the inner loop has carried the shortest period of `lo..i` to `lo`. */
  ghost predicate Carried(s: seq<TaskDesc>, lo: nat, i: nat, t: seq<TaskDesc>) {
    lo <= i < |s| == |t| && t[..lo] == s[..lo] && t[lo..i + 1] == Pass(s[lo..i + 1]) && t[i + 1..] == s[i + 1..]
  }

  lemma CarriedStep(s: seq<TaskDesc>, lo: nat, i: nat, t: seq<TaskDesc>)
    requires Carried(s, lo + 1, i, t)
    ensures t[lo] == s[lo]
    ensures Carried(s, lo, i, if t[lo + 1].T < t[lo].T then t[lo := t[lo + 1]][lo + 1 := t[lo]] else t)
  {
    var r := t[lo + 1..i + 1];
    var u := if t[lo + 1].T < t[lo].T then t[lo := t[lo + 1]][lo + 1 := t[lo]] else t;
    assert t[lo] == t[..lo + 1][lo] == s[..lo + 1][lo];
    assert u[..lo] == t[..lo + 1][..lo] == s[..lo + 1][..lo] == s[..lo];
    assert s[lo..i + 1][1..] == s[lo + 1..i + 1];
    assert u[lo..i + 1] == Carry(s[lo], r);
    assert u[i + 1..] == t[i + 1..];
  }

  /** One inner loop of the sort. */
  method SortPass(tasks: array<TaskDesc>, i: nat)
    requires i < tasks.Length
    modifies tasks
    ensures OnePass(old(tasks[..]), i, tasks[..])
  {
    ghost var before := tasks[..];
    var j := i - 1;
    assert before[i..i + 1] == [before[i]];
    while j >= 0
      invariant -1 <= j < i
      invariant Carried(before, j + 1, i, tasks[..])
    {
      ghost var t := tasks[..];
      CarriedStep(before, j, i, t);
      if tasks[j + 1].T < tasks[j].T {
        var tmpTask := tasks[j + 1];
        tasks[j + 1] := tasks[j];
        tasks[j] := tmpTask;
        assert tasks[..] == t[j := t[j + 1]][j + 1 := t[j]];
      }
      j := j - 1;
    }
    ghost var after := tasks[..];
    assert after[..i + 1] == after[0..i + 1] && before[..i + 1] == before[0..i + 1];
  }

  method SortTasks(tasks: array<TaskDesc>)
    modifies tasks
    ensures tasks[..] == Reorder(old(tasks[..]))
  {
    var i := tasks.Length - 1;
    ghost var goal := tasks[..];
    assert goal[..i + 1] == goal && goal[i + 1..] == [];
    while i >= 0
      invariant -1 <= i < tasks.Length
      invariant Settled(tasks[..], i + 1, goal)
    {
      ghost var before := tasks[..];
      SortPass(tasks, i);
      SettledByPass(before, i, tasks[..], goal);
      i := i - 1;
    }
    ghost var after := tasks[..];
    assert after[..0] == [] && after[0..] == after;
  }

  /** Orders the task list in place and says whether it is schedulable. */
  method AssignSchedule(tasks: array<TaskDesc>) returns (schedulable: bool)
    requires tasks.Length <= OS_MAX_TASKS
    modifies tasks
    ensures tasks[..] == Reorder(old(tasks[..]))
    ensures schedulable == Admit(tasks[..])
  {
    SortTasks(tasks);
    schedulable := UtilizationTest(tasks, BoundTable(tasks.Length));
  }

  method UtilizationTest(tasks: array<TaskDesc>, boundTable: seq<real>) returns (schedulable: bool)
    requires tasks.Length <= |boundTable|
    ensures schedulable == AdmitFrom(tasks[..], boundTable, 0, Num(0.0))
  {
    var utilization := Num(0.0);
    var i := 0;
    while i < tasks.Length
      invariant 0 <= i <= tasks.Length
      invariant AdmitFrom(tasks[..], boundTable, 0, Num(0.0)) == AdmitFrom(tasks[..], boundTable, i, utilization)
    {
      var thisUtil := Div(tasks[i].C + tasks[i].B, tasks[i].T);
      if Exceeds(Plus(utilization, thisUtil), boundTable[i]) {
        return false;
      }
      utilization := Plus(utilization, Div(tasks[i].C, tasks[i].T));
      i := i + 1;
    }
    return true;
  }
}
