/** OSTimeTicks(n), this port's batched tick, against n calls of OSTimeTick. */
module TickBatch {
  import opened IndexLists
  import opened KernelState

  /** n calls of OSTimeTick. */
  ghost function Ticks(s: State, l: seq<nat>, n: nat): (s': State)
    requires InTable(s, l)
    ensures |s'.tcb| == |s.tcb|
  {
    if n == 0 then s else TickWalk(Ticks(s, l, n - 1), l)
  }

  // ---------------------------------------------------------------- one task

  lemma OneMoreTick(s: State, t: nat, n: nat)
    requires t < |s.tcb|
    ensures AdvanceTask(s, t, n + 1) == TickTask(AdvanceTask(s, t, n), t)
  {
    var x := s.tcb[t];
    if x.dly == n + 1 {
      assert DelayOver(x.(dly := 1)) == DelayOver(x);
    }
  }

  lemma NoTick(s: State, t: nat)
    requires t < |s.tcb|
    ensures AdvanceTask(s, t, 0) == s
  {
    assert s.tcb[t].(dly := s.tcb[t].dly - 0) == s.tcb[t];
  }

  /** What a tick does to one task does not matter to another. */
  lemma TasksCommute(s: State, t: nat, u: nat, n: nat)
    requires t < |s.tcb| && u < |s.tcb| && t != u
    ensures AdvanceTask(TickTask(s, t), u, n) == TickTask(AdvanceTask(s, u, n), t)
  {
    var a, b := AdvanceTask(TickTask(s, t), u, n), TickTask(AdvanceTask(s, u, n), t);
    assert a.tcb == b.tcb;
    assert a.ready == b.ready;
  }

  // ---------------------------------------------------------------- the walk

  lemma {:induction false} TickPastWalk(s: State, t: nat, l: seq<nat>, n: nat)
    requires t < |s.tcb| && InTable(s, l) && t !in l
    ensures AdvanceWalk(TickTask(s, t), l, n) == TickTask(AdvanceWalk(s, l, n), t)
    decreases |l|
  {
    if l != [] && s.tcb[l[0]].prio != IDLE_PRIO {
      TasksCommute(s, t, l[0], n);
      TickPastWalk(AdvanceTask(s, l[0], n), t, l[1..], n);
    }
  }

  lemma {:induction false} OneMoreWalk(s: State, l: seq<nat>, n: nat)
    requires InTable(s, l) && Distinct(l)
    ensures AdvanceWalk(s, l, n + 1) == TickWalk(AdvanceWalk(s, l, n), l)
    decreases |l|
  {
    if l != [] && s.tcb[l[0]].prio != IDLE_PRIO {
      var t, rest := l[0], l[1..];
      var s1 := AdvanceTask(s, t, n);
      assert t !in rest;
      OneMoreTick(s, t, n);
      OneMoreWalk(TickTask(s1, t), rest, n);
      TickPastWalk(s1, t, rest, n);
      PriosKept(s1, rest, n);
    }
  }

  lemma {:induction false} PriosKept(s: State, l: seq<nat>, n: nat)
    requires InTable(s, l)
    ensures forall u: nat :: u < |s.tcb| ==> AdvanceWalk(s, l, n).tcb[u].prio == s.tcb[u].prio
    decreases |l|
  {
    if l != [] && s.tcb[l[0]].prio != IDLE_PRIO {
      PriosKept(AdvanceTask(s, l[0], n), l[1..], n);
    }
  }

  lemma {:induction false} NoWalk(s: State, l: seq<nat>)
    requires InTable(s, l)
    ensures AdvanceWalk(s, l, 0) == s
    decreases |l|
  {
    if l != [] && s.tcb[l[0]].prio != IDLE_PRIO {
      NoTick(s, l[0]);
      NoWalk(s, l[1..]);
    }
  }

  /** The fast form refines the simple one: delays, statuses, timeout flags and the ready table come
      out as after n single ticks. */
  lemma {:induction false} BatchIsTicks(s: State, l: seq<nat>, n: nat)
    requires InTable(s, l) && Distinct(l)
    ensures AdvanceWalk(s, l, n) == Ticks(s, l, n)
  {
    if n == 0 {
      NoWalk(s, l);
    } else {
      BatchIsTicks(s, l, n - 1);
      OneMoreWalk(s, l, n - 1);
    }
  }

  // ---------------------------------------------------------------- the value it returns

  const MAX_DLY: nat := 65535    // the delay is 16 bits wide, and 0xffff also marks "none found"

  /** The running minimum `nextticks` over the walk. */
  ghost function NextTicks(s: State, l: seq<nat>, n: nat, next: nat): nat
    requires InTable(s, l)
    decreases |l|
  {
    if l == [] || s.tcb[l[0]].prio == IDLE_PRIO then next
    else
      var x := s.tcb[l[0]];
      NextTicks(s, l[1..], n, if x.dly > n && x.dly - n < next then x.dly - n else next)
  }

  /** The value OSTimeTicks(n) returns. */
  ghost function Next(s: State, l: seq<nat>, n: nat): nat
    requires InTable(s, l)
  {
    var next := NextTicks(s, l, n, MAX_DLY);
    if next != MAX_DLY then next else 0
  }

  /** A task the walk comes to. */
  ghost predicate Walked(s: State, l: seq<nat>, i: nat)
    requires InTable(s, l)
  {
    i < |l| && forall j :: 0 <= j <= i ==> s.tcb[l[j]].prio != IDLE_PRIO
  }

  function Left(x: Task, n: nat): nat
  {
    if x.dly > n then x.dly - n else 0
  }

  lemma WalkedTail(s: State, l: seq<nat>, i: nat)
    requires InTable(s, l) && l != [] && s.tcb[l[0]].prio != IDLE_PRIO
    ensures InTable(s, l[1..]) && (Walked(s, l, i + 1) <==> Walked(s, l[1..], i))
    ensures i + 1 < |l| ==> l[i + 1] == l[1..][i]
  {
    if Walked(s, l[1..], i) {
      forall j | 0 <= j <= i + 1
        ensures s.tcb[l[j]].prio != IDLE_PRIO
      {
        assert j > 0 ==> s.tcb[l[1..][j - 1]].prio != IDLE_PRIO;
      }
    }
  }

  /** What remains of the delay of the i-th task on the walk, where it is walked. */
  ghost function LeftAt(s: State, l: seq<nat>, n: nat, i: nat): nat
    requires InTable(s, l)
  {
    if Walked(s, l, i) then Left(s.tcb[l[i]], n) else 0
  }

  lemma {:induction false} NextTicksIsMin(s: State, l: seq<nat>, n: nat, next: nat)
    requires InTable(s, l)
    ensures NextTicks(s, l, n, next) <= next
    ensures forall i: nat :: LeftAt(s, l, n, i) != 0 ==> NextTicks(s, l, n, next) <= LeftAt(s, l, n, i)
    ensures NextTicks(s, l, n, next) < next ==> exists i: nat :: LeftAt(s, l, n, i) == NextTicks(s, l, n, next) != 0
    decreases |l|
  {
    if l != [] && s.tcb[l[0]].prio != IDLE_PRIO {
      var x, rest := s.tcb[l[0]], l[1..];
      var next' := if x.dly > n && x.dly - n < next then x.dly - n else next;
      NextTicksIsMin(s, rest, n, next');
      var r := NextTicks(s, rest, n, next');
      assert LeftAt(s, l, n, 0) == Left(x, n);
      forall i: nat
        ensures LeftAt(s, l, n, i + 1) == LeftAt(s, rest, n, i)
      {
        WalkedTail(s, l, i);
      }
      forall i: nat | LeftAt(s, l, n, i) != 0
        ensures r <= LeftAt(s, l, n, i)
      {
        if i > 0 {
          assert LeftAt(s, l, n, (i - 1) + 1) == LeftAt(s, rest, n, i - 1);
        }
      }
      if r < next' {
        var i: nat :| LeftAt(s, rest, n, i) == r != 0;
        assert LeftAt(s, l, n, i + 1) == r;
      }
    } else {
      assert forall i: nat :: !Walked(s, l, i);
    }
  }

  lemma {:induction false} AdvancedDelays(s: State, l: seq<nat>, n: nat, i: nat)
    requires InTable(s, l) && Distinct(l) && i < |l|
    ensures var x, y := s.tcb[l[i]], AdvanceWalk(s, l, n).tcb[l[i]];
            y.prio == x.prio && (Walked(s, l, i) ==> y.dly == Left(x, n)) && (!Walked(s, l, i) ==> y == x)
    decreases |l|
  {
    if s.tcb[l[0]].prio != IDLE_PRIO {
      var s1, rest := AdvanceTask(s, l[0], n), l[1..];
      if i == 0 {
        WalkSkips(s1, rest, n, l[0]);
      } else {
        AdvancedDelays(s1, rest, n, i - 1);
        assert rest[i - 1] == l[i] != l[0];
        assert forall j :: 0 <= j < i ==> s1.tcb[rest[j]].prio == s.tcb[l[j + 1]].prio;
        assert Walked(s, l, i) ==> Walked(s1, rest, i - 1);
        if Walked(s1, rest, i - 1) {
          forall j | 0 <= j <= i
            ensures s.tcb[l[j]].prio != IDLE_PRIO
          {
            assert j > 0 ==> s1.tcb[rest[j - 1]].prio != IDLE_PRIO;
          }
        }
      }
    }
  }

  lemma {:induction false} WalkSkips(s: State, l: seq<nat>, n: nat, t: nat)
    requires InTable(s, l) && t < |s.tcb| && t !in l
    ensures AdvanceWalk(s, l, n).tcb[t] == s.tcb[t]
    decreases |l|
  {
    if l != [] && s.tcb[l[0]].prio != IDLE_PRIO {
      WalkSkips(AdvanceTask(s, l[0], n), l[1..], n, t);
    }
  }

  /** OSTimeTicks(n) returns the smallest delay that remains, or 0 for none. The marker 0xffff makes
      a remaining delay of 65535, possible only for n = 0, look like none. */
  lemma NextDeadline(s: State, l: seq<nat>, n: nat)
    requires InTable(s, l) && Distinct(l)
    requires forall i: nat :: Walked(s, l, i) ==> s.tcb[l[i]].dly <= MAX_DLY
    ensures var s', r := AdvanceWalk(s, l, n), Next(s, l, n);
            && InTable(s', l)
            && (r != 0 ==> exists i: nat :: Walked(s', l, i) && s'.tcb[l[i]].dly == r)
            && (r != 0 ==> forall i: nat :: Walked(s', l, i) && s'.tcb[l[i]].dly != 0 ==> r <= s'.tcb[l[i]].dly)
            && (r == 0 <==> forall i: nat :: Walked(s', l, i) ==> s'.tcb[l[i]].dly == 0 || s'.tcb[l[i]].dly == MAX_DLY)
            && (n > 0 ==> forall i: nat :: Walked(s', l, i) ==> s'.tcb[l[i]].dly != MAX_DLY)
  {
    var s', r := AdvanceWalk(s, l, n), Next(s, l, n);
    NextTicksIsMin(s, l, n, MAX_DLY);
    PriosKept(s, l, n);
    forall i: nat | i < |l|
      ensures Walked(s, l, i) <==> Walked(s', l, i)
      ensures Walked(s, l, i) ==> s'.tcb[l[i]].dly == LeftAt(s, l, n, i)
    {
      AdvancedDelays(s, l, n, i);
    }
    if NextTicks(s, l, n, MAX_DLY) < MAX_DLY {
      var i: nat :| LeftAt(s, l, n, i) == r != 0;
      assert Walked(s', l, i) && s'.tcb[l[i]].dly == r;
    }
  }

  /** The input that hides a delay: OSTimeTicks(0) with one task that has 65535 ticks to go. */
  lemma LongestDelayHidden(s: State, t: nat)
    requires t < |s.tcb| && s.tcb[t].prio != IDLE_PRIO && s.tcb[t].dly == MAX_DLY
    ensures InTable(s, [t]) && Next(s, [t], 0) == 0 && AdvanceWalk(s, [t], 0).tcb[t].dly == MAX_DLY
  {
    NextTicksIsMin(s, [t], 0, MAX_DLY);
    NoWalk(s, [t]);
    assert forall i: nat :: LeftAt(s, [t], 0, i) == 0 || LeftAt(s, [t], 0, i) == MAX_DLY;
  }

  /** So a caller that next advances by what it was told wakes somebody, and by less, nobody. */
  lemma SleepUntilNext(s: State, l: seq<nat>, r: nat, k: nat)
    requires InTable(s, l) && Distinct(l) && r > 0 && k <= r
    requires exists i: nat :: Walked(s, l, i) && s.tcb[l[i]].dly == r
    requires forall i: nat :: Walked(s, l, i) && s.tcb[l[i]].dly != 0 ==> r <= s.tcb[l[i]].dly
    ensures k < r ==> AdvanceWalk(s, l, k).ready == s.ready
    ensures k == r ==> exists i: nat :: i < |l| && s.tcb[l[i]].dly == r && AdvanceWalk(s, l, k).tcb[l[i]].dly == 0
  {
    if k < r {
      NobodyWakes(s, l, r, k);
    } else {
      var i: nat :| Walked(s, l, i) && s.tcb[l[i]].dly == r;
      AdvancedDelays(s, l, k, i);
    }
  }

  lemma {:induction false} NobodyWakes(s: State, l: seq<nat>, r: nat, k: nat)
    requires InTable(s, l) && Distinct(l) && k < r
    requires forall i: nat :: Walked(s, l, i) && s.tcb[l[i]].dly != 0 ==> r <= s.tcb[l[i]].dly
    ensures AdvanceWalk(s, l, k).ready == s.ready
    decreases |l|
  {
    if l != [] && s.tcb[l[0]].prio != IDLE_PRIO {
      var s1, rest := AdvanceTask(s, l[0], k), l[1..];
      assert Walked(s, l, 0);
      forall i: nat | Walked(s1, rest, i) && s1.tcb[rest[i]].dly != 0
        ensures r <= s1.tcb[rest[i]].dly
      {
        assert rest[i] == l[i + 1] != l[0];
        forall j | 0 <= j <= i + 1
          ensures s.tcb[l[j]].prio != IDLE_PRIO
        {
          assert j > 0 ==> s1.tcb[rest[j - 1]].prio != IDLE_PRIO;
        }
        assert Walked(s, l, i + 1);
      }
      NobodyWakes(s1, rest, r, k);
    }
  }
}
