/** os_core.c on the kernel's tables. */
module OsCore {
  import opened IndexLists
  import opened PrioritySet
  import opened KernelState
  import opened KernelInvariant
  import opened TickBatch
  import opened KernelRuns
  import opened Kernel

  /** OS_TCBInit, once it has taken a TCB: filling it, and its second critical section. */
  method TCBInit(k: Kernel, t: nat, prio: nat)
    requires k.Valid() && prio < |k.s.prioTbl| && prio < MAX_PRIO
    requires t < |k.s.tcb| && t < |k.s.phase| && t !in k.s.list && t !in k.s.freeTcbs
    modifies k.Repr()
    ensures k.Valid() && k.s == AddTask(old(k.s), t, prio)
  {
    k.PutTcb(t, k.tcb[t].(prio := prio, stat := {}, pendTO := false, dly := 0, event := None, node := None, msg := NULL_MSG));
    k.GoTo(t, User);
    k.PutSlot(prio, Tcb(t));
    k.LinkTcb(t);
    k.Ready(prio);
  }

  /** The end of OSInit: the idle task is created on cleared tables. */
  method InitTaskIdle(k: Kernel, ghost tasks: nat, ghost evs: nat, ghost grps: nat)
    requires k.Valid() && tasks > 0 && k.s == Cleared(tasks, evs, grps)
    modifies k.Repr()
    ensures k.Valid() && k.s == Boot(tasks, evs, grps)
  {
    assert Upto(tasks)[0] == 0;
    var t := k.TakeFree();
    assert 0 !in Upto(tasks)[1..];
    TCBInit(k, t, IDLE_PRIO);
  }

  /** What a TCB holds can be followed. */
  ghost predicate Fit(s: State, t: nat)
  {
    && t < |s.tcb| && t < |s.phase| && s.tcb[t].prio < N_PRIO
    && (s.tcb[t].event.Some? ==> s.tcb[t].event.value < |s.ev|)
    && (s.tcb[t].node.Some? ==>
          s.tcb[t].node.value.grp < |s.grp| && t in s.grp[s.tcb[t].node.value.grp].waiters)
  }

  lemma LiveIsFit(s: State, t: nat)
    requires CoreInv(s) && t in s.list
    ensures Fit(s, t)
  {
    LiveTask(s, t);
  }

  lemma LeastIsUnique(ps: set<nat>, p: nat)
    requires IsLeast(ps, p)
    ensures Least(ps) == p
  {
  }

  /** Every waiter of the event can be followed. */
  ghost predicate AllFound(s: State, e: nat)
  {
    e < |s.ev| && forall p: nat :: p in s.ev[e].waiters ==> Found(s, p)
  }

  ghost predicate Found(s: State, p: nat)
  {
    p < MAX_PRIO && p < |s.prioTbl| && s.prioTbl[p].Tcb? && s.prioTbl[p].task < |s.tcb|
  }

  lemma WaitersAreFound(s: State, e: nat)
    requires CoreInv(s) && e < |s.ev|
    ensures AllFound(s, e)
  {
    forall p: nat | p in s.ev[e].waiters
      ensures Found(s, p)
    {
      assert WaiterOk(s, e, p);
    }
  }

  /** The start of OS_EventTaskRdy: the best waiter leaves the wait table. */
  method TakeWaiter(k: Kernel, e: nat) returns (prio: nat)
    requires k.Valid() && e < |k.s.ev| && k.s.ev[e].waiters != {} && Found(k.s, Least(k.s.ev[e].waiters))
    modifies k.Repr()
    ensures prio == Least(old(k.s).ev[e].waiters)
    ensures k.Valid() && k.s == SetWaiters(old(k.s), e, old(k.s).ev[e].waiters - {prio})
  {
    prio := k.events.FirstPrio(e);
    LeastIsUnique(k.s.ev[e].waiters, prio);
    k.NoWaitBit(e, prio);
  }

  /** OS_EventTaskRdy */
  method EventTaskRdy(k: Kernel, e: nat, msg: int, bit: StatBit) returns (prio: nat)
    requires k.Valid() && e < |k.s.ev| && k.s.ev[e].waiters != {} && Found(k.s, Least(k.s.ev[e].waiters))
    modifies k.Repr()
    ensures FirstWaiter(old(k.s), e) < |old(k.s).tcb|
    ensures k.Valid() && k.s == KernelState.EventTaskRdy(old(k.s), e, msg, bit)
    ensures prio == Least(old(k.s).ev[e].waiters)
  {
    prio := TakeWaiter(k, e);
    var t := k.prioTbl[prio].task;
    var x := k.tcb[t].(dly := 0, event := None, msg := msg, pendTO := false);
    x := x.(stat := x.stat - {bit});
    k.PutTcb(t, x);
    if x.stat == {} {
      k.Ready(prio);
    }
  }

  /** The loop over the waiters of event e is under way. */
  ghost predicate ReadyingAt(s: State, e: nat, msg: int, bit: StatBit, all: State)
  {
    AllFound(s, e) && KernelState.ReadyAll(s, e, msg, bit) == all
  }

  ghost function WaitersLeft(s: State, e: nat): nat
  {
    if e < |s.ev| then |s.ev[e].waiters| else 0
  }

  lemma ReadyingStep(s: State, e: nat, msg: int, bit: StatBit, all: State)
    requires ReadyingAt(s, e, msg, bit, all)
    ensures s.ev[e].waiters == {} ==> s == all
    ensures s.ev[e].waiters != {} ==>
              && FirstWaiter(s, e) < |s.tcb| && ReadyingAt(KernelState.EventTaskRdy(s, e, msg, bit), e, msg, bit, all)
              && WaitersLeft(KernelState.EventTaskRdy(s, e, msg, bit), e) < WaitersLeft(s, e)
  {
    if s.ev[e].waiters != {} {
      assert Found(s, Least(s.ev[e].waiters));
      var s1 := KernelState.EventTaskRdy(s, e, msg, bit);
      assert s1.ev[e].waiters == s.ev[e].waiters - {Least(s.ev[e].waiters)};
    }
  }

  /** One round of that loop. */
  method ReadyNext(k: Kernel, e: nat, msg: int, bit: StatBit, ghost all: State) returns (more: bool)
    requires k.Valid() && ReadyingAt(k.s, e, msg, bit, all) && WaitersLeft(k.s, e) != 0
    modifies k.Repr()
    ensures k.Valid() && ReadyingAt(k.s, e, msg, bit, all)
    ensures WaitersLeft(k.s, e) < WaitersLeft(old(k.s), e) && (more <==> WaitersLeft(k.s, e) != 0)
  {
    ReadyingStep(k.s, e, msg, bit, all);
    var prio := EventTaskRdy(k, e, msg, bit);
    more := k.Waited(e);
  }

  /** The loop that readies all waiters of an event, in OSMutexDel, OSQDel, OSMboxDel, OSQPostOpt and
      OSMboxPostOpt. */
  method ReadyAll(k: Kernel, e: nat, msg: int, bit: StatBit)
    requires k.Valid() && AllFound(k.s, e)
    modifies k.Repr()
    ensures k.Valid() && k.s == KernelState.ReadyAll(old(k.s), e, msg, bit)
  {
    ghost var all := KernelState.ReadyAll(k.s, e, msg, bit);
    var more := k.Waited(e);
    while more
      invariant k.Valid() && ReadyingAt(k.s, e, msg, bit, all)
      invariant more <==> WaitersLeft(k.s, e) != 0
      decreases WaitersLeft(k.s, e)
    {
      more := ReadyNext(k, e, msg, bit, all);
    }
    ReadyingStep(k.s, e, msg, bit, all);
  }

  /** The rest of a pend that has to wait: status, timeout, and OS_EventTaskWait. */
  method EventTaskWait(k: Kernel, e: nat, bit: StatBit, timeout: nat)
    requires k.Valid() && e < |k.s.ev| && Fit(k.s, k.cur)
    modifies k.Repr()
    ensures k.Valid() && k.s == Block(old(k.s), old(k.cur), e, bit, timeout)
  {
    var t, x := k.cur, k.tcb[k.cur];
    k.PutTcb(t, x.(stat := x.stat + {bit}, pendTO := false, dly := timeout, event := Some(e)));
    k.Unready(x.prio);
    k.WaitBit(e, x.prio);
    k.GoTo(t, InEvent(e, bit));
  }

  /** OS_EventTO */
  method EventTO(k: Kernel, e: nat)
    requires k.Valid() && e < |k.s.ev| && Fit(k.s, k.cur)
    modifies k.Repr()
    ensures k.Valid() && k.s == KernelState.EventTO(old(k.s), old(k.cur), e)
  {
    var t, x := k.cur, k.tcb[k.cur];
    k.NoWaitBit(e, x.prio);
    k.PutTcb(t, x.(pendTO := false, stat := {}, event := None));
    k.GoTo(t, User);
  }

  /** The end of a delay, in OSTimeTick, OSTimeTicks and OSTimeDlyResume: a pend has timed out, or a
      plain delay is over, and the task is ready unless it is suspended. */
  method DelayEnds(k: Kernel, t: nat)
    requires k.Valid() && t < |k.s.tcb| && k.s.tcb[t].prio < MAX_PRIO
    modifies k.Repr()
    ensures k.Valid() && k.s == EndDelay(old(k.s), t)
  {
    var x := k.tcb[t].(dly := 0);
    if x.stat * PEND_ANY != {} {
      x := x.(stat := x.stat - PEND_ANY, pendTO := true);
    } else {
      x := x.(pendTO := false);
    }
    k.PutTcb(t, x);
    if SuspendBit !in x.stat {
      k.Ready(x.prio);
    }
  }

  /** OSTimeTick for one TCB. */
  method TickTcb(k: Kernel, t: nat)
    requires k.Valid() && t < |k.s.tcb| && k.s.tcb[t].prio < MAX_PRIO
    modifies k.Repr()
    ensures k.Valid() && k.s == TickTask(old(k.s), t)
  {
    if k.tcb[t].dly != 0 {
      var left := k.tcb[t].dly - 1;
      if left == 0 {
        DelayEnds(k, t);
      } else {
        k.PutTcb(t, k.tcb[t].(dly := left));
      }
    }
  }

  lemma LastIsIdle(s: State, i: nat)
    requires CoreInv(s) && i < |s.list|
    ensures s.list[i] < |s.tcb| && s.tcb[s.list[i]].prio < MAX_PRIO && s.list[i] in s.list
    ensures s.tcb[s.list[i]].prio == IDLE_PRIO <==> i == |s.list| - 1
  {
    LiveTask(s, s.list[i]);
  }

  /** The walk has come to position i of the list. */
  ghost predicate TickAt(s: State, l: seq<nat>, i: nat, all: State)
  {
    CoreInv(s) && s.list == l && i < |l| && TickWalk(s, l[i..]) == all
  }

  lemma TickStep(s: State, l: seq<nat>, i: nat, all: State)
    requires TickAt(s, l, i, all)
    ensures l[i] < |s.tcb| && s.tcb[l[i]].prio < MAX_PRIO
    ensures s.tcb[l[i]].prio == IDLE_PRIO ==> s == all
    ensures s.tcb[l[i]].prio != IDLE_PRIO ==> TickAt(TickTask(s, l[i]), l, i + 1, all)
  {
    LastIsIdle(s, i);
    if s.tcb[l[i]].prio != IDLE_PRIO {
      TickTaskKeeps(s, l[i]);
      assert l[i..][1..] == l[i + 1..];
    }
  }

  /** OSTimeTick: down the list of TCBs to the idle task. */
  method TimeTick(k: Kernel)
    requires k.Valid() && CoreInv(k.s)
    modifies k.Repr()
    ensures InTable(old(k.s), old(k.s).list)
    ensures k.Valid() && k.s == TickWalk(old(k.s), old(k.s).list)
  {
    ghost var l, all, i := k.s.list, TickWalk(k.s, k.s.list), 0;
    var t := k.lists.head;
    assert l[0..] == l;
    TickStep(k.s, l, i, all);
    while k.tcb[t].prio != IDLE_PRIO
      invariant k.Valid() && TickAt(k.s, l, i, all) && t == l[i] && t < |k.s.tcb|
      decreases |l| - i
    {
      TickStep(k.s, l, i, all);
      TickTcb(k, t);
      assert Forward(k.lists.next[..], l, i);
      t := k.lists.next[t];
      i := i + 1;
      TickStep(k.s, l, i, all);
    }
    TickStep(k.s, l, i, all);
  }

  /** OSTimeTicks for one TCB. */
  method AdvanceTcb(k: Kernel, t: nat, n: nat)
    requires k.Valid() && t < |k.s.tcb| && k.s.tcb[t].prio < MAX_PRIO
    modifies k.Repr()
    ensures k.Valid() && k.s == AdvanceTask(old(k.s), t, n)
  {
    var dly := k.tcb[t].dly;
    if dly != 0 {
      if dly > n {
        k.PutTcb(t, k.tcb[t].(dly := dly - n));
      } else {
        DelayEnds(k, t);
      }
    }
  }

  /** The walk of OSTimeTicks has come to position i, with the minimum so far. */
  ghost predicate AdvanceAt(s: State, l: seq<nat>, n: nat, i: nat, next: nat, all: State, min: nat)
  {
    CoreInv(s) && s.list == l && i < |l| && AdvanceWalk(s, l[i..], n) == all && NextTicks(s, l[i..], n, next) == min
  }

  /** The minimum over the rest of the list does not see what has happened to its head. */
  lemma {:induction false} NextTicksSkips(s: State, t: nat, l: seq<nat>, n: nat, next: nat)
    requires InTable(s, l) && t < |s.tcb| && t !in l
    ensures NextTicks(AdvanceTask(s, t, n), l, n, next) == NextTicks(s, l, n, next)
    decreases |l|
  {
    if l != [] && s.tcb[l[0]].prio != IDLE_PRIO {
      var x := s.tcb[l[0]];
      NextTicksSkips(s, t, l[1..], n, if x.dly > n && x.dly - n < next then x.dly - n else next);
    }
  }

  lemma AdvanceTaskKeeps(s: State, t: nat, n: nat)
    requires CoreInv(s) && t in s.list && t < |s.tcb|
    ensures CoreInv(AdvanceTask(s, t, n))
  {
    LiveTask(s, t);
    if s.tcb[t].dly > n {
      RecordsHold(s, t);
      OneTaskChanges(s, AdvanceTask(s, t, n), t);
    } else if s.tcb[t].dly > 0 {
      EndDelayKeeps(s, t);
    }
  }

  function Lower(dly: nat, n: nat, next: nat): nat
  {
    if dly > n && dly - n < next then dly - n else next
  }

  lemma AdvanceStep(s: State, l: seq<nat>, n: nat, i: nat, next: nat, all: State, min: nat)
    requires AdvanceAt(s, l, n, i, next, all, min)
    ensures l[i] < |s.tcb| && s.tcb[l[i]].prio < MAX_PRIO
    ensures s.tcb[l[i]].prio == IDLE_PRIO ==> s == all && next == min
    ensures s.tcb[l[i]].prio != IDLE_PRIO ==>
              AdvanceAt(AdvanceTask(s, l[i], n), l, n, i + 1, Lower(s.tcb[l[i]].dly, n, next), all, min)
  {
    LastIsIdle(s, i);
    if s.tcb[l[i]].prio != IDLE_PRIO {
      AdvanceTaskKeeps(s, l[i], n);
      assert l[i..][1..] == l[i + 1..];
      NextTicksSkips(s, l[i], l[i + 1..], n, Lower(s.tcb[l[i]].dly, n, next));
    }
  }

  method LowerNext(dly: nat, n: nat, next: nat) returns (r: nat)
    ensures r == Lower(dly, n, next)
  {
    r := next;
    if dly > n {
      var left := dly - n;
      if left < r {
        r := left;
      }
    }
  }

  /** The walk at one TCB, which may lower the minimum found so far. */
  method AdvanceOne(k: Kernel, t: nat, n: nat, next: nat, ghost l: seq<nat>, ghost i: nat, ghost all: State, ghost min: nat)
    returns (next': nat)
    requires k.Valid() && AdvanceAt(k.s, l, n, i, next, all, min) && t == l[i] && t < |k.s.tcb|
             && k.s.tcb[t].prio != IDLE_PRIO
    modifies k.Repr()
    ensures k.Valid() && AdvanceAt(k.s, l, n, i + 1, next', all, min)
  {
    AdvanceStep(k.s, l, n, i, next, all, min);
    next' := LowerNext(k.tcb[t].dly, n, next);
    AdvanceTcb(k, t, n);
  }

  /** OSTimeTicks */
  method TimeTicks(k: Kernel, n: nat) returns (r: nat)
    requires k.Valid() && CoreInv(k.s)
    modifies k.Repr()
    ensures InTable(old(k.s), old(k.s).list)
    ensures k.Valid() && k.s == AdvanceWalk(old(k.s), old(k.s).list, n)
    ensures r == Next(old(k.s), old(k.s).list, n)
  {
    var next: nat := MAX_DLY;
    ghost var l, i := k.s.list, 0;
    ghost var all, min := AdvanceWalk(k.s, l, n), NextTicks(k.s, l, n, next);
    var t: nat := k.lists.head;
    assert l[0..] == l;
    AdvanceStep(k.s, l, n, i, next, all, min);
    while k.tcb[t].prio != IDLE_PRIO
      invariant k.Valid() && AdvanceAt(k.s, l, n, i, next, all, min) && t == l[i] && t < |k.s.tcb|
      decreases |l| - i
    {
      next := AdvanceOne(k, t, n, next, l, i, all, min);
      assert Forward(k.lists.next[..], l, i);
      t := k.lists.next[t];
      i := i + 1;
      AdvanceStep(k.s, l, n, i, next, all, min);
    }
    AdvanceStep(k.s, l, n, i, next, all, min);
    r := if next != MAX_DLY then next else 0;
  }

  lemma SomeoneIsReady(s: State)
    requires CoreInv(s)
    ensures s.ready != {} && Found(s, Least(s.ready))
  {
    IdleIsLive(s);
    LiveTask(s, Idle(s));
    assert s.tcb[Idle(s)].prio in s.ready;
    assert ReadyOk(s, Least(s.ready));
  }

  /** OS_SchedNew: the least ready priority. */
  method HighRdy(k: Kernel) returns (p: nat)
    requires k.Valid() && CoreInv(k.s)
    ensures k.s.ready != {} && p == Least(k.s.ready) && Found(k.s, p)
  {
    SomeoneIsReady(k.s);
    p := k.rdy.Least();
    LeastIsUnique(k.s.ready, p);
  }

  /** The part of OS_Sched that comes once that priority is known. */
  method SwitchIfBetter(k: Kernel, p: nat)
    requires k.Valid() && k.s.dying == None && k.s.ready != {} && p == Least(k.s.ready) && Found(k.s, p)
    modifies k.Repr()
    ensures k.Valid() && k.s == KernelState.Sched(old(k.s))
  {
    if p != k.prioCur {
      k.Switch(k.prioTbl[p].task, p);
    }
  }

  /** OS_Sched, and what the context switch does to OSTCBCur and OSPrioCur. */
  method Sched(k: Kernel)
    requires k.Valid() && CoreInv(k.s)
    modifies k.Repr()
    ensures k.Valid() && k.s == KernelState.Sched(old(k.s))
  {
    if k.locked {
      return;
    }
    var p := HighRdy(k);
    SwitchIfBetter(k, p);
  }
}
