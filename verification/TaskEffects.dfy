/** What the services on tasks and the ticks do, field by field: how long a delay and a timeout last,
    what each of the services changes, that nothing else changes, and what undoes what. */
module TaskEffects {
  import opened IndexLists
  import opened KernelState
  import opened KernelInvariant
  import opened MutexInvariant
  import opened TickBatch
  import opened KernelRuns
  import opened EventEffects

  // ---------------------------------------------------------------- ticks

  /** The fields of a TCB that no tick writes. */
  predicate Steady(x: Task, y: Task)
  {
    y.prio == x.prio && y.event == x.event && y.msg == x.msg && y.node == x.node && y.flagsRdy == x.flagsRdy
  }

  /** The delay is over. If the task waited for anything, it has stopped waiting and has the mark of a
      timeout; what is left of its status is a suspension. */
  predicate Awoken(x: Task, y: Task)
  {
    && Steady(x, y) && y.dly == 0 && y.stat == (if SuspendBit in x.stat then {SuspendBit} else {})
    && (y.pendTO <==> x.stat - {SuspendBit} != {})
  }

  /** What n ticks do to a TCB. */
  predicate Elapsed(x: Task, y: Task, n: nat)
  {
    if x.dly == 0 then y == x
    else if n < x.dly then Steady(x, y) && y.dly == x.dly - n && y.stat == x.stat && y.pendTO == x.pendTO
    else Awoken(x, y)
  }

  lemma StatusBits(stat: set<StatBit>)
    ensures stat - PEND_ANY == if SuspendBit in stat then {SuspendBit} else {}
    ensures stat * PEND_ANY != {} <==> stat - {SuspendBit} != {}
  {
    forall b: StatBit
      ensures b in PEND_ANY <==> b != SuspendBit
    {
    }
    if stat - {SuspendBit} != {} {
      var b :| b in stat - {SuspendBit};
      assert b in stat * PEND_ANY;
    }
    if stat * PEND_ANY != {} {
      var b :| b in stat * PEND_ANY;
      assert b in stat - {SuspendBit};
    }
  }

  lemma AdvancedElapsed(s: State, t: nat, n: nat)
    requires t < |s.tcb|
    ensures Elapsed(s.tcb[t], AdvanceTask(s, t, n).tcb[t], n)
  {
    StatusBits(s.tcb[t].stat);
  }

  lemma {:induction false} WalkElapsed(s: State, l: seq<nat>, n: nat, i: nat)
    requires InTable(s, l) && Distinct(l) && Walked(s, l, i)
    ensures Elapsed(s.tcb[l[i]], AdvanceWalk(s, l, n).tcb[l[i]], n)
    decreases |l|
  {
    var s1, rest := AdvanceTask(s, l[0], n), l[1..];
    assert s.tcb[l[0]].prio != IDLE_PRIO;
    if i == 0 {
      AdvancedElapsed(s, l[0], n);
      WalkSkips(s1, rest, n, l[0]);
    } else {
      WalkedTail(s, l, i - 1);
      assert rest[i - 1] == l[i] != l[0];
      assert forall j :: 0 <= j < |rest| ==> s1.tcb[rest[j]].prio == s.tcb[l[j + 1]].prio;
      forall j | 0 <= j <= i - 1
        ensures s1.tcb[rest[j]].prio != IDLE_PRIO
      {
        assert s.tcb[l[j + 1]].prio != IDLE_PRIO;
      }
      WalkElapsed(s1, rest, n, i - 1);
    }
  }

  /** The walk comes to every task but the idle task. */
  lemma AllWalked(s: State, t: nat) returns (i: nat)
    requires CoreInv(s) && t in s.list && t != Idle(s)
    ensures InTable(s, s.list) && Walked(s, s.list, i) && s.list[i] == t
  {
    i :| 0 <= i < |s.list| && s.list[i] == t;
    forall j | 0 <= j <= i
      ensures s.tcb[s.list[j]].prio != IDLE_PRIO
    {
      LiveTask(s, s.list[j]);
    }
  }

  /** A delay or a timeout of d ticks lasts exactly d calls of OSTimeTick, however long the task has
      been waiting for something else or has been suspended. */
  lemma DelayIsExact(s: State, t: nat, n: nat)
    requires Inv(s) && t in s.list && t != Idle(s)
    ensures t < |s.tcb| && InTable(s, s.list)
    ensures var s' := Ticks(s, s.list, n);
            && |s'.tcb| == |s.tcb| && Elapsed(s.tcb[t], s'.tcb[t], n)
            && (!IsDying(s, t) ==> (s.tcb[t].prio in s'.ready <==> s'.tcb[t].stat == {} && s'.tcb[t].dly == 0))
  {
    var i := AllWalked(s, t);
    BatchIsTicks(s, s.list, n);
    WalkElapsed(s, s.list, n, i);
    TicksInv(s, s.list, n);
    LiveTask(s, t);
    TicksSteady(s, s.list, n);
    LiveTask(Ticks(s, s.list, n), t);
  }

  lemma {:induction false} TicksSteady(s: State, l: seq<nat>, n: nat)
    requires InTable(s, l)
    ensures Ticks(s, l, n).dying == s.dying
  {
    if n > 0 {
      TicksSteady(s, l, n - 1);
      WalkSteady(Ticks(s, l, n - 1), l);
    }
  }

  lemma {:induction false} WalkSteady(s: State, l: seq<nat>)
    requires InTable(s, l)
    ensures TickWalk(s, l).dying == s.dying
    decreases |l|
  {
    if l != [] && s.tcb[l[0]].prio != IDLE_PRIO {
      WalkSteady(TickTask(s, l[0]), l[1..]);
    }
  }

  // ---------------------------------------------------------------- delays

  /** Only the TCB of t and the ready bit of its priority have changed. */
  ghost predicate OnlyTcb(s: State, s': State, t: nat)
    requires t < |s.tcb|
  {
    && s' == s.(tcb := s'.tcb, ready := s'.ready) && |s'.tcb| == |s.tcb| && s'.tcb[t].prio == s.tcb[t].prio
    && (forall u: nat :: u < |s.tcb| && u != t ==> s'.tcb[u] == s.tcb[u])
    && (forall p: nat :: p != s.tcb[t].prio ==> (p in s'.ready <==> p in s.ready))
  }

  /** OSTimeDly: the caller is not ready, for the number of ticks that it was given. */
  lemma DelayTakes(s: State, ticks: nat)
    requires s.cur < |s.tcb|
    ensures var s' := TimeDly(s, ticks);
            if ticks == 0 then s' == s
            else
              && OnlyTcb(s, s', s.cur) && Steady(s.tcb[s.cur], s'.tcb[s.cur]) && s.tcb[s.cur].prio !in s'.ready
              && s'.tcb[s.cur].dly == ticks && s'.tcb[s.cur].stat == s.tcb[s.cur].stat
              && s'.tcb[s.cur].pendTO == s.tcb[s.cur].pendTO
  {
  }

  /** A task that calls OSTimeDly(d) is ready again after d ticks and not before. */
  lemma DelayLasts(s: State, d: nat, n: nat)
    requires Inv(s) && Calling(s) && d > 0
    ensures var s1 := TimeDly(s, d);
            && InTable(s1, s1.list)
            && var s' := Ticks(s1, s1.list, n);
            && s.cur < |s'.tcb| && (s.tcb[s.cur].prio in s'.ready <==> n >= d)
            && s'.tcb[s.cur].dly == (if n < d then d - n else 0) && !s'.tcb[s.cur].pendTO
  {
    var s1 := TimeDly(s, d);
    LiveTask(s, s.cur);
    StepKeepsInv(s, OnTask(Delay(d)));
    DelayIsExact(s1, s.cur, n);
  }

  /** A pend with a timeout of d ticks ends after d ticks and not before, and one with none goes on: the
      task then has the mark of a timeout and is ready unless it is suspended. */
  lemma TimeoutIsExact(s0: State, s: State, t: nat, e: nat, bit: StatBit, d: nat, n: nat)
    requires Inv(s) && t in s.list && t != Idle(s) && !IsDying(s, t) && bit != SuspendBit
    requires BeginsToWait(s0, s, t, e, bit, d)
    ensures InTable(s, s.list)
    ensures var s' := Ticks(s, s.list, n);
            && t < |s'.tcb| && s'.tcb[t].event == Some(e)
            && var over := 0 < d <= n;
            && (s'.tcb[t].pendTO <==> over) && (bit in s'.tcb[t].stat <==> !over)
            && (s.tcb[t].prio in s'.ready <==> over && SuspendBit !in s.tcb[t].stat)
            && s'.tcb[t].dly == if n < d then d - n else 0
  {
    DelayIsExact(s, t, n);
    assert bit in s.tcb[t].stat - {SuspendBit};
  }

  /** OSTimeDlyResume ends the delay, or the timeout, of the task it finds, as the last tick would; it
      changes nothing for the idle priority, without a task, or without a delay. */
  lemma DelayResumeEnds(s: State, prio: nat)
    requires CoreInv(s)
    ensures TargetInTable(s, prio)
    ensures var s' := TimeDlyResume(s, prio);
            if prio >= IDLE_PRIO || Target(s, prio) == None || s.tcb[Target(s, prio).value].dly == 0 then s' == s
            else
              var t := Target(s, prio).value;
              && OnlyTcb(s, s', t) && Awoken(s.tcb[t], s'.tcb[t])
              && (!IsDying(s, t) ==> (s.tcb[t].prio in s'.ready <==> SuspendBit !in s.tcb[t].stat))
  {
    TargetIsLive(s, prio);
    if Target(s, prio).Some? {
      LiveTask(s, Target(s, prio).value);
      StatusBits(s.tcb[Target(s, prio).value].stat);
    }
  }

  // ---------------------------------------------------------------- suspending and resuming

  /** OSTaskSuspend sets the suspend bit of the task it finds, which is then not ready. */
  lemma SuspendHolds(s: State, prio: nat)
    requires CoreInv(s)
    ensures TargetInTable(s, prio)
    ensures var s' := TaskSuspend(s, prio);
            if Target(s, prio) == None then s' == s
            else
              var t := Target(s, prio).value;
              && OnlyTcb(s, s', t) && Steady(s.tcb[t], s'.tcb[t]) && s.tcb[t].prio !in s'.ready
              && s'.tcb[t].stat == s.tcb[t].stat + {SuspendBit}
              && s'.tcb[t].dly == s.tcb[t].dly && s'.tcb[t].pendTO == s.tcb[t].pendTO
  {
    TargetIsLive(s, prio);
  }

  /** OSTaskResume clears it. The task is then ready unless it is delayed or waits for something. */
  lemma ResumeFrees(s: State, prio: nat)
    requires CoreInv(s) && (Target(s, prio).Some? ==> !IsDying(s, Target(s, prio).value))
    ensures TargetInTable(s, prio)
    ensures var s' := TaskResume(s, prio);
            if Target(s, prio) == None || SuspendBit !in s.tcb[Target(s, prio).value].stat then s' == s
            else
              var t := Target(s, prio).value;
              && OnlyTcb(s, s', t) && Steady(s.tcb[t], s'.tcb[t])
              && s'.tcb[t].stat == s.tcb[t].stat - {SuspendBit}
              && s'.tcb[t].dly == s.tcb[t].dly && s'.tcb[t].pendTO == s.tcb[t].pendTO
              && (s.tcb[t].prio in s'.ready <==> s.tcb[t].stat == {SuspendBit} && s.tcb[t].dly == 0)
  {
    TargetIsLive(s, prio);
    if Target(s, prio).Some? {
      LiveTask(s, Target(s, prio).value);
    }
  }

  /** OSTaskResume undoes OSTaskSuspend, for every task that is not suspended or being deleted: ready,
      delayed, waiting, or timed out. */
  lemma ResumeUndoesSuspend(s: State, prio: nat)
    requires CoreInv(s)
    requires Target(s, prio).Some? ==>
               var t := Target(s, prio).value; !IsDying(s, t) && (t < |s.tcb| ==> SuspendBit !in s.tcb[t].stat)
    ensures TargetInTable(s, prio) && TargetInTable(TaskSuspend(s, prio), prio)
    ensures TaskResume(TaskSuspend(s, prio), prio) == s
  {
    TargetIsLive(s, prio);
    if Target(s, prio).Some? {
      var t := Target(s, prio).value;
      LiveTask(s, t);
      var s1, x := TaskSuspend(s, prio), s.tcb[t];
      assert x.stat + {SuspendBit} - {SuspendBit} == x.stat;
      var s2 := TaskResume(s1, prio);
      assert s2.tcb == s.tcb;
      assert s2.ready == s.ready;
    }
  }

  // ---------------------------------------------------------------- changing a priority

  /** The bit moves with the priority. */
  ghost predicate BitMoves(a: set<nat>, b: set<nat>, p: nat, q: nat)
  {
    (q in b <==> p in a) && p !in b && forall r: nat :: r != p && r != q ==> (r in b <==> r in a)
  }

  /** OSTaskChangePrio on a task that is not between a timeout and its next run: its slot, its ready bit
      and its bit in the wait list go to the new priority with it, and nothing else changes. */
  lemma ChangePrioMoves(s: State, oldp: nat, newp: nat)
    requires CoreInv(s) && newp < N_PRIO && Target(s, oldp).Some? && s.prioTbl[newp].Empty?
    requires var t := Target(s, oldp).value;
             t < |s.tcb| && s.tcb[t].prio == oldp && !InWindow(s.tcb[t]) && !IsDying(s, t)
    ensures TargetInTable(s, oldp)
    ensures var s', t := ChangePrio(s, oldp, newp), Target(s, oldp).value;
            && s' == s.(tcb := s'.tcb, ready := s'.ready, ev := s'.ev, prioTbl := s'.prioTbl)
            && s'.tcb == s.tcb[t := s.tcb[t].(prio := newp)]
            && s'.prioTbl == s.prioTbl[oldp := Empty][newp := Tcb(t)]
            && BitMoves(s.ready, s'.ready, oldp, newp) && |s'.ev| == |s.ev|
            && forall e: nat :: e < |s.ev| ==>
                  s'.ev[e].kind == s.ev[e].kind && BitMoves(s.ev[e].waiters, s'.ev[e].waiters, oldp, newp)
  {
    TargetIsLive(s, oldp);
    var t := Target(s, oldp).value;
    LiveTask(s, t);
    NobodyAt(s, newp);
    forall e: nat | e < |s.ev|
      ensures BitMoves(s.ev[e].waiters, ChangePrio(s, oldp, newp).ev[e].waiters, oldp, newp)
    {
      if oldp in s.ev[e].waiters {
        assert WaiterOk(s, e, oldp);
      }
    }
  }

  /** An empty slot has no bit in any table. */
  lemma NobodyAt(s: State, p: nat)
    requires CoreInv(s) && p < N_PRIO && s.prioTbl[p].Empty?
    ensures p !in s.ready && forall e: nat :: e < |s.ev| ==> p !in s.ev[e].waiters
  {
    assert p in s.ready ==> ReadyOk(s, p);
    forall e: nat | e < |s.ev|
      ensures p !in s.ev[e].waiters
    {
      assert p in s.ev[e].waiters ==> WaiterOk(s, e, p);
    }
  }

  /** It is refused where the new priority is taken, and for a priority without a task. */
  lemma ChangePrioRefused(s: State, oldp: nat, newp: nat)
    requires CoreInv(s) && newp < N_PRIO && (Target(s, oldp) == None || !s.prioTbl[newp].Empty?)
    ensures TargetInTable(s, oldp) && ChangePrio(s, oldp, newp) == s
  {
    TargetIsLive(s, oldp);
  }

  lemma BitBack(a: set<nat>, p: nat, q: nat)
    requires p in a && q !in a
    ensures a - {p} + {q} - {q} + {p} == a
  {
  }

  /** Changing back restores the state. */
  lemma ChangeBack(s: State, oldp: nat, newp: nat)
    requires CoreInv(s) && newp < N_PRIO && Target(s, oldp).Some? && s.prioTbl[newp].Empty?
    requires var t := Target(s, oldp).value;
             t < |s.tcb| && s.tcb[t].prio == oldp && !InWindow(s.tcb[t]) && !IsDying(s, t)
    ensures TargetInTable(s, oldp) && oldp < N_PRIO
    ensures var s1 := ChangePrio(s, oldp, newp);
            TargetInTable(s1, newp) && |s1.prioTbl| == N_PRIO && ChangePrio(s1, newp, oldp) == s
  {
    TargetIsLive(s, oldp);
    var t := Target(s, oldp).value;
    LiveTask(s, t);
    NobodyAt(s, newp);
    var x, s1 := s.tcb[t], ChangePrio(s, oldp, newp);
    var s2 := ChangePrio(s1, newp, oldp);
    assert s2.tcb == s.tcb;
    assert s2.prioTbl == s.prioTbl;
    if oldp in s.ready {
      BitBack(s.ready, oldp, newp);
    } else if x.event.Some? {
      BitBack(s.ev[x.event.value].waiters, oldp, newp);
      assert s2.ev == s.ev;
    }
  }

  // ---------------------------------------------------------------- creating and deleting

  /** OSTaskCreate, first section: a free priority is reserved. */
  lemma CreateReserves(s: State, prio: nat)
    requires CoreInv(s) && Running(s) && prio < N_PRIO
    ensures var s' := CreateBegin(s, prio);
            if !s.prioTbl[prio].Empty? then s' == s
            else s' == s.(prioTbl := s.prioTbl[prio := Reserved], phase := s.phase[s.cur := InCreate(prio, NotYet)])
  {
  }

  /** The second: the first free TCB leaves the free list, if there is one. */
  lemma TakesFirstFree(s: State)
    requires CoreInv(s) && TaskEnabled(s, TakeFree)
    ensures var s', prio := TakeTcb(s), s.phase[s.cur].prio;
            if s.freeTcbs == [] then s' == s.(phase := s.phase[s.cur := InCreate(prio, NoneLeft)])
            else
              var t := s.freeTcbs[0];
              && s' == s.(phase := s.phase[s.cur := InCreate(prio, Got(t))], freeTcbs := s'.freeTcbs, away := s'.away)
              && s.freeTcbs == [t] + s'.freeTcbs && forall u: nat :: u in s'.away <==> u in s.away || u == t
  {
  }

  /** The task t is new and ready at its priority, at the head of the list. */
  ghost predicate NewAt(s: State, s': State, t: nat, prio: nat)
    requires t < |s.tcb| && prio < |s.prioTbl|
  {
    && |s'.tcb| == |s.tcb|
    && s'.tcb[t].prio == prio && s'.tcb[t].stat == {} && s'.tcb[t].dly == 0 && !s'.tcb[t].pendTO
    && s'.tcb[t].event == None && s'.tcb[t].node == None && s'.tcb[t].msg == NULL_MSG
    && (forall u: nat :: u < |s.tcb| && u != t ==> s'.tcb[u] == s.tcb[u])
    && s'.prioTbl == s.prioTbl[prio := Tcb(t)] && s'.list == [t] + s.list
    && (forall p: nat :: p in s'.ready <==> p in s.ready || p == prio)
    && (forall u: nat :: u in s'.away <==> u in s.away && u != t)
  }

  /** The last: the TCB becomes a ready task, or the reservation is given up. */
  lemma CreateMakes(s: State)
    requires CoreInv(s) && TaskEnabled(s, EndCreate)
    ensures s.phase[s.cur].prio < |s.prioTbl|
    ensures s.phase[s.cur].taken.Got? ==> s.phase[s.cur].taken.tcb < |s.tcb| == |s.phase|
    ensures var s', ph := CreateEnd(s), s.phase[s.cur];
            if ph.taken.Got? then
              && NewAt(s, s', ph.taken.tcb, ph.prio)
              && s' == s.(tcb := s'.tcb, phase := s.phase[s.cur := User][ph.taken.tcb := User], prioTbl := s'.prioTbl,
                          list := s'.list, ready := s'.ready, away := s'.away)
            else s' == s.(phase := s.phase[s.cur := User], prioTbl := s.prioTbl[ph.prio := Empty])
  {
    Grounds(s);
  }

  /** OSTaskDel up to the gap: the task is in no table any more and has neither delay nor status. */
  lemma DelQuiets(s: State, prio: nat)
    requires CoreInv(s) && Deletes(s, prio)
    ensures TargetInTable(s, prio)
    ensures var s', t := DelBegin(s, prio), Target(s, prio).value;
            && s' == s.(tcb := s'.tcb, ready := s'.ready, ev := s'.ev, grp := s'.grp, dying := Some(Dying(t, prio)))
            && s'.tcb == s.tcb[t := s.tcb[t].(dly := 0, stat := {}, pendTO := false, node := None)]
            && (forall p: nat :: p in s'.ready <==> p in s.ready && p != s.tcb[t].prio)
            && |s'.ev| == |s.ev| && |s'.grp| == |s.grp|
  {
    TargetIsLive(s, prio);
    LiveTask(s, Target(s, prio).value);
  }

  /** The wait lists of all events and groups lose the task, and only that. */
  lemma DelUnlinks(s: State, prio: nat, e: nat, g: nat)
    requires CoreInv(s) && Deletes(s, prio)
    ensures TargetInTable(s, prio)
    ensures var s', t := DelBegin(s, prio), Target(s, prio).value;
            && |s'.ev| == |s.ev| && |s'.grp| == |s.grp|
            && (e < |s.ev| ==>
                  && s'.ev[e].kind == s.ev[e].kind
                  && forall p: nat :: p in s'.ev[e].waiters <==> p in s.ev[e].waiters && p != s.tcb[t].prio)
            && (g < |s.grp| ==>
                  && s'.grp[g].used == s.grp[g].used && s'.grp[g].flags == s.grp[g].flags
                  && forall u: nat :: u in s'.grp[g].waiters <==> u in s.grp[g].waiters && u != t)
  {
    TargetIsLive(s, prio);
    var t := Target(s, prio).value;
    RecordsHold(s, t);
    if s.tcb[t].node.Some? && s.tcb[t].node.value.grp < |s.grp| {
      RemoveMembers(s.grp[s.tcb[t].node.value.grp].waiters, t);
    }
  }

  /** The rest: the priority is free and the TCB the first free one. */
  lemma DelFrees(s: State)
    requires CoreInv(s) && s.dying.Some?
    ensures s.dying.value.prio < |s.prioTbl|
    ensures var s', t := DelEnd(s), s.dying.value.task;
            && s' == s.(prioTbl := s.prioTbl[s.dying.value.prio := Empty], list := s'.list,
                        freeTcbs := [t] + s.freeTcbs, dying := None)
            && Distinct(s'.list) && forall u: nat :: u in s'.list <==> u in s.list && u != t
  {
    Grounds(s);
    RemoveMembers(s.list, s.dying.value.task);
  }

  /** OSTaskDel with nothing in between, of a task that waits for nothing. */
  lemma DelOfIdleTcb(s: State, t: nat, prio: nat)
    requires prio < |s.prioTbl| && prio != IDLE_PRIO && s.prioTbl[prio] == Tcb(t) && t < |s.tcb| == |s.phase|
    requires s.tcb[t].prio == prio && s.tcb[t].event == None && s.tcb[t].node == None
    ensures TargetInTable(s, prio)
    ensures var s' := TaskDel(s, prio);
            && |s'.tcb| == |s.tcb| && (forall u: nat :: u < |s.tcb| && u != t ==> s'.tcb[u] == s.tcb[u])
            && s' == s.(tcb := s'.tcb, ready := s.ready - {prio}, prioTbl := s.prioTbl[prio := Empty],
                        list := Remove(s.list, t), freeTcbs := [t] + s.freeTcbs, dying := None)
  {
  }

  /** OSTaskCreate with nothing in between, on a free priority and with a free TCB. */
  ghost function TaskCreate(s: State, prio: nat): State
    requires CoreInv(s) && Running(s) && prio < |s.prioTbl| && s.prioTbl[prio].Empty? && s.freeTcbs != []
  {
    assert s.freeTcbs[0] in s.freeTcbs;
    CreateEnd(TakeTcb(CreateBegin(s, prio)))
  }

  lemma TaskCreateMakes(s: State, prio: nat)
    requires CoreInv(s) && Running(s) && prio < |s.prioTbl| && s.prioTbl[prio].Empty? && s.freeTcbs != []
    ensures var s', t := TaskCreate(s, prio), s.freeTcbs[0];
            && t < |s.tcb| && t !in s.list && NewAt(s, s', t, prio)
            && s' == s.(tcb := s'.tcb, phase := s'.phase, prioTbl := s'.prioTbl, list := s'.list,
                        ready := s.ready + {prio}, freeTcbs := s.freeTcbs[1..], away := s.away)
            && |s'.phase| == |s.phase|
  {
    assert s.freeTcbs[0] in s.freeTcbs;
    assert s.away + {s.freeTcbs[0]} - {s.freeTcbs[0]} == s.away;
  }

  lemma NewIsDeleted(s: State, s1: State, t: nat, prio: nat)
    requires t < |s.tcb| == |s.phase| && prio < |s.prioTbl| && prio != IDLE_PRIO && NewAt(s, s1, t, prio)
    requires s.freeTcbs != [] && t == s.freeTcbs[0]
    requires s1 == s.(tcb := s1.tcb, phase := s1.phase, prioTbl := s1.prioTbl, list := s1.list,
                      ready := s.ready + {prio}, freeTcbs := s.freeTcbs[1..], away := s.away) && |s1.phase| == |s.phase|
    requires s.prioTbl[prio].Empty? && prio !in s.ready && Distinct(s.list) && t !in s.list && s.dying == None
    ensures TargetInTable(s1, prio)
    ensures var s' := TaskDel(s1, prio);
            && s' == s.(tcb := s'.tcb, phase := s1.phase) && |s'.tcb| == |s.tcb|
            && forall u: nat :: u < |s.tcb| && u != t ==> s'.tcb[u] == s.tcb[u]
  {
    DelOfIdleTcb(s1, t, prio);
    RemovedHead(s.list, t);
    assert s1.prioTbl[prio := Empty] == s.prioTbl;
    assert s1.ready - {prio} == s.ready;
  }

  /** With nothing in between, OSTaskDel undoes OSTaskCreate: all but the TCB is as it was. */
  lemma DelUndoesCreate(s: State, prio: nat)
    requires CoreInv(s) && Running(s) && prio < IDLE_PRIO && s.prioTbl[prio].Empty? && s.freeTcbs != []
    ensures var s1, t := TaskCreate(s, prio), s.freeTcbs[0];
            && TargetInTable(s1, prio)
            && var s' := TaskDel(s1, prio);
            && s' == s.(tcb := s'.tcb, phase := s1.phase) && |s'.tcb| == |s.tcb|
            && forall u: nat :: u < |s.tcb| && u != t ==> s'.tcb[u] == s.tcb[u]
  {
    NobodyAt(s, prio);
    TaskCreateMakes(s, prio);
    NewIsDeleted(s, TaskCreate(s, prio), s.freeTcbs[0], prio);
  }

  lemma RemovedHead(l: seq<nat>, t: nat)
    requires Distinct(l) && t !in l
    ensures Remove([t] + l, t) == l
  {
    assert ([t] + l)[0] == t;
    RemoveIsWithout([t] + l, 0);
  }
}
