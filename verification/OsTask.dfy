/** os_task.c and os_time.c on the kernel's tables. */
module OsTask {
  import opened IndexLists
  import opened PrioritySet
  import opened KernelState
  import opened KernelInvariant
  import opened KernelRuns
  import opened MutexInvariant
  import opened Scheduling
  import opened Kernel
  import OsCore
  import OsFlag

  datatype Err =
    | NoErr
    | PrioExist
    | PrioErr
    | PrioInvalid
    | TaskNotExist
    | TaskDelErr
    | TaskDelIdle
    | TaskSuspendPrio
    | TaskResumePrio
    | TaskNotSuspended
    | NoMoreTcb
    | TimeNotDly

  /** A slot without a task: nothing there, or a priority that is only reserved. */
  function NoTask(v: Slot, nothing: Err, reserved: Err): Err
  {
    match v
    case Empty => nothing
    case Reserved => reserved
    case Tcb(_) => NoErr
  }

  /** OS_PRIO_SELF */
  method Resolve(k: Kernel, prio: nat) returns (p: nat)
    requires k.Valid() && (prio == PRIO_SELF ==> k.cur < |k.s.tcb|)
    ensures p == SelfOr(k.s, prio)
  {
    p := if prio == PRIO_SELF then k.tcb[k.cur].prio else prio;
  }

  /** OSTaskSuspend, for the task it has found. */
  method SuspendTask(k: Kernel, t: nat)
    requires k.Valid() && OsCore.Fit(k.s, t)
    modifies k.Repr()
    ensures k.Valid() && k.s == Suspended(old(k.s), t)
  {
    k.Unready(k.tcb[t].prio);
    k.PutTcb(t, k.tcb[t].(stat := k.tcb[t].stat + {SuspendBit}));
  }

  /** The facts a service needs about the task at a priority. */
  lemma Found(s: State, p: nat)
    requires CoreInv(s)
    ensures TargetInTable(s, p) && |s.prioTbl| == N_PRIO
    ensures Target(s, p).Some? ==> OsCore.Fit(s, Target(s, p).value) && Target(s, p).value in s.list
    ensures Target(s, p).Some? && p != IDLE_PRIO ==> s.list != [] && Target(s, p).value != Idle(s)
  {
    TargetIsLive(s, p);
    if Target(s, p).Some? {
      OsCore.LiveIsFit(s, Target(s, p).value);
    }
  }

  /** OSTaskSuspend, once the priority is known. */
  method SuspendAt(k: Kernel, p: nat) returns (err: Err)
    requires k.Valid() && CoreInv(k.s) && p < N_PRIO
    modifies k.Repr()
    ensures TargetInTable(old(k.s), p) && p < |old(k.s).prioTbl|
    ensures k.Valid() && k.s == TaskSuspend(old(k.s), p)
    ensures err == NoTask(old(k.s).prioTbl[p], TaskSuspendPrio, TaskNotExist)
  {
    Found(k.s, p);
    err := NoTask(k.prioTbl[p], TaskSuspendPrio, TaskNotExist);
    if err == NoErr {
      SuspendTask(k, k.prioTbl[p].task);
    }
  }

  /** OSTaskSuspend; sched tells whether it calls OS_Sched at the end. */
  method Suspend(k: Kernel, prio: nat) returns (err: Err, sched: bool)
    requires k.Valid() && CoreInv(k.s) && TaskEnabled(k.s, KernelRuns.Suspend(prio, false)) && prio <= PRIO_SELF
    requires k.cur < |k.s.tcb|
    modifies k.Repr()
    ensures k.Valid()
    ensures var s, p := old(k.s), SelfOr(old(k.s), prio);
            && TargetInTable(s, p) && p < |s.prioTbl|
            && k.s == TaskSuspend(s, p) && err == NoTask(s.prioTbl[p], TaskSuspendPrio, TaskNotExist)
    ensures sched <==> TaskScheds(old(k.s), KernelRuns.Suspend(prio, false))
  {
    SelfPrio(k.s, prio);
    var self := prio == PRIO_SELF || prio == k.tcb[k.cur].prio;
    var p := Resolve(k, prio);
    err := SuspendAt(k, p);
    sched := err == NoErr && self;
  }

  /** OSTaskResume, for a suspended task. */
  method ResumeTask(k: Kernel, t: nat) returns (ready: bool)
    requires k.Valid() && OsCore.Fit(k.s, t)
    modifies k.Repr()
    ensures k.Valid() && k.s == Resumed(old(k.s), t)
    ensures ready <==> old(k.s).tcb[t].stat - {SuspendBit} == {} && old(k.s).tcb[t].dly == 0
  {
    var x := k.tcb[t].(stat := k.tcb[t].stat - {SuspendBit});
    k.PutTcb(t, x);
    ready := false;
    if x.stat == {} {
      if x.dly == 0 {
        k.Ready(x.prio);
        ready := true;
      }
    }
  }

  /** OSTaskResume */
  method Resume(k: Kernel, prio: nat) returns (err: Err, sched: bool)
    requires k.Valid() && CoreInv(k.s) && prio < N_PRIO
    modifies k.Repr()
    ensures TargetInTable(old(k.s), prio) && k.Valid() && k.s == TaskResume(old(k.s), prio)
    ensures prio < |old(k.s).prioTbl|
    ensures var v := old(k.s).prioTbl[prio];
            err == if v.Tcb? && SuspendBit !in old(k.s).tcb[v.task].stat then TaskNotSuspended
                   else NoTask(v, TaskResumePrio, TaskNotExist)
    ensures var v := old(k.s).prioTbl[prio];
            sched <==> v.Tcb? && var x := old(k.s).tcb[v.task];
                                 SuspendBit in x.stat && x.stat - {SuspendBit} == {} && x.dly == 0
  {
    Found(k.s, prio);
    sched := false;
    err := NoTask(k.prioTbl[prio], TaskResumePrio, TaskNotExist);
    if err == NoErr {
      var t := k.prioTbl[prio].task;
      if SuspendBit in k.tcb[t].stat {
        sched := ResumeTask(k, t);
      } else {
        err := TaskNotSuspended;
      }
    }
  }

  /** OSTimeDly; bspDelays is what the delay hook of the board returned, which can take the delay
      upon itself. */
  method TimeDly(k: Kernel, ticks: nat, bspDelays: bool)
    requires k.Valid() && CoreInv(k.s) && Calling(k.s)
    modifies k.Repr()
    ensures k.Valid() && k.s == if bspDelays then old(k.s) else KernelState.TimeDly(old(k.s), ticks)
  {
    if bspDelays {
      return;
    }
    if ticks > 0 {
      LiveTask(k.s, k.cur);
      var t := k.cur;
      k.Unready(k.tcb[t].prio);
      k.PutTcb(t, k.tcb[t].(dly := ticks));
    }
  }

  /** OSTimeDlyResume */
  method TimeDlyResume(k: Kernel, prio: nat) returns (err: Err, sched: bool)
    requires k.Valid() && CoreInv(k.s)
    modifies k.Repr()
    ensures TargetInTable(old(k.s), prio) && k.Valid() && k.s == KernelState.TimeDlyResume(old(k.s), prio)
    ensures prio >= IDLE_PRIO ==> err == PrioInvalid
    ensures prio < IDLE_PRIO ==>
              prio < |old(k.s).prioTbl|
              && var v := old(k.s).prioTbl[prio];
                 err == if v.Tcb? && old(k.s).tcb[v.task].dly == 0 then TimeNotDly
                        else NoTask(v, TaskNotExist, TaskNotExist)
    ensures sched <==> err == NoErr && SuspendBit !in old(k.s).tcb[Target(old(k.s), prio).value].stat
  {
    Found(k.s, prio);
    sched := false;
    if prio >= IDLE_PRIO {
      return PrioInvalid, false;
    }
    err := NoTask(k.prioTbl[prio], TaskNotExist, TaskNotExist);
    if err == NoErr {
      var t := k.prioTbl[prio].task;
      if k.tcb[t].dly == 0 {
        return TimeNotDly, false;
      }
      sched := SuspendBit !in k.tcb[t].stat;
      OsCore.DelayEnds(k, t);
    }
  }

  /** OSTaskCreate, first critical section. */
  method CreateBegin(k: Kernel, prio: nat) returns (err: Err)
    requires k.Valid() && CoreInv(k.s) && Running(k.s) && prio < N_PRIO
    modifies k.Repr()
    ensures k.Valid() && k.s == KernelState.CreateBegin(old(k.s), prio)
    ensures err == if old(k.s).prioTbl[prio].Empty? then NoErr else PrioExist
  {
    if k.prioTbl[prio].Empty? {
      k.PutSlot(prio, Reserved);
      k.GoTo(k.cur, InCreate(prio, NotYet));
      err := NoErr;
    } else {
      err := PrioExist;
    }
  }

  /** OS_TCBInit, first critical section; ptcb is its local variable. */
  method TakeFree(k: Kernel, ghost prio: nat) returns (ptcb: int)
    requires k.Valid() && CoreInv(k.s) && TaskEnabled(k.s, KernelRuns.TakeFree) && k.s.phase[k.cur].prio == prio
    modifies k.Repr()
    ensures k.Valid() && k.s == KernelState.TakeTcb(old(k.s))
    ensures ptcb == At(old(k.s).freeTcbs, 0) && k.s.phase[k.cur] == InCreate(prio, Handle(ptcb))
  {
    if k.lists.freeHead == NIL {
      ptcb := NIL;
      k.GoTo(k.cur, InCreate(prio, NoneLeft));
    } else {
      ptcb := k.TakeFree();
      k.GoTo(k.cur, InCreate(prio, Got(ptcb)));
    }
  }

  /** What the local variable ptcb stands for. */
  function Handle(ptcb: int): Taken
  {
    if ptcb < 0 then NoneLeft else Got(ptcb)
  }

  /** OSTaskCreate, the rest; prio is still the argument of the call. */
  method CreateEnd(k: Kernel, prio: nat, ptcb: int) returns (err: Err)
    requires k.Valid() && CoreInv(k.s) && TaskEnabled(k.s, EndCreate)
             && k.s.phase[k.cur] == InCreate(prio, Handle(ptcb))
    modifies k.Repr()
    ensures prio < N_PRIO && (ptcb >= 0 ==> ptcb < |old(k.s).tcb|)
    ensures k.Valid() && k.s == KernelState.CreateEnd(old(k.s))
    ensures err == if ptcb < 0 then NoMoreTcb else NoErr
    ensures err == NoErr <==> TaskScheds(old(k.s), EndCreate)
  {
    Grounds(k.s);
    ReservationGivenUp(k.s);
    k.GoTo(k.cur, User);
    if ptcb < 0 {
      k.PutSlot(prio, Empty);
      err := NoMoreTcb;
    } else {
      OsCore.TCBInit(k, ptcb, prio);
      err := NoErr;
    }
  }

  /** The part of OSTaskDel that takes the task out of the wait list of its event. */
  method LeaveEvent(k: Kernel, t: nat)
    requires k.Valid() && OsCore.Fit(k.s, t)
    modifies k.Repr()
    ensures k.Valid()
    ensures var x := old(k.s).tcb[t];
            k.s == if x.event.Some? && x.event.value < |old(k.s).ev|
                   then SetWaiters(old(k.s), x.event.value, old(k.s).ev[x.event.value].waiters - {x.prio}) else old(k.s)
  {
    var x := k.tcb[t];
    if x.event.Some? {
      k.NoWaitBit(x.event.value, x.prio);
    }
  }

  /** The part that takes it out of the wait list of a flag group. */
  method LeaveFlags(k: Kernel, t: nat)
    requires k.Valid() && OsCore.Fit(k.s, t)
    modifies k.Repr()
    ensures k.Valid() && k.s == KernelState.FlagUnlink(old(k.s), t)
  {
    if k.tcb[t].node.Some? {
      OsFlag.FlagUnlink(k, t);
    }
  }

  /** The task can no longer be made ready by a tick or a resumption. */
  method Quiesce(k: Kernel, t: nat)
    requires k.Valid() && t < |k.s.tcb| && k.s.tcb[t].prio < MAX_PRIO
    modifies k.Repr()
    ensures k.Valid()
    ensures var s, x := old(k.s), old(k.s).tcb[t];
            k.s == SetTask(s, t, x.(dly := 0, stat := {}, pendTO := false)).(ready := s.ready - {x.prio})
  {
    var x := k.tcb[t];
    k.Unready(x.prio);
    k.PutTcb(t, x.(dly := 0, stat := {}, pendTO := false));
  }

  /** OSTaskDel of task t, found at prio, up to the gap. */
  method Detach(k: Kernel, t: nat, ghost prio: nat)
    requires k.Valid() && OsCore.Fit(k.s, t)
    modifies k.Repr()
    ensures k.Valid() && k.s == Quiesced(old(k.s), t, prio)
  {
    LeaveEvent(k, t);
    LeaveFlags(k, t);
    Quiesce(k, t);
    k.Lock(Dying(t, prio));
  }

  /** OSTaskDel, once the priority is known; ptcb is its local variable. */
  method DelAt(k: Kernel, p: nat) returns (err: Err, ptcb: nat)
    requires k.Valid() && CoreInv(k.s) && p < N_PRIO && p != IDLE_PRIO
    modifies k.Repr()
    ensures TargetInTable(old(k.s), p) && p < |old(k.s).prioTbl|
    ensures k.Valid() && k.s == KernelState.DelBegin(old(k.s), p)
            && err == NoTask(old(k.s).prioTbl[p], TaskNotExist, TaskDelErr)
    ensures err == NoErr ==> k.s.dying == Some(Dying(ptcb, p))
  {
    Found(k.s, p);
    ptcb := 0;
    err := NoTask(k.prioTbl[p], TaskNotExist, TaskDelErr);
    if err == NoErr {
      ptcb := k.prioTbl[p].task;
      Detach(k, ptcb, p);
    }
  }

  /** OSTaskDel up to the gap. If it goes on, p and ptcb are the priority and the TCB it deletes. */
  method DelBegin(k: Kernel, prio: nat) returns (err: Err, p: nat, ptcb: nat)
    requires k.Valid() && CoreInv(k.s) && TaskEnabled(k.s, Delete(prio)) && prio <= PRIO_SELF
    modifies k.Repr()
    ensures prio == IDLE_PRIO ==> err == TaskDelIdle && k.s == old(k.s)
    ensures prio != IDLE_PRIO ==>
              var s := old(k.s);
              && p == SelfOr(s, prio) && TargetInTable(s, p) && p < |s.prioTbl|
              && k.s == KernelState.DelBegin(s, p) && err == NoTask(s.prioTbl[p], TaskNotExist, TaskDelErr)
    ensures err == NoErr ==> k.s.dying == Some(Dying(ptcb, p))
    ensures k.Valid()
  {
    p, ptcb := prio, 0;
    if prio == IDLE_PRIO {
      return TaskDelIdle, p, ptcb;
    }
    SelfPrio(k.s, prio);
    p := Resolve(k, prio);
    err, ptcb := DelAt(k, p);
  }

  /** The rest of OSTaskDel. */
  method DelEnd(k: Kernel, prio: nat, ptcb: nat)
    requires k.Valid() && CoreInv(k.s) && k.s.dying == Some(Dying(ptcb, prio))
    modifies k.Repr()
    ensures prio < |old(k.s).prioTbl|
    ensures k.Valid() && k.s == KernelState.DelEnd(old(k.s))
  {
    Grounds(k.s);
    LiveTask(k.s, ptcb);
    k.PutSlot(prio, Empty);
    k.GiveTcb(ptcb);
    k.Unlock();
  }

  /** Moving a bit in the ready table. */
  method MoveReady(k: Kernel, p: nat, newp: nat)
    requires k.Valid() && p < MAX_PRIO && newp < MAX_PRIO
    modifies k.Repr()
    ensures k.Valid() && k.s == old(k.s).(ready := old(k.s).ready - {p} + {newp})
  {
    k.Unready(p);
    k.Ready(newp);
  }

  /** Moving a bit in a wait list. */
  method MoveWait(k: Kernel, e: nat, p: nat, newp: nat)
    requires k.Valid() && p < MAX_PRIO && newp < MAX_PRIO && e < |k.s.ev|
    modifies k.Repr()
    ensures k.Valid() && k.s == SetWaiters(old(k.s), e, old(k.s).ev[e].waiters - {p} + {newp})
  {
    k.NoWaitBit(e, p);
    k.WaitBit(e, newp);
  }

  /** What OSTaskChangePrio and OSMutexPend do with the bits of a task and its priority fields. */
  method Reprio(k: Kernel, t: nat, newp: nat)
    requires k.Valid() && OsCore.Fit(k.s, t) && newp < N_PRIO
    modifies k.Repr()
    ensures k.Valid() && k.s == KernelState.Reprio(old(k.s), t, newp)
  {
    var x := k.tcb[t];
    var ready := k.rdy.Contains(x.prio);
    if ready {
      MoveReady(k, x.prio, newp);
    } else if x.event.Some? {
      MoveWait(k, x.event.value, x.prio, newp);
    }
    k.PutTcb(t, x.(prio := newp));
  }

  method MoveSlot(k: Kernel, t: nat, p: nat, newp: nat)
    requires k.Valid() && newp < |k.s.prioTbl| && p < |k.s.prioTbl|
    modifies k.Repr()
    ensures k.Valid() && k.s == old(k.s).(prioTbl := old(k.s).prioTbl[p := Empty][newp := Tcb(t)])
  {
    k.PutSlot(p, Empty);
    k.PutSlot(newp, Tcb(t));
  }

  /** OSTaskChangePrio, for the task it has found. */
  method Relocate(k: Kernel, t: nat, p: nat, newp: nat)
    requires k.Valid() && OsCore.Fit(k.s, t) && newp < N_PRIO && |k.s.prioTbl| == N_PRIO && p < N_PRIO
    modifies k.Repr()
    ensures k.Valid()
    ensures k.s == KernelState.Reprio(old(k.s), t, newp).(prioTbl := old(k.s).prioTbl[p := Empty][newp := Tcb(t)])
  {
    MoveSlot(k, t, p, newp);
    Reprio(k, t, newp);
  }

  /** OSTaskChangePrio, once the priority is known. */
  method ChangeAt(k: Kernel, p: nat, newp: nat) returns (err: Err)
    requires k.Valid() && CoreInv(k.s) && newp < N_PRIO && p < N_PRIO
    modifies k.Repr()
    ensures TargetInTable(old(k.s), p) && |old(k.s).prioTbl| == N_PRIO
    ensures k.Valid() && k.s == KernelState.ChangePrio(old(k.s), p, newp)
    ensures err == if !old(k.s).prioTbl[newp].Empty? then PrioExist else NoTask(old(k.s).prioTbl[p], PrioErr, TaskNotExist)
  {
    Found(k.s, p);
    if !k.prioTbl[newp].Empty? {
      return PrioExist;
    }
    err := NoTask(k.prioTbl[p], PrioErr, TaskNotExist);
    if err == NoErr {
      Relocate(k, k.prioTbl[p].task, p, newp);
    }
  }

  /** OSTaskChangePrio. Whether what it leaves is coherent is the subject of ChangePrioExact. */
  method ChangePrio(k: Kernel, oldp: nat, newp: nat) returns (err: Err)
    requires k.Valid() && CoreInv(k.s) && newp < N_PRIO && oldp <= PRIO_SELF && (oldp == PRIO_SELF ==> Calling(k.s))
    modifies k.Repr()
    ensures k.Valid()
    ensures var s, p := old(k.s), SelfOr(old(k.s), oldp);
            && |s.prioTbl| == N_PRIO && p < N_PRIO && TargetInTable(s, p)
            && k.s == KernelState.ChangePrio(s, p, newp)
            && err == if !s.prioTbl[newp].Empty? then PrioExist else NoTask(s.prioTbl[p], PrioErr, TaskNotExist)
  {
    SelfInTable(k.s, oldp);
    var p := Resolve(k, oldp);
    err := ChangeAt(k, p, newp);
  }

  lemma SelfInTable(s: State, prio: nat)
    requires CoreInv(s) && prio <= PRIO_SELF && (prio == PRIO_SELF ==> Calling(s))
    ensures SelfOr(s, prio) < N_PRIO
  {
    if prio == PRIO_SELF {
      LiveTask(s, s.cur);
    }
  }
}
