/** Runs of the kernel: the steps that tasks and interrupts may take, in any order, and what holds
    in every state they lead to. */
module KernelRuns {
  import opened IndexLists
  import opened KernelState
  import opened KernelInvariant
  import opened MutexInvariant
  import opened TickBatch

  // Every operation is one critical section. The first of a pend and of OSTaskCreate leave the
  // task inside the service, where other steps may come in between: EndPend and EndFlags are the
  // second of a pend, TakeFree and EndCreate the second and the third of OSTaskCreate. Between
  // Delete and EndDelete the scheduler is locked, and only interrupts come in between.

  datatype TaskOp =
    | Switch(t: nat)
    | TickOne(t: nat)
    | Tick
    | Advance(n: nat)
    | BeginCreate(prio: nat)
    | TakeFree
    | EndCreate
    | Delete(prio: nat)
    | EndDelete
    | Suspend(prio: nat, byTask: bool)
    | Resume(prio: nat)
    | Change(oldp: nat, newp: nat)
    | Delay(ticks: nat)
    | DelayResume(prio: nat)

  datatype MutexOp =
    | NewMutex(pip: nat)
    | AcceptMutex(e: nat)
    | PendMutex(e: nat, timeout: nat)
    | PostMutex(e: nat)
    | DelMutex(e: nat, always: bool)

  datatype MsgOp =
    | NewMsg(bit: StatBit, size: nat, msgs: seq<int>)
    | Post(e: nat, msg: int, front: bool)
    | Broadcast(e: nat, msg: int, front: bool)
    | Accept(e: nat)
    | Pend(e: nat, timeout: nat)
    | Flush(e: nat)
    | DelMsg(e: nat, always: bool)

  datatype FlagOp =
    | NewFlags(g: nat, flags: Flags)
    | AcceptFlags(g: nat, flags: Flags, wait: WaitType, consume: bool)
    | PendFlags(g: nat, flags: Flags, wait: WaitType, consume: bool, timeout: nat)
    | PostFlags(g: nat, flags: Flags, toSet: bool)
    | DelFlags(g: nat, always: bool)
    | EndFlags

  datatype Op = OnTask(task: TaskOp) | OnMutex(mutex: MutexOp) | OnMsg(msg: MsgOp) | OnFlags(flags: FlagOp) | EndPend

  // ---------------------------------------------------------------- who may do what

  /** The current task runs its own code. Until multitasking starts the idle task stands for the
      start-up code, which creates and deletes tasks and events. */
  ghost predicate Running(s: State)
  {
    && s.cur in s.list && s.cur < |s.tcb| && s.cur < |s.phase| && s.list != []
    && s.phase[s.cur] == User && Runnable(s.tcb[s.cur]) && s.dying == None
  }

  /** It can call a service that may make it wait, or that uses its priority. */
  ghost predicate Calling(s: State)
  {
    Running(s) && s.cur != Idle(s)
  }

  /** The current task is about to go on with a service it is in. */
  ghost predicate Returning(s: State)
  {
    && s.cur in s.list && s.cur < |s.tcb| && s.cur < |s.phase| && s.phase[s.cur] != User && Runnable(s.tcb[s.cur])
    && s.dying == None
  }

  /** Tasks that compete for a mutex rank below its inheritance priority. */
  ghost predicate Competitor(s: State, e: nat)
  {
    Calling(s) && IsMutex(s, e) && s.tcb[s.cur].prio > Pip(s.ev[e].kind.cnt)
  }

  /** The caller would suspend itself by the slot of a priority that is not its present one. Then
      OSTaskSuspend does not call OS_Sched. */
  ghost predicate GoesOn(s: State, prio: nat)
  {
    Target(s, prio) == Some(s.cur) && s.cur < |s.tcb| && prio != s.tcb[s.cur].prio
  }

  // What the kernel demands of its callers: the argument checks, which are compiled out, and the
  // notes on mutexes. Steps without a condition on the current task can come from an interrupt.

  ghost predicate TaskEnabled(s: State, op: TaskOp)
  {
    match op
    case Switch(t) => t in s.list && t < |s.tcb| && Runnable(s.tcb[t]) && s.dying == None
    case TickOne(t) => t in s.list && t < |s.tcb|
    case Tick => true
    case Advance(_) => true
    case BeginCreate(prio) => Running(s) && prio < N_PRIO
    case TakeFree => Returning(s) && s.phase[s.cur].InCreate? && s.phase[s.cur].taken.NotYet?
    case EndCreate => Returning(s) && s.phase[s.cur].InCreate? && !s.phase[s.cur].taken.NotYet?
    case Delete(prio) =>
      && Running(s) && (prio == PRIO_SELF ==> Calling(s))
      && (Deletes(s, SelfOr(s, prio)) ==> !IsOwner(s, Target(s, SelfOr(s, prio)).value))
    case EndDelete => s.dying.Some?
    case Suspend(prio, byTask) =>
      && (prio == PRIO_SELF ==> Calling(s)) && prio != IDLE_PRIO
      && (byTask ==> Running(s) && !GoesOn(s, SelfOr(s, prio)))
    case Resume(prio) => !ResumesDying(s, prio)
    case Change(oldp, newp) =>
      && (oldp == PRIO_SELF ==> Calling(s)) && oldp != IDLE_PRIO && newp < N_PRIO
      && (Target(s, SelfOr(s, oldp)).Some? && newp < |s.prioTbl| && s.prioTbl[newp].Empty? ==>
            MayMove(s, Target(s, SelfOr(s, oldp)).value, newp))
    case Delay(_) => Calling(s)
    case DelayResume(_) => true
  }

  ghost predicate MutexEnabled(s: State, op: MutexOp)
  {
    match op
    case NewMutex(pip) => Running(s) && pip < IDLE_PRIO
    case AcceptMutex(e) => Competitor(s, e) && !IsOwner(s, s.cur)
    case PendMutex(e, _) => Competitor(s, e) && !IsOwner(s, s.cur)
    case PostMutex(e) => Calling(s) && IsMutex(s, e)
    case DelMutex(e, always) => Running(s) && IsMutex(s, e) && (DelRefused(s, e, always) || DelSafe(s, e, always))
  }

  ghost predicate MsgEnabled(s: State, op: MsgOp)
  {
    match op
    case NewMsg(bit, size, msgs) =>
      && Running(s) && |msgs| <= size
      && ((bit == QueueBit && msgs == []) || (bit == MboxBit && size == 1 && NULL_MSG !in msgs))
    case Post(e, msg, front) => IsMessages(s, e) && (s.ev[e].kind.bit == MboxBit ==> msg != NULL_MSG && !front)
    case Broadcast(e, msg, front) => IsMessages(s, e) && (s.ev[e].kind.bit == MboxBit ==> msg != NULL_MSG && !front)
    case Accept(e) => IsMessages(s, e)
    case Pend(e, _) => Calling(s) && IsMessages(s, e) && !IsOwner(s, s.cur)
    case Flush(e) => IsMessages(s, e) && s.ev[e].kind.bit == QueueBit
    case DelMsg(e, _) => Running(s) && IsMessages(s, e)
  }

  ghost predicate FlagEnabled(s: State, op: FlagOp)
  {
    match op
    case NewFlags(g, _) => Running(s) && g < |s.grp| && !s.grp[g].used
    case AcceptFlags(g, _, _, _) => g < |s.grp| && s.grp[g].used
    case PendFlags(g, _, _, _, _) => Calling(s) && g < |s.grp| && s.grp[g].used && !IsOwner(s, s.cur)
    case PostFlags(g, _, _) => g < |s.grp| && s.grp[g].used
    case DelFlags(g, _) => Running(s) && g < |s.grp| && s.grp[g].used
    case EndFlags => Returning(s) && s.phase[s.cur].InFlag?
  }

  ghost predicate Enabled(s: State, op: Op)
  {
    match op
    case OnTask(o) => TaskEnabled(s, o)
    case OnMutex(o) => MutexEnabled(s, o)
    case OnMsg(o) => MsgEnabled(s, o)
    case OnFlags(o) => FlagEnabled(s, o)
    case EndPend => Returning(s) && s.phase[s.cur].InEvent?
  }

  // ---------------------------------------------------------------- the step

  /** What the invariant gives the step functions to stand on. */
  lemma Grounds(s: State)
    requires CoreInv(s)
    ensures InTable(s, s.list)
    ensures forall p: nat :: TargetInTable(s, p)
    ensures s.dying.Some? ==> s.dying.value.prio < N_PRIO
    ensures s.freeEvs != [] ==> s.freeEvs[0] < |s.ev|
    ensures forall g: nat :: g < |s.grp| ==> InTable(s, s.grp[g].waiters)
    ensures s.cur in s.list && s.cur < |s.tcb| && !IsDying(s, s.cur) ==>
              && (s.phase[s.cur].InCreate? ==>
                    s.phase[s.cur].prio < N_PRIO && (s.phase[s.cur].taken.Got? ==> s.phase[s.cur].taken.tcb < |s.tcb|))
              && (s.phase[s.cur].InEvent? ==> s.phase[s.cur].e < |s.ev|)
              && (s.phase[s.cur].InFlag? ==> s.phase[s.cur].g < |s.grp|)
  {
    forall p: nat
      ensures TargetInTable(s, p)
    {
      TargetIsLive(s, p);
    }
    forall g: nat | g < |s.grp|
      ensures InTable(s, s.grp[g].waiters)
    {
      GroupInTable(s, g);
    }
    if s.freeEvs != [] {
      assert s.freeEvs[0] in s.freeEvs;
    }
    if s.cur in s.list {
      LiveTask(s, s.cur);
    }
    if s.dying.Some? {
      LiveTask(s, s.dying.value.task);
    }
  }

  ghost function TaskStep(s: State, op: TaskOp): State
    requires CoreInv(s) && TaskEnabled(s, op)
  {
    Grounds(s);
    match op
    case Switch(t) => SwitchTo(s, t)
    case TickOne(t) => TickTask(s, t)
    case Tick => TickWalk(s, s.list)
    case Advance(n) => AdvanceWalk(s, s.list, n)
    case BeginCreate(prio) => CreateBegin(s, prio)
    case TakeFree => TakeTcb(s)
    case EndCreate => CreateEnd(s)
    case Delete(prio) => DelBegin(s, SelfOr(s, prio))
    case EndDelete => DelEnd(s)
    case Suspend(prio, _) => TaskSuspend(s, SelfOr(s, prio))
    case Resume(prio) => TaskResume(s, prio)
    case Change(oldp, newp) => ChangePrio(s, SelfOr(s, oldp), newp)
    case Delay(ticks) => TimeDly(s, ticks)
    case DelayResume(prio) => TimeDlyResume(s, prio)
  }

  ghost function MutexStep(s: State, op: MutexOp): State
    requires CoreInv(s) && MutexEnabled(s, op)
  {
    Grounds(s);
    match op
    case NewMutex(pip) => MutexCreate(s, pip)
    case AcceptMutex(e) => MutexAccept(s, e)
    case PendMutex(e, timeout) => MutexPend(s, e, timeout)
    case PostMutex(e) => MutexPost(s, e)
    case DelMutex(e, always) => MutexDel(s, e, always)
  }

  ghost function MsgStep(s: State, op: MsgOp): State
    requires CoreInv(s) && MsgEnabled(s, op)
  {
    Grounds(s);
    match op
    case NewMsg(bit, size, msgs) => MsgCreate(s, bit, size, msgs)
    case Post(e, msg, front) => MsgPost(s, e, msg, front)
    case Broadcast(e, msg, front) => MsgBroadcast(s, e, msg, front)
    case Accept(e) => MsgAccept(s, e)
    case Pend(e, timeout) => MsgPend(s, e, timeout)
    case Flush(e) => MsgFlush(s, e)
    case DelMsg(e, always) => MsgDel(s, e, always)
  }

  ghost function FlagStep(s: State, op: FlagOp): State
    requires CoreInv(s) && FlagEnabled(s, op)
  {
    Grounds(s);
    match op
    case NewFlags(g, flags) => FlagCreate(s, g, flags)
    case AcceptFlags(g, flags, wait, consume) => FlagAccept(s, g, flags, wait, consume)
    case PendFlags(g, flags, wait, consume, timeout) => FlagPend(s, g, flags, wait, consume, timeout)
    case PostFlags(g, flags, toSet) => FlagPost(s, g, flags, toSet)
    case DelFlags(g, always) => FlagDel(s, g, always)
    case EndFlags => FlagResume(s)
  }

  ghost function Step(s: State, op: Op): State
    requires CoreInv(s) && Enabled(s, op)
  {
    Grounds(s);
    match op
    case OnTask(o) => TaskStep(s, o)
    case OnMutex(o) => MutexStep(s, o)
    case OnMsg(o) => MsgStep(s, o)
    case OnFlags(o) => FlagStep(s, o)
    case EndPend => PendResume(s)
  }

  // ---------------------------------------------------------------- every step keeps the invariant

  lemma SelfPrio(s: State, prio: nat)
    requires CoreInv(s) && prio != IDLE_PRIO && (prio == PRIO_SELF ==> Calling(s))
    ensures SelfOr(s, prio) != IDLE_PRIO && (prio == PRIO_SELF ==> SelfOr(s, prio) < N_PRIO)
  {
    if prio == PRIO_SELF {
      LiveTask(s, s.cur);
    }
  }

  lemma {:induction false} TicksInv(s: State, l: seq<nat>, n: nat)
    requires Inv(s) && InTable(s, l) && forall t: nat :: t in l ==> t in s.list
    ensures Inv(Ticks(s, l, n)) && Ticks(s, l, n).list == s.list
  {
    if n > 0 {
      TicksInv(s, l, n - 1);
      TickWalkKeeps(Ticks(s, l, n - 1), l);
      TickWalkGentle(Ticks(s, l, n - 1), l);
      GentleKeeps(Ticks(s, l, n - 1), Ticks(s, l, n));
    }
  }

  lemma AdvanceInv(s: State, n: nat)
    requires Inv(s)
    ensures InTable(s, s.list) && Inv(AdvanceWalk(s, s.list, n))
  {
    BatchIsTicks(s, s.list, n);
    TicksInv(s, s.list, n);
  }

  lemma SwitchInv(s: State, t: nat)
    requires Inv(s) && t < |s.tcb|
    ensures Inv(SwitchTo(s, t))
  {
    var s' := SwitchTo(s, t);
    ContentsKeep(s, s');
    assert Gentle(s, s');
    GentleKeeps(s, s');
  }

  lemma TickTaskGentle(s: State, t: nat)
    requires t < |s.tcb|
    ensures Gentle(s, TickTask(s, t))
  {
  }

  lemma TickOneInv(s: State, t: nat)
    requires Inv(s) && t in s.list && t < |s.tcb|
    ensures Inv(TickTask(s, t))
  {
    TickTaskKeeps(s, t);
    TickTaskGentle(s, t);
    GentleKeeps(s, TickTask(s, t));
  }

  lemma TickInv(s: State)
    requires Inv(s)
    ensures InTable(s, s.list) && Inv(TickWalk(s, s.list))
  {
    TickWalkKeeps(s, s.list);
    TickWalkGentle(s, s.list);
    GentleKeeps(s, TickWalk(s, s.list));
  }

  lemma SuspendInv(s: State, prio: nat)
    requires Inv(s) && prio != IDLE_PRIO
    ensures TargetInTable(s, prio) && Inv(TaskSuspend(s, prio))
  {
    SuspendKeeps(s, prio);
    assert Gentle(s, TaskSuspend(s, prio));
    GentleKeeps(s, TaskSuspend(s, prio));
  }

  lemma ResumeInv(s: State, prio: nat)
    requires Inv(s) && TaskEnabled(s, Resume(prio))
    ensures TargetInTable(s, prio) && Inv(TaskResume(s, prio))
  {
    ResumeKeeps(s, prio);
    assert Gentle(s, TaskResume(s, prio));
    GentleKeeps(s, TaskResume(s, prio));
  }

  lemma DelayInv(s: State, ticks: nat)
    requires Inv(s) && Calling(s)
    ensures Inv(TimeDly(s, ticks))
  {
    TimeDlyKeeps(s, ticks);
    assert Gentle(s, TimeDly(s, ticks));
    GentleKeeps(s, TimeDly(s, ticks));
  }

  lemma DelayResumeInv(s: State, prio: nat)
    requires Inv(s)
    ensures TargetInTable(s, prio) && Inv(TimeDlyResume(s, prio))
  {
    TimeDlyResumeKeeps(s, prio);
    assert Gentle(s, TimeDlyResume(s, prio));
    GentleKeeps(s, TimeDlyResume(s, prio));
  }

  lemma TaskStepKeeps(s: State, op: TaskOp)
    requires Inv(s) && TaskEnabled(s, op)
    ensures Inv(TaskStep(s, op))
  {
    Grounds(s);
    match op
    case Switch(t) => SwitchInv(s, t);
    case TickOne(t) => TickOneInv(s, t);
    case Tick => TickInv(s);
    case Advance(n) => AdvanceInv(s, n);
    case BeginCreate(prio) => CreateBeginInv(s, prio);
    case TakeFree => TakeTcbInv(s);
    case EndCreate => CreateEndInv(s);
    case Delete(prio) => TaskDelInv(s, SelfOr(s, prio));
    case EndDelete => DelEndInv(s);
    case Suspend(prio, _) => SelfPrio(s, prio); SuspendInv(s, SelfOr(s, prio));
    case Resume(prio) => ResumeInv(s, prio);
    case Change(oldp, newp) => ChangeInv(s, oldp, newp);
    case Delay(ticks) => DelayInv(s, ticks);
    case DelayResume(prio) => DelayResumeInv(s, prio);
  }

  lemma ChangeInv(s: State, oldp: nat, newp: nat)
    requires Inv(s) && TaskEnabled(s, Change(oldp, newp))
    ensures TargetInTable(s, SelfOr(s, oldp)) && Inv(ChangePrio(s, SelfOr(s, oldp), newp))
  {
    SelfPrio(s, oldp);
    TargetIsLive(s, SelfOr(s, oldp));
    if Target(s, SelfOr(s, oldp)).Some? && s.prioTbl[newp].Empty? {
      ChangePrioInv(s, SelfOr(s, oldp), newp);
    }
  }

  lemma MutexStepKeeps(s: State, op: MutexOp)
    requires Inv(s) && MutexEnabled(s, op)
    ensures Inv(MutexStep(s, op))
  {
    match op
    case NewMutex(pip) => MutexCreateInv(s, pip);
    case AcceptMutex(e) => MutexAcceptInv(s, e);
    case PendMutex(e, timeout) => MutexPendInv(s, e, timeout);
    case PostMutex(e) => MutexPostInv(s, e);
    case DelMutex(e, always) => MutexDelInv(s, e, always);
  }

  /** Steps on the contents of queues and flags. */
  lemma ContentsInv(s: State, s': State)
    requires Inv(s) && OnlyContents(s, s')
    requires forall e: nat :: e < |s.ev| && (s.ev[e].kind.Mutex? || s'.ev[e].kind.Mutex?) ==>
               s'.ev[e].kind == s.ev[e].kind
    ensures Inv(s')
  {
    ContentsKeep(s, s');
    assert Gentle(s, s');
    GentleKeeps(s, s');
  }

  lemma MsgCreateInv(s: State, bit: StatBit, size: nat, msgs: seq<int>)
    requires Inv(s) && (bit == QueueBit || bit == MboxBit)
    ensures (s.freeEvs != [] ==> s.freeEvs[0] < |s.ev|) && Inv(MsgCreate(s, bit, size, msgs))
  {
    if s.freeEvs != [] {
      NewEventKeeps(s, Messages(bit, size, msgs));
      assert EventOk(s, s.freeEvs[0]) && s.freeEvs[0] in s.freeEvs;
      assert Gentle(s, MsgCreate(s, bit, size, msgs));
      GentleKeeps(s, MsgCreate(s, bit, size, msgs));
    }
  }

  lemma MsgPostInv(s: State, e: nat, msg: int, front: bool)
    requires Inv(s) && IsMessages(s, e)
    ensures Inv(MsgPost(s, e, msg, front))
  {
    if s.ev[e].waiters != {} {
      EventTaskRdyKeeps(s, e, msg);
      ReadiedGentle(s, e, msg, s.ev[e].kind.bit);
      GentleKeeps(s, MsgPost(s, e, msg, front));
    } else {
      ContentsInv(s, MsgPost(s, e, msg, front));
    }
  }

  lemma MsgBroadcastInv(s: State, e: nat, msg: int, front: bool)
    requires Inv(s) && IsMessages(s, e)
    ensures Inv(MsgBroadcast(s, e, msg, front))
  {
    if s.ev[e].waiters != {} {
      ReadyAllKeeps(s, e, msg);
      ReadyAllGentle(s, e, msg, s.ev[e].kind.bit);
      GentleKeeps(s, MsgBroadcast(s, e, msg, front));
    } else {
      MsgPostInv(s, e, msg, front);
    }
  }

  lemma MsgPendInv(s: State, e: nat, timeout: nat)
    requires Inv(s) && IsMessages(s, e) && MayWait(s, s.cur)
    ensures Inv(MsgPend(s, e, timeout))
  {
    if s.ev[e].kind.msgs != [] {
      ContentsInv(s, MsgPend(s, e, timeout));
    } else {
      MessageWaitKeeps(s, s.cur, e, timeout);
    }
  }

  lemma MsgDelInv(s: State, e: nat, always: bool)
    requires Inv(s) && IsMessages(s, e)
    ensures Inv(MsgDel(s, e, always))
  {
    if always {
      var s1 := ReadyAll(s, e, NULL_MSG, s.ev[e].kind.bit);
      ReadyAllKeeps(s, e, NULL_MSG);
      ReadyAllGentle(s, e, NULL_MSG, s.ev[e].kind.bit);
      FreeMsgInv(s1, e);
      assert Gentle(s1, FreeEvent(s1, e));
      GentleChain(s, s1, FreeEvent(s1, e));
      GentleKeeps(s, FreeEvent(s1, e));
    } else if s.ev[e].waiters == {} {
      FreeMsgInv(s, e);
      assert Gentle(s, FreeEvent(s, e));
      GentleKeeps(s, FreeEvent(s, e));
    }
  }

  lemma FreeMsgInv(s: State, e: nat)
    requires CoreInv(s) && IsMessages(s, e) && s.ev[e].waiters == {}
    ensures CoreInv(FreeEvent(s, e))
  {
    FreeEventKeeps(s, e);
  }

  lemma MsgStepKeeps(s: State, op: MsgOp)
    requires Inv(s) && MsgEnabled(s, op)
    ensures Inv(MsgStep(s, op))
  {
    match op
    case NewMsg(bit, size, msgs) => MsgCreateInv(s, bit, size, msgs);
    case Post(e, msg, front) => MsgPostInv(s, e, msg, front);
    case Broadcast(e, msg, front) => MsgBroadcastInv(s, e, msg, front);
    case Accept(e) => ContentsInv(s, MsgAccept(s, e));
    case Pend(e, timeout) => MsgPendInv(s, e, timeout);
    case Flush(e) => ContentsInv(s, MsgFlush(s, e));
    case DelMsg(e, always) => MsgDelInv(s, e, always);
  }

  lemma FlagPendInv(s: State, g: nat, flags: Flags, w: WaitType, consume: bool, timeout: nat)
    requires Inv(s) && MayWait(s, s.cur) && g < |s.grp| && s.grp[g].used
    ensures Inv(FlagPend(s, g, flags, w, consume, timeout))
  {
    if Satisfied(s.grp[g].flags, flags, w) {
      FlagPendKeeps(s, g, flags, w, consume, timeout);
      assert Gentle(s, FlagPend(s, g, flags, w, consume, timeout));
      GentleKeeps(s, FlagPend(s, g, flags, w, consume, timeout));
    } else {
      FlagWaitKeeps(s, s.cur, FlagNode(g, flags, w), consume, timeout);
    }
  }

  lemma FlagPostInv(s: State, g: nat, flags: Flags, toSet: bool)
    requires Inv(s) && g < |s.grp|
    ensures InTable(s, s.grp[g].waiters) && Inv(FlagPost(s, g, flags, toSet))
  {
    FlagPostKeeps(s, g, flags, toSet);
    var s1 := SetFlags(s, g, PostedFlags(s.grp[g].flags, flags, toSet));
    assert Gentle(s, s1);
    FlagWalkGentle(s1, g, s.grp[g].waiters);
    GentleChain(s, s1, FlagPost(s, g, flags, toSet));
    GentleKeeps(s, FlagPost(s, g, flags, toSet));
  }

  lemma FlagDelInv(s: State, g: nat, always: bool)
    requires Inv(s) && g < |s.grp|
    ensures InTable(s, s.grp[g].waiters) && Inv(FlagDel(s, g, always))
  {
    FlagDelKeeps(s, g, always);
    var s1 := if always then FlagReadyAll(s, s.grp[g].waiters) else s;
    if always {
      FlagReadyAllGentle(s, s.grp[g].waiters);
    } else {
      assert Gentle(s, s1);
    }
    assert Gentle(s1, if always || s.grp[g].waiters == [] then FlagDel(s, g, always) else s1);
    GentleChain(s, s1, FlagDel(s, g, always));
    GentleKeeps(s, FlagDel(s, g, always));
  }

  lemma FlagResumeGentle(s: State)
    requires FlagEnabled(s, EndFlags) && s.phase[s.cur].g < |s.grp|
    ensures Gentle(s, FlagResume(s))
  {
  }

  lemma FlagResumeInv(s: State)
    requires Inv(s) && FlagEnabled(s, EndFlags) && s.phase[s.cur].g < |s.grp|
    ensures Inv(FlagResume(s))
  {
    FlagResumeKeeps(s);
    FlagResumeGentle(s);
    GentleKeeps(s, FlagResume(s));
  }

  lemma FlagStepKeeps(s: State, op: FlagOp)
    requires Inv(s) && FlagEnabled(s, op)
    ensures Inv(FlagStep(s, op))
  {
    Grounds(s);
    match op
    case NewFlags(g, flags) =>
      FlagCreateKeeps(s, g, flags); assert Gentle(s, FlagCreate(s, g, flags)); GentleKeeps(s, FlagCreate(s, g, flags));
    case AcceptFlags(g, flags, wait, consume) => ContentsInv(s, FlagAccept(s, g, flags, wait, consume));
    case PendFlags(g, flags, wait, consume, timeout) => FlagPendInv(s, g, flags, wait, consume, timeout);
    case PostFlags(g, flags, toSet) => FlagPostInv(s, g, flags, toSet);
    case DelFlags(g, always) => FlagDelInv(s, g, always);
    case EndFlags => FlagResumeInv(s);
  }

  lemma PendResumeGentle(s: State)
    requires Enabled(s, EndPend) && s.phase[s.cur].e < |s.ev|
    ensures Gentle(s, PendResume(s))
  {
  }

  lemma PendResumeInv(s: State)
    requires Inv(s) && Enabled(s, EndPend) && s.phase[s.cur].e < |s.ev|
    ensures Inv(PendResume(s))
  {
    PendResumeKeeps(s);
    PendResumeGentle(s);
    GentleKeeps(s, PendResume(s));
  }

  /** Whatever the kernel is asked to do within its rules, the tables stay coherent. */
  lemma StepKeepsInv(s: State, op: Op)
    requires Inv(s) && Enabled(s, op)
    ensures Inv(Step(s, op))
  {
    Grounds(s);
    match op
    case OnTask(o) => TaskStepKeeps(s, o);
    case OnMutex(o) => MutexStepKeeps(s, o);
    case OnMsg(o) => MsgStepKeeps(s, o);
    case OnFlags(o) => FlagStepKeeps(s, o);
    case EndPend => PendResumeInv(s);
  }

  // ---------------------------------------------------------------- runs

  const CLEARED_TCB: Task := Task(0, {}, 0, false, None, NULL_MSG, None, {})

  /** The tables as OS_InitTCBList, OS_InitEventList and OS_FlagInit leave them, with the priority
      of the idle task reserved. */
  ghost function Cleared(tasks: nat, events: nat, groups: nat): State
  {
    State(seq(tasks, _ => CLEARED_TCB), seq(tasks, _ => User), [], Upto(tasks), seq(N_PRIO, _ => Empty)[IDLE_PRIO := Reserved], {},
          seq(events, _ => Event(Unused, {})), Upto(events), seq(groups, _ => FlagGrp(false, {}, [])), 0, 0,
          {}, None)
  }

  /** The state that OSInit leaves: it has created the idle task, with the first TCB. */
  ghost function Boot(tasks: nat, events: nat, groups: nat): State
    requires tasks > 0
  {
    AddTask(Cleared(tasks, events, groups).(freeTcbs := Upto(tasks)[1..], away := {0}), 0, IDLE_PRIO)
  }

  lemma BootInv(tasks: nat, events: nat, groups: nat)
    requires tasks > 0
    ensures Inv(Boot(tasks, events, groups))
  {
    var s := Boot(tasks, events, groups);
    assert s.list == [0];
    assert s.freeTcbs == Upto(tasks)[1..];
    forall t: nat | t < |s.tcb|
      ensures t in s.list <==> t !in s.freeTcbs
    {
      if t > 0 {
        assert s.freeTcbs[t - 1] == t;
      }
    }
    forall e: nat | e < |s.ev|
      ensures EventOk(s, e)
    {
      assert s.freeEvs[e] == e;
    }
  }

  ghost predicate Legal(s: State, ops: seq<Op>)
    requires Inv(s)
    decreases |ops|
  {
    ops == [] || (Enabled(s, ops[0]) && (StepKeepsInv(s, ops[0]); Legal(Step(s, ops[0]), ops[1..])))
  }

  ghost function After(s: State, ops: seq<Op>): State
    requires Inv(s) && Legal(s, ops)
    decreases |ops|
  {
    if ops == [] then s else
      StepKeepsInv(s, ops[0]);
      After(Step(s, ops[0]), ops[1..])
  }

  /** A state that some run of the kernel leads to. */
  ghost predicate Reachable(s: State)
  {
    exists tasks: nat, events: nat, groups: nat, ops: seq<Op> :: IsRun(tasks, events, groups, ops, s)
  }

  ghost predicate IsRun(tasks: nat, events: nat, groups: nat, ops: seq<Op>, s: State)
  {
    tasks > 0 && (BootInv(tasks, events, groups);
                  Legal(Boot(tasks, events, groups), ops) && s == After(Boot(tasks, events, groups), ops))
  }

  lemma {:induction false} AfterKeeps(s: State, ops: seq<Op>)
    requires Inv(s) && Legal(s, ops)
    ensures Inv(After(s, ops))
    decreases |ops|
  {
    if ops != [] {
      StepKeepsInv(s, ops[0]);
      AfterKeeps(Step(s, ops[0]), ops[1..]);
    }
  }

  lemma ReachableInv(s: State)
    requires Reachable(s)
    ensures Inv(s)
  {
    var tasks: nat, events: nat, groups: nat, ops: seq<Op> :| IsRun(tasks, events, groups, ops, s);
    BootInv(tasks, events, groups);
    AfterKeeps(Boot(tasks, events, groups), ops);
  }

  lemma OneStep(s: State, op: Op)
    requires Inv(s) && Enabled(s, op)
    ensures Legal(s, [op]) && After(s, [op]) == Step(s, op)
  {
    assert [op][1..] == [];
    StepKeepsInv(s, op);
    assert Legal(Step(s, op), []);
  }

  lemma {:induction false} OneMoreStep(s: State, ops: seq<Op>, op: Op)
    requires Inv(s) && Legal(s, ops)
    ensures Inv(After(s, ops))
    ensures Enabled(After(s, ops), op) ==>
              Legal(s, ops + [op]) && After(s, ops + [op]) == Step(After(s, ops), op)
    decreases |ops|
  {
    AfterKeeps(s, ops);
    if ops == [] {
      assert ops + [op] == [op];
      if Enabled(s, op) {
        OneStep(s, op);
      }
    } else {
      StepKeepsInv(s, ops[0]);
      OneMoreStep(Step(s, ops[0]), ops[1..], op);
      assert (ops + [op])[0] == ops[0] && (ops + [op])[1..] == ops[1..] + [op];
    }
  }

  /** Every step that is enabled leads on to a reachable state. */
  lemma ReachableStep(s: State, op: Op)
    requires Reachable(s) && CoreInv(s) && Enabled(s, op)
    ensures Reachable(Step(s, op)) && Inv(Step(s, op))
  {
    var tasks: nat, events: nat, groups: nat, ops: seq<Op> :| IsRun(tasks, events, groups, ops, s);
    BootInv(tasks, events, groups);
    OneMoreStep(Boot(tasks, events, groups), ops, op);
    assert IsRun(tasks, events, groups, ops + [op], Step(s, op));
    ReachableInv(Step(s, op));
  }

  // ---------------------------------------------------------------- what holds after every run

  /** A live task at this priority, other than one that is being deleted. */
  ghost predicate TaskAt(s: State, t: nat, p: nat)
  {
    t in s.list && t < |s.tcb| && s.tcb[t].prio == p && !IsDying(s, t)
  }

  /** The ready table holds exactly the tasks without a status bit and without a delay, except that
      a task which OSTaskDel is deleting has left it, whatever its TCB says. */
  lemma ReadyTableIsExact(s: State, p: nat)
    requires Reachable(s)
    ensures p in s.ready <==> exists t: nat :: TaskAt(s, t, p) && Runnable(s.tcb[t])
  {
    ReachableInv(s);
    if p in s.ready {
      assert ReadyOk(s, p) && SlotOk(s, p);
      LiveTask(s, s.prioTbl[p].task);
      assert TaskAt(s, s.prioTbl[p].task, p);
    }
    forall t: nat | TaskAt(s, t, p) && Runnable(s.tcb[t])
      ensures p in s.ready
    {
      LiveTask(s, t);
    }
  }

  /** A wait list holds exactly the priorities of the tasks that point to the event, timed out or
      not, except one being deleted, so OS_EventTaskRdy finds a TCB at whatever it picks. */
  lemma WaitListIsExact(s: State, e: nat, p: nat)
    requires Reachable(s) && e < |s.ev|
    ensures p in s.ev[e].waiters <==> exists t: nat :: TaskAt(s, t, p) && s.tcb[t].event == Some(e)
    ensures p in s.ev[e].waiters ==> Target(s, p).Some? && Target(s, p).value in s.list
  {
    ReachableInv(s);
    if p in s.ev[e].waiters {
      assert WaiterOk(s, e, p) && SlotOk(s, p);
      LiveTask(s, s.prioTbl[p].task);
      assert TaskAt(s, s.prioTbl[p].task, p);
    }
    forall t: nat | TaskAt(s, t, p) && s.tcb[t].event == Some(e)
      ensures p in s.ev[e].waiters
    {
      LiveTask(s, t);
    }
  }

  /** TCBs that some task in OSTaskCreate has taken off the free list. */
  ghost function InFlight(s: State): set<nat>
  {
    set c | c in s.away && exists u: nat :: HoldsTcb(s, u, c)
  }

  ghost predicate HoldsTcb(s: State, u: nat, c: nat)
  {
    u in s.list && u < |s.phase| && Holding(s.phase[u], c)
  }

  lemma TcbsCounted(s: State)
    requires Shape(s) && Lists(s)
    ensures |s.list| + |s.freeTcbs| + |s.away| == |s.tcb|
    ensures Elements(s.list) !! Elements(s.freeTcbs) !! s.away
  {
    UptoElements(|s.tcb|);
    Cardinality(s.list);
    Cardinality(s.freeTcbs);
    assert Elements(Upto(|s.tcb|)) == Elements(s.list) + Elements(s.freeTcbs) + s.away;
  }

  /** The task list ends in the idle task, which is alone at its priority, so that the walk of
      OSTimeTick ends there; and every TCB is on it, on the free list, or taken by OS_TCBInit. */
  lemma TcbLists(s: State)
    requires Reachable(s)
    ensures s.list != [] && |s.list| + |s.freeTcbs| + |s.away| == |s.tcb|
    ensures Elements(s.list) !! Elements(s.freeTcbs) !! s.away
    ensures forall i: nat :: i < |s.list| ==>
              s.list[i] < |s.tcb| && (s.tcb[s.list[i]].prio == IDLE_PRIO <==> i == |s.list| - 1)
    ensures forall u: nat, c: nat :: HoldsTcb(s, u, c) ==> c in InFlight(s)
  {
    ReachableInv(s);
    forall i: nat | i < |s.list|
      ensures s.list[i] < |s.tcb| && (s.tcb[s.list[i]].prio == IDLE_PRIO <==> i == |s.list| - 1)
    {
      LiveTask(s, s.list[i]);
    }
    forall u: nat, c: nat | HoldsTcb(s, u, c)
      ensures c in InFlight(s)
    {
      LiveTask(s, u);
    }
    TcbsCounted(s);
  }

  /** Bounded priority inversion: whenever a task waits for a mutex whose owner ranks below it by
      its own priority, the owner runs at the inheritance priority, above every waiter. */
  lemma InversionIsBounded(s: State, e: nat, t: nat)
    requires Reachable(s) && IsMutex(s, e)
    requires t in s.list && t < |s.tcb| && s.tcb[t].event == Some(e) && !IsDying(s, t)
    ensures s.ev[e].kind.owner.Some?
    ensures var o := s.ev[e].kind.owner.value;
            && o in s.list && o < |s.tcb|
            && Pip(s.ev[e].kind.cnt) < s.tcb[t].prio
            && (s.tcb[t].prio < LowByte(s.ev[e].kind.cnt) ==> s.tcb[o].prio == Pip(s.ev[e].kind.cnt) < s.tcb[t].prio)
  {
    ReachableInv(s);
    LiveTask(s, t);
    assert MutexOk(s, e);
  }

  /** The count word and the two slots of a mutex: nobody owns it and nobody waits when the low byte
      is 0xFF; otherwise that is the owner's own priority, whose slot leads to the owner, and the
      inheritance priority is reserved exactly when the owner is not raised to it. */
  lemma MutexRecord(s: State, e: nat)
    requires Reachable(s) && IsMutex(s, e)
    ensures |s.prioTbl| == N_PRIO
    ensures var cnt, owner := s.ev[e].kind.cnt, s.ev[e].kind.owner;
            && Pip(cnt) < N_PRIO
            && (LowByte(cnt) == AVAILABLE <==> owner == None)
            && (owner == None ==> s.ev[e].waiters == {} && s.prioTbl[Pip(cnt)] == Reserved)
            && (owner.Some? ==>
                  var o := owner.value;
                  && o in s.list && o < |s.tcb| && LowByte(cnt) < N_PRIO && s.prioTbl[LowByte(cnt)] == Tcb(o)
                  && (s.tcb[o].prio == LowByte(cnt) || s.tcb[o].prio == Pip(cnt))
                  && (s.prioTbl[Pip(cnt)] == Reserved <==> s.tcb[o].prio == LowByte(cnt))
                  && (s.prioTbl[Pip(cnt)] == Tcb(o) <==> s.tcb[o].prio == Pip(cnt)))
  {
    ReachableInv(s);
    assert MutexOk(s, e);
    if s.ev[e].kind.owner.Some? {
      LiveTask(s, s.ev[e].kind.owner.value);
    }
  }
}
