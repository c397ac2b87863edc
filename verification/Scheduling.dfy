/** When a service gives the processor away. Some services call OS_Sched before they return and some do
    not, and OS_Sched itself switches only if the best ready priority is not OSPrioCur. What the caller
    needs is that it never goes on while a better task is ready. */
module Scheduling {
  import opened IndexLists
  import opened KernelState
  import opened KernelInvariant
  import opened MutexInvariant
  import opened TickBatch
  import opened KernelRuns
  import opened FlagFlow

  // ---------------------------------------------------------------- OS_Sched

  /** The current task is the best of those that are ready. */
  ghost predicate IsBest(s: State)
  {
    s.cur in s.list && s.cur < |s.tcb| && IsLeast(s.ready, s.tcb[s.cur].prio)
  }

  /** OSPrioCur names the best ready priority, and another task than the current one is there. */
  ghost predicate Misses(s: State)
  {
    s.ready != {} && Least(s.ready) == s.prioCur && Target(s, s.prioCur) != Some(s.cur)
  }

  lemma BestPrio(s: State)
    requires Inv(s)
    ensures s.ready != {} && ReadyOk(s, Least(s.ready)) && Target(s, Least(s.ready)).Some?
    ensures var t := Target(s, Least(s.ready)).value; t in s.list && t < |s.tcb| && s.tcb[t].prio == Least(s.ready)
  {
    IdleIsLive(s);
    LiveTask(s, Idle(s));
    assert s.tcb[Idle(s)].prio in s.ready;
    var p := Least(s.ready);
    assert ReadyOk(s, p) && SlotOk(s, p);
  }

  lemma LeastIs(ps: set<nat>, p: nat)
    requires IsLeast(ps, p)
    ensures ps != {} && Least(ps) == p
  {
  }

  /** OS_Sched makes the best ready task current unless OSPrioCur misleads it. */
  lemma SchedExact(s: State)
    requires Inv(s) && s.dying == None
    ensures IsBest(Sched(s)) <==> !Misses(s)
  {
    BestPrio(s);
    if IsBest(s) {
      LeastIs(s.ready, s.tcb[s.cur].prio);
      LiveTask(s, s.cur);
    }
  }

  /** What it means to be the best: able to run, and no task that can run ranks above. */
  lemma BestRuns(s: State)
    requires Inv(s) && s.dying == None && IsBest(s)
    ensures Runnable(s.tcb[s.cur])
    ensures forall u: nat :: u in s.list && u < |s.tcb| && Runnable(s.tcb[u]) ==> s.tcb[s.cur].prio <= s.tcb[u].prio
  {
    LiveTask(s, s.cur);
    forall u: nat | u in s.list && u < |s.tcb| && Runnable(s.tcb[u])
      ensures s.tcb[s.cur].prio <= s.tcb[u].prio
    {
      LiveTask(s, u);
    }
  }

  /** In every reachable state OS_Sched finds the task with the highest priority among those that can
      run, or changes nothing while OSTaskDel has it locked, or is misled. */
  lemma SchedFindsBest(s: State)
    requires Reachable(s)
    ensures s.dying != None ==> Sched(s) == s
    ensures s.dying == None ==>
              var s' := Sched(s);
              && (Misses(s) ==> s' == s && !IsBest(s))
              && (!Misses(s) ==>
                    && s'.cur in s.list && s'.cur < |s.tcb| && Runnable(s.tcb[s'.cur])
                    && forall u: nat :: u in s.list && u < |s.tcb| && Runnable(s.tcb[u]) ==>
                         s.tcb[s'.cur].prio <= s.tcb[u].prio)
  {
    ReachableInv(s);
    if s.dying == None {
      SchedExact(s);
      if !Misses(s) {
        SchedKeeps(s);
        BestRuns(Sched(s));
      }
    }
  }

  lemma SchedKeeps(s: State)
    requires Inv(s)
    ensures Inv(Sched(s))
  {
    BestPrio(s);
    SwitchInv(s, Target(s, Least(s.ready)).value);
  }

  // ---------------------------------------------------------------- who calls it

  /** The task gets its flags, and nothing else holds it: OSFlagPost has to reschedule. */
  ghost predicate Rises(s: State, g: nat, t: nat)
  {
    g < |s.grp| && Met(s, t, s.grp[g].flags) && s.tcb[t].stat - {FlagBit} == {}
  }

  ghost predicate TaskScheds(s: State, op: TaskOp)
  {
    match op
    case EndCreate => s.cur < |s.phase| && s.phase[s.cur].InCreate? && s.phase[s.cur].taken.Got?
    case EndDelete => true
    case Suspend(prio, _) => Target(s, SelfOr(s, prio)).Some? && s.cur < |s.tcb| && SelfOr(s, prio) == s.tcb[s.cur].prio
    case Resume(prio) =>
      && Target(s, prio).Some? && Target(s, prio).value < |s.tcb|
      && var x := s.tcb[Target(s, prio).value]; SuspendBit in x.stat && x.stat - {SuspendBit} == {} && x.dly == 0
    case Change(oldp, newp) => newp < |s.prioTbl| && s.prioTbl[newp].Empty? && Target(s, SelfOr(s, oldp)).Some?
    case Delay(ticks) => ticks > 0
    case DelayResume(prio) =>
      && prio < IDLE_PRIO && Target(s, prio).Some? && Target(s, prio).value < |s.tcb|
      && var x := s.tcb[Target(s, prio).value]; x.dly != 0 && SuspendBit !in x.stat
    case _ => false
  }

  ghost predicate MutexScheds(s: State, op: MutexOp)
  {
    match op
    case PendMutex(e, _) => IsMutex(s, e) && LowByte(s.ev[e].kind.cnt) != AVAILABLE
    case PostMutex(e) => Owns(s, e, s.cur) && s.ev[e].waiters != {}
    case DelMutex(e, always) => always && e < |s.ev| && s.ev[e].waiters != {}
    case _ => false
  }

  ghost predicate MsgScheds(s: State, op: MsgOp)
  {
    match op
    case Post(e, _, _) => e < |s.ev| && s.ev[e].waiters != {}
    case Broadcast(e, _, _) => e < |s.ev| && s.ev[e].waiters != {}
    case Pend(e, _) => IsMessages(s, e) && s.ev[e].kind.msgs == []
    case DelMsg(e, always) => always && e < |s.ev| && s.ev[e].waiters != {}
    case _ => false
  }

  ghost predicate FlagScheds(s: State, op: FlagOp)
  {
    match op
    case PendFlags(g, wanted, w, _, _) => g < |s.grp| && !Satisfied(s.grp[g].flags, wanted, w)
    case PostFlags(g, flags, toSet) =>
      && g < |s.grp|
      && var s1 := SetFlags(s, g, PostedFlags(s.grp[g].flags, flags, toSet));
         exists t: nat :: t in s1.grp[g].waiters && Rises(s1, g, t)
    case DelFlags(g, always) => always && g < |s.grp| && s.grp[g].waiters != []
    case _ => false
  }

  /** The service calls OS_Sched once this critical section is over. Where that depends on what it has
      found, the methods of OsTask, OsMutex, OsQueue and OsFlag return it. */
  ghost predicate Scheds(s: State, op: Op)
  {
    match op
    case OnTask(o) => TaskScheds(s, o)
    case OnMutex(o) => MutexScheds(s, o)
    case OnMsg(o) => MsgScheds(s, o)
    case OnFlags(o) => FlagScheds(s, o)
    case EndPend => false
  }

  /** A task, not an interrupt, executes the step, as part of a service it has called. */
  ghost predicate ByTask(s: State, op: Op)
  {
    && Enabled(s, op) && s.list != [] && s.cur != Idle(s)
    && match op
       case OnTask(Switch(_)) => false
       case OnTask(TickOne(_)) => false
       case OnTask(Tick) => false
       case OnTask(Advance(_)) => false
       case OnTask(Suspend(_, byTask)) => byTask
       case OnTask(TakeFree) => true
       case OnTask(EndCreate) => true
       case OnTask(EndDelete) => true
       case OnFlags(EndFlags) => true
       case EndPend => true
       case _ => Running(s)
  }

  /** The critical section, and OS_Sched where the service calls it. */
  ghost function Exec(s: State, op: Op): State
    requires Inv(s) && Enabled(s, op)
  {
    if Scheds(s, op) then Sched(Step(s, op)) else Step(s, op)
  }

  lemma ExecKeeps(s: State, op: Op)
    requires Inv(s) && Enabled(s, op)
    ensures Inv(Exec(s, op))
  {
    StepKeepsInv(s, op);
    SchedKeeps(Step(s, op));
  }

  // ---------------------------------------------------------------- steps after which OS_Sched is not called

  /** A raised owner gives up a mutex for which nobody waits: it falls back to its own priority, and
      neither OSMutexPost nor OSMutexDel calls OS_Sched. */
  ghost predicate LowersItself(s: State, op: Op)
  {
    && op.OnMutex? && (op.mutex.PostMutex? || (op.mutex.DelMutex? && op.mutex.always))
    && Owns(s, op.mutex.e, s.cur) && OwnerRaised(s, op.mutex.e) && s.ev[op.mutex.e].waiters == {}
  }

  /** The current task goes on at its priority, and nobody above it has become ready. */
  ghost predicate Quiet(s: State, s': State)
  {
    && s'.cur == s.cur && s'.prioCur == s.prioCur && s.cur in s'.list && s.cur < |s.tcb| && s.cur < |s'.tcb|
    && s'.tcb[s.cur].prio == s.tcb[s.cur].prio && s.tcb[s.cur].prio in s'.ready
    && forall q :: q in s'.ready ==> q in s.ready || q > s.tcb[s.cur].prio
  }

  lemma QuietIsBest(s: State, s': State)
    requires IsBest(s) && Quiet(s, s')
    ensures IsBest(s')
  {
  }

  lemma SuspendQuiet(s: State, prio: nat)
    requires Inv(s) && IsBest(s) && s.dying == None && !GoesOn(s, prio) && prio != s.tcb[s.cur].prio
    ensures TargetInTable(s, prio) && Quiet(s, TaskSuspend(s, prio))
  {
    TargetIsLive(s, prio);
    if Target(s, prio).Some? {
      PriosDiffer(s, s.cur, Target(s, prio).value);
    }
  }

  lemma ResumeQuiet(s: State, prio: nat)
    requires Inv(s) && IsBest(s) && !TaskScheds(s, Resume(prio))
    ensures TargetInTable(s, prio) && Quiet(s, TaskResume(s, prio))
  {
    TargetIsLive(s, prio);
  }

  lemma DelayResumeQuiet(s: State, prio: nat)
    requires Inv(s) && IsBest(s) && !TaskScheds(s, DelayResume(prio))
    ensures TargetInTable(s, prio) && Quiet(s, TimeDlyResume(s, prio))
  {
    TargetIsLive(s, prio);
  }

  lemma TaskStepQuiet(s: State, op: TaskOp)
    requires Inv(s) && IsBest(s) && s.dying == None && ByTask(s, OnTask(op)) && !TaskScheds(s, op)
    ensures TaskStep(s, op).dying == None ==> Quiet(s, TaskStep(s, op))
  {
    Grounds(s);
    match op
    case BeginCreate(_) =>
    case TakeFree =>
    case EndCreate =>
    case Delete(_) =>
    case Suspend(prio, _) => SuspendQuiet(s, SelfOr(s, prio));
    case Resume(prio) => ResumeQuiet(s, prio);
    case Change(_, _) =>
    case Delay(_) =>
    case DelayResume(prio) => DelayResumeQuiet(s, prio);
  }

  lemma PostQuiet(s: State, e: nat)
    requires Inv(s) && IsBest(s) && IsMutex(s, e) && (Owns(s, e, s.cur) ==> s.ev[e].waiters == {} && !OwnerRaised(s, e))
    ensures Quiet(s, MutexPost(s, e))
  {
  }

  lemma DelQuiet(s: State, e: nat, always: bool)
    requires Inv(s) && IsBest(s) && s.dying == None && IsMutex(s, e)
             && (DelRefused(s, e, always) || DelSafe(s, e, always))
    requires always ==> s.ev[e].waiters == {} && !(Owns(s, e, s.cur) && OwnerRaised(s, e))
    ensures Quiet(s, MutexDel(s, e, always))
  {
    assert MutexOk(s, e);
    if always && OwnerRaised(s, e) {
      var o := s.ev[e].kind.owner.value;
      LiveTask(s, o);
      PriosDiffer(s, s.cur, o);
    }
  }

  lemma MutexStepQuiet(s: State, op: MutexOp)
    requires Inv(s) && IsBest(s) && s.dying == None && MutexEnabled(s, op)
    requires !MutexScheds(s, op) && !LowersItself(s, OnMutex(op))
    ensures Quiet(s, MutexStep(s, op))
  {
    Grounds(s);
    match op
    case NewMutex(_) =>
    case AcceptMutex(_) =>
    case PendMutex(_, _) =>
    case PostMutex(e) => PostQuiet(s, e);
    case DelMutex(e, always) => DelQuiet(s, e, always);
  }

  lemma MsgStepQuiet(s: State, op: MsgOp)
    requires Inv(s) && IsBest(s) && MsgEnabled(s, op) && !MsgScheds(s, op)
    ensures Quiet(s, MsgStep(s, op))
  {
    Grounds(s);
  }

  /** The walk of OSFlagPost readies only tasks that rise. */
  lemma {:induction false} WalkQuiet(s: State, g: nat, l: seq<nat>)
    requires g < |s.grp| && InTable(s, l) && Distinct(l) && forall t: nat :: t in l ==> !Rises(s, g, t)
    ensures var s' := FlagWalk(s, g, l);
            && s'.cur == s.cur && s'.prioCur == s.prioCur && s'.ready == s.ready && s'.list == s.list
            && |s'.tcb| == |s.tcb| && forall t: nat :: t < |s.tcb| ==> s'.tcb[t].prio == s.tcb[t].prio
    decreases |l|
  {
    if l != [] {
      assert l[0] in l;
      match s.tcb[l[0]].node
      case None => WalkQuiet(s, g, l[1..]);
      case Some(nd) =>
        if Satisfied(s.grp[g].flags, nd.flags, nd.wait) {
          VisitQuiet(s, g, l, FlagsMet(s.grp[g].flags, nd.flags, nd.wait));
          WalkQuiet(FlagTaskRdy(s, l[0], FlagsMet(s.grp[g].flags, nd.flags, nd.wait)), g, l[1..]);
        } else {
          WalkQuiet(s, g, l[1..]);
        }
    }
  }

  lemma VisitQuiet(s: State, g: nat, l: seq<nat>, rdy: Flags)
    requires g < |s.grp| && l != [] && InTable(s, l) && Distinct(l) && forall t: nat :: t in l ==> !Rises(s, g, t)
    requires Met(s, l[0], s.grp[g].flags)
    ensures var s1 := FlagTaskRdy(s, l[0], rdy);
            && g < |s1.grp| && InTable(s1, l[1..]) && Distinct(l[1..])
            && (forall t: nat :: t in l[1..] ==> !Rises(s1, g, t))
            && s1.cur == s.cur && s1.prioCur == s.prioCur && s1.ready == s.ready && s1.list == s.list
            && |s1.tcb| == |s.tcb| && forall t: nat :: t < |s.tcb| ==> s1.tcb[t].prio == s.tcb[t].prio
  {
    assert l[0] in l && !Rises(s, g, l[0]);
    var s1 := FlagTaskRdy(s, l[0], rdy);
    forall t: nat | t in l[1..]
      ensures !Rises(s1, g, t)
    {
      assert t in l && t != l[0] && s1.tcb[t] == s.tcb[t];
    }
  }

  lemma FlagPostQuiet(s: State, g: nat, flags: Flags, toSet: bool)
    requires Inv(s) && IsBest(s) && g < |s.grp| && !FlagScheds(s, PostFlags(g, flags, toSet))
    ensures InTable(s, s.grp[g].waiters) && Quiet(s, FlagPost(s, g, flags, toSet))
  {
    Grounds(s);
    assert GroupOk(s, g);
    WalkQuiet(SetFlags(s, g, PostedFlags(s.grp[g].flags, flags, toSet)), g, s.grp[g].waiters);
  }

  lemma FlagStepQuiet(s: State, op: FlagOp)
    requires Inv(s) && IsBest(s) && FlagEnabled(s, op) && !FlagScheds(s, op)
    ensures Quiet(s, FlagStep(s, op))
  {
    Grounds(s);
    match op
    case PostFlags(g, flags, toSet) => FlagPostQuiet(s, g, flags, toSet);
    case _ =>
  }

  lemma StepQuiet(s: State, op: Op)
    requires Inv(s) && IsBest(s) && s.dying == None && ByTask(s, op) && !Scheds(s, op) && !LowersItself(s, op)
    ensures Step(s, op).dying == None ==> Quiet(s, Step(s, op))
  {
    Grounds(s);
    match op
    case OnTask(o) => TaskStepQuiet(s, o);
    case OnMutex(o) => MutexStepQuiet(s, o);
    case OnMsg(o) => MsgStepQuiet(s, o);
    case OnFlags(o) => FlagStepQuiet(s, o);
    case EndPend =>
  }

  // ---------------------------------------------------------------- the two ways to be overtaken

  lemma PostLowers(s: State, e: nat)
    requires Inv(s) && IsBest(s) && Owns(s, e, s.cur) && OwnerRaised(s, e) && s.ev[e].waiters == {}
    ensures var pip, low, s' := Pip(s.ev[e].kind.cnt), LowByte(s.ev[e].kind.cnt), MutexPost(s, e);
            && pip < low && s'.cur == s.cur && s'.prioCur == s.prioCur && s'.list == s.list && |s'.tcb| == |s.tcb|
            && s.tcb[s.cur].prio == pip && s'.tcb[s.cur].prio == low && s'.ready == s.ready - {pip} + {low}
            && s'.dying == s.dying
  {
    assert MutexOk(s, e);
  }

  lemma DelLowers(s: State, e: nat)
    requires Inv(s) && IsBest(s) && Owns(s, e, s.cur) && OwnerRaised(s, e) && s.ev[e].waiters == {}
    ensures var pip, low, s' := Pip(s.ev[e].kind.cnt), LowByte(s.ev[e].kind.cnt), MutexDel(s, e, true);
            && pip < low && s'.cur == s.cur && s'.prioCur == s.prioCur && s'.list == s.list && |s'.tcb| == |s.tcb|
            && s.tcb[s.cur].prio == pip && s'.tcb[s.cur].prio == low && s'.ready == s.ready - {pip} + {low}
            && s'.dying == s.dying
  {
    assert MutexOk(s, e);
  }

  /** A ready task ranks between the two priorities of the mutex. */
  ghost predicate SomeoneBetween(s: State, e: nat)
    requires IsMutex(s, e)
  {
    exists q :: q in s.ready && Pip(s.ev[e].kind.cnt) < q < LowByte(s.ev[e].kind.cnt)
  }

  /** A better task is ready when the service returns to its caller. */
  ghost predicate Overtaken(s: State, op: Op)
    requires Inv(s) && Enabled(s, op)
  {
    if Scheds(s, op) then Misses(Step(s, op)) else LowersItself(s, op) && SomeoneBetween(s, op.mutex.e)
  }

  lemma LoweredExact(s: State, op: Op)
    requires Inv(s) && IsBest(s) && s.dying == None && Enabled(s, op) && LowersItself(s, op)
    ensures !Scheds(s, op)
    ensures IsBest(Step(s, op)) <==> !SomeoneBetween(s, op.mutex.e)
    ensures Step(s, op).prioCur == s.prioCur && Step(s, op).cur == s.cur < |Step(s, op).tcb|
    ensures Step(s, op).tcb[s.cur].prio != s.tcb[s.cur].prio
  {
    var e := op.mutex.e;
    Grounds(s);
    if op.mutex.PostMutex? {
      PostLowers(s, e);
      LoweredBest(s, MutexPost(s, e), e);
    } else {
      DelLowers(s, e);
      LoweredBest(s, MutexDel(s, e, true), e);
    }
  }

  lemma LoweredBest(s: State, s': State, e: nat)
    requires IsBest(s) && IsMutex(s, e) && s'.cur == s.cur && s'.list == s.list && |s'.tcb| == |s.tcb|
    requires s.tcb[s.cur].prio == Pip(s.ev[e].kind.cnt) < LowByte(s.ev[e].kind.cnt) == s'.tcb[s.cur].prio
    requires s'.ready == s.ready - {Pip(s.ev[e].kind.cnt)} + {LowByte(s.ev[e].kind.cnt)}
    ensures IsBest(s') <==> !SomeoneBetween(s, e)
  {
    if SomeoneBetween(s, e) {
      var q :| q in s.ready && Pip(s.ev[e].kind.cnt) < q < LowByte(s.ev[e].kind.cnt);
      assert q in s'.ready;
    }
  }

  /** No service returns to its caller while a better task is ready, but in two cases: OS_Sched was
      called and misled, or a raised owner has lowered itself below a ready task. */
  lemma BestAtReturn(s: State, op: Op)
    requires Inv(s) && ByTask(s, op) && (s.dying == None ==> IsBest(s))
    ensures Exec(s, op).dying == None ==> (IsBest(Exec(s, op)) <==> !Overtaken(s, op))
  {
    StepKeepsInv(s, op);
    var s1 := Step(s, op);
    if Scheds(s, op) {
      if s1.dying == None {
        SchedExact(s1);
      }
    } else if LowersItself(s, op) {
      LoweredExact(s, op);
    } else if s1.dying == None {
      StepQuiet(s, op);
      QuietIsBest(s, s1);
    }
  }

  /** A task that goes on because OS_Sched is misled cannot even put itself to sleep: OSTimeDly returns
      at once, and the task runs while it is delayed. */
  lemma MisledGoesOn(s: State, ticks: nat)
    requires Inv(s) && Calling(s) && Misses(s) && ticks > 0
    ensures var s' := Exec(s, OnTask(Delay(ticks)));
            s'.cur == s.cur && s.cur < |s'.tcb| && !Runnable(s'.tcb[s.cur]) && Misses(s')
  {
    StepKeepsInv(s, OnTask(Delay(ticks)));
    LiveTask(s, s.cur);
    var s1 := TimeDly(s, ticks);
    assert s.prioCur in s1.ready && IsLeast(s1.ready, s.prioCur);
    LeastIs(s1.ready, s.prioCur);
  }

  // ---------------------------------------------------------------- when OSPrioCur is right

  /** OSPrioCur is the priority of the current task. */
  ghost predicate Fresh(s: State)
  {
    s.cur < |s.tcb| && s.prioCur == s.tcb[s.cur].prio
  }

  /** No slot goes from one task to another, and there is no switch. */
  ghost predicate SlotsStay(s: State, s': State)
  {
    && s'.cur == s.cur && s'.prioCur == s.prioCur && |s'.prioTbl| == |s.prioTbl|
    && (forall p: nat :: p < |s.prioTbl| && s.prioTbl[p].Tcb? && s'.prioTbl[p].Tcb? ==> s'.prioTbl[p] == s.prioTbl[p])
  }

  lemma {:induction false} ReadyAllStays(s: State, e: nat, msg: int, bit: StatBit)
    requires e < |s.ev|
    ensures SlotsStay(s, ReadyAll(s, e, msg, bit))
    decreases s.ev[e].waiters
  {
    if s.ev[e].waiters != {} && FirstWaiter(s, e) < |s.tcb| {
      ReadyAllStays(EventTaskRdy(s, e, msg, bit), e, msg, bit);
    }
  }

  lemma {:induction false} FlagWalkStays(s: State, g: nat, l: seq<nat>)
    requires g < |s.grp| && InTable(s, l)
    ensures SlotsStay(s, FlagWalk(s, g, l))
    decreases |l|
  {
    if l != [] {
      match s.tcb[l[0]].node
      case None => FlagWalkStays(s, g, l[1..]);
      case Some(nd) =>
        if Satisfied(s.grp[g].flags, nd.flags, nd.wait) {
          FlagWalkStays(FlagTaskRdy(s, l[0], FlagsMet(s.grp[g].flags, nd.flags, nd.wait)), g, l[1..]);
        } else {
          FlagWalkStays(s, g, l[1..]);
        }
    }
  }

  lemma {:induction false} FlagReadyAllStays(s: State, l: seq<nat>)
    requires InTable(s, l)
    ensures SlotsStay(s, FlagReadyAll(s, l))
    decreases |l|
  {
    if l != [] {
      FlagReadyAllStays(FlagTaskRdy(s, l[0], {}), l[1..]);
    }
  }

  lemma ServicesStay(s: State, prio: nat, newp: nat)
    requires TargetInTable(s, prio) && newp < |s.prioTbl|
    ensures SlotsStay(s, TaskSuspend(s, prio)) && SlotsStay(s, TaskResume(s, prio))
            && SlotsStay(s, TimeDlyResume(s, prio))
    ensures SlotsStay(s, DelBegin(s, prio)) && SlotsStay(s, ChangePrio(s, prio, newp))
  {
  }

  lemma TaskStepStays(s: State, op: TaskOp)
    requires Inv(s) && ByTask(s, OnTask(op))
    ensures SlotsStay(s, TaskStep(s, op))
  {
    Grounds(s);
    match op
    case BeginCreate(_) =>
    case TakeFree =>
    case EndCreate => LiveTask(s, s.cur);
    case Delete(prio) => ServicesStay(s, SelfOr(s, prio), 0);
    case EndDelete =>
    case Suspend(prio, _) => ServicesStay(s, SelfOr(s, prio), 0);
    case Resume(prio) => ServicesStay(s, prio, 0);
    case Change(oldp, newp) => ServicesStay(s, SelfOr(s, oldp), newp);
    case Delay(_) =>
    case DelayResume(prio) => ServicesStay(s, prio, 0);
  }

  lemma MutexStepStays(s: State, op: MutexOp)
    requires Inv(s) && MutexEnabled(s, op)
    ensures SlotsStay(s, MutexStep(s, op))
  {
    Grounds(s);
    match op
    case NewMutex(_) =>
    case AcceptMutex(_) =>
    case PendMutex(e, timeout) => PendStays(s, e, timeout);
    case PostMutex(e) => PostStays(s, e);
    case DelMutex(e, always) => DelStays(s, e, always);
  }

  lemma PendStays(s: State, e: nat, timeout: nat)
    requires Inv(s) && IsMutex(s, e) && s.cur < |s.tcb| && s.cur < |s.phase|
    ensures SlotsStay(s, MutexPend(s, e, timeout))
  {
    assert MutexOk(s, e);
    assert SlotsStay(s, Promote(s, e));
  }

  lemma PostStays(s: State, e: nat)
    requires Inv(s) && IsMutex(s, e) && s.cur < |s.tcb|
    ensures SlotsStay(s, MutexPost(s, e))
  {
    assert MutexOk(s, e);
    if Owns(s, e, s.cur) {
      assert SlotsStay(s, Restore(s, e));
      assert SlotsStay(Restore(s, e), HandOff(Restore(s, e), e));
    }
  }

  lemma DelStays(s: State, e: nat, always: bool)
    requires Inv(s) && IsMutex(s, e)
    ensures SlotsStay(s, MutexDel(s, e, always))
  {
    assert MutexOk(s, e);
    if always {
      ReadyAllStays(Lowered(s, e), e, NULL_MSG, MutexBit);
      ReadyAllGentle(Lowered(s, e), e, NULL_MSG, MutexBit);
    }
  }

  lemma MsgStepStays(s: State, op: MsgOp)
    requires Inv(s) && MsgEnabled(s, op)
    ensures SlotsStay(s, MsgStep(s, op))
  {
    Grounds(s);
    match op
    case Broadcast(e, msg, _) => ReadyAllStays(s, e, msg, s.ev[e].kind.bit);
    case DelMsg(e, _) => ReadyAllStays(s, e, NULL_MSG, s.ev[e].kind.bit);
    case _ =>
  }

  lemma FlagStepStays(s: State, op: FlagOp)
    requires Inv(s) && FlagEnabled(s, op)
    ensures SlotsStay(s, FlagStep(s, op))
  {
    Grounds(s);
    match op
    case PostFlags(g, flags, toSet) =>
      FlagWalkStays(SetFlags(s, g, PostedFlags(s.grp[g].flags, flags, toSet)), g, s.grp[g].waiters);
    case DelFlags(g, _) => FlagReadyAllStays(s, s.grp[g].waiters);
    case _ =>
  }

  lemma StepStays(s: State, op: Op)
    requires Inv(s) && ByTask(s, op)
    ensures SlotsStay(s, Step(s, op))
  {
    Grounds(s);
    match op
    case OnTask(o) => TaskStepStays(s, o);
    case OnMutex(o) => MutexStepStays(s, o);
    case OnMsg(o) => MsgStepStays(s, o);
    case OnFlags(o) => FlagStepStays(s, o);
    case EndPend =>
  }

  /** As long as OSPrioCur is right, OS_Sched is not misled. */
  lemma FreshIsNotMisled(s: State, op: Op)
    requires Inv(s) && ByTask(s, op) && Fresh(s) && s.cur in s.list
    ensures !Misses(Step(s, op))
  {
    StepStays(s, op);
    StepKeepsInv(s, op);
    LiveTask(s, s.cur);
    BestPrio(Step(s, op));
  }

  lemma SchedIsFresh(s: State)
    requires Inv(s) && s.dying == None && !Misses(s)
    ensures Fresh(Sched(s))
  {
    BestPrio(s);
  }

  /** And it stays right, except where a raised owner lowers itself without a switch. */
  lemma FreshExact(s: State, op: Op)
    requires Inv(s) && ByTask(s, op) && Fresh(s) && s.cur in s.list && (s.dying == None ==> IsBest(s))
    ensures Exec(s, op).dying == None ==> (Fresh(Exec(s, op)) <==> !LowersItself(s, op))
  {
    var s1 := Step(s, op);
    StepKeepsInv(s, op);
    if Scheds(s, op) {
      FreshIsNotMisled(s, op);
      if s1.dying == None {
        SchedIsFresh(s1);
      }
    } else if LowersItself(s, op) {
      LoweredExact(s, op);
    } else if s1.dying == None {
      StepQuiet(s, op);
    }
  }

  // ---------------------------------------------------------------- whole runs

  /** What happens next: the current task goes through a critical section, or an interrupt comes, whose
      handler calls services before OSIntExit. */
  datatype Event = Call(op: Op) | Interrupt(ops: seq<Op>)

  /** Services that ask nothing of the current task. */
  predicate FromHandler(op: Op)
  {
    match op
    case OnTask(o) => o.TickOne? || o.Tick? || o.Advance? || (o.Suspend? && !o.byTask) || o.Resume?
                      || o.Change? || o.DelayResume?
    case OnMsg(o) => o.Post? || o.Broadcast? || o.Accept? || o.Flush?
    case OnFlags(o) => o.AcceptFlags? || o.PostFlags?
    case _ => false
  }

  ghost predicate Happens(s: State, ev: Event)
    requires Inv(s)
  {
    match ev
    case Call(op) => ByTask(s, op)
    case Interrupt(ops) => Legal(s, ops) && forall i :: 0 <= i < |ops| ==> FromHandler(ops[i])
  }

  ghost function Outcome(s: State, ev: Event): State
    requires Inv(s) && Happens(s, ev)
  {
    match ev
    case Call(op) => Exec(s, op)
    case Interrupt(ops) => Sched(After(s, ops))
  }

  lemma OutcomeKeeps(s: State, ev: Event)
    requires Inv(s) && Happens(s, ev)
    ensures Inv(Outcome(s, ev))
  {
    match ev
    case Call(op) => ExecKeeps(s, op);
    case Interrupt(ops) => AfterKeeps(s, ops); SchedKeeps(After(s, ops));
  }

  ghost predicate OvertakenBy(s: State, ev: Event)
    requires Inv(s) && Happens(s, ev)
  {
    match ev
    case Call(op) => Overtaken(s, op)
    case Interrupt(ops) => Misses(After(s, ops))
  }

  lemma OutcomeExact(s: State, ev: Event)
    requires Inv(s) && Happens(s, ev) && (s.dying == None ==> IsBest(s))
    ensures Outcome(s, ev).dying == None ==> (IsBest(Outcome(s, ev)) <==> !OvertakenBy(s, ev))
  {
    match ev
    case Call(op) => BestAtReturn(s, op);
    case Interrupt(ops) =>
      AfterKeeps(s, ops);
      if After(s, ops).dying == None {
        SchedExact(After(s, ops));
      }
  }

  ghost predicate Goes(s: State, evs: seq<Event>)
    requires Inv(s)
    decreases |evs|
  {
    evs == [] || (Happens(s, evs[0]) && (OutcomeKeeps(s, evs[0]); Goes(Outcome(s, evs[0]), evs[1..])))
  }

  /** Outside the gap of OSTaskDel the best ready task is the current one, all along. */
  ghost predicate AlwaysBest(s: State, evs: seq<Event>)
    requires Inv(s) && Goes(s, evs)
    decreases |evs|
  {
    && (s.dying == None ==> IsBest(s))
    && (evs == [] || (OutcomeKeeps(s, evs[0]); AlwaysBest(Outcome(s, evs[0]), evs[1..])))
  }

  ghost predicate NeverOvertaken(s: State, evs: seq<Event>)
    requires Inv(s) && Goes(s, evs)
    decreases |evs|
  {
    evs == []
    || ((Outcome(s, evs[0]).dying == None ==> !OvertakenBy(s, evs[0]))
        && (OutcomeKeeps(s, evs[0]); NeverOvertaken(Outcome(s, evs[0]), evs[1..])))
  }

  /** Whatever tasks and interrupts do: the best ready task is always the current one exactly when
      OS_Sched is never misled and no owner lowers itself below a ready task. */
  lemma {:induction false} AlwaysBestExact(s: State, evs: seq<Event>)
    requires Inv(s) && Goes(s, evs) && (s.dying == None ==> IsBest(s))
    ensures AlwaysBest(s, evs) <==> NeverOvertaken(s, evs)
    decreases |evs|
  {
    if evs != [] {
      OutcomeKeeps(s, evs[0]);
      OutcomeExact(s, evs[0]);
      var s1 := Outcome(s, evs[0]);
      if s1.dying == None ==> IsBest(s1) {
        AlwaysBestExact(s1, evs[1..]);
      } else {
        assert !AlwaysBest(s1, evs[1..]);
      }
    }
  }

  // ---------------------------------------------------------------- suspending oneself

  /** The caller of OSTaskSuspend suspends itself; it is named by its present priority, or it is a
      raised owner and named by its saved one. */
  lemma SelfNamed(s: State, p: nat)
    requires Inv(s) && Calling(s) && Target(s, p) == Some(s.cur)
    ensures GoesOn(s, p) <==>
              exists e: nat :: Owns(s, e, s.cur) && OwnerRaised(s, e) && p == LowByte(s.ev[e].kind.cnt)
  {
    assert SlotUse(s, p);
    if GoesOn(s, p) {
      var e: nat :| Owns(s, e, s.cur) && LowByte(s.ev[e].kind.cnt) == p;
      assert MutexOk(s, e) && OwnerRaised(s, e);
    }
    forall e: nat | Owns(s, e, s.cur) && OwnerRaised(s, e)
      ensures s.tcb[s.cur].prio < LowByte(s.ev[e].kind.cnt)
    {
      assert MutexOk(s, e);
    }
  }

  /** OSTaskSuspend by the task that is suspended. */
  ghost function SuspendsItself(s: State, prio: nat): State
    requires TargetInTable(s, SelfOr(s, prio))
  {
    var s1 := TaskSuspend(s, SelfOr(s, prio));
    if TaskScheds(s, Suspend(prio, true)) then Sched(s1) else s1
  }

  /** A caller that suspends itself stops exactly when it is named by OS_PRIO_SELF or its present
      priority; otherwise it goes on, suspended. */
  lemma SuspendStopsExact(s: State, prio: nat)
    requires Inv(s) && Calling(s) && Fresh(s) && prio != IDLE_PRIO && Target(s, SelfOr(s, prio)) == Some(s.cur)
    ensures TargetInTable(s, SelfOr(s, prio))
    ensures SuspendsItself(s, prio).cur != s.cur <==> !GoesOn(s, SelfOr(s, prio))
    ensures !Runnable(SuspendsItself(s, prio).tcb[s.cur])
  {
    var p := SelfOr(s, prio);
    TargetIsLive(s, p);
    SelfPrio(s, prio);
    LiveTask(s, s.cur);
    var s1 := TaskSuspend(s, p);
    SuspendKeeps(s, p);
    assert SuspendBit in s1.tcb[s.cur].stat;
    SomeOtherReady(s1, s.cur);
  }

  lemma SomeOtherReady(s: State, t: nat)
    requires CoreInv(s) && t in s.list && t < |s.tcb| && !Runnable(s.tcb[t]) && s.dying == None
    ensures s.ready != {} && Target(s, Least(s.ready)).Some? && Target(s, Least(s.ready)).value != t
    ensures Least(s.ready) != s.tcb[t].prio
  {
    IdleIsLive(s);
    LiveTask(s, Idle(s));
    LiveTask(s, t);
    assert s.tcb[Idle(s)].prio in s.ready;
    var p := Least(s.ready);
    assert ReadyOk(s, p) && SlotOk(s, p);
  }

  /** What comes of it: the suspended owner posts its mutex, and OSMutex_RdyAtPrio puts it into the
      ready table. */
  lemma SuspendedOwnerPosts(s: State, e: nat)
    requires Inv(s) && Calling(s) && Owns(s, e, s.cur) && OwnerRaised(s, e)
    ensures var low := LowByte(s.ev[e].kind.cnt);
            && Target(s, low) == Some(s.cur) && GoesOn(s, low) && TargetInTable(s, low)
            && var s1 := TaskSuspend(s, low);
               && CoreInv(s1) && IsMutex(s1, e) && s1.cur == s.cur < |s1.tcb| && !Runnable(s1.tcb[s.cur])
               && !CoreInv(MutexPost(s1, e))
  {
    assert MutexOk(s, e);
    var low := LowByte(s.ev[e].kind.cnt);
    SuspendKeeps(s, low);
    var s1 := TaskSuspend(s, low);
    assert SuspendBit in s1.tcb[s.cur].stat && s1.tcb[s.cur].prio == s.tcb[s.cur].prio;
    PostReadies(s1, e);
  }

  /** OSMutexPost makes a raised owner ready, whatever its status. */
  lemma PostReadies(s: State, e: nat)
    requires CoreInv(s) && Owns(s, e, s.cur) && OwnerRaised(s, e) && s.cur in s.list && s.dying == None
    requires !Runnable(s.tcb[s.cur]) && LowByte(s.ev[e].kind.cnt) < N_PRIO && s.tcb[s.cur].event == None
    requires s.prioTbl[LowByte(s.ev[e].kind.cnt)] == Tcb(s.cur) && Pip(s.ev[e].kind.cnt) < LowByte(s.ev[e].kind.cnt)
    ensures !CoreInv(MutexPost(s, e))
  {
    LiveTask(s, s.cur);
    RestoreReadies(s, e);
    HandOffLeaves(s, e);
    var s' := MutexPost(s, e);
    if CoreInv(s') {
      LiveTask(s', s.cur);
    }
  }

  lemma RestoreReadies(s: State, e: nat)
    requires Owns(s, e, s.cur) && OwnerRaised(s, e) && |s.prioTbl| == N_PRIO
    requires Pip(s.ev[e].kind.cnt) < LowByte(s.ev[e].kind.cnt) < N_PRIO
    ensures var s1 := Restore(s, e);
            && s1.cur == s.cur && s1.list == s.list && s1.dying == s.dying && s1.ev == s.ev && |s1.tcb| == |s.tcb|
            && s1.tcb == s.tcb[s.cur := s.tcb[s.cur].(prio := LowByte(s.ev[e].kind.cnt))]
            && LowByte(s.ev[e].kind.cnt) in s1.ready
            && s1.prioTbl == s.prioTbl[LowByte(s.ev[e].kind.cnt) := Tcb(s.cur)][Pip(s.ev[e].kind.cnt) := Reserved]
  {
  }

  /** The waiter to which the mutex goes is another task. */
  lemma HandOffLeaves(s: State, e: nat)
    requires CoreInv(s) && Owns(s, e, s.cur) && OwnerRaised(s, e) && s.cur in s.list && s.tcb[s.cur].event == None
    requires Pip(s.ev[e].kind.cnt) < LowByte(s.ev[e].kind.cnt) < N_PRIO && s.dying == None
    requires s.prioTbl[LowByte(s.ev[e].kind.cnt)] == Tcb(s.cur)
    ensures var s' := MutexPost(s, e);
            && s'.cur == s.cur && s'.list == s.list && s'.dying == None && |s'.tcb| == |s.tcb|
            && s'.tcb[s.cur] == s.tcb[s.cur].(prio := LowByte(s.ev[e].kind.cnt)) && s'.tcb[s.cur].prio in s'.ready
  {
    LiveTask(s, s.cur);
    RestoreReadies(s, e);
    if s.ev[e].waiters != {} {
      assert WaiterOk(s, e, Least(s.ev[e].waiters));
    }
  }
}
