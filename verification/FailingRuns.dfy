/** Runs from start-up to the states in which a service does harm, so that what MutexInvariant,
    KernelInvariant, TickBatch, FlagFlow and TcbAccounts say of such states is said of states that
    occur. Every switch in these runs is to the task at the best ready priority, and every tick
    visits each task. */
module FailingRuns {
  import opened IndexLists
  import opened KernelState
  import opened KernelInvariant
  import opened MutexInvariant
  import opened TickBatch
  import opened KernelRuns
  import opened FlagFlow
  import opened TcbAccounts
  import opened SlotAccounts
  import opened Bystanders
  import opened MutexOwnership
  import opened Scheduling

  // ---------------------------------------------------------------- single steps

  ghost predicate Sized(s: State)
  {
    Reachable(s) && |s.prioTbl| == N_PRIO && |s.phase| == |s.tcb| && s.list != []
  }

  /** A reachable state in which the start-up code or a task runs. */
  ghost predicate Runs(s: State, cur: nat)
  {
    Sized(s) && Running(s) && s.cur == cur
  }

  lemma Start(tasks: nat, events: nat, groups: nat)
    requires tasks > 0
    ensures Runs(Boot(tasks, events, groups), 0)
  {
    var s := Boot(tasks, events, groups);
    BootInv(tasks, events, groups);
    assert Legal(s, []) && After(s, []) == s;
    assert IsRun(tasks, events, groups, [], s);
  }

  lemma ReserveStep(s: State, prio: nat)
    requires Sized(s) && Running(s) && prio < N_PRIO
    ensures Sized(CreateBegin(s, prio))
  {
    ReachableInv(s);
    ReachableStep(s, OnTask(BeginCreate(prio)));
  }

  lemma TakeStep(s: State)
    requires Sized(s) && Returning(s) && s.phase[s.cur].InCreate? && s.phase[s.cur].taken.NotYet?
    ensures Sized(TakeTcb(s))
    ensures s.freeTcbs != [] ==> s.freeTcbs[0] < |s.tcb| && s.freeTcbs[0] !in s.list
  {
    ReachableInv(s);
    ReachableStep(s, OnTask(TakeFree));
    if s.freeTcbs != [] {
      assert s.freeTcbs[0] in s.freeTcbs;
    }
  }

  lemma LinkStep(s: State, t: nat)
    requires Sized(s) && Returning(s) && s.phase[s.cur].InCreate? && s.phase[s.cur].taken == Got(t)
    ensures s.phase[s.cur].prio < N_PRIO && t < |s.tcb| && Sized(CreateEnd(s))
  {
    ReachableInv(s);
    LiveTask(s, s.cur);
    ReachableStep(s, OnTask(EndCreate));
  }

  lemma SwitchStep(s: State, t: nat)
    requires Sized(s) && s.dying == None && t in s.list && t < |s.tcb| && Runnable(s.tcb[t])
    requires IsLeast(s.ready, s.tcb[t].prio) && s.tcb[t].prio != s.prioCur
    ensures Sized(SwitchTo(s, t)) && Sched(s) == SwitchTo(s, t)
  {
    ReachableInv(s);
    ReachableStep(s, OnTask(Switch(t)));
    LiveTask(s, t);
    LeastIs(s.ready, s.tcb[t].prio);
  }

  lemma TickStep(s: State, t: nat)
    requires Sized(s) && t in s.list && t < |s.tcb|
    ensures Sized(TickTask(s, t))
  {
    ReachableInv(s);
    ReachableStep(s, OnTask(TickOne(t)));
  }

  lemma DelayStep(s: State, ticks: nat)
    requires Sized(s) && Calling(s)
    ensures Sized(TimeDly(s, ticks))
  {
    ReachableInv(s);
    ReachableStep(s, OnTask(Delay(ticks)));
  }

  lemma MutexStepTo(s: State, op: MutexOp)
    requires Sized(s) && MutexEnabled(s, op)
    ensures CoreInv(s) && Sized(MutexStep(s, op))
  {
    ReachableInv(s);
    ReachableStep(s, OnMutex(op));
  }

  lemma FlagStepTo(s: State, op: FlagOp)
    requires Sized(s) && FlagEnabled(s, op)
    ensures CoreInv(s) && Sized(FlagStep(s, op))
  {
    ReachableInv(s);
    ReachableStep(s, OnFlags(op));
  }

  /** OSTaskCreate with nothing in between, by the start-up code. */
  ghost function Created(s: State, t: nat, prio: nat): State
    requires t < |s.tcb| && t < |s.phase| && prio < |s.prioTbl|
  {
    s.(tcb := s.tcb[t := NewTask(s.tcb[t], prio)], phase := s.phase[t := User], list := [t] + s.list,
    freeTcbs := if s.freeTcbs == [] then [] else s.freeTcbs[1..],
    prioTbl := s.prioTbl[prio := Tcb(t)], ready := s.ready + {prio})
  }

  lemma Create(s: State, t: nat, prio: nat)
    requires Runs(s, s.cur) && prio < N_PRIO && s.prioTbl[prio].Empty? && s.freeTcbs != [] && t == s.freeTcbs[0]
             && s.away == {}
    ensures t < |s.tcb| && t !in s.list && Runs(Created(s, t, prio), s.cur)
  {
    var s1 := CreateBegin(s, prio);
    ReserveStep(s, prio);
    var s2 := TakeTcb(s1);
    TakeStep(s1);
    LinkStep(s2, t);
    assert s.phase[s.cur := InCreate(prio, NotYet)][s.cur := InCreate(prio, Got(t))][s.cur := User] == s.phase;
    assert s.prioTbl[prio := Reserved][prio := Tcb(t)] == s.prioTbl[prio := Tcb(t)];
    assert s.away + {t} - {t} == s.away;
    assert CreateEnd(s2) == Created(s, t, prio);
  }

  /** Two tasks and the idle task, which is running. */
  ghost function OneTask(events: nat, groups: nat): State
  {
    Created(Boot(2, events, groups), 1, 10)
  }

  lemma OneTaskRuns(events: nat, groups: nat)
    ensures var s := OneTask(events, groups);
            && Runs(s, 0) && s.list == [1, 0] && |s.tcb| == 2
            && Runs(SwitchTo(s, 1), 1) && Calling(SwitchTo(s, 1)) && s.tcb[1].stat == {} && s.tcb[1].prio == 10
  {
    var s0 := Boot(2, events, groups);
    Start(2, events, groups);
    assert s0.freeTcbs == [1] && s0.list == [0];
    Create(s0, 1, 10);
    SwitchStep(OneTask(events, groups), 1);
  }

  // ---------------------------------------------------------------- the longest delay

  /** OSTimeTicks(0) returns 0 although a task sleeps for 65535 ticks. */
  lemma HiddenDelayIsReachable() returns (s: State, t: nat)
    ensures Reachable(s) && InTable(s, s.list) && Next(s, s.list, 0) == 0
    ensures t in s.list && t < |s.tcb| && s.tcb[t].dly == MAX_DLY && s.tcb[t].prio != IDLE_PRIO
  {
    OneTaskRuns(0, 0);
    var s1 := SwitchTo(OneTask(0, 0), 1);
    DelayStep(s1, MAX_DLY);
    s, t := TimeDly(s1, MAX_DLY), 1;
    LongestDelayHidden(s, 1);
    NextAlone(s);
  }

  lemma NextAlone(s: State)
    requires s.list == [1, 0] && |s.tcb| == 2 && s.tcb[1].prio != IDLE_PRIO && s.tcb[0].prio == IDLE_PRIO
    ensures InTable(s, [1, 0]) && InTable(s, [1]) && Next(s, [1, 0], 0) == Next(s, [1], 0)
  {
    assert [1, 0][1..] == [0] && [1][1..] == [];
  }

  // ---------------------------------------------------------------- the gap of OSTaskDel

  /** An interrupt suspends the task that is being deleted; resuming it would make it ready just before
      its TCB is freed. */
  lemma DyingResumedIsReachable() returns (s: State, prio: nat)
    ensures Reachable(s) && ResumesDying(s, prio) && TargetInTable(s, prio) && !CoreInv(TaskResume(s, prio))
  {
    OneTaskRuns(0, 0);
    var s1 := OneTask(0, 0);
    DeleteStep(s1, 10);
    var s2 := DelBegin(s1, 10);
    SuspendStep(s2, 10);
    s, prio := TaskSuspend(s2, 10), 10;
    ReachableInv(s);
    TaskResumeExact(s, prio);
  }

  lemma DeleteStep(s: State, prio: nat)
    requires Sized(s) && Running(s) && prio < IDLE_PRIO && TargetInTable(s, prio)
             && forall e: nat, t: nat :: !Owns(s, e, t)
    ensures Sized(DelBegin(s, prio))
  {
    ReachableInv(s);
    ReachableStep(s, OnTask(Delete(prio)));
  }

  lemma SuspendStep(s: State, prio: nat)
    requires Sized(s) && prio < IDLE_PRIO && TargetInTable(s, prio)
    ensures Sized(TaskSuspend(s, prio))
  {
    ReachableInv(s);
    ReachableStep(s, OnTask(Suspend(prio, false)));
  }

  // ---------------------------------------------------------------- the timed-out window

  /** The task has made itself a queue. */
  ghost function WithQueue(): State
    ensures WithQueue() == SwitchTo(OneTask(1, 0), 1).(ev := [Event(Messages(QueueBit, 1, []), {})], freeEvs := [])
  {
    MsgCreate(SwitchTo(OneTask(1, 0), 1), QueueBit, 1, [])
  }

  lemma QueueRuns()
    ensures var s := WithQueue();
            && Sized(s) && Calling(s) && s.cur == 1 && s.list == [1, 0] && |s.tcb| == 2 && s.tcb[1].stat == {}
            && s.tcb[1].prio == 10
  {
    OneTaskRuns(1, 0);
    var s1 := SwitchTo(OneTask(1, 0), 1);
    assert s1.freeEvs == [0];
    MsgStepTo(s1, NewMsg(QueueBit, 1, []));
    assert MsgStep(s1, NewMsg(QueueBit, 1, [])) == WithQueue();
  }

  /** It waits on the queue, with a timeout of one tick. */
  lemma QueuePends()
    ensures var s := WithQueue(); |s.tcb| == 2 && |s.phase| == 2 && s.tcb[1].prio == 10 && Sized(Block(s, 1, 0, QueueBit, 1))
    ensures Block(WithQueue(), 1, 0, QueueBit, 1).tcb[1].stat == {QueueBit}
  {
    QueueRuns();
    var s := WithQueue();
    assert forall e: nat, t: nat :: !Owns(s, e, t);
    MsgStepTo(s, Pend(0, 1));
    assert MsgStep(s, Pend(0, 1)) == Block(s, 1, 0, QueueBit, 1);
  }

  /** A task times out on a queue and has not run since: OSTaskChangePrio would leave its old priority
      in the wait list with no task behind it. */
  lemma WindowIsReachable() returns (s: State)
    ensures Reachable(s) && |s.prioTbl| == N_PRIO && s.prioTbl[20].Empty?
    ensures Target(s, 10).Some? && TargetInTable(s, 10) && InWindow(s.tcb[Target(s, 10).value])
    ensures !CoreInv(ChangePrio(s, 10, 20))
  {
    QueueRuns();
    QueuePends();
    var s1 := Block(WithQueue(), 1, 0, QueueBit, 1);
    TickStep(s1, 1);
    s := EndDelay(s1, 1);
    assert s == TickTask(s1, 1);
    assert {QueueBit} * PEND_ANY == {QueueBit} && {QueueBit} - PEND_ANY == {};
    WindowBreaks(s);
  }

  lemma WindowBreaks(s: State)
    requires Sized(s) && s.prioTbl[10] == Tcb(1) && s.prioTbl[20].Empty? && |s.tcb| > 1 && s.tcb[1].prio == 10
             && InWindow(s.tcb[1])
    requires s.dying == None
    ensures !CoreInv(ChangePrio(s, 10, 20))
  {
    ReachableInv(s);
    StaleWaiter(s, 10, 20);
  }

  lemma MsgStepTo(s: State, op: MsgOp)
    requires Sized(s) && MsgEnabled(s, op)
    ensures CoreInv(s) && Sized(MsgStep(s, op))
  {
    ReachableInv(s);
    ReachableStep(s, OnMsg(op));
  }

  // ---------------------------------------------------------------- a raised owner

  /** Task 1, which is or will be the owner, task 2, its rival at priority 10, and the idle task. */
  ghost predicate Pair(s: State)
  {
    && Sized(s) && s.list == [2, 1, 0] && |s.tcb| == 4 && |s.phase| == 4 && s.dying == None
    && s.phase[0] == s.phase[2] == User && s.tcb[1].stat == {} && s.tcb[2].stat == {} && s.tcb[2].prio == 10
  }

  /** There is a TCB left, and there are priorities left below and above all of theirs. */
  ghost predicate Room(s: State)
  {
    && s.freeTcbs == [3] && s.away == {}
    && |s.prioTbl| == N_PRIO && s.prioTbl[3].Empty? && s.prioTbl[30].Empty?
  }

  /** The start-up code has created them. */
  ghost predicate JustCreated(s: State)
  {
    && Pair(s) && Runs(s, 0) && s.phase[1] == User && s.ready == {IDLE_PRIO, 20, 10}
    && s.tcb[1] == NewTask(CLEARED_TCB, 20) && s.tcb[2] == NewTask(CLEARED_TCB, 10)
    && s.prioTbl[20] == Tcb(1) && Room(s) && s.prioCur == 0
  }

  lemma OwnerCreated()
    ensures var s := Created(Boot(4, 1, 0), 1, 20);
            && Runs(s, 0) && s.list == [1, 0] && |s.tcb| == 4 && s.phase == [User, User, User, User]
            && s.freeTcbs == [2, 3] && s.away == {} && s.ready == {IDLE_PRIO, 20} && s.dying == None
            && s.prioTbl == Boot(4, 1, 0).prioTbl[20 := Tcb(1)] && s.ev == [Event(Unused, {})] && s.freeEvs == [0]
            && s.tcb[1] == NewTask(CLEARED_TCB, 20) && s.tcb[2] == CLEARED_TCB
  {
    var s0 := Boot(4, 1, 0);
    Start(4, 1, 0);
    assert s0.freeTcbs == [1, 2, 3] && s0.list == [0] && s0.ready == {IDLE_PRIO};
    Create(s0, 1, 20);
  }

  lemma PairStarts() returns (s: State)
    ensures JustCreated(s) && s.prioTbl[5].Empty? && s.ev == [Event(Unused, {})] && s.freeEvs == [0]
  {
    OwnerCreated();
    var s1 := Created(Boot(4, 1, 0), 1, 20);
    assert s1.prioTbl[10].Empty? && s1.prioTbl[5].Empty? && s1.prioTbl[30].Empty? && s1.prioTbl[3].Empty?;
    Create(s1, 2, 10);
    s := Created(s1, 2, 10);
    assert s.list == [2, 1, 0] && s.ready == {IDLE_PRIO, 20, 10} && s.phase == [User, User, User, User];
  }

  /** They compete for a mutex with inheritance priority 5. */
  lemma MutexMade() returns (s: State)
    ensures JustCreated(s) && s.ev == [Event(Mutex(256 * 5 + 255, None), {})]
  {
    var s0 := PairStarts();
    s := MutexCreate(s0, 5);
    assert s0.ev[0 := Event(Mutex(256 * 5 + 255, None), {})] == [Event(Mutex(256 * 5 + 255, None), {})];
    assert s == s0.(ev := [Event(Mutex(256 * 5 + 255, None), {})], freeEvs := [], prioTbl := s0.prioTbl[5 := Reserved]);
    MutexStepTo(s0, NewMutex(5));
    assert MutexStep(s0, NewMutex(5)) == s;
  }

  /** Multitasking starts; the rival runs first, and delays itself. */
  lemma RivalSleeps(s: State) returns (s': State)
    requires JustCreated(s)
    ensures Pair(s') && s' == s.(cur := 1, prioCur := 20, tcb := s.tcb[2 := s.tcb[2].(dly := 1)], ready := {IDLE_PRIO, 20})
  {
    SwitchStep(s, 2);
    var s1 := SwitchTo(s, 2);
    DelayStep(s1, 1);
    s' := SwitchTo(TimeDly(s1, 1), 1);
    assert s.ready - {10} == {IDLE_PRIO, 20};
    SwitchStep(TimeDly(s1, 1), 1);
  }

  /** A tick wakes the rival, and it runs. */
  lemma RivalWakes(s: State) returns (s': State)
    requires Pair(s) && s.prioCur != 10 && s.tcb[2].dly == 1 && s.tcb[1].dly != 1 && forall q :: q in s.ready ==> q > 10
    ensures Pair(s')
    ensures s' == s.(cur := 2, prioCur := 10, ready := s.ready + {10},
                     tcb := s.tcb[2 := s.tcb[2].(dly := 0, pendTO := false)]
                            [1 := s.tcb[1].(dly := if s.tcb[1].dly == 0 then 0 else s.tcb[1].dly - 1)])
  {
    TickStep(s, 2);
    var s1 := TickTask(s, 2);
    TickStep(s1, 1);
    var s2 := TickTask(s1, 1);
    assert s1 == s.(ready := s.ready + {10}, tcb := s.tcb[2 := s.tcb[2].(dly := 0, pendTO := false)]);
    SwitchStep(s2, 2);
    s' := SwitchTo(s2, 2);
    if s1.tcb[1].dly == 0 {
      assert s1.tcb == s1.tcb[1 := s1.tcb[1]];
    }
  }

  /** The owner has the mutex and runs; the rival sleeps. */
  ghost predicate Owned(s: State)
  {
    && Pair(s) && Room(s) && s.cur == 1 && s.prioCur == 20 && s.phase[1] == User && s.ready == {IDLE_PRIO, 20}
    && s.ev == [Event(Mutex(256 * 5 + 20, Some(1)), {})]
    && s.tcb[1].prio == 20 && s.tcb[1].dly == 0 && s.tcb[2].dly == 1
  }

  lemma OwnerAccepts() returns (s: State)
    ensures Owned(s)
  {
    var s0 := MutexMade();
    var s1 := RivalSleeps(s0);
    assert Pip(256 * 5 + 255) == 5 && LowByte(256 * 5 + 255) == AVAILABLE && WithLow(256 * 5 + 255, 20) == 256 * 5 + 20;
    assert forall e: nat, t: nat :: !Owns(s1, e, t);
    MutexStepTo(s1, AcceptMutex(0));
    s := Acquire(s1, 0);
    assert MutexStep(s1, AcceptMutex(0)) == s;
    assert s1.ev[0 := Event(Mutex(256 * 5 + 20, Some(1)), {})] == [Event(Mutex(256 * 5 + 20, Some(1)), {})];
  }

  lemma RivalPends(s: State, timeout: nat)
    requires Pair(s) && s.cur == 2 && s.tcb[2].dly == 0 && s.ev == [Event(Mutex(256 * 5 + 20, Some(1)), {})]
    ensures Inv(s) && MayWait(s, 2) && Pip(s.ev[0].kind.cnt) == 5 && LowByte(s.ev[0].kind.cnt) == 20
    ensures Sized(MutexPend(s, 0, timeout))
  {
    assert Pip(256 * 5 + 20) == 5 && LowByte(256 * 5 + 20) == 20;
    assert forall e: nat :: Owns(s, e, 2) ==> e == 0;
    MutexStepTo(s, PendMutex(0, timeout));
    assert MutexStep(s, PendMutex(0, timeout)) == MutexPend(s, 0, timeout);
    ReachableInv(s);
  }

  /** The owner delays itself and is raised meanwhile: OSMutexDel with OS_DEL_ALWAYS would put it into
      the ready table. */
  lemma UnsafeAlwaysIsReachable() returns (s: State)
    ensures Reachable(s) && IsMutex(s, 0) && !DelSafe(s, 0, true) && !CoreInv(MutexDel(s, 0, true))
  {
    var s1 := OwnerAccepts();
    DelayStep(s1, 10);
    var s2 := TimeDly(s1, 10);
    assert s2.ready == {IDLE_PRIO};
    var s3 := RivalWakes(s2);
    RivalPends(s3, 0);
    s := MutexPend(s3, 0, 0);
    PendRaises(s3, 0, 0);
    StillDelayed(s3);
    ReachableInv(s);
    MutexDelExact(s, 0, true);
  }

  lemma StillDelayed(s: State)
    requires IsMutex(s, 0) && |s.tcb| == 4 && |s.phase| == 4 && s.cur == 2 && s.ev[0].kind.owner == Some(1)
             && s.tcb[1].dly == 9
    ensures var s' := MutexPend(s, 0, 0); |s'.tcb| == 4 && s'.tcb[1].dly == 9 && s'.ev[0].kind.owner != None
  {
  }

  /** The rival has raised the owner, which runs, and its timeout is about to fire. */
  ghost predicate Raised(s: State)
  {
    && Sized(s) && s.list == [2, 1, 0] && |s.tcb| == 4 && |s.phase| == 4 && s.dying == None && s.cur == 1
    && s.prioCur == 5
    && Room(s) && s.ev == [Event(Mutex(256 * 5 + 20, Some(1)), {10})] && s.phase[2] == InEvent(0, MutexBit)
    && s.phase[0] == User && s.phase[1] == User && s.tcb[1].prio == 5 && Runnable(s.tcb[1]) && s.ready == {IDLE_PRIO, 5}
    && SoleWaiter(s, 0, 2) && s.tcb[2].prio == 10 && s.tcb[2].stat == {MutexBit} && s.tcb[2].dly == 1
  }

  lemma OwnerRises() returns (s: State)
    ensures Raised(s)
  {
    var s1 := OwnerAccepts();
    var s2 := RivalWakes(s1);
    RivalPends(s2, 1);
    PendRaises(s2, 0, 1);
    var s3 := MutexPend(s2, 0, 1);
    PromotesTo5(s2);
    SwitchStep(s3, 1);
    s := SwitchTo(s3, 1);
    assert SoleWaiter(s, 0, 2);
  }

  lemma PromotesTo5(s: State)
    requires Pair(s) && s.cur == 2 && s.ev == [Event(Mutex(256 * 5 + 20, Some(1)), {})]
    requires s.phase[1] == User && s.ready == {IDLE_PRIO, 20, 10} && s.tcb[1].prio == 20 && s.tcb[1].dly == 0
    ensures var s' := MutexPend(s, 0, 1);
            && s'.list == s.list && |s'.tcb| == 4 && |s'.phase| == 4 && s'.dying == None
            && s'.phase[0] == s.phase[0] && s'.phase[1] == User
            && s'.tcb[1] == s.tcb[1].(prio := 5) && s'.ready == {IDLE_PRIO, 5} && s'.tcb[2].prio == 10
            && s'.prioCur == s.prioCur && (Room(s) ==> Room(s'))
            && s'.ev == [Event(Mutex(256 * 5 + 20, Some(1)), {10})]
  {
    assert Pip(256 * 5 + 20) == 5 && LowByte(256 * 5 + 20) == 20;
    var s1 := Promote(s, 0);
    assert s1.ev == s.ev && s1.tcb[2] == s.tcb[2] && {} + {10} == {10};
    assert MutexPend(s, 0, 1).ev[0] == Event(Mutex(256 * 5 + 20, Some(1)), {10});
  }

  /** Timeout of the rival: nobody waits any more, and the owner stays raised. */
  lemma RivalTimesOut(s: State) returns (s': State)
    requires Raised(s)
    ensures Sized(s') && s'.list == [2, 1, 0] && s'.dying == None && s'.cur == 2 && SoleWaiter(s', 0, 2)
    ensures Runnable(s'.tcb[2]) && s'.tcb[2].pendTO
    ensures s'.ready == {IDLE_PRIO, 10} && s'.prioCur == 10 && |s'.tcb| == 4
    ensures s'.tcb[1] == s.tcb[1].(dly := 1) && s'.tcb[2] == DelayOver(s.tcb[2])
    ensures s'.ev == s.ev && s'.phase == s.phase && Room(s')
  {
    TickStep(s, 2);
    var s1 := TickTask(s, 2);
    assert {MutexBit} * PEND_ANY == {MutexBit} && {MutexBit} - PEND_ANY == {};
    assert s1.ready == {IDLE_PRIO, 5, 10};
    TickStep(s1, 1);
    DelayStep(s1, 1);
    var s2 := TimeDly(s1, 1);
    assert s2.ready == {IDLE_PRIO, 10};
    SwitchStep(s2, 2);
    s' := SwitchTo(s2, 2);
  }

  /** The rival gives up after a tick, while the owner delays itself at the inheritance priority:
      OSMutexDel with OS_DEL_NO_PEND would empty the slot at which the owner is found. */
  lemma UnsafeNoPendIsReachable() returns (s: State)
    ensures Reachable(s) && IsMutex(s, 0) && s.ev[0].waiters == {} && !DelSafe(s, 0, false)
            && !CoreInv(MutexDel(s, 0, false))
  {
    var s1 := OwnerRises();
    var s2 := RivalTimesOut(s1);
    s := Resumes(s2);
  }

  lemma Resumes(s2: State) returns (s: State)
    requires Sized(s2) && s2.dying == None && s2.cur == 2 && SoleWaiter(s2, 0, 2) && Runnable(s2.tcb[2])
             && s2.tcb[2].pendTO
    ensures Reachable(s) && IsMutex(s, 0) && s.ev[0].waiters == {} && !DelSafe(s, 0, false)
            && !CoreInv(MutexDel(s, 0, false))
  {
    s := PendResume(s2);
    ReachableInv(s2);
    TimedOutResumes(s2, 0);
    ReachableStep(s2, EndPend);
    MutexDelExact(s, 0, false);
  }

  // ---------------------------------------------------------------- owners and waiters that others touch

  /** The owner is found at its priority, and a service for that priority is called. */
  lemma OwnerDeletedIsReachable() returns (s: State)
    ensures Reachable(s) && s.dying == None && Deletes(s, 20) && TargetInTable(s, 20)
    ensures !Inv(DelBegin(s, 20)) && !Inv(TaskDel(s, 20))
  {
    s := OwnerAccepts();
    OwnerFound(s);
    TaskDelExact(s, 20);
  }

  lemma OwnerFound(s: State)
    requires Owned(s)
    ensures Inv(s) && Target(s, 20) == Some(1) && IsOwner(s, 1)
  {
    ReachableInv(s);
    LiveTask(s, 1);
    assert Owns(s, 0, 1);
  }

  lemma OwnerMovedIsReachable() returns (s: State)
    ensures Reachable(s) && |s.prioTbl| == N_PRIO && s.prioTbl[30].Empty? && Target(s, 20).Some? && TargetInTable(s, 20)
    ensures !Inv(ChangePrio(s, 20, 30))
  {
    s := OwnerAccepts();
    OwnerFound(s);
    ChangePrioExact(s, 20, 30);
  }

  /** The waiter is moved above the inheritance priority. */
  lemma WaiterMovedIsReachable() returns (s: State)
    ensures Reachable(s) && |s.prioTbl| == N_PRIO && s.prioTbl[3].Empty? && Target(s, 10).Some? && TargetInTable(s, 10)
    ensures !Inv(ChangePrio(s, 10, 3))
  {
    s := OwnerRises();
    ReachableInv(s);
    LiveTask(s, 2);
    assert WaiterOk(s, 0, 10) && Pip(256 * 5 + 20) == 5;
    ChangePrioExact(s, 10, 3);
  }

  /** The mutex is deleted while its waiter is between the halves of its pend. */
  lemma AwardBrokenIsReachable() returns (s: State)
    ensures Reachable(s) && MutexEnabled(s, DelMutex(0, true)) && !Polite(s, OnMutex(DelMutex(0, true)))
    ensures Awarded(MutexDel(s, 0, true), 2, 0) && !Owns(MutexDel(s, 0, true), 0, 2)
  {
    s := OwnerRises();
    ReachableInv(s);
    assert 2 in s.list && 1 in s.list;
    DelBreaksAward(s, 0, true, 2);
  }

  /** The raised owner suspends itself by its saved priority, goes on, and posts the mutex. */
  lemma SuspendedOwnerIsReachable() returns (s: State)
    ensures Reachable(s) && Inv(s) && Calling(s) && IsMutex(s, 0) && GoesOn(s, 20) && TargetInTable(s, 20)
    ensures IsMutex(TaskSuspend(s, 20), 0) && s.cur < |TaskSuspend(s, 20).tcb|
    ensures !CoreInv(MutexPost(TaskSuspend(s, 20), 0))
  {
    s := OwnerRises();
    ReachableInv(s);
    assert LowByte(256 * 5 + 20) == 20 && Owns(s, 0, 1) && 1 in s.list;
    SuspendedOwnerPosts(s, 0);
  }

  // ---------------------------------------------------------------- a raised owner without waiters

  /** The rival has given up and sleeps for one more tick; the owner, still raised, runs. */
  ghost predicate Alone(s: State)
  {
    && Pair(s) && Room(s) && s.cur == 1 && s.prioCur == 5 && s.phase[1] == User && s.ready == {IDLE_PRIO, 5}
    && s.tcb[1].prio == 5 && s.tcb[1].dly == 0 && s.tcb[2].dly == 1 && s.ev == [Event(Mutex(256 * 5 + 20, Some(1)), {})]
  }

  lemma RivalGaveUp() returns (s: State)
    ensures Pair(s) && Room(s) && s.cur == 2 && s.prioCur == 10 && s.phase[1] == User && s.ready == {IDLE_PRIO, 10}
    ensures s.tcb[1].prio == 5 && s.tcb[1].dly == 1 && s.tcb[2].dly == 0
    ensures s.ev == [Event(Mutex(256 * 5 + 20, Some(1)), {})]
  {
    var s1 := OwnerRises();
    var s2 := RivalTimesOut(s1);
    s := RivalReturns(s2);
  }

  /** The second half of the rival's pend. */
  lemma RivalReturns(s: State) returns (s': State)
    requires Sized(s) && s.list == [2, 1, 0] && |s.tcb| == 4 && |s.phase| == 4 && s.dying == None && s.cur == 2
    requires s.phase[2] == InEvent(0, MutexBit) && s.tcb[2].pendTO && Runnable(s.tcb[2]) && s.tcb[2].prio == 10
    requires s.ev == [Event(Mutex(256 * 5 + 20, Some(1)), {10})]
    ensures Sized(s') && s'.tcb == s.tcb[2 := s.tcb[2].(pendTO := false, stat := {}, event := None)]
    ensures s'.phase == s.phase[2 := User] && s'.ev == [Event(Mutex(256 * 5 + 20, Some(1)), {})]
    ensures s' == s.(tcb := s'.tcb, phase := s'.phase, ev := s'.ev)
  {
    ReachableInv(s);
    ReachableStep(s, EndPend);
    s' := PendResume(s);
    assert {10} - {10} == {};
  }

  lemma OwnerAlone() returns (s: State)
    ensures Alone(s)
  {
    var s1 := RivalGaveUp();
    DelayStep(s1, 2);
    var s2 := TimeDly(s1, 2);
    assert s2.ready == {IDLE_PRIO};
    IdleSwitch(s2);
    var s3 := SwitchTo(s2, 0);
    TickStep(s3, 2);
    var s4 := TickTask(s3, 2);
    TickStep(s4, 1);
    var s5 := TickTask(s4, 1);
    assert s5.ready == {IDLE_PRIO, 5};
    SwitchStep(s5, 1);
    s := SwitchTo(s5, 1);
  }

  lemma IdleSwitch(s: State)
    requires Sized(s) && s.list == [2, 1, 0] && |s.tcb| == 4 && s.dying == None && s.ready == {IDLE_PRIO}
             && s.prioCur == 10
    ensures Sized(SwitchTo(s, 0)) && s.tcb[0].prio == IDLE_PRIO
  {
    ReachableInv(s);
    LiveTask(s, Idle(s));
    SwitchStep(s, 0);
  }

  /** The rival wakes; then the owner posts, and goes on at its own priority while the rival is ready. */
  lemma OvertakenIsReachable() returns (s: State)
    ensures Reachable(s) && Inv(s) && s.dying == None && ByTask(s, OnMutex(PostMutex(0))) && IsBest(s)
    ensures LowersItself(s, OnMutex(PostMutex(0))) && !IsBest(Exec(s, OnMutex(PostMutex(0))))
  {
    var s1 := OwnerAlone();
    TickStep(s1, 2);
    var s2 := TickTask(s1, 2);
    TickStep(s2, 1);
    s := s2;
    assert s2 == TickTask(s2, 1) && s.ready == {IDLE_PRIO, 5, 10};
    ReachableInv(s);
    assert Pip(256 * 5 + 20) == 5 && LowByte(256 * 5 + 20) == 20 && Owns(s, 0, 1) && 1 in s.list && 10 in s.ready;
    BestAtReturn(s, OnMutex(PostMutex(0)));
  }

  /** The owner posts and deletes the mutex, and creates a task at the priority that has become free. */
  lemma MissedSwitchIsReachable() returns (s: State)
    ensures Reachable(s) && s.dying == None && Misses(s) && Sched(s) == s && !IsBest(s)
  {
    var s1 := OwnerAlone();
    var s2 := OwnerPosts(s1);
    var s3 := OwnerDeletes(s2);
    Create(s3, 3, 5);
    s := Created(s3, 3, 5);
    LeastIs(s.ready, 5);
    Misled(s);
  }

  lemma Misled(s: State)
    requires Reachable(s) && s.dying == None && Misses(s)
    ensures Sched(s) == s && !IsBest(s)
  {
    SchedFindsBest(s);
  }

  /** The mutex is free; OSPrioCur is still its inheritance priority. */
  ghost predicate Posted(s: State)
  {
    && Sized(s) && Running(s) && s.cur == 1 && s.prioCur == 5 && Room(s) && s.tcb[1].prio == 20
    && s.ready == {IDLE_PRIO, 20}
  }

  lemma OwnerPosts(s: State) returns (s': State)
    requires Alone(s)
    ensures Posted(s') && s'.ev == [Event(Mutex(256 * 5 + 255, None), {})]
  {
    assert Pip(256 * 5 + 20) == 5 && LowByte(256 * 5 + 20) == 20 && WithLow(256 * 5 + 20, 255) == 256 * 5 + 255;
    assert 1 in s.list;
    MutexStepTo(s, PostMutex(0));
    s' := MutexPost(s, 0);
    assert s'.ready == {IDLE_PRIO, 20};
  }

  lemma OwnerDeletes(s: State) returns (s': State)
    requires Posted(s) && s.ev == [Event(Mutex(256 * 5 + 255, None), {})]
    ensures Posted(s') && s'.prioTbl[5].Empty?
  {
    assert Pip(256 * 5 + 255) == 5;
    MutexStepTo(s, DelMutex(0, false));
    s' := MutexDel(s, 0, false);
  }

  // ---------------------------------------------------------------- a lost TCB and a lost priority

  /** Task 1 is in the middle of OSTaskCreate when its rival wakes and deletes it: the TCB it has taken
      is on no list, and no task holds it; the priority it has reserved is reserved for nobody. */
  lemma LossIsReachable() returns (s: State)
    ensures Reachable(s) && 3 in Lost(s) && 30 in Stuck(s)
  {
    var s0 := PairStarts();
    var s1 := RivalSleeps(s0);
    ReserveStep(s1, 30);
    var s2 := CreateBegin(s1, 30);
    TakeStep(s2);
    var s3 := RivalWakes(TakeTcb(s2));
    s := Loss(s3);
  }

  /** Task 2 deletes task 1. */
  lemma Loss(s: State) returns (s': State)
    requires Pair(s) && s.cur == 2 && s.tcb[2].dly == 0 && 3 in s.away && s.prioTbl[20] == Tcb(1)
    requires s.ev == [Event(Unused, {})] && s.prioTbl[30] == Reserved
    ensures Reachable(s') && 3 in Lost(s') && 30 in Stuck(s')
  {
    assert forall e: nat, t: nat :: !Owns(s, e, t);
    DeleteStep(s, 20);
    s' := EndDeleteStep(DelBegin(s, 20));
  }

  lemma EndDeleteStep(s: State) returns (s': State)
    requires Sized(s) && s.dying == Some(Dying(1, 20)) && s.list == [2, 1, 0] && |s.phase| == 4 && 3 in s.away
    requires s.phase[0] == s.phase[2] == User && s.prioTbl[30] == Reserved && forall e: nat :: !IsMutex(s, e)
    ensures Reachable(s') && 3 in Lost(s') && 30 in Stuck(s')
  {
    ReachableInv(s);
    ReachableStep(s, OnTask(EndDelete));
    s' := DelEnd(s);
    RemoveMembers(s.list, 1);
    forall e: nat
      ensures !IsMutex(s', e)
    {
      assert !IsMutex(s, e);
    }
    NobodyCreates(s');
  }

  lemma NobodyCreates(s: State)
    requires |s.phase| == 4 && s.phase[0] == s.phase[2] == User && 3 in s.away && |s.prioTbl| == N_PRIO
    requires forall u: nat :: u in s.list ==> u == 0 || u == 2
    requires (forall e: nat :: !IsMutex(s, e)) && s.prioTbl[30] == Reserved
    ensures 3 in Lost(s) && 30 in Stuck(s)
  {
    forall u: nat, c: nat
      ensures !HoldsTcb(s, u, c) && !Creator(s, u, c)
    {
    }
    assert IsReserved(s, 30) && !IsPip(s, 30) && !HasCreator(s, 30);
  }

  // ---------------------------------------------------------------- flags in both directions

  /** The task has made itself a group without flags. */
  ghost function WithGroup(): State
  {
    SwitchTo(OneTask(0, 1), 1).(grp := [FlagGrp(true, {}, [])])
  }

  lemma GroupRuns()
    ensures var s := WithGroup();
            Sized(s) && Calling(s) && s.cur == 1 && s.list == [1, 0] && |s.tcb| == 2 && s.ev == []
  {
    OneTaskRuns(0, 1);
    var s1 := SwitchTo(OneTask(0, 1), 1);
    FlagStepTo(s1, NewFlags(0, {}));
    assert FlagStep(s1, NewFlags(0, {})) == WithGroup();
  }

  /** It waits for flag 1 to be set. */
  ghost function ForFlag(): State
    requires |WithGroup().tcb| == 2 && |WithGroup().phase| == 2
  {
    FlagBlock(WithGroup(), 1, FlagNode(0, {1}, SetAny), false, 0)
  }

  lemma FlagPends()
    ensures |WithGroup().tcb| == 2 && |WithGroup().phase| == 2 && Sized(ForFlag())
  {
    GroupRuns();
    var s := WithGroup();
    assert forall e: nat :: !IsMutex(s, e);
    assert !Satisfied({}, {1}, SetAny);
    FlagStepTo(s, PendFlags(0, {1}, SetAny, false, 0));
    assert FlagStep(s, PendFlags(0, {1}, SetAny, false, 0)) == ForFlag();
  }

  /** A task waits for flag 1 to be set; an interrupt accepts, and consumes, flag 1 being cleared. */
  lemma LostWakeUpIsReachable() returns (s: State)
    ensures Reachable(s) && |s.grp| == 1 && 1 in s.grp[0].waiters && Met(s, 1, s.grp[0].flags)
  {
    FlagPends();
    assert !Satisfied({}, {1}, SetAny);
    assert [1] + [] == [1] && ForFlag().grp == [FlagGrp(true, {}, [1])] && |ForFlag().tcb| == 2;
    s := Accepts(ForFlag());
  }

  lemma Accepts(s3: State) returns (s: State)
    requires Sized(s3) && s3.grp == [FlagGrp(true, {}, [1])] && |s3.tcb| == 2
             && s3.tcb[1].node == Some(FlagNode(0, {1}, SetAny))
    requires !Met(s3, 1, {})
    ensures Reachable(s) && |s.grp| == 1 && 1 in s.grp[0].waiters && Met(s, 1, s.grp[0].flags)
  {
    FlagStepTo(s3, AcceptFlags(0, {1}, ClrAny, true));
    s := FlagAccept(s3, 0, {1}, ClrAny, true);
    ReachableInv(s3);
    assert 1 in {1} && s3.grp[0].flags == {};
    MixedDirectionsLoseWakeUps(s3, 0, 1, {1});
  }
}
