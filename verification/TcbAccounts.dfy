/** Where the task control blocks are: on the task list, on the free list, or in the hands of a task
    that is in the middle of OSTaskCreate. One is lost exactly when such a task is deleted. */
module TcbAccounts {
  import opened IndexLists
  import opened KernelState
  import opened KernelInvariant
  import opened MutexInvariant
  import opened TickBatch
  import opened KernelRuns

  /** The TCBs that were taken off the free list and that nobody holds any more. */
  ghost function Lost(s: State): set<nat>
  {
    s.away - InFlight(s)
  }

  /** OSTaskDel ends for a task that holds a TCB. */
  ghost predicate Loses(s: State, op: Op)
  {
    && op == OnTask(EndDelete) && s.dying.Some? && s.dying.value.task < |s.phase|
    && s.phase[s.dying.value.task].InCreate? && s.phase[s.dying.value.task].taken.Got?
  }

  ghost function LostBy(s: State, op: Op): set<nat>
  {
    if Loses(s, op) then {s.phase[s.dying.value.task].taken.tcb} else {}
  }

  /** What is taken stays taken, and each TCB is held by whom it was held. */
  ghost predicate HoldersKept(s: State, s': State)
  {
    && |s'.tcb| == |s.tcb| && s'.away == s.away
    && (forall u: nat, c: nat :: HoldsTcb(s, u, c) <==> HoldsTcb(s', u, c))
  }

  lemma InFlightIs(s: State, c: nat)
    ensures c in InFlight(s) <==> c in s.away && exists u: nat :: HoldsTcb(s, u, c)
  {
  }

  lemma KeptLost(s: State, s': State)
    requires HoldersKept(s, s')
    ensures Lost(s') == Lost(s)
  {
    forall c: nat
      ensures c in Lost(s') <==> c in Lost(s)
    {
      InFlightIs(s, c);
      InFlightIs(s', c);
    }
  }

  lemma TakenIsHeld(s: State)
    requires Inv(s) && TaskEnabled(s, TakeFree)
    ensures Lost(TakeTcb(s)) == Lost(s)
  {
    var s' := TakeTcb(s);
    if s.freeTcbs != [] {
      assert s.freeTcbs[0] in s.freeTcbs && s.freeTcbs[0] !in s.away;
      assert HoldsTcb(s', s.cur, s.freeTcbs[0]);
    }
    forall c: nat
      ensures c in Lost(s') <==> c in Lost(s)
    {
      InFlightIs(s, c);
      InFlightIs(s', c);
      assert c in s.away ==> forall u: nat :: HoldsTcb(s, u, c) <==> HoldsTcb(s', u, c);
    }
  }

  lemma LinkedIsNotHeld(s: State)
    requires Inv(s) && TaskEnabled(s, EndCreate)
    ensures s.phase[s.cur].prio < N_PRIO && (s.phase[s.cur].taken.Got? ==> s.phase[s.cur].taken.tcb < |s.tcb|)
    ensures Lost(CreateEnd(s)) == Lost(s) && |CreateEnd(s).tcb| == |s.tcb|
  {
    LiveTask(s, s.cur);
    var s' := CreateEnd(s);
    forall c: nat
      ensures c in Lost(s') <==> c in Lost(s)
    {
      InFlightIs(s, c);
      InFlightIs(s', c);
      if s.phase[s.cur].taken == Got(c) {
        assert HoldsTcb(s, s.cur, c);
      } else {
        CreateEndHolders(s, c);
      }
    }
  }

  /** The task that is linked is new on the list, and in no service. */
  lemma CreateEndHolders(s: State, c: nat)
    requires Inv(s) && TaskEnabled(s, EndCreate) && s.phase[s.cur].taken != Got(c)
    requires s.phase[s.cur].prio < N_PRIO && (s.phase[s.cur].taken.Got? ==> s.phase[s.cur].taken.tcb < |s.tcb|)
    ensures forall u: nat :: HoldsTcb(s, u, c) <==> HoldsTcb(CreateEnd(s), u, c)
  {
    LiveTask(s, s.cur);
  }

  lemma DelEndExact(s: State)
    requires Inv(s) && s.dying.Some?
    ensures s.dying.value.prio < N_PRIO
    ensures var gone := LostBy(s, OnTask(EndDelete)); Lost(DelEnd(s)) == Lost(s) + gone && gone !! Lost(s)
    ensures |DelEnd(s).tcb| == |s.tcb|
  {
    var t, s', gone := s.dying.value.task, DelEnd(s), LostBy(s, OnTask(EndDelete));
    DyingIsNoOwner(s, t);
    DelEndLists(s);
    LiveTask(s, t);
    if Loses(s, OnTask(EndDelete)) {
      assert HoldsTcb(s, t, s.phase[t].taken.tcb);
    }
    forall c: nat
      ensures c in Lost(s') <==> c in Lost(s) || c in gone
    {
      InFlightIs(s, c);
      InFlightIs(s', c);
      if c !in gone {
        assert forall u: nat :: HoldsTcb(s, u, c) <==> HoldsTcb(s', u, c);
      }
    }
  }

  lemma DeleteHolders(s: State, prio: nat)
    requires TargetInTable(s, prio)
    ensures HoldersKept(s, DelBegin(s, prio))
  {
    if Deletes(s, prio) {
      var t := Target(s, prio).value;
      var x := s.tcb[t];
      var s1 := if x.event.Some? && x.event.value < |s.ev|
                then SetWaiters(s, x.event.value, s.ev[x.event.value].waiters - {x.prio}) else s;
      UnlinkGentle(s1, t);
    }
  }

  lemma ServiceHolders(s: State, prio: nat, newp: nat)
    requires TargetInTable(s, prio) && newp < |s.prioTbl|
    ensures HoldersKept(s, TaskSuspend(s, prio)) && HoldersKept(s, TaskResume(s, prio))
    ensures HoldersKept(s, ChangePrio(s, prio, newp)) && HoldersKept(s, TimeDlyResume(s, prio))
  {
  }

  lemma {:induction false} TicksHolders(s: State, l: seq<nat>, n: nat)
    requires InTable(s, l)
    ensures HoldersKept(s, Ticks(s, l, n))
  {
    if n > 0 {
      TicksHolders(s, l, n - 1);
      TickWalkGentle(Ticks(s, l, n - 1), l);
    }
  }

  /** Every critical section of the task and time services but the three that move a TCB. */
  lemma TaskStepHolders(s: State, op: TaskOp)
    requires Inv(s) && TaskEnabled(s, op) && !op.TakeFree? && !op.EndCreate? && !op.EndDelete?
    ensures HoldersKept(s, TaskStep(s, op))
  {
    Grounds(s);
    match op
    case Tick => TickWalkGentle(s, s.list);
    case Advance(n) => BatchIsTicks(s, s.list, n); TicksHolders(s, s.list, n);
    case Delete(prio) => DeleteHolders(s, SelfOr(s, prio));
    case Suspend(prio, _) => ServiceHolders(s, SelfOr(s, prio), 0);
    case Resume(prio) => ServiceHolders(s, prio, 0);
    case Change(oldp, newp) => ServiceHolders(s, SelfOr(s, oldp), newp);
    case DelayResume(prio) => ServiceHolders(s, prio, 0);
    case _ =>
  }

  lemma TaskStepExact(s: State, op: TaskOp)
    requires Inv(s) && TaskEnabled(s, op)
    ensures |TaskStep(s, op).tcb| == |s.tcb|
    ensures var gone := LostBy(s, OnTask(op)); Lost(TaskStep(s, op)) == Lost(s) + gone && gone !! Lost(s)
  {
    Grounds(s);
    match op
    case TakeFree => TakenIsHeld(s);
    case EndCreate => LinkedIsNotHeld(s);
    case EndDelete => DelEndExact(s);
    case _ => TaskStepHolders(s, op); KeptLost(s, TaskStep(s, op));
  }

  lemma MutexStepHolders(s: State, op: MutexOp)
    requires Inv(s) && MutexEnabled(s, op)
    ensures HoldersKept(s, MutexStep(s, op))
  {
    Grounds(s);
    match op
    case NewMutex(_) =>
    case AcceptMutex(e) => AcceptHolders(s, e);
    case PendMutex(e, timeout) => PendHolders(s, e, timeout);
    case PostMutex(e) => PostHolders(s, e);
    case DelMutex(e, always) => DelHolders(s, e, always);
  }

  lemma AcceptHolders(s: State, e: nat)
    requires IsMutex(s, e) && s.cur < |s.tcb|
    ensures HoldersKept(s, MutexAccept(s, e))
  {
  }

  lemma PostHolders(s: State, e: nat)
    requires IsMutex(s, e) && s.cur < |s.tcb|
    ensures HoldersKept(s, MutexPost(s, e))
  {
    assert HoldersKept(s, Restore(s, e));
    assert HoldersKept(Restore(s, e), HandOff(Restore(s, e), e));
  }

  lemma PendHolders(s: State, e: nat, timeout: nat)
    requires IsMutex(s, e) && Calling(s)
    ensures HoldersKept(s, MutexPend(s, e, timeout))
  {
    assert HoldersKept(s, Promote(s, e));
  }

  lemma DelHolders(s: State, e: nat, always: bool)
    requires IsMutex(s, e)
    ensures HoldersKept(s, MutexDel(s, e, always))
  {
    if always {
      ReadyAllGentle(Lowered(s, e), e, NULL_MSG, MutexBit);
      assert HoldersKept(s, Lowered(s, e));
    }
  }

  lemma MsgHolders(s: State, e: nat, msg: int, front: bool)
    requires IsMessages(s, e)
    ensures HoldersKept(s, MsgPost(s, e, msg, front)) && HoldersKept(s, MsgAccept(s, e))
            && HoldersKept(s, MsgFlush(s, e))
  {
  }

  lemma MsgPendHolders(s: State, e: nat, timeout: nat)
    requires IsMessages(s, e) && Calling(s)
    ensures HoldersKept(s, MsgPend(s, e, timeout))
  {
  }

  lemma MsgStepHolders(s: State, op: MsgOp)
    requires Inv(s) && MsgEnabled(s, op)
    ensures HoldersKept(s, MsgStep(s, op))
  {
    Grounds(s);
    match op
    case NewMsg(_, _, _) =>
    case Post(e, msg, front) => MsgHolders(s, e, msg, front);
    case Broadcast(e, msg, front) => MsgHolders(s, e, msg, front); ReadyAllGentle(s, e, msg, s.ev[e].kind.bit);
    case Accept(e) => MsgHolders(s, e, NULL_MSG, false);
    case Pend(e, timeout) => MsgPendHolders(s, e, timeout);
    case Flush(e) => MsgHolders(s, e, NULL_MSG, false);
    case DelMsg(e, _) => ReadyAllGentle(s, e, NULL_MSG, s.ev[e].kind.bit);
  }

  lemma FlagPendHolders(s: State, g: nat, wanted: Flags, w: WaitType, consume: bool, timeout: nat)
    requires g < |s.grp| && Calling(s)
    ensures HoldersKept(s, FlagAccept(s, g, wanted, w, consume))
            && HoldersKept(s, FlagPend(s, g, wanted, w, consume, timeout))
  {
  }

  lemma FlagStepHolders(s: State, op: FlagOp)
    requires Inv(s) && FlagEnabled(s, op)
    ensures HoldersKept(s, FlagStep(s, op))
  {
    Grounds(s);
    match op
    case NewFlags(_, _) =>
    case AcceptFlags(_, _, _, _) =>
    case PendFlags(g, wanted, w, consume, timeout) => FlagPendHolders(s, g, wanted, w, consume, timeout);
    case PostFlags(g, flags, toSet) =>
      FlagWalkGentle(SetFlags(s, g, PostedFlags(s.grp[g].flags, flags, toSet)), g, s.grp[g].waiters);
    case DelFlags(g, _) => FlagReadyAllGentle(s, s.grp[g].waiters);
    case EndFlags => FlagResumeGentle(s);
  }

  /** A step loses a TCB exactly when it ends the deletion of a task that holds one, and nothing that
      is lost is found again. */
  lemma StepLosesExact(s: State, op: Op)
    requires Inv(s) && Enabled(s, op)
    ensures |Step(s, op).tcb| == |s.tcb|
    ensures Lost(Step(s, op)) == Lost(s) + LostBy(s, op) && LostBy(s, op) !! Lost(s)
  {
    Grounds(s);
    match op
    case OnTask(o) => TaskStepExact(s, o);
    case OnMutex(o) => MutexStepHolders(s, o); KeptLost(s, Step(s, op));
    case OnMsg(o) => MsgStepHolders(s, o); KeptLost(s, Step(s, op));
    case OnFlags(o) => FlagStepHolders(s, o); KeptLost(s, Step(s, op));
    case EndPend => PendResumeGentle(s); KeptLost(s, Step(s, op));
  }

  /** How often the run deletes a task that holds a TCB. */
  ghost function Losses(s: State, ops: seq<Op>): nat
    requires Inv(s) && Legal(s, ops)
    decreases |ops|
  {
    if ops == [] then 0 else
      StepKeepsInv(s, ops[0]);
      |LostBy(s, ops[0])| + Losses(Step(s, ops[0]), ops[1..])
  }

  lemma {:induction false} RunLosesExact(s: State, ops: seq<Op>)
    requires Inv(s) && Legal(s, ops)
    ensures |After(s, ops).tcb| == |s.tcb|
    ensures |Lost(After(s, ops))| == |Lost(s)| + Losses(s, ops)
    decreases |ops|
  {
    if ops != [] {
      StepKeepsInv(s, ops[0]);
      StepLosesExact(s, ops[0]);
      RunLosesExact(Step(s, ops[0]), ops[1..]);
    }
  }

  /** After every run the two lists and the TCBs in flight make up the table, but for one TCB for
      each time that a task was deleted while it held one in OSTaskCreate. */
  lemma {:induction false} TcbsAccountedFor(tasks: nat, events: nat, groups: nat, ops: seq<Op>)
    requires tasks > 0 && (BootInv(tasks, events, groups); Legal(Boot(tasks, events, groups), ops))
    ensures Inv(Boot(tasks, events, groups))
    ensures var boot := Boot(tasks, events, groups);
            var s := After(boot, ops);
            |s.list| + |s.freeTcbs| + |InFlight(s)| + Losses(boot, ops) == tasks
  {
    var boot := Boot(tasks, events, groups);
    BootInv(tasks, events, groups);
    assert Lost(boot) == {};
    RunLosesExact(boot, ops);
    AfterKeeps(boot, ops);
    TcbsCounted(After(boot, ops));
    assert InFlight(After(boot, ops)) <= After(boot, ops).away;
  }
}
