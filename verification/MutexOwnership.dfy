/** A task whose OSMutexPend comes back without a timeout owns the mutex, however many steps of
    other tasks and of interrupts come between the two halves of the call. */
module MutexOwnership {
  import opened IndexLists
  import opened KernelState
  import opened KernelInvariant
  import opened MutexInvariant
  import opened KernelRuns
  import opened Bystanders

  ghost predicate Granted(s: State)
  {
    forall t: nat, e: nat :: Awarded(s, t, e) ==> Owns(s, e, t)
  }

  /** OSMutexDel readies the waiters without giving them anything, as its notes 1 and 3 warn. It is
      polite where it is refused, or no task is in the middle of pending on the mutex. */
  ghost predicate Polite(s: State, op: Op)
  {
    op.OnMutex? && op.mutex.DelMutex? && IsMutex(s, op.mutex.e) ==>
      DelRefused(s, op.mutex.e, op.mutex.always) || NobodyPends(s, op.mutex.e)
  }

  ghost predicate NobodyPends(s: State, e: nat)
  {
    forall t: nat :: t in s.list && t < |s.phase| ==> s.phase[t] != InEvent(e, MutexBit)
  }

  // ---------------------------------------------------------------- services for messages

  /** A free event control block comes into use. */
  lemma NewEventAwards(s: State, s': State)
    requires CoreInv(s) && |s'.ev| == |s.ev| && s'.tcb == s.tcb && s'.phase == s.phase && s'.list == s.list
    requires s.freeEvs != [] ==> forall e: nat :: e < |s.ev| && e != s.freeEvs[0] ==> s'.ev[e] == s.ev[e]
    requires s.freeEvs == [] ==> s'.ev == s.ev
    ensures AwardsKept(s, s')
  {
    if s.freeEvs != [] {
      assert s.freeEvs[0] in s.freeEvs;
      assert EventOk(s, s.freeEvs[0]);
    }
    forall t: nat, e: nat | Owns(s, e, t)
      ensures Owns(s', e, t)
    {
    }
  }

  lemma MsgPostAwards(s: State, e: nat, msg: int, front: bool)
    requires Inv(s) && IsMessages(s, e)
    ensures AwardsKept(s, MsgPost(s, e, msg, front)) && AwardsKept(s, MsgBroadcast(s, e, msg, front))
  {
    if s.ev[e].waiters != {} {
      WaiterFound(s, e);
      DeliveryAside(s, e, msg);
      ReadyAllAwards(s, e, msg);
    } else {
      MsgContentsAwards(s, MsgPost(s, e, msg, front), e);
    }
  }

  /** Only what queue e holds has changed. */
  lemma MsgContentsAwards(s: State, s': State, e: nat)
    requires IsMessages(s, e) && |s'.ev| == |s.ev| && s'.tcb == s.tcb && s'.phase == s.phase && s'.list == s.list
    requires forall f: nat :: f < |s.ev| && f != e ==> s'.ev[f] == s.ev[f]
    ensures AwardsKept(s, s')
  {
    forall t: nat, f: nat | Owns(s, f, t)
      ensures Owns(s', f, t)
    {
    }
  }

  lemma MsgPendAwards(s: State, e: nat, timeout: nat)
    requires Inv(s) && IsMessages(s, e) && Calling(s)
    ensures AwardsKept(s, MsgPend(s, e, timeout))
  {
  }

  lemma MsgDelAwards(s: State, e: nat, always: bool)
    requires Inv(s) && IsMessages(s, e)
    ensures AwardsKept(s, MsgDel(s, e, always))
  {
    if always {
      var s1 := ReadyAll(s, e, NULL_MSG, s.ev[e].kind.bit);
      ReadyAllKeeps(s, e, NULL_MSG);
      ReadyAllAwards(s, e, NULL_MSG);
      MsgContentsAwards(s1, FreeEvent(s1, e), e);
      AwardsChain(s, s1, FreeEvent(s1, e));
    } else if s.ev[e].waiters == {} {
      MsgContentsAwards(s, FreeEvent(s, e), e);
    }
  }

  lemma MsgStepAwards(s: State, op: MsgOp)
    requires Inv(s) && MsgEnabled(s, op)
    ensures AwardsKept(s, MsgStep(s, op))
  {
    Grounds(s);
    match op
    case NewMsg(bit, size, msgs) => NewEventAwards(s, MsgCreate(s, bit, size, msgs));
    case Post(e, msg, front) => MsgPostAwards(s, e, msg, front);
    case Broadcast(e, msg, front) => MsgPostAwards(s, e, msg, front);
    case Accept(e) => MsgContentsAwards(s, MsgAccept(s, e), e);
    case Pend(e, timeout) => MsgPendAwards(s, e, timeout);
    case Flush(e) => MsgContentsAwards(s, MsgFlush(s, e), e);
    case DelMsg(e, always) => MsgDelAwards(s, e, always);
  }

  // ---------------------------------------------------------------- services for mutexes

  lemma AcquireAwards(s: State, e: nat)
    requires Inv(s) && IsMutex(s, e) && s.cur < |s.tcb| && LowByte(s.ev[e].kind.cnt) == AVAILABLE
    ensures AwardsKept(s, Acquire(s, e))
  {
    assert MutexOk(s, e);
    forall t: nat, f: nat | Owns(s, f, t)
      ensures Owns(Acquire(s, e), f, t)
    {
    }
  }

  lemma MutexPendAwards(s: State, e: nat, timeout: nat)
    requires Inv(s) && IsMutex(s, e) && s.cur < |s.tcb| && s.phase[s.cur] == User
    ensures AwardsKept(s, MutexPend(s, e, timeout))
  {
    if LowByte(s.ev[e].kind.cnt) == AVAILABLE {
      AcquireAwards(s, e);
    } else {
      PromoteAside(s, e);
      MutexBlockAside(Promote(s, e), s.cur, e, timeout);
      AwardsChain(s, Promote(s, e), MutexPend(s, e, timeout));
    }
  }

  lemma DelAwards(s: State, e: nat, always: bool)
    requires Inv(s) && IsMutex(s, e) && Polite(s, OnMutex(DelMutex(e, always)))
    ensures AwardsKept(s, MutexDel(s, e, always))
  {
    if !DelRefused(s, e, always) {
      if s.ev[e].waiters != {} {
        WaiterFound(s, e);
      }
      assert s.ev[e].waiters == {};
      assert MutexOk(s, e);
    }
  }

  /** A task in the middle of its pend goes on as if it had got the mutex, which is no more. */
  lemma DelBreaksAward(s: State, e: nat, always: bool, t: nat)
    requires Inv(s) && IsMutex(s, e) && !DelRefused(s, e, always) && DelSafe(s, e, always) && s.dying == None
    requires t in s.list && t < |s.phase| && s.phase[t] == InEvent(e, MutexBit)
    ensures Awarded(MutexDel(s, e, always), t, e) && !Owns(MutexDel(s, e, always), e, t)
  {
    var s' := MutexDel(s, e, always);
    if always {
      DelAlways(s, e);
    } else {
      DelNoPend(s, e);
    }
    LiveTask(s', t);
  }

  // ---------------------------------------------------------------- ownership

  lemma KeptGrantsHold(s: State, s': State)
    requires Granted(s) && AwardsKept(s, s')
    ensures Granted(s')
  {
  }

  /** The one step that awards a mutex: the hand-off makes the task it readies the owner. */
  lemma HandOffAwards(s: State, e: nat)
    requires Inv(s) && Granted(s) && Calling(s) && IsMutex(s, e)
    ensures Granted(MutexPost(s, e))
  {
    if s.ev[e].kind.owner == Some(s.cur) {
      var s' := MutexPost(s, e);
      RestoreKeeps(s, e);
      HandOffFacts(Restore(s, e), e);
      PostHandsOver(s, e);
      forall t: nat, f: nat | Awarded(s', t, f)
        ensures Owns(s', f, t)
      {
        if s.tcb[t].event == None {
          assert Awarded(s, t, f) && Owns(s, f, t);
          assert t != s.cur && f != e;
        } else {
          LiveTask(s, t);
          assert t == FirstWaiter(Restore(s, e), e);
        }
      }
    }
  }

  /** OSMutexDel keeps the promise exactly when it is polite. */
  lemma DelGrantedExact(s: State, e: nat, always: bool)
    requires Inv(s) && Granted(s) && MutexEnabled(s, DelMutex(e, always))
    ensures Granted(MutexDel(s, e, always)) <==> Polite(s, OnMutex(DelMutex(e, always)))
  {
    if Polite(s, OnMutex(DelMutex(e, always))) {
      DelAwards(s, e, always);
      KeptGrantsHold(s, MutexDel(s, e, always));
    } else {
      var t: nat :| t in s.list && t < |s.phase| && s.phase[t] == InEvent(e, MutexBit);
      DelBreaksAward(s, e, always, t);
    }
  }

  lemma MutexStepGranted(s: State, op: MutexOp)
    requires Inv(s) && Granted(s) && MutexEnabled(s, op)
    ensures Granted(MutexStep(s, op)) <==> Polite(s, OnMutex(op))
  {
    Grounds(s);
    match op
    case NewMutex(pip) => NewEventAwards(s, MutexCreate(s, pip));
    case AcceptMutex(e) => if LowByte(s.ev[e].kind.cnt) == AVAILABLE { AcquireAwards(s, e); }
    case PendMutex(e, timeout) => MutexPendAwards(s, e, timeout);
    case PostMutex(e) => HandOffAwards(s, e);
    case DelMutex(e, always) => DelGrantedExact(s, e, always);
  }

  /** Every step keeps the promise exactly when it is polite, and only OSMutexDel can fail to be. */
  lemma StepGrantedExact(s: State, op: Op)
    requires Inv(s) && Granted(s) && Enabled(s, op)
    ensures Granted(Step(s, op)) <==> Polite(s, op)
  {
    Grounds(s);
    match op
    case OnTask(o) =>
      if o.EndDelete? {
        DelEndAside(s);
      } else {
        TaskStepAside(s, o);
      }
      KeptGrantsHold(s, Step(s, op));
    case OnMutex(o) => MutexStepGranted(s, o);
    case OnMsg(o) => MsgStepAwards(s, o); KeptGrantsHold(s, Step(s, op));
    case OnFlags(o) => FlagStepEvents(s, o); KeptGrantsHold(s, Step(s, op));
    case EndPend => PendResumeEvents(s); KeptGrantsHold(s, Step(s, op));
  }

  /** The promise holds before and after every step of the run. */
  ghost predicate AlwaysGranted(s: State, ops: seq<Op>)
    requires Inv(s) && Legal(s, ops)
    decreases |ops|
  {
    Granted(s) && (ops == [] || (StepKeepsInv(s, ops[0]); AlwaysGranted(Step(s, ops[0]), ops[1..])))
  }

  /** A run that deletes no mutex under a task that is pending on it. */
  ghost predicate PoliteRun(s: State, ops: seq<Op>)
    requires Inv(s) && Legal(s, ops)
    decreases |ops|
  {
    ops == [] || (Polite(s, ops[0]) && (StepKeepsInv(s, ops[0]); PoliteRun(Step(s, ops[0]), ops[1..])))
  }

  lemma {:induction false} RunKeepsGranted(s: State, ops: seq<Op>)
    requires Inv(s) && Granted(s) && Legal(s, ops) && PoliteRun(s, ops)
    ensures Granted(After(s, ops))
    decreases |ops|
  {
    if ops != [] {
      StepKeepsInv(s, ops[0]);
      StepGrantedExact(s, ops[0]);
      RunKeepsGranted(Step(s, ops[0]), ops[1..]);
    }
  }

  /** A run keeps the promise throughout exactly when it is polite. */
  lemma {:induction false} RunGrantedExact(s: State, ops: seq<Op>)
    requires Inv(s) && Granted(s) && Legal(s, ops)
    ensures AlwaysGranted(s, ops) <==> PoliteRun(s, ops)
    decreases |ops|
  {
    if ops != [] {
      StepKeepsInv(s, ops[0]);
      StepGrantedExact(s, ops[0]);
      if Granted(Step(s, ops[0])) {
        RunGrantedExact(Step(s, ops[0]), ops[1..]);
      }
    }
  }

  ghost predicate PoliteFromBoot(tasks: nat, events: nat, groups: nat, ops: seq<Op>)
  {
    tasks > 0 && (BootInv(tasks, events, groups);
                  Legal(Boot(tasks, events, groups), ops) && PoliteRun(Boot(tasks, events, groups), ops))
  }

  /** Over whole runs: when OSMutexPend goes on without a timeout, its task is the recorded owner,
      and still is when the call returns. */
  lemma {:induction false} PendReturnsOwner(tasks: nat, events: nat, groups: nat, ops: seq<Op>, s: State, e: nat)
    requires IsRun(tasks, events, groups, ops, s) && PoliteFromBoot(tasks, events, groups, ops)
    requires Enabled(s, EndPend) && s.phase[s.cur] == InEvent(e, MutexBit) && !s.tcb[s.cur].pendTO
    ensures Inv(s) && Owns(s, e, s.cur)
    ensures Owns(Step(s, EndPend), e, s.cur) && Step(s, EndPend).phase[s.cur] == User
  {
    var boot := Boot(tasks, events, groups);
    BootInv(tasks, events, groups);
    assert Granted(boot);
    RunKeepsGranted(boot, ops);
    AfterKeeps(boot, ops);
    LiveTask(s, s.cur);
    assert Awarded(s, s.cur, e);
  }
}
