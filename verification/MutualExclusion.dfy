/** Who owns a mutex over whole runs: it is taken by a task that finds it free, or handed to the best
    waiter by its owner, and it stays with its owner until that task posts it or it is deleted. */
module MutualExclusion {
  import opened IndexLists
  import opened KernelState
  import opened KernelInvariant
  import opened MutexInvariant
  import opened TickBatch
  import opened KernelRuns
  import opened EventEffects

  /** The same mutexes, with the same record. */
  ghost predicate MutexesKept(s: State, s': State)
  {
    && |s'.ev| == |s.ev|
    && forall e: nat :: IsMutex(s, e) || IsMutex(s', e) ==> s'.ev[e].kind == s.ev[e].kind
  }

  lemma GentleMutexes(s: State, s': State)
    requires Gentle(s, s')
    ensures MutexesKept(s, s')
  {
    forall e: nat | IsMutex(s, e) || IsMutex(s', e)
      ensures s'.ev[e].kind == s.ev[e].kind
    {
      assert GentleEvent(s.ev[e], s'.ev[e]);
    }
  }

  lemma {:induction false} TicksMutexes(s: State, l: seq<nat>, n: nat)
    requires InTable(s, l)
    ensures MutexesKept(s, Ticks(s, l, n))
  {
    if n > 0 {
      TicksMutexes(s, l, n - 1);
      TickWalkGentle(Ticks(s, l, n - 1), l);
      GentleMutexes(Ticks(s, l, n - 1), Ticks(s, l, n));
    }
  }

  lemma ServicesMutexes(s: State, prio: nat, newp: nat)
    requires TargetInTable(s, prio) && newp < |s.prioTbl|
    ensures MutexesKept(s, TaskSuspend(s, prio)) && MutexesKept(s, TaskResume(s, prio))
    ensures MutexesKept(s, TimeDlyResume(s, prio)) && MutexesKept(s, ChangePrio(s, prio, newp))
    ensures MutexesKept(s, DelBegin(s, prio))
  {
  }

  lemma TaskStepMutexes(s: State, op: TaskOp)
    requires Inv(s) && TaskEnabled(s, op)
    ensures MutexesKept(s, TaskStep(s, op))
  {
    Grounds(s);
    match op
    case Switch(_) =>
    case TickOne(t) =>
    case Tick => TickWalkGentle(s, s.list); GentleMutexes(s, TickWalk(s, s.list));
    case Advance(n) => BatchIsTicks(s, s.list, n); TicksMutexes(s, s.list, n);
    case BeginCreate(_) =>
    case TakeFree =>
    case EndCreate =>
    case Delete(prio) => ServicesMutexes(s, SelfOr(s, prio), 0);
    case EndDelete =>
    case Suspend(prio, _) => ServicesMutexes(s, SelfOr(s, prio), 0);
    case Resume(prio) => ServicesMutexes(s, prio, 0);
    case Change(oldp, newp) => ServicesMutexes(s, SelfOr(s, oldp), newp);
    case Delay(_) =>
    case DelayResume(prio) => ServicesMutexes(s, prio, 0);
  }

  lemma NewMsgMutexes(s: State, bit: StatBit, size: nat, msgs: seq<int>)
    requires CoreInv(s)
    ensures s.freeEvs != [] ==> s.freeEvs[0] < |s.ev|
    ensures MutexesKept(s, MsgCreate(s, bit, size, msgs))
  {
    Grounds(s);
    if s.freeEvs != [] {
      assert EventOk(s, s.freeEvs[0]) && s.freeEvs[0] in s.freeEvs;
    }
  }

  lemma BroadcastMutexes(s: State, e: nat, msg: int, front: bool)
    requires CoreInv(s) && IsMessages(s, e)
    ensures MutexesKept(s, MsgBroadcast(s, e, msg, front))
  {
    if s.ev[e].waiters != {} {
      BroadcastReachesAll(s, e, msg, front);
    } else {
      PostDelivers(s, e, msg, front);
    }
  }

  lemma MsgStepMutexes(s: State, op: MsgOp)
    requires Inv(s) && MsgEnabled(s, op)
    ensures MutexesKept(s, MsgStep(s, op))
  {
    Grounds(s);
    match op
    case NewMsg(bit, size, msgs) => NewMsgMutexes(s, bit, size, msgs);
    case Post(e, msg, front) => PostDelivers(s, e, msg, front);
    case Broadcast(e, msg, front) => BroadcastMutexes(s, e, msg, front);
    case Accept(e) =>
    case Pend(e, timeout) => PendTakesOrWaits(s, e, timeout);
    case Flush(e) =>
    case DelMsg(e, always) => MsgDelFrees(s, e, always);
  }

  lemma FlagStepMutexes(s: State, op: FlagOp)
    requires Inv(s) && FlagEnabled(s, op)
    ensures MutexesKept(s, FlagStep(s, op))
  {
    Grounds(s);
    match op
    case NewFlags(_, _) =>
    case AcceptFlags(_, _, _, _) =>
    case PendFlags(_, _, _, _, _) =>
    case PostFlags(g, flags, toSet) =>
      var s1 := SetFlags(s, g, PostedFlags(s.grp[g].flags, flags, toSet));
      FlagWalkGentle(s1, g, s.grp[g].waiters);
      GentleMutexes(s1, FlagWalk(s1, g, s.grp[g].waiters));
    case DelFlags(g, _) =>
      FlagReadyAllGentle(s, s.grp[g].waiters);
      GentleMutexes(s, FlagReadyAll(s, s.grp[g].waiters));
    case EndFlags =>
      FlagResumeGentle(s);
      GentleMutexes(s, FlagResume(s));
  }

  // ---------------------------------------------------------------- single steps

  /** The step takes the mutex from its owner t. */
  ghost predicate Releases(s: State, op: Op, e: nat, t: nat)
  {
    && op.OnMutex?
    && ((op.mutex == PostMutex(e) && s.cur == t) || (op.mutex.DelMutex? && op.mutex.e == e))
  }

  /** The caller finds the mutex free. */
  ghost predicate TakesFree(s: State, op: Op, e: nat)
  {
    && op.OnMutex? && (op.mutex.AcceptMutex? || op.mutex.PendMutex?) && op.mutex.e == e
    && IsMutex(s, e) && s.ev[e].kind.owner == None
  }

  /** The owner hands it on. */
  ghost predicate HandsOn(s: State, op: Op, e: nat, t: nat)
  {
    op == OnMutex(PostMutex(e)) && Owns(s, e, s.cur) && BestWaiter(s, e, t)
  }

  lemma MutexStepMoves(s: State, op: MutexOp, e: nat, t: nat)
    requires Inv(s) && MutexEnabled(s, op)
    ensures Owns(s, e, t) && !Releases(s, OnMutex(op), e, t) ==> Owns(MutexStep(s, op), e, t)
    ensures Owns(MutexStep(s, op), e, t) && !Owns(s, e, t) ==>
              (TakesFree(s, OnMutex(op), e) && t == s.cur) || HandsOn(s, OnMutex(op), e, t)
    ensures TakesFree(s, OnMutex(op), e) ==> Owns(MutexStep(s, op), e, s.cur)
  {
    Grounds(s);
    match op
    case NewMutex(pip) =>
      if s.freeEvs != [] {
        assert EventOk(s, s.freeEvs[0]) && s.freeEvs[0] in s.freeEvs;
      }
      MutexCreateMakes(s, pip);
    case AcceptMutex(f) => MutexAcceptTakes(s, f);
    case PendMutex(f, timeout) => PendMoves(s, f, timeout, e, t);
    case PostMutex(f) => PostMoves(s, f, e, t);
    case DelMutex(f, always) => DelMoves(s, f, always, e, t);
  }

  lemma PendMoves(s: State, f: nat, timeout: nat, e: nat, t: nat)
    requires Inv(s) && Competitor(s, f) && !IsOwner(s, s.cur)
    ensures Owns(s, e, t) ==> Owns(MutexPend(s, f, timeout), e, t)
    ensures Owns(MutexPend(s, f, timeout), e, t) && !Owns(s, e, t) ==>
              f == e && t == s.cur && s.ev[e].kind.owner == None
    ensures f == e && s.ev[e].kind.owner == None ==> Owns(MutexPend(s, f, timeout), e, s.cur)
  {
    if s.ev[f].kind.owner == None {
      MutexPendTakes(s, f, timeout);
    } else {
      MutexPendWaits(s, f, timeout);
    }
  }

  lemma PostMoves(s: State, f: nat, e: nat, t: nat)
    requires Inv(s) && Calling(s) && IsMutex(s, f)
    ensures Owns(s, e, t) && !(f == e && s.cur == t) ==> Owns(MutexPost(s, f), e, t)
    ensures Owns(MutexPost(s, f), e, t) && !Owns(s, e, t) ==> HandsOn(s, OnMutex(PostMutex(f)), e, t)
  {
    if Owns(s, f, s.cur) {
      PostPassesOn(s, f);
    } else {
      PostByStranger(s, f);
    }
  }

  lemma DelMoves(s: State, f: nat, always: bool, e: nat, t: nat)
    requires Inv(s) && IsMutex(s, f)
    ensures Owns(s, e, t) && f != e ==> Owns(MutexDel(s, f, always), e, t)
    ensures Owns(MutexDel(s, f, always), e, t) ==> Owns(s, e, t)
  {
    MutexDelFrees(s, f, always);
  }

  /** How ownership moves, for every step of the kernel: it ends only when the owner posts or the mutex
      is deleted; it begins only when a task takes a free mutex or is the best waiter at a post; and a
      task that finds a mutex free always takes it. */
  lemma OwnershipMoves(s: State, op: Op, e: nat, t: nat)
    requires Inv(s) && Enabled(s, op)
    ensures Owns(s, e, t) && !Releases(s, op, e, t) ==> Owns(Step(s, op), e, t)
    ensures Owns(Step(s, op), e, t) && !Owns(s, e, t) ==> (TakesFree(s, op, e) && t == s.cur) || HandsOn(s, op, e, t)
    ensures TakesFree(s, op, e) ==> Owns(Step(s, op), e, s.cur)
  {
    Grounds(s);
    match op
    case OnTask(o) => TaskStepMutexes(s, o);
    case OnMutex(o) => MutexStepMoves(s, o, e, t);
    case OnMsg(o) => MsgStepMutexes(s, o);
    case OnFlags(o) => FlagStepMutexes(s, o);
    case EndPend => PendResumeGentle(s); GentleMutexes(s, Step(s, op));
  }

  // ---------------------------------------------------------------- whole runs

  /** Task t does not post mutex e, and nobody deletes it. */
  ghost predicate KeepsIt(s: State, ops: seq<Op>, e: nat, t: nat)
    requires Inv(s) && Legal(s, ops)
    decreases |ops|
  {
    ops == [] || (!Releases(s, ops[0], e, t) && (StepKeepsInv(s, ops[0]); KeepsIt(Step(s, ops[0]), ops[1..], e, t)))
  }

  lemma {:induction false} OwnerKeepsIt(s: State, ops: seq<Op>, e: nat, t: nat)
    requires Inv(s) && Legal(s, ops) && Owns(s, e, t) && KeepsIt(s, ops, e, t)
    ensures Owns(After(s, ops), e, t)
    decreases |ops|
  {
    if ops != [] {
      StepKeepsInv(s, ops[0]);
      OwnershipMoves(s, ops[0], e, t);
      OwnerKeepsIt(Step(s, ops[0]), ops[1..], e, t);
    }
  }

  /** Mutual exclusion: a task that pends on, or accepts, a mutex which nobody owns has it at once, and is
      its one owner as long as it does not post it and nobody deletes it, whatever else happens. */
  lemma TakenAtOnceIsHeld(s: State, op: Op, ops: seq<Op>, e: nat)
    requires Inv(s) && Enabled(s, op) && TakesFree(s, op, e)
    requires Inv(Step(s, op)) && Legal(Step(s, op), ops) && KeepsIt(Step(s, op), ops, e, s.cur)
    ensures forall t: nat :: Owns(After(Step(s, op), ops), e, t) <==> t == s.cur
  {
    OwnershipMoves(s, op, e, s.cur);
    OwnerKeepsIt(Step(s, op), ops, e, s.cur);
  }
}
