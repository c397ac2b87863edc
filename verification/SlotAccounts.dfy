/** What the marker (OS_TCB *)1 in OSTCBPrioTbl stands for: the inheritance priority of a mutex whose
    owner is not raised to it, a task that is being created, or nothing any more. The last is what
    remains of a creation whose task was deleted: OSTaskDel gives up the priority of the task, but not
    the one that the task has reserved. */
module SlotAccounts {
  import opened IndexLists
  import opened KernelState
  import opened KernelInvariant
  import opened MutexInvariant
  import opened TickBatch
  import opened KernelRuns

  ghost predicate IsReserved(s: State, p: nat)
  {
    p < |s.prioTbl| && s.prioTbl[p] == Reserved
  }

  /** The inheritance priority of a mutex. */
  ghost predicate PipOf(s: State, e: nat, p: nat)
  {
    IsMutex(s, e) && Pip(s.ev[e].kind.cnt) == p
  }

  ghost predicate IsPip(s: State, p: nat)
  {
    exists e: nat :: PipOf(s, e, p)
  }

  /** Task u is creating a task of that priority. */
  ghost predicate Creator(s: State, u: nat, p: nat)
  {
    u in s.list && u < |s.phase| && Creating(s.phase[u], p)
  }

  ghost predicate HasCreator(s: State, p: nat)
  {
    exists u: nat :: Creator(s, u, p)
  }

  /** The priority is reserved, and for nobody. */
  ghost predicate IsStuck(s: State, p: nat)
  {
    IsReserved(s, p) && !IsPip(s, p) && !HasCreator(s, p)
  }

  ghost function Stuck(s: State): set<nat>
  {
    set p | 0 <= p < |s.prioTbl| && IsStuck(s, p)
  }

  /** OSTaskDel ends for a task that was creating another. */
  ghost predicate Sticks(s: State, op: Op)
  {
    && op == OnTask(EndDelete) && s.dying.Some? && s.dying.value.task < |s.phase|
    && s.phase[s.dying.value.task].InCreate?
  }

  ghost function StuckBy(s: State, op: Op): set<nat>
  {
    if Sticks(s, op) then {s.phase[s.dying.value.task].prio} else {}
  }

  // ---------------------------------------------------------------- steps

  /** Marker, inheritance priority and creator of p are as they were. */
  ghost predicate SameAt(s: State, s': State, p: nat)
  {
    && (IsReserved(s', p) <==> IsReserved(s, p))
    && (IsPip(s', p) <==> IsPip(s, p))
    && (HasCreator(s', p) <==> HasCreator(s, p))
  }

  ghost predicate SameSlots(s: State, s': State)
  {
    |s'.prioTbl| == |s.prioTbl| && forall p: nat :: IsStuck(s', p) <==> IsStuck(s, p)
  }

  lemma SameStuck(s: State, s': State)
    requires SameSlots(s, s')
    ensures Stuck(s') == Stuck(s)
  {
  }

  /** The mutexes, their inheritance priorities and the creators are as they were. */
  ghost predicate UsesKept(s: State, s': State)
  {
    && (forall e: nat, p: nat :: PipOf(s', e, p) <==> PipOf(s, e, p))
    && (forall u: nat, p: nat :: Creator(s', u, p) <==> Creator(s, u, p))
  }

  lemma UsesSame(s: State, s': State, p: nat)
    requires UsesKept(s, s')
    ensures (IsPip(s', p) <==> IsPip(s, p)) && (HasCreator(s', p) <==> HasCreator(s, p))
  {
    if IsPip(s, p) {
      var e: nat :| PipOf(s, e, p);
      assert PipOf(s', e, p);
    }
    if IsPip(s', p) {
      var e: nat :| PipOf(s', e, p);
      assert PipOf(s, e, p);
    }
    if HasCreator(s, p) {
      var u: nat :| Creator(s, u, p);
      assert Creator(s', u, p);
    }
    if HasCreator(s', p) {
      var u: nat :| Creator(s', u, p);
      assert Creator(s, u, p);
    }
  }

  /** A slot may change where a mutex has it before and after. */
  lemma KeptSlots(s: State, s': State)
    requires UsesKept(s, s') && |s'.prioTbl| == |s.prioTbl|
    requires forall p: nat :: (IsReserved(s', p) <==> IsReserved(s, p)) || IsPip(s, p)
    ensures SameSlots(s, s')
  {
    forall p: nat
      ensures IsStuck(s', p) <==> IsStuck(s, p)
    {
      UsesSame(s, s', p);
    }
  }

  /** Nothing of this changes. */
  ghost predicate Still(s: State, s': State)
  {
    && |s'.prioTbl| == |s.prioTbl| && (forall p: nat :: IsReserved(s', p) <==> IsReserved(s, p))
    && UsesKept(s, s')
  }

  lemma StillSlots(s: State, s': State)
    requires Still(s, s')
    ensures SameSlots(s, s')
  {
    KeptSlots(s, s');
  }

  lemma StillChain(s: State, s1: State, s2: State)
    requires Still(s, s1) && Still(s1, s2)
    ensures Still(s, s2)
  {
    forall e: nat, p: nat
      ensures PipOf(s2, e, p) <==> PipOf(s, e, p)
    {
      assert PipOf(s1, e, p) <==> PipOf(s, e, p);
    }
    forall u: nat, p: nat
      ensures Creator(s2, u, p) <==> Creator(s, u, p)
    {
      assert Creator(s1, u, p) <==> Creator(s, u, p);
    }
    forall p: nat
      ensures IsReserved(s2, p) <==> IsReserved(s, p)
    {
      assert IsReserved(s1, p) <==> IsReserved(s, p);
    }
  }

  lemma GentleStill(s: State, s': State)
    requires Gentle(s, s')
    ensures Still(s, s')
  {
    forall e: nat, p: nat
      ensures PipOf(s', e, p) <==> PipOf(s, e, p)
    {
      assert e < |s.ev| ==> GentleEvent(s.ev[e], s'.ev[e]);
    }
  }

  // ---------------------------------------------------------------- tasks

  lemma ServicesStill(s: State, prio: nat, newp: nat)
    requires TargetInTable(s, prio) && newp < |s.prioTbl|
    ensures Still(s, TaskSuspend(s, prio)) && Still(s, TaskResume(s, prio)) && Still(s, TimeDlyResume(s, prio))
    ensures prio < |s.prioTbl| ==> Still(s, ChangePrio(s, prio, newp))
  {
  }

  lemma DeleteStill(s: State, prio: nat)
    requires TargetInTable(s, prio)
    ensures Still(s, DelBegin(s, prio))
  {
    if Deletes(s, prio) {
      var t := Target(s, prio).value;
      var x := s.tcb[t];
      var s1 := if x.event.Some? && x.event.value < |s.ev|
                then SetWaiters(s, x.event.value, s.ev[x.event.value].waiters - {x.prio}) else s;
      UnlinkGentle(s1, t);
      GentleStill(s1, FlagUnlink(s1, t));
    }
  }

  lemma {:induction false} TicksStill(s: State, l: seq<nat>, n: nat)
    requires InTable(s, l)
    ensures Still(s, Ticks(s, l, n))
  {
    if n > 0 {
      TicksStill(s, l, n - 1);
      TickWalkGentle(Ticks(s, l, n - 1), l);
      GentleStill(Ticks(s, l, n - 1), Ticks(s, l, n));
      StillChain(s, Ticks(s, l, n - 1), Ticks(s, l, n));
    }
  }

  lemma BeginSlots(s: State, prio: nat)
    requires Inv(s) && Running(s) && prio < N_PRIO
    ensures SameSlots(s, CreateBegin(s, prio))
  {
    var s' := CreateBegin(s, prio);
    if s.prioTbl[prio].Empty? {
      forall p: nat
        ensures IsStuck(s', p) <==> IsStuck(s, p)
      {
        if p == prio {
          assert Creator(s', s.cur, p);
        } else {
          assert forall e: nat :: PipOf(s', e, p) <==> PipOf(s, e, p);
          assert forall u: nat :: Creator(s', u, p) <==> Creator(s, u, p);
        }
      }
    }
  }

  lemma EndSlots(s: State)
    requires Inv(s) && TaskEnabled(s, EndCreate)
    ensures s.phase[s.cur].prio < N_PRIO && (s.phase[s.cur].taken.Got? ==> s.phase[s.cur].taken.tcb < |s.tcb|)
    ensures SameSlots(s, CreateEnd(s))
  {
    LiveTask(s, s.cur);
    var prio, s' := s.phase[s.cur].prio, CreateEnd(s);
    forall p: nat
      ensures IsStuck(s', p) <==> IsStuck(s, p)
    {
      if p == prio {
        assert Creator(s, s.cur, p);
      } else {
        assert forall e: nat :: PipOf(s', e, p) <==> PipOf(s, e, p);
        assert forall u: nat :: Creator(s', u, p) <==> Creator(s, u, p);
      }
    }
  }

  lemma DelEndSlots(s: State)
    requires Inv(s) && s.dying.Some?
    ensures s.dying.value.prio < N_PRIO
    ensures var gone := StuckBy(s, OnTask(EndDelete)); Stuck(DelEnd(s)) == Stuck(s) + gone && gone !! Stuck(s)
  {
    var t, s', gone := s.dying.value.task, DelEnd(s), StuckBy(s, OnTask(EndDelete));
    DyingIsNoOwner(s, t);
    DelEndLists(s);
    LiveTask(s, t);
    if Sticks(s, OnTask(EndDelete)) {
      assert Creator(s, t, s.phase[t].prio);
    }
    forall p: nat
      ensures IsStuck(s', p) <==> IsStuck(s, p) || p in gone
    {
      DelEndAt(s, p);
    }
  }

  lemma PipIsNotCreated(s: State, p: nat)
    requires Inv(s)
    ensures IsPip(s, p) ==> NotBeingCreated(s, p)
  {
    forall e: nat | PipOf(s, e, p)
      ensures NotBeingCreated(s, p)
    {
      assert MutexOk(s, e);
    }
  }

  /** The creation that the dying task was in has no creator any more. */
  lemma DelEndAt(s: State, p: nat)
    requires Inv(s) && s.dying.Some? && s.dying.value.prio < N_PRIO
    ensures IsStuck(DelEnd(s), p) <==> IsStuck(s, p) || p in StuckBy(s, OnTask(EndDelete))
  {
    var t, s' := s.dying.value.task, DelEnd(s);
    DyingIsNoOwner(s, t);
    DelEndLists(s);
    LiveTask(s, t);
    RemoveMembers(s.list, t);
    assert s'.ev == s.ev && forall e: nat :: PipOf(s', e, p) <==> PipOf(s, e, p);
    assert forall u: nat :: Creator(s', u, p) <==> Creator(s, u, p) && u != t;
    if Creating(s.phase[t], p) {
      assert Creator(s, t, p) && forall u: nat :: Creator(s, u, p) ==> u == t;
      PipIsNotCreated(s, p);
    } else if HasCreator(s, p) {
      var u: nat :| Creator(s, u, p);
      assert Creator(s', u, p);
    }
  }

  lemma TaskSlots(s: State, op: TaskOp)
    requires Inv(s) && TaskEnabled(s, op) && !op.EndDelete?
    ensures SameSlots(s, TaskStep(s, op))
  {
    Grounds(s);
    match op
    case Switch(t) => StillSlots(s, SwitchTo(s, t));
    case TickOne(t) => TickTaskGentle(s, t); GentleStill(s, TickTask(s, t)); StillSlots(s, TickTask(s, t));
    case Tick => TickWalkGentle(s, s.list); GentleStill(s, TickWalk(s, s.list)); StillSlots(s, TickWalk(s, s.list));
    case Advance(n) => BatchIsTicks(s, s.list, n); TicksStill(s, s.list, n); StillSlots(s, Ticks(s, s.list, n));
    case BeginCreate(prio) => BeginSlots(s, prio);
    case TakeFree => StillSlots(s, TakeTcb(s));
    case EndCreate => EndSlots(s);
    case Delete(prio) => DeleteStill(s, SelfOr(s, prio)); StillSlots(s, DelBegin(s, SelfOr(s, prio)));
    case Suspend(prio, _) => ServicesStill(s, SelfOr(s, prio), 0); StillSlots(s, TaskSuspend(s, SelfOr(s, prio)));
    case Resume(prio) => ServicesStill(s, prio, 0); StillSlots(s, TaskResume(s, prio));
    case Change(oldp, newp) => ChangeSlots(s, oldp, newp);
    case Delay(ticks) => StillSlots(s, TimeDly(s, ticks));
    case DelayResume(prio) => ServicesStill(s, prio, 0); StillSlots(s, TimeDlyResume(s, prio));
  }

  lemma ChangeSlots(s: State, oldp: nat, newp: nat)
    requires Inv(s) && TaskEnabled(s, Change(oldp, newp))
    ensures SameSlots(s, TaskStep(s, Change(oldp, newp)))
  {
    Grounds(s);
    var p := SelfOr(s, oldp);
    if Target(s, p).Some? {
      ServicesStill(s, p, newp);
    }
    StillSlots(s, ChangePrio(s, p, newp));
  }

  // ---------------------------------------------------------------- mutexes

  /** Only the slot of the inheritance priority of mutex e may change, from or to the marker. */
  ghost predicate OnlyPip(s: State, s': State, e: nat)
    requires IsMutex(s, e)
  {
    && |s'.prioTbl| == |s.prioTbl| && UsesKept(s, s')
    && forall p: nat :: p != Pip(s.ev[e].kind.cnt) ==> (IsReserved(s', p) <==> IsReserved(s, p))
  }

  lemma OnlyPipSlots(s: State, s': State, e: nat)
    requires IsMutex(s, e) && OnlyPip(s, s', e)
    ensures SameSlots(s, s')
  {
    assert PipOf(s, e, Pip(s.ev[e].kind.cnt));
    KeptSlots(s, s');
  }

  lemma PendOnlyPip(s: State, e: nat, timeout: nat)
    requires Inv(s) && Competitor(s, e)
    ensures OnlyPip(s, MutexPend(s, e, timeout), e)
  {
    LiveTask(s, s.cur);
    if LowByte(s.ev[e].kind.cnt) != AVAILABLE {
      PromoteOnlyPip(s, e);
      var s1 := Promote(s, e);
      BlockStill(s1, e, timeout);
      OnlyPipThen(s, s1, MutexPend(s, e, timeout), e);
    }
  }

  lemma PromoteOnlyPip(s: State, e: nat)
    requires Inv(s) && IsMutex(s, e) && s.cur < |s.tcb|
    ensures OnlyPip(s, Promote(s, e), e)
    ensures var s1 := Promote(s, e); s1.phase == s.phase && s1.cur == s.cur && |s1.tcb| == |s.tcb| && IsMutex(s1, e)
  {
    assert MutexOk(s, e);
    if s.ev[e].kind.owner.Some? {
      LiveTask(s, s.ev[e].kind.owner.value);
    }
  }

  lemma BlockStill(s: State, e: nat, timeout: nat)
    requires e < |s.ev| && s.cur < |s.tcb| && s.cur < |s.phase| && s.phase[s.cur] == User
    ensures Still(s, Block(s, s.cur, e, MutexBit, timeout))
  {
  }

  lemma OnlyPipThen(s: State, s1: State, s2: State, e: nat)
    requires IsMutex(s, e) && OnlyPip(s, s1, e) && Still(s1, s2)
    ensures OnlyPip(s, s2, e)
  {
    forall f: nat, p: nat
      ensures PipOf(s2, f, p) <==> PipOf(s, f, p)
    {
      assert PipOf(s1, f, p) <==> PipOf(s, f, p);
    }
    forall u: nat, p: nat
      ensures Creator(s2, u, p) <==> Creator(s, u, p)
    {
      assert Creator(s1, u, p) <==> Creator(s, u, p);
    }
    forall p: nat | p != Pip(s.ev[e].kind.cnt)
      ensures IsReserved(s2, p) <==> IsReserved(s, p)
    {
      assert IsReserved(s2, p) <==> IsReserved(s1, p);
    }
  }

  lemma PostOnlyPip(s: State, e: nat)
    requires Inv(s) && IsMutex(s, e) && s.cur < |s.tcb|
    ensures OnlyPip(s, MutexPost(s, e), e)
  {
    assert MutexOk(s, e);
    if Owns(s, e, s.cur) {
      var s1 := Restore(s, e);
      RestoreOnlyPip(s, e);
      if s.ev[e].waiters != {} {
        assert WaiterOk(s, e, Least(s.ev[e].waiters));
      }
      HandOffStill(s1, e);
      OnlyPipThen(s, s1, HandOff(s1, e), e);
    }
  }

  lemma RestoreOnlyPip(s: State, e: nat)
    requires Inv(s) && IsMutex(s, e) && Owns(s, e, s.cur) && s.cur < |s.tcb|
    ensures OnlyPip(s, Restore(s, e), e) && Restore(s, e).ev == s.ev
  {
    assert MutexOk(s, e);
  }

  lemma HandOffStill(s: State, e: nat)
    requires IsMutex(s, e) && (s.ev[e].waiters != {} ==> Least(s.ev[e].waiters) < 256)
    ensures Still(s, HandOff(s, e))
  {
  }

  lemma NewMutexSlots(s: State, pip: nat)
    requires Inv(s) && MutexEnabled(s, NewMutex(pip))
    ensures s.freeEvs != [] ==> s.freeEvs[0] < |s.ev|
    ensures SameSlots(s, MutexCreate(s, pip))
  {
    Grounds(s);
    var s' := MutexCreate(s, pip);
    if s.prioTbl[pip].Empty? && s.freeEvs != [] {
      var e := s.freeEvs[0];
      assert EventOk(s, e);
      assert PipOf(s', e, pip);
      forall p: nat | p != pip
        ensures IsStuck(s', p) <==> IsStuck(s, p)
      {
        assert forall f: nat :: PipOf(s', f, p) <==> PipOf(s, f, p);
        assert forall u: nat :: Creator(s', u, p) <==> Creator(s, u, p);
      }
    }
  }

  lemma FreedSlots(s: State, e: nat, pip: nat)
    requires PipOf(s, e, pip) && pip < |s.prioTbl|
    ensures SameSlots(s, FreeEvent(SetSlot(s, pip, Empty), e))
  {
    var s' := FreeEvent(SetSlot(s, pip, Empty), e);
    forall p: nat | p != pip
      ensures IsStuck(s', p) <==> IsStuck(s, p)
    {
      assert forall f: nat :: PipOf(s', f, p) <==> PipOf(s, f, p);
      assert forall u: nat :: Creator(s', u, p) <==> Creator(s, u, p);
    }
  }

  lemma DelMutexSlots(s: State, e: nat, always: bool)
    requires Inv(s) && IsMutex(s, e)
    ensures SameSlots(s, MutexDel(s, e, always))
  {
    assert MutexOk(s, e);
    if !DelRefused(s, e, always) {
      var s1, pip := Lowered(s, e), Pip(s.ev[e].kind.cnt);
      var s2 := if always then ReadyAll(s1, e, NULL_MSG, MutexBit) else s;
      assert Still(s, s1);
      if always {
        ReadyAllGentle(s1, e, NULL_MSG, MutexBit);
        GentleStill(s1, s2);
        StillChain(s, s1, s2);
      }
      StillSlots(s, s2);
      assert PipOf(s, e, pip);
      FreedSlots(s2, e, pip);
    }
  }

  lemma MutexSlots(s: State, op: MutexOp)
    requires Inv(s) && MutexEnabled(s, op)
    ensures SameSlots(s, MutexStep(s, op))
  {
    Grounds(s);
    match op
    case NewMutex(pip) => NewMutexSlots(s, pip);
    case AcceptMutex(e) => LiveTask(s, s.cur); OnlyPipSlots(s, MutexAccept(s, e), e);
    case PendMutex(e, timeout) => PendOnlyPip(s, e, timeout); OnlyPipSlots(s, MutexPend(s, e, timeout), e);
    case PostMutex(e) => PostOnlyPip(s, e); OnlyPipSlots(s, MutexPost(s, e), e);
    case DelMutex(e, always) => DelMutexSlots(s, e, always);
  }

  // ---------------------------------------------------------------- messages and flags

  lemma MsgServicesStill(s: State, e: nat, msg: int, front: bool)
    requires IsMessages(s, e)
    ensures Still(s, MsgPost(s, e, msg, front)) && Still(s, MsgAccept(s, e)) && Still(s, MsgFlush(s, e))
  {
  }

  lemma ReadyAllStill(s: State, e: nat, msg: int, bit: StatBit)
    requires e < |s.ev|
    ensures Still(s, ReadyAll(s, e, msg, bit))
  {
    ReadyAllGentle(s, e, msg, bit);
    GentleStill(s, ReadyAll(s, e, msg, bit));
  }

  lemma MsgDelStill(s: State, e: nat, always: bool)
    requires IsMessages(s, e)
    ensures Still(s, MsgDel(s, e, always))
  {
    ReadyAllStill(s, e, NULL_MSG, s.ev[e].kind.bit);
    var s1 := ReadyAll(s, e, NULL_MSG, s.ev[e].kind.bit);
    ReadyAllKind(s, e, NULL_MSG, s.ev[e].kind.bit);
    assert Still(s1, FreeEvent(s1, e));
    StillChain(s, s1, FreeEvent(s1, e));
  }

  lemma {:induction false} ReadyAllKind(s: State, e: nat, msg: int, bit: StatBit)
    requires e < |s.ev|
    ensures var s' := ReadyAll(s, e, msg, bit); e < |s'.ev| && s'.ev[e].kind == s.ev[e].kind
    decreases s.ev[e].waiters
  {
    if s.ev[e].waiters != {} && FirstWaiter(s, e) < |s.tcb| {
      ReadyAllKind(EventTaskRdy(s, e, msg, bit), e, msg, bit);
    }
  }

  lemma MsgStill(s: State, op: MsgOp)
    requires Inv(s) && MsgEnabled(s, op)
    ensures Still(s, MsgStep(s, op))
  {
    Grounds(s);
    match op
    case NewMsg(bit, size, msgs) => NewMsgStill(s, bit, size, msgs);
    case Post(e, msg, front) => MsgServicesStill(s, e, msg, front);
    case Broadcast(e, msg, front) => MsgServicesStill(s, e, msg, front); ReadyAllStill(s, e, msg, s.ev[e].kind.bit);
    case Accept(e) => MsgServicesStill(s, e, NULL_MSG, false);
    case Pend(e, timeout) =>
    case Flush(e) => MsgServicesStill(s, e, NULL_MSG, false);
    case DelMsg(e, always) => MsgDelStill(s, e, always);
  }

  lemma NewMsgStill(s: State, bit: StatBit, size: nat, msgs: seq<int>)
    requires CoreInv(s)
    ensures s.freeEvs != [] ==> s.freeEvs[0] < |s.ev|
    ensures Still(s, MsgCreate(s, bit, size, msgs))
  {
    Grounds(s);
    if s.freeEvs != [] {
      assert s.freeEvs[0] in s.freeEvs && EventOk(s, s.freeEvs[0]);
    }
  }

  lemma FlagPendStill(s: State, g: nat, wanted: Flags, w: WaitType, consume: bool, timeout: nat)
    requires g < |s.grp| && Calling(s)
    ensures Still(s, FlagPend(s, g, wanted, w, consume, timeout))
  {
  }

  lemma FlagStill(s: State, op: FlagOp)
    requires Inv(s) && FlagEnabled(s, op)
    ensures Still(s, FlagStep(s, op))
  {
    Grounds(s);
    match op
    case NewFlags(_, _) =>
    case AcceptFlags(_, _, _, _) =>
    case PendFlags(g, wanted, w, consume, timeout) => FlagPendStill(s, g, wanted, w, consume, timeout);
    case PostFlags(g, flags, toSet) =>
      var s1 := SetFlags(s, g, PostedFlags(s.grp[g].flags, flags, toSet));
      FlagWalkGentle(s1, g, s.grp[g].waiters);
      GentleStill(s1, FlagWalk(s1, g, s.grp[g].waiters));
    case DelFlags(g, _) =>
      FlagReadyAllGentle(s, s.grp[g].waiters);
      GentleStill(s, FlagReadyAll(s, s.grp[g].waiters));
    case EndFlags =>
      FlagResumeGentle(s);
      GentleStill(s, FlagResume(s));
  }

  // ---------------------------------------------------------------- the accounts

  /** A step leaves the stuck priorities as they are, but for the end of the deletion of a task that was
      creating another, which adds just the priority that it had reserved. */
  lemma StepSticksExact(s: State, op: Op)
    requires Inv(s) && Enabled(s, op)
    ensures Stuck(Step(s, op)) == Stuck(s) + StuckBy(s, op) && StuckBy(s, op) !! Stuck(s)
  {
    Grounds(s);
    match op
    case OnTask(o) =>
      if o.EndDelete? {
        DelEndSlots(s);
      } else {
        TaskSlots(s, o);
        SameStuck(s, Step(s, op));
      }
    case OnMutex(o) => MutexSlots(s, o); SameStuck(s, Step(s, op));
    case OnMsg(o) => MsgStill(s, o); StillSlots(s, Step(s, op)); SameStuck(s, Step(s, op));
    case OnFlags(o) => FlagStill(s, o); StillSlots(s, Step(s, op)); SameStuck(s, Step(s, op));
    case EndPend =>
      PendResumeGentle(s);
      GentleStill(s, Step(s, op));
      StillSlots(s, Step(s, op));
      SameStuck(s, Step(s, op));
  }

  /** How often the run deletes a task that was creating another. */
  ghost function Cuts(s: State, ops: seq<Op>): nat
    requires Inv(s) && Legal(s, ops)
    decreases |ops|
  {
    if ops == [] then 0 else
      StepKeepsInv(s, ops[0]);
      |StuckBy(s, ops[0])| + Cuts(Step(s, ops[0]), ops[1..])
  }

  lemma {:induction false} RunSticksExact(s: State, ops: seq<Op>)
    requires Inv(s) && Legal(s, ops)
    ensures |Stuck(After(s, ops))| == |Stuck(s)| + Cuts(s, ops)
    decreases |ops|
  {
    if ops != [] {
      StepKeepsInv(s, ops[0]);
      StepSticksExact(s, ops[0]);
      RunSticksExact(Step(s, ops[0]), ops[1..]);
    }
  }

  /** After every run from start-up there are just as many priorities that nobody can use any more as
      tasks were deleted while they were creating another. */
  lemma {:induction false} SlotsAccountedFor(tasks: nat, events: nat, groups: nat, ops: seq<Op>)
    requires tasks > 0 && (BootInv(tasks, events, groups); Legal(Boot(tasks, events, groups), ops))
    ensures Inv(Boot(tasks, events, groups))
    ensures |Stuck(After(Boot(tasks, events, groups), ops))| == Cuts(Boot(tasks, events, groups), ops)
  {
    var boot := Boot(tasks, events, groups);
    BootInv(tasks, events, groups);
    assert forall p: nat :: !IsReserved(boot, p);
    assert Stuck(boot) == {};
    RunSticksExact(boot, ops);
  }

  /** The marker, in every reachable state. */
  lemma ReservedExact(s: State, p: nat)
    requires Reachable(s)
    ensures IsReserved(s, p) <==>
              || (exists e: nat :: PipOf(s, e, p) && !OwnerRaised(s, e))
              || HasCreator(s, p)
              || p in Stuck(s)
  {
    ReachableInv(s);
    forall e: nat | PipOf(s, e, p)
      ensures IsReserved(s, p) <==> !OwnerRaised(s, e)
    {
      assert MutexOk(s, e);
    }
    if HasCreator(s, p) {
      var u: nat :| Creator(s, u, p);
      LiveTask(s, u);
    }
    if IsReserved(s, p) && IsPip(s, p) {
      var e: nat :| PipOf(s, e, p);
      assert !OwnerRaised(s, e);
    }
  }
}
