/** What a step leaves alone in pends that it has nothing to do with: mutexes that were awarded,
    messages on their way, and waits for flags. */
module Bystanders {
  import opened IndexLists
  import opened KernelState
  import opened KernelInvariant
  import opened MutexInvariant
  import opened TickBatch
  import opened KernelRuns

  /** The pend of task t on event e has been served: it will return without a timeout. */
  ghost predicate ServedBy(s: State, t: nat, e: nat, bit: StatBit)
  {
    && t in s.list && t < |s.tcb| && t < |s.phase|
    && s.phase[t] == InEvent(e, bit) && s.tcb[t].event == None
  }

  /** The pend of task t on mutex e will return without a timeout. */
  ghost predicate Awarded(s: State, t: nat, e: nat)
  {
    ServedBy(s, t, e, MutexBit)
  }

  /** No pend on a mutex is newly served, and those that were keep their mutex. */
  ghost predicate AwardsKept(s: State, s': State)
  {
    forall t: nat, e: nat :: Awarded(s', t, e) ==> Awarded(s, t, e) && (Owns(s, e, t) ==> Owns(s', e, t))
  }

  /** Task t has been handed a message by queue or mailbox e and has not returned with it yet. */
  ghost predicate Carries(s: State, t: nat, e: nat)
  {
    ServedBy(s, t, e, QueueBit) || ServedBy(s, t, e, MboxBit)
  }

  /** Queues keep their messages, get no waiters where there were none, and nothing is newly on its
      way or changed there. */
  ghost predicate QueuesKept(s: State, s': State)
  {
    && |s'.ev| == |s.ev|
    && (forall e: nat :: e < |s.ev| ==> QueueKept(s.ev[e], s'.ev[e]))
    && (forall t: nat, e: nat :: Carries(s', t, e) ==> Carries(s, t, e) && t < |s.tcb| && s'.tcb[t].msg == s.tcb[t].msg)
  }

  /** Besides, nothing on its way is lost. */
  ghost predicate MessagesKept(s: State, s': State)
  {
    QueuesKept(s, s') && forall t: nat, e: nat :: Carries(s, t, e) ==> Carries(s', t, e)
  }

  ghost predicate QueueKept(a: Event, b: Event)
  {
    a.kind.Messages? || b.kind.Messages? ==> b.kind == a.kind && (a.waiters == {} ==> b.waiters == {})
  }

  /** Groups keep their flags, no task newly waits for them, and those that do wait as before. */
  ghost predicate FlagsKept(s: State, s': State)
  {
    && |s'.grp| == |s.grp|
    && (forall g: nat :: g < |s.grp| ==> s'.grp[g].flags == s.grp[g].flags)
    && (forall g: nat, t: nat :: WaitsFor(s', g, t) ==> WaitsFor(s, g, t) && s'.tcb[t].node == s.tcb[t].node)
    && (forall t: nat :: InFlagPend(s', t) ==> InFlagPend(s, t) && s'.phase[t] == s.phase[t])
  }

  ghost predicate WaitsFor(s: State, g: nat, t: nat)
  {
    g < |s.grp| && t in s.grp[g].waiters && t < |s.tcb|
  }

  ghost predicate InFlagPend(s: State, t: nat)
  {
    t in s.list && t < |s.phase| && s.phase[t].InFlag?
  }

  lemma AwardsChain(s: State, s1: State, s2: State)
    requires AwardsKept(s, s1) && AwardsKept(s1, s2)
    ensures AwardsKept(s, s2)
  {
  }

  lemma MessagesChain(s: State, s1: State, s2: State)
    requires MessagesKept(s, s1) && MessagesKept(s1, s2)
    ensures MessagesKept(s, s2)
  {
    forall e: nat | e < |s.ev|
      ensures QueueKept(s.ev[e], s2.ev[e])
    {
      assert QueueKept(s.ev[e], s1.ev[e]) && QueueKept(s1.ev[e], s2.ev[e]);
    }
  }

  lemma FlagsChain(s: State, s1: State, s2: State)
    requires FlagsKept(s, s1) && FlagsKept(s1, s2)
    ensures FlagsKept(s, s2)
  {
  }

  /** Steps that have to do with none of the three. */
  ghost predicate Aside(s: State, s': State)
  {
    AwardsKept(s, s') && MessagesKept(s, s') && FlagsKept(s, s')
  }

  lemma AsideChain(s: State, s1: State, s2: State)
    requires Aside(s, s1) && Aside(s1, s2)
    ensures Aside(s, s2)
  {
    AwardsChain(s, s1, s2);
    MessagesChain(s, s1, s2);
    FlagsChain(s, s1, s2);
  }

  // ---------------------------------------------------------------- simple reasons to be aside

  ghost predicate SamePhases(s: State, s': State)
  {
    && |s'.tcb| == |s.tcb| && |s'.phase| == |s.phase| && s'.list == s.list
    && (forall t: nat :: t < |s.phase| ==> SamePhase(s.phase[t], s'.phase[t]))
  }

  predicate SamePhase(a: Phase, b: Phase)
  {
    b == a || (!a.InEvent? && (b == User || b.InCreate?))
  }

  /** Steps that touch neither the event control blocks nor what a TCB says of its pend. */
  ghost predicate SameEvents(s: State, s': State)
  {
    && SamePhases(s, s') && |s'.ev| == |s.ev|
    && (forall t: nat :: t < |s.tcb| ==> s'.tcb[t].event == s.tcb[t].event && s'.tcb[t].msg == s.tcb[t].msg)
    && (forall e: nat :: e < |s.ev| ==>
          s'.ev[e].kind == s.ev[e].kind && (s.ev[e].waiters == {} ==> s'.ev[e].waiters == {}))
  }

  lemma SameEventsKeep(s: State, s': State)
    requires SameEvents(s, s')
    ensures AwardsKept(s, s') && MessagesKept(s, s')
  {
    forall t: nat, e: nat, bit: StatBit
      ensures ServedBy(s', t, e, bit) <==> ServedBy(s, t, e, bit)
    {
    }
    forall t: nat, e: nat | Owns(s, e, t)
      ensures Owns(s', e, t)
    {
    }
  }

  /** Steps that touch neither the flag groups nor the nodes. */
  ghost predicate SameFlags(s: State, s': State)
  {
    && SamePhases(s, s') && s'.grp == s.grp
    && (forall t: nat :: t < |s.tcb| ==> s'.tcb[t].node == s.tcb[t].node)
  }

  lemma SameFlagsKeep(s: State, s': State)
    requires SameFlags(s, s')
    ensures FlagsKept(s, s')
  {
  }

  lemma SameKeep(s: State, s': State)
    requires SameEvents(s, s') && SameFlags(s, s')
    ensures Aside(s, s')
  {
    SameEventsKeep(s, s');
    SameFlagsKeep(s, s');
  }

  // ---------------------------------------------------------------- the services for tasks

  lemma TickOneAside(s: State, t: nat)
    requires t < |s.tcb|
    ensures Aside(s, TickTask(s, t))
  {
    SameKeep(s, TickTask(s, t));
  }

  lemma {:induction false} TickAside(s: State, l: seq<nat>)
    requires InTable(s, l)
    ensures Aside(s, TickWalk(s, l))
    decreases |l|
  {
    if l != [] && s.tcb[l[0]].prio != IDLE_PRIO {
      var s1 := TickTask(s, l[0]);
      TickOneAside(s, l[0]);
      TickAside(s1, l[1..]);
      AsideChain(s, s1, TickWalk(s1, l[1..]));
    } else {
      SameKeep(s, s);
    }
  }

  lemma {:induction false} TicksAside(s: State, l: seq<nat>, n: nat)
    requires InTable(s, l)
    ensures Aside(s, Ticks(s, l, n))
  {
    if n > 0 {
      TicksAside(s, l, n - 1);
      TickAside(Ticks(s, l, n - 1), l);
      AsideChain(s, Ticks(s, l, n - 1), Ticks(s, l, n));
    } else {
      SameKeep(s, s);
    }
  }

  lemma AddTaskAside(s: State, t0: nat, prio: nat)
    requires CoreInv(s) && prio < |s.prioTbl| && t0 < |s.tcb| && t0 !in s.list
    ensures Aside(s, AddTask(s, t0, prio))
  {
    var s' := AddTask(s, t0, prio);
    forall t: nat, e: nat, bit: StatBit | ServedBy(s', t, e, bit)
      ensures t != t0 && ServedBy(s, t, e, bit)
    {
    }
    forall g: nat, t: nat | WaitsFor(s', g, t)
      ensures t != t0
    {
      assert GroupOk(s, g) && NodeOk(s, g, t);
    }
  }

  lemma CreateEndAside(s: State)
    requires Inv(s) && TaskEnabled(s, EndCreate)
    ensures s.phase[s.cur].prio < N_PRIO && (s.phase[s.cur].taken.Got? ==> s.phase[s.cur].taken.tcb < |s.tcb|)
    ensures Aside(s, CreateEnd(s))
  {
    var ph, s1 := s.phase[s.cur], SetPhase(s, s.cur, User);
    ReservationGivenUp(s);
    SameKeep(s, s1);
    if ph.taken.Got? {
      AddTaskAside(s1, ph.taken.tcb, ph.prio);
    } else {
      SameKeep(s1, SetSlot(s1, ph.prio, Empty));
    }
    AsideChain(s, s1, CreateEnd(s));
  }

  lemma UnlinkFlags(s: State, t: nat)
    requires CoreInv(s) && t in s.list && t < |s.tcb|
    ensures FlagsKept(s, FlagUnlink(s, t))
  {
    var s' := FlagUnlink(s, t);
    LiveTask(s, t);
    forall g: nat | g < |s.grp|
      ensures |s'.grp| == |s.grp| && s'.grp[g].flags == s.grp[g].flags
      ensures forall u: nat :: u in s'.grp[g].waiters ==> u in s.grp[g].waiters && u != t
    {
      UnlinkedGroups(s, t, g);
    }
  }

  lemma QuiescedAside(s: State, t: nat, prio: nat)
    requires CoreInv(s) && t in s.list && t < |s.tcb|
    ensures Aside(s, Quiesced(s, t, prio))
  {
    var s', s1 := Quiesced(s, t, prio), FlagUnlink(s, t);
    LiveTask(s, t);
    SameEventsKeep(s, s');
    UnlinkFlags(s, t);
    assert s'.grp == s1.grp && s'.phase == s.phase && s'.list == s.list;
    assert forall u: nat :: u < |s.tcb| ==> s'.tcb[u].node == s1.tcb[u].node;
  }

  /** Nothing is lost when OSTaskDel begins. */
  lemma DelBeginAside(s: State, prio: nat)
    requires Inv(s) && TargetInTable(s, prio)
    ensures Aside(s, DelBegin(s, prio))
  {
    TargetIsLive(s, prio);
    if Deletes(s, prio) {
      QuiescedAside(s, Target(s, prio).value, prio);
    } else {
      SameKeep(s, s);
    }
  }

  /** At its end it drops what the task carries, and nothing else. */
  lemma DelEndAside(s: State)
    requires Inv(s) && s.dying.Some? && s.dying.value.prio < |s.prioTbl|
    ensures AwardsKept(s, DelEnd(s)) && QueuesKept(s, DelEnd(s)) && FlagsKept(s, DelEnd(s))
    ensures forall u: nat, e: nat :: !IsDying(s, u) && Carries(s, u, e) ==> Carries(DelEnd(s), u, e)
  {
    var s', t := DelEnd(s), s.dying.value.task;
    RemoveMembers(s.list, t);
    forall u: nat, e: nat, bit: StatBit
      ensures ServedBy(s', u, e, bit) ==> ServedBy(s, u, e, bit)
      ensures u != t && ServedBy(s, u, e, bit) ==> ServedBy(s', u, e, bit)
    {
    }
  }

  lemma ReprioAside(s: State, t: nat, newp: nat)
    requires CoreInv(s) && t in s.list && t < |s.tcb| && !IsDying(s, t)
    ensures SameEvents(s, Reprio(s, t, newp)) && SameFlags(s, Reprio(s, t, newp))
  {
    LiveTask(s, t);
  }

  lemma ChangeAside(s: State, oldp: nat, newp: nat)
    requires Inv(s) && newp < |s.prioTbl| && TargetInTable(s, oldp)
    requires forall t: nat :: Target(s, oldp) == Some(t) && s.prioTbl[newp].Empty? ==> !IsDying(s, t)
    ensures Aside(s, ChangePrio(s, oldp, newp))
  {
    TargetIsLive(s, oldp);
    if s.prioTbl[newp].Empty? && Target(s, oldp).Some? {
      var s1 := Reprio(s, Target(s, oldp).value, newp);
      ReprioAside(s, Target(s, oldp).value, newp);
      SameKeep(s, s1);
      SameKeep(s1, ChangePrio(s, oldp, newp));
      AsideChain(s, s1, ChangePrio(s, oldp, newp));
    } else {
      SameKeep(s, s);
    }
  }

  lemma CreateBeginAside(s: State, prio: nat)
    requires Running(s) && prio < |s.prioTbl|
    ensures Aside(s, CreateBegin(s, prio))
  {
    SameKeep(s, CreateBegin(s, prio));
  }

  lemma SuspendAside(s: State, prio: nat)
    requires TargetInTable(s, prio)
    ensures Aside(s, TaskSuspend(s, prio)) && Aside(s, TaskResume(s, prio))
  {
    SameKeep(s, TaskSuspend(s, prio));
    SameKeep(s, TaskResume(s, prio));
  }

  lemma DelayAside(s: State, ticks: nat)
    requires s.cur < |s.tcb|
    ensures Aside(s, TimeDly(s, ticks))
  {
    SameKeep(s, TimeDly(s, ticks));
  }

  lemma DelayResumeAside(s: State, prio: nat)
    requires TargetInTable(s, prio)
    ensures Aside(s, TimeDlyResume(s, prio))
  {
    SameKeep(s, TimeDlyResume(s, prio));
  }

  lemma TaskStepAside(s: State, op: TaskOp)
    requires Inv(s) && TaskEnabled(s, op) && !op.EndDelete?
    ensures Aside(s, TaskStep(s, op))
  {
    Grounds(s);
    match op
    case Switch(t) => SameKeep(s, SwitchTo(s, t));
    case TickOne(t) => TickOneAside(s, t);
    case Tick => TickAside(s, s.list);
    case Advance(n) => BatchIsTicks(s, s.list, n); TicksAside(s, s.list, n);
    case BeginCreate(prio) => CreateBeginAside(s, prio);
    case TakeFree => SameKeep(s, TakeTcb(s));
    case EndCreate => CreateEndAside(s);
    case Delete(prio) => DelBeginAside(s, SelfOr(s, prio));
    case Suspend(prio, _) => SuspendAside(s, SelfOr(s, prio));
    case Resume(prio) => SuspendAside(s, prio);
    case Change(oldp, newp) => ChangeAside(s, SelfOr(s, oldp), newp);
    case Delay(ticks) => DelayAside(s, ticks);
    case DelayResume(prio) => DelayResumeAside(s, prio);
  }

  // ---------------------------------------------------------------- flags, seen from the events

  lemma FlagTaskRdyEvents(s: State, t: nat, rdy: Flags)
    requires t < |s.tcb|
    ensures SameEvents(s, FlagTaskRdy(s, t, rdy))
  {
  }

  lemma {:induction false} FlagWalkEvents(s: State, g: nat, l: seq<nat>)
    requires g < |s.grp| && InTable(s, l)
    ensures AwardsKept(s, FlagWalk(s, g, l)) && MessagesKept(s, FlagWalk(s, g, l))
    decreases |l|
  {
    if l == [] || s.tcb[l[0]].node.None? {
      SameEventsKeep(s, s);
    }
    if l != [] {
      var t := l[0];
      match s.tcb[t].node
      case None => FlagWalkEvents(s, g, l[1..]);
      case Some(nd) =>
        if Satisfied(s.grp[g].flags, nd.flags, nd.wait) {
          var rdy := FlagsMet(s.grp[g].flags, nd.flags, nd.wait);
          var s1 := FlagTaskRdy(s, t, rdy);
          FlagTaskRdyEvents(s, t, rdy);
          SameEventsKeep(s, s1);
          FlagWalkEvents(s1, g, l[1..]);
          AwardsChain(s, s1, FlagWalk(s1, g, l[1..]));
          MessagesChain(s, s1, FlagWalk(s1, g, l[1..]));
        } else {
          FlagWalkEvents(s, g, l[1..]);
        }
    }
  }

  lemma {:induction false} FlagReadyAllEvents(s: State, l: seq<nat>)
    requires InTable(s, l)
    ensures AwardsKept(s, FlagReadyAll(s, l)) && MessagesKept(s, FlagReadyAll(s, l))
    decreases |l|
  {
    if l != [] {
      var s1 := FlagTaskRdy(s, l[0], {});
      FlagTaskRdyEvents(s, l[0], {});
      SameEventsKeep(s, s1);
      FlagReadyAllEvents(s1, l[1..]);
      AwardsChain(s, s1, FlagReadyAll(s1, l[1..]));
      MessagesChain(s, s1, FlagReadyAll(s1, l[1..]));
    } else {
      SameEventsKeep(s, s);
    }
  }

  lemma FlagPendEvents(s: State, g: nat, flags: Flags, w: WaitType, consume: bool, timeout: nat)
    requires Inv(s) && Calling(s) && g < |s.grp|
    ensures AwardsKept(s, FlagPend(s, g, flags, w, consume, timeout))
            && MessagesKept(s, FlagPend(s, g, flags, w, consume, timeout))
  {
    var s' := FlagPend(s, g, flags, w, consume, timeout);
    if Satisfied(s.grp[g].flags, flags, w) {
      SameEventsKeep(s, s');
    } else {
      forall t: nat, e: nat, bit: StatBit
        ensures ServedBy(s', t, e, bit) <==> ServedBy(s, t, e, bit)
      {
      }
      forall t: nat, e: nat | Owns(s, e, t)
        ensures Owns(s', e, t)
      {
      }
    }
  }

  lemma FlagPostEvents(s: State, g: nat, flags: Flags, toSet: bool)
    requires g < |s.grp| && InTable(s, s.grp[g].waiters)
    ensures AwardsKept(s, FlagPost(s, g, flags, toSet)) && MessagesKept(s, FlagPost(s, g, flags, toSet))
  {
    var s1 := SetFlags(s, g, PostedFlags(s.grp[g].flags, flags, toSet));
    SameEventsKeep(s, s1);
    FlagWalkEvents(s1, g, s.grp[g].waiters);
    AwardsChain(s, s1, FlagPost(s, g, flags, toSet));
    MessagesChain(s, s1, FlagPost(s, g, flags, toSet));
  }

  lemma FlagDelEvents(s: State, g: nat, always: bool)
    requires g < |s.grp| && InTable(s, s.grp[g].waiters)
    ensures AwardsKept(s, FlagDel(s, g, always)) && MessagesKept(s, FlagDel(s, g, always))
  {
    var s1 := if always then FlagReadyAll(s, s.grp[g].waiters) else s;
    if always {
      FlagReadyAllEvents(s, s.grp[g].waiters);
    } else {
      SameEventsKeep(s, s);
    }
    var s2 := s1.(grp := s1.grp[g := s1.grp[g].(used := false, flags := {})]);
    SameEventsKeep(s1, s2);
    AwardsChain(s, s1, s2);
    MessagesChain(s, s1, s2);
  }

  lemma FlagStepEvents(s: State, op: FlagOp)
    requires Inv(s) && FlagEnabled(s, op)
    ensures AwardsKept(s, FlagStep(s, op)) && MessagesKept(s, FlagStep(s, op))
  {
    Grounds(s);
    match op
    case NewFlags(g, flags) => SameEventsKeep(s, FlagCreate(s, g, flags));
    case AcceptFlags(g, flags, wait, consume) => SameEventsKeep(s, FlagAccept(s, g, flags, wait, consume));
    case PendFlags(g, flags, wait, consume, timeout) => FlagPendEvents(s, g, flags, wait, consume, timeout);
    case PostFlags(g, flags, toSet) => FlagPostEvents(s, g, flags, toSet);
    case DelFlags(g, always) => FlagDelEvents(s, g, always);
    case EndFlags => SameEventsKeep(s, FlagResume(s));
  }

  // ---------------------------------------------------------------- the second half of a pend

  lemma PendResumeEvents(s: State)
    requires Enabled(s, EndPend) && s.phase[s.cur].e < |s.ev|
    ensures AwardsKept(s, PendResume(s)) && QueuesKept(s, PendResume(s))
    ensures forall t: nat, e: nat :: t != s.cur && Carries(s, t, e) ==> Carries(PendResume(s), t, e)
  {
    var s' := PendResume(s);
    forall t: nat, e: nat, bit: StatBit
      ensures ServedBy(s', t, e, bit) ==> ServedBy(s, t, e, bit)
      ensures t != s.cur && ServedBy(s, t, e, bit) ==> ServedBy(s', t, e, bit)
    {
    }
    forall t: nat, e: nat | Owns(s, e, t)
      ensures Owns(s', e, t)
    {
    }
  }

  lemma PendResumeFlags(s: State)
    requires Enabled(s, EndPend) && s.phase[s.cur].e < |s.ev|
    ensures FlagsKept(s, PendResume(s))
  {
    SameFlagsKeepOrPend(s, PendResume(s));
  }

  // ---------------------------------------------------------------- readying a waiter

  /** A hand-off is nothing to tasks that carry messages. */
  lemma HandOverAside(s: State, e: nat, msg: int)
    requires CoreInv(s) && IsMutex(s, e) && s.ev[e].waiters != {} && FirstWaiter(s, e) < |s.tcb|
    ensures MessagesKept(s, EventTaskRdy(s, e, msg, MutexBit))
  {
    WaiterFound(s, e);
  }

  /** A message goes to a task that pends for messages. */
  lemma DeliveryAside(s: State, e: nat, msg: int)
    requires CoreInv(s) && IsMessages(s, e) && s.ev[e].waiters != {} && FirstWaiter(s, e) < |s.tcb|
    ensures AwardsKept(s, EventTaskRdy(s, e, msg, s.ev[e].kind.bit))
  {
    WaiterFound(s, e);
    assert EventOk(s, e);
  }

  lemma ReadiedFlags(s: State, e: nat, msg: int, bit: StatBit)
    requires e < |s.ev| && s.ev[e].waiters != {} && FirstWaiter(s, e) < |s.tcb|
    ensures FlagsKept(s, EventTaskRdy(s, e, msg, bit))
  {
    SameFlagsKeep(s, EventTaskRdy(s, e, msg, bit));
  }

  lemma {:induction false} ReadyAllFlags(s: State, e: nat, msg: int, bit: StatBit)
    requires e < |s.ev|
    ensures FlagsKept(s, ReadyAll(s, e, msg, bit))
    decreases s.ev[e].waiters
  {
    if s.ev[e].waiters != {} && FirstWaiter(s, e) < |s.tcb| {
      var s1 := EventTaskRdy(s, e, msg, bit);
      ReadiedFlags(s, e, msg, bit);
      ReadyAllFlags(s1, e, msg, bit);
      FlagsChain(s, s1, ReadyAll(s1, e, msg, bit));
    } else {
      SameFlagsKeep(s, s);
    }
  }

  lemma {:induction false} ReadyAllMessages(s: State, e: nat, msg: int)
    requires CoreInv(s) && IsMutex(s, e)
    ensures MessagesKept(s, ReadyAll(s, e, msg, MutexBit))
    decreases s.ev[e].waiters
  {
    if s.ev[e].waiters != {} {
      WaiterFound(s, e);
      var s1 := EventTaskRdy(s, e, msg, MutexBit);
      EventTaskRdyKeeps(s, e, msg);
      HandOverAside(s, e, msg);
      ReadyAllMessages(s1, e, msg);
      MessagesChain(s, s1, ReadyAll(s1, e, msg, MutexBit));
    } else {
      SameEventsKeep(s, s);
    }
  }

  lemma {:induction false} ReadyAllAwards(s: State, e: nat, msg: int)
    requires CoreInv(s) && IsMessages(s, e)
    ensures AwardsKept(s, ReadyAll(s, e, msg, s.ev[e].kind.bit))
    decreases s.ev[e].waiters
  {
    if s.ev[e].waiters != {} {
      WaiterFound(s, e);
      var s1 := EventTaskRdy(s, e, msg, s.ev[e].kind.bit);
      EventTaskRdyKeeps(s, e, msg);
      DeliveryAside(s, e, msg);
      ReadyAllAwards(s1, e, msg);
      AwardsChain(s, s1, ReadyAll(s1, e, msg, s.ev[e].kind.bit));
    }
  }

  // ---------------------------------------------------------------- mutexes, seen from the rest

  lemma NewMutexAside(s: State, pip: nat)
    requires CoreInv(s) && pip < N_PRIO && (s.freeEvs != [] ==> s.freeEvs[0] < |s.ev|)
    ensures MessagesKept(s, MutexCreate(s, pip)) && FlagsKept(s, MutexCreate(s, pip))
  {
    if s.freeEvs != [] {
      assert EventOk(s, s.freeEvs[0]) && s.freeEvs[0] in s.freeEvs;
    }
    SameFlagsKeep(s, MutexCreate(s, pip));
  }

  lemma SetMutexAside(s: State, e: nat, k: Kind)
    requires IsMutex(s, e) && !k.Messages?
    ensures MessagesKept(s, SetKind(s, e, k)) && FlagsKept(s, SetKind(s, e, k))
  {
    SameFlagsKeep(s, SetKind(s, e, k));
  }

  lemma PromoteAside(s: State, e: nat)
    requires Inv(s) && IsMutex(s, e) && s.cur < |s.tcb|
    ensures Aside(s, Promote(s, e))
    ensures Promote(s, e).cur == s.cur && |Promote(s, e).tcb| == |s.tcb| && Promote(s, e).phase == s.phase
            && IsMutex(Promote(s, e), e)
  {
    var m, s1 := s.ev[e].kind, Promote(s, e);
    assert MutexOk(s, e);
    if s1 == s {
      SameKeep(s, s);
    } else {
      ReprioAside(s, m.owner.value, Pip(m.cnt));
      SameKeep(s, s1);
    }
  }

  lemma MutexBlockAside(s: State, t: nat, e: nat, timeout: nat)
    requires t < |s.tcb| && t < |s.phase| && IsMutex(s, e) && s.phase[t] == User
    ensures Aside(s, Block(s, t, e, MutexBit, timeout))
  {
    SameFlagsKeepOrPend(s, Block(s, t, e, MutexBit, timeout));
  }

  lemma SameFlagsKeepOrPend(s: State, s': State)
    requires |s'.tcb| == |s.tcb| && |s'.phase| == |s.phase| && s'.list == s.list && s'.grp == s.grp
    requires forall t: nat :: t < |s.phase| ==> s'.phase[t] == s.phase[t] || !s'.phase[t].InFlag?
    requires forall t: nat :: t < |s.tcb| ==> s'.tcb[t].node == s.tcb[t].node
    ensures FlagsKept(s, s')
  {
  }

  lemma MutexPendAside(s: State, e: nat, timeout: nat)
    requires Inv(s) && IsMutex(s, e) && s.cur < |s.tcb| && s.phase[s.cur] == User
    ensures MessagesKept(s, MutexPend(s, e, timeout)) && FlagsKept(s, MutexPend(s, e, timeout))
  {
    if LowByte(s.ev[e].kind.cnt) == AVAILABLE {
      SetMutexAside(s, e, Acquire(s, e).ev[e].kind);
    } else {
      PromoteAside(s, e);
      MutexBlockAside(Promote(s, e), s.cur, e, timeout);
      AsideChain(s, Promote(s, e), MutexPend(s, e, timeout));
    }
  }

  lemma RestoreAside(s: State, e: nat)
    requires IsMutex(s, e) && s.cur < |s.tcb|
    ensures Aside(s, Restore(s, e)) && IsMutex(Restore(s, e), e)
  {
    SameKeep(s, Restore(s, e));
  }

  lemma HandOffAside(s: State, e: nat)
    requires CoreInv(s) && IsMutex(s, e)
    ensures MessagesKept(s, HandOff(s, e)) && FlagsKept(s, HandOff(s, e))
  {
    if s.ev[e].waiters != {} {
      WaiterFound(s, e);
      var s1 := EventTaskRdy(s, e, NULL_MSG, MutexBit);
      HandOverAside(s, e, NULL_MSG);
      ReadiedFlags(s, e, NULL_MSG, MutexBit);
      SetMutexAside(s1, e, HandOff(s, e).ev[e].kind);
      MessagesChain(s, s1, HandOff(s, e));
      FlagsChain(s, s1, HandOff(s, e));
    } else {
      SetMutexAside(s, e, HandOff(s, e).ev[e].kind);
    }
  }

  lemma MutexPostAside(s: State, e: nat)
    requires Inv(s) && Calling(s) && IsMutex(s, e)
    ensures MessagesKept(s, MutexPost(s, e)) && FlagsKept(s, MutexPost(s, e))
  {
    if s.ev[e].kind.owner == Some(s.cur) {
      RestoreKeeps(s, e);
      RestoreAside(s, e);
      HandOffAside(Restore(s, e), e);
      MessagesChain(s, Restore(s, e), MutexPost(s, e));
      FlagsChain(s, Restore(s, e), MutexPost(s, e));
    } else {
      SameKeep(s, s);
    }
  }

  lemma LoweredAside(s: State, e: nat)
    requires Inv(s) && IsMutex(s, e)
    ensures Aside(s, Lowered(s, e)) && IsMutex(Lowered(s, e), e)
  {
    SameKeep(s, Lowered(s, e));
  }

  lemma FreedMutexAside(s: State, e: nat, pip: nat)
    requires IsMutex(s, e) && pip < |s.prioTbl|
    ensures MessagesKept(s, FreeEvent(SetSlot(s, pip, Empty), e)) && FlagsKept(s, FreeEvent(SetSlot(s, pip, Empty), e))
  {
    SameFlagsKeep(s, FreeEvent(SetSlot(s, pip, Empty), e));
  }

  lemma MutexDelAside(s: State, e: nat, always: bool)
    requires Inv(s) && IsMutex(s, e) && (DelRefused(s, e, always) || DelSafe(s, e, always))
    ensures MessagesKept(s, MutexDel(s, e, always)) && FlagsKept(s, MutexDel(s, e, always))
  {
    assert MutexOk(s, e);
    if !always && s.ev[e].waiters != {} {
      SameKeep(s, s);
    } else if always {
      var s1 := Lowered(s, e);
      var s2 := ReadyAll(s1, e, NULL_MSG, MutexBit);
      LoweredAside(s, e);
      LoweredKeeps(s, e);
      ReadyAllKeeps(s1, e, NULL_MSG);
      ReadyAllMessages(s1, e, NULL_MSG);
      ReadyAllFlags(s1, e, NULL_MSG, MutexBit);
      DelAlwaysCore(s, e);
      FreedMutexAside(s2, e, Pip(s.ev[e].kind.cnt));
      MessagesChain(s, s1, s2);
      MessagesChain(s, s2, MutexDel(s, e, always));
      FlagsChain(s, s1, s2);
      FlagsChain(s, s2, MutexDel(s, e, always));
    } else {
      FreedMutexAside(s, e, Pip(s.ev[e].kind.cnt));
    }
  }

  lemma MutexStepAside(s: State, op: MutexOp)
    requires Inv(s) && MutexEnabled(s, op)
    ensures MessagesKept(s, MutexStep(s, op)) && FlagsKept(s, MutexStep(s, op))
  {
    Grounds(s);
    match op
    case NewMutex(pip) => NewMutexAside(s, pip);
    case AcceptMutex(e) =>
      if LowByte(s.ev[e].kind.cnt) == AVAILABLE {
        SetMutexAside(s, e, Acquire(s, e).ev[e].kind);
      } else {
        SameKeep(s, s);
      }
    case PendMutex(e, timeout) => MutexPendAside(s, e, timeout);
    case PostMutex(e) => MutexPostAside(s, e);
    case DelMutex(e, always) => MutexDelAside(s, e, always);
  }

  // ---------------------------------------------------------------- messages, seen from the rest

  lemma MsgDelFlags(s: State, e: nat, always: bool)
    requires Inv(s) && IsMessages(s, e)
    ensures FlagsKept(s, MsgDel(s, e, always))
  {
    var s' := MsgDel(s, e, always);
    if always {
      var s1 := ReadyAll(s, e, NULL_MSG, s.ev[e].kind.bit);
      ReadyAllFlags(s, e, NULL_MSG, s.ev[e].kind.bit);
      ReadyAllKeeps(s, e, NULL_MSG);
      SameFlagsKeep(s1, FreeEvent(s1, e));
      FlagsChain(s, s1, s');
    } else {
      SameFlagsKeep(s, s');
    }
  }

  lemma MsgPostFlags(s: State, e: nat, msg: int, front: bool)
    requires IsMessages(s, e)
    ensures FlagsKept(s, MsgPost(s, e, msg, front)) && FlagsKept(s, MsgBroadcast(s, e, msg, front))
  {
    SameFlagsKeep(s, MsgPost(s, e, msg, front));
    ReadyAllFlags(s, e, msg, s.ev[e].kind.bit);
  }

  lemma MsgPendFlags(s: State, e: nat, timeout: nat)
    requires IsMessages(s, e) && s.cur < |s.tcb| && s.cur < |s.phase|
    ensures FlagsKept(s, MsgPend(s, e, timeout))
  {
    SameFlagsKeepOrPend(s, MsgPend(s, e, timeout));
  }

  lemma MsgStepFlags(s: State, op: MsgOp)
    requires Inv(s) && MsgEnabled(s, op)
    ensures FlagsKept(s, MsgStep(s, op))
  {
    Grounds(s);
    match op
    case NewMsg(bit, size, msgs) => SameFlagsKeep(s, MsgCreate(s, bit, size, msgs));
    case Post(e, msg, front) => MsgPostFlags(s, e, msg, front);
    case Broadcast(e, msg, front) => MsgPostFlags(s, e, msg, front);
    case Accept(e) => SameFlagsKeep(s, MsgAccept(s, e));
    case Pend(e, timeout) => MsgPendFlags(s, e, timeout);
    case Flush(e) => SameFlagsKeep(s, MsgFlush(s, e));
    case DelMsg(e, always) => MsgDelFlags(s, e, always);
  }
}
