/** What every critical section of the kernel keeps: the ready table, the wait lists, the priority
    table and the TCB lists agree with the TCBs, also while a pend has timed out and the task has
    not run since. */
module KernelInvariant {
  import opened IndexLists
  import opened KernelState

  // ---------------------------------------------------------------- the invariant

  ghost predicate Shape(s: State)
  {
    |s.phase| == |s.tcb| && |s.prioTbl| == N_PRIO && s.list != []
  }

  /** Every TCB is on exactly one of the two lists, or has been taken by OS_TCBInit. */
  ghost predicate Lists(s: State)
  {
    && Distinct(s.list) && Distinct(s.freeTcbs) && InTable(s, s.list) && InTable(s, s.freeTcbs)
    && (forall t: nat :: t < |s.tcb| ==> (t in s.list <==> t !in s.freeTcbs && t !in s.away))
    && (forall t: nat :: t in s.away ==> t < |s.tcb| && t !in s.freeTcbs)
  }

  ghost predicate Waiting(x: Task, e: nat, bit: StatBit)
  {
    x.event == Some(e) && bit in x.stat && x.stat <= {bit, SuspendBit} && !x.pendTO
  }

  /** The delay of the pend has ended, but the task has not run since. */
  ghost predicate TimedOut(x: Task, e: nat)
  {
    x.event == Some(e) && x.stat <= {SuspendBit} && x.dly == 0 && x.pendTO
  }

  /** The event has come, but the task has not run since. */
  ghost predicate Served(x: Task)
  {
    x.event == None && x.stat <= {SuspendBit} && x.dly == 0 && !x.pendTO
  }

  ghost predicate FlagWaiting(x: Task, g: nat, w: WaitType)
  {
    x.node.Some? && x.node.value.grp == g && x.node.value.wait == w && FlagBit in x.stat
    && x.stat <= {FlagBit, SuspendBit}
    && !x.pendTO
  }

  ghost predicate FlagTimedOut(x: Task, g: nat, w: WaitType)
  {
    x.node.Some? && x.node.value.grp == g && x.node.value.wait == w && x.stat <= {SuspendBit} && x.dly == 0 && x.pendTO
  }

  /** A task's TCB fits the place in the code where the task is. */
  ghost predicate PhaseOk(x: Task, ph: Phase)
  {
    match ph
    case User => x.event == None && x.node == None && x.stat <= {SuspendBit} && !x.pendTO
    case InCreate(_, _) => x.event == None && x.node == None && x.stat <= {SuspendBit} && !x.pendTO
    case InEvent(e, bit) =>
      x.node == None && bit != SuspendBit && bit != FlagBit && (Waiting(x, e, bit) || TimedOut(x, e) || Served(x))
    case InFlag(g, w, _) =>
      x.event == None && (FlagWaiting(x, g, w) || FlagTimedOut(x, g, w) || (x.node == None && Served(x)))
  }

  /** What a TCB points to knows the task. */
  ghost predicate LinksOk(s: State, t: nat)
    requires t < |s.tcb| && t < |s.phase|
  {
    var x := s.tcb[t];
    && (x.event.Some? ==>
          var e := x.event.value;
          e < |s.ev| && !s.ev[e].kind.Unused? && x.prio in s.ev[e].waiters
          && s.phase[t] == InEvent(e, KindBit(s.ev[e].kind)))
    && (x.node.Some? ==> x.node.value.grp < |s.grp| && t in s.grp[x.node.value.grp].waiters)
    && (s.phase[t].InEvent? ==> s.phase[t].e < |s.ev|)
    && (s.phase[t].InFlag? ==> s.phase[t].g < |s.grp|)
  }

  /** Between the two critical sections of OSTaskDel the task is still on the list and found at its
      priority, but it is neither ready nor waiting, whatever its TCB says. */
  ghost predicate DyingOk(s: State, t: nat)
    requires t < |s.tcb| && IsDying(s, t) && s.list != []
  {
    var x := s.tcb[t];
    x.prio !in s.ready && x.prio == s.dying.value.prio && x.dly == 0 && x.node == None && t != Idle(s)
    && x.stat <= {SuspendBit} && (x.event.Some? ==> x.event.value < |s.ev|)
  }

  ghost predicate TaskOk(s: State, t: nat)
    requires Shape(s) && t < |s.tcb|
  {
    var x := s.tcb[t];
    && x.prio < N_PRIO && s.prioTbl[x.prio] == Tcb(t)
    && (x.prio == IDLE_PRIO <==> t == Idle(s))
    && (if IsDying(s, t) then DyingOk(s, t)
        else (x.prio in s.ready <==> Runnable(x)) && PhaseOk(x, s.phase[t]) && LinksOk(s, t))
  }

  ghost predicate SlotOk(s: State, p: nat)
    requires Shape(s) && p < N_PRIO
  {
    s.prioTbl[p].Tcb? ==> s.prioTbl[p].task in s.list && (s.prioTbl[p].task == Idle(s) ==> p == IDLE_PRIO)
  }

  ghost predicate ReadyOk(s: State, p: nat)
    requires Shape(s)
  {
    && p < N_PRIO && s.prioTbl[p].Tcb? && s.prioTbl[p].task < |s.tcb|
    && s.tcb[s.prioTbl[p].task].prio == p
  }

  /** A priority in a wait list is that of a task which points back to the event. */
  ghost predicate WaiterOk(s: State, e: nat, p: nat)
    requires Shape(s)
  {
    ReadyOk(s, p) && s.tcb[s.prioTbl[p].task].event == Some(e) && !IsDying(s, s.prioTbl[p].task)
  }

  /** Messages are those of queues and mailboxes. */
  predicate KindOk(k: Kind)
  {
    k.Messages? ==> k.bit == QueueBit || k.bit == MboxBit
  }

  ghost predicate EventOk(s: State, e: nat)
    requires e < |s.ev|
  {
    && (s.ev[e].kind.Unused? ==> s.ev[e].waiters == {})
    && KindOk(s.ev[e].kind)
    && (e in s.freeEvs <==> s.ev[e].kind.Unused?)
  }

  ghost predicate NodeOk(s: State, g: nat, t: nat)
  {
    t in s.list && t < |s.tcb| && s.tcb[t].node.Some? && s.tcb[t].node.value.grp == g
  }

  ghost predicate GroupOk(s: State, g: nat)
    requires g < |s.grp|
  {
    && Distinct(s.grp[g].waiters) && (!s.grp[g].used ==> s.grp[g].waiters == [])
    && (forall t: nat :: t in s.grp[g].waiters ==> NodeOk(s, g, t))
  }

  /** The task is creating another one, with that TCB. */
  predicate Holding(ph: Phase, t: nat)
  {
    ph.InCreate? && ph.taken == Got(t)
  }

  /** A reserved priority is reserved by one task only, and so is a TCB that it has taken. */
  ghost predicate ReservationOk(s: State, t: nat)
    requires Shape(s) && t < |s.tcb|
  {
    s.phase[t].InCreate? ==>
      && s.phase[t].prio < N_PRIO && s.prioTbl[s.phase[t].prio] == Reserved
      && (forall u: nat :: u in s.list && u < |s.phase| && Creating(s.phase[u], s.phase[t].prio) ==> u == t)
      && (s.phase[t].taken.Got? ==>
            && s.phase[t].taken.tcb in s.away
            && (forall u: nat :: u in s.list && u < |s.phase| && Holding(s.phase[u], s.phase[t].taken.tcb) ==> u == t))
  }

  /** The idle task waits for nothing; it may create tasks, as the start-up code does whose place it
      takes until multitasking starts. */
  ghost predicate IdleOk(s: State)
    requires Shape(s) && Idle(s) < |s.tcb|
  {
    IdlePhase(s.phase[Idle(s)]) && Runnable(s.tcb[Idle(s)])
  }

  predicate IdlePhase(ph: Phase)
  {
    ph.User? || ph.InCreate?
  }

  ghost predicate CoreInv(s: State)
  {
    && Shape(s) && Lists(s) && IdleOk(s)
    && (s.dying.Some? ==> s.dying.value.task in s.list)
    && (forall t: nat :: t in s.list && t < |s.tcb| ==> TaskOk(s, t) && ReservationOk(s, t))
    && (forall p: nat :: p < N_PRIO ==> SlotOk(s, p))
    && (forall p: nat :: p in s.ready ==> ReadyOk(s, p))
    && (forall e: nat, p: nat :: e < |s.ev| && p in s.ev[e].waiters ==> WaiterOk(s, e, p))
    && Distinct(s.freeEvs) && (forall e: nat :: e in s.freeEvs ==> e < |s.ev|)
    && (forall e: nat :: e < |s.ev| ==> EventOk(s, e))
    && (forall g: nat :: g < |s.grp| ==> GroupOk(s, g))
  }

  // ---------------------------------------------------------------- when one task changes

  lemma LiveTask(s: State, t: nat)
    requires CoreInv(s) && t in s.list
    ensures t < |s.tcb| && TaskOk(s, t) && ReservationOk(s, t)
  {
    var i :| 0 <= i < |s.list| && s.list[i] == t;
  }

  lemma IdleIsLive(s: State)
    requires CoreInv(s)
    ensures Idle(s) in s.list && Idle(s) < |s.tcb| && s.tcb[Idle(s)].prio == IDLE_PRIO
  {
    LiveTask(s, Idle(s));
  }

  /** No two live tasks have the same priority. */
  lemma PriosDiffer(s: State, t: nat, u: nat)
    requires CoreInv(s) && t in s.list && u in s.list && t != u
    ensures t < |s.tcb| && u < |s.tcb| && s.tcb[t].prio != s.tcb[u].prio
  {
    LiveTask(s, t);
    LiveTask(s, u);
  }

  /** Everything but the TCB and the phase of t, and what the kernel records under its number and
      its priority, is as before. */
  ghost predicate OnlyTask(s: State, s': State, t: nat)
    requires t < |s.tcb|
  {
    && |s'.tcb| == |s.tcb| && |s'.phase| == |s.phase| && |s'.ev| == |s.ev| && |s'.grp| == |s.grp|
    && s'.list == s.list && s'.freeTcbs == s.freeTcbs && s'.prioTbl == s.prioTbl && s'.freeEvs == s.freeEvs
    && s'.tcb[t].prio == s.tcb[t].prio && s'.away == s.away && SameDying(s, s', t)
    && (forall u: nat :: 0 <= u < |s.tcb| && u != t ==> s'.tcb[u] == s.tcb[u])
    && (forall u: nat :: 0 <= u < |s.phase| && u != t ==> s'.phase[u] == s.phase[u])
    && (forall p: nat :: p != s.tcb[t].prio ==> (p in s'.ready <==> p in s.ready))
    && (forall e: nat :: 0 <= e < |s.ev| ==> SameEvent(s.ev[e], s'.ev[e], s.tcb[t].prio))
    && (forall g: nat :: 0 <= g < |s.grp| ==> SameGroup(s.grp[g], s'.grp[g], t))
  }

  /** OSTaskDel may have begun for t, but not for another task. */
  ghost predicate SameDying(s: State, s': State, t: nat)
  {
    s'.dying == s.dying || (s.dying == None && IsDying(s', t))
  }

  ghost predicate SameEvent(a: Event, b: Event, prio: nat)
  {
    && SameUse(a.kind, b.kind)
    && (forall p: nat :: p != prio ==> (p in b.waiters <==> p in a.waiters))
  }

  ghost predicate SameGroup(a: FlagGrp, b: FlagGrp, t: nat)
  {
    b.used == a.used && Distinct(b.waiters) && forall u: nat :: u != t ==> (u in b.waiters <==> u in a.waiters)
  }

  /** What the tables say about t after its change. */
  ghost predicate RecordsOk(s: State, t: nat)
    requires t < |s.tcb|
  {
    var x := s.tcb[t];
    && (forall e: nat :: 0 <= e < |s.ev| && x.prio in s.ev[e].waiters ==> x.event == Some(e) && !IsDying(s, t))
    && (forall g: nat :: 0 <= g < |s.grp| && t in s.grp[g].waiters ==> x.node.Some? && x.node.value.grp == g)
  }

  lemma RecordsHold(s: State, t: nat)
    requires CoreInv(s) && t in s.list
    ensures t < |s.tcb| && RecordsOk(s, t)
    ensures forall g: nat :: g < |s.grp| ==> Distinct(s.grp[g].waiters) && (!s.grp[g].used ==> s.grp[g].waiters == [])
  {
    LiveTask(s, t);
    forall e: nat | e < |s.ev| && s.tcb[t].prio in s.ev[e].waiters
      ensures s.tcb[t].event == Some(e) && !IsDying(s, t)
    {
      assert WaiterOk(s, e, s.tcb[t].prio);
    }
    forall g: nat | g < |s.grp|
      ensures Distinct(s.grp[g].waiters) && (!s.grp[g].used ==> s.grp[g].waiters == [])
      ensures t in s.grp[g].waiters ==> NodeOk(s, g, t)
    {
      assert GroupOk(s, g);
    }
  }

  lemma OneTaskTables(s: State, s': State, t: nat)
    requires CoreInv(s) && t in s.list && t < |s.tcb| && OnlyTask(s, s', t)
    requires TaskOk(s', t) && RecordsOk(s', t)
    ensures forall p: nat :: p in s'.ready ==> ReadyOk(s', p)
    ensures forall e: nat, p: nat :: e < |s'.ev| && p in s'.ev[e].waiters ==> WaiterOk(s', e, p)
    ensures forall e: nat :: e < |s'.ev| ==> EventOk(s', e)
  {
    forall p: nat | p in s'.ready
      ensures ReadyOk(s', p)
    {
      assert p != s.tcb[t].prio ==> ReadyOk(s, p);
    }
    forall e: nat, p: nat | e < |s'.ev| && p in s'.ev[e].waiters
      ensures WaiterOk(s', e, p)
    {
      assert SameEvent(s.ev[e], s'.ev[e], s.tcb[t].prio);
      assert p != s.tcb[t].prio ==> WaiterOk(s, e, p);
    }
    forall e: nat | e < |s'.ev|
      ensures EventOk(s', e)
    {
      assert EventOk(s, e) && SameEvent(s.ev[e], s'.ev[e], s.tcb[t].prio);
    }
  }

  lemma OneTaskGroups(s: State, s': State, t: nat)
    requires CoreInv(s) && t in s.list && t < |s.tcb| && OnlyTask(s, s', t)
    requires TaskOk(s', t) && RecordsOk(s', t)
    requires forall g: nat :: g < |s'.grp| && !s'.grp[g].used ==> s'.grp[g].waiters == []
    ensures forall g: nat :: g < |s'.grp| ==> GroupOk(s', g)
  {
    forall g: nat | g < |s'.grp|
      ensures GroupOk(s', g)
    {
      assert GroupOk(s, g) && SameGroup(s.grp[g], s'.grp[g], t);
      forall u: nat | u in s'.grp[g].waiters
        ensures NodeOk(s', g, u)
      {
        assert u != t ==> NodeOk(s, g, u);
      }
    }
  }

  lemma OneTaskChanges(s: State, s': State, t: nat)
    requires CoreInv(s) && t in s.list && t < |s.tcb| && OnlyTask(s, s', t)
    requires t != Idle(s) || (Runnable(s'.tcb[t]) && IdlePhase(s'.phase[t]))
    requires TaskOk(s', t) && RecordsOk(s', t) && ReservationOk(s', t)
    requires forall g: nat :: g < |s'.grp| && !s'.grp[g].used ==> s'.grp[g].waiters == []
    ensures CoreInv(s')
  {
    IdleIsLive(s);
    forall u: nat | u in s'.list && u < |s'.tcb|
      ensures TaskOk(s', u) && ReservationOk(s', u)
    {
      if u != t {
        PriosDiffer(s, t, u);
        OthersKept(s, s', t, u);
      }
    }
    OneTaskTables(s, s', t);
    OneTaskGroups(s, s', t);
    forall p: nat | p < N_PRIO
      ensures SlotOk(s', p)
    {
      assert SlotOk(s, p);
    }
  }

  lemma OthersKept(s: State, s': State, t: nat, u: nat)
    requires CoreInv(s) && t in s.list && t < |s.tcb| && OnlyTask(s, s', t)
    requires u in s.list && u < |s.tcb| && u != t && s.tcb[u].prio != s.tcb[t].prio
    requires ReservationOk(s', t)
    ensures TaskOk(s', u) && ReservationOk(s', u)
  {
    LiveTask(s, u);
    if !IsDying(s, u) {
      OthersLinked(s, s', t, u);
    }
  }

  lemma OthersLinked(s: State, s': State, t: nat, u: nat)
    requires CoreInv(s) && t in s.list && t < |s.tcb| && OnlyTask(s, s', t)
    requires u in s.list && u < |s.tcb| && u != t && s.tcb[u].prio != s.tcb[t].prio && !IsDying(s, u)
    ensures LinksOk(s', u)
  {
    LiveTask(s, u);
    var x := s.tcb[u];
    if x.event.Some? {
      var e := x.event.value;
      assert SameEvent(s.ev[e], s'.ev[e], s.tcb[t].prio);
    }
    if x.node.Some? {
      assert SameGroup(s.grp[x.node.value.grp], s'.grp[x.node.value.grp], t);
    }
  }

  // ---------------------------------------------------------------- the event core

  lemma BlockKeeps(s: State, t: nat, e: nat, timeout: nat)
    requires CoreInv(s) && t in s.list && t < |s.tcb| && t != Idle(s)
    requires s.phase[t] == User && Runnable(s.tcb[t]) && !IsDying(s, t)
    requires e < |s.ev| && !s.ev[e].kind.Unused?
    ensures CoreInv(Block(s, t, e, KindBit(s.ev[e].kind), timeout))
  {
    LiveTask(s, t);
    assert EventOk(s, e);
    var s' := Block(s, t, e, KindBit(s.ev[e].kind), timeout);
    RecordsHold(s, t);
    OneTaskChanges(s, s', t);
  }

  /** OS_EventTaskRdy always finds a task, and one that waits for this event. */
  lemma WaiterFound(s: State, e: nat)
    requires CoreInv(s) && e < |s.ev| && s.ev[e].waiters != {}
    ensures FirstWaiter(s, e) in s.list && FirstWaiter(s, e) < |s.tcb| && FirstWaiter(s, e) != Idle(s)
    ensures !IsDying(s, FirstWaiter(s, e))
    ensures s.tcb[FirstWaiter(s, e)].prio == Least(s.ev[e].waiters)
    ensures s.tcb[FirstWaiter(s, e)].event == Some(e)
    ensures !s.ev[e].kind.Unused? && s.phase[FirstWaiter(s, e)] == InEvent(e, KindBit(s.ev[e].kind))
    ensures s.prioTbl[Least(s.ev[e].waiters)] == Tcb(FirstWaiter(s, e)) && Least(s.ev[e].waiters) < N_PRIO
  {
    var p := Least(s.ev[e].waiters);
    assert WaiterOk(s, e, p) && SlotOk(s, p);
    LiveTask(s, FirstWaiter(s, e));
    assert EventOk(s, e);
  }

  lemma EventTaskRdyKeeps(s: State, e: nat, msg: int)
    requires CoreInv(s) && e < |s.ev| && s.ev[e].waiters != {}
    ensures FirstWaiter(s, e) < |s.tcb| && CoreInv(EventTaskRdy(s, e, msg, KindBit(s.ev[e].kind)))
  {
    WaiterFound(s, e);
    var t := FirstWaiter(s, e);
    LiveTask(s, t);
    var s' := EventTaskRdy(s, e, msg, KindBit(s.ev[e].kind));
    RecordsHold(s, t);
    OneTaskChanges(s, s', t);
  }

  lemma {:induction false} ReadyAllKeeps(s: State, e: nat, msg: int)
    requires CoreInv(s) && e < |s.ev|
    ensures CoreInv(ReadyAll(s, e, msg, KindBit(s.ev[e].kind)))
    ensures var s' := ReadyAll(s, e, msg, KindBit(s.ev[e].kind));
            && |s'.ev| == |s.ev| && s'.ev[e].waiters == {} && s'.ev[e].kind == s.ev[e].kind
            && s'.list == s.list && s'.prioTbl == s.prioTbl && s'.freeEvs == s.freeEvs
            && (forall f: nat :: f < |s.ev| && f != e ==> s'.ev[f] == s.ev[f])
    decreases s.ev[e].waiters
  {
    if s.ev[e].waiters != {} {
      EventTaskRdyKeeps(s, e, msg);
      ReadyAllKeeps(EventTaskRdy(s, e, msg, KindBit(s.ev[e].kind)), e, msg);
    }
  }

  lemma EventTOKeeps(s: State, t: nat, e: nat)
    requires CoreInv(s) && t in s.list && t < |s.tcb| && Runnable(s.tcb[t]) && s.tcb[t].event == Some(e) && e < |s.ev|
    requires !IsDying(s, t)
    ensures CoreInv(EventTO(s, t, e))
  {
    LiveTask(s, t);
    RecordsHold(s, t);
    var s' := EventTO(s, t, e);
    assert s'.phase[t] == User && s'.tcb[t].event == None;
    OneTaskChanges(s, s', t);
  }

  /** The second half of a pend, whichever way it ends. */
  lemma PendResumeKeeps(s: State)
    requires CoreInv(s) && s.cur in s.list && s.cur < |s.tcb| && Runnable(s.tcb[s.cur]) && !IsDying(s, s.cur)
    requires s.phase[s.cur].InEvent? && s.phase[s.cur].e < |s.ev|
    ensures CoreInv(PendResume(s))
  {
    var t := s.cur;
    LiveTask(s, t);
    var s' := PendResume(s);
    if s.tcb[t].pendTO {
      EventTOKeeps(s, t, s.phase[t].e);
    } else {
      RecordsHold(s, t);
      assert s.tcb[t].event == None;
      OneTaskChanges(s, s', t);
    }
  }

  // ---------------------------------------------------------------- delays

  lemma EndDelayKeeps(s: State, t: nat)
    requires CoreInv(s) && t in s.list && t < |s.tcb| && s.tcb[t].dly != 0
    ensures CoreInv(EndDelay(s, t))
  {
    LiveTask(s, t);
    var s' := EndDelay(s, t);
    RecordsHold(s, t);
    OneTaskChanges(s, s', t);
  }

  lemma TickTaskKeeps(s: State, t: nat)
    requires CoreInv(s) && t in s.list && t < |s.tcb|
    ensures CoreInv(TickTask(s, t))
  {
    LiveTask(s, t);
    if s.tcb[t].dly == 1 {
      EndDelayKeeps(s, t);
    } else if s.tcb[t].dly > 1 {
      RecordsHold(s, t);
      OneTaskChanges(s, TickTask(s, t), t);
    }
  }

  lemma {:induction false} TickWalkKeeps(s: State, l: seq<nat>)
    requires CoreInv(s) && InTable(s, l) && forall t: nat :: t in l ==> t in s.list
    ensures CoreInv(TickWalk(s, l))
    decreases |l|
  {
    if l != [] && s.tcb[l[0]].prio != IDLE_PRIO {
      TickTaskKeeps(s, l[0]);
      TickWalkKeeps(TickTask(s, l[0]), l[1..]);
    }
  }

  lemma SuspendedKeeps(s: State, t: nat)
    requires CoreInv(s) && t in s.list && t < |s.tcb| && t != Idle(s)
    ensures CoreInv(Suspended(s, t))
  {
    LiveTask(s, t);
    RecordsHold(s, t);
    assert SuspendBit in Suspended(s, t).tcb[t].stat;
    OneTaskChanges(s, Suspended(s, t), t);
  }

  lemma SuspendKeeps(s: State, prio: nat)
    requires CoreInv(s) && prio != IDLE_PRIO
    ensures TargetInTable(s, prio) && CoreInv(TaskSuspend(s, prio))
  {
    TargetIsLive(s, prio);
    if Target(s, prio).Some? {
      SuspendedKeeps(s, Target(s, prio).value);
    }
  }

  lemma ResumedKeeps(s: State, t: nat)
    requires CoreInv(s) && t in s.list && t < |s.tcb| && SuspendBit in s.tcb[t].stat && !IsDying(s, t)
    ensures CoreInv(Resumed(s, t))
  {
    LiveTask(s, t);
    RecordsHold(s, t);
    OneTaskChanges(s, Resumed(s, t), t);
  }

  /** OSTaskResume finds a task that an interrupt has suspended while it is being deleted. */
  ghost predicate ResumesDying(s: State, prio: nat)
  {
    && Target(s, prio).Some? && Target(s, prio).value < |s.tcb|
    && IsDying(s, Target(s, prio).value) && SuspendBit in s.tcb[Target(s, prio).value].stat
  }

  lemma ResumeKeeps(s: State, prio: nat)
    requires CoreInv(s) && !ResumesDying(s, prio)
    ensures TargetInTable(s, prio) && CoreInv(TaskResume(s, prio))
  {
    TargetIsLive(s, prio);
    if Target(s, prio).Some? && SuspendBit in s.tcb[Target(s, prio).value].stat {
      ResumedKeeps(s, Target(s, prio).value);
    }
  }

  /** That is the one case in which it does harm: the task becomes ready, and then its TCB is freed. */
  lemma TaskResumeExact(s: State, prio: nat)
    requires CoreInv(s)
    ensures TargetInTable(s, prio)
    ensures CoreInv(TaskResume(s, prio)) <==> !ResumesDying(s, prio)
  {
    TargetIsLive(s, prio);
    if ResumesDying(s, prio) {
      var t, s' := Target(s, prio).value, TaskResume(s, prio);
      LiveTask(s, t);
      assert s'.tcb[t].stat == {} && s'.tcb[t].prio in s'.ready;
      assert !TaskOk(s', t);
    } else {
      ResumeKeeps(s, prio);
    }
  }

  lemma TargetIsLive(s: State, prio: nat)
    requires CoreInv(s)
    ensures TargetInTable(s, prio)
    ensures Target(s, prio).Some? ==> prio < N_PRIO && Target(s, prio).value in s.list
    ensures Target(s, prio).Some? && prio != IDLE_PRIO ==> Target(s, prio).value != Idle(s)
  {
    if Target(s, prio).Some? {
      assert SlotOk(s, prio);
      LiveTask(s, Target(s, prio).value);
    }
  }

  lemma TimeDlyKeeps(s: State, ticks: nat)
    requires CoreInv(s) && s.cur in s.list && s.cur < |s.tcb| && s.cur != Idle(s)
    requires s.phase[s.cur] == User && Runnable(s.tcb[s.cur]) && !IsDying(s, s.cur)
    ensures CoreInv(TimeDly(s, ticks))
  {
    if ticks != 0 {
      LiveTask(s, s.cur);
      RecordsHold(s, s.cur);
      OneTaskChanges(s, TimeDly(s, ticks), s.cur);
    }
  }

  lemma TimeDlyResumeKeeps(s: State, prio: nat)
    requires CoreInv(s)
    ensures TargetInTable(s, prio) && CoreInv(TimeDlyResume(s, prio))
  {
    TargetIsLive(s, prio);
    if Target(s, prio).Some? && prio < IDLE_PRIO && s.tcb[Target(s, prio).value].dly != 0 {
      EndDelayKeeps(s, Target(s, prio).value);
    }
  }

  // ---------------------------------------------------------------- priorities and slots

  /** No task occupies priority p or is about to. */
  ghost predicate Vacant(s: State, p: nat)
  {
    forall u: nat :: u in s.list && u < |s.tcb| && u < |s.phase| ==> s.tcb[u].prio != p && !Creating(s.phase[u], p)
  }

  lemma SlotFreedKeeps(s: State, p: nat, v: Slot)
    requires CoreInv(s) && p < N_PRIO && !v.Tcb? && Vacant(s, p)
    ensures CoreInv(SetSlot(s, p, v))
  {
    var s' := SetSlot(s, p, v);
    forall u: nat | u in s'.list && u < |s'.tcb|
      ensures TaskOk(s', u) && ReservationOk(s', u)
    {
      LiveTask(s, u);
    }
    forall q: nat | q < N_PRIO
      ensures SlotOk(s', q)
    {
      assert SlotOk(s, q);
    }
    forall q: nat | q in s'.ready
      ensures ReadyOk(s', q)
    {
      assert ReadyOk(s, q);
      VacantSlot(s, p, q);
    }
    forall e: nat, q: nat | e < |s'.ev| && q in s'.ev[e].waiters
      ensures WaiterOk(s', e, q)
    {
      assert WaiterOk(s, e, q);
      VacantSlot(s, p, q);
    }
    forall e: nat | e < |s'.ev|
      ensures EventOk(s', e)
    {
      assert EventOk(s, e);
    }
    forall g: nat | g < |s'.grp|
      ensures GroupOk(s', g)
    {
      GroupsFrame(s, s', g);
    }
  }

  lemma VacantSlot(s: State, p: nat, q: nat)
    requires CoreInv(s) && Vacant(s, p) && ReadyOk(s, q)
    ensures q != p
  {
    assert SlotOk(s, q);
  }

  lemma GroupsFrame(s: State, s': State, g: nat)
    requires CoreInv(s) && g < |s.grp| && g < |s'.grp| && s'.grp[g] == s.grp[g]
    requires forall t: nat :: t in s.grp[g].waiters && t in s.list && t < |s.tcb| ==>
               t in s'.list && t < |s'.tcb| && s'.tcb[t].node == s.tcb[t].node
    ensures GroupOk(s', g)
  {
    assert GroupOk(s, g);
    forall t: nat | t in s'.grp[g].waiters
      ensures NodeOk(s', g, t)
    {
      assert NodeOk(s, g, t);
    }
  }

  /** A task in the timed-out window: ready to run, but still in a wait list. */
  ghost predicate InWindow(x: Task)
  {
    Runnable(x) && x.event.Some?
  }

  lemma NotRecorded(s: State, p: nat)
    requires CoreInv(s) && p < N_PRIO && (s.prioTbl[p].Tcb? ==>
               s.prioTbl[p].task < |s.tcb| && s.tcb[s.prioTbl[p].task].prio != p)
    ensures p !in s.ready && forall e: nat :: e < |s.ev| ==> p !in s.ev[e].waiters
  {
    assert p in s.ready ==> ReadyOk(s, p);
    forall e: nat | e < |s.ev|
      ensures p !in s.ev[e].waiters
    {
      assert p in s.ev[e].waiters ==> WaiterOk(s, e, p);
    }
  }

  /** The events after a task has moved from priority p to newp. */
  ghost predicate MovedEvent(a: Event, b: Event, p: nat, newp: nat, here: bool)
  {
    && b.kind == a.kind
    && (forall q: nat :: q != p && q != newp ==> (q in b.waiters <==> q in a.waiters))
    && (here ==> newp in b.waiters && p !in b.waiters)
    && (!here ==> newp !in b.waiters && p !in b.waiters)
  }

  /** Moving a task that is not in the window. */
  ghost function Moved(s: State, t: nat, newp: nat): State
    requires t < |s.tcb| && newp < |s.prioTbl|
  {
    SetSlot(Reprio(s, t, newp), newp, Tcb(t))
  }

  ghost predicate CanMove(s: State, t: nat, newp: nat)
    requires Shape(s)
  {
    && t in s.list && t < |s.tcb| && t != Idle(s) && !IsDying(s, t) && newp < IDLE_PRIO && s.tcb[t].prio != newp
    && (s.prioTbl[newp].Tcb? ==> s.prioTbl[newp].task == t)
    && Vacant(s, newp)
  }

  lemma MovedEvents(s: State, t: nat, newp: nat, e: nat)
    requires CoreInv(s) && CanMove(s, t, newp) && !InWindow(s.tcb[t]) && e < |s.ev|
    ensures |Moved(s, t, newp).ev| == |s.ev|
    ensures MovedEvent(s.ev[e], Moved(s, t, newp).ev[e], s.tcb[t].prio, newp, s.tcb[t].event == Some(e))
  {
    LiveTask(s, t);
    RecordsHold(s, t);
    NotRecorded(s, newp);
  }

  lemma MovedOthers(s: State, t: nat, newp: nat, u: nat)
    requires CoreInv(s) && CanMove(s, t, newp) && !InWindow(s.tcb[t]) && u in s.list && u < |s.tcb| && u != t
    ensures TaskOk(Moved(s, t, newp), u) && ReservationOk(Moved(s, t, newp), u)
  {
    LiveTask(s, u);
    PriosDiffer(s, t, u);
    if !IsDying(s, u) {
      MovedLinks(s, t, newp, u);
    }
  }

  lemma MovedLinks(s: State, t: nat, newp: nat, u: nat)
    requires CoreInv(s) && CanMove(s, t, newp) && !InWindow(s.tcb[t]) && u in s.list && u < |s.tcb| && u != t
             && !IsDying(s, u)
    ensures LinksOk(Moved(s, t, newp), u)
  {
    LiveTask(s, u);
    PriosDiffer(s, t, u);
    if s.tcb[u].event.Some? {
      MovedEvents(s, t, newp, s.tcb[u].event.value);
    }
  }

  lemma MovedItself(s: State, t: nat, newp: nat)
    requires CoreInv(s) && CanMove(s, t, newp) && !InWindow(s.tcb[t])
    ensures TaskOk(Moved(s, t, newp), t) && ReservationOk(Moved(s, t, newp), t)
  {
    LiveTask(s, t);
    NotRecorded(s, newp);
    if s.tcb[t].event.Some? {
      MovedEvents(s, t, newp, s.tcb[t].event.value);
    }
  }

  lemma MovedTables(s: State, t: nat, newp: nat)
    requires CoreInv(s) && CanMove(s, t, newp) && !InWindow(s.tcb[t])
    ensures var s' := Moved(s, t, newp);
            && (forall q: nat :: q in s'.ready ==> ReadyOk(s', q))
            && (forall e: nat, q: nat :: e < |s'.ev| && q in s'.ev[e].waiters ==> WaiterOk(s', e, q))
            && (forall e: nat :: e < |s'.ev| ==> EventOk(s', e))
  {
    var s' := Moved(s, t, newp);
    LiveTask(s, t);
    forall q: nat | q in s'.ready
      ensures ReadyOk(s', q)
    {
      assert q != newp ==> ReadyOk(s, q);
    }
    forall e: nat | e < |s'.ev|
      ensures EventOk(s', e) && forall q: nat :: q in s'.ev[e].waiters ==> WaiterOk(s', e, q)
    {
      assert EventOk(s, e);
      MovedEvents(s, t, newp, e);
      forall q: nat | q in s'.ev[e].waiters
        ensures WaiterOk(s', e, q)
      {
        assert q != newp ==> WaiterOk(s, e, q);
      }
    }
  }

  lemma MovedRest(s: State, t: nat, newp: nat)
    requires CoreInv(s) && CanMove(s, t, newp)
    ensures var s' := Moved(s, t, newp);
            && Shape(s') && Lists(s') && IdleOk(s')
            && (forall q: nat :: q < N_PRIO ==> SlotOk(s', q))
            && (forall g: nat :: g < |s'.grp| ==> GroupOk(s', g))
  {
    var s' := Moved(s, t, newp);
    forall q: nat | q < N_PRIO
      ensures SlotOk(s', q)
    {
      assert SlotOk(s, q);
    }
    forall g: nat | g < |s'.grp|
      ensures GroupOk(s', g)
    {
      GroupsFrame(s, s', g);
    }
  }

  lemma MovedKeeps(s: State, t: nat, newp: nat)
    requires CoreInv(s) && CanMove(s, t, newp) && !InWindow(s.tcb[t])
    ensures CoreInv(Moved(s, t, newp))
  {
    MovedRest(s, t, newp);
    MovedTables(s, t, newp);
    var s' := Moved(s, t, newp);
    forall u: nat | u in s'.list && u < |s'.tcb|
      ensures TaskOk(s', u) && ReservationOk(s', u)
    {
      if u == t {
        MovedItself(s, t, newp);
      } else {
        MovedOthers(s, t, newp, u);
      }
    }
  }

  // ---------------------------------------------------------------- creating and deleting tasks

  lemma CreateBeginKeeps(s: State, prio: nat)
    requires CoreInv(s) && prio < N_PRIO && s.cur in s.list && s.cur < |s.tcb| && s.phase[s.cur] == User
    requires !IsDying(s, s.cur)
    ensures CoreInv(CreateBegin(s, prio))
  {
    if s.prioTbl[prio].Empty? {
      forall u: nat | u in s.list && u < |s.tcb|
        ensures s.tcb[u].prio != prio && !Creating(s.phase[u], prio)
      {
        LiveTask(s, u);
      }
      SlotFreedKeeps(s, prio, Reserved);
      var s1 := SetSlot(s, prio, Reserved);
      LiveTask(s1, s.cur);
      RecordsHold(s1, s.cur);
      OneTaskChanges(s1, CreateBegin(s, prio), s.cur);
    }
  }

  /** The first free TCB leaves the list, for the current task. */
  lemma TakeTcbKeeps(s: State)
    requires CoreInv(s) && s.cur in s.list && s.cur < |s.tcb| && s.phase[s.cur].InCreate?
             && s.phase[s.cur].taken.NotYet?
    requires !IsDying(s, s.cur)
    ensures s.freeTcbs != [] ==> s.freeTcbs[0] < |s.tcb|
    ensures CoreInv(TakeTcb(s))
  {
    if s.freeTcbs == [] {
      LooksFor(s, NoneLeft);
    } else {
      FirstFreeTaken(s);
      var s1 := s.(freeTcbs := s.freeTcbs[1..], away := s.away + {s.freeTcbs[0]});
      forall u: nat | u in s1.list && u < |s1.phase|
        ensures !Holding(s1.phase[u], s.freeTcbs[0])
      {
        LiveTask(s, u);
      }
      LooksFor(s1, Got(s.freeTcbs[0]));
    }
  }

  /** The current task has found that TCB, or none. */
  lemma LooksFor(s: State, found: Taken)
    requires CoreInv(s) && s.cur in s.list && s.cur < |s.tcb| && s.phase[s.cur].InCreate? && !IsDying(s, s.cur)
    requires forall c: nat :: found == Got(c) ==>
               c in s.away && forall u: nat :: u in s.list && u < |s.phase| ==> !Holding(s.phase[u], c)
    ensures CoreInv(SetPhase(s, s.cur, InCreate(s.phase[s.cur].prio, found)))
  {
    LiveTask(s, s.cur);
    RecordsHold(s, s.cur);
    OneTaskChanges(s, SetPhase(s, s.cur, InCreate(s.phase[s.cur].prio, found)), s.cur);
  }

  lemma FirstFreeTaken(s: State)
    requires CoreInv(s) && s.freeTcbs != []
    ensures CoreInv(s.(freeTcbs := s.freeTcbs[1..], away := s.away + {s.freeTcbs[0]}))
    ensures s.freeTcbs[0] < |s.tcb| && s.freeTcbs[0] !in s.away
  {
    var c, s1 := s.freeTcbs[0], s.(freeTcbs := s.freeTcbs[1..], away := s.away + {s.freeTcbs[0]});
    assert c in s.freeTcbs;
    forall u: nat | u < |s1.tcb|
      ensures u in s1.list <==> u !in s1.freeTcbs && u !in s1.away
      ensures u in s1.freeTcbs ==> u in s.freeTcbs && u != c
    {
      assert u in s.freeTcbs <==> u == c || u in s1.freeTcbs;
    }
    SameTables(s, s1);
    forall u: nat | u in s1.list && u < |s1.tcb|
      ensures TaskOk(s1, u) && ReservationOk(s1, u)
    {
      LiveTask(s, u);
    }
    forall g: nat | g < |s1.grp|
      ensures GroupOk(s1, g)
    {
      GroupsFrame(s, s1, g);
    }
  }

  /** A TCB that has been taken, and the creating task no longer in OSTaskCreate. */
  ghost predicate CanAdd(s: State, t: nat, prio: nat)
    requires Shape(s)
  {
    && prio < N_PRIO && t < |s.tcb| && t in s.away && s.prioTbl[prio] == Reserved && Vacant(s, prio)
    && (forall u: nat :: u in s.list && u < |s.phase| ==> !Holding(s.phase[u], t))
  }

  lemma AddTaskLists(s: State, t: nat, prio: nat)
    requires CoreInv(s) && CanAdd(s, t, prio)
    ensures t !in s.list
    ensures Shape(AddTask(s, t, prio)) && Lists(AddTask(s, t, prio)) && Idle(AddTask(s, t, prio)) == Idle(s)
  {
  }

  lemma AddTaskTasks(s: State, t: nat, prio: nat, u: nat)
    requires CoreInv(s) && CanAdd(s, t, prio) && u in AddTask(s, t, prio).list && u < |s.tcb|
    ensures Shape(AddTask(s, t, prio)) && TaskOk(AddTask(s, t, prio), u) && ReservationOk(AddTask(s, t, prio), u)
  {
    AddTaskLists(s, t, prio);
    IdleIsLive(s);
    LiveTask(s, Idle(s));
    if u != t {
      LiveTask(s, u);
    }
  }

  lemma AddTaskTables(s: State, t: nat, prio: nat)
    requires CoreInv(s) && CanAdd(s, t, prio)
    ensures Shape(AddTask(s, t, prio))
    ensures var s' := AddTask(s, t, prio);
            && (forall q: nat :: q in s'.ready ==> ReadyOk(s', q))
            && (forall e: nat, q: nat :: e < |s'.ev| && q in s'.ev[e].waiters ==> WaiterOk(s', e, q))
            && (forall e: nat :: e < |s'.ev| ==> EventOk(s', e))
            && (forall g: nat :: g < |s'.grp| ==> GroupOk(s', g))
            && (forall q: nat :: q < N_PRIO ==> SlotOk(s', q))
  {
    AddTaskLists(s, t, prio);
    var s' := AddTask(s, t, prio);
    forall q: nat | q < N_PRIO
      ensures SlotOk(s', q)
    {
      assert SlotOk(s, q);
    }
    forall q: nat | q in s'.ready
      ensures ReadyOk(s', q)
    {
      assert q in s.ready ==> ReadyOk(s, q) && SlotOk(s, q);
    }
    forall e: nat | e < |s'.ev|
      ensures EventOk(s', e) && forall q: nat :: q in s'.ev[e].waiters ==> WaiterOk(s', e, q)
    {
      assert EventOk(s, e);
      forall q: nat | q in s'.ev[e].waiters
        ensures WaiterOk(s', e, q)
      {
        assert WaiterOk(s, e, q) && SlotOk(s, q);
      }
    }
    forall g: nat | g < |s'.grp|
      ensures GroupOk(s', g)
    {
      GroupsFrame(s, s', g);
    }
  }

  lemma AddTaskKeeps(s: State, t: nat, prio: nat)
    requires CoreInv(s) && CanAdd(s, t, prio)
    ensures CoreInv(AddTask(s, t, prio))
  {
    AddTaskLists(s, t, prio);
    IdleIsLive(s);
    AddTaskTables(s, t, prio);
    var s' := AddTask(s, t, prio);
    forall u: nat | u in s'.list && u < |s'.tcb|
      ensures TaskOk(s', u) && ReservationOk(s', u)
    {
      AddTaskTasks(s, t, prio, u);
    }
  }

  /** Once out of OSTaskCreate, the task has nothing reserved and no TCB. */
  lemma ReservationGivenUp(s: State)
    requires CoreInv(s) && s.cur in s.list && s.cur < |s.tcb| && s.phase[s.cur].InCreate? && !IsDying(s, s.cur)
    ensures var prio, s1 := s.phase[s.cur].prio, SetPhase(s, s.cur, User);
            && CoreInv(s1) && prio < N_PRIO && s1.prioTbl[prio] == Reserved && Vacant(s1, prio)
            && (forall t: nat :: s.phase[s.cur].taken == Got(t) ==> CanAdd(s1, t, prio))
  {
    var prio, s1 := s.phase[s.cur].prio, SetPhase(s, s.cur, User);
    LiveTask(s, s.cur);
    RecordsHold(s, s.cur);
    OneTaskChanges(s, s1, s.cur);
    forall u: nat | u in s1.list && u < |s1.tcb|
      ensures s1.tcb[u].prio != prio && !Creating(s1.phase[u], prio)
    {
      LiveTask(s1, u);
      LiveTask(s, u);
    }
  }

  lemma CreateEndKeeps(s: State)
    requires CoreInv(s) && s.cur in s.list && s.cur < |s.tcb| && s.phase[s.cur].InCreate? && !IsDying(s, s.cur)
    ensures s.phase[s.cur].prio < N_PRIO && (s.phase[s.cur].taken.Got? ==> s.phase[s.cur].taken.tcb < |s.tcb|)
    ensures CoreInv(CreateEnd(s))
  {
    var ph, s1 := s.phase[s.cur], SetPhase(s, s.cur, User);
    LiveTask(s, s.cur);
    ReservationGivenUp(s);
    match ph.taken
    case Got(t) => AddTaskKeeps(s1, t, ph.prio);
    case _ => SlotFreedKeeps(s1, ph.prio, Empty);
  }

  lemma EmptySlotVacant(s: State, p: nat)
    requires CoreInv(s) && p < N_PRIO && s.prioTbl[p].Empty?
    ensures Vacant(s, p)
  {
    forall u: nat | u in s.list && u < |s.tcb|
      ensures s.tcb[u].prio != p && !Creating(s.phase[u], p)
    {
      LiveTask(s, u);
    }
  }

  /** Once moved, a task leaves its old priority vacant. */
  lemma OldPrioVacant(s: State, t: nat, newp: nat)
    requires CoreInv(s) && t in s.list && t < |s.tcb| && newp < N_PRIO && s.tcb[t].prio != newp
    ensures Vacant(Moved(s, t, newp), s.tcb[t].prio)
  {
    LiveTask(s, t);
    forall u: nat | u in s.list && u < |s.tcb|
      ensures Moved(s, t, newp).tcb[u].prio != s.tcb[t].prio && !Creating(s.phase[u], s.tcb[t].prio)
    {
      LiveTask(s, u);
    }
  }

  lemma ChangePrioKeeps(s: State, oldp: nat, newp: nat)
    requires CoreInv(s) && oldp < IDLE_PRIO && newp < N_PRIO && s.prioTbl[newp].Empty?
    requires Target(s, oldp).Some? && TargetInTable(s, oldp)
    requires s.tcb[Target(s, oldp).value].prio == oldp && !InWindow(s.tcb[Target(s, oldp).value])
    requires !IsDying(s, Target(s, oldp).value)
    ensures CoreInv(ChangePrio(s, oldp, newp))
  {
    TargetIsLive(s, oldp);
    IdleIsLive(s);
    LiveTask(s, Idle(s));
    var t := Target(s, oldp).value;
    EmptySlotVacant(s, newp);
    OldPrioVacant(s, t, newp);
    MovedKeeps(s, t, newp);
    SlotFreedKeeps(Moved(s, t, newp), oldp, Empty);
    ChangeIsMove(s, oldp, newp);
  }

  /** OSTaskChangePrio is a move after which the old slot is emptied. */
  lemma ChangeIsMove(s: State, oldp: nat, newp: nat)
    requires newp < |s.prioTbl| && oldp < |s.prioTbl| && oldp != newp && s.prioTbl[newp].Empty?
    requires TargetInTable(s, oldp) && Target(s, oldp).Some?
    ensures ChangePrio(s, oldp, newp) == SetSlot(Moved(s, Target(s, oldp).value, newp), oldp, Empty)
  {
    var t := Target(s, oldp).value;
    assert s.prioTbl[oldp := Empty][newp := Tcb(t)] == s.prioTbl[newp := Tcb(t)][oldp := Empty];
  }

  /** The wait list then holds a priority which leads to no task. */
  lemma StaleWaiter(s: State, oldp: nat, newp: nat)
    requires CoreInv(s) && oldp < IDLE_PRIO && newp < N_PRIO && s.prioTbl[newp].Empty?
    requires Target(s, oldp).Some? && TargetInTable(s, oldp)
    requires s.tcb[Target(s, oldp).value].prio == oldp && InWindow(s.tcb[Target(s, oldp).value])
    requires !IsDying(s, Target(s, oldp).value)
    ensures var s' := ChangePrio(s, oldp, newp);
            && !CoreInv(s')
            && exists e: nat :: e < |s'.ev| && oldp in s'.ev[e].waiters && Target(s', oldp).None?
  {
    TargetIsLive(s, oldp);
    var t := Target(s, oldp).value;
    LiveTask(s, t);
    var s', e := ChangePrio(s, oldp, newp), s.tcb[t].event.value;
    assert oldp in s'.ev[e].waiters && Target(s', oldp).None?;
    assert !WaiterOk(s', e, oldp);
  }

  /** While OSTaskDel is at work on the task, it goes on to clear the slot that the task had. */
  lemma DyingMoved(s: State, oldp: nat, newp: nat)
    requires CoreInv(s) && oldp < IDLE_PRIO && newp < N_PRIO && s.prioTbl[newp].Empty?
    requires Target(s, oldp).Some? && TargetInTable(s, oldp) && IsDying(s, Target(s, oldp).value)
    ensures !CoreInv(ChangePrio(s, oldp, newp))
  {
    TargetIsLive(s, oldp);
    LiveTask(s, Target(s, oldp).value);
    assert !TaskOk(ChangePrio(s, oldp, newp), Target(s, oldp).value);
  }

  /** A task that no slot but its own points to. */
  ghost predicate OneSlot(s: State, t: nat)
    requires t < |s.tcb|
  {
    forall p: nat :: p < |s.prioTbl| && s.prioTbl[p] == Tcb(t) ==> p == s.tcb[t].prio
  }

  lemma UnlinkedGroups(s: State, t: nat, g: nat)
    requires CoreInv(s) && t in s.list && t < |s.tcb| && g < |s.grp|
    ensures |FlagUnlink(s, t).grp| == |s.grp|
    ensures SameGroup(s.grp[g], FlagUnlink(s, t).grp[g], t) && t !in FlagUnlink(s, t).grp[g].waiters
    ensures !s.grp[g].used ==> FlagUnlink(s, t).grp[g].waiters == []
  {
    LiveTask(s, t);
    RecordsHold(s, t);
    assert GroupOk(s, g);
    RemoveMembers(s.grp[g].waiters, t);
  }

  /** A task that can be deleted: not the idle task, and only its own slot leads to it. */
  ghost predicate CanDelete(s: State, t: nat)
  {
    t in s.list && t < |s.tcb| && t != Idle(s) && OneSlot(s, t)
  }

  /** The first critical section of OSTaskDel. */
  lemma QuiescedKeeps(s: State, t: nat)
    requires CoreInv(s) && CanDelete(s, t) && s.dying == None
    ensures CoreInv(Quiesced(s, t, s.tcb[t].prio))
  {
    LiveTask(s, t);
    RecordsHold(s, t);
    var s' := Quiesced(s, t, s.tcb[t].prio);
    forall g: nat | g < |s.grp|
      ensures SameGroup(s.grp[g], s'.grp[g], t) && t !in s'.grp[g].waiters
      ensures !s.grp[g].used ==> s'.grp[g].waiters == []
    {
      UnlinkedGroups(s, t, g);
    }
    OneTaskChanges(s, s', t);
  }

  lemma DelEndLists(s: State)
    requires CoreInv(s) && s.dying.Some? && CanDelete(s, s.dying.value.task)
    ensures s.dying.value.prio < N_PRIO
    ensures var s', t := DelEnd(s), s.dying.value.task;
            && Shape(s') && Lists(s') && Idle(s') == Idle(s) && |s'.list| == |s.list| - 1
            && forall u: nat :: u in s'.list <==> u in s.list && u != t
  {
    var t := s.dying.value.task;
    LiveTask(s, t);
    var s' := DelEnd(s);
    RemoveMembers(s.list, t);
    var k :| 0 <= k < |s.list| && s.list[k] == t && Remove(s.list, t) == Without(s.list, k);
    WithoutMembers(s.list, k);
    forall u: nat | u < |s'.tcb|
      ensures u in s'.list <==> u !in s'.freeTcbs && u !in s'.away
      ensures u in s'.freeTcbs <==> u == t || u in s.freeTcbs
    {
    }
    assert Distinct(s'.freeTcbs);
  }

  lemma DelEndTables(s: State)
    requires CoreInv(s) && s.dying.Some? && CanDelete(s, s.dying.value.task)
    ensures s.dying.value.prio < N_PRIO
    ensures var s' := DelEnd(s);
            && Shape(s')
            && (forall q: nat :: q in s'.ready ==> ReadyOk(s', q))
            && (forall e: nat, q: nat :: e < |s'.ev| && q in s'.ev[e].waiters ==> WaiterOk(s', e, q))
            && (forall e: nat :: e < |s'.ev| ==> EventOk(s', e))
            && (forall g: nat :: g < |s'.grp| ==> GroupOk(s', g))
            && (forall q: nat :: q < N_PRIO ==> SlotOk(s', q))
  {
    DelEndLists(s);
    var s', t := DelEnd(s), s.dying.value.task;
    LiveTask(s, t);
    forall q: nat | q < N_PRIO
      ensures SlotOk(s', q)
    {
      assert SlotOk(s, q);
    }
    forall q: nat | q in s'.ready
      ensures ReadyOk(s', q)
    {
      assert ReadyOk(s, q);
    }
    forall e: nat | e < |s'.ev|
      ensures EventOk(s', e) && forall q: nat :: q in s'.ev[e].waiters ==> WaiterOk(s', e, q)
    {
      assert EventOk(s, e);
      forall q: nat | q in s'.ev[e].waiters
        ensures WaiterOk(s', e, q)
      {
        assert WaiterOk(s, e, q);
      }
    }
    forall g: nat | g < |s'.grp|
      ensures GroupOk(s', g)
    {
      assert GroupOk(s, g);
      assert t in s.grp[g].waiters ==> NodeOk(s, g, t);
      GroupsFrame(s, s', g);
    }
  }

  lemma DelEndOthers(s: State, u: nat)
    requires CoreInv(s) && s.dying.Some? && CanDelete(s, s.dying.value.task)
    requires u in s.list && u < |s.tcb| && u != s.dying.value.task
    ensures s.dying.value.prio < N_PRIO && Shape(DelEnd(s)) && TaskOk(DelEnd(s), u) && ReservationOk(DelEnd(s), u)
  {
    DelEndLists(s);
    LiveTask(s, u);
    LiveTask(s, s.dying.value.task);
    PriosDiffer(s, s.dying.value.task, u);
  }

  /** The second critical section. */
  lemma DelEndKeeps(s: State)
    requires CoreInv(s) && s.dying.Some? && CanDelete(s, s.dying.value.task)
    ensures s.dying.value.prio < N_PRIO && CoreInv(DelEnd(s))
  {
    DelEndLists(s);
    DelEndTables(s);
    var s' := DelEnd(s);
    forall u: nat | u in s'.list && u < |s'.tcb|
      ensures TaskOk(s', u) && ReservationOk(s', u)
    {
      DelEndOthers(s, u);
    }
    IdleIsLive(s);
    assert Idle(s) in s'.list;
  }

  /** OSTaskDel, in its gap and at its end: the tables stay coherent exactly when the task is found at one
      slot only. A raised mutex owner is found at two, and one of them would lead to a free TCB. */
  lemma TaskDelKeeps(s: State, prio: nat)
    requires CoreInv(s) && s.dying == None
    ensures TargetInTable(s, prio)
    ensures Deletes(s, prio) && OneSlot(s, Target(s, prio).value) ==> CoreInv(DelBegin(s, prio))
    ensures CoreInv(TaskDel(s, prio)) <==> (Deletes(s, prio) ==> OneSlot(s, Target(s, prio).value))
  {
    TargetIsLive(s, prio);
    if Deletes(s, prio) {
      if OneSlot(s, Target(s, prio).value) {
        QuiescedKeeps(s, Target(s, prio).value);
        DelEndKeeps(DelBegin(s, prio));
      } else {
        SecondSlotStays(s, prio);
      }
    }
  }

  lemma SecondSlotStays(s: State, prio: nat)
    requires CoreInv(s) && s.dying == None && Deletes(s, prio) && TargetInTable(s, prio)
    requires !OneSlot(s, Target(s, prio).value)
    ensures !CoreInv(TaskDel(s, prio))
  {
    var t, s' := Target(s, prio).value, TaskDel(s, prio);
    TargetIsLive(s, prio);
    LiveTask(s, t);
    RemoveMembers(s.list, t);
    var p: nat :| p < |s.prioTbl| && s.prioTbl[p] == Tcb(t) && p != s.tcb[t].prio;
    var q := if p == prio then s.tcb[t].prio else p;
    assert q < N_PRIO && s'.prioTbl[q] == Tcb(t) && t !in s'.list;
    assert !Shape(s') || !SlotOk(s', q);
  }

  // ---------------------------------------------------------------- flags

  lemma FlagBlockKeeps(s: State, t: nat, nd: FlagNode, consume: bool, timeout: nat)
    requires CoreInv(s) && t in s.list && t < |s.tcb| && t != Idle(s)
    requires s.phase[t] == User && Runnable(s.tcb[t]) && !IsDying(s, t)
    requires nd.grp < |s.grp| && s.grp[nd.grp].used
    ensures CoreInv(FlagBlock(s, t, nd, consume, timeout))
  {
    LiveTask(s, t);
    RecordsHold(s, t);
    var s' := FlagBlock(s, t, nd, consume, timeout);
    assert Distinct(s'.grp[nd.grp].waiters);
    assert s'.tcb[t].node == Some(nd) && FlagBit in s'.tcb[t].stat;
    OneTaskChanges(s, s', t);
  }

  lemma FlagTaskRdyKeeps(s: State, t: nat, rdy: Flags)
    requires CoreInv(s) && t in s.list && t < |s.tcb| && s.tcb[t].node.Some?
    ensures CoreInv(FlagTaskRdy(s, t, rdy))
    ensures FlagTaskRdy(s, t, rdy).list == s.list && FlagTaskRdy(s, t, rdy).tcb[t].node == None
    ensures |FlagTaskRdy(s, t, rdy).grp| == |s.grp|
  {
    LiveTask(s, t);
    RecordsHold(s, t);
    var s' := FlagTaskRdy(s, t, rdy);
    forall g: nat | g < |s.grp|
      ensures SameGroup(s.grp[g], s'.grp[g], t) && t !in s'.grp[g].waiters
      ensures !s.grp[g].used ==> s'.grp[g].waiters == []
    {
      assert GroupOk(s, g);
      RemoveMembers(s.grp[g].waiters, t);
    }
    OneTaskChanges(s, s', t);
  }

  /** Steps that change no more than the use of events and the flags of groups. */
  ghost predicate OnlyContents(s: State, s': State)
  {
    && s'.tcb == s.tcb && s'.phase == s.phase && s'.list == s.list && s'.freeTcbs == s.freeTcbs
    && s'.away == s.away && s'.dying == s.dying
    && s'.prioTbl == s.prioTbl && s'.ready == s.ready && s'.freeEvs == s.freeEvs
    && |s'.ev| == |s.ev| && |s'.grp| == |s.grp|
    && (forall e: nat :: e < |s.ev| ==> s'.ev[e].waiters == s.ev[e].waiters && SameUse(s.ev[e].kind, s'.ev[e].kind))
    && (forall g: nat :: g < |s.grp| ==> s'.grp[g].waiters == s.grp[g].waiters && s'.grp[g].used == s.grp[g].used)
  }

  ghost predicate SameUse(a: Kind, b: Kind)
  {
    a.Unused? == b.Unused? && a.Messages? == b.Messages? && KindBit(a) == KindBit(b)
  }

  lemma ContentsKeep(s: State, s': State)
    requires CoreInv(s) && OnlyContents(s, s')
    ensures CoreInv(s')
  {
    forall u: nat | u in s'.list && u < |s'.tcb|
      ensures TaskOk(s', u) && ReservationOk(s', u)
    {
      LiveTask(s, u);
      if s.tcb[u].event.Some? && !IsDying(s, u) {
        assert SameUse(s.ev[s.tcb[u].event.value].kind, s'.ev[s.tcb[u].event.value].kind);
      }
    }
    forall p: nat | p < N_PRIO
      ensures SlotOk(s', p)
    {
      assert SlotOk(s, p);
    }
    forall p: nat | p in s'.ready
      ensures ReadyOk(s', p)
    {
      assert ReadyOk(s, p);
    }
    forall e: nat | e < |s'.ev|
      ensures EventOk(s', e) && forall q: nat :: q in s'.ev[e].waiters ==> WaiterOk(s', e, q)
    {
      assert EventOk(s, e) && SameUse(s.ev[e].kind, s'.ev[e].kind);
      forall q: nat | q in s'.ev[e].waiters
        ensures WaiterOk(s', e, q)
      {
        assert WaiterOk(s, e, q);
      }
    }
    forall g: nat | g < |s'.grp|
      ensures GroupOk(s', g)
    {
      assert GroupOk(s, g);
      forall u: nat | u in s'.grp[g].waiters
        ensures NodeOk(s', g, u)
      {
        assert NodeOk(s, g, u);
      }
    }
  }

  lemma SetFlagsKeeps(s: State, g: nat, flags: Flags)
    requires CoreInv(s) && g < |s.grp|
    ensures CoreInv(SetFlags(s, g, flags))
  {
    ContentsKeep(s, SetFlags(s, g, flags));
  }

  lemma FlagTOKeeps(s: State, t: nat)
    requires CoreInv(s) && t in s.list && t < |s.tcb| && Runnable(s.tcb[t]) && s.phase[t].InFlag?
    requires !IsDying(s, t)
    ensures CoreInv(FlagTO(s, t))
  {
    LiveTask(s, t);
    RecordsHold(s, t);
    var s' := FlagTO(s, t);
    forall g: nat | g < |s.grp|
      ensures SameGroup(s.grp[g], s'.grp[g], t) && t !in s'.grp[g].waiters
      ensures !s.grp[g].used ==> s'.grp[g].waiters == []
    {
      assert GroupOk(s, g);
      RemoveMembers(s.grp[g].waiters, t);
    }
    OneTaskChanges(s, s', t);
  }

  /** The second half of OSFlagPend, whichever way it ends. */
  lemma FlagResumeKeeps(s: State)
    requires CoreInv(s) && s.cur in s.list && s.cur < |s.tcb| && Runnable(s.tcb[s.cur]) && !IsDying(s, s.cur)
    requires s.phase[s.cur].InFlag? && s.phase[s.cur].g < |s.grp|
    ensures CoreInv(FlagResume(s))
  {
    var t := s.cur;
    LiveTask(s, t);
    if s.tcb[t].pendTO {
      FlagTOKeeps(s, t);
    } else {
      RecordsHold(s, t);
      var s1 := SetPhase(s, t, User);
      OneTaskChanges(s, s1, t);
      if s.phase[t].consume {
        SetFlagsKeeps(s1, s.phase[t].g, Consumed(s.grp[s.phase[t].g].flags, s.tcb[t].flagsRdy, s.phase[t].wait));
      }
    }
  }

  lemma FlagPendKeeps(s: State, g: nat, wanted: Flags, w: WaitType, consume: bool, timeout: nat)
    requires CoreInv(s) && s.cur in s.list && s.cur < |s.tcb| && s.cur != Idle(s)
    requires s.phase[s.cur] == User && Runnable(s.tcb[s.cur]) && !IsDying(s, s.cur) && g < |s.grp| && s.grp[g].used
    ensures CoreInv(FlagPend(s, g, wanted, w, consume, timeout))
  {
    var flags := s.grp[g].flags;
    if Satisfied(flags, wanted, w) {
      LiveTask(s, s.cur);
      RecordsHold(s, s.cur);
      var s1 := SetTask(s, s.cur, s.tcb[s.cur].(flagsRdy := FlagsMet(flags, wanted, w)));
      OneTaskChanges(s, s1, s.cur);
      SetFlagsKeeps(s1, g, if consume then Consumed(flags, FlagsMet(flags, wanted, w), w) else flags);
    } else {
      FlagBlockKeeps(s, s.cur, FlagNode(g, wanted, w), consume, timeout);
    }
  }

  /** The walk over the nodes of one group. */
  lemma {:induction false} FlagWalkKeeps(s: State, g: nat, l: seq<nat>)
    requires CoreInv(s) && g < |s.grp| && InTable(s, l) && Distinct(l)
    requires forall t: nat :: t in l ==> t in s.list
    ensures CoreInv(FlagWalk(s, g, l))
    decreases |l|
  {
    if l != [] {
      var t := l[0];
      match s.tcb[t].node
      case None => FlagWalkKeeps(s, g, l[1..]);
      case Some(nd) =>
        if Satisfied(s.grp[g].flags, nd.flags, nd.wait) {
          FlagTaskRdyKeeps(s, t, FlagsMet(s.grp[g].flags, nd.flags, nd.wait));
          FlagWalkKeeps(FlagTaskRdy(s, t, FlagsMet(s.grp[g].flags, nd.flags, nd.wait)), g, l[1..]);
        } else {
          FlagWalkKeeps(s, g, l[1..]);
        }
    }
  }

  lemma GroupInTable(s: State, g: nat)
    requires CoreInv(s) && g < |s.grp|
    ensures InTable(s, s.grp[g].waiters) && Distinct(s.grp[g].waiters)
    ensures forall t: nat :: t in s.grp[g].waiters ==>
              t in s.list && t < |s.tcb| && s.tcb[t].node.Some? && s.tcb[t].node.value.grp == g
  {
    assert GroupOk(s, g);
    forall i | 0 <= i < |s.grp[g].waiters|
      ensures s.grp[g].waiters[i] < |s.tcb|
    {
      assert NodeOk(s, g, s.grp[g].waiters[i]);
    }
    forall t: nat | t in s.grp[g].waiters
      ensures NodeOk(s, g, t)
    {
    }
  }

  lemma FlagPostKeeps(s: State, g: nat, flags: Flags, toSet: bool)
    requires CoreInv(s) && g < |s.grp|
    ensures InTable(s, s.grp[g].waiters) && CoreInv(FlagPost(s, g, flags, toSet))
  {
    var s1 := SetFlags(s, g, PostedFlags(s.grp[g].flags, flags, toSet));
    SetFlagsKeeps(s, g, PostedFlags(s.grp[g].flags, flags, toSet));
    GroupInTable(s1, g);
    FlagWalkKeeps(s1, g, s1.grp[g].waiters);
    assert InTable(s, s.grp[g].waiters);
  }

  lemma {:induction false} FlagReadyAllKeeps(s: State, g: nat, l: seq<nat>)
    requires CoreInv(s) && g < |s.grp| && s.grp[g].waiters == l && InTable(s, l)
    ensures CoreInv(FlagReadyAll(s, l)) && FlagReadyAll(s, l).grp[g].waiters == []
    decreases |l|
  {
    if l != [] {
      GroupInTable(s, g);
      assert l[0] in l;
      FlagTaskRdyKeeps(s, l[0], {});
      RemoveIsWithout(l, 0);
      var s1 := FlagTaskRdy(s, l[0], {});
      assert s1.grp[g].waiters == l[1..];
      GroupInTable(s1, g);
      FlagReadyAllKeeps(s1, g, l[1..]);
    }
  }

  /** A group without waiters may change its use. */
  lemma GroupUseKeeps(s: State, g: nat, used: bool, flags: Flags)
    requires CoreInv(s) && g < |s.grp| && s.grp[g].waiters == []
    ensures CoreInv(s.(grp := s.grp[g := FlagGrp(used, flags, [])]))
  {
    var s1 := s.(grp := s.grp[g := s.grp[g].(flags := flags)]);
    ContentsKeep(s, s1);
    var s' := s.(grp := s.grp[g := FlagGrp(used, flags, [])]);
    forall h: nat | h < |s'.grp|
      ensures GroupOk(s', h)
    {
      assert GroupOk(s, h);
      if h != g {
        GroupsFrame(s, s', h);
      }
    }
    forall u: nat | u in s'.list && u < |s'.tcb|
      ensures TaskOk(s', u) && ReservationOk(s', u)
    {
      LiveTask(s, u);
    }
    SameTables(s, s');
  }

  lemma SameTables(s: State, s': State)
    requires CoreInv(s) && |s'.grp| == |s.grp| && s' == s.(grp := s'.grp, freeTcbs := s'.freeTcbs, away := s'.away)
    ensures forall p: nat :: p < N_PRIO ==> SlotOk(s', p)
    ensures forall p: nat :: p in s'.ready ==> ReadyOk(s', p)
    ensures forall e: nat, p: nat :: e < |s'.ev| && p in s'.ev[e].waiters ==> WaiterOk(s', e, p)
    ensures forall e: nat :: e < |s'.ev| ==> EventOk(s', e)
  {
    forall p: nat | p < N_PRIO
      ensures SlotOk(s', p)
    {
      assert SlotOk(s, p);
    }
    forall p: nat | p in s'.ready
      ensures ReadyOk(s', p)
    {
      assert ReadyOk(s, p);
    }
    forall e: nat, p: nat | e < |s'.ev| && p in s'.ev[e].waiters
      ensures WaiterOk(s', e, p)
    {
      assert WaiterOk(s, e, p);
    }
    forall e: nat | e < |s'.ev|
      ensures EventOk(s', e)
    {
      assert EventOk(s, e);
    }
  }

  lemma FlagDelKeeps(s: State, g: nat, always: bool)
    requires CoreInv(s) && g < |s.grp|
    ensures InTable(s, s.grp[g].waiters) && CoreInv(FlagDel(s, g, always))
  {
    GroupInTable(s, g);
    if always {
      FlagReadyAllKeeps(s, g, s.grp[g].waiters);
      GroupUseKeeps(FlagReadyAll(s, s.grp[g].waiters), g, false, {});
    } else if s.grp[g].waiters == [] {
      GroupUseKeeps(s, g, false, {});
    }
  }

  lemma FlagCreateKeeps(s: State, g: nat, flags: Flags)
    requires CoreInv(s) && g < |s.grp| && !s.grp[g].used
    ensures CoreInv(FlagCreate(s, g, flags))
  {
    assert GroupOk(s, g);
    GroupUseKeeps(s, g, true, flags);
  }

  // ---------------------------------------------------------------- event control blocks

  /** Giving an event without waiters another use. */
  lemma EventUseKeeps(s: State, e: nat, k: Kind, free: seq<nat>)
    requires CoreInv(s) && e < |s.ev| && s.ev[e].waiters == {}
    requires KindOk(k)
    requires Distinct(free) && forall f: nat :: f in free <==> f < |s.ev| && if f == e then k.Unused? else f in s.freeEvs
    ensures CoreInv(s.(ev := s.ev[e := Event(k, {})], freeEvs := free))
  {
    var s' := s.(ev := s.ev[e := Event(k, {})], freeEvs := free);
    forall u: nat | u in s'.list && u < |s'.tcb|
      ensures TaskOk(s', u) && ReservationOk(s', u)
    {
      LiveTask(s, u);
    }
    forall p: nat | p < N_PRIO
      ensures SlotOk(s', p)
    {
      assert SlotOk(s, p);
    }
    forall p: nat | p in s'.ready
      ensures ReadyOk(s', p)
    {
      assert ReadyOk(s, p);
    }
    forall f: nat | f < |s'.ev|
      ensures EventOk(s', f) && forall q: nat :: q in s'.ev[f].waiters ==> WaiterOk(s', f, q)
    {
      assert EventOk(s, f);
      forall q: nat | q in s'.ev[f].waiters
        ensures WaiterOk(s', f, q)
      {
        assert WaiterOk(s, f, q);
      }
    }
    forall g: nat | g < |s'.grp|
      ensures GroupOk(s', g)
    {
      GroupsFrame(s, s', g);
    }
  }

  lemma NewEventKeeps(s: State, k: Kind)
    requires CoreInv(s) && s.freeEvs != [] && !k.Unused? && KindOk(k)
    ensures s.freeEvs[0] < |s.ev|
    ensures CoreInv(s.(ev := s.ev[s.freeEvs[0] := Event(k, {})], freeEvs := s.freeEvs[1..]))
  {
    var e := s.freeEvs[0];
    assert e in s.freeEvs && EventOk(s, e);
    assert forall f: nat :: f in s.freeEvs <==> f == e || f in s.freeEvs[1..];
    EventUseKeeps(s, e, k, s.freeEvs[1..]);
  }

  lemma FreeEventKeeps(s: State, e: nat)
    requires CoreInv(s) && e < |s.ev| && s.ev[e].waiters == {} && !s.ev[e].kind.Unused?
    ensures CoreInv(FreeEvent(s, e))
  {
    assert EventOk(s, e);
    EventUseKeeps(s, e, Unused, [e] + s.freeEvs);
  }
}
