/** The state of the kernel on values, and what each critical section does to it. Bitmaps are sets
    of priorities here (PrioritySet relates the two), and the linked lists are sequences. */
module KernelState {
  import opened IndexLists

  const IDLE_PRIO: nat := 254      // OS_LOWEST_PRIO
  const N_PRIO: nat := 255         // size of OSTCBPrioTbl
  const PRIO_SELF: nat := 255      // OS_PRIO_SELF
  const NULL_MSG: int := 0

  datatype Option<+T> = None | Some(value: T)

  /** The bits of OSTCBStat; OS_STAT_RDY is the empty set. */
  datatype StatBit = SemBit | MboxBit | QueueBit | SuspendBit | MutexBit | FlagBit

  const PEND_ANY: set<StatBit> := {SemBit, MboxBit, QueueBit, MutexBit, FlagBit}

  /** An entry of OSTCBPrioTbl: null, the marker (OS_TCB *)1, or a pointer to a TCB. */
  datatype Slot = Empty | Reserved | Tcb(task: nat)

  /** OS_FLAGS: a 16-bit word as the set of the flags in it. FlagWords has the bit operations. */
  type Flags = set<nat>

  datatype WaitType = ClrAll | ClrAny | SetAll | SetAny

  /** OS_FLAG_NODE, which lives on the stack of the waiting task. */
  datatype FlagNode = FlagNode(grp: nat, flags: Flags, wait: WaitType)

  datatype Task = Task(prio: nat, stat: set<StatBit>, dly: nat, pendTO: bool, event: Option<nat>, msg: int,
                       node: Option<FlagNode>, flagsRdy: Flags)

  /** What an event control block is used for. OSEventCnt of a mutex holds the inheritance priority
      in its high byte and the owner's original priority, or 0xFF, in its low byte. */
  datatype Kind =
    | Unused
    | Mutex(cnt: nat, owner: Option<nat>)
    | Messages(bit: StatBit, size: nat, msgs: seq<int>)

  datatype Event = Event(kind: Kind, waiters: set<nat>)

  datatype FlagGrp = FlagGrp(used: bool, flags: Flags, waiters: seq<nat>)

  /** What OS_TCBInit has so far: it has not looked yet, it has taken a TCB, or there was none. */
  datatype Taken = NotYet | Got(tcb: nat) | NoneLeft

  /** Where in its code a task is: outside the services, or between two critical sections of one of
      them: in a pend, or in OSTaskCreate with a priority reserved. */
  datatype Phase =
    | User
    | InCreate(prio: nat, taken: Taken)
    | InEvent(e: nat, bit: StatBit)
    | InFlag(g: nat, wait: WaitType, consume: bool)

  /** A task between the two critical sections of OSTaskDel, and the priority it was found at. */
  datatype Dying = Dying(task: nat, prio: nat)

  datatype State = State(
    tcb: seq<Task>,          // OSTCBTbl
    phase: seq<Phase>,
    list: seq<nat>,          // OSTCBList, head first
    freeTcbs: seq<nat>,      // OSTCBFreeList
    prioTbl: seq<Slot>,      // OSTCBPrioTbl
    ready: set<nat>,         // OSRdyGrp and OSRdyTbl
    ev: seq<Event>,          // OSEventTbl
    freeEvs: seq<nat>,       // OSEventFreeList
    grp: seq<FlagGrp>,       // OSFlagTbl
    cur: nat,                // OSTCBCur
    prioCur: nat,            // OSPrioCur, the priority of the last switch
    away: set<nat>,          // the TCBs that OS_TCBInit has taken and not linked
    dying: Option<Dying>     // while OSTaskDel holds the scheduler lock
  )

  // ---------------------------------------------------------------- small notions

  predicate Runnable(t: Task)
  {
    t.stat == {} && t.dly == 0
  }

  predicate IsDying(s: State, t: nat)
  {
    s.dying.Some? && s.dying.value.task == t
  }

  /** A task in this phase has reserved the priority. */
  predicate Creating(ph: Phase, prio: nat)
  {
    ph.InCreate? && ph.prio == prio
  }

  /** The idle task is the first one created and stays the last of the list. */
  ghost function Idle(s: State): nat
    requires s.list != []
  {
    s.list[|s.list| - 1]
  }

  ghost predicate IsLeast(ps: set<nat>, p: nat)
  {
    p in ps && forall q :: q in ps ==> p <= q
  }

  /** The priority OS_EventTaskRdy and OS_SchedNew find. */
  ghost function Least(ps: set<nat>): (p: nat)
    requires ps != {}
    ensures IsLeast(ps, p)
  {
    var q :| q in ps;
    HasLeast(ps, q);
    var p :| IsLeast(ps, p);
    p
  }

  lemma {:induction false} HasLeast(ps: set<nat>, p: nat)
    requires p in ps
    ensures exists q :: IsLeast(ps, q)
  {
    if !IsLeast(ps, p) {
      var q :| q in ps && q < p;
      HasLeast(ps, q);
    }
  }

  function Pip(cnt: nat): nat { cnt / 256 }
  function LowByte(cnt: nat): nat { cnt % 256 }

  const AVAILABLE: nat := 255

  /** OSEventCnt & 0xFF00 | low */
  function WithLow(cnt: nat, low: nat): nat
  {
    cnt / 256 * 256 + low
  }

  function KindBit(k: Kind): StatBit
  {
    match k
    case Unused => SemBit
    case Mutex(_, _) => MutexBit
    case Messages(b, _, _) => b
  }

  /** State with one TCB replaced. */
  function SetTask(s: State, t: nat, x: Task): State
    requires t < |s.tcb|
  {
    s.(tcb := s.tcb[t := x])
  }

  function SetPhase(s: State, t: nat, ph: Phase): State
    requires t < |s.phase|
  {
    s.(phase := s.phase[t := ph])
  }

  function SetWaiters(s: State, e: nat, ws: set<nat>): State
    requires e < |s.ev|
  {
    s.(ev := s.ev[e := s.ev[e].(waiters := ws)])
  }

  function SetKind(s: State, e: nat, k: Kind): State
    requires e < |s.ev|
  {
    s.(ev := s.ev[e := s.ev[e].(kind := k)])
  }

  function SetSlot(s: State, p: nat, v: Slot): State
    requires p < |s.prioTbl|
  {
    s.(prioTbl := s.prioTbl[p := v])
  }

  // ---------------------------------------------------------------- the event core (os_core.c)

  /** First half of a pend on an event: the status bit, the timeout, and OS_EventTaskWait. */
  ghost function Block(s: State, t: nat, e: nat, bit: StatBit, timeout: nat): State
    requires t < |s.tcb| && t < |s.phase| && e < |s.ev|
  {
    var x := s.tcb[t];
    var s1 := SetTask(s, t, x.(stat := x.stat + {bit}, pendTO := false, dly := timeout, event := Some(e)));
    SetPhase(SetWaiters(s1, e, s.ev[e].waiters + {x.prio}), t, InEvent(e, bit)).(ready := s.ready - {x.prio})
  }

  /** The task OS_EventTaskRdy readies, if the event has waiters. */
  ghost function FirstWaiter(s: State, e: nat): nat
    requires e < |s.ev| && s.ev[e].waiters != {}
  {
    var p := Least(s.ev[e].waiters);
    if p < |s.prioTbl| && s.prioTbl[p].Tcb? then s.prioTbl[p].task else 0
  }

  function Delivered(x: Task, msg: int, bit: StatBit): Task
  {
    x.(dly := 0, event := None, msg := msg, pendTO := false, stat := x.stat - {bit})
  }

  /** OS_EventTaskRdy */
  ghost function EventTaskRdy(s: State, e: nat, msg: int, bit: StatBit): State
    requires e < |s.ev| && s.ev[e].waiters != {} && FirstWaiter(s, e) < |s.tcb|
  {
    var p := Least(s.ev[e].waiters);
    var t := FirstWaiter(s, e);
    var x := Delivered(s.tcb[t], msg, bit);
    SetTask(SetWaiters(s, e, s.ev[e].waiters - {p}), t, x).(ready := if x.stat == {} then s.ready + {p} else s.ready)
  }

  /** The loop that readies every waiter of an event, best first. */
  ghost function ReadyAll(s: State, e: nat, msg: int, bit: StatBit): State
    requires e < |s.ev|
    decreases s.ev[e].waiters
  {
    if s.ev[e].waiters == {} || FirstWaiter(s, e) >= |s.tcb| then s
    else ReadyAll(EventTaskRdy(s, e, msg, bit), e, msg, bit)
  }

  /** OS_EventTO, for the current task. */
  ghost function EventTO(s: State, t: nat, e: nat): State
    requires t < |s.tcb| && t < |s.phase| && e < |s.ev|
  {
    var x := s.tcb[t];
    SetPhase(SetTask(SetWaiters(s, e, s.ev[e].waiters - {x.prio}), t, x.(pendTO := false, stat := {}, event := None)),
             t, User)
  }

  /** What OSTimeTick does to a TCB whose delay has just reached zero, and what OSTimeDlyResume does. */
  function DelayOver(x: Task): Task
  {
    if x.stat * PEND_ANY != {} then x.(dly := 0, stat := x.stat - PEND_ANY, pendTO := true)
    else x.(dly := 0, pendTO := false)
  }

  function EndDelay(s: State, t: nat): State
    requires t < |s.tcb|
  {
    var x := DelayOver(s.tcb[t]);
    SetTask(s, t, x).(ready := if SuspendBit !in x.stat then s.ready + {x.prio} else s.ready)
  }

  /** OSTimeTick for one TCB of the list. */
  function TickTask(s: State, t: nat): State
    requires t < |s.tcb|
  {
    var x := s.tcb[t];
    if x.dly == 0 then s
    else if x.dly == 1 then EndDelay(s, t)
    else SetTask(s, t, x.(dly := x.dly - 1))
  }

  /** OSTimeTicks(n) for one TCB of the list. */
  function AdvanceTask(s: State, t: nat, n: nat): State
    requires t < |s.tcb|
  {
    var x := s.tcb[t];
    if x.dly == 0 then s
    else if x.dly > n then SetTask(s, t, x.(dly := x.dly - n))
    else EndDelay(s, t)
  }

  ghost predicate InTable(s: State, l: seq<nat>)
  {
    forall i :: 0 <= i < |l| ==> l[i] < |s.tcb|
  }

  /** The walk of OSTimeTick along the TCB list, which stops at the idle task. */
  ghost function TickWalk(s: State, l: seq<nat>): (s': State)
    requires InTable(s, l)
    ensures |s'.tcb| == |s.tcb|
    decreases |l|
  {
    if l == [] || s.tcb[l[0]].prio == IDLE_PRIO then s else TickWalk(TickTask(s, l[0]), l[1..])
  }

  ghost function AdvanceWalk(s: State, l: seq<nat>, n: nat): (s': State)
    requires InTable(s, l)
    ensures |s'.tcb| == |s.tcb|
    decreases |l|
  {
    if l == [] || s.tcb[l[0]].prio == IDLE_PRIO then s else AdvanceWalk(AdvanceTask(s, l[0], n), l[1..], n)
  }

  // ---------------------------------------------------------------- tasks (os_task.c, os_time.c)

  function NewTask(x: Task, prio: nat): Task
  {
    x.(prio := prio, stat := {}, dly := 0, pendTO := false, event := None, msg := NULL_MSG, node := None)
  }

  /** OSTaskCreate up to the end of its first critical section, which reserves the priority. */
  ghost function CreateBegin(s: State, prio: nat): State
    requires prio < |s.prioTbl| && s.cur < |s.phase|
  {
    if !s.prioTbl[prio].Empty? then s else SetPhase(SetSlot(s, prio, Reserved), s.cur, InCreate(prio, NotYet))
  }

  /** OS_TCBInit up to the end of its first critical section: the first free TCB, if there is one. */
  ghost function TakeTcb(s: State): State
    requires s.cur < |s.phase| && s.phase[s.cur].InCreate?
  {
    var prio := s.phase[s.cur].prio;
    if s.freeTcbs == [] then SetPhase(s, s.cur, InCreate(prio, NoneLeft))
    else
      SetPhase(s, s.cur, InCreate(prio, Got(s.freeTcbs[0])))
      .(freeTcbs := s.freeTcbs[1..], away := s.away + {s.freeTcbs[0]})
  }

  /** The second critical section of OS_TCBInit: the TCB becomes a ready task at the head of the
      list. The code fills it in before, when nothing but the creating task can see it. */
  ghost function AddTask(s: State, t: nat, prio: nat): State
    requires prio < |s.prioTbl| && t < |s.tcb| && t < |s.phase|
  {
    s.(tcb := s.tcb[t := NewTask(s.tcb[t], prio)], phase := s.phase[t := User],
    away := s.away - {t}, list := [t] + s.list,
    prioTbl := s.prioTbl[prio := Tcb(t)], ready := s.ready + {prio})
  }

  /** The end of OSTaskCreate: the reservation becomes a task, or is given up. */
  ghost function CreateEnd(s: State): State
    requires s.cur < |s.phase| && s.phase[s.cur].InCreate? && s.phase[s.cur].prio < |s.prioTbl|
    requires s.phase[s.cur].taken.Got? ==> s.phase[s.cur].taken.tcb < |s.tcb| && s.phase[s.cur].taken.tcb < |s.phase|
  {
    var ph, s1 := s.phase[s.cur], SetPhase(s, s.cur, User);
    match ph.taken
    case Got(t) => AddTask(s1, t, ph.prio)
    case _ => SetSlot(s1, ph.prio, Empty)
  }

  /** OS_FlagUnlink: the node of task t leaves the list of its group. */
  ghost function FlagUnlink(s: State, t: nat): (s': State)
    requires t < |s.tcb|
    ensures |s'.tcb| == |s.tcb| && s'.phase == s.phase
  {
    match s.tcb[t].node
    case None => s
    case Some(nd) =>
      if nd.grp >= |s.grp| then s
      else
        var g := s.grp[nd.grp];
        SetTask(s.(grp := s.grp[nd.grp := g.(waiters := Remove(g.waiters, t))]), t, s.tcb[t].(node := None))
  }

  /** The task found at a priority. */
  ghost function Target(s: State, prio: nat): Option<nat>
  {
    if prio < |s.prioTbl| && s.prioTbl[prio].Tcb? then Some(s.prioTbl[prio].task) else None
  }

  ghost predicate TargetInTable(s: State, prio: nat)
  {
    Target(s, prio).Some? ==> Target(s, prio).value < |s.tcb| && Target(s, prio).value < |s.phase|
  }

  /** What OS_PRIO_SELF stands for. */
  ghost function SelfOr(s: State, prio: nat): nat
  {
    if prio == PRIO_SELF && s.cur < |s.tcb| then s.tcb[s.cur].prio else prio
  }

  /** First critical section of OSTaskDel: task t, found at prio, leaves everything it is in. Its
      event pointer stays as it is. */
  ghost function Quiesced(s: State, t: nat, prio: nat): State
    requires t < |s.tcb|
  {
    var x := s.tcb[t];
    var s1 := if x.event.Some? && x.event.value < |s.ev|
              then SetWaiters(s, x.event.value, s.ev[x.event.value].waiters - {x.prio}) else s;
    var s2 := FlagUnlink(s1, t);
    SetTask(s2, t, s2.tcb[t].(dly := 0, stat := {}, pendTO := false))
    .(ready := s.ready - {x.prio}, dying := Some(Dying(t, prio)))
  }

  /** The second: the TCB becomes free, and the scheduler lock is released. */
  ghost function DelEnd(s: State): State
    requires s.dying.Some? && s.dying.value.prio < |s.prioTbl|
  {
    var t := s.dying.value.task;
    s.(prioTbl := s.prioTbl[s.dying.value.prio := Empty],
    list := Remove(s.list, t), freeTcbs := [t] + s.freeTcbs, dying := None)
  }

  /** Whether OSTaskDel finds a task that it may delete. */
  ghost predicate Deletes(s: State, prio: nat)
  {
    Target(s, prio).Some? && prio != IDLE_PRIO
  }

  /** OSTaskDel up to the gap, once OS_PRIO_SELF has been replaced. */
  ghost function DelBegin(s: State, prio: nat): State
    requires TargetInTable(s, prio)
  {
    if Deletes(s, prio) then Quiesced(s, Target(s, prio).value, prio) else s
  }

  /** OSTaskDel with nothing in between. */
  ghost function TaskDel(s: State, prio: nat): State
    requires TargetInTable(s, prio)
  {
    if Deletes(s, prio) then DelEnd(DelBegin(s, prio)) else s
  }

  function Suspended(s: State, t: nat): State
    requires t < |s.tcb|
  {
    SetTask(s, t, s.tcb[t].(stat := s.tcb[t].stat + {SuspendBit})).(ready := s.ready - {s.tcb[t].prio})
  }

  /** OSTaskSuspend, once OS_PRIO_SELF has been replaced. */
  ghost function TaskSuspend(s: State, prio: nat): State
    requires TargetInTable(s, prio)
  {
    match Target(s, prio)
    case None => s
    case Some(t) => Suspended(s, t)
  }

  function Resumed(s: State, t: nat): State
    requires t < |s.tcb|
  {
    var x := s.tcb[t].(stat := s.tcb[t].stat - {SuspendBit});
    SetTask(s, t, x).(ready := if x.stat == {} && x.dly == 0 then s.ready + {x.prio} else s.ready)
  }

  /** OSTaskResume */
  ghost function TaskResume(s: State, prio: nat): State
    requires TargetInTable(s, prio)
  {
    match Target(s, prio)
    case None => s
    case Some(t) => if SuspendBit in s.tcb[t].stat then Resumed(s, t) else s
  }

  /** Moving a task to another priority: its ready bit if that is set, and otherwise its bit in the
      wait list of its event, if it has one. OSTaskChangePrio and OSMutexPend both do this. */
  ghost function Reprio(s: State, t: nat, newp: nat): State
    requires t < |s.tcb|
  {
    var x := s.tcb[t];
    var s1 := if x.prio in s.ready then s.(ready := s.ready - {x.prio} + {newp})
              else if x.event.Some? && x.event.value < |s.ev|
              then SetWaiters(s, x.event.value, s.ev[x.event.value].waiters - {x.prio} + {newp})
              else s;
    SetTask(s1, t, x.(prio := newp))
  }

  /** OSTaskChangePrio, when newp is free and there is a task at oldp. */
  ghost function ChangePrio(s: State, oldp: nat, newp: nat): State
    requires newp < |s.prioTbl| && TargetInTable(s, oldp)
  {
    if !s.prioTbl[newp].Empty? || Target(s, oldp).None? then s
    else
      var t := Target(s, oldp).value;
      Reprio(s, t, newp).(prioTbl := s.prioTbl[oldp := Empty][newp := Tcb(t)])
  }

  /** OSTimeDly by the current task. */
  function TimeDly(s: State, ticks: nat): State
    requires s.cur < |s.tcb|
  {
    if ticks == 0 then s
    else SetTask(s, s.cur, s.tcb[s.cur].(dly := ticks)).(ready := s.ready - {s.tcb[s.cur].prio})
  }

  /** OSTimeDlyResume */
  ghost function TimeDlyResume(s: State, prio: nat): State
    requires TargetInTable(s, prio)
  {
    match Target(s, prio)
    case None => s
    case Some(t) => if prio >= IDLE_PRIO || s.tcb[t].dly == 0 then s else EndDelay(s, t)
  }

  // ---------------------------------------------------------------- mutexes (os_mutex.c)

  ghost predicate IsMutex(s: State, e: nat)
  {
    e < |s.ev| && s.ev[e].kind.Mutex?
  }

  /** OSMutexCreate */
  ghost function MutexCreate(s: State, pip: nat): State
    requires pip < |s.prioTbl| && (s.freeEvs != [] ==> s.freeEvs[0] < |s.ev|)
  {
    if !s.prioTbl[pip].Empty? || s.freeEvs == [] then s
    else
      var e := s.freeEvs[0];
      s.(ev := s.ev[e := Event(Mutex(256 * pip + AVAILABLE, None), {})], freeEvs := s.freeEvs[1..],
      prioTbl := s.prioTbl[pip := Reserved])
  }

  /** The current task becomes the owner of an available mutex. */
  ghost function Acquire(s: State, e: nat): State
    requires IsMutex(s, e) && s.cur < |s.tcb|
  {
    var m := s.ev[e].kind;
    SetKind(s, e, Mutex(WithLow(m.cnt, s.tcb[s.cur].prio), Some(s.cur)))
  }

  ghost function MutexAccept(s: State, e: nat): State
    requires IsMutex(s, e) && s.cur < |s.tcb|
  {
    if LowByte(s.ev[e].kind.cnt) == AVAILABLE then Acquire(s, e) else s
  }

  /** Raising the owner to the inheritance priority, if it is not there and the current task would
      otherwise have to wait for a task of lower priority than its own. */
  ghost function Promote(s: State, e: nat): State
    requires IsMutex(s, e) && s.cur < |s.tcb|
  {
    var m := s.ev[e].kind;
    if m.owner.Some? && m.owner.value < |s.tcb| && Pip(m.cnt) < |s.prioTbl|
       && s.tcb[m.owner.value].prio > Pip(m.cnt) && LowByte(m.cnt) > s.tcb[s.cur].prio
    then SetSlot(Reprio(s, m.owner.value, Pip(m.cnt)), Pip(m.cnt), Tcb(m.owner.value))
    else s
  }

  /** OSMutexPend up to OS_Sched. */
  ghost function MutexPend(s: State, e: nat, timeout: nat): State
    requires IsMutex(s, e) && s.cur < |s.tcb| && s.cur < |s.phase|
  {
    if LowByte(s.ev[e].kind.cnt) == AVAILABLE then Acquire(s, e)
    else Block(Promote(s, e), s.cur, e, MutexBit, timeout)
  }

  /** OSMutex_RdyAtPrio */
  ghost function RdyAtPrio(s: State, t: nat, prio: nat): State
    requires t < |s.tcb| && prio < |s.prioTbl|
  {
    SetSlot(SetTask(s, t, s.tcb[t].(prio := prio)), prio, Tcb(t)).(ready := s.ready - {s.tcb[t].prio} + {prio})
  }

  /** The first part of OSMutexPost: the owner back at its own priority, and the slot reserved. */
  ghost function Restore(s: State, e: nat): State
    requires IsMutex(s, e) && s.cur < |s.tcb|
  {
    var m := s.ev[e].kind;
    var s1 := if s.tcb[s.cur].prio == Pip(m.cnt) && LowByte(m.cnt) < |s.prioTbl|
              then RdyAtPrio(s, s.cur, LowByte(m.cnt)) else s;
    if Pip(m.cnt) < |s.prioTbl| then SetSlot(s1, Pip(m.cnt), Reserved) else s1
  }

  /** The second part: the best waiter becomes the owner. */
  ghost function HandOff(s: State, e: nat): State
    requires IsMutex(s, e)
  {
    var cnt := s.ev[e].kind.cnt;
    if s.ev[e].waiters != {} && FirstWaiter(s, e) < |s.tcb| then
      var p, t := Least(s.ev[e].waiters), FirstWaiter(s, e);
      SetKind(EventTaskRdy(s, e, NULL_MSG, MutexBit), e, Mutex(WithLow(cnt, p), Some(t)))
    else SetKind(s, e, Mutex(WithLow(cnt, AVAILABLE), None))
  }

  /** OSMutexPost */
  ghost function MutexPost(s: State, e: nat): State
    requires IsMutex(s, e) && s.cur < |s.tcb|
  {
    if s.ev[e].kind.owner != Some(s.cur) then s else HandOff(Restore(s, e), e)
  }

  ghost function FreeEvent(s: State, e: nat): State
    requires e < |s.ev|
  {
    s.(ev := s.ev[e := Event(Unused, s.ev[e].waiters)], freeEvs := [e] + s.freeEvs)
  }

  /** OSMutexDel; `always` is OS_DEL_ALWAYS, otherwise OS_DEL_NO_PEND. */
  ghost function MutexDel(s: State, e: nat, always: bool): State
    requires IsMutex(s, e)
  {
    var m := s.ev[e].kind;
    if !always && s.ev[e].waiters != {} then s
    else
      var s1 := if always && m.owner.Some? && m.owner.value < |s.tcb| && LowByte(m.cnt) < |s.prioTbl|
                   && s.tcb[m.owner.value].prio == Pip(m.cnt)
                then RdyAtPrio(s, m.owner.value, LowByte(m.cnt)) else s;
      var s2 := if always then ReadyAll(s1, e, NULL_MSG, MutexBit) else s1;
      var s3 := if Pip(m.cnt) < |s2.prioTbl| then SetSlot(s2, Pip(m.cnt), Empty) else s2;
      if e < |s3.ev| then FreeEvent(s3, e) else s3
  }

  // ---------------------------------------------------------------- queues and mailboxes (os_q.c, os_mbox.c)

  ghost predicate IsMessages(s: State, e: nat)
  {
    e < |s.ev| && s.ev[e].kind.Messages?
  }

  /** OSQCreate, or OSMboxCreate (a mailbox is a queue of size 1). */
  ghost function MsgCreate(s: State, bit: StatBit, size: nat, msgs: seq<int>): State
    requires s.freeEvs != [] ==> s.freeEvs[0] < |s.ev|
  {
    if s.freeEvs == [] then s
    else
      var e := s.freeEvs[0];
      s.(ev := s.ev[e := Event(Messages(bit, size, msgs), {})], freeEvs := s.freeEvs[1..])
  }

  function SetMsgs(k: Kind, msgs: seq<int>): Kind
    requires k.Messages?
  {
    Messages(k.bit, k.size, msgs)
  }

  /** OSQPost, OSQPostFront and OSMboxPost: to the best waiter, or else into the queue. */
  ghost function MsgPost(s: State, e: nat, msg: int, front: bool): State
    requires IsMessages(s, e)
  {
    var k := s.ev[e].kind;
    if s.ev[e].waiters != {} && FirstWaiter(s, e) < |s.tcb| then EventTaskRdy(s, e, msg, k.bit)
    else if |k.msgs| >= k.size then s
    else SetKind(s, e, SetMsgs(k, if front then [msg] + k.msgs else k.msgs + [msg]))
  }

  /** OSQPostOpt and OSMboxPostOpt with the broadcast option. */
  ghost function MsgBroadcast(s: State, e: nat, msg: int, front: bool): State
    requires IsMessages(s, e)
  {
    if s.ev[e].waiters != {} then ReadyAll(s, e, msg, s.ev[e].kind.bit) else MsgPost(s, e, msg, front)
  }

  /** OSQAccept and OSMboxAccept. */
  ghost function MsgAccept(s: State, e: nat): State
    requires IsMessages(s, e)
  {
    var k := s.ev[e].kind;
    if k.msgs == [] then s else SetKind(s, e, SetMsgs(k, k.msgs[1..]))
  }

  /** OSQPend and OSMboxPend up to OS_Sched. */
  ghost function MsgPend(s: State, e: nat, timeout: nat): State
    requires IsMessages(s, e) && s.cur < |s.tcb| && s.cur < |s.phase|
  {
    var k := s.ev[e].kind;
    if k.msgs != [] then SetKind(s, e, SetMsgs(k, k.msgs[1..])) else Block(s, s.cur, e, k.bit, timeout)
  }

  /** OSQFlush */
  ghost function MsgFlush(s: State, e: nat): State
    requires IsMessages(s, e)
  {
    SetKind(s, e, SetMsgs(s.ev[e].kind, []))
  }

  /** OSQDel and OSMboxDel. */
  ghost function MsgDel(s: State, e: nat, always: bool): State
    requires IsMessages(s, e)
  {
    if !always && s.ev[e].waiters != {} then s
    else
      var s1 := if always then ReadyAll(s, e, NULL_MSG, s.ev[e].kind.bit) else s;
      if e < |s1.ev| then FreeEvent(s1, e) else s1
  }

  // ---------------------------------------------------------------- the second half of a pend

  /** OSMutexPend, OSQPend and OSMboxPend after OS_Sched, for the current task. */
  ghost function PendResume(s: State): State
    requires s.cur < |s.tcb| && s.cur < |s.phase| && s.phase[s.cur].InEvent? && s.phase[s.cur].e < |s.ev|
  {
    var x, ph := s.tcb[s.cur], s.phase[s.cur];
    if x.pendTO then EventTO(s, s.cur, ph.e)
    else if ph.bit == MutexBit then SetPhase(SetTask(s, s.cur, x.(event := None)), s.cur, User)
    else SetPhase(SetTask(s, s.cur, x.(msg := NULL_MSG, stat := {}, event := None)), s.cur, User)
  }

  // ---------------------------------------------------------------- event flags (os_flag.c)

  function IsSet(w: WaitType): bool { w.SetAll? || w.SetAny? }

  /** The wanted flags that are as wanted. */
  function FlagsMet(flags: Flags, wanted: Flags, w: WaitType): Flags
  {
    if IsSet(w) then flags * wanted else wanted - flags
  }

  predicate Satisfied(flags: Flags, wanted: Flags, w: WaitType)
  {
    if w.SetAll? || w.ClrAll? then FlagsMet(flags, wanted, w) == wanted else FlagsMet(flags, wanted, w) != {}
  }

  function Consumed(flags: Flags, rdy: Flags, w: WaitType): Flags
  {
    if IsSet(w) then flags - rdy else flags + rdy
  }

  /** OS_FlagBlock */
  ghost function FlagBlock(s: State, t: nat, nd: FlagNode, consume: bool, timeout: nat): State
    requires t < |s.tcb| && t < |s.phase| && nd.grp < |s.grp|
  {
    var x, g := s.tcb[t], s.grp[nd.grp];
    SetPhase(SetTask(s, t, x.(stat := x.stat + {FlagBit}, pendTO := false, dly := timeout, event := None, node := Some(nd))),
             t, InFlag(nd.grp, nd.wait, consume))
    .(grp := s.grp[nd.grp := g.(waiters := [t] + g.waiters)], ready := s.ready - {x.prio})
  }

  /** OSFlagPend up to OS_Sched. */
  ghost function FlagPend(s: State, g: nat, wanted: Flags, w: WaitType, consume: bool, timeout: nat): State
    requires g < |s.grp| && s.cur < |s.tcb| && s.cur < |s.phase|
  {
    var flags := s.grp[g].flags;
    if Satisfied(flags, wanted, w) then
      var rdy := FlagsMet(flags, wanted, w);
      SetFlags(SetTask(s, s.cur, s.tcb[s.cur].(flagsRdy := rdy)), g, if consume then Consumed(flags, rdy, w) else flags)
    else FlagBlock(s, s.cur, FlagNode(g, wanted, w), consume, timeout)
  }

  /** OSFlagPend after OS_Sched when the pend has timed out. */
  ghost function FlagTO(s: State, t: nat): State
    requires t < |s.tcb| && t < |s.phase|
  {
    var s1 := FlagUnlink(s, t);
    SetPhase(SetTask(s1, t, s1.tcb[t].(pendTO := false, stat := {})), t, User)
  }

  function SetFlags(s: State, g: nat, flags: Flags): State
    requires g < |s.grp|
  {
    s.(grp := s.grp[g := s.grp[g].(flags := flags)])
  }

  /** OSFlagPend after OS_Sched, for the current task. */
  ghost function FlagResume(s: State): State
    requires s.cur < |s.tcb| && s.cur < |s.phase| && s.phase[s.cur].InFlag? && s.phase[s.cur].g < |s.grp|
  {
    var x, ph := s.tcb[s.cur], s.phase[s.cur];
    if x.pendTO then FlagTO(s, s.cur)
    else
      var s1 := SetPhase(s, s.cur, User);
      if ph.consume then SetFlags(s1, ph.g, Consumed(s.grp[ph.g].flags, x.flagsRdy, ph.wait)) else s1
  }

  /** OSFlagAccept */
  ghost function FlagAccept(s: State, g: nat, wanted: Flags, w: WaitType, consume: bool): State
    requires g < |s.grp|
  {
    var flags := s.grp[g].flags;
    if Satisfied(flags, wanted, w) && consume then SetFlags(s, g, Consumed(flags, FlagsMet(flags, wanted, w), w)) else s
  }

  function FlagReadied(x: Task, rdy: Flags): Task
  {
    x.(dly := 0, flagsRdy := rdy, stat := x.stat - {FlagBit}, pendTO := false)
  }

  /** OS_FlagTaskRdy for the node of task t. */
  ghost function FlagTaskRdy(s: State, t: nat, rdy: Flags): State
    requires t < |s.tcb|
  {
    var x := FlagReadied(s.tcb[t], rdy);
    FlagUnlink(SetTask(s, t, x).(ready := if x.stat == {} then s.ready + {x.prio} else s.ready), t)
  }

  /** The walk of OSFlagPost over the nodes that were linked when it began. */
  ghost function FlagWalk(s: State, g: nat, l: seq<nat>): (s': State)
    requires g < |s.grp| && InTable(s, l)
    ensures |s'.tcb| == |s.tcb| && |s'.grp| == |s.grp|
    decreases |l|
  {
    if l == [] then s
    else
      match s.tcb[l[0]].node
      case None => FlagWalk(s, g, l[1..])
      case Some(nd) =>
        if Satisfied(s.grp[g].flags, nd.flags, nd.wait)
        then FlagWalk(FlagTaskRdy(s, l[0], FlagsMet(s.grp[g].flags, nd.flags, nd.wait)), g, l[1..])
        else FlagWalk(s, g, l[1..])
  }

  function PostedFlags(word: Flags, flags: Flags, toSet: bool): Flags
  {
    if toSet then word + flags else word - flags
  }

  /** OSFlagPost; `toSet` is OS_FLAG_SET, otherwise OS_FLAG_CLR. */
  ghost function FlagPost(s: State, g: nat, flags: Flags, toSet: bool): State
    requires g < |s.grp| && InTable(s, s.grp[g].waiters)
  {
    FlagWalk(SetFlags(s, g, PostedFlags(s.grp[g].flags, flags, toSet)), g, s.grp[g].waiters)
  }

  /** The loop of OSFlagDel with OS_DEL_ALWAYS. */
  ghost function FlagReadyAll(s: State, l: seq<nat>): (s': State)
    requires InTable(s, l)
    ensures |s'.tcb| == |s.tcb| && |s'.grp| == |s.grp|
    decreases |l|
  {
    if l == [] then s else FlagReadyAll(FlagTaskRdy(s, l[0], {}), l[1..])
  }

  /** OSFlagDel */
  ghost function FlagDel(s: State, g: nat, always: bool): State
    requires g < |s.grp| && InTable(s, s.grp[g].waiters)
  {
    if !always && s.grp[g].waiters != [] then s
    else
      var s1 := if always then FlagReadyAll(s, s.grp[g].waiters) else s;
      s1.(grp := s1.grp[g := s1.grp[g].(used := false, flags := {})])
  }

  /** OSFlagCreate on a free group. */
  ghost function FlagCreate(s: State, g: nat, flags: Flags): State
    requires g < |s.grp|
  {
    s.(grp := s.grp[g := FlagGrp(true, flags, [])])
  }

  // ---------------------------------------------------------------- the scheduler

  /** A switch to task t. */
  function SwitchTo(s: State, t: nat): State
    requires t < |s.tcb|
  {
    s.(cur := t, prioCur := s.tcb[t].prio)
  }

  /** OS_Sched and OSIntExit: a switch to the task at the least ready priority, unless the scheduler
      is locked, or that priority is the one that the last switch was to. */
  ghost function Sched(s: State): State
  {
    if s.dying == None && s.ready != {} && Least(s.ready) != s.prioCur && Target(s, Least(s.ready)).Some?
    then s.(cur := Target(s, Least(s.ready)).value, prioCur := Least(s.ready))
    else s
  }
}
