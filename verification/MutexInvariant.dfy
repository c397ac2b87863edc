/** What mutexes add to the kernel's invariant: the count word, the two priority slots of a raised
    owner, and the bound on priority inversion. */
module MutexInvariant {
  import opened IndexLists
  import opened KernelState
  import opened KernelInvariant

  lemma CntParts(cnt: nat, low: nat)
    requires low < 256
    ensures Pip(WithLow(cnt, low)) == Pip(cnt) && LowByte(WithLow(cnt, low)) == low
    ensures Pip(256 * cnt + low) == cnt && LowByte(256 * cnt + low) == low
  {
  }

  // ---------------------------------------------------------------- the invariant

  ghost predicate Owns(s: State, e: nat, t: nat)
  {
    IsMutex(s, e) && s.ev[e].kind.owner == Some(t)
  }

  ghost predicate IsOwner(s: State, t: nat)
  {
    exists e: nat :: Owns(s, e, t)
  }

  /** The owner runs at its own priority, with the inheritance priority reserved, or it is raised
      to the inheritance priority, and then both slots lead to it. */
  ghost predicate OwnerOk(s: State, t: nat, pip: nat, low: nat)
    requires Shape(s) && pip < N_PRIO
  {
    && t in s.list && t < |s.tcb| && t != Idle(s) && !IsDying(s, t)
    && pip < low < IDLE_PRIO
    && s.tcb[t].event == None && s.tcb[t].node == None
    && ((s.tcb[t].prio == low && s.prioTbl[pip] == Reserved)
        || (s.tcb[t].prio == pip && s.prioTbl[pip] == Tcb(t) && s.prioTbl[low] == Tcb(t)))
  }

  /** No waiter outranks the owner's own priority unless the owner has been raised. */
  ghost predicate BoundedInversion(s: State, e: nat, t: nat)
    requires IsMutex(s, e) && t < |s.tcb|
  {
    var cnt := s.ev[e].kind.cnt;
    forall p :: p in s.ev[e].waiters ==> p > Pip(cnt) && (p < LowByte(cnt) ==> s.tcb[t].prio == Pip(cnt))
  }

  ghost predicate NotBeingCreated(s: State, p: nat)
  {
    forall u: nat :: u in s.list && u < |s.phase| ==> !Creating(s.phase[u], p)
  }

  ghost predicate MutexOk(s: State, e: nat)
    requires Shape(s) && IsMutex(s, e)
  {
    var m := s.ev[e].kind;
    && Pip(m.cnt) < IDLE_PRIO && NotBeingCreated(s, Pip(m.cnt))
    && (match m.owner
        case None => LowByte(m.cnt) == AVAILABLE && s.ev[e].waiters == {} && s.prioTbl[Pip(m.cnt)] == Reserved
        case Some(t) => OwnerOk(s, t, Pip(m.cnt), LowByte(m.cnt)) && BoundedInversion(s, e, t))
  }

  /** Two mutexes share neither their inheritance priority nor their owner. */
  ghost predicate Apart(s: State, e: nat, f: nat)
    requires IsMutex(s, e) && IsMutex(s, f)
  {
    && Pip(s.ev[e].kind.cnt) != Pip(s.ev[f].kind.cnt)
    && (s.ev[e].kind.owner.Some? ==> s.ev[e].kind.owner != s.ev[f].kind.owner)
  }

  /** A slot leads to a task of that priority, or to a raised owner that came from there. */
  ghost predicate SlotUse(s: State, p: nat)
    requires Shape(s) && p < N_PRIO
  {
    s.prioTbl[p].Tcb? ==> var t := s.prioTbl[p].task; t < |s.tcb| && (s.tcb[t].prio == p || RaisedFrom(s, t, p))
  }

  ghost predicate RaisedFrom(s: State, t: nat, p: nat)
  {
    exists e: nat :: Owns(s, e, t) && LowByte(s.ev[e].kind.cnt) == p
  }

  ghost predicate MutexInv(s: State)
    requires Shape(s)
  {
    && (forall e: nat :: IsMutex(s, e) ==> MutexOk(s, e))
    && (forall e: nat, f: nat :: IsMutex(s, e) && IsMutex(s, f) && e != f ==> Apart(s, e, f))
    && (forall p: nat :: p < N_PRIO ==> SlotUse(s, p))
  }

  ghost predicate Inv(s: State)
  {
    CoreInv(s) && MutexInv(s)
  }

  // ---------------------------------------------------------------- steps that leave mutexes alone

  ghost predicate OwnerKept(s: State, s': State, t: nat)
  {
    && t in s'.list && t < |s.tcb| && t < |s'.tcb| && s'.tcb[t].prio == s.tcb[t].prio && !IsDying(s', t)
    && s'.tcb[t].event == None && s'.tcb[t].node == None
  }

  ghost predicate MutexKept(s: State, s': State, e: nat)
    requires IsMutex(s', e) && Shape(s) && Shape(s')
  {
    var k := s'.ev[e].kind;
    && e < |s.ev| && s.ev[e].kind == k && s'.ev[e].waiters <= s.ev[e].waiters
    && (Pip(k.cnt) < N_PRIO ==> s'.prioTbl[Pip(k.cnt)] == s.prioTbl[Pip(k.cnt)])
    && (k.owner.Some? && LowByte(k.cnt) < N_PRIO ==> s'.prioTbl[LowByte(k.cnt)] == s.prioTbl[LowByte(k.cnt)])
    && (k.owner.Some? ==> OwnerKept(s, s', k.owner.value))
    && (NotBeingCreated(s, Pip(k.cnt)) ==> NotBeingCreated(s', Pip(k.cnt)))
  }

  /** A slot is as before, or leads to no task, or to one of just that priority. */
  ghost predicate SlotKept(s: State, s': State, p: nat)
    requires Shape(s) && Shape(s') && p < N_PRIO
  {
    s'.prioTbl[p].Tcb? ==>
      var t := s'.prioTbl[p].task;
      t < |s'.tcb| && (s'.tcb[t].prio == p || (s'.prioTbl[p] == s.prioTbl[p] && t < |s.tcb| && s.tcb[t].prio == s'.tcb[t].prio))
  }

  lemma MutexesKept(s: State, s': State)
    requires Inv(s) && Shape(s') && Idle(s') == Idle(s) && |s'.ev| == |s.ev|
    requires forall e: nat :: IsMutex(s', e) ==> MutexKept(s, s', e)
    requires forall e: nat :: IsMutex(s, e) ==> IsMutex(s', e)
    requires forall p: nat :: p < N_PRIO ==> SlotKept(s, s', p)
    ensures MutexInv(s')
  {
    forall e: nat | IsMutex(s', e)
      ensures MutexOk(s', e)
    {
      assert IsMutex(s, e) && MutexKept(s, s', e) && MutexOk(s, e);
    }
    forall e: nat, f: nat | IsMutex(s', e) && IsMutex(s', f) && e != f
      ensures Apart(s', e, f)
    {
      assert MutexKept(s, s', e) && MutexKept(s, s', f) && Apart(s, e, f);
    }
    forall p: nat | p < N_PRIO
      ensures SlotUse(s', p)
    {
      assert SlotKept(s, s', p) && SlotUse(s, p);
      if s'.prioTbl[p].Tcb? && s'.tcb[s'.prioTbl[p].task].prio != p {
        var t := s'.prioTbl[p].task;
        var e: nat :| Owns(s, e, t) && LowByte(s.ev[e].kind.cnt) == p;
        assert IsMutex(s, e) && IsMutex(s', e) && MutexKept(s, s', e);
        assert Owns(s', e, t);
      }
    }
  }

  /** Steps that start no wait, change no priority, and at most end a service of a task. */
  ghost predicate Gentle(s: State, s': State)
  {
    && |s'.tcb| == |s.tcb| && |s'.phase| == |s.phase| && |s'.ev| == |s.ev|
    && s'.list == s.list && s'.prioTbl == s.prioTbl && s'.away == s.away && s'.dying == s.dying
    && (forall t: nat :: t < |s.tcb| ==> GentleTask(s.tcb[t], s'.tcb[t]))
    && (forall t: nat :: t < |s.phase| ==> s'.phase[t] == s.phase[t] || (s'.phase[t] == User && !s.phase[t].InCreate?))
    && (forall e: nat :: e < |s.ev| ==> GentleEvent(s.ev[e], s'.ev[e]))
  }

  ghost predicate GentleTask(x: Task, y: Task)
  {
    y.prio == x.prio && (x.event == None ==> y.event == None) && (x.node == None ==> y.node == None)
  }

  ghost predicate GentleEvent(a: Event, b: Event)
  {
    b.waiters <= a.waiters && (a.kind.Mutex? || b.kind.Mutex? ==> b.kind == a.kind)
  }

  lemma GentleChain(s: State, s1: State, s2: State)
    requires Gentle(s, s1) && Gentle(s1, s2)
    ensures Gentle(s, s2)
  {
    forall t: nat | t < |s.tcb|
      ensures GentleTask(s.tcb[t], s2.tcb[t])
    {
      assert GentleTask(s.tcb[t], s1.tcb[t]) && GentleTask(s1.tcb[t], s2.tcb[t]);
    }
    forall e: nat | e < |s.ev|
      ensures GentleEvent(s.ev[e], s2.ev[e])
    {
      assert GentleEvent(s.ev[e], s1.ev[e]) && GentleEvent(s1.ev[e], s2.ev[e]);
    }
  }

  lemma GentleKeeps(s: State, s': State)
    requires Inv(s) && CoreInv(s') && Gentle(s, s')
    ensures Inv(s')
  {
    forall e: nat | IsMutex(s', e)
      ensures IsMutex(s, e) && MutexKept(s, s', e)
    {
      assert GentleEvent(s.ev[e], s'.ev[e]) && MutexOk(s, e);
      var k := s'.ev[e].kind;
      if k.owner.Some? {
        assert GentleTask(s.tcb[k.owner.value], s'.tcb[k.owner.value]);
      }
    }
    forall e: nat | IsMutex(s, e)
      ensures IsMutex(s', e)
    {
      assert GentleEvent(s.ev[e], s'.ev[e]);
    }
    forall p: nat | p < N_PRIO
      ensures SlotKept(s, s', p)
    {
      assert SlotOk(s, p);
      if s.prioTbl[p].Tcb? {
        LiveTask(s, s.prioTbl[p].task);
        assert GentleTask(s.tcb[s.prioTbl[p].task], s'.tcb[s.prioTbl[p].task]);
      }
    }
    MutexesKept(s, s');
  }

  lemma ReadiedGentle(s: State, e: nat, msg: int, bit: StatBit)
    requires e < |s.ev| && s.ev[e].waiters != {} && FirstWaiter(s, e) < |s.tcb|
    ensures Gentle(s, EventTaskRdy(s, e, msg, bit))
  {
  }

  lemma {:induction false} ReadyAllGentle(s: State, e: nat, msg: int, bit: StatBit)
    requires e < |s.ev|
    ensures Gentle(s, ReadyAll(s, e, msg, bit))
    decreases s.ev[e].waiters
  {
    if s.ev[e].waiters != {} && FirstWaiter(s, e) < |s.tcb| {
      var s1 := EventTaskRdy(s, e, msg, bit);
      ReadiedGentle(s, e, msg, bit);
      ReadyAllGentle(s1, e, msg, bit);
      GentleChain(s, s1, ReadyAll(s1, e, msg, bit));
    }
  }

  lemma {:induction false} TickWalkGentle(s: State, l: seq<nat>)
    requires InTable(s, l)
    ensures Gentle(s, TickWalk(s, l))
    decreases |l|
  {
    if l != [] && s.tcb[l[0]].prio != IDLE_PRIO {
      var s1 := TickTask(s, l[0]);
      assert Gentle(s, s1);
      TickWalkGentle(s1, l[1..]);
      GentleChain(s, s1, TickWalk(s1, l[1..]));
    }
  }

  lemma UnlinkGentle(s: State, t: nat)
    requires t < |s.tcb|
    ensures Gentle(s, FlagUnlink(s, t))
  {
  }

  lemma FlagTaskRdyGentle(s: State, t: nat, rdy: Flags)
    requires t < |s.tcb|
    ensures Gentle(s, FlagTaskRdy(s, t, rdy))
  {
    var x := FlagReadied(s.tcb[t], rdy);
    var s1 := SetTask(s, t, x).(ready := if x.stat == {} then s.ready + {x.prio} else s.ready);
    assert Gentle(s, s1);
    UnlinkGentle(s1, t);
    GentleChain(s, s1, FlagUnlink(s1, t));
  }

  lemma {:induction false} FlagWalkGentle(s: State, g: nat, l: seq<nat>)
    requires g < |s.grp| && InTable(s, l)
    ensures Gentle(s, FlagWalk(s, g, l))
    decreases |l|
  {
    if l != [] {
      var t := l[0];
      match s.tcb[t].node
      case None => FlagWalkGentle(s, g, l[1..]);
      case Some(nd) =>
        if Satisfied(s.grp[g].flags, nd.flags, nd.wait) {
          var rdy := FlagsMet(s.grp[g].flags, nd.flags, nd.wait);
          FlagTaskRdyGentle(s, t, rdy);
          FlagWalkGentle(FlagTaskRdy(s, t, rdy), g, l[1..]);
          GentleChain(s, FlagTaskRdy(s, t, rdy), FlagWalk(FlagTaskRdy(s, t, rdy), g, l[1..]));
        } else {
          FlagWalkGentle(s, g, l[1..]);
        }
    }
  }

  lemma {:induction false} FlagReadyAllGentle(s: State, l: seq<nat>)
    requires InTable(s, l)
    ensures Gentle(s, FlagReadyAll(s, l))
    decreases |l|
  {
    if l != [] {
      var s1 := FlagTaskRdy(s, l[0], {});
      FlagTaskRdyGentle(s, l[0], {});
      FlagReadyAllGentle(s1, l[1..]);
      GentleChain(s, s1, FlagReadyAll(s1, l[1..]));
    }
  }

  // ---------------------------------------------------------------- waits that are not on a mutex

  /** A task that may start to wait. */
  ghost predicate MayWait(s: State, t: nat)
  {
    && t in s.list && t < |s.tcb| && t < |s.phase| && t != Idle(s)
    && s.phase[t] == User && Runnable(s.tcb[t]) && !IsOwner(s, t) && !IsDying(s, t)
  }

  lemma MessageWaitKeeps(s: State, t: nat, e: nat, timeout: nat)
    requires Inv(s) && MayWait(s, t) && IsMessages(s, e)
    ensures Inv(Block(s, t, e, s.ev[e].kind.bit, timeout))
  {
    BlockKeeps(s, t, e, timeout);
    var s' := Block(s, t, e, s.ev[e].kind.bit, timeout);
    forall f: nat | IsMutex(s', f)
      ensures IsMutex(s, f) && MutexKept(s, s', f)
    {
      assert MutexOk(s, f);
      assert !Owns(s, f, t);
    }
    WaitKeepsSlots(s, s', t);
    MutexesKept(s, s');
  }

  lemma FlagWaitKeeps(s: State, t: nat, nd: FlagNode, consume: bool, timeout: nat)
    requires Inv(s) && MayWait(s, t) && nd.grp < |s.grp| && s.grp[nd.grp].used
    ensures Inv(FlagBlock(s, t, nd, consume, timeout))
  {
    FlagBlockKeeps(s, t, nd, consume, timeout);
    var s' := FlagBlock(s, t, nd, consume, timeout);
    forall f: nat | IsMutex(s', f)
      ensures IsMutex(s, f) && MutexKept(s, s', f)
    {
      assert MutexOk(s, f);
      assert !Owns(s, f, t);
    }
    WaitKeepsSlots(s, s', t);
    MutexesKept(s, s');
  }

  lemma WaitKeepsSlots(s: State, s': State, t: nat)
    requires Inv(s) && CoreInv(s') && t < |s.tcb| && s'.prioTbl == s.prioTbl
    requires |s'.tcb| == |s.tcb| && forall u: nat :: u < |s.tcb| ==> s'.tcb[u].prio == s.tcb[u].prio
    ensures forall p: nat :: p < N_PRIO ==> SlotKept(s, s', p)
  {
    forall p: nat | p < N_PRIO
      ensures SlotKept(s, s', p)
    {
      assert SlotOk(s, p);
      if s.prioTbl[p].Tcb? {
        LiveTask(s, s.prioTbl[p].task);
      }
    }
  }

  // ---------------------------------------------------------------- tasks

  /** A slot that no mutex uses. */
  ghost predicate NotOfMutex(s: State, p: nat)
  {
    && (forall e: nat :: IsMutex(s, e) ==> Pip(s.ev[e].kind.cnt) != p)
    && (forall e: nat :: IsMutex(s, e) && s.ev[e].kind.owner.Some? ==> LowByte(s.ev[e].kind.cnt) != p)
  }

  lemma EmptySlotNotOfMutex(s: State, p: nat)
    requires Inv(s) && p < N_PRIO && s.prioTbl[p].Empty?
    ensures NotOfMutex(s, p)
  {
    forall e: nat | IsMutex(s, e)
      ensures Pip(s.ev[e].kind.cnt) != p
      ensures s.ev[e].kind.owner.Some? ==> LowByte(s.ev[e].kind.cnt) != p
    {
      assert MutexOk(s, e);
      if s.ev[e].kind.owner.Some? {
        LiveTask(s, s.ev[e].kind.owner.value);
      }
    }
  }

  lemma ReservedSlotNotOfMutex(s: State, t: nat)
    requires Inv(s) && t in s.list && t < |s.tcb| && s.phase[t].InCreate?
    ensures NotOfMutex(s, s.phase[t].prio)
  {
    var p := s.phase[t].prio;
    LiveTask(s, t);
    forall e: nat | IsMutex(s, e)
      ensures Pip(s.ev[e].kind.cnt) != p
      ensures s.ev[e].kind.owner.Some? ==> LowByte(s.ev[e].kind.cnt) != p
    {
      assert MutexOk(s, e);
      assert Pip(s.ev[e].kind.cnt) != p;
      if s.ev[e].kind.owner.Some? {
        LiveTask(s, s.ev[e].kind.owner.value);
      }
    }
  }

  lemma OtherPrioNotOfMutex(s: State, t: nat)
    requires Inv(s) && t in s.list && t < |s.tcb| && !IsOwner(s, t)
    ensures NotOfMutex(s, s.tcb[t].prio)
    ensures OneSlot(s, t)
  {
    LiveTask(s, t);
    forall e: nat | IsMutex(s, e)
      ensures Pip(s.ev[e].kind.cnt) != s.tcb[t].prio
      ensures s.ev[e].kind.owner.Some? ==> LowByte(s.ev[e].kind.cnt) != s.tcb[t].prio
    {
      assert MutexOk(s, e) && !Owns(s, e, t);
      if s.ev[e].kind.owner.Some? {
        LiveTask(s, s.ev[e].kind.owner.value);
      }
    }
    forall p: nat | p < N_PRIO && s.prioTbl[p] == Tcb(t)
      ensures p == s.tcb[t].prio
    {
      assert SlotUse(s, p);
      assert forall e: nat :: !Owns(s, e, t);
    }
  }

  lemma CreateBeginInv(s: State, prio: nat)
    requires Inv(s) && prio < N_PRIO && s.cur in s.list && s.cur < |s.tcb| && s.phase[s.cur] == User
    requires !IsDying(s, s.cur)
    ensures Inv(CreateBegin(s, prio))
  {
    CreateBeginKeeps(s, prio);
    if s.prioTbl[prio].Empty? {
      var s' := CreateBegin(s, prio);
      EmptySlotNotOfMutex(s, prio);
      forall e: nat | IsMutex(s', e)
        ensures IsMutex(s, e) && MutexKept(s, s', e)
      {
        assert MutexOk(s, e);
      }
      forall p: nat | p < N_PRIO
        ensures SlotKept(s, s', p)
      {
        assert SlotUse(s, p);
      }
      MutexesKept(s, s');
    }
  }

  lemma AddTaskInv(s: State, t: nat, prio: nat)
    requires Inv(s) && CanAdd(s, t, prio) && NotOfMutex(s, prio)
    ensures Inv(AddTask(s, t, prio))
  {
    AddTaskLists(s, t, prio);
    AddTaskKeeps(s, t, prio);
    var s' := AddTask(s, t, prio);
    forall e: nat | IsMutex(s', e)
      ensures IsMutex(s, e) && MutexKept(s, s', e)
    {
      assert MutexOk(s, e);
    }
    forall p: nat | p < N_PRIO
      ensures SlotKept(s, s', p)
    {
      assert SlotUse(s, p) && SlotOk(s, p);
    }
    MutexesKept(s, s');
  }

  lemma FreedSlotInv(s: State, prio: nat)
    requires Inv(s) && prio < N_PRIO && Vacant(s, prio) && NotOfMutex(s, prio)
    ensures Inv(SetSlot(s, prio, Empty))
  {
    SlotFreedKeeps(s, prio, Empty);
    var s' := SetSlot(s, prio, Empty);
    forall e: nat | IsMutex(s', e)
      ensures IsMutex(s, e) && MutexKept(s, s', e)
    {
      assert MutexOk(s, e);
    }
    forall p: nat | p < N_PRIO
      ensures SlotKept(s, s', p)
    {
      assert SlotUse(s, p);
    }
    MutexesKept(s, s');
  }

  lemma TakeTcbInv(s: State)
    requires Inv(s) && s.cur in s.list && s.cur < |s.tcb| && s.phase[s.cur].InCreate? && s.phase[s.cur].taken.NotYet?
    requires !IsDying(s, s.cur)
    ensures s.freeTcbs != [] ==> s.freeTcbs[0] < |s.tcb|
    ensures Inv(TakeTcb(s))
  {
    TakeTcbKeeps(s);
    var s' := TakeTcb(s);
    forall e: nat | IsMutex(s', e)
      ensures IsMutex(s, e) && MutexKept(s, s', e)
    {
      assert MutexOk(s, e);
    }
    forall p: nat | p < N_PRIO
      ensures SlotKept(s, s', p)
    {
      assert SlotUse(s, p);
    }
    MutexesKept(s, s');
  }

  lemma LeftCreateInv(s: State)
    requires Inv(s) && s.cur < |s.tcb| && CoreInv(SetPhase(s, s.cur, User))
    ensures Inv(SetPhase(s, s.cur, User))
  {
    var s' := SetPhase(s, s.cur, User);
    forall e: nat | IsMutex(s', e)
      ensures IsMutex(s, e) && MutexKept(s, s', e)
    {
      assert MutexOk(s, e);
    }
    forall p: nat | p < N_PRIO
      ensures SlotKept(s, s', p)
    {
      assert SlotUse(s, p);
    }
    MutexesKept(s, s');
  }

  lemma CreateEndInv(s: State)
    requires Inv(s) && s.cur in s.list && s.cur < |s.tcb| && s.phase[s.cur].InCreate? && !IsDying(s, s.cur)
    ensures s.phase[s.cur].prio < N_PRIO && (s.phase[s.cur].taken.Got? ==> s.phase[s.cur].taken.tcb < |s.tcb|)
    ensures Inv(CreateEnd(s))
  {
    var ph, s1 := s.phase[s.cur], SetPhase(s, s.cur, User);
    LiveTask(s, s.cur);
    ReservationGivenUp(s);
    LeftCreateInv(s);
    ReservedSlotNotOfMutex(s, s.cur);
    match ph.taken
    case Got(t) => AddTaskInv(s1, t, ph.prio);
    case _ => FreedSlotInv(s1, ph.prio);
  }

  lemma QuiescedMutex(s: State, t: nat, e: nat)
    requires Inv(s) && t in s.list && t < |s.tcb| && t != Idle(s) && !IsOwner(s, t) && s.dying == None
    requires IsMutex(Quiesced(s, t, s.tcb[t].prio), e) && CoreInv(Quiesced(s, t, s.tcb[t].prio))
    ensures IsMutex(s, e) && MutexKept(s, Quiesced(s, t, s.tcb[t].prio), e)
  {
    assert IsMutex(s, e);
    assert MutexOk(s, e) && !Owns(s, e, t);
  }

  lemma QuiescedInv(s: State, t: nat)
    requires Inv(s) && t in s.list && t < |s.tcb| && t != Idle(s) && !IsOwner(s, t) && s.dying == None
    ensures Inv(Quiesced(s, t, s.tcb[t].prio))
  {
    OtherPrioNotOfMutex(s, t);
    QuiescedKeeps(s, t);
    var s' := Quiesced(s, t, s.tcb[t].prio);
    forall e: nat | IsMutex(s', e)
      ensures IsMutex(s, e) && MutexKept(s, s', e)
    {
      QuiescedMutex(s, t, e);
    }
    forall p: nat | p < N_PRIO
      ensures SlotKept(s, s', p)
    {
      assert SlotUse(s, p);
    }
    MutexesKept(s, s');
  }

  lemma DyingIsNoOwner(s: State, t: nat)
    requires Inv(s) && IsDying(s, t)
    ensures !IsOwner(s, t) && t in s.list && t < |s.tcb| && t != Idle(s) && OneSlot(s, t)
            && s.dying.value.prio == s.tcb[t].prio
  {
    LiveTask(s, t);
    forall e: nat
      ensures !Owns(s, e, t)
    {
      assert IsMutex(s, e) ==> MutexOk(s, e);
    }
    OtherPrioNotOfMutex(s, t);
  }

  lemma DelEndMutex(s: State, e: nat)
    requires Inv(s) && s.dying.Some? && s.dying.value.prio < N_PRIO && IsMutex(DelEnd(s), e)
    ensures Shape(DelEnd(s)) && IsMutex(s, e) && MutexKept(s, DelEnd(s), e)
  {
    var t := s.dying.value.task;
    DyingIsNoOwner(s, t);
    DelEndLists(s);
    OtherPrioNotOfMutex(s, t);
    assert IsMutex(s, e);
    assert MutexOk(s, e) && !Owns(s, e, t);
  }

  lemma DelEndInv(s: State)
    requires Inv(s) && s.dying.Some?
    ensures s.dying.value.prio < N_PRIO && Inv(DelEnd(s))
  {
    var t := s.dying.value.task;
    DyingIsNoOwner(s, t);
    DelEndLists(s);
    DelEndKeeps(s);
    OtherPrioNotOfMutex(s, t);
    var s' := DelEnd(s);
    forall e: nat | IsMutex(s', e)
      ensures IsMutex(s, e) && MutexKept(s, s', e)
    {
      DelEndMutex(s, e);
    }
    forall p: nat | p < N_PRIO
      ensures SlotKept(s, s', p)
    {
      assert SlotUse(s, p);
    }
    MutexesKept(s, s');
  }

  lemma TaskDelInv(s: State, prio: nat)
    requires Inv(s) && s.dying == None
    requires Deletes(s, prio) ==> !IsOwner(s, Target(s, prio).value)
    ensures TargetInTable(s, prio) && Inv(DelBegin(s, prio)) && Inv(TaskDel(s, prio))
  {
    TargetIsLive(s, prio);
    if Deletes(s, prio) {
      var t := Target(s, prio).value;
      OtherPrioNotOfMutex(s, t);
      SlotOfItsTask(s, prio);
      QuiescedInv(s, t);
      DelEndInv(DelBegin(s, prio));
    }
  }

  /** A slot that leads to a task which owns no mutex is at that task's priority. */
  lemma SlotOfItsTask(s: State, p: nat)
    requires Inv(s) && Target(s, p).Some? && !IsOwner(s, Target(s, p).value)
    ensures Target(s, p).value < |s.tcb| && s.tcb[Target(s, p).value].prio == p
  {
    TargetIsLive(s, p);
    OtherPrioNotOfMutex(s, Target(s, p).value);
  }

  /** OSTaskDel keeps the invariant, in its gap and at its end, exactly when the task owns no mutex:
      the mutex would go on naming as its owner a task that is gone. */
  lemma TaskDelExact(s: State, prio: nat)
    requires Inv(s) && s.dying == None && Deletes(s, prio)
    ensures TargetInTable(s, prio)
    ensures Inv(DelBegin(s, prio)) <==> !IsOwner(s, Target(s, prio).value)
    ensures Inv(TaskDel(s, prio)) <==> !IsOwner(s, Target(s, prio).value)
  {
    TargetIsLive(s, prio);
    var t := Target(s, prio).value;
    if IsOwner(s, t) {
      var e: nat :| Owns(s, e, t);
      RemoveMembers(s.list, t);
      assert IsMutex(DelBegin(s, prio), e) && IsMutex(TaskDel(s, prio), e);
      assert Shape(DelBegin(s, prio)) ==> !MutexOk(DelBegin(s, prio), e);
      assert CoreInv(TaskDel(s, prio)) ==> !MutexOk(TaskDel(s, prio), e);
    } else {
      TaskDelInv(s, prio);
    }
  }

  // ---------------------------------------------------------------- changing a priority

  /** Moving a waiter to newp leaves the inversion on mutex e bounded. */
  ghost predicate WaitsWell(s: State, e: nat, newp: nat)
    requires IsMutex(s, e)
  {
    Pip(s.ev[e].kind.cnt) < newp && (newp < LowByte(s.ev[e].kind.cnt) ==> OwnerRaised(s, e))
  }

  /** When OSTaskChangePrio leaves everything coherent: the task owns no mutex, it is not in the
      window or being deleted, and its mutex, if it waits for one, need not raise its owner. */
  ghost predicate MayMove(s: State, t: nat, newp: nat)
  {
    && t < |s.tcb| && !IsOwner(s, t) && !InWindow(s.tcb[t]) && !IsDying(s, t)
    && (s.tcb[t].event.Some? && IsMutex(s, s.tcb[t].event.value) ==> WaitsWell(s, s.tcb[t].event.value, newp))
  }

  ghost predicate Changes(s: State, oldp: nat, newp: nat, t: nat)
  {
    && oldp < IDLE_PRIO && newp < N_PRIO && |s.prioTbl| == N_PRIO && s.prioTbl[newp].Empty?
    && Target(s, oldp) == Some(t) && TargetInTable(s, oldp)
  }

  lemma ChangedEvents(s: State, oldp: nat, newp: nat, t: nat, e: nat)
    requires Inv(s) && Changes(s, oldp, newp, t) && MayMove(s, t, newp) && e < |s.ev|
    ensures var s' := ChangePrio(s, oldp, newp);
            && |s'.ev| == |s.ev| && Shape(s') && s.tcb[t].prio == oldp
            && MovedEvent(s.ev[e], s'.ev[e], oldp, newp, s.tcb[t].event == Some(e))
  {
    SlotOfItsTask(s, oldp);
    TargetIsLive(s, oldp);
    EmptySlotVacant(s, newp);
    IdleIsLive(s);
    LiveTask(s, Idle(s));
    MovedEvents(s, t, newp, e);
  }

  lemma ChangedMutex(s: State, oldp: nat, newp: nat, t: nat, e: nat)
    requires Inv(s) && Changes(s, oldp, newp, t) && MayMove(s, t, newp) && IsMutex(s, e) && s.tcb[t].event != Some(e)
    ensures Shape(ChangePrio(s, oldp, newp)) && IsMutex(ChangePrio(s, oldp, newp), e)
            && MutexKept(s, ChangePrio(s, oldp, newp), e)
  {
    ChangedEvents(s, oldp, newp, t, e);
    TargetIsLive(s, oldp);
    OtherPrioNotOfMutex(s, t);
    EmptySlotNotOfMutex(s, newp);
    assert MutexOk(s, e) && !Owns(s, e, t);
    assert newp !in s.ev[e].waiters && oldp !in s.ev[e].waiters ==>
             ChangePrio(s, oldp, newp).ev[e].waiters == s.ev[e].waiters;
    NotAmong(s, e, t);
    NotRecorded(s, newp);
  }

  lemma NotAmong(s: State, e: nat, t: nat)
    requires CoreInv(s) && t in s.list && t < |s.tcb| && e < |s.ev| && s.tcb[t].event != Some(e)
    ensures s.tcb[t].prio !in s.ev[e].waiters
  {
    RecordsHold(s, t);
  }

  /** The mutex that the task waits for. */
  lemma ChangedOwnMutex(s: State, oldp: nat, newp: nat, t: nat, e: nat)
    requires Inv(s) && Changes(s, oldp, newp, t) && MayMove(s, t, newp) && IsMutex(s, e) && s.tcb[t].event == Some(e)
    ensures Shape(ChangePrio(s, oldp, newp)) && IsMutex(ChangePrio(s, oldp, newp), e)
            && MutexOk(ChangePrio(s, oldp, newp), e)
    ensures NewOwnerOk(s, ChangePrio(s, oldp, newp), e)
  {
    ChangedEvents(s, oldp, newp, t, e);
    TargetIsLive(s, oldp);
    OtherPrioNotOfMutex(s, t);
    EmptySlotNotOfMutex(s, newp);
    LiveTask(s, t);
    assert MutexOk(s, e) && !Owns(s, e, t);
  }

  lemma ChangedSlots(s: State, oldp: nat, newp: nat, t: nat)
    requires Inv(s) && Changes(s, oldp, newp, t) && MayMove(s, t, newp)
    ensures Shape(ChangePrio(s, oldp, newp))
    ensures forall p: nat :: p < N_PRIO ==> SlotUse(ChangePrio(s, oldp, newp), p)
  {
    var s' := ChangePrio(s, oldp, newp);
    SlotOfItsTask(s, oldp);
    TargetIsLive(s, oldp);
    OtherPrioNotOfMutex(s, t);
    forall p: nat | p < N_PRIO
      ensures SlotUse(s', p)
    {
      assert SlotUse(s, p);
      if s'.prioTbl[p].Tcb? && s'.tcb[s'.prioTbl[p].task].prio != p {
        var f: nat :| Owns(s, f, s.prioTbl[p].task) && LowByte(s.ev[f].kind.cnt) == p;
        ChangedEvents(s, oldp, newp, t, f);
        assert Owns(s', f, s.prioTbl[p].task);
      }
    }
  }

  lemma ChangedInv(s: State, oldp: nat, newp: nat, t: nat)
    requires Inv(s) && Changes(s, oldp, newp, t) && MayMove(s, t, newp)
    ensures Inv(ChangePrio(s, oldp, newp))
  {
    SlotOfItsTask(s, oldp);
    ChangePrioKeeps(s, oldp, newp);
    ChangedSlots(s, oldp, newp, t);
    var s' := ChangePrio(s, oldp, newp);
    var e0 := if s.tcb[t].event.Some? then s.tcb[t].event.value else |s.ev|;
    forall e: nat | IsMutex(s', e) && e != e0
      ensures MutexKept(s, s', e) && Idle(s') == Idle(s)
    {
      ChangedEvents(s, oldp, newp, t, e);
      ChangedMutex(s, oldp, newp, t, e);
    }
    if IsMutex(s', e0) {
      ChangedEvents(s, oldp, newp, t, e0);
      ChangedOwnMutex(s, oldp, newp, t, e0);
    }
    OneMutexChanges(s, s', e0);
  }

  lemma ChangePrioInv(s: State, oldp: nat, newp: nat)
    requires Inv(s) && oldp < IDLE_PRIO && newp < N_PRIO
    requires Target(s, oldp).Some? ==> MayMove(s, Target(s, oldp).value, newp)
    ensures TargetInTable(s, oldp) && Inv(ChangePrio(s, oldp, newp))
  {
    TargetIsLive(s, oldp);
    if s.prioTbl[newp].Empty? && Target(s, oldp).Some? {
      ChangedInv(s, oldp, newp, Target(s, oldp).value);
    }
  }

  /** The count word would go on naming the priority the owner had, or the slot it came from. */
  lemma OwnerMoved(s: State, oldp: nat, newp: nat, t: nat)
    requires Inv(s) && Changes(s, oldp, newp, t) && IsOwner(s, t)
    ensures !Inv(ChangePrio(s, oldp, newp))
  {
    var e: nat :| Owns(s, e, t);
    var s' := ChangePrio(s, oldp, newp);
    assert MutexOk(s, e);
    EmptySlotNotOfMutex(s, newp);
    assert IsMutex(s', e) && s'.ev[e].kind == s.ev[e].kind && s'.tcb[t].prio == newp;
    assert CoreInv(s') ==> !MutexOk(s', e);
  }

  /** The owner would run below a waiter, or the waiter would outrank the inheritance priority. */
  lemma WaiterMoved(s: State, oldp: nat, newp: nat, t: nat)
    requires Inv(s) && Changes(s, oldp, newp, t) && !IsOwner(s, t) && !InWindow(s.tcb[t]) && !IsDying(s, t)
    requires s.tcb[t].event.Some? && IsMutex(s, s.tcb[t].event.value) && !WaitsWell(s, s.tcb[t].event.value, newp)
    ensures !Inv(ChangePrio(s, oldp, newp))
  {
    var e, s' := s.tcb[t].event.value, ChangePrio(s, oldp, newp);
    SlotOfItsTask(s, oldp);
    TargetIsLive(s, oldp);
    LiveTask(s, t);
    assert MutexOk(s, e) && !Owns(s, e, t);
    EmptySlotNotOfMutex(s, newp);
    assert IsMutex(s', e) && s'.ev[e].kind == s.ev[e].kind && newp in s'.ev[e].waiters;
    assert CoreInv(s') ==> !MutexOk(s', e);
  }

  /** OSTaskChangePrio to a free priority keeps the invariant exactly when MayMove says so. */
  lemma ChangePrioExact(s: State, oldp: nat, newp: nat)
    requires Inv(s) && oldp < IDLE_PRIO && newp < N_PRIO
    requires Target(s, oldp).Some? && s.prioTbl[newp].Empty?
    ensures TargetInTable(s, oldp)
    ensures Inv(ChangePrio(s, oldp, newp)) <==> MayMove(s, Target(s, oldp).value, newp)
  {
    TargetIsLive(s, oldp);
    var t := Target(s, oldp).value;
    if IsOwner(s, t) {
      OwnerMoved(s, oldp, newp, t);
    } else {
      SlotOfItsTask(s, oldp);
      if IsDying(s, t) {
        DyingMoved(s, oldp, newp);
      } else if InWindow(s.tcb[t]) {
        StaleWaiter(s, oldp, newp);
      } else if MayMove(s, t, newp) {
        ChangedInv(s, oldp, newp, t);
      } else {
        WaiterMoved(s, oldp, newp, t);
      }
    }
  }

  // ---------------------------------------------------------------- steps of one mutex

  /** What a step of mutex e may do to e itself. */
  ghost predicate NewOwnerOk(s: State, s': State, e: nat)
  {
    IsMutex(s', e) ==>
      && IsMutex(s, e) && Pip(s'.ev[e].kind.cnt) == Pip(s.ev[e].kind.cnt)
      && (s'.ev[e].kind.owner == s.ev[e].kind.owner || s'.ev[e].kind.owner == None
          || !IsOwner(s, s'.ev[e].kind.owner.value))
  }

  lemma OneMutexChanges(s: State, s': State, e: nat)
    requires Inv(s) && Shape(s')
    requires NewOwnerOk(s, s', e) && (IsMutex(s', e) ==> MutexOk(s', e))
    requires forall f: nat :: IsMutex(s', f) && f != e ==> MutexKept(s, s', f) && Idle(s') == Idle(s)
    requires forall p: nat :: p < N_PRIO ==> SlotUse(s', p)
    ensures MutexInv(s')
  {
    forall f: nat | IsMutex(s', f)
      ensures MutexOk(s', f) && IsMutex(s, f)
    {
      if f != e {
        assert MutexKept(s, s', f) && IsMutex(s, f) && MutexOk(s, f);
      }
    }
    forall f: nat, h: nat | IsMutex(s', f) && IsMutex(s', h) && f != h
      ensures Apart(s', f, h)
    {
      assert IsMutex(s, f) && IsMutex(s, h) && Apart(s, f, h) && Apart(s, h, f);
      if f == e {
        assert MutexKept(s, s', h);
        OwnerApart(s, s', e, h);
      } else {
        assert MutexKept(s, s', f);
        if h == e {
          OwnerApart(s, s', e, f);
        } else {
          assert MutexKept(s, s', h);
        }
      }
    }
  }

  lemma OwnerApart(s: State, s': State, e: nat, f: nat)
    requires Inv(s) && Shape(s') && NewOwnerOk(s, s', e)
    requires IsMutex(s', e) && IsMutex(s', f) && f != e && MutexKept(s, s', f)
    ensures Apart(s', e, f) && Apart(s', f, e)
  {
    assert IsMutex(s, f) && Apart(s, e, f) && Apart(s, f, e);
    var o := s'.ev[e].kind.owner;
    if o.Some? && o != s.ev[e].kind.owner {
      assert !Owns(s, f, o.value);
    }
  }

  lemma AcquireInv(s: State, e: nat)
    requires Inv(s) && IsMutex(s, e) && LowByte(s.ev[e].kind.cnt) == AVAILABLE
    requires MayWait(s, s.cur) && s.tcb[s.cur].prio > Pip(s.ev[e].kind.cnt)
    ensures Inv(Acquire(s, e)) && Owns(Acquire(s, e), e, s.cur)
  {
    var s', t := Acquire(s, e), s.cur;
    LiveTask(s, t);
    assert MutexOk(s, e);
    CntParts(s.ev[e].kind.cnt, s.tcb[t].prio);
    ContentsKeep(s, s');
    forall f: nat | IsMutex(s', f) && f != e
      ensures MutexKept(s, s', f)
    {
      assert MutexOk(s, f);
    }
    SlotUseKept(s, s', e);
    OneMutexChanges(s, s', e);
  }

  /** The slots when only the record of an available mutex has changed. */
  lemma SlotUseKept(s: State, s': State, e: nat)
    requires Inv(s) && Shape(s') && s'.prioTbl == s.prioTbl && s'.tcb == s.tcb
    requires IsMutex(s, e) && s.ev[e].kind.owner == None
    requires |s'.ev| == |s.ev| && forall f: nat :: f < |s.ev| && f != e ==> s'.ev[f] == s.ev[f]
    ensures forall p: nat :: p < N_PRIO ==> SlotUse(s', p)
  {
    forall p: nat | p < N_PRIO
      ensures SlotUse(s', p)
    {
      assert SlotUse(s, p);
      if s.prioTbl[p].Tcb? && s.tcb[s.prioTbl[p].task].prio != p {
        var f: nat :| Owns(s, f, s.prioTbl[p].task) && LowByte(s.ev[f].kind.cnt) == p;
        assert f != e && Owns(s', f, s.prioTbl[p].task);
      }
    }
  }

  lemma MutexAcceptInv(s: State, e: nat)
    requires Inv(s) && IsMutex(s, e) && MayWait(s, s.cur) && s.tcb[s.cur].prio > Pip(s.ev[e].kind.cnt)
    ensures Inv(MutexAccept(s, e))
  {
    if LowByte(s.ev[e].kind.cnt) == AVAILABLE {
      AcquireInv(s, e);
    }
  }

  lemma MutexCreateInv(s: State, pip: nat)
    requires Inv(s) && pip < IDLE_PRIO
    ensures (s.freeEvs != [] ==> s.freeEvs[0] < |s.ev|) && Inv(MutexCreate(s, pip))
  {
    if s.freeEvs != [] {
      assert s.freeEvs[0] in s.freeEvs;
      if s.prioTbl[pip].Empty? {
        var e, s1, s' := s.freeEvs[0], SetSlot(s, pip, Reserved), MutexCreate(s, pip);
        EmptySlotVacant(s, pip);
        SlotFreedKeeps(s, pip, Reserved);
        NewEventKeeps(s1, Mutex(256 * pip + AVAILABLE, None));
        NewMutexApart(s, pip);
      }
    }
  }

  lemma NewMutexApart(s: State, pip: nat)
    requires Inv(s) && pip < IDLE_PRIO && s.prioTbl[pip].Empty? && s.freeEvs != [] && s.freeEvs[0] < |s.ev|
    ensures Shape(MutexCreate(s, pip)) && MutexInv(MutexCreate(s, pip))
  {
    var e, s' := s.freeEvs[0], MutexCreate(s, pip);
    assert EventOk(s, e) && e in s.freeEvs;
    CntParts(pip, AVAILABLE);
    EmptySlotNotOfMutex(s, pip);
    EmptySlotVacant(s, pip);
    forall f: nat | IsMutex(s', f)
      ensures MutexOk(s', f) && (f != e ==> IsMutex(s, f) && s'.ev[f] == s.ev[f])
    {
      if f != e {
        assert IsMutex(s, f) && MutexOk(s, f);
      }
    }
    forall f: nat, h: nat | IsMutex(s', f) && IsMutex(s', h) && f != h
      ensures Apart(s', f, h)
    {
      assert f != e ==> IsMutex(s, f);
      assert h != e ==> IsMutex(s, h);
      assert f != e && h != e ==> Apart(s, f, h);
    }
    forall p: nat | p < N_PRIO
      ensures SlotUse(s', p)
    {
      assert SlotUse(s, p);
      if s'.prioTbl[p].Tcb? && s.tcb[s.prioTbl[p].task].prio != p {
        var f: nat :| Owns(s, f, s.prioTbl[p].task) && LowByte(s.ev[f].kind.cnt) == p;
        assert f != e && Owns(s', f, s.prioTbl[p].task);
      }
    }
  }

  lemma ReservedVacant(s: State, pip: nat)
    requires CoreInv(s) && pip < N_PRIO && s.prioTbl[pip] == Reserved && NotBeingCreated(s, pip)
    ensures Vacant(s, pip)
  {
    forall u: nat | u in s.list && u < |s.tcb|
      ensures s.tcb[u].prio != pip && !Creating(s.phase[u], pip)
    {
      LiveTask(s, u);
    }
  }

  /** The owner of e is below the inheritance priority, where it can be moved to. */
  ghost predicate NotRaised(s: State, e: nat, t: nat)
  {
    Owns(s, e, t) && t < |s.tcb| && s.tcb[t].prio != Pip(s.ev[e].kind.cnt)
  }

  lemma RaiseKeeps(s: State, e: nat, t: nat)
    requires Inv(s) && NotRaised(s, e, t)
    ensures Pip(s.ev[e].kind.cnt) < N_PRIO
    ensures CanMove(s, t, Pip(s.ev[e].kind.cnt)) && CoreInv(Moved(s, t, Pip(s.ev[e].kind.cnt)))
    ensures Moved(s, t, Pip(s.ev[e].kind.cnt)).ev == s.ev
  {
    assert MutexOk(s, e);
    ReservedVacant(s, Pip(s.ev[e].kind.cnt));
    LiveTask(s, t);
    MovedKeeps(s, t, Pip(s.ev[e].kind.cnt));
  }

  lemma RaiseSlots(s: State, e: nat, t: nat)
    requires Inv(s) && NotRaised(s, e, t) && Pip(s.ev[e].kind.cnt) < N_PRIO
    ensures var s' := Moved(s, t, Pip(s.ev[e].kind.cnt));
            forall p: nat :: p < N_PRIO ==> SlotUse(s', p)
  {
    var s' := Moved(s, t, Pip(s.ev[e].kind.cnt));
    RaiseKeeps(s, e, t);
    assert MutexOk(s, e);
    forall p: nat | p < N_PRIO
      ensures SlotUse(s', p)
    {
      assert SlotUse(s, p);
      if s'.prioTbl[p].Tcb? && s'.tcb[s'.prioTbl[p].task].prio != p {
        if s'.prioTbl[p].task == t {
          SoleMutex(s, e, t, p);
          assert Owns(s', e, t);
        } else {
          var f: nat :| Owns(s, f, s.prioTbl[p].task) && LowByte(s.ev[f].kind.cnt) == p;
          assert Owns(s', f, s.prioTbl[p].task);
        }
      }
    }
  }

  lemma OwnsOne(s: State, e: nat, t: nat)
    requires Shape(s) && MutexInv(s) && Owns(s, e, t)
    ensures forall f: nat :: Owns(s, f, t) ==> f == e
  {
    forall f: nat | Owns(s, f, t)
      ensures f == e
    {
      assert f != e ==> Apart(s, e, f);
    }
  }

  /** The slots of an owner that is not raised. */
  lemma SoleMutex(s: State, e: nat, t: nat, p: nat)
    requires Inv(s) && NotRaised(s, e, t) && p < N_PRIO && s.prioTbl[p] == Tcb(t)
    ensures p == LowByte(s.ev[e].kind.cnt)
  {
    assert MutexOk(s, e) && SlotUse(s, p);
    OwnsOne(s, e, t);
  }

  lemma RaiseOther(s: State, e: nat, t: nat, f: nat)
    requires Inv(s) && NotRaised(s, e, t) && Pip(s.ev[e].kind.cnt) < N_PRIO && CanMove(s, t, Pip(s.ev[e].kind.cnt))
    requires IsMutex(s, f) && f != e
    ensures var s' := Moved(s, t, Pip(s.ev[e].kind.cnt));
            Shape(s') && (s'.ev == s.ev ==> MutexKept(s, s', f) && Idle(s') == Idle(s))
  {
    LiveTask(s, t);
    assert MutexOk(s, e) && MutexOk(s, f) && Apart(s, f, e) && Apart(s, e, f);
  }

  lemma RaiseInv(s: State, e: nat, t: nat)
    requires Inv(s) && NotRaised(s, e, t)
    ensures Pip(s.ev[e].kind.cnt) < N_PRIO
    ensures Inv(Moved(s, t, Pip(s.ev[e].kind.cnt)))
  {
    RaiseKeeps(s, e, t);
    RaiseSlots(s, e, t);
    var s' := Moved(s, t, Pip(s.ev[e].kind.cnt));
    LiveTask(s, t);
    assert MutexOk(s, e);
    forall f: nat | IsMutex(s', f) && f != e
      ensures MutexKept(s, s', f) && Idle(s') == Idle(s)
    {
      RaiseOther(s, e, t, f);
    }
    OneMutexChanges(s, s', e);
  }

  /** The owner is raised where the task t that is about to wait demands it. */
  ghost predicate RaisedFor(s: State, e: nat, t: nat)
    requires t < |s.tcb|
  {
    && IsMutex(s, e) && s.ev[e].kind.owner.Some? && s.ev[e].kind.owner.value < |s.tcb|
    && s.tcb[t].prio > Pip(s.ev[e].kind.cnt)
    && (s.tcb[t].prio < LowByte(s.ev[e].kind.cnt) ==> s.tcb[s.ev[e].kind.owner.value].prio == Pip(s.ev[e].kind.cnt))
  }

  lemma WaitedMutexOk(s: State, t: nat, e: nat, timeout: nat)
    requires Inv(s) && MayWait(s, t) && RaisedFor(s, e, t)
    ensures Shape(Block(s, t, e, MutexBit, timeout)) && MutexOk(Block(s, t, e, MutexBit, timeout), e)
  {
    assert MutexOk(s, e) && !Owns(s, e, t);
  }

  /** OSMutexPend by a task that has to wait, once the owner has been raised where that is needed. */
  lemma MutexWaitInv(s: State, t: nat, e: nat, timeout: nat)
    requires Inv(s) && MayWait(s, t) && RaisedFor(s, e, t)
    ensures Inv(Block(s, t, e, MutexBit, timeout))
  {
    var s' := Block(s, t, e, MutexBit, timeout);
    BlockKeeps(s, t, e, timeout);
    WaitedMutexOk(s, t, e, timeout);
    forall f: nat | IsMutex(s', f) && f != e
      ensures MutexKept(s, s', f)
    {
      assert MutexOk(s, f) && !Owns(s, f, t);
    }
    WaitSlotUse(s, s');
    OneMutexChanges(s, s', e);
  }

  lemma WaitSlotUse(s: State, s': State)
    requires Inv(s) && CoreInv(s') && s'.prioTbl == s.prioTbl
    requires |s'.tcb| == |s.tcb| && forall u: nat :: u < |s.tcb| ==> s'.tcb[u].prio == s.tcb[u].prio
    requires |s'.ev| == |s.ev| && forall f: nat :: f < |s.ev| ==> s'.ev[f].kind == s.ev[f].kind
    ensures forall p: nat :: p < N_PRIO ==> SlotUse(s', p)
  {
    forall p: nat | p < N_PRIO
      ensures SlotUse(s', p)
    {
      assert SlotUse(s, p);
      if s.prioTbl[p].Tcb? && s.tcb[s.prioTbl[p].task].prio != p {
        var f: nat :| Owns(s, f, s.prioTbl[p].task) && LowByte(s.ev[f].kind.cnt) == p;
        assert Owns(s', f, s.prioTbl[p].task);
      }
    }
  }

  lemma MutexPendInv(s: State, e: nat, timeout: nat)
    requires Inv(s) && IsMutex(s, e) && MayWait(s, s.cur) && s.tcb[s.cur].prio > Pip(s.ev[e].kind.cnt)
    ensures Inv(MutexPend(s, e, timeout))
  {
    var m := s.ev[e].kind;
    assert MutexOk(s, e);
    if LowByte(m.cnt) == AVAILABLE {
      AcquireInv(s, e);
    } else {
      var t, s1 := m.owner.value, Promote(s, e);
      assert Owns(s, e, t) && t != s.cur;
      if s.tcb[t].prio > Pip(m.cnt) && LowByte(m.cnt) > s.tcb[s.cur].prio {
        RaiseInv(s, e, t);
        RaiseKeeps(s, e, t);
        assert s1 == Moved(s, t, Pip(m.cnt));
      }
      assert s1.ev == s.ev;
      assert MayWait(s1, s.cur) by {
        assert forall f: nat :: Owns(s1, f, s.cur) ==> Owns(s, f, s.cur);
      }
      MutexWaitInv(s1, s.cur, e, timeout);
    }
  }

  // ---------------------------------------------------------------- releasing a mutex

  lemma RaisedSlotVacant(s: State, e: nat, t: nat)
    requires Inv(s) && Owns(s, e, t) && t < |s.tcb| && s.tcb[t].prio == Pip(s.ev[e].kind.cnt)
    ensures CanMove(s, t, LowByte(s.ev[e].kind.cnt)) && s.prioTbl[LowByte(s.ev[e].kind.cnt)] == Tcb(t)
  {
    var low := LowByte(s.ev[e].kind.cnt);
    assert MutexOk(s, e);
    forall u: nat | u in s.list && u < |s.tcb|
      ensures s.tcb[u].prio != low && !Creating(s.phase[u], low)
    {
      LiveTask(s, u);
    }
  }

  /** A raised owner that is ready goes back to its own priority. */
  lemma LowerKeeps(s: State, e: nat, t: nat)
    requires Inv(s) && Owns(s, e, t) && t < |s.tcb| && s.tcb[t].prio == Pip(s.ev[e].kind.cnt) && Runnable(s.tcb[t])
    ensures LowByte(s.ev[e].kind.cnt) < N_PRIO && CoreInv(RdyAtPrio(s, t, LowByte(s.ev[e].kind.cnt)))
    ensures Vacant(RdyAtPrio(s, t, LowByte(s.ev[e].kind.cnt)), Pip(s.ev[e].kind.cnt))
  {
    var low := LowByte(s.ev[e].kind.cnt);
    assert MutexOk(s, e);
    RaisedSlotVacant(s, e, t);
    LiveTask(s, t);
    assert RdyAtPrio(s, t, low) == Moved(s, t, low);
    MovedKeeps(s, t, low);
    OldPrioVacant(s, t, low);
  }

  /** After the first part of OSMutexPost the owner is at its own priority and the other reserved. */
  ghost predicate Restored(s: State, s1: State, e: nat, t: nat)
    requires IsMutex(s, e) && t < |s.tcb|
  {
    var pip, low := Pip(s.ev[e].kind.cnt), LowByte(s.ev[e].kind.cnt);
    && Shape(s) && Shape(s1) && pip < N_PRIO
    && s1.tcb == s.tcb[t := s.tcb[t].(prio := low)] && s1.phase == s.phase && s1.list == s.list && s1.ev == s.ev
    && s1.freeEvs == s.freeEvs && s1.cur == s.cur && s1.dying == s.dying
    && s1.prioTbl[pip] == Reserved && (forall p: nat :: p < N_PRIO && p != pip ==> s1.prioTbl[p] == s.prioTbl[p])
  }

  lemma RestoreKeeps(s: State, e: nat)
    requires Inv(s) && s.cur < |s.tcb| && Owns(s, e, s.cur) && Runnable(s.tcb[s.cur])
    ensures CoreInv(Restore(s, e)) && Restored(s, Restore(s, e), e, s.cur)
  {
    var m, s1 := s.ev[e].kind, Restore(s, e);
    assert MutexOk(s, e);
    if s.tcb[s.cur].prio == Pip(m.cnt) {
      RaisedSlotVacant(s, e, s.cur);
      LowerKeeps(s, e, s.cur);
      SlotFreedKeeps(RdyAtPrio(s, s.cur, LowByte(m.cnt)), Pip(m.cnt), Reserved);
    } else {
      assert s1.prioTbl == s.prioTbl && s1 == s;
    }
  }

  /** The only slots that lead to an owner. */
  lemma OwnerSlots(s: State, e: nat, t: nat, p: nat)
    requires Inv(s) && Owns(s, e, t) && p < N_PRIO && s.prioTbl[p] == Tcb(t)
    ensures p == Pip(s.ev[e].kind.cnt) || p == LowByte(s.ev[e].kind.cnt)
  {
    assert MutexOk(s, e) && SlotUse(s, p);
    OwnsOne(s, e, t);
  }

  lemma HandOffKeeps(s: State, e: nat)
    requires CoreInv(s) && IsMutex(s, e)
    ensures CoreInv(HandOff(s, e))
  {
    if s.ev[e].waiters != {} {
      WaiterFound(s, e);
      EventTaskRdyKeeps(s, e, NULL_MSG);
      ContentsKeep(EventTaskRdy(s, e, NULL_MSG, MutexBit), HandOff(s, e));
    } else {
      ContentsKeep(s, HandOff(s, e));
    }
  }

  /** The other mutexes when one is handed over: t0 gives it away, and every task that changes
      besides had been waiting. */
  ghost predicate HandedOver(s: State, s': State, e: nat, t0: nat)
    requires IsMutex(s, e) && Shape(s) && Shape(s')
  {
    var pip := Pip(s.ev[e].kind.cnt);
    && |s'.tcb| == |s.tcb| && |s'.ev| == |s.ev| && s'.list == s.list && s'.phase == s.phase && pip < N_PRIO
    && s'.dying == s.dying
    && (forall f: nat :: f < |s.ev| && f != e ==> s'.ev[f] == s.ev[f])
    && (forall u: nat :: u < |s.tcb| && u != t0 && s.tcb[u].event == None ==> s'.tcb[u] == s.tcb[u])
    && (forall u: nat :: u < |s.tcb| && u != t0 ==> s'.tcb[u].prio == s.tcb[u].prio)
    && (forall p: nat :: p < N_PRIO && p != pip ==> s'.prioTbl[p] == s.prioTbl[p])
  }

  /** The task that gives the mutex away, or any task if the mutex has no owner. */
  ghost predicate GivesUp(s: State, s': State, e: nat, t0: nat)
  {
    && IsMutex(s, e) && t0 < |s.tcb| && t0 < |s'.tcb|
    && (if s.ev[e].kind.owner.Some?
        then Owns(s, e, t0) && s'.tcb[t0].prio == LowByte(s.ev[e].kind.cnt)
        else s'.tcb[t0] == s.tcb[t0])
  }

  lemma OthersHandedOver(s: State, s': State, e: nat, t0: nat)
    requires Inv(s) && Shape(s') && GivesUp(s, s', e, t0) && HandedOver(s, s', e, t0)
    ensures forall f: nat :: IsMutex(s', f) && f != e ==> MutexKept(s, s', f)
  {
    assert MutexOk(s, e);
    forall f: nat | IsMutex(s', f) && f != e
      ensures MutexKept(s, s', f)
    {
      assert IsMutex(s, f) && MutexOk(s, f) && Apart(s, f, e) && Apart(s, e, f);
      if s.ev[f].kind.owner.Some? {
        LiveTask(s, s.ev[f].kind.owner.value);
      }
    }
  }

  lemma SlotsHandedOver(s: State, s': State, e: nat, t0: nat)
    requires Inv(s) && Shape(s') && GivesUp(s, s', e, t0) && HandedOver(s, s', e, t0)
    requires !s'.prioTbl[Pip(s.ev[e].kind.cnt)].Tcb?
    ensures forall p: nat :: p < N_PRIO ==> SlotUse(s', p)
  {
    forall p: nat | p < N_PRIO
      ensures SlotUse(s', p)
    {
      assert SlotUse(s, p);
      if s'.prioTbl[p].Tcb? {
        var u := s.prioTbl[p].task;
        if Owns(s, e, u) {
          OwnerSlots(s, e, u, p);
        } else if s.tcb[u].prio != p {
          var f: nat :| Owns(s, f, u) && LowByte(s.ev[f].kind.cnt) == p;
          assert f != e && Owns(s', f, u);
        }
      }
    }
  }

  /** What a hand-off does to the mutex and to the best waiter. */
  lemma HandOffFacts(s: State, e: nat)
    requires CoreInv(s) && IsMutex(s, e)
    ensures var s', cnt := HandOff(s, e), s.ev[e].kind.cnt;
            && IsMutex(s', e) && Pip(s'.ev[e].kind.cnt) == Pip(cnt)
            && (s.ev[e].waiters == {} ==>
                  s'.tcb == s.tcb && s'.ev[e] == Event(Mutex(WithLow(cnt, AVAILABLE), None), {}))
            && (s.ev[e].waiters != {} ==>
                  var p, t := Least(s.ev[e].waiters), FirstWaiter(s, e);
                  && p < IDLE_PRIO && t in s.list && t < |s.tcb| && t != Idle(s) && s.tcb[t].prio == p
                  && s.tcb[t].event == Some(e)
                  && s'.tcb == s.tcb[t := Delivered(s.tcb[t], NULL_MSG, MutexBit)] && s.tcb[t].node == None
                  && s'.ev[e] == Event(Mutex(WithLow(cnt, p), Some(t)), s.ev[e].waiters - {p})
                  && LowByte(s'.ev[e].kind.cnt) == p)
  {
    CntParts(s.ev[e].kind.cnt, AVAILABLE);
    if s.ev[e].waiters != {} {
      WaiterFound(s, e);
      LiveTask(s, FirstWaiter(s, e));
      CntParts(s.ev[e].kind.cnt, Least(s.ev[e].waiters));
    }
  }

  lemma PostHandsOver(s: State, e: nat)
    requires Inv(s) && s.cur < |s.tcb| && Owns(s, e, s.cur) && Runnable(s.tcb[s.cur])
    ensures var s' := MutexPost(s, e);
            && Shape(s') && HandedOver(s, s', e, s.cur)
            && s'.prioTbl[Pip(s.ev[e].kind.cnt)] == Reserved && s'.tcb[s.cur].prio == LowByte(s.ev[e].kind.cnt)
  {
    RestoreKeeps(s, e);
    HandOffFacts(Restore(s, e), e);
  }

  lemma PostMutexOk(s: State, e: nat)
    requires Inv(s) && s.cur < |s.tcb| && Owns(s, e, s.cur) && Runnable(s.tcb[s.cur])
    ensures Shape(MutexPost(s, e)) && IsMutex(MutexPost(s, e), e) && MutexOk(MutexPost(s, e), e)
    ensures NewOwnerOk(s, MutexPost(s, e), e)
  {
    var s1, s' := Restore(s, e), MutexPost(s, e);
    RestoreKeeps(s, e);
    HandOffFacts(s1, e);
    PostHandsOver(s, e);
    assert MutexOk(s, e);
    CntParts(s.ev[e].kind.cnt, AVAILABLE);
    if s.ev[e].waiters != {} {
      var t := FirstWaiter(s1, e);
      assert s.tcb[t].event == Some(e);
      WaiterNotOwner(s, t);
    }
  }

  lemma WaiterNotOwner(s: State, t: nat)
    requires Inv(s) && t < |s.tcb| && (s.tcb[t].event.Some? || s.tcb[t].node.Some?)
    ensures !IsOwner(s, t)
  {
    forall e: nat
      ensures !Owns(s, e, t)
    {
      assert IsMutex(s, e) ==> MutexOk(s, e);
    }
  }

  lemma PostCore(s: State, e: nat)
    requires Inv(s) && s.cur < |s.tcb| && Owns(s, e, s.cur) && Runnable(s.tcb[s.cur])
    ensures CoreInv(MutexPost(s, e))
  {
    RestoreKeeps(s, e);
    HandOffKeeps(Restore(s, e), e);
  }

  lemma PostMutexes(s: State, e: nat)
    requires Inv(s) && s.cur < |s.tcb| && Owns(s, e, s.cur) && Runnable(s.tcb[s.cur])
    ensures Shape(MutexPost(s, e)) && MutexInv(MutexPost(s, e))
  {
    var s' := MutexPost(s, e);
    PostHandsOver(s, e);
    OthersHandedOver(s, s', e, s.cur);
    SlotsHandedOver(s, s', e, s.cur);
    PostMutexOk(s, e);
    OneMutexChanges(s, s', e);
  }

  lemma MutexPostInv(s: State, e: nat)
    requires Inv(s) && IsMutex(s, e) && s.cur in s.list && s.cur < |s.tcb| && Runnable(s.tcb[s.cur])
    ensures Inv(MutexPost(s, e))
  {
    if s.ev[e].kind.owner == Some(s.cur) {
      PostCore(s, e);
      PostMutexes(s, e);
    }
  }

  // ---------------------------------------------------------------- deleting a mutex

  ghost predicate OwnerRaised(s: State, e: nat)
    requires IsMutex(s, e)
  {
    var m := s.ev[e].kind;
    m.owner.Some? && m.owner.value < |s.tcb| && s.tcb[m.owner.value].prio == Pip(m.cnt)
  }

  /** When OSMutexDel that goes ahead leaves the tables coherent. */
  ghost predicate DelSafe(s: State, e: nat, always: bool)
    requires IsMutex(s, e)
  {
    OwnerRaised(s, e) ==> always && Runnable(s.tcb[s.ev[e].kind.owner.value])
  }

  /** OSMutexDel does nothing: a task waits, and it was not told to delete regardless. */
  ghost predicate DelRefused(s: State, e: nat, always: bool)
    requires IsMutex(s, e)
  {
    !always && s.ev[e].waiters != {}
  }

  /** The state once OSMutexDel has lowered the owner. */
  ghost function Lowered(s: State, e: nat): State
    requires IsMutex(s, e)
  {
    var m := s.ev[e].kind;
    if OwnerRaised(s, e) && LowByte(m.cnt) < |s.prioTbl| then RdyAtPrio(s, m.owner.value, LowByte(m.cnt)) else s
  }

  lemma LoweredKeeps(s: State, e: nat)
    requires Inv(s) && IsMutex(s, e) && DelSafe(s, e, true)
    ensures CoreInv(Lowered(s, e)) && Pip(s.ev[e].kind.cnt) < IDLE_PRIO && Vacant(Lowered(s, e), Pip(s.ev[e].kind.cnt))
    ensures Lowered(s, e).ev == s.ev && Lowered(s, e).freeEvs == s.freeEvs
  {
    assert MutexOk(s, e);
    if OwnerRaised(s, e) {
      LowerKeeps(s, e, s.ev[e].kind.owner.value);
    } else {
      ReservedVacant(s, Pip(s.ev[e].kind.cnt));
    }
  }

  lemma {:induction false} ReadyAllOthers(s: State, e: nat, msg: int, u: nat)
    requires CoreInv(s) && e < |s.ev| && u < |s.tcb|
    ensures var s' := ReadyAll(s, e, msg, KindBit(s.ev[e].kind));
            u < |s'.tcb| && s'.tcb[u].prio == s.tcb[u].prio && s'.phase == s.phase
            && (s.tcb[u].event == None ==> s'.tcb[u] == s.tcb[u])
    decreases s.ev[e].waiters
  {
    if s.ev[e].waiters != {} {
      WaiterFound(s, e);
      EventTaskRdyKeeps(s, e, msg);
      ReadyAllOthers(EventTaskRdy(s, e, msg, KindBit(s.ev[e].kind)), e, msg, u);
    }
  }

  lemma ReadyAllVacant(s: State, e: nat, msg: int, p: nat)
    requires CoreInv(s) && e < |s.ev| && Vacant(s, p)
    ensures Vacant(ReadyAll(s, e, msg, KindBit(s.ev[e].kind)), p)
  {
    var s' := ReadyAll(s, e, msg, KindBit(s.ev[e].kind));
    ReadyAllKeeps(s, e, msg);
    ReadyAllGentle(s, e, msg, KindBit(s.ev[e].kind));
    forall u: nat | u in s'.list && u < |s'.tcb| && u < |s'.phase|
      ensures s'.tcb[u].prio != p && !Creating(s'.phase[u], p)
    {
      ReadyAllOthers(s, e, msg, u);
    }
  }

  lemma FreedMutexKeeps(s: State, e: nat, pip: nat)
    requires CoreInv(s) && IsMutex(s, e) && s.ev[e].waiters == {} && pip < N_PRIO && Vacant(s, pip)
    ensures CoreInv(FreeEvent(SetSlot(s, pip, Empty), e))
  {
    SlotFreedKeeps(s, pip, Empty);
    FreeEventKeeps(SetSlot(s, pip, Empty), e);
  }

  /** What the other tasks and the other mutexes see of OSMutexDel. */
  ghost predicate DelEffect(s: State, s': State, e: nat)
    requires IsMutex(s, e)
  {
    && CoreInv(s') && Shape(s) && HandedOver(s, s', e, DelTask(s, e)) && GivesUp(s, s', e, DelTask(s, e))
    && s'.prioTbl[Pip(s.ev[e].kind.cnt)] == Empty && s'.ev[e].kind == Unused
  }

  ghost function DelTask(s: State, e: nat): nat
    requires IsMutex(s, e)
  {
    if s.ev[e].kind.owner.Some? then s.ev[e].kind.owner.value else 0
  }

  lemma DelNoPend(s: State, e: nat)
    requires Inv(s) && IsMutex(s, e) && DelSafe(s, e, false) && s.ev[e].waiters == {}
    ensures DelEffect(s, MutexDel(s, e, false), e)
  {
    assert MutexOk(s, e);
    LoweredKeeps(s, e);
    IdleIsLive(s);
    FreedMutexKeeps(s, e, Pip(s.ev[e].kind.cnt));
  }

  /** All but the deleted mutex, before its slot is emptied. */
  ghost predicate LoweredEffect(s: State, s1: State, e: nat)
    requires IsMutex(s, e)
  {
    var t0, pip := DelTask(s, e), Pip(s.ev[e].kind.cnt);
    && Shape(s) && Shape(s1) && pip < N_PRIO && t0 < |s.tcb|
    && |s1.tcb| == |s.tcb| && |s1.ev| == |s.ev| && s1.list == s.list && s1.phase == s.phase && s1.dying == s.dying
    && (forall f: nat :: f < |s.ev| && f != e ==> s1.ev[f] == s.ev[f])
    && (forall u: nat :: u < |s.tcb| && u != t0 ==> s1.tcb[u].prio == s.tcb[u].prio)
    && (forall u: nat :: u < |s.tcb| && u != t0 && s.tcb[u].event == None ==> s1.tcb[u] == s.tcb[u])
    && (forall p: nat :: p < N_PRIO && p != pip ==> s1.prioTbl[p] == s.prioTbl[p])
    && GivesUp(s, s1, e, t0)
  }

  lemma LoweredHas(s: State, e: nat)
    requires Inv(s) && IsMutex(s, e) && DelSafe(s, e, true)
    ensures LoweredEffect(s, Lowered(s, e), e)
            && (s.ev[e].kind.owner.Some? ==> Lowered(s, e).tcb[DelTask(s, e)].event == None)
    ensures s.ev[e].kind.owner == None ==> s.ev[e].waiters == {}
  {
    assert MutexOk(s, e);
    IdleIsLive(s);
    if OwnerRaised(s, e) {
      RaisedSlotVacant(s, e, DelTask(s, e));
    }
  }

  lemma ReadiedHas(s: State, e: nat)
    requires Inv(s) && IsMutex(s, e) && DelSafe(s, e, true)
    ensures Lowered(s, e).ev == s.ev
    ensures LoweredEffect(s, ReadyAll(Lowered(s, e), e, NULL_MSG, MutexBit), e)
  {
    var s1 := Lowered(s, e);
    LoweredKeeps(s, e);
    LoweredHas(s, e);
    var s2 := ReadyAll(s1, e, NULL_MSG, MutexBit);
    ReadyAllKeeps(s1, e, NULL_MSG);
    ReadyAllGentle(s1, e, NULL_MSG, MutexBit);
    forall u: nat | u < |s1.tcb|
      ensures s2.phase == s1.phase && s2.tcb[u].prio == s1.tcb[u].prio
              && (s1.tcb[u].event == None ==> s2.tcb[u] == s1.tcb[u])
    {
      ReadyAllOthers(s1, e, NULL_MSG, u);
    }
    ReadyAllOthers(s1, e, NULL_MSG, DelTask(s, e));
  }

  lemma FreedHas(s: State, s2: State, e: nat)
    requires IsMutex(s, e) && LoweredEffect(s, s2, e)
    ensures var pip := Pip(s.ev[e].kind.cnt);
            var s' := FreeEvent(SetSlot(s2, pip, Empty), e);
            && Shape(s') && HandedOver(s, s', e, DelTask(s, e)) && GivesUp(s, s', e, DelTask(s, e))
            && s'.prioTbl[pip] == Empty && s'.ev[e].kind == Unused
  {
  }

  lemma DelAlways(s: State, e: nat)
    requires Inv(s) && IsMutex(s, e) && DelSafe(s, e, true)
    ensures DelEffect(s, MutexDel(s, e, true), e)
  {
    var s1, pip := Lowered(s, e), Pip(s.ev[e].kind.cnt);
    ReadiedHas(s, e);
    FreedHas(s, ReadyAll(s1, e, NULL_MSG, MutexBit), e);
    DelAlwaysCore(s, e);
  }

  lemma DelAlwaysCore(s: State, e: nat)
    requires Inv(s) && IsMutex(s, e) && DelSafe(s, e, true)
    ensures CoreInv(MutexDel(s, e, true))
    ensures e < |ReadyAll(Lowered(s, e), e, NULL_MSG, MutexBit).ev|
            && Pip(s.ev[e].kind.cnt) < |ReadyAll(Lowered(s, e), e, NULL_MSG, MutexBit).prioTbl|
    ensures MutexDel(s, e, true) == FreeEvent(SetSlot(ReadyAll(Lowered(s, e), e, NULL_MSG, MutexBit), Pip(s.ev[e].kind.cnt), Empty), e)
  {
    var s1, pip := Lowered(s, e), Pip(s.ev[e].kind.cnt);
    var s2 := ReadyAll(s1, e, NULL_MSG, MutexBit);
    LoweredKeeps(s, e);
    ReadyAllKeeps(s1, e, NULL_MSG);
    ReadyAllVacant(s1, e, NULL_MSG, pip);
    FreedMutexKeeps(s2, e, pip);
  }

  lemma MutexDelInv(s: State, e: nat, always: bool)
    requires Inv(s) && IsMutex(s, e) && (DelRefused(s, e, always) || DelSafe(s, e, always))
    ensures Inv(MutexDel(s, e, always))
  {
    if always || s.ev[e].waiters == {} {
      var s' := MutexDel(s, e, always);
      if always {
        DelAlways(s, e);
      } else {
        DelNoPend(s, e);
      }
      OthersHandedOver(s, s', e, DelTask(s, e));
      SlotsHandedOver(s, s', e, DelTask(s, e));
      OneMutexChanges(s, s', e);
    }
  }

  /** All the waiters of e lead to tasks other than t. */
  ghost predicate LeadElsewhere(s: State, e: nat, t: nat)
    requires e < |s.ev|
  {
    forall p: nat :: p in s.ev[e].waiters ==> p < |s.prioTbl| && s.prioTbl[p].Tcb? && s.prioTbl[p].task != t
  }

  lemma {:induction false} ReadyAllSkips(s: State, e: nat, msg: int, bit: StatBit, t: nat)
    requires e < |s.ev| && t < |s.tcb| && LeadElsewhere(s, e, t)
    ensures var s' := ReadyAll(s, e, msg, bit);
            && |s'.tcb| == |s.tcb| && |s'.ev| == |s.ev| && s'.tcb[t] == s.tcb[t] && s.ready <= s'.ready
            && s'.list == s.list && |s'.phase| == |s.phase|
    decreases s.ev[e].waiters
  {
    if s.ev[e].waiters != {} && FirstWaiter(s, e) < |s.tcb| {
      ReadyAllSkips(EventTaskRdy(s, e, msg, bit), e, msg, bit, t);
    }
  }

  lemma UnsafeNoPend(s: State, e: nat)
    requires Inv(s) && IsMutex(s, e) && s.ev[e].waiters == {} && !DelSafe(s, e, false)
    ensures !CoreInv(MutexDel(s, e, false))
  {
    var s', t := MutexDel(s, e, false), s.ev[e].kind.owner.value;
    assert MutexOk(s, e);
    LiveTask(s, t);
    assert s'.prioTbl[s'.tcb[t].prio] == Empty;
    assert !Shape(s') || !TaskOk(s', t);
  }

  lemma UnsafeAlways(s: State, e: nat)
    requires Inv(s) && IsMutex(s, e) && !DelSafe(s, e, true)
    ensures !CoreInv(MutexDel(s, e, true))
  {
    var s1, s', t := Lowered(s, e), MutexDel(s, e, true), s.ev[e].kind.owner.value;
    assert MutexOk(s, e);
    LiveTask(s, t);
    RaisedSlotVacant(s, e, t);
    forall p: nat | p in s1.ev[e].waiters
      ensures p < N_PRIO && s1.prioTbl[p].Tcb? && s1.prioTbl[p].task != t
    {
      assert WaiterOk(s, e, p);
    }
    ReadyAllSkips(s1, e, NULL_MSG, MutexBit, t);
    assert s'.tcb[t].prio in s'.ready && !Runnable(s'.tcb[t]) && t in s'.list;
    assert !Shape(s') || !TaskOk(s', t);
  }

  /** OSMutexDel keeps the tables coherent exactly when the owner has not been raised, or, with
      OS_DEL_ALWAYS, is ready. A raised owner whose waiter has given up makes OS_DEL_NO_PEND empty
      the very slot it runs at. */
  lemma MutexDelExact(s: State, e: nat, always: bool)
    requires Inv(s) && IsMutex(s, e) && !DelRefused(s, e, always)
    ensures CoreInv(MutexDel(s, e, always)) <==> DelSafe(s, e, always)
    ensures DelSafe(s, e, always) ==> Inv(MutexDel(s, e, always))
  {
    if DelSafe(s, e, always) {
      MutexDelInv(s, e, always);
    } else if always {
      UnsafeAlways(s, e);
    } else {
      UnsafeNoPend(s, e);
    }
  }

  lemma PromoteRaises(s: State, e: nat)
    requires Inv(s) && IsMutex(s, e) && s.cur < |s.tcb| && !Owns(s, e, s.cur) && s.ev[e].kind.owner.Some?
    requires s.tcb[s.cur].prio < LowByte(s.ev[e].kind.cnt)
    ensures var s1 := Promote(s, e);
            && |s1.tcb| == |s.tcb| && s1.tcb[s.cur] == s.tcb[s.cur] && s1.ev == s.ev && s1.list == s.list
            && s1.phase == s.phase && s1.cur == s.cur && OwnerRaised(s1, e)
  {
    var t, m := s.ev[e].kind.owner.value, s.ev[e].kind;
    assert MutexOk(s, e) && Owns(s, e, t);
    if s.tcb[t].prio > Pip(m.cnt) {
      RaiseKeeps(s, e, t);
    }
  }

  /** The mutex, its raised owner, and its one waiter t. */
  ghost predicate SoleWaiter(s: State, e: nat, t: nat)
  {
    && IsMutex(s, e) && OwnerRaised(s, e) && !Owns(s, e, t)
    && t in s.list && t < |s.tcb| && t < |s.phase| && s.phase[t] == InEvent(e, MutexBit)
    && s.ev[e].waiters == {s.tcb[t].prio}
  }

  lemma PendRaises(s: State, e: nat, timeout: nat)
    requires Inv(s) && IsMutex(s, e) && MayWait(s, s.cur) && s.ev[e].waiters == {}
    requires s.ev[e].kind.owner.Some? && s.tcb[s.cur].prio < LowByte(s.ev[e].kind.cnt)
    ensures var s' := MutexPend(s, e, timeout);
            && SoleWaiter(s', e, s.cur) && s'.cur == s.cur
            && s'.tcb[s.cur].stat == {MutexBit} && s'.tcb[s.cur].dly == timeout
  {
    assert MutexOk(s, e) && !Owns(s, e, s.cur);
    PromoteRaises(s, e);
    assert s.tcb[s.cur].stat + {MutexBit} == {MutexBit};
  }

  /** How a mutex without waiters comes to have a raised owner: the waiter that raised it gives up. */
  lemma GiveUpLeavesRaised(s: State, e: nat)
    requires Inv(s) && IsMutex(s, e) && MayWait(s, s.cur) && s.ev[e].waiters == {}
    requires s.ev[e].kind.owner.Some? && Pip(s.ev[e].kind.cnt) < s.tcb[s.cur].prio < LowByte(s.ev[e].kind.cnt)
    ensures s.cur < |MutexPend(s, e, 1).tcb|
    ensures var s1 := EndDelay(MutexPend(s, e, 1), s.cur);
            && Inv(s1) && SoleWaiter(s1, e, s1.cur)
            && Inv(PendResume(s1)) && IsMutex(PendResume(s1), e) && PendResume(s1).ev[e].waiters == {}
            && !DelSafe(PendResume(s1), e, false)
  {
    MutexPendInv(s, e, 1);
    PendRaises(s, e, 1);
    var s0 := MutexPend(s, e, 1);
    TimeOutSole(s0, e);
    TimedOutResumes(EndDelay(s0, s.cur), e);
  }

  lemma TimeOutSole(s: State, e: nat)
    requires Inv(s) && SoleWaiter(s, e, s.cur) && s.tcb[s.cur].stat == {MutexBit} && s.tcb[s.cur].dly != 0
    ensures var s1 := EndDelay(s, s.cur);
            Inv(s1) && SoleWaiter(s1, e, s1.cur) && Runnable(s1.tcb[s1.cur]) && s1.tcb[s1.cur].pendTO && s1.cur == s.cur
  {
    var s1 := EndDelay(s, s.cur);
    EndDelayKeeps(s, s.cur);
    assert Gentle(s, s1);
    GentleKeeps(s, s1);
    assert MutexBit in s.tcb[s.cur].stat * PEND_ANY;
    assert s1.tcb[s.cur].stat == {};
  }

  lemma TimedOutResumes(s: State, e: nat)
    requires Inv(s) && SoleWaiter(s, e, s.cur) && Runnable(s.tcb[s.cur]) && s.tcb[s.cur].pendTO
    ensures var s' := PendResume(s);
            Inv(s') && IsMutex(s', e) && s'.ev[e].waiters == {} && OwnerRaised(s', e)
  {
    PendResumeKeeps(s);
    assert Gentle(s, PendResume(s));
    GentleKeeps(s, PendResume(s));
  }
}
