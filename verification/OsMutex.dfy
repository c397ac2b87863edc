/** os_mutex.c on the kernel's tables. */
module OsMutex {
  import opened IndexLists
  import PrioritySet
  import opened KernelState
  import opened KernelInvariant
  import opened KernelRuns
  import opened MutexInvariant
  import opened EventEffects
  import opened Kernel
  import OsCore
  import OsTask

  datatype Err = NoErr | Timeout | PipLower | NotMutexOwner | PrioExist | PeventNull | TaskWaiting

  /** What a mutex holds can be followed. */
  ghost predicate MutexFit(s: State, e: nat)
  {
    && IsMutex(s, e) && |s.prioTbl| == N_PRIO && Pip(s.ev[e].kind.cnt) < N_PRIO
    && (s.ev[e].kind.owner.Some? ==> OsCore.Fit(s, s.ev[e].kind.owner.value) && LowByte(s.ev[e].kind.cnt) < N_PRIO)
  }

  lemma MutexIsFit(s: State, e: nat)
    requires Inv(s) && IsMutex(s, e)
    ensures MutexFit(s, e) && (s.ev[e].kind.owner == None <==> LowByte(s.ev[e].kind.cnt) == AVAILABLE)
  {
    assert MutexOk(s, e);
    if s.ev[e].kind.owner.Some? {
      OsCore.LiveIsFit(s, s.ev[e].kind.owner.value);
    }
  }

  /** An available mutex goes to the current task. */
  method Acquire(k: Kernel, e: nat) returns (err: Err)
    requires k.Valid() && IsMutex(k.s, e) && k.cur < |k.s.tcb|
    modifies k.Repr()
    ensures k.Valid() && k.s == KernelState.Acquire(old(k.s), e)
    ensures err == if old(k.s).tcb[old(k.cur)].prio <= Pip(old(k.s).ev[e].kind.cnt) then PipLower else NoErr
  {
    var cnt, prio := k.events.kinds[e].cnt, k.tcb[k.cur].prio;
    k.PutKind(e, Mutex(cnt / 256 * 256 + prio, Some(k.cur)));
    err := if prio <= cnt / 256 then PipLower else NoErr;
  }

  /** OSMutexAccept */
  method Accept(k: Kernel, e: nat) returns (got: bool, err: Err)
    requires k.Valid() && IsMutex(k.s, e) && k.cur < |k.s.tcb|
    modifies k.Repr()
    ensures k.Valid() && k.s == MutexAccept(old(k.s), e)
    ensures got <==> LowByte(old(k.s).ev[e].kind.cnt) == AVAILABLE
    ensures err == if got && old(k.s).tcb[old(k.cur)].prio <= Pip(old(k.s).ev[e].kind.cnt) then PipLower else NoErr
  {
    got := k.events.kinds[e].cnt % 256 == AVAILABLE;
    err := NoErr;
    if got {
      err := Acquire(k, e);
    }
  }

  /** OSMutexCreate */
  method Create(k: Kernel, pip: nat) returns (err: Err)
    requires k.Valid() && CoreInv(k.s) && pip < IDLE_PRIO
    modifies k.Repr()
    ensures |old(k.s).prioTbl| == N_PRIO && (old(k.s).freeEvs != [] ==> old(k.s).freeEvs[0] < |old(k.s).ev|)
    ensures k.Valid() && k.s == MutexCreate(old(k.s), pip)
    ensures err == if !old(k.s).prioTbl[pip].Empty? then PrioExist
                   else if old(k.s).freeEvs == [] then PeventNull else NoErr
  {
    Grounds(k.s);
    if !k.prioTbl[pip].Empty? {
      return PrioExist;
    }
    if k.events.freeHead == NIL {
      return PeventNull;
    }
    k.PutSlot(pip, Reserved);
    var e := k.TakeEvent(Mutex(256 * pip + AVAILABLE, None));
    err := NoErr;
  }

  /** The promotion of the owner in OSMutexPend. */
  method Promote(k: Kernel, e: nat)
    requires k.Valid() && MutexFit(k.s, e) && k.cur < |k.s.tcb| && k.s.ev[e].kind.owner.Some?
    modifies k.Repr()
    ensures k.Valid() && k.s == KernelState.Promote(old(k.s), e)
  {
    var cnt, owner := k.events.kinds[e].cnt, k.events.kinds[e].owner.value;
    var pip := cnt / 256;
    if k.tcb[owner].prio > pip {
      if cnt % 256 > k.tcb[k.cur].prio {
        OsTask.Reprio(k, owner, pip);
        k.PutSlot(pip, Tcb(owner));
      }
    }
  }

  lemma PromotedStillWaits(s: State, e: nat)
    requires Inv(s) && Competitor(s, e) && !IsOwner(s, s.cur)
    ensures var s1 := KernelState.Promote(s, e);
            s1.cur == s.cur && e < |s1.ev| && s1.cur < |s1.phase| && OsCore.Fit(s1, s1.cur)
  {
    var m := s.ev[e].kind;
    assert MutexOk(s, e);
    LiveTask(s, s.cur);
    if m.owner.Some? {
      assert Owns(s, e, m.owner.value);
      if s.tcb[m.owner.value].prio > Pip(m.cnt) {
        RaiseKeeps(s, e, m.owner.value);
      }
    }
  }

  lemma PendEffect(s: State, e: nat, timeout: nat)
    requires Inv(s) && Competitor(s, e) && !IsOwner(s, s.cur)
    ensures var s' := MutexPend(s, e, timeout);
            if LowByte(s.ev[e].kind.cnt) == AVAILABLE then TakenByCaller(s, s', e)
            else BeginsToWait(s, s', s.cur, e, MutexBit, timeout)
  {
    assert MutexOk(s, e);
    if LowByte(s.ev[e].kind.cnt) == AVAILABLE {
      MutexPendTakes(s, e, timeout);
    } else {
      MutexPendWaits(s, e, timeout);
    }
  }

  /** OSMutexPend up to OS_Sched. */
  method PendBegin(k: Kernel, e: nat, timeout: nat) returns (got: bool)
    requires k.Valid() && Inv(k.s) && Competitor(k.s, e) && !IsOwner(k.s, k.s.cur)
    modifies k.Repr()
    ensures k.Valid() && k.s == MutexPend(old(k.s), e, timeout)
    ensures got <==> LowByte(old(k.s).ev[e].kind.cnt) == AVAILABLE
    ensures if got then TakenByCaller(old(k.s), k.s, e)
            else BeginsToWait(old(k.s), k.s, old(k.cur), e, MutexBit, timeout)
  {
    PendEffect(k.s, e, timeout);
    MutexIsFit(k.s, e);
    got := k.events.kinds[e].cnt % 256 == AVAILABLE;
    if got {
      var err := Acquire(k, e);
    } else {
      PromotedStillWaits(k.s, e);
      Promote(k, e);
      OsCore.EventTaskWait(k, e, MutexBit, timeout);
    }
  }

  /** OSMutexPend after OS_Sched. */
  method PendEnd(k: Kernel, e: nat) returns (err: Err)
    requires k.Valid() && CoreInv(k.s) && Enabled(k.s, EndPend) && k.s.phase[k.cur] == InEvent(e, MutexBit)
    modifies k.Repr()
    ensures e < |old(k.s).ev| && k.Valid() && k.s == PendResume(old(k.s))
    ensures err == if old(k.s).tcb[old(k.cur)].pendTO then Timeout else NoErr
  {
    Grounds(k.s);
    OsCore.LiveIsFit(k.s, k.cur);
    if k.tcb[k.cur].pendTO {
      OsCore.EventTO(k, e);
      err := Timeout;
    } else {
      k.PutTcb(k.cur, k.tcb[k.cur].(event := None));
      k.GoTo(k.cur, User);
      err := NoErr;
    }
  }

  /** OSMutex_RdyAtPrio */
  method RdyAtPrio(k: Kernel, t: nat, prio: nat)
    requires k.Valid() && t < |k.s.tcb| && k.s.tcb[t].prio < PrioritySet.MAX_PRIO && prio < |k.s.prioTbl|
             && prio < PrioritySet.MAX_PRIO
    modifies k.Repr()
    ensures k.Valid() && k.s == KernelState.RdyAtPrio(old(k.s), t, prio)
  {
    OsTask.MoveReady(k, k.tcb[t].prio, prio);
    k.PutTcb(t, k.tcb[t].(prio := prio));
    k.PutSlot(prio, Tcb(t));
  }

  /** The first part of OSMutexPost. */
  method Restore(k: Kernel, e: nat)
    requires k.Valid() && MutexFit(k.s, e) && k.s.ev[e].kind.owner == Some(k.cur)
    modifies k.Repr()
    ensures k.cur == old(k.cur) && k.Valid() && k.cur < |old(k.s).tcb| && k.s == KernelState.Restore(old(k.s), e)
  {
    var cnt := k.events.kinds[e].cnt;
    if k.tcb[k.cur].prio == cnt / 256 {
      RdyAtPrio(k, k.cur, cnt % 256);
    }
    k.PutSlot(cnt / 256, Reserved);
  }

  /** The task at a priority is recorded as the new owner. */
  method RecordOwner(k: Kernel, e: nat, prio: nat) returns (err: Err)
    requires k.Valid() && IsMutex(k.s, e) && prio < |k.s.prioTbl| && k.s.prioTbl[prio].Tcb?
    modifies k.Repr()
    ensures k.Valid()
    ensures var cnt := old(k.s).ev[e].kind.cnt;
            && k.s == SetKind(old(k.s), e, Mutex(WithLow(cnt, prio), Some(old(k.s).prioTbl[prio].task)))
            && err == if prio <= Pip(cnt) then PipLower else NoErr
  {
    var cnt := k.events.kinds[e].cnt;
    k.PutKind(e, Mutex(cnt / 256 * 256 + prio, Some(k.prioTbl[prio].task)));
    err := if prio <= cnt / 256 then PipLower else NoErr;
  }

  /** The hand-off of OSMutexPost to the best waiter. */
  method HandOffTo(k: Kernel, e: nat) returns (err: Err)
    requires k.Valid() && CoreInv(k.s) && IsMutex(k.s, e) && k.s.ev[e].waiters != {}
    modifies k.Repr()
    ensures k.Valid() && k.s == KernelState.HandOff(old(k.s), e)
    ensures err == if Least(old(k.s).ev[e].waiters) <= Pip(old(k.s).ev[e].kind.cnt) then PipLower else NoErr
  {
    WaiterFound(k.s, e);
    OsCore.WaitersAreFound(k.s, e);
    var prio := OsCore.EventTaskRdy(k, e, NULL_MSG, MutexBit);
    err := RecordOwner(k, e, prio);
  }

  /** OSMutexPost; sched tells whether it calls OS_Sched at the end. */
  method Post(k: Kernel, e: nat) returns (err: Err, sched: bool)
    requires k.Valid() && Inv(k.s) && Calling(k.s) && IsMutex(k.s, e)
    modifies k.Repr()
    ensures k.Valid() && k.s == MutexPost(old(k.s), e)
    ensures err == if old(k.s).ev[e].kind.owner == Some(old(k.cur)) then NoErr else NotMutexOwner
    ensures sched <==> old(k.s).ev[e].kind.owner == Some(old(k.cur)) && old(k.s).ev[e].waiters != {}
  {
    MutexIsFit(k.s, e);
    if k.events.kinds[e].owner != Some(k.cur) {
      return NotMutexOwner, false;
    }
    assert Owns(k.s, e, k.s.cur) && MutexOk(k.s, e);
    RestoreKeeps(k.s, e);
    Restore(k, e);
    err, sched := Pass(k, e);
  }

  /** All these priorities rank below the inheritance priority. */
  ghost predicate AllBelow(ps: set<nat>, pip: nat)
  {
    forall p :: p in ps ==> p > pip
  }

  /** The second part of OSMutexPost. */
  method Pass(k: Kernel, e: nat) returns (err: Err, more: bool)
    requires k.Valid() && CoreInv(k.s) && IsMutex(k.s, e)
    modifies k.Repr()
    ensures k.Valid() && k.s == KernelState.HandOff(old(k.s), e)
    ensures err == if AllBelow(old(k.s).ev[e].waiters, Pip(old(k.s).ev[e].kind.cnt)) then NoErr else PipLower
    ensures more <==> old(k.s).ev[e].waiters != {}
  {
    more := k.Waited(e);
    if more {
      err := HandOffTo(k, e);
    } else {
      k.PutKind(e, Mutex(k.events.kinds[e].cnt / 256 * 256 + AVAILABLE, None));
      err := NoErr;
    }
  }

  /** OSMutexDel with OS_DEL_ALWAYS, up to the loop. */
  method Lower(k: Kernel, e: nat)
    requires k.Valid() && MutexFit(k.s, e)
    modifies k.Repr()
    ensures k.Valid() && k.s == Lowered(old(k.s), e)
  {
    var kind := k.events.kinds[e];
    if kind.owner.Some? {
      if k.tcb[kind.owner.value].prio == kind.cnt / 256 {
        RdyAtPrio(k, kind.owner.value, kind.cnt % 256);
      }
    }
  }

  /** The end of OSMutexDel: the slot and the event control block become free. */
  method Free(k: Kernel, e: nat, pip: nat)
    requires k.Valid() && e < |k.s.ev| && e !in k.s.freeEvs && pip < |k.s.prioTbl|
    modifies k.Repr()
    ensures k.Valid() && k.s == FreeEvent(SetSlot(old(k.s), pip, Empty), e)
  {
    k.PutSlot(pip, Empty);
    k.GiveEvent(e);
  }

  lemma {:induction false} ReadyAllFrame(s: State, e: nat, msg: int, bit: StatBit)
    requires e < |s.ev|
    ensures var s' := KernelState.ReadyAll(s, e, msg, bit);
            |s'.ev| == |s.ev| && s'.freeEvs == s.freeEvs && s'.prioTbl == s.prioTbl
    decreases s.ev[e].waiters
  {
    if s.ev[e].waiters != {} && FirstWaiter(s, e) < |s.tcb| {
      ReadyAllFrame(KernelState.EventTaskRdy(s, e, msg, bit), e, msg, bit);
    }
  }

  /** OSMutexDel, whatever its owner does; sched tells whether it calls OS_Sched at the end.
      MutexDelExact says when the tables stay coherent. */
  method Del(k: Kernel, e: nat, always: bool) returns (err: Err, sched: bool)
    requires k.Valid() && Inv(k.s) && IsMutex(k.s, e)
    modifies k.Repr()
    ensures k.Valid() && k.s == MutexDel(old(k.s), e, always)
    ensures err == if !always && old(k.s).ev[e].waiters != {} then TaskWaiting else NoErr
    ensures sched <==> always && old(k.s).ev[e].waiters != {}
  {
    var waiting := k.Waited(e);
    MutexIsFit(k.s, e);
    err, sched := NoErr, always && waiting;
    if always {
      DelAlways(k, e);
    } else if waiting {
      err := TaskWaiting;
    } else {
      assert EventOk(k.s, e);
      Free(k, e, k.events.kinds[e].cnt / 256);
    }
  }

  /** What OSMutexDel with OS_DEL_ALWAYS consists of. */
  lemma AlwaysParts(s: State, e: nat)
    requires Inv(s) && IsMutex(s, e)
    ensures MutexFit(s, e) && OsCore.AllFound(Lowered(s, e), e)
    ensures var s1, pip := Lowered(s, e), Pip(s.ev[e].kind.cnt);
            var s2 := KernelState.ReadyAll(s1, e, NULL_MSG, MutexBit);
            && e < |s2.ev| && e !in s2.freeEvs && pip < |s2.prioTbl|
            && MutexDel(s, e, true) == FreeEvent(SetSlot(s2, pip, Empty), e)
  {
    var s1 := Lowered(s, e);
    MutexIsFit(s, e);
    OsCore.WaitersAreFound(s, e);
    assert EventOk(s, e) && s1.ev == s.ev && s1.freeEvs == s.freeEvs;
    forall p: nat | p in s1.ev[e].waiters
      ensures OsCore.Found(s1, p)
    {
      assert OsCore.Found(s, p);
    }
    ReadyAllFrame(s1, e, NULL_MSG, MutexBit);
  }

  method DelAlways(k: Kernel, e: nat)
    requires k.Valid() && Inv(k.s) && IsMutex(k.s, e)
    modifies k.Repr()
    ensures k.Valid() && k.s == MutexDel(old(k.s), e, true)
  {
    AlwaysParts(k.s, e);
    var pip := k.events.kinds[e].cnt / 256;
    Lower(k, e);
    OsCore.ReadyAll(k, e, NULL_MSG, MutexBit);
    Free(k, e, pip);
  }
}
