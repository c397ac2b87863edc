/** The kernel as it runs: tables updated in place, bitmaps, and linked lists. Its ghost field `s` is
    the state on values; every service is proved to change it as the step function of KernelState
    says, so that what is proved about those holds here. */
module Kernel {
  import opened IndexLists
  import opened PrioritySet
  import opened KernelState
  import opened KernelRuns
  import opened TaskLists
  import opened EventTables
  import opened FlagTables

  method ClearedTcbs(tasks: nat) returns (tcb: array<Task>)
    ensures fresh(tcb) && tcb[..] == seq(tasks, _ => CLEARED_TCB)
  {
    tcb := new Task[tasks](_ => CLEARED_TCB);
  }

  method ClearedSlots() returns (slots: array<Slot>)
    ensures fresh(slots) && slots[..] == seq(N_PRIO, _ => Empty)[IDLE_PRIO := Reserved]
  {
    slots := new Slot[N_PRIO](_ => Empty);
    slots[IDLE_PRIO] := Reserved;
  }

  class Kernel {
    const tcb: array<Task>        // OSTCBTbl
    const prioTbl: array<Slot>    // OSTCBPrioTbl
    const rdy: PrioSet            // OSRdyGrp, OSRdyTbl
    const lists: TcbLists         // OSTCBList, OSTCBFreeList
    const events: EventTable      // OSEventTbl, OSEventFreeList
    const groups: FlagTable       // OSFlagTbl
    var cur: nat                  // OSTCBCur
    var prioCur: nat              // OSPrioCur
    var locked: bool              // OSLockNesting > 0, for OSTaskDel
    ghost var s: State

    ghost function Repr(): set<object>
    {
      {this, tcb, prioTbl, rdy, rdy.tbl, lists, lists.next, lists.prev, events, groups} + events.parts + groups.Parts()
    }

    /** The parts share no memory. */
    ghost predicate Layout()
    {
      && tcb as object !in {prioTbl as object, rdy.tbl, lists.next, lists.prev}
      && prioTbl as object !in {rdy.tbl as object, lists.next, lists.prev}
      && rdy.tbl as object !in {lists.next as object, lists.prev}
      && ApartFrom(events.parts) && ApartFrom(groups.Parts()) && events.parts !! groups.Parts()
    }

    ghost predicate ApartFrom(o: set<object>)
    {
      && this !in o && rdy !in o && lists !in o && events !in o && groups !in o
      && tcb !in o && prioTbl !in o && rdy.tbl !in o && lists.next !in o && lists.prev !in o
    }

    ghost predicate Tables()
      reads this, tcb, prioTbl
    {
      tcb[..] == s.tcb && prioTbl[..] == s.prioTbl && cur == s.cur && prioCur == s.prioCur
      && (locked <==> s.dying.Some?)
    }

    ghost predicate Valid()
      reads Repr()
    {
      && Layout() && Tables()
      && rdy.Valid() && rdy.members == s.ready
      && lists.Valid() && lists.list == s.list && lists.free == s.freeTcbs
      && events.Valid() && events.ev == s.ev && events.free == s.freeEvs
      && groups.Valid() && groups.grp == s.grp && groups.next.Length == tcb.Length
      && lists.next.Length == tcb.Length
    }

    /** OS_InitTCBList, OS_InitEventList, OS_FlagInit */
    constructor (tasks: nat, evs: nat, grps: nat)
      requires tasks > 0
      ensures Valid() && s == Cleared(tasks, evs, grps)
    {
      var tcbs := ClearedTcbs(tasks);
      var slots := ClearedSlots();
      tcb, prioTbl := tcbs, slots;
      rdy := new PrioSet();
      lists := new TcbLists(tasks);
      events := new EventTable(evs);
      groups := new FlagTable(grps, tasks);
      cur, prioCur, locked := 0, 0, false;
      s := Cleared(tasks, evs, grps);
    }

    // -------------------------------------------------------------- single assignments

    method PutTcb(t: nat, x: Task)
      requires Valid() && t < |s.tcb|
      modifies this`s, tcb
      ensures Valid() && s == SetTask(old(s), t, x)
    {
      tcb[t] := x;
      s := SetTask(s, t, x);
    }

    method PutSlot(p: nat, v: Slot)
      requires Valid() && p < |s.prioTbl|
      modifies Repr()
      ensures Valid() && s == SetSlot(old(s), p, v)
    {
      prioTbl[p] := v;
      s := SetSlot(s, p, v);
    }

    ghost method GoTo(t: nat, ph: Phase)
      requires Valid() && t < |s.phase|
      modifies Repr()
      ensures Valid() && s == SetPhase(old(s), t, ph)
    {
      s := SetPhase(s, t, ph);
    }

    method Ready(p: nat)
      requires Valid() && p < MAX_PRIO
      modifies this`s, rdy, rdy.tbl
      ensures Valid() && s == old(s).(ready := old(s).ready + {p})
    {
      rdy.Insert(p);
      s := s.(ready := s.ready + {p});
    }

    method Unready(p: nat)
      requires Valid() && p < MAX_PRIO
      modifies this`s, rdy, rdy.tbl
      ensures Valid() && s == old(s).(ready := old(s).ready - {p})
    {
      rdy.Remove(p);
      s := s.(ready := s.ready - {p});
    }

    method WaitBit(e: nat, p: nat)
      requires Valid() && e < |s.ev| && p < MAX_PRIO
      modifies Repr()
      ensures Valid() && s == SetWaiters(old(s), e, old(s).ev[e].waiters + {p})
    {
      events.Insert(e, p);
      s := SetWaiters(s, e, s.ev[e].waiters + {p});
    }

    method NoWaitBit(e: nat, p: nat)
      requires Valid() && e < |s.ev| && p < MAX_PRIO
      modifies Repr()
      ensures Valid() && s == SetWaiters(old(s), e, old(s).ev[e].waiters - {p})
    {
      events.Remove(e, p);
      s := SetWaiters(s, e, s.ev[e].waiters - {p});
    }

    method PutKind(e: nat, k: Kind)
      requires Valid() && e < |s.ev|
      modifies Repr()
      ensures Valid() && s == SetKind(old(s), e, k)
    {
      events.SetKind(e, k);
      s := SetKind(s, e, k);
    }

    /** A TCB leaves the free list. */
    method TakeFree() returns (t: nat)
      requires Valid() && s.freeTcbs != []
      modifies Repr()
      ensures Valid() && t == old(s).freeTcbs[0]
              && s == old(s).(freeTcbs := old(s).freeTcbs[1..], away := old(s).away + {t})
    {
      t := lists.Take();
      s := s.(freeTcbs := s.freeTcbs[1..], away := s.away + {t});
    }

    /** It goes to the head of the task list. */
    method LinkTcb(t: nat)
      requires Valid() && t < |s.tcb| && t !in s.list && t !in s.freeTcbs
      modifies Repr()
      ensures Valid() && s == old(s).(list := [t] + old(s).list, away := old(s).away - {t})
    {
      lists.Link(t);
      s := s.(list := [t] + s.list, away := s.away - {t});
    }

    /** OSTaskDel locks the scheduler. */
    method Lock(ghost d: Dying)
      requires Valid()
      modifies Repr()
      ensures Valid() && s == old(s).(dying := Some(d))
    {
      locked := true;
      s := s.(dying := Some(d));
    }

    method Unlock()
      requires Valid()
      modifies Repr()
      ensures Valid() && s == old(s).(dying := None)
    {
      locked := false;
      s := s.(dying := None);
    }

    method GiveTcb(t: nat)
      requires Valid() && t in s.list && t != s.list[|s.list| - 1]
      modifies Repr()
      ensures Valid() && s == old(s).(list := Remove(old(s).list, t), freeTcbs := [t] + old(s).freeTcbs)
    {
      lists.Unlink(t);
      s := s.(list := Remove(s.list, t), freeTcbs := [t] + s.freeTcbs);
    }

    method TakeEvent(k: Kind) returns (e: nat)
      requires Valid() && s.freeEvs != [] && s.freeEvs[0] < |s.ev|
      modifies Repr()
      ensures Valid() && e == old(s).freeEvs[0]
      ensures s == old(s).(ev := old(s).ev[e := Event(k, {})], freeEvs := old(s).freeEvs[1..])
    {
      e := events.Take(k);
      s := s.(ev := s.ev[e := Event(k, {})], freeEvs := s.freeEvs[1..]);
    }

    method GiveEvent(e: nat)
      requires Valid() && e < |s.ev| && e !in s.freeEvs
      modifies Repr()
      ensures Valid() && s == FreeEvent(old(s), e)
    {
      events.Give(e);
      s := FreeEvent(s, e);
    }

    method PutFlags(g: nat, f: Flags)
      requires Valid() && g < |s.grp|
      modifies Repr()
      ensures Valid() && s == SetFlags(old(s), g, f)
    {
      groups.SetFlags(g, f);
      s := SetFlags(s, g, f);
    }

    method PutUse(g: nat, u: bool, f: Flags)
      requires Valid() && g < |s.grp| && s.grp[g].waiters == []
      modifies Repr()
      ensures Valid() && s == old(s).(grp := old(s).grp[g := FlagGrp(u, f, [])])
    {
      groups.SetUse(g, u, f);
      s := s.(grp := s.grp[g := FlagGrp(u, f, [])]);
    }

    method PushNode(g: nat, t: nat)
      requires Valid() && g < |s.grp| && t < groups.next.Length
      requires forall h: nat :: h < |s.grp| ==> t !in s.grp[h].waiters
      modifies Repr()
      ensures Valid() && s == old(s).(grp := old(s).grp[g := old(s).grp[g].(waiters := [t] + old(s).grp[g].waiters)])
    {
      groups.Push(g, t);
      s := s.(grp := s.grp[g := s.grp[g].(waiters := [t] + s.grp[g].waiters)]);
    }

    method UnlinkNode(g: nat, t: nat)
      requires Valid() && g < |s.grp| && t in s.grp[g].waiters
      modifies Repr()
      ensures Valid() && s == old(s).(grp := old(s).grp[g := old(s).grp[g].(waiters := Remove(old(s).grp[g].waiters, t))])
      ensures t < groups.next.Length && groups.next[t] == old(groups.next[t])
    {
      groups.Unlink(g, t);
      s := s.(grp := s.grp[g := s.grp[g].(waiters := Remove(s.grp[g].waiters, t))]);
    }

    /** OSEventGrp != 0 */
    method Waited(e: nat) returns (b: bool)
      requires Valid() && e < |s.ev|
      ensures b <==> s.ev[e].waiters != {}
    {
      var none := events.NoWaiters(e);
      b := !none;
    }

    /** OS_TASK_SW */
    method Switch(t: nat, p: nat)
      requires Valid()
      modifies Repr()
      ensures Valid() && s == old(s).(cur := t, prioCur := p)
    {
      cur, prioCur := t, p;
      s := s.(cur := t, prioCur := p);
    }
  }
}
