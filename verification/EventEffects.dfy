/** What the services on queues, mailboxes and mutexes do to the tasks and to the event, field by field:
    who gets the message, who stops waiting, who becomes ready, and that everything else stays. */
module EventEffects {
  import opened IndexLists
  import opened KernelState
  import opened KernelInvariant
  import opened MutexInvariant
  import opened KernelRuns

  // ---------------------------------------------------------------- what can happen to a task

  /** The task waits on the event, and can be found there. */
  ghost predicate WaitsOn(s: State, e: nat, t: nat)
  {
    t in s.list && t < |s.tcb| && !IsDying(s, t) && s.tcb[t].event == Some(e)
  }

  /** It waits no longer: it has the message, its timeout is off, and the bit of the event is gone. */
  predicate ServedTask(x: Task, y: Task, msg: int, bit: StatBit)
  {
    && y.event == None && y.msg == msg && y.dly == 0 && !y.pendTO && y.stat == x.stat - {bit}
    && y.prio == x.prio && y.node == x.node && y.flagsRdy == x.flagsRdy
  }

  ghost predicate Served(s: State, s': State, t: nat, msg: int, bit: StatBit)
    requires t < |s.tcb| == |s'.tcb|
  {
    ServedTask(s.tcb[t], s'.tcb[t], msg, bit) && (s.tcb[t].prio in s'.ready <==> s'.tcb[t].stat == {})
  }

  ghost predicate Untouched(s: State, s': State, t: nat)
    requires t < |s.tcb| == |s'.tcb|
  {
    s'.tcb[t] == s.tcb[t] && (s.tcb[t].prio in s'.ready <==> s.tcb[t].prio in s.ready)
  }

  /** Only TCBs, the ready table and the event control block of e have changed. */
  ghost predicate OnlyEvent(s: State, s': State, e: nat)
  {
    && s' == s.(tcb := s'.tcb, ready := s'.ready, ev := s'.ev) && |s'.tcb| == |s.tcb| && |s'.ev| == |s.ev|
    && (forall f: nat :: f < |s.ev| && f != e ==> s'.ev[f] == s.ev[f])
  }

  /** The task has begun to wait, for as many ticks as it was told. */
  ghost predicate BeginsToWait(s: State, s': State, t: nat, e: nat, bit: StatBit, timeout: nat)
  {
    && t < |s.tcb| == |s'.tcb| && t < |s'.phase| && e < |s.ev| == |s'.ev|
    && s'.phase[t] == InEvent(e, bit)
    && s'.tcb[t].event == Some(e) && s'.tcb[t].stat == s.tcb[t].stat + {bit}
    && s'.tcb[t].dly == timeout && !s'.tcb[t].pendTO && s'.tcb[t].prio == s.tcb[t].prio
    && s'.ev[e].waiters == s.ev[e].waiters + {s.tcb[t].prio} && s.tcb[t].prio !in s'.ready
  }

  // ---------------------------------------------------------------- readying all waiters

  /** Priority p is that of a waiter which is found there. */
  ghost predicate FoundAt(s: State, p: nat)
  {
    && p < |s.prioTbl| && s.prioTbl[p].Tcb? && s.prioTbl[p].task < |s.tcb| && s.tcb[s.prioTbl[p].task].prio == p
  }

  ghost predicate Listed(s: State, e: nat, t: nat)
  {
    && e < |s.ev| && t < |s.tcb| && s.tcb[t].prio in s.ev[e].waiters
    && s.tcb[t].prio < |s.prioTbl| && s.prioTbl[s.tcb[t].prio] == Tcb(t)
  }

  /** The wait table and the event pointers name the same tasks. */
  lemma ListedWait(s: State, e: nat, t: nat)
    requires CoreInv(s) && e < |s.ev|
    ensures Listed(s, e, t) <==> WaitsOn(s, e, t)
  {
    if Listed(s, e, t) {
      assert WaiterOk(s, e, s.tcb[t].prio) && SlotOk(s, s.tcb[t].prio);
    }
    if WaitsOn(s, e, t) {
      LiveTask(s, t);
    }
  }

  /** After the loop nobody waits, each that waited is served, and nothing else has changed. */
  lemma {:induction false} ReadyAllExact(s: State, e: nat, msg: int, bit: StatBit)
    requires e < |s.ev| && forall p: nat :: p in s.ev[e].waiters ==> FoundAt(s, p)
    ensures var s' := ReadyAll(s, e, msg, bit);
            && OnlyEvent(s, s', e) && s'.ev[e].kind == s.ev[e].kind && s'.ev[e].waiters == {}
            && (forall t: nat :: t < |s.tcb| ==>
                  if Listed(s, e, t) then ServedTask(s.tcb[t], s'.tcb[t], msg, bit) else s'.tcb[t] == s.tcb[t])
            && (forall p: nat :: p in s'.ready <==> p in s.ready || RisesAt(s, e, bit, p))
    decreases s.ev[e].waiters
  {
    if s.ev[e].waiters != {} {
      var p := Least(s.ev[e].waiters);
      assert FoundAt(s, p);
      var t0, s1 := s.prioTbl[p].task, EventTaskRdy(s, e, msg, bit);
      OneReadied(s, e, msg, bit, t0);
      ReadyAllExact(s1, e, msg, bit);
    }
  }

  /** One round of the loop. */
  lemma OneReadied(s: State, e: nat, msg: int, bit: StatBit, t0: nat)
    requires e < |s.ev| && (forall p: nat :: p in s.ev[e].waiters ==> FoundAt(s, p)) && s.ev[e].waiters != {}
    requires FirstWaiter(s, e) == t0 < |s.tcb|
    ensures var s1, p := EventTaskRdy(s, e, msg, bit), Least(s.ev[e].waiters);
            && OnlyEvent(s, s1, e) && s1.ev[e].kind == s.ev[e].kind && s1.ev[e].waiters == s.ev[e].waiters - {p}
            && Listed(s, e, t0) && ServedTask(s.tcb[t0], s1.tcb[t0], msg, bit)
            && (forall t: nat :: t < |s.tcb| && t != t0 ==> s1.tcb[t] == s.tcb[t])
            && (forall q: nat :: q in s1.ev[e].waiters ==> FoundAt(s1, q))
            && (forall t: nat :: Listed(s1, e, t) <==> Listed(s, e, t) && t != t0)
            && (forall q: nat :: RisesAt(s1, e, bit, q) <==> RisesAt(s, e, bit, q) && q != p)
            && (forall q: nat :: q in s1.ready <==> q in s.ready || (q == p && RisesAt(s, e, bit, p)))
  {
    var s1, p := EventTaskRdy(s, e, msg, bit), Least(s.ev[e].waiters);
    assert FoundAt(s, p);
    forall q: nat | q in s1.ev[e].waiters
      ensures FoundAt(s1, q)
    {
      assert FoundAt(s, q);
    }
  }

  /** A waiter at priority p is held by nothing else. */
  ghost predicate RisesAt(s: State, e: nat, bit: StatBit, p: nat)
    requires e < |s.ev|
  {
    p in s.ev[e].waiters && FoundAt(s, p) && s.tcb[s.prioTbl[p].task].stat <= {bit}
  }

  /** All that waited on the event are served, and nobody else is touched. */
  ghost predicate AllServed(s: State, s': State, e: nat, msg: int, bit: StatBit)
  {
    && OnlyEvent(s, s', e) && e < |s.ev| && s'.ev[e].waiters == {}
    && (forall t: nat :: t < |s.tcb| && WaitsOn(s, e, t) ==> Served(s, s', t, msg, bit))
    && (forall t: nat :: t < |s.tcb| && !WaitsOn(s, e, t) ==> s'.tcb[t] == s.tcb[t])
    && (forall t: nat :: t < |s.tcb| && t in s.list && !WaitsOn(s, e, t) ==> Untouched(s, s', t))
  }

  lemma ReadyAllServes(s: State, e: nat, msg: int)
    requires CoreInv(s) && e < |s.ev|
    ensures var s' := ReadyAll(s, e, msg, KindBit(s.ev[e].kind));
            AllServed(s, s', e, msg, KindBit(s.ev[e].kind)) && s'.ev[e].kind == s.ev[e].kind
  {
    var bit := KindBit(s.ev[e].kind);
    var s' := ReadyAll(s, e, msg, bit);
    forall p: nat | p in s.ev[e].waiters
      ensures FoundAt(s, p)
    {
      assert WaiterOk(s, e, p);
    }
    ReadyAllExact(s, e, msg, bit);
    forall t: nat | t < |s.tcb|
      ensures Listed(s, e, t) <==> WaitsOn(s, e, t)
    {
      ListedWait(s, e, t);
    }
    forall t: nat | t < |s.tcb| && t in s.list
      ensures if WaitsOn(s, e, t) then Served(s, s', t, msg, bit) else Untouched(s, s', t)
    {
      ReadiedExactly(s, e, msg, t);
    }
  }

  lemma ReadiedExactly(s: State, e: nat, msg: int, t: nat)
    requires CoreInv(s) && e < |s.ev| && t in s.list && t < |s.tcb|
    ensures var s', bit := ReadyAll(s, e, msg, KindBit(s.ev[e].kind)), KindBit(s.ev[e].kind);
            && |s'.tcb| == |s.tcb|
            && if WaitsOn(s, e, t) then Served(s, s', t, msg, bit) else Untouched(s, s', t)
  {
    var bit := KindBit(s.ev[e].kind);
    forall p: nat | p in s.ev[e].waiters
      ensures FoundAt(s, p)
    {
      assert WaiterOk(s, e, p);
    }
    ReadyAllExact(s, e, msg, bit);
    ListedWait(s, e, t);
    LiveTask(s, t);
  }

  // ---------------------------------------------------------------- queues and mailboxes

  /** A broadcast reaches everybody who waits, and leaves what is stored. */
  lemma BroadcastReachesAll(s: State, e: nat, msg: int, front: bool)
    requires CoreInv(s) && IsMessages(s, e) && s.ev[e].waiters != {}
    ensures var s' := MsgBroadcast(s, e, msg, front);
            AllServed(s, s', e, msg, s.ev[e].kind.bit) && s'.ev[e].kind == s.ev[e].kind
  {
    ReadyAllServes(s, e, msg);
  }

  /** Task t is the best of those that wait on the event. */
  ghost predicate BestWaiter(s: State, e: nat, t: nat)
  {
    WaitsOn(s, e, t) && forall u: nat :: WaitsOn(s, e, u) ==> s.tcb[t].prio <= s.tcb[u].prio
  }

  /** Just that task is served. */
  ghost predicate OneServed(s: State, s': State, e: nat, t: nat, msg: int, bit: StatBit)
  {
    && OnlyEvent(s, s', e) && e < |s.ev| && BestWaiter(s, e, t) && Served(s, s', t, msg, bit)
    && s'.ev[e].waiters == s.ev[e].waiters - {s.tcb[t].prio}
    && (forall u: nat :: u < |s.tcb| && u != t ==> s'.tcb[u] == s.tcb[u])
    && (forall p: nat :: p != s.tcb[t].prio ==> (p in s'.ready <==> p in s.ready))
  }

  lemma EventTaskRdyServes(s: State, e: nat, msg: int) returns (t: nat)
    requires CoreInv(s) && e < |s.ev| && s.ev[e].waiters != {}
    ensures FirstWaiter(s, e) < |s.tcb|
    ensures var s' := EventTaskRdy(s, e, msg, KindBit(s.ev[e].kind));
            OneServed(s, s', e, t, msg, KindBit(s.ev[e].kind)) && s'.ev[e].kind == s.ev[e].kind
  {
    WaiterFound(s, e);
    t := FirstWaiter(s, e);
    LiveTask(s, t);
    forall u: nat | WaitsOn(s, e, u)
      ensures s.tcb[t].prio <= s.tcb[u].prio
    {
      ListedWait(s, e, u);
    }
  }

  /** OSQPost, OSQPostFront and OSMboxPost: to the best waiter; else, unless it is full, into the queue
      at the end or, for a post to the front, before all others. */
  lemma PostDelivers(s: State, e: nat, msg: int, front: bool)
    requires CoreInv(s) && IsMessages(s, e)
    ensures var s', k := MsgPost(s, e, msg, front), s.ev[e].kind;
            if s.ev[e].waiters != {} then
              s'.ev[e].kind == k && exists t: nat :: OneServed(s, s', e, t, msg, k.bit)
            else if |k.msgs| < k.size then
              && OnlyEvent(s, s', e) && s'.tcb == s.tcb && s'.ready == s.ready && s'.ev[e].waiters == {}
              && s'.ev[e].kind.Messages? && s'.ev[e].kind.bit == k.bit && s'.ev[e].kind.size == k.size
              && |s'.ev[e].kind.msgs| == |k.msgs| + 1
              && (front ==> s'.ev[e].kind.msgs[0] == msg && s'.ev[e].kind.msgs[1..] == k.msgs)
              && (!front ==> s'.ev[e].kind.msgs[|k.msgs|] == msg && s'.ev[e].kind.msgs[..|k.msgs|] == k.msgs)
            else s' == s
  {
    if s.ev[e].waiters != {} {
      var t := EventTaskRdyServes(s, e, msg);
    }
  }

  /** What was posted to the front is what the next accept takes, which leaves the queue as it was. */
  lemma LastInFirstOut(s: State, e: nat, msg: int)
    requires CoreInv(s) && IsMessages(s, e) && s.ev[e].waiters == {} && |s.ev[e].kind.msgs| < s.ev[e].kind.size
    ensures var s1 := MsgPost(s, e, msg, true);
            IsMessages(s1, e) && s1.ev[e].kind.msgs != [] && s1.ev[e].kind.msgs[0] == msg && MsgAccept(s1, e) == s
  {
    assert ([msg] + s.ev[e].kind.msgs)[1..] == s.ev[e].kind.msgs;
    assert MsgAccept(MsgPost(s, e, msg, true), e).ev == s.ev;
  }

  /** The oldest message has been taken; nothing else has changed. */
  ghost predicate FirstTaken(s: State, s': State, e: nat)
    requires IsMessages(s, e) && s.ev[e].kind.msgs != []
  {
    && OnlyEvent(s, s', e) && s'.tcb == s.tcb && s'.ready == s.ready && s'.ev[e].waiters == s.ev[e].waiters
    && IsMessages(s', e) && s'.ev[e].kind.bit == s.ev[e].kind.bit && s'.ev[e].kind.size == s.ev[e].kind.size
    && s.ev[e].kind.msgs == [s.ev[e].kind.msgs[0]] + s'.ev[e].kind.msgs
  }

  lemma AcceptTakesFirst(s: State, e: nat)
    requires IsMessages(s, e)
    ensures if s.ev[e].kind.msgs == [] then MsgAccept(s, e) == s else FirstTaken(s, MsgAccept(s, e), e)
  {
  }

  /** OSQPend and OSMboxPend take the oldest message at once, or the caller begins to wait. */
  lemma PendTakesOrWaits(s: State, e: nat, timeout: nat)
    requires CoreInv(s) && IsMessages(s, e) && Calling(s)
    ensures var s' := MsgPend(s, e, timeout);
            if s.ev[e].kind.msgs != [] then FirstTaken(s, s', e)
            else
              && BeginsToWait(s, s', s.cur, e, s.ev[e].kind.bit, timeout) && s'.ev[e].kind == s.ev[e].kind
              && OnlyEvent(s.(phase := s'.phase), s', e)
              && (forall u: nat :: u < |s.phase| && u != s.cur ==> s'.phase[u] == s.phase[u])
              && (forall u: nat :: u < |s.tcb| && u != s.cur ==> s'.tcb[u] == s.tcb[u])
              && (forall p: nat :: p != s.tcb[s.cur].prio ==> (p in s'.ready <==> p in s.ready))
  {
  }

  /** The second half of a pend: after a timeout the caller is off the wait list and has no message;
      otherwise it has taken the one that it was handed. */
  lemma PendReturns(s: State)
    requires CoreInv(s) && Returning(s) && s.phase[s.cur].InEvent? && s.phase[s.cur].e < |s.ev|
    ensures var s', x, e := PendResume(s), s.tcb[s.cur], s.phase[s.cur].e;
            && |s'.tcb| == |s.tcb| && |s'.phase| == |s.phase| && |s'.ev| == |s.ev|
            && s' == s.(tcb := s'.tcb, phase := s'.phase, ev := s'.ev)
            && s'.phase[s.cur] == User && s'.tcb[s.cur].event == None && s'.tcb[s.cur].stat == {}
            && !s'.tcb[s.cur].pendTO && s'.tcb[s.cur].prio == x.prio && s'.tcb[s.cur].dly == 0
            && s'.ev[e].waiters == s.ev[e].waiters - (if x.pendTO then {x.prio} else {})
            && s'.ev[e].kind == s.ev[e].kind && x.prio !in s'.ev[e].waiters
            && (forall f: nat :: f < |s.ev| && f != e ==> s'.ev[f] == s.ev[f])
            && (forall u: nat :: u < |s.tcb| && u != s.cur ==> s'.tcb[u] == s.tcb[u] && s'.phase[u] == s.phase[u])
  {
    LiveTask(s, s.cur);
    var e := s.phase[s.cur].e;
    ListedWait(s, e, s.cur);
  }

  lemma FlushEmpties(s: State, e: nat)
    requires IsMessages(s, e)
    ensures var s' := MsgFlush(s, e);
            && OnlyEvent(s, s', e) && s'.tcb == s.tcb && s'.ready == s.ready && s'.ev[e].waiters == s.ev[e].waiters
            && IsMessages(s', e) && s'.ev[e].kind.msgs == []
            && s'.ev[e].kind.bit == s.ev[e].kind.bit && s'.ev[e].kind.size == s.ev[e].kind.size
  {
  }

  /** The event control block is unused, and the first free one. */
  ghost predicate Freed(s: State, s': State, e: nat)
  {
    && e < |s'.ev| && s'.ev[e].kind == Unused && s'.ev[e].waiters == {}
    && |s'.freeEvs| == |s.freeEvs| + 1 && s'.freeEvs[0] == e && s'.freeEvs[1..] == s.freeEvs
  }

  lemma FreedAfterServing(s: State, s1: State, e: nat, msg: int, bit: StatBit)
    requires AllServed(s, s1, e, msg, bit)
    ensures var s' := FreeEvent(s1, e);
            AllServed(s.(freeEvs := s'.freeEvs), s', e, msg, bit) && Freed(s, s', e)
  {
    var s' := FreeEvent(s1, e);
    var s0 := s.(freeEvs := s'.freeEvs);
    forall t: nat
      ensures WaitsOn(s0, e, t) <==> WaitsOn(s, e, t)
    {
    }
  }

  /** OSQDel and OSMboxDel: refused while tasks wait, or all of them are readied without a message. */
  lemma MsgDelFrees(s: State, e: nat, always: bool)
    requires CoreInv(s) && IsMessages(s, e)
    ensures var s' := MsgDel(s, e, always);
            if !always && s.ev[e].waiters != {} then s' == s
            else AllServed(s.(freeEvs := s'.freeEvs), s', e, NULL_MSG, s.ev[e].kind.bit) && Freed(s, s', e)
  {
    var bit := s.ev[e].kind.bit;
    if always {
      ReadyAllServes(s, e, NULL_MSG);
      FreedAfterServing(s, ReadyAll(s, e, NULL_MSG, bit), e, NULL_MSG, bit);
    } else if s.ev[e].waiters == {} {
      NobodyWaits(s, e);
      FreedAfterServing(s, s, e, NULL_MSG, bit);
    }
  }

  lemma NobodyWaits(s: State, e: nat)
    requires CoreInv(s) && e < |s.ev| && s.ev[e].waiters == {}
    ensures forall t: nat :: !WaitsOn(s, e, t)
  {
    forall t: nat
      ensures !WaitsOn(s, e, t)
    {
      ListedWait(s, e, t);
    }
  }

  /** OSQCreate and OSMboxCreate. */
  lemma MsgCreateMakes(s: State, bit: StatBit, size: nat, msgs: seq<int>)
    requires CoreInv(s)
    ensures s.freeEvs != [] ==> s.freeEvs[0] < |s.ev|
    ensures var s' := MsgCreate(s, bit, size, msgs);
            if s.freeEvs == [] then s' == s
            else
              var e := s.freeEvs[0];
              && OnlyEvent(s.(freeEvs := s.freeEvs[1..]), s', e) && s'.tcb == s.tcb && s'.ready == s.ready
              && IsMessages(s', e) && s'.ev[e].kind.bit == bit && s'.ev[e].kind.size == size
              && s'.ev[e].kind.msgs == msgs && s'.ev[e].waiters == {}
  {
    Grounds(s);
  }

  // ---------------------------------------------------------------- mutexes

  /** The caller has the mutex, with its priority recorded; nothing else has changed. */
  ghost predicate TakenByCaller(s: State, s': State, e: nat)
  {
    && IsMutex(s, e) && s.cur < |s.tcb| && OnlyEvent(s, s', e) && s'.tcb == s.tcb && s'.ready == s.ready
    && Owns(s', e, s.cur) && LowByte(s'.ev[e].kind.cnt) == s.tcb[s.cur].prio
    && Pip(s'.ev[e].kind.cnt) == Pip(s.ev[e].kind.cnt) && s'.ev[e].waiters == {} == s.ev[e].waiters
  }

  lemma MutexAcceptTakes(s: State, e: nat)
    requires Inv(s) && Calling(s) && IsMutex(s, e)
    ensures var s' := MutexAccept(s, e);
            if s.ev[e].kind.owner == None then TakenByCaller(s, s', e) else s' == s
  {
    assert MutexOk(s, e);
    LiveTask(s, s.cur);
  }

  /** OSMutexPend on a mutex that nobody owns, or whose low byte says so, takes it at once. */
  lemma MutexPendTakes(s: State, e: nat, timeout: nat)
    requires Inv(s) && Competitor(s, e) && (s.ev[e].kind.owner == None || LowByte(s.ev[e].kind.cnt) == AVAILABLE)
    ensures var s' := MutexPend(s, e, timeout);
            TakenByCaller(s, s', e) && s'.phase[s.cur] == User
  {
    assert MutexOk(s, e);
    LiveTask(s, s.cur);
  }

  /** The owner o would make the caller wait for a task of lower priority. */
  ghost predicate MustRise(s: State, e: nat, o: nat)
  {
    && Owns(s, e, o) && o < |s.tcb| && s.cur < |s.tcb|
    && s.tcb[o].prio > Pip(s.ev[e].kind.cnt) && s.tcb[s.cur].prio < LowByte(s.ev[e].kind.cnt)
  }

  /** What a pend on an owned mutex does to everything but the caller: the owner rises where it must. */
  ghost predicate OnlyRises(s: State, s': State, e: nat, o: nat)
    requires IsMutex(s, e) && o < |s.tcb|
  {
    var pip := Pip(s.ev[e].kind.cnt);
    && |s'.tcb| == |s.tcb| && pip < |s.prioTbl|
    && s'.tcb[o] == s.tcb[o].(prio := if MustRise(s, e, o) then pip else s.tcb[o].prio)
    && s'.prioTbl == (if MustRise(s, e, o) then s.prioTbl[pip := Tcb(o)] else s.prioTbl)
    && (s'.tcb[o].prio in s'.ready <==> Runnable(s.tcb[o]))
    && forall u: nat :: u < |s.tcb| && u != s.cur && u != o ==> s'.tcb[u] == s.tcb[u]
  }

  lemma PromoteRises(s: State, e: nat, o: nat)
    requires Inv(s) && Competitor(s, e) && Owns(s, e, o) && o != s.cur
    ensures o in s.list && o < |s.tcb|
    ensures var s1 := Promote(s, e);
            && OnlyRises(s, s1, e, o) && s1.tcb[s.cur] == s.tcb[s.cur]
            && s1 == s.(tcb := s1.tcb, ready := s1.ready, prioTbl := s1.prioTbl)
            && (forall p: nat :: p != s.tcb[o].prio && p != Pip(s.ev[e].kind.cnt) ==> (p in s1.ready <==> p in s.ready))
  {
    assert MutexOk(s, e);
    LiveTask(s, s.cur);
    LiveTask(s, o);
    PriosDiffer(s, s.cur, o);
  }

  /** On one that is owned the caller begins to wait, and the owner is raised to the inheritance
      priority where that is needed. */
  lemma MutexPendWaits(s: State, e: nat, timeout: nat)
    requires Inv(s) && Competitor(s, e) && !IsOwner(s, s.cur) && s.ev[e].kind.owner.Some?
    ensures var s', o := MutexPend(s, e, timeout), s.ev[e].kind.owner.value;
            && o in s.list && o < |s.tcb| && o != s.cur && OnlyRises(s, s', e, o)
            && BeginsToWait(s, s', s.cur, e, MutexBit, timeout) && s'.ev[e].kind == s.ev[e].kind
            && s' == s.(tcb := s'.tcb, phase := s'.phase, ready := s'.ready, ev := s'.ev, prioTbl := s'.prioTbl)
            && (forall f: nat :: f < |s.ev| && f != e ==> s'.ev[f] == s.ev[f])
            && (forall p: nat :: p != s.tcb[s.cur].prio && p != s.tcb[o].prio && p != Pip(s.ev[e].kind.cnt) ==>
                  (p in s'.ready <==> p in s.ready))
            && |s'.phase| == |s.phase| && (forall u: nat :: u < |s.phase| && u != s.cur ==> s'.phase[u] == s.phase[u])
  {
    assert MutexOk(s, e);
    var o := s.ev[e].kind.owner.value;
    assert Owns(s, e, o);
    PromoteRises(s, e, o);
    LiveTask(s, s.cur);
    PriosDiffer(s, s.cur, o);
    var s1 := Promote(s, e);
    assert MutexPend(s, e, timeout) == Block(s1, s.cur, e, MutexBit, timeout);
    assert s1.tcb[o].prio != s.tcb[s.cur].prio;
  }

  /** OSMutexPost by a task that does not own the mutex changes nothing. */
  lemma PostByStranger(s: State, e: nat)
    requires IsMutex(s, e) && s.cur < |s.tcb| && !Owns(s, e, s.cur)
    ensures MutexPost(s, e) == s
  {
  }

  /** By its owner: the owner is at its own priority and the inheritance priority reserved. The mutex is
      free, or it belongs to the best waiter, which is served. */
  lemma PostPassesOn(s: State, e: nat)
    requires Inv(s) && Calling(s) && Owns(s, e, s.cur)
    ensures var s', cnt := MutexPost(s, e), s.ev[e].kind.cnt;
            && |s'.tcb| == |s.tcb| && |s'.ev| == |s.ev| && |s.prioTbl| == |s'.prioTbl| == N_PRIO && IsMutex(s', e)
            && s'.tcb[s.cur] == s.tcb[s.cur].(prio := LowByte(cnt)) && LowByte(cnt) in s'.ready
            && Pip(cnt) < N_PRIO && s'.prioTbl[Pip(cnt)] == Reserved && Pip(s'.ev[e].kind.cnt) == Pip(cnt)
            && s' == s.(tcb := s'.tcb, ready := s'.ready, ev := s'.ev, prioTbl := s'.prioTbl)
            && (forall f: nat :: f < |s.ev| && f != e ==> s'.ev[f] == s.ev[f])
            && (s.ev[e].waiters == {} ==>
                  && s'.ev[e].kind.owner == None && LowByte(s'.ev[e].kind.cnt) == AVAILABLE && s'.ev[e].waiters == {}
                  && forall u: nat :: u < |s.tcb| && u != s.cur ==> s'.tcb[u] == s.tcb[u])
            && (s.ev[e].waiters != {} ==> exists t: nat :: PassedTo(s, s', e, t))
  {
    assert MutexOk(s, e);
    LiveTask(s, s.cur);
    RestoreKeeps(s, e);
    HandOffFacts(Restore(s, e), e);
    if s.ev[e].waiters != {} {
      PostServes(s, e);
    }
  }

  /** Task t, the best waiter, has become the owner. */
  ghost predicate PassedTo(s: State, s': State, e: nat, t: nat)
  {
    && e < |s.ev| && |s'.tcb| == |s.tcb| && BestWaiter(s, e, t) && t != s.cur && s.cur < |s.tcb|
    && Owns(s', e, t) && LowByte(s'.ev[e].kind.cnt) == s.tcb[t].prio
    && s'.ev[e].waiters == s.ev[e].waiters - {s.tcb[t].prio} && Served(s, s', t, NULL_MSG, MutexBit)
    && (forall u: nat :: u < |s.tcb| && u != s.cur && u != t ==> s'.tcb[u] == s.tcb[u])
  }

  lemma PostServes(s: State, e: nat)
    requires Inv(s) && Calling(s) && Owns(s, e, s.cur) && s.ev[e].waiters != {}
    ensures exists t: nat :: PassedTo(s, MutexPost(s, e), e, t)
  {
    assert MutexOk(s, e);
    var s1 := Restore(s, e);
    LiveTask(s, s.cur);
    RestoreKeeps(s, e);
    HandOffFacts(s1, e);
    var t := EventTaskRdyServes(s1, e, NULL_MSG);
    assert t == FirstWaiter(s1, e);
    forall u: nat
      ensures WaitsOn(s1, e, u) <==> WaitsOn(s, e, u)
    {
    }
    assert PassedTo(s, MutexPost(s, e), e, t);
  }

  lemma MutexCreateMakes(s: State, pip: nat)
    requires CoreInv(s) && pip < IDLE_PRIO
    ensures s.freeEvs != [] ==> s.freeEvs[0] < |s.ev|
    ensures var s' := MutexCreate(s, pip);
            if !s.prioTbl[pip].Empty? || s.freeEvs == [] then s' == s
            else
              var e := s.freeEvs[0];
              && OnlyEvent(s.(freeEvs := s.freeEvs[1..], prioTbl := s.prioTbl[pip := Reserved]), s', e)
              && s'.tcb == s.tcb && s'.ready == s.ready && IsMutex(s', e) && s'.ev[e].waiters == {}
              && s'.ev[e].kind.owner == None && Pip(s'.ev[e].kind.cnt) == pip && LowByte(s'.ev[e].kind.cnt) == AVAILABLE
  {
    Grounds(s);
  }

  /** The owner is set back to its own priority and made ready. */
  ghost predicate SetBack(s: State, s': State, e: nat, o: nat)
    requires IsMutex(s, e)
  {
    && o < |s.tcb| == |s'.tcb| && s'.tcb[o] == s.tcb[o].(prio := LowByte(s.ev[e].kind.cnt))
    && LowByte(s.ev[e].kind.cnt) in s'.ready
  }

  /** The inheritance priority and the event control block are free, all waiters are readied with
      nothing, and a raised owner is set back if `always`; everything else is as it was. */
  ghost predicate Dropped(s: State, s': State, e: nat, always: bool)
    requires IsMutex(s, e)
  {
    var pip := Pip(s.ev[e].kind.cnt);
    && pip < |s.prioTbl| && s'.prioTbl == s.prioTbl[pip := Empty] && Freed(s, s', e)
    && s' == s.(tcb := s'.tcb, ready := s'.ready, ev := s'.ev, freeEvs := s'.freeEvs, prioTbl := s'.prioTbl)
    && |s'.tcb| == |s.tcb| && |s'.ev| == |s.ev|
    && (forall f: nat :: f < |s.ev| && f != e ==> s'.ev[f] == s.ev[f])
    && (forall t: nat :: WaitsOn(s, e, t) ==> Served(s, s', t, NULL_MSG, MutexBit))
    && (forall t: nat :: IsLowered(s, e, t, always) ==> SetBack(s, s', e, t))
    && (forall t: nat :: t < |s.tcb| && !WaitsOn(s, e, t) && !IsLowered(s, e, t, always) ==> s'.tcb[t] == s.tcb[t])
  }

  ghost predicate IsLowered(s: State, e: nat, t: nat, always: bool)
    requires IsMutex(s, e)
  {
    always && OwnerRaised(s, e) && Owns(s, e, t)
  }

  /** OSMutexDel: refused while tasks wait, unless OS_DEL_ALWAYS is given. */
  lemma MutexDelFrees(s: State, e: nat, always: bool)
    requires Inv(s) && IsMutex(s, e)
    ensures var s' := MutexDel(s, e, always);
            if !always && s.ev[e].waiters != {} then s' == s else Dropped(s, s', e, always)
  {
    assert MutexOk(s, e);
    if always {
      DelAlwaysDrops(s, e);
    } else if s.ev[e].waiters == {} {
      NobodyWaits(s, e);
    }
  }

  lemma DelAlwaysDrops(s: State, e: nat)
    requires Inv(s) && IsMutex(s, e)
    ensures Dropped(s, MutexDel(s, e, true), e, true)
  {
    assert MutexOk(s, e);
    var s1, s' := Lowered(s, e), MutexDel(s, e, true);
    LoweredIs(s, e);
    LoweredWaiters(s, e);
    ReadyAllExact(s1, e, NULL_MSG, MutexBit);
    forall t: nat | WaitsOn(s, e, t)
      ensures Served(s, s', t, NULL_MSG, MutexBit)
    {
      DeletedServes(s, e, t);
    }
  }

  lemma LoweredIs(s: State, e: nat)
    requires Inv(s) && IsMutex(s, e)
    ensures var s1 := Lowered(s, e);
            && s1 == s.(tcb := s1.tcb, ready := s1.ready) && |s1.tcb| == |s.tcb|
            && (OwnerRaised(s, e) ==> SetBack(s, s1, e, s.ev[e].kind.owner.value))
            && (forall t: nat :: t < |s.tcb| && !(OwnerRaised(s, e) && Owns(s, e, t)) ==> s1.tcb[t] == s.tcb[t])
            && (forall p: nat :: p != Pip(s.ev[e].kind.cnt) && p != LowByte(s.ev[e].kind.cnt) ==>
                  (p in s1.ready <==> p in s.ready))
  {
    assert MutexOk(s, e);
    if OwnerRaised(s, e) {
      var low, o := LowByte(s.ev[e].kind.cnt), s.ev[e].kind.owner.value;
      assert s.prioTbl[low := Tcb(o)] == s.prioTbl;
    }
  }

  lemma LowIsNoWaiter(s: State, e: nat)
    requires Inv(s) && IsMutex(s, e)
    ensures OwnerRaised(s, e) ==> LowByte(s.ev[e].kind.cnt) !in s.ev[e].waiters
  {
    assert MutexOk(s, e);
    forall p: nat | p in s.ev[e].waiters
      ensures OwnerRaised(s, e) ==> p != LowByte(s.ev[e].kind.cnt)
    {
      assert WaiterOk(s, e, p);
    }
  }

  lemma LoweredWaiters(s: State, e: nat)
    requires Inv(s) && IsMutex(s, e)
    ensures var s1 := Lowered(s, e);
            && s1.ev == s.ev && (forall p: nat :: p in s1.ev[e].waiters ==> FoundAt(s1, p))
            && (forall t: nat :: Listed(s1, e, t) <==> WaitsOn(s, e, t))
  {
    LoweredIs(s, e);
    assert MutexOk(s, e);
    var s1 := Lowered(s, e);
    forall p: nat | p in s1.ev[e].waiters
      ensures FoundAt(s1, p)
    {
      assert WaiterOk(s, e, p);
    }
    forall t: nat
      ensures Listed(s1, e, t) <==> WaitsOn(s, e, t)
    {
      ListedWait(s, e, t);
      LowIsNoWaiter(s, e);
    }
  }

  lemma DeletedServes(s: State, e: nat, t: nat)
    requires Inv(s) && IsMutex(s, e) && WaitsOn(s, e, t)
    ensures |MutexDel(s, e, true).tcb| == |s.tcb| && Served(s, MutexDel(s, e, true), t, NULL_MSG, MutexBit)
  {
    LoweredIs(s, e);
    LoweredWaiters(s, e);
    var s1 := Lowered(s, e);
    ReadyAllExact(s1, e, NULL_MSG, MutexBit);
    LiveTask(s, t);
    assert MutexOk(s, e);
    assert Listed(s1, e, t) && FoundAt(s1, s.tcb[t].prio);
    assert s.prioTbl[s.tcb[t].prio] == Tcb(t) && s.ev[e].kind.owner != Some(t);
  }
}
