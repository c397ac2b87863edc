/** os_q.c and os_mbox.c on the kernel's tables. The record of a queue names its messages in order;
    the ring they are stored in (OS_Q) is an object of its own, which the services keep in step with
    the record. A mailbox has no ring: its record holds one message or none. */
module OsQueue {
  import opened IndexLists
  import opened KernelState
  import opened KernelInvariant
  import opened KernelRuns
  import opened MessageRings
  import opened EventEffects
  import opened Kernel
  import OsCore

  datatype Err = NoErr | Timeout | QueueFull | QueueEmpty | TaskWaiting

  /** pq is the ring of queue e. */
  ghost predicate RingOf(k: Kernel, pq: Ring, e: nat)
    reads k`s, pq, pq.store
  {
    RingFor(k, pq, e) && pq.Contents() == k.s.ev[e].kind.msgs
  }

  /** pq can be the ring of queue e, whatever it holds. */
  ghost predicate RingFor(k: Kernel, pq: Ring, e: nat)
    reads k`s, pq, pq.store
  {
    && pq !in k.Repr() && pq.store !in k.Repr()
    && IsMessages(k.s, e) && pq.Valid() && pq.store.Length == k.s.ev[e].kind.size
  }

  /** What the queue holds is recorded anew. */
  method Record(k: Kernel, e: nat, msgs: seq<int>)
    requires k.Valid() && IsMessages(k.s, e)
    modifies k.Repr()
    ensures k.Valid() && k.s == SetKind(old(k.s), e, SetMsgs(old(k.s).ev[e].kind, msgs))
  {
    var kind := k.events.kinds[e];
    k.PutKind(e, Messages(kind.bit, kind.size, msgs));
  }

  /** After a change of the ring the record follows. */
  method Follow(k: Kernel, pq: Ring, e: nat, msgs: seq<int>)
    requires k.Valid() && RingFor(k, pq, e) && pq.Contents() == msgs
    modifies k.Repr()
    ensures k.Valid() && k.s == SetKind(old(k.s), e, SetMsgs(old(k.s).ev[e].kind, msgs)) && RingOf(k, pq, e)
  {
    Record(k, e, msgs);
  }

  /** The delivery to a waiter in all posts. */
  method Deliver(k: Kernel, e: nat, msg: int)
    requires k.Valid() && CoreInv(k.s) && IsMessages(k.s, e) && k.s.ev[e].waiters != {}
    modifies k.Repr()
    ensures FirstWaiter(old(k.s), e) < |old(k.s).tcb|
    ensures k.Valid() && k.s == KernelState.EventTaskRdy(old(k.s), e, msg, old(k.s).ev[e].kind.bit)
    ensures IsMessages(k.s, e) && k.s.ev[e].kind == old(k.s).ev[e].kind
  {
    WaiterFound(k.s, e);
    OsCore.WaitersAreFound(k.s, e);
    var prio := OsCore.EventTaskRdy(k, e, msg, k.events.kinds[e].bit);
  }

  lemma PostStores(s: State, e: nat, msg: int, front: bool)
    requires IsMessages(s, e) && s.ev[e].waiters == {}
    ensures |s.ev[e].kind.msgs| >= s.ev[e].kind.size ==> MsgPost(s, e, msg, front) == s
    ensures |s.ev[e].kind.msgs| < s.ev[e].kind.size ==>
              var kind := s.ev[e].kind;
              MsgPost(s, e, msg, front) == SetKind(s, e, SetMsgs(kind, if front then [msg] + kind.msgs else kind.msgs + [msg]))
  {
  }

  /** The queue holds msgs now. */
  function Holding(s: State, e: nat, msgs: seq<int>): State
    requires e < |s.ev| && s.ev[e].kind.Messages?
  {
    SetKind(s, e, SetMsgs(s.ev[e].kind, msgs))
  }

  /** OSQPost without waiters. */
  method StoreBack(k: Kernel, pq: Ring, e: nat, msg: int) returns (ok: bool)
    requires k.Valid() && RingOf(k, pq, e)
    modifies k.Repr(), pq, pq.store
    ensures k.Valid() && RingOf(k, pq, e)
    ensures var msgs := old(k.s).ev[e].kind.msgs;
            ok == (|msgs| < old(k.s).ev[e].kind.size)
            && k.s == if ok then Holding(old(k.s), e, msgs + [msg]) else old(k.s)
  {
    var msgs := k.events.kinds[e].msgs;
    ok := pq.Post(msg);
    if ok {
      Follow(k, pq, e, msgs + [msg]);
    }
  }

  /** OSQPostFront without waiters. */
  method StoreFront(k: Kernel, pq: Ring, e: nat, msg: int) returns (ok: bool)
    requires k.Valid() && RingOf(k, pq, e)
    modifies k.Repr(), pq, pq.store
    ensures k.Valid() && RingOf(k, pq, e)
    ensures var msgs := old(k.s).ev[e].kind.msgs;
            ok == (|msgs| < old(k.s).ev[e].kind.size)
            && k.s == if ok then Holding(old(k.s), e, [msg] + msgs) else old(k.s)
  {
    var msgs := k.events.kinds[e].msgs;
    ok := pq.PostFront(msg);
    if ok {
      Follow(k, pq, e, [msg] + msgs);
    }
  }

  /** OSQPostOpt without waiters. */
  method Store(k: Kernel, pq: Ring, e: nat, msg: int, front: bool) returns (err: Err)
    requires k.Valid() && RingOf(k, pq, e) && k.s.ev[e].waiters == {}
    modifies k.Repr(), pq, pq.store
    ensures k.Valid() && RingOf(k, pq, e) && k.s == MsgPost(old(k.s), e, msg, front)
    ensures err == if |old(k.s).ev[e].kind.msgs| >= old(k.s).ev[e].kind.size then QueueFull else NoErr
  {
    PostStores(k.s, e, msg, front);
    var ok;
    if front {
      ok := StoreFront(k, pq, e, msg);
    } else {
      ok := StoreBack(k, pq, e, msg);
    }
    err := if ok then NoErr else QueueFull;
  }

  /** Nobody takes the message, and there is no room for it. */
  ghost predicate Full(s: State, e: nat)
    requires IsMessages(s, e)
  {
    s.ev[e].waiters == {} && |s.ev[e].kind.msgs| >= s.ev[e].kind.size
  }

  /** OSQPost and OSQPostFront */
  method Post(k: Kernel, pq: Ring, e: nat, msg: int, front: bool) returns (err: Err, waiting: bool)
    requires k.Valid() && CoreInv(k.s) && RingOf(k, pq, e)
    modifies k.Repr(), pq, pq.store
    ensures k.Valid() && RingOf(k, pq, e) && k.s == MsgPost(old(k.s), e, msg, front)
    ensures err == if Full(old(k.s), e) then QueueFull else NoErr
    ensures waiting <==> old(k.s).ev[e].waiters != {}
  {
    waiting := k.Waited(e);
    if waiting {
      Deliver(k, e, msg);
      err := NoErr;
    } else {
      err := Store(k, pq, e, msg, front);
    }
  }

  lemma Delivery(s: State, e: nat, msg: int)
    requires CoreInv(s) && IsMessages(s, e)
    ensures var s' := KernelState.ReadyAll(s, e, msg, s.ev[e].kind.bit);
            && AllServed(s, s', e, msg, s.ev[e].kind.bit)
            && IsMessages(s', e) && s'.ev[e].kind == s.ev[e].kind && s'.freeEvs == s.freeEvs
  {
    ReadyAllServes(s, e, msg);
  }

  /** The loop of a broadcast. */
  method DeliverAll(k: Kernel, e: nat, msg: int)
    requires k.Valid() && CoreInv(k.s) && IsMessages(k.s, e)
    modifies k.Repr()
    ensures k.Valid() && k.s == KernelState.ReadyAll(old(k.s), e, msg, old(k.s).ev[e].kind.bit)
    ensures AllServed(old(k.s), k.s, e, msg, old(k.s).ev[e].kind.bit)
    ensures IsMessages(k.s, e) && k.s.ev[e].kind == old(k.s).ev[e].kind && k.s.freeEvs == old(k.s).freeEvs
  {
    Delivery(k.s, e, msg);
    OsCore.WaitersAreFound(k.s, e);
    OsCore.ReadyAll(k, e, msg, k.events.kinds[e].bit);
  }

  /** OSQPostOpt with OS_POST_OPT_BROADCAST. */
  method Broadcast(k: Kernel, pq: Ring, e: nat, msg: int, front: bool) returns (err: Err, waiting: bool)
    requires k.Valid() && CoreInv(k.s) && RingOf(k, pq, e)
    modifies k.Repr(), pq, pq.store
    ensures k.Valid() && RingOf(k, pq, e) && k.s == MsgBroadcast(old(k.s), e, msg, front)
    ensures err == if Full(old(k.s), e) then QueueFull else NoErr
    ensures waiting <==> old(k.s).ev[e].waiters != {}
    ensures waiting ==> AllServed(old(k.s), k.s, e, msg, old(k.s).ev[e].kind.bit)
  {
    waiting := k.Waited(e);
    if waiting {
      DeliverAll(k, e, msg);
      err := NoErr;
    } else {
      err := Store(k, pq, e, msg, front);
    }
  }

  /** The first message leaves the ring. */
  method Extract(k: Kernel, pq: Ring, e: nat) returns (msg: int)
    requires k.Valid() && RingOf(k, pq, e) && k.s.ev[e].kind.msgs != []
    modifies k.Repr(), pq, pq.store
    ensures k.Valid() && RingOf(k, pq, e) && msg == old(k.s).ev[e].kind.msgs[0]
    ensures k.s == SetKind(old(k.s), e, SetMsgs(old(k.s).ev[e].kind, old(k.s).ev[e].kind.msgs[1..]))
  {
    msg := pq.Take();
    Follow(k, pq, e, k.events.kinds[e].msgs[1..]);
  }

  /** OSQAccept */
  method Accept(k: Kernel, pq: Ring, e: nat) returns (msg: int, err: Err)
    requires k.Valid() && RingOf(k, pq, e)
    modifies k.Repr(), pq, pq.store
    ensures k.Valid() && RingOf(k, pq, e) && k.s == MsgAccept(old(k.s), e)
    ensures if old(k.s).ev[e].kind.msgs == [] then msg == NULL_MSG && err == QueueEmpty
            else msg == old(k.s).ev[e].kind.msgs[0] && err == NoErr
  {
    if pq.entries > 0 {
      msg := Extract(k, pq, e);
      err := NoErr;
    } else {
      msg, err := NULL_MSG, QueueEmpty;
    }
  }

  /** OSQPend up to OS_Sched. */
  method PendBegin(k: Kernel, pq: Ring, e: nat, timeout: nat) returns (msg: int, got: bool)
    requires k.Valid() && CoreInv(k.s) && Calling(k.s) && RingOf(k, pq, e)
    modifies k.Repr(), pq, pq.store
    ensures k.Valid() && RingOf(k, pq, e) && k.s == MsgPend(old(k.s), e, timeout)
    ensures got <==> old(k.s).ev[e].kind.msgs != []
    ensures got ==> msg == old(k.s).ev[e].kind.msgs[0]
  {
    OsCore.LiveIsFit(k.s, k.cur);
    got := pq.entries > 0;
    if got {
      msg := Extract(k, pq, e);
    } else {
      msg := NULL_MSG;
      OsCore.EventTaskWait(k, e, k.events.kinds[e].bit, timeout);
    }
  }

  /** OSQPend and OSMboxPend after OS_Sched. */
  method PendEnd(k: Kernel, e: nat) returns (msg: int, err: Err)
    requires k.Valid() && CoreInv(k.s) && Enabled(k.s, EndPend)
    requires k.s.phase[k.cur].e == e && k.s.phase[k.cur].bit != MutexBit
    modifies k.Repr()
    ensures e < |old(k.s).ev| && k.Valid() && k.s == PendResume(old(k.s))
    ensures old(k.s).tcb[old(k.cur)].pendTO ==> msg == NULL_MSG && err == Timeout
    ensures !old(k.s).tcb[old(k.cur)].pendTO ==> msg == old(k.s).tcb[old(k.cur)].msg && err == NoErr
  {
    Grounds(k.s);
    OsCore.LiveIsFit(k.s, k.cur);
    if k.tcb[k.cur].pendTO {
      OsCore.EventTO(k, e);
      msg, err := NULL_MSG, Timeout;
    } else {
      msg, err := k.tcb[k.cur].msg, NoErr;
      k.PutTcb(k.cur, k.tcb[k.cur].(msg := NULL_MSG, stat := {}, event := None));
      k.GoTo(k.cur, User);
    }
  }

  /** OSQFlush */
  method Flush(k: Kernel, pq: Ring, e: nat)
    requires k.Valid() && RingOf(k, pq, e)
    modifies k.Repr(), pq, pq.store
    ensures k.Valid() && RingOf(k, pq, e) && k.s == MsgFlush(old(k.s), e)
  {
    pq.Flush();
    Follow(k, pq, e, []);
  }

  /** OSQDel and OSMboxDel; sched tells whether they call OS_Sched at the end. */
  method Del(k: Kernel, e: nat, always: bool) returns (err: Err, sched: bool)
    requires k.Valid() && CoreInv(k.s) && IsMessages(k.s, e)
    modifies k.Repr()
    ensures k.Valid() && k.s == MsgDel(old(k.s), e, always)
    ensures err == if !always && old(k.s).ev[e].waiters != {} then TaskWaiting else NoErr
    ensures sched <==> always && old(k.s).ev[e].waiters != {}
  {
    assert EventOk(k.s, e);
    var waiting := k.Waited(e);
    if !always && waiting {
      return TaskWaiting, false;
    }
    if always {
      DeliverAll(k, e, NULL_MSG);
    }
    k.GiveEvent(e);
    err, sched := NoErr, always && waiting;
  }

  /** OSQCreate and OSMboxCreate, the event control block. Without a queue control block, which a
      queue needs too, it goes back to the free list. */
  method Create(k: Kernel, bit: StatBit, size: nat, msgs: seq<int>, qcb: bool) returns (ok: bool)
    requires k.Valid() && CoreInv(k.s)
    modifies k.Repr()
    ensures old(k.s).freeEvs != [] ==> old(k.s).freeEvs[0] < |old(k.s).ev|
    ensures ok <==> old(k.s).freeEvs != [] && (bit == QueueBit ==> qcb)
    ensures k.Valid() && k.s == if ok then MsgCreate(old(k.s), bit, size, msgs) else old(k.s)
  {
    Grounds(k.s);
    ok := k.events.freeHead != NIL;
    if ok {
      ghost var e0, free := k.s.freeEvs[0], k.s.freeEvs;
      assert EventOk(k.s, e0) && e0 in k.s.freeEvs && free == [e0] + free[1..] && e0 !in free[1..];
      var e := k.TakeEvent(Messages(bit, size, msgs));
      ok := bit != QueueBit || qcb;
      if !ok {
        k.GiveEvent(e);
      }
    }
  }

  // ---------------------------------------------------------------- mailboxes

  ghost predicate IsMailbox(s: State, e: nat)
  {
    IsMessages(s, e) && s.ev[e].kind.size == 1 && |s.ev[e].kind.msgs| <= 1
  }

  /** OSMboxPost. The message is not NULL, which would look like an empty mailbox. */
  method MboxPost(k: Kernel, e: nat, msg: int) returns (err: Err, waiting: bool)
    requires k.Valid() && CoreInv(k.s) && IsMailbox(k.s, e) && msg != NULL_MSG
    modifies k.Repr()
    ensures k.Valid() && k.s == MsgPost(old(k.s), e, msg, false)
    ensures err == if Full(old(k.s), e) then QueueFull else NoErr
    ensures waiting <==> old(k.s).ev[e].waiters != {}
  {
    waiting := k.Waited(e);
    if waiting {
      Deliver(k, e, msg);
      err := NoErr;
    } else if k.events.kinds[e].msgs != [] {
      err := QueueFull;
    } else {
      assert k.s.ev[e].kind.msgs + [msg] == [msg];
      Record(k, e, [msg]);
      err := NoErr;
    }
  }

  /** OSMboxAccept */
  method MboxAccept(k: Kernel, e: nat) returns (msg: int)
    requires k.Valid() && IsMailbox(k.s, e)
    modifies k.Repr()
    ensures k.Valid() && k.s == MsgAccept(old(k.s), e)
    ensures msg == if old(k.s).ev[e].kind.msgs == [] then NULL_MSG else old(k.s).ev[e].kind.msgs[0]
  {
    msg := NULL_MSG;
    if k.events.kinds[e].msgs != [] {
      msg := k.events.kinds[e].msgs[0];
      assert k.s.ev[e].kind.msgs[1..] == [];
      Record(k, e, []);
    }
  }

  /** OSMboxPend up to OS_Sched. */
  method MboxPendBegin(k: Kernel, e: nat, timeout: nat) returns (msg: int)
    requires k.Valid() && CoreInv(k.s) && Calling(k.s) && IsMailbox(k.s, e)
    modifies k.Repr()
    ensures k.Valid() && k.s == MsgPend(old(k.s), e, timeout)
    ensures msg == if old(k.s).ev[e].kind.msgs == [] then NULL_MSG else old(k.s).ev[e].kind.msgs[0]
  {
    OsCore.LiveIsFit(k.s, k.cur);
    msg := NULL_MSG;
    if k.events.kinds[e].msgs != [] {
      msg := k.events.kinds[e].msgs[0];
      assert k.s.ev[e].kind.msgs[1..] == [];
      Record(k, e, []);
    } else {
      OsCore.EventTaskWait(k, e, k.events.kinds[e].bit, timeout);
    }
  }

  /** OSMboxPostOpt with OS_POST_OPT_BROADCAST. */
  method MboxBroadcast(k: Kernel, e: nat, msg: int) returns (err: Err, waiting: bool)
    requires k.Valid() && CoreInv(k.s) && IsMailbox(k.s, e) && msg != NULL_MSG
    modifies k.Repr()
    ensures k.Valid() && k.s == MsgBroadcast(old(k.s), e, msg, false)
    ensures err == if Full(old(k.s), e) then QueueFull else NoErr
    ensures waiting <==> old(k.s).ev[e].waiters != {}
    ensures waiting ==> AllServed(old(k.s), k.s, e, msg, old(k.s).ev[e].kind.bit)
  {
    waiting := k.Waited(e);
    if waiting {
      DeliverAll(k, e, msg);
      err := NoErr;
    } else {
      err, waiting := MboxPost(k, e, msg);
    }
  }
}
