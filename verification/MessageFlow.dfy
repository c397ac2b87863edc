/** Messages through queues and mailboxes over whole runs: first in, first out, and none lost or
    duplicated, with any mix of waiting, timing out, and taking at once. */
module MessageFlow {
  import opened IndexLists
  import opened KernelState
  import opened KernelInvariant
  import opened MutexInvariant
  import opened KernelRuns
  import opened Bystanders

  // ---------------------------------------------------------------- no task waits beside a message

  /** A queue that holds messages has no waiters, and it holds no more than it can. */
  ghost predicate QueueOk(ev: Event)
  {
    ev.kind.Messages? ==> (ev.kind.msgs != [] ==> ev.waiters == {}) && |ev.kind.msgs| <= ev.kind.size
  }

  ghost predicate QueuesOk(s: State)
  {
    forall e: nat :: e < |s.ev| ==> QueueOk(s.ev[e])
  }

  lemma QueuesStayOk(s: State, s': State)
    requires QueuesOk(s) && QueuesKept(s, s')
    ensures QueuesOk(s')
  {
    forall e: nat | e < |s'.ev|
      ensures QueueOk(s'.ev[e])
    {
      assert QueueKept(s.ev[e], s'.ev[e]) && QueueOk(s.ev[e]);
    }
  }

  /** A service on queue e leaves the other events alone. */
  ghost predicate OnlyQueue(s: State, s': State, e: nat)
  {
    |s'.ev| == |s.ev| && forall f: nat :: f < |s.ev| && f != e ==> s'.ev[f] == s.ev[f]
  }

  lemma {:induction false} ReadyAllQueue(s: State, e: nat, msg: int, bit: StatBit)
    requires e < |s.ev|
    ensures OnlyQueue(s, ReadyAll(s, e, msg, bit), e)
    ensures ReadyAll(s, e, msg, bit).ev[e].kind == s.ev[e].kind
    decreases s.ev[e].waiters
  {
    if s.ev[e].waiters != {} && FirstWaiter(s, e) < |s.tcb| {
      ReadyAllQueue(EventTaskRdy(s, e, msg, bit), e, msg, bit);
    }
  }

  /** The event an operation on messages is about. */
  ghost function EventOf(s: State, op: MsgOp): nat
  {
    match op
    case NewMsg(_, _, _) => if s.freeEvs != [] then s.freeEvs[0] else 0
    case Post(e, _, _) => e
    case Broadcast(e, _, _) => e
    case Accept(e) => e
    case Pend(e, _) => e
    case Flush(e) => e
    case DelMsg(e, _) => e
  }

  lemma MsgPostQueue(s: State, e: nat, msg: int, front: bool)
    requires Inv(s) && QueuesOk(s) && IsMessages(s, e)
    ensures OnlyQueue(s, MsgPost(s, e, msg, front), e) && QueueOk(MsgPost(s, e, msg, front).ev[e])
  {
    assert QueueOk(s.ev[e]);
    if s.ev[e].waiters != {} {
      WaiterFound(s, e);
    }
  }

  lemma MsgStepQueue(s: State, op: MsgOp)
    requires Inv(s) && QueuesOk(s) && MsgEnabled(s, op)
    ensures var e := EventOf(s, op);
            OnlyQueue(s, MsgStep(s, op), e) && (e < |s.ev| ==> QueueOk(MsgStep(s, op).ev[e]))
  {
    Grounds(s);
    var e := EventOf(s, op);
    assert e < |s.ev| ==> QueueOk(s.ev[e]);
    match op
    case NewMsg(_, _, _) =>
    case Post(_, msg, front) => MsgPostQueue(s, e, msg, front);
    case Broadcast(_, msg, front) =>
      MsgPostQueue(s, e, msg, front);
      ReadyAllQueue(s, e, msg, s.ev[e].kind.bit);
      ReadyAllKeeps(s, e, msg);
    case Accept(_) =>
    case Pend(_, _) =>
    case Flush(_) =>
    case DelMsg(_, always) => ReadyAllQueue(s, e, NULL_MSG, s.ev[e].kind.bit);
  }

  lemma StepKeepsQueues(s: State, op: Op)
    requires Inv(s) && QueuesOk(s) && Enabled(s, op)
    ensures QueuesOk(Step(s, op))
  {
    Grounds(s);
    match op
    case OnTask(o) =>
      if o.EndDelete? {
        DelEndAside(s);
      } else {
        TaskStepAside(s, o);
      }
      QueuesStayOk(s, Step(s, op));
    case OnMutex(o) => MutexStepAside(s, o); QueuesStayOk(s, Step(s, op));
    case OnMsg(o) =>
      MsgStepQueue(s, o);
      forall f: nat | f < |s.ev|
        ensures QueueOk(Step(s, op).ev[f])
      {
        assert QueueOk(s.ev[f]);
      }
    case OnFlags(o) => FlagStepEvents(s, o); QueuesStayOk(s, Step(s, op));
    case EndPend => PendResumeEvents(s); QueuesStayOk(s, Step(s, op));
  }

  lemma {:induction false} RunKeepsQueues(s: State, ops: seq<Op>)
    requires Inv(s) && QueuesOk(s) && Legal(s, ops)
    ensures QueuesOk(After(s, ops))
    decreases |ops|
  {
    if ops != [] {
      StepKeepsInv(s, ops[0]);
      StepKeepsQueues(s, ops[0]);
      RunKeepsQueues(Step(s, ops[0]), ops[1..]);
    }
  }

  /** In every state the kernel can reach, a queue or mailbox with a message has no waiter. */
  lemma NoWaiterBesideMessage(s: State, e: nat)
    requires Reachable(s) && IsMessages(s, e)
    ensures s.ev[e].kind.msgs != [] ==> s.ev[e].waiters == {}
    ensures |s.ev[e].kind.msgs| <= s.ev[e].kind.size
  {
    var tasks: nat, events: nat, groups: nat, ops: seq<Op> :| IsRun(tasks, events, groups, ops, s);
    BootInv(tasks, events, groups);
    RunKeepsQueues(Boot(tasks, events, groups), ops);
    assert QueueOk(s.ev[e]);
  }

  // ---------------------------------------------------------------- the ledger of one queue

  /** What an observer of queue e writes down: the messages whose post was accepted, the messages
      handed out so far, and those that a task has been handed but not returned with. */
  datatype Ledger = Ledger(sent: seq<int>, given: seq<int>, carried: map<nat, int>)

  /** Operations that may accompany the plain use of queue e by OSQPost, OSQAccept and OSQPend:
      anything else on other events, but on e no posting to the front, broadcasting, flushing or
      deleting, and no deletion of a task that carries a message of e to its end. */
  ghost predicate Plain(s: State, op: Op, e: nat)
  {
    && (op.OnMsg? ==>
          match op.msg
          case Post(f, _, front) => f == e ==> !front
          case Broadcast(f, _, _) => f != e
          case Flush(f) => f != e
          case DelMsg(f, _) => f != e
          case _ => true)
    && (op.OnTask? && op.task.EndDelete? ==> forall t: nat :: IsDying(s, t) ==> !Carries(s, t, e))
  }

  /** The entry for one step. What a post hands out, and to whom, is read off the wait list. */
  ghost function Entry(s: State, op: Op, e: nat, l: Ledger): Ledger
    requires Inv(s) && IsMessages(s, e)
  {
    var k := s.ev[e].kind;
    if op.OnMsg? && op.msg.Post? && op.msg.e == e then
      if s.ev[e].waiters != {} then
        l.(sent := l.sent + [op.msg.msg], given := l.given + [op.msg.msg], carried := l.carried[FirstWaiter(s, e) := op.msg.msg])
      else if |k.msgs| < k.size then l.(sent := l.sent + [op.msg.msg])
      else l
    else if op.OnMsg? && (op.msg.Accept? || op.msg.Pend?) && op.msg.e == e && k.msgs != [] then
      l.(given := l.given + [k.msgs[0]])
    else if op.EndPend? && Carries(s, s.cur, e) then l.(carried := l.carried - {s.cur})
    else l
  }

  /** The accepted posts are the messages handed out followed by those in the queue, in order; and
      whoever carries a message carries the one that was handed to it. */
  ghost predicate Balanced(s: State, e: nat, l: Ledger)
  {
    && IsMessages(s, e) && l.sent == l.given + s.ev[e].kind.msgs
    && (forall t: nat :: t in l.carried <==> Carries(s, t, e))
    && (forall t: nat :: t in l.carried ==> t < |s.tcb| && s.tcb[t].msg == l.carried[t])
  }

  lemma OtherStepBalanced(s: State, s': State, e: nat, l: Ledger)
    requires Balanced(s, e, l) && MessagesKept(s, s')
    ensures Balanced(s', e, l)
  {
    assert QueueKept(s.ev[e], s'.ev[e]);
    assert forall t: nat :: Carries(s', t, e) ==> t < |s'.tcb|;
  }

  lemma TaskStepBalanced(s: State, op: TaskOp, e: nat, l: Ledger)
    requires Inv(s) && TaskEnabled(s, op) && Plain(s, OnTask(op), e) && Balanced(s, e, l)
    ensures Balanced(TaskStep(s, op), e, l)
  {
    Grounds(s);
    if op.EndDelete? {
      var s' := TaskStep(s, op);
      DelEndAside(s);
      assert QueueKept(s.ev[e], s'.ev[e]);
      forall t: nat
        ensures Carries(s', t, e) <==> Carries(s, t, e)
      {
      }
    } else {
      TaskStepAside(s, op);
      OtherStepBalanced(s, TaskStep(s, op), e, l);
    }
  }

  /** What a post to a waiter does to the tasks that carry messages of e. */
  lemma DeliveryCarried(s: State, e: nat, msg: int)
    requires Inv(s) && IsMessages(s, e) && s.ev[e].waiters != {}
    ensures FirstWaiter(s, e) < |s.tcb|
    ensures var s', t0 := EventTaskRdy(s, e, msg, s.ev[e].kind.bit), FirstWaiter(s, e);
            && Carries(s', t0, e) && s'.tcb[t0].msg == msg
            && (forall t: nat :: t != t0 ==> (Carries(s', t, e) <==> Carries(s, t, e)))
            && (forall t: nat :: t != t0 && t < |s.tcb| ==> s'.tcb[t] == s.tcb[t])
            && s'.ev[e].kind == s.ev[e].kind
  {
    WaiterFound(s, e);
    assert EventOk(s, e);
  }

  lemma PostBalanced(s: State, e: nat, msg: int, l: Ledger)
    requires Inv(s) && QueuesOk(s) && IsMessages(s, e) && Balanced(s, e, l)
    ensures Balanced(MsgPost(s, e, msg, false), e, Entry(s, OnMsg(Post(e, msg, false)), e, l))
  {
    assert QueueOk(s.ev[e]);
    var s', l' := MsgPost(s, e, msg, false), Entry(s, OnMsg(Post(e, msg, false)), e, l);
    if s.ev[e].waiters != {} {
      DeliveryCarried(s, e, msg);
      assert l.sent + [msg] == l.given + [msg] + [];
    } else {
      assert l.given + s.ev[e].kind.msgs + [msg] == l.given + (s.ev[e].kind.msgs + [msg]);
      SameCarriers(s, s', e);
    }
  }

  lemma SameCarriers(s: State, s': State, e: nat)
    requires s'.tcb == s.tcb && s'.phase == s.phase && s'.list == s.list
    ensures forall t: nat :: Carries(s', t, e) <==> Carries(s, t, e)
  {
  }

  lemma TakeBalanced(s: State, e: nat, l: Ledger)
    requires IsMessages(s, e) && Balanced(s, e, l) && s.ev[e].kind.msgs != []
    ensures var k := s.ev[e].kind;
            Balanced(SetKind(s, e, SetMsgs(k, k.msgs[1..])), e, l.(given := l.given + [k.msgs[0]]))
  {
    var k := s.ev[e].kind;
    assert l.given + k.msgs == l.given + [k.msgs[0]] + k.msgs[1..];
    SameCarriers(s, SetKind(s, e, SetMsgs(k, k.msgs[1..])), e);
  }

  lemma WaitBalanced(s: State, t: nat, e: nat, f: nat, bit: StatBit, timeout: nat, l: Ledger)
    requires IsMessages(s, e) && Balanced(s, e, l) && t < |s.tcb| && t < |s.phase| && s.phase[t] == User && f < |s.ev|
    ensures Balanced(Block(s, t, f, bit, timeout), e, l)
  {
    var s' := Block(s, t, f, bit, timeout);
    forall u: nat
      ensures Carries(s', u, e) <==> Carries(s, u, e)
    {
    }
  }

  // ---------------------------------------------------------------- the other queues

  lemma {:induction false} OtherReadyAllBalanced(s: State, f: nat, msg: int, e: nat, l: Ledger)
    requires CoreInv(s) && Balanced(s, e, l) && f < |s.ev| && f != e
    ensures Balanced(ReadyAll(s, f, msg, KindBit(s.ev[f].kind)), e, l)
    decreases s.ev[f].waiters
  {
    if s.ev[f].waiters != {} {
      OtherDeliveryBalanced(s, f, msg, e, l);
      EventTaskRdyKeeps(s, f, msg);
      OtherReadyAllBalanced(EventTaskRdy(s, f, msg, KindBit(s.ev[f].kind)), f, msg, e, l);
    }
  }

  lemma OtherDeliveryBalanced(s: State, f: nat, msg: int, e: nat, l: Ledger)
    requires CoreInv(s) && Balanced(s, e, l) && f < |s.ev| && f != e && s.ev[f].waiters != {}
    ensures FirstWaiter(s, f) < |s.tcb|
    ensures Balanced(EventTaskRdy(s, f, msg, KindBit(s.ev[f].kind)), e, l)
  {
    WaiterFound(s, f);
    var s' := EventTaskRdy(s, f, msg, KindBit(s.ev[f].kind));
    forall t: nat
      ensures Carries(s', t, e) <==> Carries(s, t, e)
    {
    }
  }

  lemma SameTasksBalanced(s: State, s': State, e: nat, l: Ledger)
    requires Balanced(s, e, l) && s'.tcb == s.tcb && s'.phase == s.phase && s'.list == s.list
    requires |s'.ev| == |s.ev| && s'.ev[e] == s.ev[e]
    ensures Balanced(s', e, l)
  {
    SameCarriers(s, s', e);
  }

  lemma OtherPostBalanced(s: State, f: nat, msg: int, front: bool, e: nat, l: Ledger)
    requires Inv(s) && IsMessages(s, f) && f != e && Balanced(s, e, l)
    ensures Balanced(MsgPost(s, f, msg, front), e, l) && Balanced(MsgBroadcast(s, f, msg, front), e, l)
  {
    if s.ev[f].waiters != {} {
      OtherDeliveryBalanced(s, f, msg, e, l);
      OtherReadyAllBalanced(s, f, msg, e, l);
    } else {
      SameTasksBalanced(s, MsgPost(s, f, msg, front), e, l);
    }
  }

  lemma OtherDelBalanced(s: State, f: nat, always: bool, e: nat, l: Ledger)
    requires Inv(s) && IsMessages(s, f) && f != e && Balanced(s, e, l)
    ensures Balanced(MsgDel(s, f, always), e, l)
  {
    if always {
      OtherReadyAllBalanced(s, f, NULL_MSG, e, l);
      ReadyAllQueue(s, f, NULL_MSG, s.ev[f].kind.bit);
      SameTasksBalanced(ReadyAll(s, f, NULL_MSG, s.ev[f].kind.bit), MsgDel(s, f, always), e, l);
    } else {
      SameTasksBalanced(s, MsgDel(s, f, always), e, l);
    }
  }

  lemma OtherPendBalanced(s: State, f: nat, timeout: nat, e: nat, l: Ledger)
    requires Inv(s) && IsMessages(s, f) && f != e && Balanced(s, e, l) && Calling(s)
    ensures Balanced(MsgPend(s, f, timeout), e, l)
  {
    if s.ev[f].kind.msgs != [] {
      SameTasksBalanced(s, MsgPend(s, f, timeout), e, l);
    } else {
      WaitBalanced(s, s.cur, e, f, s.ev[f].kind.bit, timeout, l);
    }
  }

  lemma NewQueueBalanced(s: State, bit: StatBit, size: nat, msgs: seq<int>, e: nat, l: Ledger)
    requires Inv(s) && Balanced(s, e, l) && (s.freeEvs != [] ==> s.freeEvs[0] < |s.ev|)
    ensures Balanced(MsgCreate(s, bit, size, msgs), e, l)
  {
    if s.freeEvs != [] {
      assert EventOk(s, s.freeEvs[0]) && s.freeEvs[0] in s.freeEvs;
    }
    SameTasksBalanced(s, MsgCreate(s, bit, size, msgs), e, l);
  }

  lemma OtherQueueBalanced(s: State, op: MsgOp, e: nat, l: Ledger)
    requires Inv(s) && MsgEnabled(s, op) && Balanced(s, e, l) && (op.NewMsg? || op.e != e)
    ensures Balanced(MsgStep(s, op), e, l)
  {
    Grounds(s);
    match op
    case NewMsg(bit, size, msgs) => NewQueueBalanced(s, bit, size, msgs, e, l);
    case Post(f, msg, front) => OtherPostBalanced(s, f, msg, front, e, l);
    case Broadcast(f, msg, front) => OtherPostBalanced(s, f, msg, front, e, l);
    case Accept(f) => SameTasksBalanced(s, MsgAccept(s, f), e, l);
    case Pend(f, timeout) => OtherPendBalanced(s, f, timeout, e, l);
    case Flush(f) => SameTasksBalanced(s, MsgFlush(s, f), e, l);
    case DelMsg(f, always) => OtherDelBalanced(s, f, always, e, l);
  }

  lemma QueueStepBalanced(s: State, op: MsgOp, e: nat, l: Ledger)
    requires Inv(s) && QueuesOk(s) && MsgEnabled(s, op) && Plain(s, OnMsg(op), e) && Balanced(s, e, l)
    ensures Balanced(MsgStep(s, op), e, Entry(s, OnMsg(op), e, l))
  {
    if op.NewMsg? || op.e != e {
      OtherQueueBalanced(s, op, e, l);
    } else if op.Post? {
      PostBalanced(s, e, op.msg, l);
    } else if s.ev[e].kind.msgs != [] {
      TakeBalanced(s, e, l);
    } else if op.Pend? {
      WaitBalanced(s, s.cur, e, e, s.ev[e].kind.bit, op.timeout, l);
    }
  }

  // ---------------------------------------------------------------- returning with a message

  /** What OSQPend and OSMboxPend return after they have waited. */
  ghost function Returned(s: State): int
    requires s.cur < |s.tcb|
  {
    if s.tcb[s.cur].pendTO then NULL_MSG else s.tcb[s.cur].msg
  }

  /** The pend returns just the message its task was handed. */
  lemma ReturnsWhatItCarries(s: State, e: nat, l: Ledger)
    requires Inv(s) && Enabled(s, EndPend) && Balanced(s, e, l) && Carries(s, s.cur, e)
    ensures s.cur in l.carried && Returned(s) == l.carried[s.cur]
  {
    LiveTask(s, s.cur);
  }

  lemma ResumeBalanced(s: State, e: nat, l: Ledger)
    requires Inv(s) && Enabled(s, EndPend) && s.phase[s.cur].e < |s.ev| && Balanced(s, e, l)
    ensures Balanced(PendResume(s), e, Entry(s, EndPend, e, l))
  {
    PendResumeEvents(s);
    assert QueueKept(s.ev[e], PendResume(s).ev[e]);
    CarriersAfterResume(s, e);
  }

  lemma CarriersAfterResume(s: State, e: nat)
    requires Enabled(s, EndPend) && s.phase[s.cur].e < |s.ev|
    ensures forall t: nat :: Carries(PendResume(s), t, e) <==> t != s.cur && Carries(s, t, e)
    ensures forall t: nat :: t < |s.tcb| && t != s.cur ==> PendResume(s).tcb[t] == s.tcb[t]
  {
  }

  lemma StepBalanced(s: State, op: Op, e: nat, l: Ledger)
    requires Inv(s) && QueuesOk(s) && Enabled(s, op) && Plain(s, op, e) && Balanced(s, e, l)
    ensures Balanced(Step(s, op), e, Entry(s, op, e, l))
  {
    Grounds(s);
    match op
    case OnTask(o) => TaskStepBalanced(s, o, e, l);
    case OnMutex(o) => MutexStepAside(s, o); OtherStepBalanced(s, Step(s, op), e, l);
    case OnMsg(o) => QueueStepBalanced(s, o, e, l);
    case OnFlags(o) => FlagStepEvents(s, o); OtherStepBalanced(s, Step(s, op), e, l);
    case EndPend => ResumeBalanced(s, e, l);
  }

  // ---------------------------------------------------------------- runs

  ghost predicate PlainRun(s: State, ops: seq<Op>, e: nat)
    requires Inv(s) && Legal(s, ops)
    decreases |ops|
  {
    ops == [] || (Plain(s, ops[0], e) && (StepKeepsInv(s, ops[0]); PlainRun(Step(s, ops[0]), ops[1..], e)))
  }

  ghost function Entries(s: State, ops: seq<Op>, e: nat, l: Ledger): Ledger
    requires Inv(s) && QueuesOk(s) && Legal(s, ops) && PlainRun(s, ops, e) && Balanced(s, e, l)
    decreases |ops|
  {
    if ops == [] then l
    else
      StepKeepsInv(s, ops[0]);
      StepKeepsQueues(s, ops[0]);
      StepBalanced(s, ops[0], e, l);
      Entries(Step(s, ops[0]), ops[1..], e, Entry(s, ops[0], e, l))
  }

  /** A queue starts with an empty ledger, unless a task is still to return from a former one that
      had the same event control block. */
  lemma FreshQueue(s: State, bit: StatBit, size: nat, msgs: seq<int>)
    requires Inv(s) && MsgEnabled(s, NewMsg(bit, size, msgs)) && s.freeEvs != []
    requires forall t: nat :: !Carries(s, t, s.freeEvs[0])
    ensures Balanced(MsgStep(s, NewMsg(bit, size, msgs)), s.freeEvs[0], Ledger(msgs, [], map[]))
  {
    Grounds(s);
    SameCarriers(s, MsgStep(s, NewMsg(bit, size, msgs)), s.freeEvs[0]);
  }

  /** Over any run with plain use of the queue: the accepted posts, in order, are the messages
      handed out followed by the contents of the ring, and every message handed to a waiting task
      is still with it or was returned by it. */
  lemma {:induction false} FirstInFirstOut(s: State, ops: seq<Op>, e: nat, l: Ledger)
    requires Inv(s) && QueuesOk(s) && Legal(s, ops) && PlainRun(s, ops, e) && Balanced(s, e, l)
    ensures Balanced(After(s, ops), e, Entries(s, ops, e, l))
    decreases |ops|
  {
    if ops != [] {
      StepKeepsInv(s, ops[0]);
      StepKeepsQueues(s, ops[0]);
      StepBalanced(s, ops[0], e, l);
      FirstInFirstOut(Step(s, ops[0]), ops[1..], e, Entry(s, ops[0], e, l));
    }
  }
}
