/** What the timer services do to the wheel, on values: the pool of timers, the eight spokes as
    sequences of timer indices, and the list of free timers. */
module TimerSpec {
  import opened Arithmetic
  import opened IndexLists

  const WHEEL_SIZE: nat := 8
  const TWO32: nat := 0x1_0000_0000

  datatype TmrState = Unused | Stopped | Completed | Running
  datatype TmrOpt = NoOpt | OneShot | Periodic
  datatype Callback = NoCallback | Callback(fn: nat, arg: int)
  datatype Tmr = Tmr(state: TmrState, opt: TmrOpt, dly: nat, period: nat, expiry: nat, callback: Callback)

  /** OSTmrTime, OSTmrTbl, OSTmrWheelTbl, OSTmrFreeList, OSTmrUsed and OSTmrFree. The field
      OSTmrMatch is called expiry here. */
  datatype Wheel = Wheel(time: nat, tmr: seq<Tmr>, spokes: seq<seq<nat>>, free: seq<nat>, used: int, avail: int)

  datatype TmrErr = NoErr | NonAvail | Inactive | AlreadyStopped | MissingCallback | InvalidOpt | NameTooLong

  /** INT32U addition. */
  function Add32(a: nat, b: nat): nat
  {
    (a + b) % TWO32
  }

  ghost predicate TmrFits(t: Tmr)
  {
    t.dly < TWO32 && t.period < TWO32 && t.expiry < TWO32
  }

  /** A timer is on the spoke of its expiry time exactly while it runs, and on the free list
      exactly while it is unused; the two counters add up to the size of the pool. */
  ghost predicate Valid(w: Wheel)
  {
    && w.time < TWO32
    && |w.spokes| == WHEEL_SIZE
    && (forall i :: 0 <= i < |w.tmr| ==> TmrFits(w.tmr[i]))
    && (forall s :: 0 <= s < WHEEL_SIZE ==> SpokeOk(w, s))
    && (forall i :: 0 <= i < |w.tmr| && w.tmr[i].state.Running? ==> i in w.spokes[w.tmr[i].expiry % WHEEL_SIZE])
    && Distinct(w.free)
    && (forall i :: i in w.free ==> i < |w.tmr| && w.tmr[i].state.Unused?)
    && (forall i :: 0 <= i < |w.tmr| && w.tmr[i].state.Unused? ==> i in w.free)
    && w.avail == |w.free|
    && w.used + w.avail == |w.tmr|
  }

  ghost predicate SpokeOk(w: Wheel, s: nat)
    requires |w.spokes| == WHEEL_SIZE && s < WHEEL_SIZE
  {
    && Distinct(w.spokes[s])
    && forall i :: i in w.spokes[s] ==> i < |w.tmr| && w.tmr[i].state.Running? && w.tmr[i].expiry % WHEEL_SIZE == s
  }

  lemma SpokeWithin(w: Wheel, s: nat)
    requires Valid(w) && s < WHEEL_SIZE
    ensures SpokeOk(w, s) && Within(w.spokes[s], |w.tmr|)
    ensures forall k :: 0 <= k < |w.spokes[s]| ==> w.tmr[w.spokes[s][k]].state.Running?
  {
    forall k | 0 <= k < |w.spokes[s]|
      ensures w.spokes[s][k] < |w.tmr| && w.tmr[w.spokes[s][k]].state.Running?
    {
      assert w.spokes[s][k] in w.spokes[s];
    }
  }

  ghost predicate Within(l: seq<nat>, n: nat)
  {
    forall k :: 0 <= k < |l| ==> l[k] < n
  }

  // ---------------------------------------------------------------- linking and unlinking

  /** The fields of a timer that OSTmr_Link starts. */
  function Started(t: Tmr, time: nat, again: bool): Tmr
  {
    t.(state := Running, expiry := Add32(if again || t.dly == 0 then t.period else t.dly, time))
  }

  ghost function Link(w: Wheel, i: nat, again: bool): Wheel
    requires |w.spokes| == WHEEL_SIZE && i < |w.tmr|
  {
    var t := Started(w.tmr[i], w.time, again);
    var s := t.expiry % WHEEL_SIZE;
    w.(tmr := w.tmr[i := t], spokes := w.spokes[s := [i] + w.spokes[s]])
  }

  ghost function Unlink(w: Wheel, i: nat): Wheel
    requires |w.spokes| == WHEEL_SIZE && i < |w.tmr|
  {
    var s := w.tmr[i].expiry % WHEEL_SIZE;
    w.(tmr := w.tmr[i := w.tmr[i].(state := Stopped)], spokes := w.spokes[s := Remove(w.spokes[s], i)])
  }

  lemma LinkKeepsValid(w: Wheel, i: nat, again: bool)
    requires Valid(w) && i < |w.tmr| && (w.tmr[i].state.Stopped? || w.tmr[i].state.Completed?)
    ensures Valid(Link(w, i, again))
  {
    var w' := Link(w, i, again);
    var s0 := w'.tmr[i].expiry % WHEEL_SIZE;
    forall s | 0 <= s < WHEEL_SIZE
      ensures SpokeOk(w', s)
    {
      assert SpokeOk(w, s);
    }
  }

  lemma UnlinkKeepsValid(w: Wheel, i: nat)
    requires Valid(w) && i < |w.tmr| && w.tmr[i].state.Running?
    ensures Valid(Unlink(w, i))
  {
    var w' := Unlink(w, i);
    var s0 := w.tmr[i].expiry % WHEEL_SIZE;
    assert SpokeOk(w, s0);
    RemoveMembers(w.spokes[s0], i);
    forall s | 0 <= s < WHEEL_SIZE
      ensures SpokeOk(w', s)
    {
      assert SpokeOk(w, s);
    }
  }

  // ---------------------------------------------------------------- one tick of the timer task

  /** What expiry does to one timer. */
  function Expired(t: Tmr, time: nat): Tmr
  {
    if t.opt.Periodic? then Started(t, time, true) else t.(state := Completed)
  }

  ghost function Expire(w: Wheel, i: nat): Wheel
    requires |w.spokes| == WHEEL_SIZE && i < |w.tmr|
  {
    var w1 := Unlink(w, i);
    if w.tmr[i].opt.Periodic? then Link(w1, i, true) else w1.(tmr := w1.tmr[i := w1.tmr[i].(state := Completed)])
  }

  /** The walk of OSTmr_Task along a spoke whose order was l when the walk began. */
  ghost function Walk(w: Wheel, l: seq<nat>): (w': Wheel)
    requires |w.spokes| == WHEEL_SIZE && Within(l, |w.tmr|)
    ensures |w'.spokes| == WHEEL_SIZE && |w'.tmr| == |w.tmr|
    decreases |l|
  {
    if l == [] then w
    else if w.tmr[l[0]].expiry == w.time then Walk(Expire(w, l[0]), l[1..])
    else Walk(w, l[1..])
  }

  ghost function Tick(w: Wheel): Wheel
    requires Valid(w)
  {
    var w1 := w.(time := Add32(w.time, 1));
    SpokeWithin(w, w1.time % WHEEL_SIZE);
    Walk(w1, w1.spokes[w1.time % WHEEL_SIZE])
  }

  /** The timers of l that expire at the given time, in walking order. */
  ghost function Expiring(tmr: seq<Tmr>, time: nat, l: seq<nat>): seq<nat>
    requires Within(l, |tmr|)
  {
    if l == [] then []
    else (if tmr[l[0]].expiry == time then [l[0]] else []) + Expiring(tmr, time, l[1..])
  }

  /** The timers one tick fires, in order. */
  ghost function Fired(w: Wheel): seq<nat>
    requires Valid(w)
  {
    var t := Add32(w.time, 1);
    SpokeWithin(w, t % WHEEL_SIZE);
    Expiring(w.tmr, t, w.spokes[t % WHEEL_SIZE])
  }

  /** Those of them that have a callback function. */
  ghost function Called(tmr: seq<Tmr>, time: nat, l: seq<nat>): seq<nat>
    requires Within(l, |tmr|)
  {
    if l == [] then []
    else
      (if tmr[l[0]].expiry == time && tmr[l[0]].callback.Callback? then [l[0]] else []) + Called(tmr, time, l[1..])
  }

  /** The callbacks one tick makes, in order. */
  ghost function Callbacks(w: Wheel): seq<nat>
    requires Valid(w)
  {
    var t := Add32(w.time, 1);
    SpokeWithin(w, t % WHEEL_SIZE);
    Called(w.tmr, t, w.spokes[t % WHEEL_SIZE])
  }

  /** Whether the next tick is the one a timer runs out at. */
  ghost predicate DueNext(t: Tmr, time: nat)
  {
    t.state.Running? && t.expiry == Add32(time, 1)
  }

  /** What one tick does to a single timer, with no mention of spokes. */
  ghost function TickTmr(t: Tmr, time: nat): Tmr
  {
    if DueNext(t, time) then Expired(t, Add32(time, 1)) else t
  }

  lemma ExpireEffect(w: Wheel, i: nat)
    requires Valid(w) && i < |w.tmr| && w.tmr[i].state.Running?
    ensures Valid(Expire(w, i))
    ensures Expire(w, i).tmr == w.tmr[i := Expired(w.tmr[i], w.time)]
    ensures Expire(w, i).time == w.time && Expire(w, i).free == w.free
  {
    UnlinkKeepsValid(w, i);
    var w1 := Unlink(w, i);
    LinkKeepsValid(w1, i, true);
    if !w.tmr[i].opt.Periodic? {
      var w' := Expire(w, i);
      forall s | 0 <= s < WHEEL_SIZE
        ensures SpokeOk(w', s)
      {
        assert SpokeOk(w1, s);
      }
    }
  }

  lemma {:induction false} WalkEffect(w: Wheel, l: seq<nat>)
    requires Valid(w) && Distinct(l) && Within(l, |w.tmr|)
    requires forall k :: 0 <= k < |l| ==> w.tmr[l[k]].state.Running?
    ensures Valid(Walk(w, l)) && Walk(w, l).time == w.time && Walk(w, l).free == w.free
    ensures forall x :: 0 <= x < |w.tmr| ==>
              Walk(w, l).tmr[x] == if x in l && w.tmr[x].expiry == w.time then Expired(w.tmr[x], w.time) else w.tmr[x]
    decreases |l|
  {
    if l != [] {
      assert l == [l[0]] + l[1..];
      assert l[0] !in l[1..] && forall k :: 0 <= k < |l[1..]| ==> l[1..][k] == l[k + 1] != l[0];
      if w.tmr[l[0]].expiry == w.time {
        ExpireEffect(w, l[0]);
        WalkEffect(Expire(w, l[0]), l[1..]);
      } else {
        WalkEffect(w, l[1..]);
      }
    }
  }

  /** One spoke is enough: although only the spoke of the new time is walked, and periodic timers
      are put back at the head of a spoke (possibly the walked one), every timer of the pool ends
      as if all of them had been examined. */
  lemma OneSpokeSuffices(w: Wheel)
    requires Valid(w)
    ensures Valid(Tick(w)) && Tick(w).time == Add32(w.time, 1) && Tick(w).free == w.free
    ensures |Tick(w).tmr| == |w.tmr|
    ensures forall x :: 0 <= x < |w.tmr| ==> Tick(w).tmr[x] == TickTmr(w.tmr[x], w.time)
  {
    var w1 := w.(time := Add32(w.time, 1));
    var s := w1.time % WHEEL_SIZE;
    forall r | 0 <= r < WHEEL_SIZE
      ensures SpokeOk(w1, r)
    {
      assert SpokeOk(w, r);
    }
    SpokeWithin(w, s);
    WalkEffect(w1, w1.spokes[s]);
  }

  lemma {:induction false} ExpiringMembers(tmr: seq<Tmr>, time: nat, l: seq<nat>)
    requires Distinct(l) && Within(l, |tmr|)
    ensures Distinct(Expiring(tmr, time, l))
    ensures forall x: nat :: x in Expiring(tmr, time, l) <==> x in l && x < |tmr| && tmr[x].expiry == time
  {
    if l != [] {
      ExpiringMembers(tmr, time, l[1..]);
      assert l == [l[0]] + l[1..];
      assert l[0] !in l[1..];
    }
  }

  /** A tick fires exactly the running timers that are due, each exactly once. */
  lemma FiresExactlyTheDue(w: Wheel)
    requires Valid(w)
    ensures Distinct(Fired(w))
    ensures forall x: nat :: x in Fired(w) <==> x < |w.tmr| && DueNext(w.tmr[x], w.time)
  {
    var t := Add32(w.time, 1);
    SpokeWithin(w, t % WHEEL_SIZE);
    ExpiringMembers(w.tmr, t, w.spokes[t % WHEEL_SIZE]);
  }

  lemma {:induction false} CalledMembers(tmr: seq<Tmr>, time: nat, l: seq<nat>)
    requires Distinct(l) && Within(l, |tmr|)
    ensures Distinct(Called(tmr, time, l))
    ensures forall x: nat :: x in Called(tmr, time, l) <==>
              x in l && x < |tmr| && tmr[x].expiry == time && tmr[x].callback.Callback?
  {
    if l != [] {
      CalledMembers(tmr, time, l[1..]);
      assert l == [l[0]] + l[1..];
      assert l[0] !in l[1..];
    }
  }

  /** A tick calls back exactly once for each running timer that is due and has a callback. */
  lemma CallsBackOnce(w: Wheel)
    requires Valid(w)
    ensures Distinct(Callbacks(w))
    ensures forall x: nat :: x in Callbacks(w) <==>
              x < |w.tmr| && DueNext(w.tmr[x], w.time) && w.tmr[x].callback.Callback?
  {
    var t := Add32(w.time, 1);
    SpokeWithin(w, t % WHEEL_SIZE);
    CalledMembers(w.tmr, t, w.spokes[t % WHEEL_SIZE]);
  }

  // ---------------------------------------------------------------- the services

  datatype StopOpt = StopQuietly | StopCallback | StopCallbackArg | StopOther

  datatype Op =
    | TickOp
    | CreateOp(dly: nat, period: nat, opt: TmrOpt, callback: Callback)
    | StartOp(i: nat)
    | StopOp(i: nat)
    | DeleteOp(i: nat)

  /** OSTmrCreate: the head of the free list becomes a stopped timer. */
  ghost function Create(w: Wheel, dly: nat, period: nat, opt: TmrOpt, callback: Callback): Wheel
    requires Valid(w)
  {
    if w.free == [] then w
    else
      var i := w.free[0];
      assert i in w.free;
      w.(tmr := w.tmr[i := w.tmr[i].(state := Stopped, opt := opt, dly := dly, period := period, callback := callback)],
      free := w.free[1..], used := w.used + 1, avail := w.avail - 1)
  }

  /** OSTmr_Free. The delay is not among the fields it clears. */
  ghost function Free(w: Wheel, i: nat): Wheel
    requires i < |w.tmr|
  {
    w.(tmr := w.tmr[i := w.tmr[i].(state := Unused, opt := NoOpt, period := 0, expiry := 0, callback := NoCallback)],
    free := [i] + w.free, used := w.used - 1, avail := w.avail + 1)
  }

  ghost function Start(w: Wheel, i: nat): Wheel
    requires Valid(w) && i < |w.tmr|
  {
    match w.tmr[i].state
    case Running => Link(Unlink(w, i), i, false)
    case Stopped => Link(w, i, false)
    case Completed => Link(w, i, false)
    case Unused => w
  }

  ghost function Stop(w: Wheel, i: nat): Wheel
    requires Valid(w) && i < |w.tmr|
  {
    if w.tmr[i].state.Running? then Unlink(w, i) else w
  }

  ghost function Delete(w: Wheel, i: nat): Wheel
    requires Valid(w) && i < |w.tmr|
  {
    match w.tmr[i].state
    case Running => Free(Unlink(w, i), i)
    case Stopped => Free(w, i)
    case Completed => Free(w, i)
    case Unused => w
  }

  ghost predicate OpOk(w: Wheel, op: Op)
  {
    match op
    case TickOp => true
    case CreateOp(d, p, _, _) => d < TWO32 && p < TWO32
    case StartOp(i) => i < |w.tmr|
    case StopOp(i) => i < |w.tmr|
    case DeleteOp(i) => i < |w.tmr|
  }

  ghost function Step(w: Wheel, op: Op): Wheel
    requires Valid(w) && OpOk(w, op)
  {
    match op
    case TickOp => Tick(w)
    case CreateOp(d, p, o, c) => Create(w, d, p, o, c)
    case StartOp(i) => Start(w, i)
    case StopOp(i) => Stop(w, i)
    case DeleteOp(i) => Delete(w, i)
  }

  lemma FreeKeepsValid(w: Wheel, i: nat)
    requires Valid(w) && i < |w.tmr| && (w.tmr[i].state.Stopped? || w.tmr[i].state.Completed?)
    ensures Valid(Free(w, i))
  {
    var w' := Free(w, i);
    forall s | 0 <= s < WHEEL_SIZE
      ensures SpokeOk(w', s)
    {
      assert SpokeOk(w, s);
    }
  }

  lemma CreateKeepsValid(w: Wheel, dly: nat, period: nat, opt: TmrOpt, callback: Callback)
    requires Valid(w) && dly < TWO32 && period < TWO32
    ensures Valid(Create(w, dly, period, opt, callback))
  {
    if w.free != [] {
      var w' := Create(w, dly, period, opt, callback);
      assert w.free == [w.free[0]] + w.free[1..];
      assert w.free[0] !in w.free[1..];
      assert forall i :: i in w'.free <==> i in w.free && i != w.free[0];
      assert SpokeOk(w, w.tmr[w.free[0]].expiry % WHEEL_SIZE);
      forall s | 0 <= s < WHEEL_SIZE
        ensures SpokeOk(w', s)
      {
        assert SpokeOk(w, s);
      }
    }
  }

  /** The pool stays partitioned whatever services are called: each timer is on the free list, on
      the single spoke of its expiry time, or stopped or completed and on no list. */
  lemma PoolPartitionKept(w: Wheel, op: Op)
    requires Valid(w) && OpOk(w, op)
    ensures Valid(Step(w, op)) && |Step(w, op).tmr| == |w.tmr|
  {
    match op
    case TickOp =>
      OneSpokeSuffices(w);
    case CreateOp(d, p, o, c) =>
      CreateKeepsValid(w, d, p, o, c);
    case StartOp(i) =>
      if w.tmr[i].state.Running? {
        UnlinkKeepsValid(w, i);
        LinkKeepsValid(Unlink(w, i), i, false);
      } else if !w.tmr[i].state.Unused? {
        LinkKeepsValid(w, i, false);
      }
    case StopOp(i) =>
      if w.tmr[i].state.Running? {
        UnlinkKeepsValid(w, i);
      }
    case DeleteOp(i) =>
      if w.tmr[i].state.Running? {
        UnlinkKeepsValid(w, i);
        FreeKeepsValid(Unlink(w, i), i);
      } else if !w.tmr[i].state.Unused? {
        FreeKeepsValid(w, i);
      }
  }

  // ---------------------------------------------------------------- when a timer fires

  /** OSTmrMatch - OSTmrTime in INT32U arithmetic. */
  function Remaining(t: Tmr, time: nat): nat
  {
    (t.expiry - time) % TWO32
  }

  /** What OSTmrRemainGet reads. */
  function RemainOf(t: Tmr, time: nat): nat
  {
    match t.state
    case Running => Remaining(t, time)
    case Stopped => if t.opt.Periodic? && t.dly == 0 then t.period else t.dly
    case Completed => 0
    case Unused => 0
  }

  /** A count of 0 ticks is a full turn of the 32-bit clock. */
  function Ticks(d: nat): nat
  {
    if d == 0 then TWO32 else d
  }

  ghost predicate Names(op: Op, i: nat)
  {
    match op
    case StartOp(j) => i == j
    case StopOp(j) => i == j
    case DeleteOp(j) => i == j
    case TickOp => false
    case CreateOp(_, _, _, _) => false
  }

  /** The wheel after the first n services of a run. */
  ghost predicate IsRun(ws: seq<Wheel>, ops: seq<Op>)
  {
    && |ws| == |ops| + 1
    && Valid(ws[0])
    && forall n :: 0 <= n < |ops| ==> IsStep(ws, ops, n)
  }

  ghost predicate IsStep(ws: seq<Wheel>, ops: seq<Op>, n: nat)
    requires n < |ops| && |ws| == |ops| + 1
  {
    Valid(ws[n]) && OpOk(ws[n], ops[n]) && ws[n + 1] == Step(ws[n], ops[n])
  }

  ghost function TickCount(ops: seq<Op>): nat
  {
    if ops == [] then 0 else TickCount(ops[..|ops| - 1]) + if ops[|ops| - 1].TickOp? then 1 else 0
  }

  /** The timer's own view: a tick is TickTmr, and services that name other timers do nothing. */
  lemma OthersDoNotInterfere(w: Wheel, op: Op, i: nat)
    requires Valid(w) && OpOk(w, op) && i < |w.tmr| && !w.tmr[i].state.Unused? && !Names(op, i)
    ensures |Step(w, op).tmr| == |w.tmr|
    ensures Step(w, op).tmr[i] == if op.TickOp? then TickTmr(w.tmr[i], w.time) else w.tmr[i]
    ensures Step(w, op).time == if op.TickOp? then Add32(w.time, 1) else w.time
  {
    if op.TickOp? {
      OneSpokeSuffices(w);
    }
  }

  /** Whether a timer with d ticks to run at the start and period p fires at the c-th tick. */
  ghost predicate Scheduled(c: nat, d: nat, p: nat, periodic: bool)
    requires p > 0
  {
    c >= d && if periodic then (c - d) % p == 0 else c == d
  }

  /** The ticks still to go after c of them, while the timer is alive. */
  ghost function ToGo(c: nat, d: nat, p: nat): nat
    requires p > 0
  {
    if c < d then d - c else p - (c - d) % p
  }

  ghost predicate OnSchedule(t: Tmr, time: nat, t0: Tmr, c: nat, d: nat)
  {
    var p := Ticks(t0.period);
    && t.opt == t0.opt && t.period == t0.period && t.callback == t0.callback
    && if t0.opt.Periodic? || c < d
       then t.state.Running? && 0 < ToGo(c, d, p) <= TWO32 && t.expiry == Add32(time, ToGo(c, d, p))
       else t.state.Completed?
  }

  lemma ToGoStep(c: nat, d: nat, p: nat)
    requires p > 0 && d > 0
    ensures ToGo(c, d, p) == 1 <==> Scheduled(c + 1, d, p, true)
    ensures ToGo(c, d, p) > 1 ==> ToGo(c + 1, d, p) == ToGo(c, d, p) - 1
    ensures ToGo(c, d, p) == 1 ==> ToGo(c + 1, d, p) == p
  {
    if c >= d {
      var q, r := (c - d) / p, (c - d) % p;
      assert c - d == p * q + r;
      if r + 1 < p {
        RemainderIs(c + 1 - d, p, q, r + 1);
      } else {
        assert c + 1 - d == p * (q + 1) + 0;
        RemainderIs(c + 1 - d, p, q + 1, 0);
      }
    } else if c + 1 == d {
      assert (c + 1 - d) % p == 0;
    }
  }

  /** Adding a distance of 1..2^32 on the 32-bit clock reaches the next time exactly when the
      distance is 1. */
  lemma ClockDistance(time: nat, k: nat)
    requires time < TWO32 && 0 < k <= TWO32
    ensures Add32(time, k) == Add32(time, 1) <==> k == 1
    ensures k > 1 ==> Add32(Add32(time, 1), k - 1) == Add32(time, k)
    ensures (Add32(time, k) - time) % TWO32 == k % TWO32
  {
  }

  lemma ScheduleStep(t: Tmr, time: nat, t0: Tmr, c: nat, d: nat)
    requires time < TWO32 && TmrFits(t0) && 0 < d <= TWO32 && OnSchedule(t, time, t0, c, d)
    ensures OnSchedule(TickTmr(t, time), Add32(time, 1), t0, c + 1, d)
    ensures DueNext(t, time) <==> Scheduled(c + 1, d, Ticks(t0.period), t0.opt.Periodic?)
  {
    var p := Ticks(t0.period);
    ToGoStep(c, d, p);
    if t0.opt.Periodic? || c < d {
      ClockDistance(time, ToGo(c, d, p));
      ClockDistance(Add32(time, 1), p);
    }
  }

  lemma ScheduleKept(w: Wheel, op: Op, i: nat, t0: Tmr, c: nat, d: nat)
    requires Valid(w) && OpOk(w, op) && i < |w.tmr| && !Names(op, i)
    requires TmrFits(t0) && 0 < d <= TWO32 && OnSchedule(w.tmr[i], w.time, t0, c, d)
    ensures Valid(Step(w, op)) && |Step(w, op).tmr| == |w.tmr|
    ensures OnSchedule(Step(w, op).tmr[i], Step(w, op).time, t0, c + if op.TickOp? then 1 else 0, d)
  {
    PoolPartitionKept(w, op);
    OthersDoNotInterfere(w, op, i);
    if op.TickOp? {
      ScheduleStep(w.tmr[i], w.time, t0, c, d);
    }
  }

  ghost predicate Starts(ws: seq<Wheel>, i: nat, d: nat)
  {
    && |ws| > 0 && i < |ws[0].tmr| && TmrFits(ws[0].tmr[i]) && ws[0].tmr[i].state.Running?
    && ws[0].time < TWO32
    && d == Ticks(Remaining(ws[0].tmr[i], ws[0].time))
  }

  lemma ScheduleAtStart(t: Tmr, time: nat)
    requires TmrFits(t) && time < TWO32 && t.state.Running?
    ensures OnSchedule(t, time, t, 0, Ticks(Remaining(t, time)))
  {
  }

  lemma {:induction false} ScheduleAfter(ws: seq<Wheel>, ops: seq<Op>, i: nat, d: nat, n: nat)
    requires IsRun(ws, ops) && n <= |ops| && Starts(ws, i, d)
    requires forall k :: 0 <= k < |ops| ==> !Names(ops[k], i)
    ensures |ws[n].tmr| == |ws[0].tmr| && Valid(ws[n])
    ensures OnSchedule(ws[n].tmr[i], ws[n].time, ws[0].tmr[i], TickCount(ops[..n]), d)
    decreases n
  {
    if n == 0 {
      ScheduleAtStart(ws[0].tmr[i], ws[0].time);
    } else {
      ScheduleAfter(ws, ops, i, d, n - 1);
      assert IsStep(ws, ops, n - 1);
      assert ops[..n][..n - 1] == ops[..n - 1];
      ScheduleKept(ws[n - 1], ops[n - 1], i, ws[0].tmr[i], TickCount(ops[..n - 1]), d);
    }
  }

  /** Exact expiry: take a timer with d ticks to run. Over any run whose services do not name it
      (other timers may be created, started, stopped and deleted, and the clock may wrap), the
      c-th tick fires it exactly when c is d, or, for a periodic timer, d plus a multiple of the
      period; until then OSTmrRemainGet reads the number of ticks still to go. */
  lemma ExactExpiry(ws: seq<Wheel>, ops: seq<Op>, i: nat, d: nat, n: nat)
    requires IsRun(ws, ops) && n < |ops| && Starts(ws, i, d)
    requires forall k :: 0 <= k < |ops| ==> !Names(ops[k], i)
    ensures |ws[n].tmr| == |ws[0].tmr| && Valid(ws[n])
    ensures var t, c := ws[0].tmr[i], TickCount(ops[..n]);
            && (ops[n].TickOp? ==> (i in Fired(ws[n]) <==> Scheduled(c + 1, d, Ticks(t.period), t.opt.Periodic?)))
            && (c < d ==> RemainOf(ws[n].tmr[i], ws[n].time) == (d - c) % TWO32)
  {
    var t, c := ws[0].tmr[i], TickCount(ops[..n]);
    ScheduleAfter(ws, ops, i, d, n);
    ScheduleStep(ws[n].tmr[i], ws[n].time, t, c, d);
    FiresExactlyTheDue(ws[n]);
    if c < d {
      ClockDistance(ws[n].time, ToGo(c, d, Ticks(t.period)));
    }
  }

  lemma StartedRemaining(t: Tmr, time: nat)
    requires TmrFits(t) && time < TWO32
    ensures Remaining(Started(t, time, false), time) == if t.dly == 0 then t.period else t.dly
  {
    var d := if t.dly == 0 then t.period else t.dly;
    if d != 0 {
      ClockDistance(time, d);
    } else {
      assert Add32(0, time) == time;
    }
  }

  /** A timer started with delay d has d ticks to run, and one started with delay 0 a period. */
  lemma StartSetsTheDelay(w: Wheel, i: nat)
    requires Valid(w) && i < |w.tmr| && !w.tmr[i].state.Unused?
    ensures Valid(Start(w, i)) && |Start(w, i).tmr| == |w.tmr| && Start(w, i).time == w.time
    ensures Starts([Start(w, i)], i, Ticks(if w.tmr[i].dly == 0 then w.tmr[i].period else w.tmr[i].dly))
  {
    PoolPartitionKept(w, StartOp(i));
    assert Start(w, i).tmr[i] == Started(w.tmr[i], w.time, false);
    StartedRemaining(w.tmr[i], w.time);
  }
}
