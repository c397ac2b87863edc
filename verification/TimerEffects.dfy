/** What the timer services do to the fields of a timer, from the arguments of the calls: the chain
    from OSTmrCreate over OSTmrStart to the ticks at which the timer fires, and the services that
    end it. */
module TimerEffects {
  import opened IndexLists
  import opened Arithmetic
  import opened TimerSpec

  // ---------------------------------------------------------------- one service

  /** All timers but i are as they were. */
  ghost predicate OnlyTimer(w: Wheel, w': Wheel, i: nat)
  {
    |w'.tmr| == |w.tmr| && w'.time == w.time && forall j :: 0 <= j < |w.tmr| && j != i ==> w'.tmr[j] == w.tmr[j]
  }

  /** No spoke leads to the timer. */
  ghost predicate OffTheWheel(w: Wheel, i: nat)
  {
    forall s :: 0 <= s < |w.spokes| ==> i !in w.spokes[s]
  }

  /** OSTmrCreate takes the first free timer, which gets each of its arguments in the field of that
      name and does not run yet; without a free timer nothing happens. */
  lemma CreateMakes(w: Wheel, dly: nat, period: nat, opt: TmrOpt, callback: Callback)
    requires Valid(w)
    ensures var w' := Create(w, dly, period, opt, callback);
            if w.free == [] then w' == w else
            var i := w.free[0];
            && OnlyTimer(w, w', i) && i < |w.tmr| && w.tmr[i].state.Unused? && w'.tmr[i].state.Stopped?
            && w'.tmr[i].dly == dly && w'.tmr[i].period == period
            && w'.tmr[i].opt == opt && w'.tmr[i].callback == callback
            && w.free == [i] + w'.free && w'.spokes == w.spokes
            && w'.used == w.used + 1 && w'.avail == w.avail - 1
  {
    if w.free != [] {
      assert w.free[0] in w.free;
    }
  }

  /** OSTmrStart: whatever the timer did, it now runs on the spoke of its match value and on no other,
      and that value is its delay from now on the 32-bit clock, or its period if it has no delay. */
  lemma StartRuns(w: Wheel, i: nat)
    requires Valid(w) && i < |w.tmr|
    ensures var w', t := Start(w, i), w.tmr[i];
            if t.state.Unused? then w' == w else
            && Valid(w') && OnlyTimer(w, w', i) && w'.free == w.free
            && w'.tmr[i].state.Running? && w'.tmr[i].dly == t.dly && w'.tmr[i].period == t.period
            && w'.tmr[i].opt == t.opt && w'.tmr[i].callback == t.callback
            && w'.tmr[i].expiry == (w.time + if t.dly != 0 then t.dly else t.period) % 0x1_0000_0000
            && forall s :: 0 <= s < 8 ==> (i in w'.spokes[s] <==> s == w'.tmr[i].expiry % 8)
  {
    if !w.tmr[i].state.Unused? {
      PoolPartitionKept(w, StartOp(i));
      RunsOnItsSpoke(Start(w, i), i);
    }
  }

  lemma RunsOnItsSpoke(w: Wheel, i: nat)
    requires Valid(w) && i < |w.tmr| && w.tmr[i].state.Running?
    ensures forall s :: 0 <= s < 8 ==> (i in w.spokes[s] <==> s == w.tmr[i].expiry % 8)
  {
    forall s | 0 <= s < 8
      ensures i in w.spokes[s] <==> s == w.tmr[i].expiry % 8
    {
      assert SpokeOk(w, s);
    }
  }

  lemma OthersAreOffTheWheel(w: Wheel, i: nat)
    requires Valid(w) && i < |w.tmr| && !w.tmr[i].state.Running?
    ensures OffTheWheel(w, i)
  {
    forall s | 0 <= s < |w.spokes|
      ensures i !in w.spokes[s]
    {
      assert SpokeOk(w, s);
    }
  }

  /** OSTmrStop takes a running timer off the wheel and leaves its other fields; it changes nothing
      for a timer that does not run. */
  lemma StopEnds(w: Wheel, i: nat)
    requires Valid(w) && i < |w.tmr|
    ensures var w', t := Stop(w, i), w.tmr[i];
            if !t.state.Running? then w' == w else
            && OnlyTimer(w, w', i) && OffTheWheel(w', i) && w'.free == w.free
            && w'.tmr[i].state.Stopped? && w'.tmr[i].dly == t.dly && w'.tmr[i].period == t.period
            && w'.tmr[i].opt == t.opt && w'.tmr[i].callback == t.callback
  {
    if w.tmr[i].state.Running? {
      UnlinkKeepsValid(w, i);
      OthersAreOffTheWheel(Stop(w, i), i);
    }
  }

  /** OSTmrDel takes a timer in use off the wheel and gives it back, with no callback; it changes
      nothing for an unused one. */
  lemma DeleteEnds(w: Wheel, i: nat)
    requires Valid(w) && i < |w.tmr|
    ensures var w' := Delete(w, i);
            if w.tmr[i].state.Unused? then w' == w else
            && OnlyTimer(w, w', i) && OffTheWheel(w', i) && w'.tmr[i].state.Unused? && w'.tmr[i].callback.NoCallback?
            && w'.free == [i] + w.free && w'.used == w.used - 1 && w'.avail == w.avail + 1
  {
    if !w.tmr[i].state.Unused? {
      PoolPartitionKept(w, DeleteOp(i));
      OthersAreOffTheWheel(Delete(w, i), i);
    }
  }

  /** OSTmrRemainGet on a stopped timer reads what it will read right after OSTmrStart, except for a
      one-shot timer that has a period and no delay. */
  lemma RemainForetells(w: Wheel, i: nat)
    requires Valid(w) && i < |w.tmr| && w.tmr[i].state.Stopped?
    ensures |Start(w, i).tmr| == |w.tmr|
    ensures var t := w.tmr[i];
            RemainOf(Start(w, i).tmr[i], Start(w, i).time) == RemainOf(t, w.time)
            <==> t.opt.Periodic? || t.dly != 0 || t.period == 0
  {
    StartRuns(w, i);
    StartedRemaining(w.tmr[i], w.time);
    assert Start(w, i).tmr[i] == Started(w.tmr[i], w.time, false);
  }

  // ---------------------------------------------------------------- from the arguments to the ticks

  /** The ticks before a timer fires first: its delay, or its period if it has no delay, and a full
      turn of the clock if it has neither. */
  function FirstAfter(dly: nat, period: nat): nat
  {
    if dly != 0 then dly else if period != 0 then period else 0x1_0000_0000
  }

  lemma CreatedThenStarted(w: Wheel, dly: nat, period: nat, opt: TmrOpt, callback: Callback)
    requires Valid(w) && dly < TWO32 && period < TWO32 && w.free != []
    ensures var i, w1 := w.free[0], Create(w, dly, period, opt, callback);
            && Valid(w1) && i < |w1.tmr| && !w1.tmr[i].state.Unused?
            && Starts([Start(w1, i)], i, FirstAfter(dly, period))
            && var t := Start(w1, i).tmr[i];
            t.dly == dly && t.period == period && t.opt == opt && t.callback == callback
  {
    CreateMakes(w, dly, period, opt, callback);
    CreateKeepsValid(w, dly, period, opt, callback);
    StartSetsTheDelay(Create(w, dly, period, opt, callback), w.free[0]);
  }

  /** Between the creation and the start, a timer stays as it was made. */
  lemma {:induction false} WaitsForStart(ws: seq<Wheel>, ops: seq<Op>, i: nat, a: nat, n: nat)
    requires IsRun(ws, ops) && a <= n <= |ops| && Valid(ws[a]) && i < |ws[a].tmr| && ws[a].tmr[i].state.Stopped?
    requires forall k :: a <= k < n ==> !Names(ops[k], i)
    ensures Valid(ws[n]) && i < |ws[n].tmr| && ws[n].tmr[i] == ws[a].tmr[i]
    decreases n
  {
    if n > a {
      WaitsForStart(ws, ops, i, a, n - 1);
      assert IsStep(ws, ops, n - 1);
      PoolPartitionKept(ws[n - 1], ops[n - 1]);
      OthersDoNotInterfere(ws[n - 1], ops[n - 1], i);
    }
  }

  lemma RestOfRun(ws: seq<Wheel>, ops: seq<Op>, a: nat)
    requires IsRun(ws, ops) && a <= |ops| && Valid(ws[a])
    ensures IsRun(ws[a..], ops[a..])
  {
    forall n | 0 <= n < |ops[a..]|
      ensures IsStep(ws[a..], ops[a..], n)
    {
      assert IsStep(ws, ops, a + n);
    }
  }

  /** The tick at which a periodic timer fires for the k-th time after the first. */
  function Expiry(k: nat, dly: nat, period: nat): nat
  {
    FirstAfter(dly, period) + k * if period != 0 then period else 0x1_0000_0000
  }

  /** The ticks at which a timer fires that is created and started with these arguments, counted from
      the start. */
  ghost predicate FiresAt(c: nat, dly: nat, period: nat, periodic: bool)
  {
    if periodic then exists k: nat :: c == Expiry(k, dly, period) else c == FirstAfter(dly, period)
  }

  lemma ScheduledIsFiresAt(c: nat, dly: nat, period: nat, periodic: bool)
    ensures Scheduled(c, FirstAfter(dly, period), Ticks(period), periodic) <==> FiresAt(c, dly, period, periodic)
  {
    var d, p := FirstAfter(dly, period), Ticks(period);
    if periodic {
      if c >= d && (c - d) % p == 0 {
        assert c == Expiry((c - d) / p, dly, period);
      }
      forall k: nat | c == Expiry(k, dly, period)
        ensures c >= d && (c - d) % p == 0
      {
        MulMonotone(0, k, p);
        RemainderIs(c - d, p, k, 0);
      }
    }
  }

  /** A timer that is created and started some services later carries its arguments. */
  lemma StartedAsCreated(ws: seq<Wheel>, ops: seq<Op>, i: nat, a: nat, b: nat)
    requires IsRun(ws, ops) && a < b < |ops|
    requires ops[a].CreateOp? && ws[a].free != [] && i == ws[a].free[0] && ops[b] == StartOp(i)
    requires forall k :: a < k < b ==> !Names(ops[k], i)
    ensures Valid(ws[b + 1]) && Starts([ws[b + 1]], i, FirstAfter(ops[a].dly, ops[a].period))
    ensures var t := ws[b + 1].tmr[i];
            t.period == ops[a].period && t.opt == ops[a].opt && t.callback == ops[a].callback
  {
    assert IsStep(ws, ops, a) && IsStep(ws, ops, b);
    CreateMakes(ws[a], ops[a].dly, ops[a].period, ops[a].opt, ops[a].callback);
    PoolPartitionKept(ws[a], ops[a]);
    WaitsForStart(ws, ops, i, a + 1, b);
    StartRuns(ws[b], i);
    StartSetsTheDelay(ws[b], i);
  }

  /** From the arguments to the ticks: in any run, let OSTmrCreate make timer i and OSTmrStart start it
      some services later, and let no other service name it. The tick service then fires it exactly at
      the ticks that its delay, period and option call for, counted from the start, and calls its
      callback function then if it has one. */
  lemma CreatedTimerFires(ws: seq<Wheel>, ops: seq<Op>, i: nat, a: nat, b: nat, n: nat)
    requires IsRun(ws, ops) && a < b < n < |ops| && ops[n].TickOp?
    requires ops[a].CreateOp? && ws[a].free != [] && i == ws[a].free[0] && ops[b] == StartOp(i)
    requires forall k :: a < k < |ops| && k != b ==> !Names(ops[k], i)
    ensures Valid(ws[n])
    ensures i in Fired(ws[n]) <==>
            FiresAt(TickCount(ops[b + 1..n]) + 1, ops[a].dly, ops[a].period, ops[a].opt.Periodic?)
    ensures i in Callbacks(ws[n]) <==> i in Fired(ws[n]) && ops[a].callback.Callback?
  {
    StartedAsCreated(ws, ops, i, a, b);
    RestOfRun(ws, ops, b + 1);
    assert ops[b + 1..n] == ops[b + 1..][..n - b - 1];
    FiresAsStarted(ws[b + 1..], ops[b + 1..], i, ops[a], n - b - 1);
  }

  lemma FiresAsStarted(ws: seq<Wheel>, ops: seq<Op>, i: nat, made: Op, n: nat)
    requires IsRun(ws, ops) && n < |ops| && ops[n].TickOp? && made.CreateOp?
    requires Starts([ws[0]], i, FirstAfter(made.dly, made.period))
    requires var t := ws[0].tmr[i]; t.period == made.period && t.opt == made.opt && t.callback == made.callback
    requires forall k :: 0 <= k < |ops| ==> !Names(ops[k], i)
    ensures Valid(ws[n])
    ensures i in Fired(ws[n]) <==> FiresAt(TickCount(ops[..n]) + 1, made.dly, made.period, made.opt.Periodic?)
    ensures i in Callbacks(ws[n]) <==> i in Fired(ws[n]) && made.callback.Callback?
  {
    var d := FirstAfter(made.dly, made.period);
    ExactExpiry(ws, ops, i, d, n);
    ScheduleAfter(ws, ops, i, d, n);
    ScheduledIsFiresAt(TickCount(ops[..n]) + 1, made.dly, made.period, made.opt.Periodic?);
    FiresExactlyTheDue(ws[n]);
    CallsBackOnce(ws[n]);
  }

  // ---------------------------------------------------------------- the end of a timer

  /** Only OSTmrStart makes a timer run. */
  lemma OnlyStartRuns(w: Wheel, op: Op, i: nat)
    requires Valid(w) && OpOk(w, op) && i < |w.tmr| && !w.tmr[i].state.Running? && op != StartOp(i)
    ensures |Step(w, op).tmr| == |w.tmr| && !Step(w, op).tmr[i].state.Running?
  {
    match op
    case TickOp => OneSpokeSuffices(w);
    case CreateOp(d, p, o, c) => CreateMakes(w, d, p, o, c);
    case StartOp(j) => StartRuns(w, j);
    case StopOp(j) => StopEnds(w, j);
    case DeleteOp(j) => DeleteEnds(w, j);
  }

  lemma {:induction false} StaysEnded(ws: seq<Wheel>, ops: seq<Op>, i: nat, a: nat, n: nat)
    requires IsRun(ws, ops) && a <= n <= |ops| && Valid(ws[a]) && i < |ws[a].tmr| && !ws[a].tmr[i].state.Running?
    requires forall k :: a <= k < n ==> ops[k] != StartOp(i)
    ensures Valid(ws[n]) && i < |ws[n].tmr| && !ws[n].tmr[i].state.Running?
    decreases n
  {
    if n > a {
      StaysEnded(ws, ops, i, a, n - 1);
      assert IsStep(ws, ops, n - 1);
      PoolPartitionKept(ws[n - 1], ops[n - 1]);
      OnlyStartRuns(ws[n - 1], ops[n - 1], i);
    }
  }

  /** After OSTmrStop or OSTmrDel a timer fires no more and its callback function is called no more,
      in any run, until it is started again. */
  lemma EndedTimerIsSilent(ws: seq<Wheel>, ops: seq<Op>, i: nat, a: nat, n: nat)
    requires IsRun(ws, ops) && a < n < |ops| && (ops[a] == StopOp(i) || ops[a] == DeleteOp(i))
    requires forall k :: a < k < n ==> ops[k] != StartOp(i)
    ensures Valid(ws[n]) && i !in Fired(ws[n]) && i !in Callbacks(ws[n])
  {
    assert IsStep(ws, ops, a);
    PoolPartitionKept(ws[a], ops[a]);
    StopEnds(ws[a], i);
    DeleteEnds(ws[a], i);
    StaysEnded(ws, ops, i, a + 1, n);
    FiresExactlyTheDue(ws[n]);
    CallsBackOnce(ws[n]);
  }
}
