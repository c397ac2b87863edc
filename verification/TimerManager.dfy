/** The timer manager in the form it runs in: a static table of timers whose links make up a free
    list and eight doubly linked spokes, changed in place. Every method is proved against the
    functions of TimerSpec. The callers of these methods hold the timer lock. */
module TimerManager {
  import opened IndexLists
  import opened TimerSpec

  class TimerPool {
    const tbl: array<Tmr>       // OSTmrTbl, without its links
    const next: array<int>      // OSTmrNext
    const prev: array<int>      // OSTmrPrev
    const first: array<int>     // OSTmrWheelTbl[].OSTmrFirst
    const entries: array<int>   // OSTmrWheelTbl[].OSTmrEntries
    var freeList: int           // OSTmrFreeList
    var time: nat               // OSTmrTime
    var used: int               // OSTmrUsed
    var avail: int              // OSTmrFree
    ghost var spokes: seq<seq<nat>>
    ghost var free: seq<nat>

    ghost function Abs(): Wheel
      reads this, tbl
    {
      Wheel(time, tbl[..], spokes, free, used, avail)
    }

    ghost predicate Shape()
    {
      && next.Length == tbl.Length && prev.Length == tbl.Length
      && first.Length == WHEEL_SIZE && entries.Length == WHEEL_SIZE
      && next != prev && next != first && next != entries && prev != first && prev != entries && first != entries
    }

    /** The spoke is a well-formed doubly linked list of OSTmrEntries nodes. */
    ghost predicate Threaded(s: nat)
      requires Shape() && s < WHEEL_SIZE && |spokes| == WHEEL_SIZE
      reads this`spokes, next, prev, first, entries
    {
      && Chain(first[s], next[..], spokes[s])
      && BackLinks(prev[..], spokes[s])
      && entries[s] == |spokes[s]|
    }

    ghost predicate Valid()
      reads this, tbl, next, prev, first, entries
    {
      && Shape()
      && TimerSpec.Valid(Abs())
      && (forall s :: 0 <= s < WHEEL_SIZE ==> Threaded(s))
      && Chain(freeList, next[..], free)
    }

    /** OSTmr_Init: every timer is unused and on the free list, in table order. */
    constructor (size: nat)
      requires size > 0
      ensures Valid() && fresh(tbl) && fresh(next) && fresh(prev) && fresh(first) && fresh(entries)
      ensures Abs() == Wheel(0, seq(size, _ => BLANK), seq(WHEEL_SIZE, _ => []), Upto(size), 0, size)
    {
      tbl := new Tmr[size](_ => BLANK);
      var links := FreeLinks(size);
      next := links;
      prev := new int[size](_ => NIL);
      first := new int[WHEEL_SIZE](_ => NIL);
      entries := new int[WHEEL_SIZE](_ => 0);
      time, used, avail := 0, 0, size;
      freeList := 0;
      spokes := seq(WHEEL_SIZE, _ => []);
      free := Upto(size);
      new;
      assert tbl[..] == seq(size, _ => BLANK);
      forall s | 0 <= s < WHEEL_SIZE
        ensures Threaded(s) && SpokeOk(Abs(), s)
      {
      }
      forall k | 0 <= k < size
        ensures k in free
      {
        assert free[k] == k;
      }
    }

    /** OSTmr_Link */
    method Link(i: nat, again: bool)
      requires Valid() && i < tbl.Length && (tbl[i].state.Stopped? || tbl[i].state.Completed?)
      modifies this, tbl, next, prev, first, entries
      ensures Valid() && Abs() == TimerSpec.Link(old(Abs()), i, again)
    {
      LinkKeepsValid(Abs(), i, again);
      ghost var w, next0, prev0 := Abs(), next[..], prev[..];
      var t := tbl[i].(state := Running);
      if again {
        t := t.(expiry := Add32(t.period, time));
      } else if t.dly == 0 {
        t := t.(expiry := Add32(t.period, time));
      } else {
        t := t.(expiry := Add32(t.dly, time));
      }
      assert t == Started(tbl[i], time, again);
      tbl[i] := t;
      var s := t.expiry % WHEEL_SIZE;
      ghost var l := spokes[s];
      assert old(Threaded(s));
      assert SpokeOk(w, s);
      PutFirst(s, i, l);
      ghost var l' := [i] + l;
      spokes := spokes[s := l'];
      forall r | 0 <= r < WHEEL_SIZE && r != s
        ensures Threaded(r)
      {
        assert SpokeOk(w, r);
        assert old(Threaded(r));
        ListFrame(first[r], next0, prev0, spokes[r], next[..], prev[..]);
      }
      ChainFrame(freeList, next0, free, next[..]);
    }

    /** The end of OSTmr_Link: a timer always becomes the first of its spoke. */
    method PutFirst(s: nat, i: nat, ghost l: seq<nat>)
      requires Shape() && s < WHEEL_SIZE && i < tbl.Length && i !in l
      requires Chain(first[s], next[..], l) && BackLinks(prev[..], l) && entries[s] == |l|
      modifies next, prev, first, entries
      ensures Chain(first[s], next[..], [i] + l) && BackLinks(prev[..], [i] + l) && entries[s] == |l| + 1
      ensures forall r :: 0 <= r < WHEEL_SIZE && r != s ==> first[r] == old(first[r]) && entries[r] == old(entries[r])
      ensures forall x :: 0 <= x < tbl.Length && x != i && x !in l ==>
                next[x] == old(next[x]) && prev[x] == old(prev[x])
    {
      ghost var next0, prev0 := next[..], prev[..];
      ChainBounds(first[s], next0, l);
      if first[s] == NIL {
        first[s] := i;
        next[i] := NIL;
        entries[s] := 1;
      } else {
        var head := first[s];
        assert head in l;
        first[s] := i;
        next[i] := head;
        prev[head] := i;
        entries[s] := entries[s] + 1;
      }
      prev[i] := NIL;
      PushFront(At(l, 0), next0, l, i, next[..]);
      PushFrontBack(prev0, l, i, prev[..]);
    }

    /** OSTmr_Unlink */
    method Unlink(i: nat)
      requires Valid() && i < tbl.Length && tbl[i].state.Running?
      modifies this, tbl, next, prev, first, entries
      ensures Valid() && Abs() == TimerSpec.Unlink(old(Abs()), i)
      ensures next[i] == NIL && prev[i] == NIL
    {
      UnlinkKeepsValid(Abs(), i);
      ghost var w, next0, prev0 := Abs(), next[..], prev[..];
      var s := tbl[i].expiry % WHEEL_SIZE;
      ghost var l := spokes[s];
      assert Threaded(s);
      assert SpokeOk(w, s);
      ghost var k :| 0 <= k < |l| && l[k] == i;
      RemoveIsWithout(l, k);
      WithoutMembers(l, k);
      TakeAway(s, i, l, k);
      tbl[i] := tbl[i].(state := Stopped);
      spokes := spokes[s := Without(l, k)];
      forall r | 0 <= r < WHEEL_SIZE && r != s
        ensures Threaded(r)
      {
        assert SpokeOk(w, r);
        assert old(Threaded(r));
        ListFrame(first[r], next0, prev0, spokes[r], next[..], prev[..]);
      }
      ChainFrame(freeList, next0, free, next[..]);
    }

    /** The links of OSTmr_Unlink: past the timer to remove, and its own cleared. */
    method TakeAway(s: nat, i: nat, ghost l: seq<nat>, ghost k: nat)
      requires Shape() && s < WHEEL_SIZE && i < tbl.Length && k < |l| && l[k] == i
      requires Chain(first[s], next[..], l) && BackLinks(prev[..], l) && entries[s] == |l|
      modifies next, prev, first, entries
      ensures Chain(first[s], next[..], Without(l, k)) && BackLinks(prev[..], Without(l, k)) && entries[s] == |l| - 1
      ensures next[i] == NIL && prev[i] == NIL
      ensures forall r :: 0 <= r < WHEEL_SIZE && r != s ==> first[r] == old(first[r]) && entries[r] == old(entries[r])
      ensures forall x :: 0 <= x < tbl.Length && x !in l ==> next[x] == old(next[x]) && prev[x] == old(prev[x])
    {
      ghost var next0, prev0 := next[..], prev[..];
      assert Forward(next0, l, k) && Backward(prev0, l, k);
      ChainBounds(first[s], next0, l);
      if first[s] == i {
        assert k == 0;
        var ptmr1 := next[i];
        first[s] := ptmr1;
        if ptmr1 != NIL {
          assert l[k + 1] in l;
          prev[ptmr1] := NIL;
        }
      } else {
        var ptmr1 := prev[i];
        var ptmr2 := next[i];
        assert ptmr1 == l[k - 1] && l[k - 1] in l;
        next[ptmr1] := ptmr2;
        if ptmr2 != NIL {
          assert l[k + 1] in l;
          prev[ptmr2] := ptmr1;
        }
      }
      TakeOut(At(l, 0), next0, l, k, next[..]);
      TakeOutBack(prev0, l, k, prev[..]);
      WithoutMembers(l, k);
      ghost var next1, prev1 := next[..], prev[..];
      next[i] := NIL;
      prev[i] := NIL;
      entries[s] := entries[s] - 1;
      ListFrame(first[s], next1, prev1, Without(l, k), next[..], prev[..]);
    }

    /** The body of the walk for a timer that expires. */
    method Expire(i: nat)
      requires Valid() && i < tbl.Length && tbl[i].state.Running?
      modifies this, tbl, next, prev, first, entries
      ensures Valid() && Abs() == TimerSpec.Expire(old(Abs()), i)
    {
      ExpireEffect(Abs(), i);
      Unlink(i);
      if tbl[i].opt == Periodic {
        Link(i, true);
      } else {
        tbl[i] := tbl[i].(state := Completed);
        assert Abs() == TimerSpec.Expire(old(Abs()), i);
      }
    }

    /** One round of OSTmr_Task. The callbacks get the timer they were registered for and must not
        call timer services, since the task holds the timer lock; `calls` lists the timers called
        back for. */
    method Tick() returns (calls: seq<nat>)
      requires Valid()
      modifies this, tbl, next, prev, first, entries
      ensures Valid() && Abs() == TimerSpec.Tick(old(Abs()))
      ensures calls == Callbacks(old(Abs()))
    {
      ClockStepKeepsSpokes(Abs());
      time := Add32(time, 1);
      calls := [];
      var spoke := time % WHEEL_SIZE;
      ghost var w1 := Abs();
      ghost var l := spokes[spoke];
      ghost var rest := l;
      ghost var k: nat := 0;
      SpokeWithin(w1, spoke);
      assert Threaded(spoke);
      var ptmr := first[spoke];
      while ptmr != NIL
        invariant Valid() && ptmr == At(rest, 0)
        invariant k <= |spokes[spoke]| && rest == spokes[spoke][k..]
        invariant WalkProgress(Abs(), w1, l, rest, calls)
        decreases |rest|
      {
        NextOnSpoke(spoke, k);
        k := WalkOn(Abs(), w1, l, spoke, k, rest, calls);
        calls, ptmr := Visit(ptmr, calls);
        rest := rest[1..];
      }
    }

    /** The body of the loop of OSTmr_Task; the next timer of the spoke is read first because this one
        may be unlinked. */
    method Visit(ptmr: nat, calls: seq<nat>) returns (calls': seq<nat>, ptmrNext: int)
      requires Valid() && ptmr < tbl.Length && tbl[ptmr].state.Running?
      modifies this, tbl, next, prev, first, entries
      ensures Valid() && ptmrNext == old(next[ptmr])
      ensures var due := old(tbl[ptmr].expiry == time);
              && Abs() == (if due then TimerSpec.Expire(old(Abs()), ptmr) else old(Abs()))
              && calls' == calls + if due && old(tbl[ptmr].callback.Callback?) then [ptmr] else []
    {
      ptmrNext := next[ptmr];
      calls' := calls;
      if time == tbl[ptmr].expiry {
        if tbl[ptmr].callback.Callback? {
          calls' := calls + [ptmr];
        }
        Expire(ptmr);
      }
    }

    lemma NextOnSpoke(s: nat, k: nat)
      requires Valid() && s < WHEEL_SIZE && k < |spokes[s]|
      ensures var i := spokes[s][k];
              i < tbl.Length && tbl[i].state.Running? && next[i] == At(spokes[s], k + 1)
    {
      assert Threaded(s) && Forward(next[..], spokes[s], k);
      assert SpokeOk(Abs(), s) && spokes[s][k] in spokes[s];
    }

    /** OSTmr_Alloc and the initialisation in OSTmrCreate; NIL when the pool is exhausted. A name that
        does not fit is an error, but the timer exists. */
    method Create(dly: nat, period: nat, opt: TmrOpt, callback: Callback, nameFits: bool) returns (ptmr: int, err: TmrErr)
      requires Valid() && dly < TWO32 && period < TWO32
      modifies this, tbl, next, prev
      ensures Valid() && Abs() == TimerSpec.Create(old(Abs()), dly, period, opt, callback)
      ensures ptmr == NIL <==> old(free) == []
      ensures err == if ptmr == NIL then NonAvail else if nameFits then NoErr else NameTooLong
      ensures ptmr != NIL ==> ptmr == old(free)[0] && ptmr < tbl.Length
      ensures ptmr != NIL ==>
                var t := tbl[ptmr];
                t.state.Stopped? && t.dly == dly && t.period == period && t.opt == opt && t.callback == callback
    {
      if freeList == NIL {
        return NIL, NonAvail;
      }
      ghost var w := Abs();
      CreateKeepsValid(w, dly, period, opt, callback);
      ptmr := Alloc();
      tbl[ptmr] := tbl[ptmr].(state := Stopped, dly := dly, period := period, opt := opt, callback := callback);
      assert Abs() == TimerSpec.Create(w, dly, period, opt, callback);
      err := if nameFits then NoErr else NameTooLong;
    }

    /** OSTmr_Alloc, when a timer is free. The timer is on no list afterwards. */
    method Alloc() returns (ptmr: nat)
      requires Valid() && freeList != NIL
      modifies this`freeList, this`used, this`avail, this`free, next, prev
      ensures old(free) != [] && ptmr == old(free)[0] && ptmr < tbl.Length
      ensures free == old(free)[1..] && Chain(freeList, next[..], free)
      ensures used == old(used) + 1 && avail == old(avail) - 1
      ensures forall r :: 0 <= r < WHEEL_SIZE ==> Threaded(r)
    {
      ghost var w, next0, prev0 := Abs(), next[..], prev[..];
      assert Forward(next0, free, 0);
      TakeOut(freeList, next0, free, 0, next0);
      WithoutMembers(free, 0);
      ptmr := freeList;
      assert ptmr in free;
      freeList := next[ptmr];
      next[ptmr] := NIL;
      prev[ptmr] := NIL;
      used := used + 1;
      avail := avail - 1;
      free := Without(free, 0);
      ChainFrame(freeList, next0, free, next[..]);
      forall r | 0 <= r < WHEEL_SIZE
        ensures Threaded(r)
      {
        assert SpokeOk(w, r);
        assert old(Threaded(r));
        ListFrame(first[r], next0, prev0, spokes[r], next[..], prev[..]);
      }
    }

    /** OSTmr_Free */
    method Free(i: nat)
      requires Valid() && i < tbl.Length && (tbl[i].state.Stopped? || tbl[i].state.Completed?)
      modifies this, tbl, next, prev
      ensures Valid() && Abs() == TimerSpec.Free(old(Abs()), i)
    {
      ghost var w, next0, prev0 := Abs(), next[..], prev[..];
      FreeKeepsValid(w, i);
      tbl[i] := tbl[i].(state := Unused, opt := NoOpt, period := 0, expiry := 0, callback := NoCallback);
      prev[i] := NIL;
      next[i] := freeList;
      freeList := i;
      used := used - 1;
      avail := avail + 1;
      PushFront(At(free, 0), next0, free, i, next[..]);
      free := [i] + free;
      assert Abs() == TimerSpec.Free(w, i);
      forall r | 0 <= r < WHEEL_SIZE
        ensures Threaded(r)
      {
        assert SpokeOk(w, r);
        assert old(Threaded(r));
        ListFrame(first[r], next0, prev0, spokes[r], next[..], prev[..]);
      }
    }

    /** OSTmrStart */
    method Start(i: nat) returns (ok: bool, err: TmrErr)
      requires Valid() && i < tbl.Length
      modifies this, tbl, next, prev, first, entries
      ensures Valid() && Abs() == TimerSpec.Start(old(Abs()), i)
      ensures ok <==> !old(tbl[i]).state.Unused?
      ensures err == if ok then NoErr else Inactive
    {
      match tbl[i].state {
        case Running =>
          Unlink(i);
          Link(i, false);
          return true, NoErr;
        case Stopped =>
          Link(i, false);
          return true, NoErr;
        case Completed =>
          Link(i, false);
          return true, NoErr;
        case Unused =>
          return false, Inactive;
      }
    }

    /** OSTmrStop; `called` tells whether the callback function was called. */
    method Stop(i: nat, opt: StopOpt) returns (ok: bool, err: TmrErr, called: bool)
      requires Valid() && i < tbl.Length
      modifies this, tbl, next, prev, first, entries
      ensures Valid() && Abs() == TimerSpec.Stop(old(Abs()), i)
      ensures ok <==> !old(tbl[i]).state.Unused?
      ensures called <==> old(tbl[i]).state.Running? && (opt.StopCallback? || opt.StopCallbackArg?)
                          && old(tbl[i]).callback.Callback?
      ensures err == match old(tbl[i]).state
                     case Unused => Inactive
                     case Stopped => AlreadyStopped
                     case Completed => AlreadyStopped
                     case Running => if opt.StopQuietly? || called then NoErr
                                     else if opt.StopOther? then InvalidOpt else MissingCallback
    {
      called := false;
      match tbl[i].state {
        case Running =>
          Unlink(i);
          ok, err := true, NoErr;
          match opt {
            case StopCallback =>
              if tbl[i].callback.Callback? { called := true; } else { err := MissingCallback; }
            case StopCallbackArg =>
              if tbl[i].callback.Callback? { called := true; } else { err := MissingCallback; }
            case StopQuietly =>
            case StopOther =>
              err := InvalidOpt;
          }
        case Completed =>
          ok, err := true, AlreadyStopped;
        case Stopped =>
          ok, err := true, AlreadyStopped;
        case Unused =>
          ok, err := false, Inactive;
      }
    }

    /** OSTmrDel */
    method Delete(i: nat) returns (ok: bool, err: TmrErr)
      requires Valid() && i < tbl.Length
      modifies this, tbl, next, prev, first, entries
      ensures Valid() && Abs() == TimerSpec.Delete(old(Abs()), i)
      ensures ok <==> !old(tbl[i]).state.Unused?
      ensures err == if ok then NoErr else Inactive
    {
      match tbl[i].state {
        case Running =>
          Unlink(i);
          Free(i);
          return true, NoErr;
        case Stopped =>
          Free(i);
          return true, NoErr;
        case Completed =>
          Free(i);
          return true, NoErr;
        case Unused =>
          return false, Inactive;
      }
    }

    /** OSTmrRemainGet */
    method RemainGet(i: nat) returns (remain: nat, err: TmrErr)
      requires Valid() && i < tbl.Length
      ensures remain == RemainOf(tbl[i], time)
      ensures err == if tbl[i].state.Unused? then Inactive else NoErr
    {
      match tbl[i].state {
        case Running =>
          remain, err := (tbl[i].expiry - time) % TWO32, NoErr;
        case Stopped =>
          if tbl[i].opt == Periodic {
            if tbl[i].dly == 0 { remain := tbl[i].period; } else { remain := tbl[i].dly; }
          } else {
            remain := tbl[i].dly;
          }
          err := NoErr;
        case Completed =>
          remain, err := 0, NoErr;
        case Unused =>
          remain, err := 0, Inactive;
      }
    }
  }

  /** In the middle of a walk that began in w1 with the order l: the timers still to visit are as
      they were at the beginning, and finishing from here has the result of the whole walk. */
  ghost predicate WalkProgress(w: Wheel, w1: Wheel, l: seq<nat>, rest: seq<nat>, calls: seq<nat>)
  {
    && |w.spokes| == WHEEL_SIZE && |w1.spokes| == WHEEL_SIZE
    && w.time == w1.time && |w.tmr| == |w1.tmr|
    && Distinct(rest) && Within(rest, |w1.tmr|) && Within(l, |w1.tmr|)
    && (forall j :: 0 <= j < |rest| ==> w.tmr[rest[j]] == w1.tmr[rest[j]])
    && Walk(w, rest) == Walk(w1, l)
    && calls + Called(w1.tmr, w1.time, rest) == Called(w1.tmr, w1.time, l)
  }

  /** One timer further. The timers still to visit are what follows position k on the spoke as it is
      now: one position further if this one passes or is put back at the head of this spoke. */
  lemma WalkOn(w: Wheel, w1: Wheel, l: seq<nat>, spoke: nat, k: nat, rest: seq<nat>, calls: seq<nat>) returns (k': nat)
    requires TimerSpec.Valid(w) && spoke < WHEEL_SIZE && rest != []
    requires k <= |w.spokes[spoke]| && rest == w.spokes[spoke][k..]
    requires WalkProgress(w, w1, l, rest, calls)
    ensures var due := w.tmr[rest[0]].expiry == w.time;
            var w' := if due then TimerSpec.Expire(w, rest[0]) else w;
            && k' <= |w'.spokes[spoke]| && rest[1..] == w'.spokes[spoke][k'..]
            && WalkProgress(w', w1, l, rest[1..], calls + if due && w.tmr[rest[0]].callback.Callback? then [rest[0]] else [])
  {
    if w.tmr[rest[0]].expiry == w.time {
      k' := PositionAfterExpiry(w, spoke, k, rest);
      ProgressByExpiry(w, w1, l, rest, calls);
    } else {
      k' := k + 1;
      ProgressByPassing(w, w1, l, rest, calls);
    }
  }

  lemma PositionAfterExpiry(w: Wheel, spoke: nat, k: nat, rest: seq<nat>) returns (k': nat)
    requires TimerSpec.Valid(w) && spoke < WHEEL_SIZE && rest != []
    requires k <= |w.spokes[spoke]| && rest == w.spokes[spoke][k..]
    ensures rest[0] < |w.tmr|
    ensures var w' := TimerSpec.Expire(w, rest[0]);
            |w'.spokes| == WHEEL_SIZE && k' <= |w'.spokes[spoke]| && rest[1..] == w'.spokes[spoke][k'..]
  {
    var l, i := w.spokes[spoke], rest[0];
    assert SpokeOk(w, spoke) && l[k] == i && i in l;
    RemoveIsWithout(l, k);
    var l1 := Without(l, k);
    assert l1[k..] == rest[1..] && ([i] + l1)[k + 1..] == rest[1..];
    k' := if w.tmr[i].opt.Periodic? && Started(w.tmr[i], w.time, true).expiry % WHEEL_SIZE == spoke then k + 1 else k;
  }

  lemma ProgressByExpiry(w: Wheel, w1: Wheel, l: seq<nat>, rest: seq<nat>, calls: seq<nat>)
    requires WalkProgress(w, w1, l, rest, calls) && rest != [] && w.tmr[rest[0]].expiry == w.time
    ensures WalkProgress(TimerSpec.Expire(w, rest[0]), w1, l, rest[1..],
                         calls + if w.tmr[rest[0]].callback.Callback? then [rest[0]] else [])
  {
  }

  lemma ProgressByPassing(w: Wheel, w1: Wheel, l: seq<nat>, rest: seq<nat>, calls: seq<nat>)
    requires WalkProgress(w, w1, l, rest, calls) && rest != [] && w.tmr[rest[0]].expiry != w.time
    ensures WalkProgress(w, w1, l, rest[1..], calls)
  {
  }

  lemma ClockStepKeepsSpokes(w: Wheel)
    requires TimerSpec.Valid(w)
    ensures TimerSpec.Valid(w.(time := Add32(w.time, 1)))
  {
    var w1 := w.(time := Add32(w.time, 1));
    forall s | 0 <= s < WHEEL_SIZE
      ensures SpokeOk(w1, s)
    {
      assert SpokeOk(w, s);
    }
  }

  /** A list that shares no node with the changed ones is still threaded. */
  lemma ListFrame(head: int, next: seq<int>, prev: seq<int>, l: seq<nat>, next': seq<int>, prev': seq<int>)
    requires Chain(head, next, l) && BackLinks(prev, l) && |next'| == |next| && |prev'| == |prev|
    requires forall x :: x in l && x < |next| ==> next'[x] == next[x]
    requires forall x :: x in l && x < |prev| ==> prev'[x] == prev[x]
    ensures Chain(head, next', l) && BackLinks(prev', l)
  {
    ChainFrame(head, next, l, next');
    BackFrame(prev, l, prev');
  }

  const BLANK: Tmr := Tmr(Unused, NoOpt, 0, 0, 0, NoCallback)
}
