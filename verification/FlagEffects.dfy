/** What the event flag services do, flag by flag and task by task. */
module FlagEffects {
  import opened IndexLists
  import opened KernelState
  import opened KernelInvariant
  import opened MutexInvariant
  import opened KernelRuns
  import opened FlagFlow

  // ---------------------------------------------------------------- conditions

  /** What a task waits for, as the four wait types say it. */
  ghost predicate Holds(now: Flags, wanted: Flags, w: WaitType)
  {
    match w
    case SetAll => forall f :: f in wanted ==> f in now
    case SetAny => exists f :: f in wanted && f in now
    case ClrAll => forall f :: f in wanted ==> f !in now
    case ClrAny => exists f :: f in wanted && f !in now
  }

  /** Flag f is as a wait of that type wants it. */
  ghost predicate AsWanted(now: Flags, f: nat, w: WaitType)
  {
    match w
    case SetAll => f in now
    case SetAny => f in now
    case ClrAll => f !in now
    case ClrAny => f !in now
  }

  lemma ConditionMeaning(now: Flags, wanted: Flags, w: WaitType)
    ensures Satisfied(now, wanted, w) <==> Holds(now, wanted, w)
    ensures forall f :: f in FlagsMet(now, wanted, w) <==> f in wanted && AsWanted(now, f, w)
  {
    var met := FlagsMet(now, wanted, w);
    assert met <= wanted;
    assert forall f :: f in met <==> f in wanted && AsWanted(now, f, w);
    if forall f :: f in wanted ==> f in met {
      assert met == wanted;
    }
    if met != {} {
      var f :| f in met;
    }
    match w
    case SetAll =>
    case SetAny => assert Holds(now, wanted, w) <==> exists f :: f in met;
    case ClrAll =>
    case ClrAny => assert Holds(now, wanted, w) <==> exists f :: f in met;
  }

  /** Consuming flags makes them what they are not, and no other. */
  lemma ConsumingMeaning(now: Flags, rdy: Flags, w: WaitType)
    requires forall f :: f in rdy ==> AsWanted(now, f, w)
    ensures forall f :: f in Consumed(now, rdy, w) <==> if f in rdy then f !in now else f in now
  {
  }

  // ---------------------------------------------------------------- posting

  /** The flags that were named are set, or cleared, and the others stay. */
  ghost predicate SetOrCleared(now: Flags, was: Flags, flags: Flags, toSet: bool)
  {
    forall f :: f in now <==> if f in flags then toSet else f in was
  }

  /** The wait has ended: the node is off, and the task has the flags that are as it wanted them. */
  ghost predicate FlagServed(s: State, s': State, t: nat, now: Flags)
    requires t < |s.tcb| == |s'.tcb| && s.tcb[t].node.Some?
  {
    var x, y, nd := s.tcb[t], s'.tcb[t], s.tcb[t].node.value;
    && y.node == None && y.dly == 0 && !y.pendTO && y.stat == x.stat - {FlagBit}
    && y.prio == x.prio && y.event == x.event && y.msg == x.msg
    && (forall f :: f in y.flagsRdy <==> f in nd.flags && AsWanted(now, f, nd.wait))
    && (y.stat == {} ==> x.prio in s'.ready)
  }

  /** OSFlagPost: the flags, and then exactly the tasks whose condition holds under them. */
  lemma PostWakesExactly(s: State, g: nat, flags: Flags, toSet: bool)
    requires CoreInv(s) && g < |s.grp|
    ensures InTable(s, s.grp[g].waiters)
    ensures var s' := FlagPost(s, g, flags, toSet);
            && |s'.tcb| == |s.tcb| && |s'.grp| == |s.grp|
            && s' == s.(tcb := s'.tcb, ready := s'.ready, grp := s'.grp)
            && SetOrCleared(s'.grp[g].flags, s.grp[g].flags, flags, toSet)
            && (forall h: nat :: h < |s.grp| && h != g ==> s'.grp[h] == s.grp[h])
            && (forall t: nat :: t in s.grp[g].waiters ==> t < |s.tcb| && s.tcb[t].node.Some?)
            && (forall t: nat :: t in s.grp[g].waiters ==>
                  var nd := s.tcb[t].node.value;
                  if Holds(s'.grp[g].flags, nd.flags, nd.wait)
                  then t !in s'.grp[g].waiters && FlagServed(s, s', t, s'.grp[g].flags)
                  else t in s'.grp[g].waiters && s'.tcb[t] == s.tcb[t])
            && (forall t: nat :: t < |s.tcb| && t !in s.grp[g].waiters ==> s'.tcb[t] == s.tcb[t])
            && (forall t: nat :: t in s'.grp[g].waiters ==> t in s.grp[g].waiters)
  {
    PostIsExact(s, g, flags, toSet);
    WalkFrame(SetFlags(s, g, PostedFlags(s.grp[g].flags, flags, toSet)), g, s.grp[g].waiters);
    var s' := FlagPost(s, g, flags, toSet);
    forall t: nat | t in s.grp[g].waiters
      ensures t < |s.tcb| && s.tcb[t].node.Some?
      ensures var nd := s.tcb[t].node.value;
              if Holds(s'.grp[g].flags, nd.flags, nd.wait)
              then t !in s'.grp[g].waiters && FlagServed(s, s', t, s'.grp[g].flags)
              else t in s'.grp[g].waiters && s'.tcb[t] == s.tcb[t]
    {
      WokenExactly(s, g, flags, toSet, t);
    }
    forall t: nat | t < |s.tcb| && t !in s.grp[g].waiters
      ensures s'.tcb[t] == s.tcb[t]
    {
      assert WalkedTask(s, s', s.grp[g].waiters, t, s'.grp[g].flags);
    }
  }

  lemma WokenExactly(s: State, g: nat, flags: Flags, toSet: bool, t: nat)
    requires CoreInv(s) && g < |s.grp| && t in s.grp[g].waiters && InTable(s, s.grp[g].waiters)
    ensures t < |s.tcb| && s.tcb[t].node.Some?
    ensures var s', nd := FlagPost(s, g, flags, toSet), s.tcb[t].node.value;
            && |s'.tcb| == |s.tcb| && g < |s'.grp|
            && if Holds(s'.grp[g].flags, nd.flags, nd.wait)
               then t !in s'.grp[g].waiters && FlagServed(s, s', t, s'.grp[g].flags)
               else t in s'.grp[g].waiters && s'.tcb[t] == s.tcb[t]
  {
    PostIsExact(s, g, flags, toSet);
    assert GroupOk(s, g) && NodeOk(s, g, t);
    var s', l := FlagPost(s, g, flags, toSet), s.grp[g].waiters;
    var now, nd := s'.grp[g].flags, s.tcb[t].node.value;
    ConditionMeaning(now, nd.flags, nd.wait);
    assert WalkedTask(s, s', l, t, now);
    if Met(s, t, now) && s.tcb[t].stat <= {FlagBit} {
      assert WakesAt(s, l, t, s.tcb[t].prio, now);
    }
  }

  lemma {:induction false} WalkFrame(s: State, g: nat, l: seq<nat>)
    requires g < |s.grp| && InTable(s, l)
    ensures var s' := FlagWalk(s, g, l); s' == s.(tcb := s'.tcb, ready := s'.ready, grp := s'.grp)
    decreases |l|
  {
    if l != [] {
      match s.tcb[l[0]].node
      case None => WalkFrame(s, g, l[1..]);
      case Some(nd) =>
        if Satisfied(s.grp[g].flags, nd.flags, nd.wait) {
          WalkFrame(FlagTaskRdy(s, l[0], FlagsMet(s.grp[g].flags, nd.flags, nd.wait)), g, l[1..]);
        } else {
          WalkFrame(s, g, l[1..]);
        }
    }
  }

  /** So a task that waits for any of some flags to be set is woken by a post that sets one of them, and
      one that waits for any to be cleared by a post that clears one. */
  lemma PostedFlagWakes(s: State, g: nat, flags: Flags, toSet: bool, t: nat, f: nat)
    requires CoreInv(s) && g < |s.grp| && t in s.grp[g].waiters && t < |s.tcb| && s.tcb[t].node.Some?
    requires f in flags && f in s.tcb[t].node.value.flags
    requires s.tcb[t].node.value.wait == if toSet then SetAny else ClrAny
    ensures InTable(s, s.grp[g].waiters)
    ensures var s' := FlagPost(s, g, flags, toSet);
            && g < |s'.grp| && |s'.tcb| == |s.tcb| && t !in s'.grp[g].waiters && s'.tcb[t].node == None
            && f in s'.tcb[t].flagsRdy && (s.tcb[t].stat == {FlagBit} ==> s.tcb[t].prio in s'.ready)
  {
    PostWakesExactly(s, g, flags, toSet);
    var s' := FlagPost(s, g, flags, toSet);
    assert f in s'.grp[g].flags <==> toSet;
  }

  // ---------------------------------------------------------------- waiting and accepting

  /** The caller gets the flags that are as wanted, and they are consumed if it asked for that. */
  ghost predicate TakesFlags(was: Flags, now: Flags, rdy: Flags, wanted: Flags, w: WaitType, consume: bool)
  {
    && (forall f :: f in rdy <==> f in wanted && AsWanted(was, f, w))
    && (forall f :: f in now <==> if consume && f in rdy then f !in was else f in was)
  }

  lemma AcceptTakes(s: State, g: nat, wanted: Flags, w: WaitType, consume: bool)
    requires g < |s.grp|
    ensures var s' := FlagAccept(s, g, wanted, w, consume);
            && |s'.grp| == |s.grp| && s' == s.(grp := s.grp[g := s.grp[g].(flags := s'.grp[g].flags)])
            && (Holds(s.grp[g].flags, wanted, w) ==>
                  TakesFlags(s.grp[g].flags, s'.grp[g].flags, FlagsMet(s.grp[g].flags, wanted, w), wanted, w, consume))
            && (!Holds(s.grp[g].flags, wanted, w) ==> s' == s)
  {
    ConditionMeaning(s.grp[g].flags, wanted, w);
    var s' := FlagAccept(s, g, wanted, w, consume);
    assert s.grp[g := s.grp[g]] == s.grp;
  }

  /** OSFlagPend: the flags at once if the condition holds; else a node at the head of the list, and the
      caller waits for as many ticks as it was told. */
  lemma PendTakesOrLinks(s: State, g: nat, wanted: Flags, w: WaitType, consume: bool, timeout: nat)
    requires CoreInv(s) && g < |s.grp| && Calling(s)
    ensures var s', c := FlagPend(s, g, wanted, w, consume, timeout), s.cur;
            && |s'.tcb| == |s.tcb| && |s'.phase| == |s.phase| && |s'.grp| == |s.grp|
            && s' == s.(tcb := s'.tcb, phase := s'.phase, ready := s'.ready, grp := s'.grp)
            && (forall h: nat :: h < |s.grp| && h != g ==> s'.grp[h] == s.grp[h])
            && (forall u: nat :: u < |s.tcb| && u != c ==> s'.tcb[u] == s.tcb[u] && s'.phase[u] == s.phase[u])
            && if Holds(s.grp[g].flags, wanted, w) then
                 && s'.tcb[c] == s.tcb[c].(flagsRdy := s'.tcb[c].flagsRdy) && s'.phase == s.phase && s'.ready == s.ready
                 && s'.grp[g].waiters == s.grp[g].waiters
                 && TakesFlags(s.grp[g].flags, s'.grp[g].flags, s'.tcb[c].flagsRdy, wanted, w, consume)
               else
                 && s'.phase[c] == InFlag(g, w, consume) && s'.tcb[c].node == Some(FlagNode(g, wanted, w))
                 && s'.tcb[c].stat == {FlagBit} && s'.tcb[c].dly == timeout && !s'.tcb[c].pendTO
                 && s'.tcb[c].prio == s.tcb[c].prio && s'.ready == s.ready - {s.tcb[c].prio}
                 && s'.grp[g] == s.grp[g].(waiters := [c] + s.grp[g].waiters)
  {
    ConditionMeaning(s.grp[g].flags, wanted, w);
    LiveTask(s, s.cur);
  }

  /** The second half of OSFlagPend: after a timeout the node is off the list; otherwise the flags that
      met the condition are consumed, if that was asked for. */
  lemma FlagPendReturns(s: State)
    requires CoreInv(s) && FlagEnabled(s, EndFlags)
    ensures s.phase[s.cur].g < |s.grp|
    ensures var s', c, g := FlagResume(s), s.cur, s.phase[s.cur].g;
            && |s'.tcb| == |s.tcb| && |s'.phase| == |s.phase| && |s'.grp| == |s.grp|
            && s' == s.(tcb := s'.tcb, phase := s'.phase, grp := s'.grp)
            && s'.phase[c] == User && s'.tcb[c].node == None && s'.tcb[c].stat == {} && !s'.tcb[c].pendTO
            && s'.tcb[c].prio == s.tcb[c].prio && c !in s'.grp[g].waiters
            && (forall u: nat :: u < |s.tcb| && u != c ==> s'.tcb[u] == s.tcb[u] && s'.phase[u] == s.phase[u])
            && (forall t: nat :: t != c ==> (t in s'.grp[g].waiters <==> t in s.grp[g].waiters))
            && (forall f :: f in s'.grp[g].flags <==>
                  if !s.tcb[c].pendTO && s.phase[c].consume && f in s.tcb[c].flagsRdy
                  then s.phase[c].wait.ClrAll? || s.phase[c].wait.ClrAny? else f in s.grp[g].flags)
  {
    LiveTask(s, s.cur);
    var g := s.phase[s.cur].g;
    assert GroupOk(s, g);
    RemoveMembers(s.grp[g].waiters, s.cur);
    if s.cur in s.grp[g].waiters {
      assert NodeOk(s, g, s.cur);
    }
  }

  // ---------------------------------------------------------------- deleting

  /** What the deletion of its group does to the TCB of a waiting task. */
  function Dismissed(x: Task): Task
  {
    x.(node := None, dly := 0, flagsRdy := {}, pendTO := false, stat := x.stat - {FlagBit})
  }

  /** One round of the loop. */
  lemma FirstDismissed(s: State, g: nat, l: seq<nat>) returns (s1: State)
    requires g < |s.grp| && InTable(s, l) && Distinct(l) && s.grp[g].waiters == l != []
    requires s.tcb[l[0]].node.Some? && s.tcb[l[0]].node.value.grp == g
    ensures InTable(s1, l[1..]) && FlagReadyAll(s, l) == FlagReadyAll(s1, l[1..])
    ensures s1 == s.(tcb := s.tcb[l[0] := Dismissed(s.tcb[l[0]])], grp := s.grp[g := s.grp[g].(waiters := l[1..])],
                     ready := s.ready + (if s.tcb[l[0]].stat <= {FlagBit} then {s.tcb[l[0]].prio} else {}))
    ensures Distinct(l[1..]) && l[0] !in l[1..] && forall t: nat :: t in l <==> t == l[0] || t in l[1..]
  {
    assert l[0] in l && l == [l[0]] + l[1..];
    RemoveIsWithout(l, 0);
    assert Without(l, 0) == l[1..];
    assert s.tcb[l[0]].stat - {FlagBit} == {} <==> s.tcb[l[0]].stat <= {FlagBit};
    s1 := FlagTaskRdy(s, l[0], {});
  }

  /** The nodes of the list are taken off, and their tasks get no flags. */
  ghost predicate AllDismissed(s: State, s': State, g: nat, l: seq<nat>)
    requires g < |s.grp|
  {
    && s' == s.(tcb := s'.tcb, ready := s'.ready, grp := s'.grp) && |s'.tcb| == |s.tcb|
    && s'.grp == s.grp[g := s.grp[g].(waiters := [])]
    && (forall t: nat :: t < |s.tcb| ==> s'.tcb[t] == if t in l then Dismissed(s.tcb[t]) else s.tcb[t])
  }

  lemma ThenTheOthers(s: State, s1: State, s': State, g: nat, l: seq<nat>)
    requires g < |s.grp| && l != [] && l[0] < |s.tcb| && l[0] !in l[1..]
    requires s1 == s.(tcb := s.tcb[l[0] := Dismissed(s.tcb[l[0]])], grp := s.grp[g := s.grp[g].(waiters := l[1..])],
                      ready := s1.ready)
    requires forall t: nat :: t in l <==> t == l[0] || t in l[1..]
    requires AllDismissed(s1, s', g, l[1..])
    ensures AllDismissed(s, s', g, l)
  {
  }

  lemma {:induction false} FlagReadyAllExact(s: State, g: nat, l: seq<nat>)
    requires g < |s.grp| && InTable(s, l) && Distinct(l) && s.grp[g].waiters == l
    requires forall t: nat :: t in l ==> s.tcb[t].node.Some? && s.tcb[t].node.value.grp == g
    ensures AllDismissed(s, FlagReadyAll(s, l), g, l)
    decreases |l|
  {
    if l == [] {
      assert s.grp[g := s.grp[g].(waiters := [])] == s.grp;
    } else {
      assert l[0] in l;
      var s1 := FirstDismissed(s, g, l);
      FlagReadyAllExact(s1, g, l[1..]);
      ThenTheOthers(s, s1, FlagReadyAll(s1, l[1..]), g, l);
    }
  }

  /** Each of them whom nothing else holds is ready. */
  lemma {:induction false} FlagReadyAllReadies(s: State, g: nat, l: seq<nat>)
    requires g < |s.grp| && InTable(s, l) && Distinct(l) && s.grp[g].waiters == l
    requires forall t: nat :: t in l ==> s.tcb[t].node.Some? && s.tcb[t].node.value.grp == g
    ensures forall p: nat :: p in FlagReadyAll(s, l).ready <==> p in s.ready || FreedAt(s, l, p)
    decreases |l|
  {
    if l != [] {
      assert l[0] in l;
      var s1 := FirstDismissed(s, g, l);
      FlagReadyAllReadies(s1, g, l[1..]);
      FreedFirst(s, s1, l);
    }
  }

  lemma FreedFirst(s: State, s1: State, l: seq<nat>)
    requires l != [] && InTable(s, l) && |s1.tcb| == |s.tcb| && l[0] !in l[1..]
    requires forall t: nat :: t < |s.tcb| && t != l[0] ==> s1.tcb[t] == s.tcb[t]
    ensures forall p: nat :: FreedAt(s, l, p) <==>
                               FreedAt(s1, l[1..], p) || (s.tcb[l[0]].stat <= {FlagBit} && p == s.tcb[l[0]].prio)
  {
    forall p: nat
      ensures FreedAt(s, l, p) <==> FreedAt(s1, l[1..], p) || (s.tcb[l[0]].stat <= {FlagBit} && p == s.tcb[l[0]].prio)
    {
      if FreedAt(s, l, p) {
        var i :| 0 <= i < |l| && l[i] < |s.tcb| && s.tcb[l[i]].prio == p && s.tcb[l[i]].stat <= {FlagBit};
        assert i > 0 ==> l[1..][i - 1] == l[i];
      }
      if FreedAt(s1, l[1..], p) {
        var i :| 0 <= i < |l[1..]| && l[1..][i] < |s1.tcb| && s1.tcb[l[1..][i]].prio == p
                 && s1.tcb[l[1..][i]].stat <= {FlagBit};
        assert l[i + 1] == l[1..][i] && l[i + 1] in l[1..];
      }
    }
  }

  /** A task of the list has priority p, and only its wait held it. */
  ghost predicate FreedAt(s: State, l: seq<nat>, p: nat)
  {
    exists i :: 0 <= i < |l| && l[i] < |s.tcb| && s.tcb[l[i]].prio == p && s.tcb[l[i]].stat <= {FlagBit}
  }

  lemma NodesThere(s: State, g: nat)
    requires CoreInv(s) && g < |s.grp|
    ensures InTable(s, s.grp[g].waiters) && Distinct(s.grp[g].waiters)
    ensures forall t: nat :: t in s.grp[g].waiters ==> s.tcb[t].node.Some? && s.tcb[t].node.value.grp == g
  {
    GroupInTable(s, g);
    assert GroupOk(s, g);
    forall t: nat | t in s.grp[g].waiters
      ensures s.tcb[t].node.Some? && s.tcb[t].node.value.grp == g
    {
      assert NodeOk(s, g, t);
    }
  }

  /** The group is unused, its waiters are dismissed and no other task is touched. */
  ghost predicate GroupFreed(s: State, s': State, g: nat)
    requires g < |s.grp|
  {
    && s' == s.(tcb := s'.tcb, ready := s'.ready, grp := s.grp[g := FlagGrp(false, {}, [])])
    && |s'.tcb| == |s.tcb|
    && (forall t: nat :: t < |s.tcb| && t in s.grp[g].waiters ==>
          s'.tcb[t] == Dismissed(s.tcb[t]) && (s'.tcb[t].stat == {} ==> s.tcb[t].prio in s'.ready))
    && (forall t: nat :: t < |s.tcb| && t !in s.grp[g].waiters ==> s'.tcb[t] == s.tcb[t])
  }

  lemma DelDismisses(s: State, g: nat)
    requires g < |s.grp| && InTable(s, s.grp[g].waiters) && Distinct(s.grp[g].waiters)
    requires forall t: nat :: t in s.grp[g].waiters ==> s.tcb[t].node.Some? && s.tcb[t].node.value.grp == g
    ensures GroupFreed(s, FlagDel(s, g, true), g)
  {
    var l := s.grp[g].waiters;
    FlagReadyAllExact(s, g, l);
    FlagReadyAllReadies(s, g, l);
    assert forall i :: 0 <= i < |l| && s.tcb[l[i]].stat <= {FlagBit} ==> FreedAt(s, l, s.tcb[l[i]].prio);
  }

  /** OSFlagDel: refused while tasks wait, unless OS_DEL_ALWAYS is given; then all of them are readied. */
  lemma FlagDelFrees(s: State, g: nat, always: bool)
    requires CoreInv(s) && g < |s.grp|
    ensures InTable(s, s.grp[g].waiters)
    ensures var s' := FlagDel(s, g, always);
            if !always && s.grp[g].waiters != [] then s' == s else GroupFreed(s, s', g)
  {
    NodesThere(s, g);
    if always {
      DelDismisses(s, g);
    }
  }

  /** OSFlagCreate: the group has the flags, and nobody waits. */
  lemma FlagCreateMakes(s: State, g: nat, flags: Flags)
    requires g < |s.grp|
    ensures var s' := FlagCreate(s, g, flags);
            && s' == s.(grp := s'.grp) && |s'.grp| == |s.grp|
            && s'.grp[g].used && s'.grp[g].flags == flags && s'.grp[g].waiters == []
            && forall h: nat :: h < |s.grp| && h != g ==> s'.grp[h] == s.grp[h]
  {
  }
}
