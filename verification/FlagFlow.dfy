/** Event flags: what a post does to the wait list, and that no task goes on waiting for flags that
    are as it wants them. */
module FlagFlow {
  import opened IndexLists
  import opened KernelState
  import opened KernelInvariant
  import opened MutexInvariant
  import opened KernelRuns
  import opened Bystanders

  /** The condition of the task's node holds under these flags. */
  ghost predicate Met(s: State, t: nat, flags: Flags)
  {
    t < |s.tcb| && s.tcb[t].node.Some? && Satisfied(flags, s.tcb[t].node.value.flags, s.tcb[t].node.value.wait)
  }

  /** The nodes whose condition does not hold, in their order. */
  ghost function Unmet(s: State, l: seq<nat>, flags: Flags): seq<nat>
  {
    if l == [] then [] else (if Met(s, l[0], flags) then [] else [l[0]]) + Unmet(s, l[1..], flags)
  }

  lemma {:induction false} UnmetMembers(s: State, l: seq<nat>, flags: Flags)
    ensures forall t: nat :: t in Unmet(s, l, flags) <==> t in l && !Met(s, t, flags)
  {
    if l != [] {
      UnmetMembers(s, l[1..], flags);
    }
  }

  lemma {:induction false} UnmetFrame(s: State, s': State, l: seq<nat>, flags: Flags)
    requires forall t: nat :: t in l ==> (Met(s', t, flags) <==> Met(s, t, flags))
    ensures Unmet(s', l, flags) == Unmet(s, l, flags)
  {
    if l != [] {
      UnmetFrame(s, s', l[1..], flags);
    }
  }

  /** The TCB of a task whose condition holds, after the post. */
  ghost function Woken(x: Task, flags: Flags): Task
    requires x.node.Some?
  {
    FlagReadied(x, FlagsMet(flags, x.node.value.flags, x.node.value.wait)).(node := None)
  }

  /** After a walk over the nodes l of group g. */
  ghost predicate WalkDone(s: State, s': State, g: nat, l: seq<nat>, flags: Flags)
    requires g < |s.grp|
  {
    && |s'.tcb| == |s.tcb| && |s'.grp| == |s.grp| && s'.list == s.list && s'.phase == s.phase && s'.ev == s.ev
    && s'.grp[g].flags == flags && s'.grp[g].used == s.grp[g].used
    && (forall h: nat :: h < |s.grp| && h != g ==> s'.grp[h] == s.grp[h])
    && (forall t: nat :: t < |s.tcb| ==> WalkedTask(s, s', l, t, flags))
    && (forall p: nat :: p in s'.ready <==> p in s.ready || exists t: nat :: WakesAt(s, l, t, p, flags))
  }

  ghost predicate WalkedTask(s: State, s': State, l: seq<nat>, t: nat, flags: Flags)
    requires t < |s.tcb| && t < |s'.tcb|
  {
    s'.tcb[t] == if t in l && Met(s, t, flags) then Woken(s.tcb[t], flags) else s.tcb[t]
  }

  /** Task t becomes ready at priority p: its wait was all that held it. */
  ghost predicate WakesAt(s: State, l: seq<nat>, t: nat, p: nat, flags: Flags)
  {
    t in l && Met(s, t, flags) && s.tcb[t].stat <= {FlagBit} && s.tcb[t].prio == p
  }

  /** All nodes of l belong to g, and stand last in its list. */
  ghost predicate Ahead(s: State, g: nat, kept: seq<nat>, l: seq<nat>)
  {
    && g < |s.grp| && InTable(s, l) && s.grp[g].waiters == kept + l && Distinct(kept + l)
    && (forall i :: 0 <= i < |l| ==> s.tcb[l[i]].node.Some? && s.tcb[l[i]].node.value.grp == g)
  }

  /** Readying the task of the node the walk is at. */
  lemma OneWoken(s: State, g: nat, kept: seq<nat>, l: seq<nat>)
    requires Ahead(s, g, kept, l) && l != [] && Met(s, l[0], s.grp[g].flags)
    ensures var flags := s.grp[g].flags;
            var s1 := FlagTaskRdy(s, l[0], FlagsMet(flags, s.tcb[l[0]].node.value.flags, s.tcb[l[0]].node.value.wait));
            && WalkDone(s, s1, g, [l[0]], flags) && Ahead(s1, g, kept, l[1..])
  {
    var t, flags := l[0], s.grp[g].flags;
    var s1 := FlagTaskRdy(s, t, FlagsMet(flags, s.tcb[t].node.value.flags, s.tcb[t].node.value.wait));
    RemoveIsWithout(kept + l, |kept|);
    assert (kept + l)[|kept|] == t;
    assert Without(kept + l, |kept|) == kept + l[1..];
    assert forall i :: 0 <= i < |l| - 1 ==> l[1..][i] == l[i + 1] != t;
    assert s1.tcb[t] == Woken(s.tcb[t], flags);
    assert s.tcb[t].stat - {FlagBit} == {} <==> s.tcb[t].stat <= {FlagBit};
    forall p: nat
      ensures p in s1.ready <==> p in s.ready || exists u: nat :: WakesAt(s, [t], u, p, flags)
    {
      assert WakesAt(s, [t], t, p, flags) <==> s.tcb[t].stat <= {FlagBit} && s.tcb[t].prio == p;
    }
  }

  lemma WalkChain(s: State, s1: State, s2: State, g: nat, l: seq<nat>, flags: Flags)
    requires g < |s.grp| && l != [] && WalkDone(s, s1, g, [l[0]], flags) && WalkDone(s1, s2, g, l[1..], flags)
    requires l[0] !in l[1..]
    ensures WalkDone(s, s2, g, l, flags)
  {
    forall t: nat | t < |s.tcb|
      ensures WalkedTask(s, s2, l, t, flags)
      ensures t in l[1..] ==> s1.tcb[t] == s.tcb[t]
    {
      assert WalkedTask(s, s1, [l[0]], t, flags) && WalkedTask(s1, s2, l[1..], t, flags);
      assert t in l <==> t == l[0] || t in l[1..];
    }
    forall p: nat
      ensures p in s2.ready <==> p in s.ready || exists t: nat :: WakesAt(s, l, t, p, flags)
    {
      assert p in s1.ready <==> p in s.ready || exists t: nat :: WakesAt(s, [l[0]], t, p, flags);
      assert p in s2.ready <==> p in s1.ready || exists t: nat :: WakesAt(s1, l[1..], t, p, flags);
      forall t: nat
        ensures WakesAt(s, l, t, p, flags) <==> WakesAt(s, [l[0]], t, p, flags) || WakesAt(s1, l[1..], t, p, flags)
      {
        assert t in l <==> t == l[0] || t in l[1..];
      }
    }
  }

  lemma NotWoken(s: State, g: nat, t: nat, flags: Flags)
    requires g < |s.grp| && s.grp[g].flags == flags && t < |s.tcb| && !Met(s, t, flags)
    ensures WalkDone(s, s, g, [t], flags)
  {
  }

  lemma HeadNotInTail(kept: seq<nat>, l: seq<nat>)
    requires l != [] && Distinct(kept + l)
    ensures l[0] !in l[1..] && kept + l == (kept + [l[0]]) + l[1..]
  {
    assert (kept + l)[|kept|] == l[0];
    assert forall i :: 0 <= i < |l| - 1 ==> (kept + l)[|kept| + 1 + i] == l[1..][i];
  }

  /** The state of the walk after its first node. */
  ghost function FirstVisited(s: State, g: nat, l: seq<nat>): State
    requires g < |s.grp| && InTable(s, l) && l != [] && s.tcb[l[0]].node.Some?
  {
    var nd := s.tcb[l[0]].node.value;
    if Satisfied(s.grp[g].flags, nd.flags, nd.wait) then FlagTaskRdy(s, l[0], FlagsMet(s.grp[g].flags, nd.flags, nd.wait)) else s
  }

  lemma FirstIsExact(s: State, g: nat, kept: seq<nat>, l: seq<nat>)
    requires Ahead(s, g, kept, l) && l != []
    ensures var s1, flags := FirstVisited(s, g, l), s.grp[g].flags;
            && WalkDone(s, s1, g, [l[0]], flags) && l[0] !in l[1..]
            && Ahead(s1, g, KeptThen(s, g, kept, l), l[1..])
            && FlagWalk(s, g, l) == FlagWalk(s1, g, l[1..])
  {
    HeadNotInTail(kept, l);
    if Met(s, l[0], s.grp[g].flags) {
      OneWoken(s, g, kept, l);
    } else {
      NotWoken(s, g, l[0], s.grp[g].flags);
    }
  }

  lemma {:induction false} WalkEffect(s: State, g: nat, kept: seq<nat>, l: seq<nat>)
    requires Ahead(s, g, kept, l)
    ensures WalkDone(s, FlagWalk(s, g, l), g, l, s.grp[g].flags)
    decreases |l|
  {
    if l != [] {
      var s1, flags := FirstVisited(s, g, l), s.grp[g].flags;
      FirstIsExact(s, g, kept, l);
      WalkEffect(s1, g, KeptThen(s, g, kept, l), l[1..]);
      WalkChain(s, s1, FlagWalk(s1, g, l[1..]), g, l, flags);
    }
  }

  /** The wait list that a walk over l will leave. */
  ghost function Leaves(s: State, g: nat, kept: seq<nat>, l: seq<nat>): seq<nat>
    requires g < |s.grp|
  {
    kept + Unmet(s, l, s.grp[g].flags)
  }

  ghost function KeptThen(s: State, g: nat, kept: seq<nat>, l: seq<nat>): seq<nat>
    requires g < |s.grp| && l != []
  {
    if Met(s, l[0], s.grp[g].flags) then kept else kept + [l[0]]
  }

  lemma FirstKeepsMet(s: State, g: nat, kept: seq<nat>, l: seq<nat>)
    requires Ahead(s, g, kept, l) && l != []
    ensures FirstVisited(s, g, l).grp[g].flags == s.grp[g].flags
    ensures Unmet(FirstVisited(s, g, l), l[1..], s.grp[g].flags) == Unmet(s, l[1..], s.grp[g].flags)
  {
    var s1, flags := FirstVisited(s, g, l), s.grp[g].flags;
    FirstIsExact(s, g, kept, l);
    forall u: nat | u in l[1..]
      ensures Met(s1, u, flags) <==> Met(s, u, flags)
    {
      assert u < |s.tcb| ==> WalkedTask(s, s1, [l[0]], u, flags);
    }
    UnmetFrame(s, s1, l[1..], flags);
  }

  lemma FirstKeepsRest(s: State, g: nat, kept: seq<nat>, l: seq<nat>)
    requires Ahead(s, g, kept, l) && l != []
    ensures Ahead(FirstVisited(s, g, l), g, KeptThen(s, g, kept, l), l[1..])
    ensures FlagWalk(s, g, l) == FlagWalk(FirstVisited(s, g, l), g, l[1..])
    ensures Leaves(FirstVisited(s, g, l), g, KeptThen(s, g, kept, l), l[1..]) == Leaves(s, g, kept, l)
  {
    FirstIsExact(s, g, kept, l);
    FirstKeepsMet(s, g, kept, l);
    var rest := Unmet(s, l[1..], s.grp[g].flags);
    assert kept + ([l[0]] + rest) == (kept + [l[0]]) + rest;
    assert kept + ([] + rest) == kept + rest;
  }

  lemma {:induction false} WalkOrder(s: State, g: nat, kept: seq<nat>, l: seq<nat>)
    requires Ahead(s, g, kept, l)
    ensures FlagWalk(s, g, l).grp[g].waiters == Leaves(s, g, kept, l)
    decreases |l|
  {
    if l == [] {
      assert kept + l == kept + [];
    } else {
      FirstKeepsRest(s, g, kept, l);
      WalkOrder(FirstVisited(s, g, l), g, KeptThen(s, g, kept, l), l[1..]);
    }
  }

  lemma DoneFromFlags(s: State, s': State, g: nat, l: seq<nat>, f: Flags)
    requires g < |s.grp| && WalkDone(SetFlags(s, g, f), s', g, l, f)
    ensures WalkDone(s, s', g, l, f)
  {
    var s1 := SetFlags(s, g, f);
    forall t: nat | t < |s.tcb|
      ensures WalkedTask(s, s', l, t, f)
    {
      assert WalkedTask(s1, s', l, t, f);
    }
    forall p: nat, t: nat
      ensures WakesAt(s, l, t, p, f) <==> WakesAt(s1, l, t, p, f)
    {
    }
  }

  lemma PostOrder(s: State, g: nat, flags: Flags, toSet: bool)
    requires CoreInv(s) && g < |s.grp|
    ensures InTable(s, s.grp[g].waiters)
    ensures FlagPost(s, g, flags, toSet).grp[g].waiters == Unmet(s, s.grp[g].waiters, PostedFlags(s.grp[g].flags, flags, toSet))
  {
    GroupInTable(s, g);
    var f, l := PostedFlags(s.grp[g].flags, flags, toSet), s.grp[g].waiters;
    assert [] + l == l;
    WalkOrder(SetFlags(s, g, f), g, [], l);
    UnmetFrame(s, SetFlags(s, g, f), l, f);
  }

  lemma PostEffect(s: State, g: nat, flags: Flags, toSet: bool)
    requires CoreInv(s) && g < |s.grp|
    ensures InTable(s, s.grp[g].waiters)
    ensures WalkDone(s, FlagPost(s, g, flags, toSet), g, s.grp[g].waiters, PostedFlags(s.grp[g].flags, flags, toSet))
  {
    GroupInTable(s, g);
    var f, l := PostedFlags(s.grp[g].flags, flags, toSet), s.grp[g].waiters;
    assert [] + l == l;
    WalkEffect(SetFlags(s, g, f), g, [], l);
    DoneFromFlags(s, FlagPost(s, g, flags, toSet), g, l, f);
  }

  /** OSFlagPost is exact: precisely the waiters whose condition holds under the new flags are
      readied, or un-pended if they are suspended, and unlinked; the others stay, in their order,
      and none of them is satisfied. */
  lemma PostIsExact(s: State, g: nat, flags: Flags, toSet: bool)
    requires CoreInv(s) && g < |s.grp|
    ensures InTable(s, s.grp[g].waiters)
    ensures var s', f, l := FlagPost(s, g, flags, toSet), PostedFlags(s.grp[g].flags, flags, toSet), s.grp[g].waiters;
            && WalkDone(s, s', g, l, f)
            && s'.grp[g].waiters == Unmet(s, l, f)
            && (forall t: nat :: t in s'.grp[g].waiters <==> t in l && !Met(s, t, f))
            && (forall t: nat :: t in s'.grp[g].waiters ==> !Met(s', t, f))
  {
    PostOrder(s, g, flags, toSet);
    PostEffect(s, g, flags, toSet);
    var s', f, l := FlagPost(s, g, flags, toSet), PostedFlags(s.grp[g].flags, flags, toSet), s.grp[g].waiters;
    UnmetMembers(s, l, f);
    forall t: nat | t in s'.grp[g].waiters
      ensures !Met(s', t, f)
    {
      assert t < |s.tcb| ==> WalkedTask(s, s', l, t, f);
    }
  }

  /** A node is linked exactly when its task's TCB points to it. */
  lemma NodeLinksAreExact(s: State, g: nat, t: nat)
    requires Reachable(s) && g < |s.grp|
    ensures Distinct(s.grp[g].waiters)
    ensures t in s.grp[g].waiters <==> t in s.list && t < |s.tcb| && s.tcb[t].node.Some? && s.tcb[t].node.value.grp == g
  {
    ReachableInv(s);
    assert GroupOk(s, g);
    if t in s.list {
      LiveTask(s, t);
    }
    assert t in s.grp[g].waiters ==> NodeOk(s, g, t);
  }

  // ---------------------------------------------------------------- consuming and the wait list

  /** How a group is used: only by waits and accepts for set flags, only by ones for cleared flags,
      or by both. Posting may set and clear in any case. */
  datatype Usage = ForSet | ForCleared | Mixed

  predicate Fits(w: WaitType, use: Usage)
  {
    (use.ForSet? ==> IsSet(w)) && (use.ForCleared? ==> !IsSet(w))
  }

  /** Group g is used that way, and no task waits whose condition holds. */
  ghost predicate NoneOverlooked(s: State, g: nat, use: Usage)
  {
    && g < |s.grp|
    && (forall t: nat :: t in s.grp[g].waiters ==> t < |s.tcb| && RightlyWaits(s.tcb[t], s.grp[g].flags, use))
    && (forall t: nat :: InFlagPend(s, t) && s.phase[t].g == g ==> Fits(s.phase[t].wait, use))
  }

  ghost predicate RightlyWaits(x: Task, flags: Flags, use: Usage)
  {
    x.node.Some? && Fits(x.node.value.wait, use) && !Satisfied(flags, x.node.value.flags, x.node.value.wait)
  }

  /** The operation keeps to the way in which group g is used. */
  ghost predicate Keeps(op: Op, g: nat, use: Usage)
  {
    op.OnFlags? ==>
      match op.flags
      case PendFlags(h, _, wait, _, _) => h == g ==> Fits(wait, use)
      case AcceptFlags(h, _, wait, _) => h == g ==> Fits(wait, use)
      case _ => true
  }

  /** What consuming rdy in the way of wait type w brings to a task that waits for these flags in the
      way of v: all that it lacks, or one of them. */
  predicate Supplies(flags: Flags, rdy: Flags, w: WaitType, wanted: Flags, v: WaitType)
  {
    && IsSet(v) != IsSet(w)
    && (if v.SetAll? || v.ClrAll? then wanted - FlagsMet(flags, wanted, v) <= rdy else wanted * rdy != {})
  }

  /** Consuming makes a condition true exactly when it supplies what was lacking. */
  lemma ConsumingExact(flags: Flags, rdy: Flags, w: WaitType, wanted: Flags, v: WaitType)
    requires !Satisfied(flags, wanted, v)
    ensures Satisfied(Consumed(flags, rdy, w), wanted, v) <==> Supplies(flags, rdy, w, wanted, v)
  {
  }

  /** Some task that waits on g would find its condition true once rdy has been consumed. */
  ghost predicate SuppliesWaiter(s: State, g: nat, t: nat, rdy: Flags, w: WaitType)
  {
    && g < |s.grp| && t in s.grp[g].waiters && t < |s.tcb| && s.tcb[t].node.Some?
    && Supplies(s.grp[g].flags, rdy, w, s.tcb[t].node.value.flags, s.tcb[t].node.value.wait)
  }

  datatype Consumption = Consumption(rdy: Flags, wait: WaitType)

  /** What the operation consumes of group g: an accept or a pend whose condition holds, or the rest
      of a pend that was served. */
  ghost function Consumes(s: State, op: Op, g: nat): Option<Consumption>
  {
    if !op.OnFlags? || g >= |s.grp| then None
    else
      match op.flags
      case AcceptFlags(h, wanted, w, consume) =>
        if h == g && consume && Satisfied(s.grp[g].flags, wanted, w)
        then Some(Consumption(FlagsMet(s.grp[g].flags, wanted, w), w)) else None
      case PendFlags(h, wanted, w, consume, _) =>
        if h == g && consume && Satisfied(s.grp[g].flags, wanted, w)
        then Some(Consumption(FlagsMet(s.grp[g].flags, wanted, w), w)) else None
      case EndFlags =>
        if s.cur < |s.tcb| && s.cur < |s.phase| && s.phase[s.cur].InFlag? && s.phase[s.cur].g == g
           && s.phase[s.cur].consume && !s.tcb[s.cur].pendTO
        then Some(Consumption(s.tcb[s.cur].flagsRdy, s.phase[s.cur].wait)) else None
      case _ => None
  }

  /** What the operation consumes supplies no task that waits on the group. */
  ghost predicate Careful(s: State, op: Op, g: nat)
  {
    forall t: nat, c: Consumption :: Consumes(s, op, g) == Some(c) ==> !SuppliesWaiter(s, g, t, c.rdy, c.wait)
  }

  /** In a group used in one direction every operation is careful. */
  lemma OneDirectionIsCareful(s: State, op: Op, g: nat, use: Usage)
    requires NoneOverlooked(s, g, use) && Keeps(op, g, use) && !use.Mixed? && Enabled(s, op)
    ensures Careful(s, op, g)
  {
    assert op.OnFlags? && op.flags.EndFlags? && s.phase[s.cur].g == g ==> InFlagPend(s, s.cur);
  }

  lemma AsideOverlooksNone(s: State, s': State, g: nat, use: Usage)
    requires NoneOverlooked(s, g, use) && FlagsKept(s, s') && CoreInv(s')
    ensures NoneOverlooked(s', g, use)
  {
    forall t: nat | t in s'.grp[g].waiters
      ensures t < |s'.tcb| && RightlyWaits(s'.tcb[t], s'.grp[g].flags, use)
    {
      assert GroupOk(s', g) && NodeOk(s', g, t);
      assert WaitsFor(s', g, t);
    }
  }

  /** The flags of g are consumed, and the wait list stays. */
  lemma ConsumedExact(s: State, s': State, g: nat, use: Usage, rdy: Flags, w: WaitType)
    requires NoneOverlooked(s, g, use) && g < |s'.grp|
    requires s'.grp[g].flags == Consumed(s.grp[g].flags, rdy, w) && s'.grp[g].waiters == s.grp[g].waiters
    requires |s'.tcb| == |s.tcb| && forall t: nat :: t < |s.tcb| ==> s'.tcb[t].node == s.tcb[t].node
    requires |s'.phase| == |s.phase| && s'.list == s.list
             && forall t: nat :: InFlagPend(s', t) ==> s'.phase[t] == s.phase[t]
    ensures NoneOverlooked(s', g, use) <==> forall t: nat :: !SuppliesWaiter(s, g, t, rdy, w)
  {
    forall t: nat | t in s.grp[g].waiters
      ensures t < |s'.tcb| && (RightlyWaits(s'.tcb[t], s'.grp[g].flags, use) <==> !SuppliesWaiter(s, g, t, rdy, w))
    {
      var nd := s.tcb[t].node.value;
      ConsumingExact(s.grp[g].flags, rdy, w, nd.flags, nd.wait);
    }
  }

  /** Steps on another group, as seen from group g. */
  ghost predicate OtherGroup(s: State, s': State, g: nat)
  {
    && g < |s.grp| && g < |s'.grp| && s'.grp[g] == s.grp[g] && |s'.tcb| == |s.tcb|
    && (forall t: nat :: t in s.grp[g].waiters && t < |s.tcb| ==> s'.tcb[t].node == s.tcb[t].node)
    && (forall t: nat :: InFlagPend(s', t) && s'.phase[t].g == g ==> InFlagPend(s, t) && s'.phase[t] == s.phase[t])
  }

  lemma OtherGroupOverlooksNone(s: State, s': State, g: nat, use: Usage)
    requires NoneOverlooked(s, g, use) && OtherGroup(s, s', g)
    ensures NoneOverlooked(s', g, use)
  {
  }

  lemma OtherPost(s: State, h: nat, flags: Flags, up: bool, g: nat)
    requires CoreInv(s) && h < |s.grp| && g < |s.grp| && h != g
    ensures InTable(s, s.grp[h].waiters) && OtherGroup(s, FlagPost(s, h, flags, up), g)
  {
    PostIsExact(s, h, flags, up);
    GroupInTable(s, h);
    GroupInTable(s, g);
    var s', f := FlagPost(s, h, flags, up), PostedFlags(s.grp[h].flags, flags, up);
    forall t: nat | t in s.grp[g].waiters && t < |s.tcb|
      ensures s'.tcb[t].node == s.tcb[t].node
    {
      assert t !in s.grp[h].waiters;
      assert WalkedTask(s, s', s.grp[h].waiters, t, f);
    }
  }

  lemma ReadyOneOther(s: State, h: nat, t0: nat, g: nat)
    requires CoreInv(s) && h < |s.grp| && g < |s.grp| && h != g && t0 in s.grp[h].waiters && t0 < |s.tcb|
    ensures CoreInv(FlagTaskRdy(s, t0, {})) && OtherGroup(s, FlagTaskRdy(s, t0, {}), g)
            && |FlagTaskRdy(s, t0, {}).grp| == |s.grp|
    ensures forall t: nat :: t in s.grp[h].waiters && t != t0 ==> t in FlagTaskRdy(s, t0, {}).grp[h].waiters
  {
    GroupInTable(s, h);
    GroupInTable(s, g);
    FlagTaskRdyKeeps(s, t0, {});
    RemoveMembers(s.grp[h].waiters, t0);
  }

  lemma OtherGroupChain(s: State, s1: State, s2: State, g: nat)
    requires OtherGroup(s, s1, g) && OtherGroup(s1, s2, g)
    ensures OtherGroup(s, s2, g)
  {
  }

  lemma {:induction false} ReadyAllOther(s: State, h: nat, l: seq<nat>, g: nat)
    requires CoreInv(s) && h < |s.grp| && g < |s.grp| && h != g && InTable(s, l) && Distinct(l)
    requires forall t: nat :: t in l ==> t in s.grp[h].waiters
    ensures OtherGroup(s, FlagReadyAll(s, l), g)
    decreases |l|
  {
    if l != [] {
      var s1, rest := FlagTaskRdy(s, l[0], {}), l[1..];
      assert l[0] in l;
      ReadyOneOther(s, h, l[0], g);
      assert forall t: nat :: t in rest ==> t != l[0] && t in l;
      ReadyAllOther(s1, h, rest, g);
      OtherGroupChain(s, s1, FlagReadyAll(s1, rest), g);
    }
  }

  lemma PostOverlooksNone(s: State, g: nat, flags: Flags, up: bool, use: Usage)
    requires CoreInv(s) && NoneOverlooked(s, g, use)
    ensures InTable(s, s.grp[g].waiters) && NoneOverlooked(FlagPost(s, g, flags, up), g, use)
  {
    PostIsExact(s, g, flags, up);
    var s', f := FlagPost(s, g, flags, up), PostedFlags(s.grp[g].flags, flags, up);
    forall t: nat | t in s'.grp[g].waiters
      ensures t < |s'.tcb| && RightlyWaits(s'.tcb[t], s'.grp[g].flags, use)
    {
      assert WalkedTask(s, s', s.grp[g].waiters, t, f);
    }
  }

  lemma PendExact(s: State, g: nat, wanted: Flags, w: WaitType, consume: bool, timeout: nat, use: Usage)
    requires CoreInv(s) && NoneOverlooked(s, g, use) && Fits(w, use) && Calling(s)
    ensures NoneOverlooked(FlagPend(s, g, wanted, w, consume, timeout), g, use)
            <==> Careful(s, OnFlags(PendFlags(g, wanted, w, consume, timeout)), g)
  {
    var s', flags := FlagPend(s, g, wanted, w, consume, timeout), s.grp[g].flags;
    if Satisfied(flags, wanted, w) {
      if consume {
        assert Consumes(s, OnFlags(PendFlags(g, wanted, w, consume, timeout)), g) == Some(Consumption(FlagsMet(flags, wanted, w), w));
        ConsumedExact(s, s', g, use, FlagsMet(flags, wanted, w), w);
      }
    } else {
      RecordsHold(s, s.cur);
      LiveTask(s, s.cur);
    }
  }

  lemma ResumeExact(s: State, g: nat, use: Usage)
    requires CoreInv(s) && NoneOverlooked(s, g, use) && FlagEnabled(s, EndFlags) && s.phase[s.cur].g < |s.grp|
    ensures NoneOverlooked(FlagResume(s), g, use) <==> Careful(s, OnFlags(EndFlags), g)
  {
    var s', ph := FlagResume(s), s.phase[s.cur];
    if s.tcb[s.cur].pendTO {
      TimeoutFlags(s, s.cur);
      FlagTOKeeps(s, s.cur);
      AsideOverlooksNone(s, s', g, use);
    } else if ph.consume && ph.g == g {
      assert Consumes(s, OnFlags(EndFlags), g) == Some(Consumption(s.tcb[s.cur].flagsRdy, ph.wait));
      ConsumedExact(s, s', g, use, s.tcb[s.cur].flagsRdy, ph.wait);
    } else {
      OtherGroupOverlooksNone(s, s', g, use);
    }
  }

  lemma TimeoutFlags(s: State, t: nat)
    requires CoreInv(s) && t in s.list && t < |s.tcb|
    ensures FlagsKept(s, FlagTO(s, t))
  {
    UnlinkFlags(s, t);
    var s1 := FlagUnlink(s, t);
    SameFlagsKeepOrPend(s1, FlagTO(s, t));
    FlagsChain(s, s1, FlagTO(s, t));
  }

  lemma OtherDelOverlooksNone(s: State, h: nat, always: bool, g: nat, use: Usage)
    requires CoreInv(s) && NoneOverlooked(s, g, use) && h < |s.grp| && InTable(s, s.grp[h].waiters) && h != g
    ensures NoneOverlooked(FlagDel(s, h, always), g, use)
  {
    var l := s.grp[h].waiters;
    var s1 := if always then FlagReadyAll(s, l) else s;
    GroupInTable(s, h);
    if always {
      ReadyAllOther(s, h, l, g);
    }
    OtherGroupOverlooksNone(s, s1, g, use);
    OtherGroupOverlooksNone(s1, FlagDel(s, h, always), g, use);
  }

  lemma DelOverlooksNone(s: State, h: nat, always: bool, g: nat, use: Usage)
    requires CoreInv(s) && NoneOverlooked(s, g, use) && h < |s.grp| && InTable(s, s.grp[h].waiters)
    ensures NoneOverlooked(FlagDel(s, h, always), g, use)
  {
    if h != g {
      OtherDelOverlooksNone(s, h, always, g, use);
    } else if always {
      OwnDelOverlooksNone(s, h, use);
    }
  }

  lemma OwnDelOverlooksNone(s: State, g: nat, use: Usage)
    requires CoreInv(s) && NoneOverlooked(s, g, use) && g < |s.grp| && InTable(s, s.grp[g].waiters)
    ensures NoneOverlooked(FlagDel(s, g, true), g, use)
  {
    FlagReadyAllKeeps(s, g, s.grp[g].waiters);
    ReadyAllPhases(s, s.grp[g].waiters);
  }

  lemma {:induction false} ReadyAllPhases(s: State, l: seq<nat>)
    requires InTable(s, l)
    ensures FlagReadyAll(s, l).phase == s.phase && FlagReadyAll(s, l).list == s.list
    decreases |l|
  {
    if l != [] {
      ReadyAllPhases(FlagTaskRdy(s, l[0], {}), l[1..]);
    }
  }

  lemma AcceptExact(s: State, g: nat, wanted: Flags, w: WaitType, consume: bool, use: Usage)
    requires CoreInv(s) && NoneOverlooked(s, g, use)
    ensures NoneOverlooked(FlagAccept(s, g, wanted, w, consume), g, use)
            <==> Careful(s, OnFlags(AcceptFlags(g, wanted, w, consume)), g)
  {
    var flags := s.grp[g].flags;
    if Satisfied(flags, wanted, w) && consume {
      assert Consumes(s, OnFlags(AcceptFlags(g, wanted, w, consume)), g) == Some(Consumption(FlagsMet(flags, wanted, w), w));
      ConsumedExact(s, FlagAccept(s, g, wanted, w, consume), g, use, FlagsMet(flags, wanted, w), w);
    }
  }

  lemma OtherFlagStep(s: State, op: FlagOp, g: nat, use: Usage)
    requires Inv(s) && FlagEnabled(s, op) && NoneOverlooked(s, g, use)
    requires !op.DelFlags? && !op.EndFlags? && op.g != g
    ensures NoneOverlooked(FlagStep(s, op), g, use)
  {
    Grounds(s);
    match op
    case NewFlags(h, flags) =>
    case AcceptFlags(h, flags, wait, consume) =>
    case PendFlags(h, flags, wait, consume, timeout) => OtherPend(s, h, flags, wait, consume, timeout, g);
    case PostFlags(h, flags, up) => OtherPost(s, h, flags, up, g);
    OtherGroupOverlooksNone(s, FlagStep(s, op), g, use);
  }

  lemma FlagStepExact(s: State, op: FlagOp, g: nat, use: Usage)
    requires Inv(s) && FlagEnabled(s, op) && NoneOverlooked(s, g, use) && Keeps(OnFlags(op), g, use)
    ensures NoneOverlooked(FlagStep(s, op), g, use) <==> Careful(s, OnFlags(op), g)
  {
    Grounds(s);
    if !op.DelFlags? && !op.EndFlags? && op.g != g {
      OtherFlagStep(s, op, g, use);
    } else {
      match op
      case NewFlags(_, _) =>
      case AcceptFlags(_, flags, wait, consume) => AcceptExact(s, g, flags, wait, consume, use);
      case PendFlags(_, flags, wait, consume, timeout) => PendExact(s, g, flags, wait, consume, timeout, use);
      case PostFlags(_, flags, up) => PostOverlooksNone(s, g, flags, up, use);
      case DelFlags(h, always) => DelOverlooksNone(s, h, always, g, use);
      case EndFlags => ResumeExact(s, g, use);
    }
  }

  lemma OtherPend(s: State, h: nat, wanted: Flags, w: WaitType, consume: bool, timeout: nat, g: nat)
    requires CoreInv(s) && h < |s.grp| && g < |s.grp| && h != g && Calling(s)
    ensures OtherGroup(s, FlagPend(s, h, wanted, w, consume, timeout), g)
  {
    RecordsHold(s, s.cur);
    LiveTask(s, s.cur);
  }

  /** Every step of the kernel leaves no overlooked task on the group exactly when it is careful. */
  lemma StepOverlooksNone(s: State, op: Op, g: nat, use: Usage)
    requires Inv(s) && Enabled(s, op) && NoneOverlooked(s, g, use) && Keeps(op, g, use)
    ensures NoneOverlooked(Step(s, op), g, use) <==> Careful(s, op, g)
  {
    Grounds(s);
    StepKeepsInv(s, op);
    match op
    case OnTask(o) =>
      if o.EndDelete? {
        DelEndAside(s);
      } else {
        TaskStepAside(s, o);
      }
      AsideOverlooksNone(s, Step(s, op), g, use);
    case OnMutex(o) => MutexStepAside(s, o); AsideOverlooksNone(s, Step(s, op), g, use);
    case OnMsg(o) => MsgStepFlags(s, o); AsideOverlooksNone(s, Step(s, op), g, use);
    case OnFlags(o) => FlagStepExact(s, o, g, use);
    case EndPend => PendResumeFlags(s); AsideOverlooksNone(s, Step(s, op), g, use);
  }

  ghost predicate RunKeeps(ops: seq<Op>, g: nat, use: Usage)
  {
    forall i :: 0 <= i < |ops| ==> Keeps(ops[i], g, use)
  }

  ghost predicate CarefulRun(s: State, ops: seq<Op>, g: nat)
    requires Inv(s) && Legal(s, ops)
    decreases |ops|
  {
    ops == [] || (Careful(s, ops[0], g) && (StepKeepsInv(s, ops[0]); CarefulRun(Step(s, ops[0]), ops[1..], g)))
  }

  /** No state of the run has an overlooked task. */
  ghost predicate NeverOverlooked(s: State, ops: seq<Op>, g: nat, use: Usage)
    requires Inv(s) && Legal(s, ops)
    decreases |ops|
  {
    && NoneOverlooked(s, g, use)
    && (ops == [] || (StepKeepsInv(s, ops[0]); NeverOverlooked(Step(s, ops[0]), ops[1..], g, use)))
  }

  lemma {:induction false} RunExact(s: State, ops: seq<Op>, g: nat, use: Usage)
    requires Inv(s) && Legal(s, ops) && NoneOverlooked(s, g, use) && RunKeeps(ops, g, use)
    ensures NeverOverlooked(s, ops, g, use) <==> CarefulRun(s, ops, g)
    decreases |ops|
  {
    if ops != [] {
      StepKeepsInv(s, ops[0]);
      StepOverlooksNone(s, ops[0], g, use);
      if NoneOverlooked(Step(s, ops[0]), g, use) {
        RunExact(Step(s, ops[0]), ops[1..], g, use);
      }
    }
  }

  lemma {:induction false} OneDirectionRun(s: State, ops: seq<Op>, g: nat, use: Usage)
    requires Inv(s) && Legal(s, ops) && NoneOverlooked(s, g, use) && RunKeeps(ops, g, use) && !use.Mixed?
    ensures NoneOverlooked(After(s, ops), g, use)
    decreases |ops|
  {
    if ops != [] {
      StepKeepsInv(s, ops[0]);
      StepOverlooksNone(s, ops[0], g, use);
      OneDirectionIsCareful(s, ops[0], g, use);
      OneDirectionRun(Step(s, ops[0]), ops[1..], g, use);
    }
  }

  lemma BootOverlooksNone(tasks: nat, events: nat, groups: nat, g: nat, use: Usage)
    requires tasks > 0 && g < groups
    ensures NoneOverlooked(Boot(tasks, events, groups), g, use)
  {
    assert Boot(tasks, events, groups).grp[g].waiters == [];
  }

  /** No lost wake-up: in a group used only for set flags, or only for cleared ones, no run of the
      kernel leaves a task waiting whose condition holds, consuming waits and accepts included. */
  lemma {:induction false} NoLostWakeUp(tasks: nat, events: nat, groups: nat, ops: seq<Op>, s: State, g: nat, use: Usage, t: nat)
    requires IsRun(tasks, events, groups, ops, s) && g < groups && RunKeeps(ops, g, use) && !use.Mixed?
    ensures g < |s.grp| && (t in s.grp[g].waiters ==> !Met(s, t, s.grp[g].flags))
  {
    BootInv(tasks, events, groups);
    BootOverlooksNone(tasks, events, groups, g, use);
    OneDirectionRun(Boot(tasks, events, groups), ops, g, use);
  }

  /** In any group, used in both directions or not: a run from start-up never has a task waiting
      whose condition holds exactly when every consumption in it is careful. */
  lemma {:induction false} LostWakeUpsExact(tasks: nat, events: nat, groups: nat, ops: seq<Op>, g: nat)
    requires tasks > 0 && g < groups && (BootInv(tasks, events, groups); Legal(Boot(tasks, events, groups), ops))
    ensures Inv(Boot(tasks, events, groups))
    ensures NeverOverlooked(Boot(tasks, events, groups), ops, g, Mixed) <==> CarefulRun(Boot(tasks, events, groups), ops, g)
  {
    BootInv(tasks, events, groups);
    BootOverlooksNone(tasks, events, groups, g, Mixed);
    RunExact(Boot(tasks, events, groups), ops, g, Mixed);
  }

  /** With both directions in one group a wake-up is lost: consuming cleared flags sets them, and
      nobody looks at the tasks that wait for them to be set. */
  lemma MixedDirectionsLoseWakeUps(s: State, g: nat, t: nat, wanted: Flags)
    requires CoreInv(s) && g < |s.grp| && t in s.grp[g].waiters && t < |s.tcb| && s.tcb[t].node.Some?
    requires s.tcb[t].node.value.flags == wanted != {} && s.tcb[t].node.value.wait == SetAny
    requires !Met(s, t, s.grp[g].flags)
    ensures var s' := FlagAccept(s, g, wanted, ClrAny, true);
            t in s'.grp[g].waiters && s'.tcb == s.tcb && Met(s', t, s'.grp[g].flags)
  {
    ClearedThenSet(s.grp[g].flags, wanted);
  }

  lemma ClearedThenSet(flags: Flags, wanted: Flags)
    requires wanted != {} && !Satisfied(flags, wanted, SetAny)
    ensures Satisfied(flags, wanted, ClrAny)
    ensures Satisfied(Consumed(flags, FlagsMet(flags, wanted, ClrAny), ClrAny), wanted, SetAny)
  {
    var f :| f in wanted;
    assert f !in flags * wanted;
    assert f in FlagsMet(flags, wanted, ClrAny);
    assert f in FlagsMet(Consumed(flags, FlagsMet(flags, wanted, ClrAny), ClrAny), wanted, SetAny);
  }
}
