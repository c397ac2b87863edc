/** os_flag.c on the kernel's tables. */
module OsFlag {
  import opened IndexLists
  import opened PrioritySet
  import opened KernelState
  import opened KernelInvariant
  import opened KernelRuns
  import opened FlagFlow
  import FlagEffects
  import opened Scheduling
  import opened Kernel

  datatype Err = NoErr | NotReady | Timeout

  /** OS_FlagUnlink, for the node of task t. */
  method FlagUnlink(k: Kernel, t: nat)
    requires k.Valid() && t < |k.s.tcb| && k.s.tcb[t].node.Some?
    requires var g := k.s.tcb[t].node.value.grp; g < |k.s.grp| && t in k.s.grp[g].waiters
    modifies k.Repr()
    ensures k.Valid() && k.s == KernelState.FlagUnlink(old(k.s), t)
    ensures t < k.groups.next.Length && k.groups.next[t] == old(k.groups.next[t])
  {
    var g := k.tcb[t].node.value.grp;
    k.UnlinkNode(g, t);
    k.PutTcb(t, k.tcb[t].(node := None));
  }

  /** OS_FlagTaskRdy */
  method FlagTaskRdy(k: Kernel, t: nat, rdy: Flags) returns (sched: bool)
    requires k.Valid() && t < |k.s.tcb| && k.s.tcb[t].prio < MAX_PRIO && k.s.tcb[t].node.Some?
    requires var g := k.s.tcb[t].node.value.grp; g < |k.s.grp| && t in k.s.grp[g].waiters
    modifies k.Repr()
    ensures k.Valid() && k.s == KernelState.FlagTaskRdy(old(k.s), t, rdy)
    ensures sched <==> old(k.s).tcb[t].stat - {FlagBit} == {}
    ensures t < k.groups.next.Length && k.groups.next[t] == old(k.groups.next[t])
  {
    var x := k.tcb[t].(dly := 0, flagsRdy := rdy, pendTO := false);
    x := x.(stat := x.stat - {FlagBit});
    assert x == FlagReadied(k.s.tcb[t], rdy);
    k.PutTcb(t, x);
    sched := x.stat == {};
    if sched {
      k.Ready(x.prio);
    }
    assert k.s == SetTask(old(k.s), t, x).(ready := if sched then old(k.s).ready + {x.prio} else old(k.s).ready);
    FlagUnlink(k, t);
  }

  /** The switch over the wait type in OSFlagPend, OSFlagAccept and OSFlagPost. */
  method CheckFlags(flags: Flags, wanted: Flags, w: WaitType) returns (rdy: Flags, ok: bool)
    ensures rdy == FlagsMet(flags, wanted, w) && ok == Satisfied(flags, wanted, w)
  {
    match w
    case SetAll => rdy := flags * wanted; ok := rdy == wanted;
    case SetAny => rdy := flags * wanted; ok := rdy != {};
    case ClrAll => rdy := wanted - flags; ok := rdy == wanted;
    case ClrAny => rdy := wanted - flags; ok := rdy != {};
  }

  /** The switch that consumes flags. */
  method ConsumeFlags(flags: Flags, rdy: Flags, w: WaitType) returns (left: Flags)
    ensures left == Consumed(flags, rdy, w)
  {
    match w
    case SetAll => left := flags - rdy;
    case SetAny => left := flags - rdy;
    case ClrAll => left := flags + rdy;
    case ClrAny => left := flags + rdy;
  }

  /** OSFlagAccept */
  method Accept(k: Kernel, g: nat, wanted: Flags, w: WaitType, consume: bool) returns (rdy: Flags, err: Err)
    requires k.Valid() && g < |k.s.grp|
    modifies k.Repr()
    ensures k.Valid() && k.s == FlagAccept(old(k.s), g, wanted, w, consume)
    ensures rdy == FlagsMet(old(k.s).grp[g].flags, wanted, w)
    ensures err == if Satisfied(old(k.s).grp[g].flags, wanted, w) then NoErr else NotReady
  {
    var ok;
    rdy, ok := CheckFlags(k.groups.flags[g], wanted, w);
    if ok && consume {
      var left := ConsumeFlags(k.groups.flags[g], rdy, w);
      k.PutFlags(g, left);
    }
    err := if ok then NoErr else NotReady;
  }

  /** OS_FlagBlock */
  method FlagBlock(k: Kernel, g: nat, wanted: Flags, w: WaitType, ghost consume: bool, timeout: nat)
    requires k.Valid() && CoreInv(k.s) && g < |k.s.grp| && k.cur in k.s.list && k.cur < |k.s.tcb|
    requires forall h: nat :: h < |k.s.grp| ==> k.cur !in k.s.grp[h].waiters
    modifies k.Repr()
    ensures k.Valid() && k.s == KernelState.FlagBlock(old(k.s), old(k.cur), FlagNode(g, wanted, w), consume, timeout)
  {
    LiveTask(k.s, k.cur);
    var t, x := k.cur, k.tcb[k.cur];
    x := x.(stat := x.stat + {FlagBit}, pendTO := false, dly := timeout, event := None);
    k.PutTcb(t, x.(node := Some(FlagNode(g, wanted, w))));
    k.PushNode(g, t);
    k.Unready(x.prio);
    k.GoTo(t, InFlag(g, w, consume));
  }

  lemma NotWaiting(s: State, t: nat)
    requires CoreInv(s) && t in s.list && t < |s.tcb| && s.tcb[t].node == None
    ensures forall h: nat :: h < |s.grp| ==> t !in s.grp[h].waiters
  {
    RecordsHold(s, t);
  }

  /** Consuming flags of a group, if that is asked for. */
  method Consume(k: Kernel, g: nat, rdy: Flags, w: WaitType, consume: bool)
    requires k.Valid() && g < |k.s.grp|
    modifies k.Repr()
    ensures k.Valid() && k.s == SetFlags(old(k.s), g, if consume then Consumed(old(k.s).grp[g].flags, rdy, w) else old(k.s).grp[g].flags)
  {
    var left := k.groups.flags[g];
    if consume {
      left := ConsumeFlags(left, rdy, w);
    }
    k.PutFlags(g, left);
  }

  /** OSFlagPend up to OS_Sched. */
  method PendBegin(k: Kernel, g: nat, wanted: Flags, w: WaitType, consume: bool, timeout: nat) returns (got: bool)
    requires k.Valid() && CoreInv(k.s) && Calling(k.s) && g < |k.s.grp|
    modifies k.Repr()
    ensures k.Valid() && k.s == FlagPend(old(k.s), g, wanted, w, consume, timeout)
    ensures got == Satisfied(old(k.s).grp[g].flags, wanted, w)
  {
    var rdy;
    rdy, got := CheckFlags(k.groups.flags[g], wanted, w);
    if got {
      k.PutTcb(k.cur, k.tcb[k.cur].(flagsRdy := rdy));
      Consume(k, g, rdy, w, consume);
    } else {
      LiveTask(k.s, k.cur);
      NotWaiting(k.s, k.cur);
      FlagBlock(k, g, wanted, w, consume, timeout);
    }
  }

  /** The timeout branch of OSFlagPend. */
  method FlagTO(k: Kernel)
    requires k.Valid() && CoreInv(k.s) && k.cur in k.s.list && k.cur < |k.s.tcb| && k.s.tcb[k.cur].node.Some?
    modifies k.Repr()
    ensures k.Valid() && k.s == KernelState.FlagTO(old(k.s), old(k.cur))
  {
    LiveTask(k.s, k.cur);
    var t := k.cur;
    FlagUnlink(k, t);
    k.PutTcb(t, k.tcb[t].(pendTO := false, stat := {}));
    k.GoTo(t, User);
  }

  /** OSFlagPend after OS_Sched; the arguments are those of the call. */
  method PendEnd(k: Kernel, g: nat, w: WaitType, consume: bool) returns (rdy: Flags, err: Err)
    requires k.Valid() && CoreInv(k.s) && FlagEnabled(k.s, EndFlags) && k.s.phase[k.cur] == InFlag(g, w, consume)
    modifies k.Repr()
    ensures old(k.s).phase[old(k.cur)].g < |old(k.s).grp|
    ensures k.Valid() && k.s == FlagResume(old(k.s))
    ensures rdy == if old(k.s).tcb[old(k.cur)].pendTO then {} else old(k.s).tcb[old(k.cur)].flagsRdy
    ensures err == if old(k.s).tcb[old(k.cur)].pendTO then Timeout else NoErr
  {
    LiveTask(k.s, k.cur);
    if k.tcb[k.cur].pendTO {
      FlagTO(k);
      rdy, err := {}, Timeout;
    } else {
      err := NoErr;
      rdy := k.tcb[k.cur].flagsRdy;
      k.GoTo(k.cur, User);
      if consume {
        Consume(k, g, rdy, w, true);
      }
    }
  }

  // ---------------------------------------------------------------- the walk of OSFlagPost

  /** What the walk does at the node of task t. */
  ghost function Visited(s: State, g: nat, t: nat): State
  {
    if g < |s.grp| && Met(s, t, s.grp[g].flags)
    then KernelState.FlagTaskRdy(s, t, FlagsMet(s.grp[g].flags, s.tcb[t].node.value.flags, s.tcb[t].node.value.wait))
    else s
  }

  /** The state when the walk has come to position i. */
  ghost function WalkedTo(s: State, g: nat, l: seq<nat>, i: nat): State
    requires i <= |l|
  {
    if i == 0 then s else Visited(WalkedTo(s, g, l, i - 1), g, l[i - 1])
  }

  /** The nodes before position i that are still linked. */
  ghost function StillLinked(s: State, g: nat, l: seq<nat>, i: nat): seq<nat>
    requires i <= |l|
  {
    if i == 0 then []
    else
      var s1 := WalkedTo(s, g, l, i - 1);
      StillLinked(s, g, l, i - 1) + if g < |s1.grp| && Met(s1, l[i - 1], s1.grp[g].flags) then [] else [l[i - 1]]
  }

  ghost predicate WalkGoesOn(s: State, g: nat, l: seq<nat>, i: nat)
    requires i <= |l| && g < |s.grp| && InTable(s, l)
  {
    var s1 := WalkedTo(s, g, l, i);
    CoreInv(s1) && Ahead(s1, g, StillLinked(s, g, l, i), l[i..]) && FlagWalk(s1, g, l[i..]) == FlagWalk(s, g, l)
  }

  lemma {:induction false} WalkIsThere(s: State, g: nat, l: seq<nat>, i: nat)
    requires CoreInv(s) && g < |s.grp| && s.grp[g].waiters == l && i <= |l|
    ensures InTable(s, l) && WalkGoesOn(s, g, l, i)
  {
    if i == 0 {
      WalkBegins(s, g, l);
    } else {
      WalkIsThere(s, g, l, i - 1);
      WalkMoves(s, g, l, i);
    }
  }

  lemma WalkBegins(s: State, g: nat, l: seq<nat>)
    requires CoreInv(s) && g < |s.grp| && s.grp[g].waiters == l
    ensures InTable(s, l) && WalkGoesOn(s, g, l, 0)
  {
    GroupInTable(s, g);
    assert [] + l == l && l[0..] == l;
    assert Ahead(s, g, [], l);
  }

  lemma WalkMoves(s: State, g: nat, l: seq<nat>, i: nat)
    requires g < |s.grp| && InTable(s, l) && 0 < i <= |l| && WalkGoesOn(s, g, l, i - 1)
    ensures WalkGoesOn(s, g, l, i)
  {
    var s1, kept, rest := WalkedTo(s, g, l, i - 1), StillLinked(s, g, l, i - 1), l[i - 1..];
    var t := rest[0];
    assert rest[1..] == l[i..] && t == l[i - 1];
    FirstIsExact(s1, g, kept, rest);
    assert t == s1.grp[g].waiters[|kept|];
    GroupInTable(s1, g);
    if Met(s1, t, s1.grp[g].flags) {
      FlagTaskRdyKeeps(s1, t, FlagsMet(s1.grp[g].flags, s1.tcb[t].node.value.flags, s1.tcb[t].node.value.wait));
      assert kept + [] == kept;
    }
  }

  /** The node of task t can be visited; it stands between kept and the rest of the list. */
  ghost predicate AtNode(s: State, g: nat, t: nat, kept: seq<nat>, rest: seq<nat>)
  {
    && g < |s.grp| && rest != [] && t == rest[0] && s.grp[g].waiters == kept + rest && t in s.grp[g].waiters
    && t < |s.tcb| && s.tcb[t].prio < MAX_PRIO && s.tcb[t].node.Some? && s.tcb[t].node.value.grp == g
  }

  lemma WalkFinds(s: State, g: nat, l: seq<nat>, i: nat)
    requires CoreInv(s) && g < |s.grp| && s.grp[g].waiters == l && i <= |l|
    ensures InTable(s, l)
    ensures i < |l| ==> AtNode(WalkedTo(s, g, l, i), g, l[i], StillLinked(s, g, l, i), l[i..])
    ensures i == |l| ==> WalkedTo(s, g, l, i) == FlagWalk(s, g, l)
  {
    WalkIsThere(s, g, l, i);
    if i < |l| {
      var s1, kept := WalkedTo(s, g, l, i), StillLinked(s, g, l, i);
      assert l[i..][0] == l[i] && l[i] == s1.grp[g].waiters[|kept|];
      GroupInTable(s1, g);
      LiveTask(s1, l[i]);
    } else {
      assert l[i..] == [];
    }
  }

  /** Nodes that the walk has not come to are as they were. */
  lemma {:induction false} NotYetVisited(s: State, g: nat, l: seq<nat>, i: nat, u: nat)
    requires i <= |l| && u !in l[..i] && u < |s.tcb| && g < |s.grp|
    ensures var s1 := WalkedTo(s, g, l, i);
            u < |s1.tcb| && g < |s1.grp| && s1.tcb[u] == s.tcb[u] && s1.grp[g].flags == s.grp[g].flags
  {
    if i > 0 {
      assert l[i - 1] in l[..i] && forall x :: x in l[..i - 1] ==> x in l[..i];
      NotYetVisited(s, g, l, i - 1, u);
    }
  }

  lemma RisesAsBefore(s: State, g: nat, l: seq<nat>, i: nat)
    requires CoreInv(s) && g < |s.grp| && s.grp[g].waiters == l && i < |l|
    ensures Rises(WalkedTo(s, g, l, i), g, l[i]) <==> Rises(s, g, l[i])
  {
    GroupInTable(s, g);
    assert GroupOk(s, g);
    NotYetVisited(s, g, l, i, l[i]);
  }

  /** The head of the node list. */
  method FirstNode(k: Kernel, g: nat) returns (p: int)
    requires k.Valid() && g < |k.s.grp|
    ensures p == At(k.s.grp[g].waiters, 0)
  {
    assert k.groups.Linked(g);
    p := k.groups.heads[g];
  }

  /** The forward link of a node of the list, as the walks read it. */
  method NextNode(k: Kernel, g: nat, t: nat, ghost kept: seq<nat>, ghost rest: seq<nat>) returns (n: int)
    requires k.Valid() && AtNode(k.s, g, t, kept, rest)
    ensures t < k.groups.next.Length && n == k.groups.next[t] == At(rest, 1)
  {
    assert k.groups.Linked(g);
    assert Forward(k.groups.next[..], k.s.grp[g].waiters, |kept|);
    assert At(kept + rest, |kept| + 1) == At(rest, 1);
    n := k.groups.next[t];
  }

  /** One round of the loop of OSFlagPost. The link is read after the node has been unlinked. */
  method PostNode(k: Kernel, g: nat, t: nat, ghost kept: seq<nat>, ghost rest: seq<nat>) returns (n: int, sched: bool)
    requires k.Valid() && AtNode(k.s, g, t, kept, rest) && t < k.groups.next.Length
    modifies k.Repr()
    ensures k.Valid() && k.s == Visited(old(k.s), g, t) && n == old(k.groups.next[t])
    ensures sched <==> Rises(old(k.s), g, t)
  {
    var nd := k.tcb[t].node.value;
    var rdy, ok := CheckFlags(k.groups.flags[g], nd.flags, nd.wait);
    sched := false;
    if ok {
      sched := FlagTaskRdy(k, t, rdy);
    }
    n := k.groups.next[t];
  }

  /** The new flags of OSFlagPost, by its option. */
  method PostedWord(word: Flags, flags: Flags, toSet: bool) returns (f: Flags)
    ensures f == PostedFlags(word, flags, toSet)
    ensures forall x: nat :: x in f <==> if x in flags then toSet else x in word
  {
    if toSet {
      f := word + flags;
    } else {
      f := word - flags;
    }
  }

  /** OSFlagPost: the wait list is walked while nodes of it are unlinked. */
  method Post(k: Kernel, g: nat, flags: Flags, toSet: bool) returns (sched: bool)
    requires k.Valid() && CoreInv(k.s) && g < |k.s.grp|
    modifies k.Repr()
    ensures InTable(old(k.s), old(k.s).grp[g].waiters)
    ensures k.Valid() && k.s == FlagPost(old(k.s), g, flags, toSet)
    ensures g < |k.s.grp| && FlagEffects.SetOrCleared(k.s.grp[g].flags, old(k.s).grp[g].flags, flags, toSet)
    ensures var s1 := SetFlags(old(k.s), g, PostedFlags(old(k.s).grp[g].flags, flags, toSet));
            sched <==> exists t: nat :: t in s1.grp[g].waiters && Rises(s1, g, t)
  {
    GroupInTable(k.s, g);
    FlagEffects.PostWakesExactly(k.s, g, flags, toSet);
    var f := PostedWord(k.groups.flags[g], flags, toSet);
    SetFlagsKeeps(k.s, g, f);
    k.PutFlags(g, f);
    sched := WalkNodes(k, g);
  }

  /** One of the first i nodes makes OSFlagPost reschedule. */
  ghost predicate SomeRises(s: State, g: nat, l: seq<nat>, i: nat)
  {
    exists j: nat :: j < i && j < |l| && Rises(s, g, l[j])
  }

  lemma OneMoreRises(s: State, g: nat, l: seq<nat>, i: nat)
    requires i < |l|
    ensures SomeRises(s, g, l, i + 1) <==> SomeRises(s, g, l, i) || Rises(s, g, l[i])
  {
    if Rises(s, g, l[i]) {
      assert i < i + 1;
    }
  }

  /** The walk can visit the node when it comes to it, and the node counts as it would at the start. */
  ghost predicate WalkFindsAt(s: State, g: nat, l: seq<nat>, i: nat)
  {
    && i < |l| && AtNode(WalkedTo(s, g, l, i), g, l[i], StillLinked(s, g, l, i), l[i..])
    && (Rises(WalkedTo(s, g, l, i), g, l[i]) <==> Rises(s, g, l[i]))
  }

  method WalkRound(k: Kernel, g: nat, p: nat, ghost s0: State, ghost l: seq<nat>, ghost i: nat) returns (n: int, sched: bool)
    requires WalkFindsAt(s0, g, l, i) && p == l[i]
    requires k.Valid() && k.s == WalkedTo(s0, g, l, i)
    modifies k.Repr()
    ensures k.Valid() && k.s == WalkedTo(s0, g, l, i + 1) && n == At(l, i + 1) && (sched <==> Rises(s0, g, p))
  {
    var link := NextNode(k, g, p, StillLinked(s0, g, l, i), l[i..]);
    n, sched := PostNode(k, g, p, StillLinked(s0, g, l, i), l[i..]);
  }

  /** The loop of OSFlagPost. */
  method WalkNodes(k: Kernel, g: nat) returns (sched: bool)
    requires k.Valid() && CoreInv(k.s) && g < |k.s.grp|
    modifies k.Repr()
    ensures InTable(old(k.s), old(k.s).grp[g].waiters)
    ensures k.Valid() && k.s == FlagWalk(old(k.s), g, old(k.s).grp[g].waiters)
    ensures sched <==> exists t: nat :: t in old(k.s).grp[g].waiters && Rises(old(k.s), g, t)
  {
    ghost var s0, l, i := k.s, k.s.grp[g].waiters, 0;
    WalkFinds(s0, g, l, |l|);
    forall j: nat | j < |l|
      ensures WalkFindsAt(s0, g, l, j)
    {
      WalkFinds(s0, g, l, j);
      RisesAsBefore(s0, g, l, j);
    }
    sched := false;
    var p := FirstNode(k, g);
    while p != NIL
      invariant i <= |l| && k.Valid() && k.s == WalkedTo(s0, g, l, i) && p == At(l, i)
      invariant sched <==> SomeRises(s0, g, l, i)
      decreases |l| - i
    {
      OneMoreRises(s0, g, l, i);
      var rdy;
      p, rdy := WalkRound(k, g, p, s0, l, i);
      sched := sched || rdy;
      i := i + 1;
    }
  }

  // ---------------------------------------------------------------- the loop of OSFlagDel

  /** What the loop does at the node of task t. */
  ghost function Released(s: State, t: nat): State
  {
    if t < |s.tcb| then KernelState.FlagTaskRdy(s, t, {}) else s
  }

  ghost function ReadiedTo(s: State, l: seq<nat>, i: nat): State
    requires i <= |l|
  {
    if i == 0 then s else Released(ReadiedTo(s, l, i - 1), l[i - 1])
  }

  ghost predicate DelGoesOn(s: State, g: nat, l: seq<nat>, i: nat)
    requires i <= |l| && InTable(s, l)
  {
    var s1 := ReadiedTo(s, l, i);
    && CoreInv(s1) && g < |s1.grp| && s1.grp[g].waiters == l[i..] && InTable(s1, l[i..])
    && FlagReadyAll(s1, l[i..]) == FlagReadyAll(s, l)
  }

  lemma {:induction false} DelIsThere(s: State, g: nat, l: seq<nat>, i: nat)
    requires CoreInv(s) && g < |s.grp| && s.grp[g].waiters == l && i <= |l|
    ensures InTable(s, l) && DelGoesOn(s, g, l, i)
  {
    if i == 0 {
      DelBegins(s, g, l);
    } else {
      DelIsThere(s, g, l, i - 1);
      DelMoves(s, g, l, i);
    }
  }

  lemma DelBegins(s: State, g: nat, l: seq<nat>)
    requires CoreInv(s) && g < |s.grp| && s.grp[g].waiters == l
    ensures InTable(s, l) && DelGoesOn(s, g, l, 0)
  {
    GroupInTable(s, g);
    assert l[0..] == l;
  }

  lemma DelMoves(s: State, g: nat, l: seq<nat>, i: nat)
    requires InTable(s, l) && 0 < i <= |l| && DelGoesOn(s, g, l, i - 1)
    ensures DelGoesOn(s, g, l, i)
  {
    var s1, rest := ReadiedTo(s, l, i - 1), l[i - 1..];
    assert rest[1..] == l[i..] && rest[0] == l[i - 1] && rest[0] in rest;
    GroupInTable(s1, g);
    FlagTaskRdyKeeps(s1, rest[0], {});
    RemoveIsWithout(rest, 0);
    GroupInTable(KernelState.FlagTaskRdy(s1, rest[0], {}), g);
  }

  lemma DelFinds(s: State, g: nat, l: seq<nat>, i: nat)
    requires CoreInv(s) && g < |s.grp| && s.grp[g].waiters == l && i < |l|
    ensures AtNode(ReadiedTo(s, l, i), g, l[i], [], l[i..])
  {
    DelIsThere(s, g, l, i);
    var s1 := ReadiedTo(s, l, i);
    assert [] + l[i..] == l[i..] && l[i..][0] == l[i] && l[i] in l[i..];
    GroupInTable(s1, g);
    LiveTask(s1, l[i]);
  }

  lemma DelEnds(s: State, g: nat, l: seq<nat>)
    requires CoreInv(s) && g < |s.grp| && s.grp[g].waiters == l
    ensures InTable(s, l) && ReadiedTo(s, l, |l|) == FlagReadyAll(s, l)
  {
    DelIsThere(s, g, l, |l|);
    assert l[|l|..] == [];
  }

  /** The node of task t, the first of what is left of the list, is taken out. */
  method DelNode(k: Kernel, g: nat, t: nat, ghost rest: seq<nat>) returns (n: int)
    requires k.Valid() && AtNode(k.s, g, t, [], rest)
    modifies k.Repr()
    ensures k.Valid() && k.s == Released(old(k.s), t) && n == At(rest, 1)
  {
    var link := NextNode(k, g, t, [], rest);
    var sched := FlagTaskRdy(k, t, {});
    n := k.groups.next[t];
  }

  /** The node is the first one left when the loop comes to it. */
  ghost predicate DelFindsAt(s: State, g: nat, l: seq<nat>, i: nat)
  {
    i < |l| && AtNode(ReadiedTo(s, l, i), g, l[i], [], l[i..])
  }

  /** One round of the loop of OSFlagDel. */
  method DelRound(k: Kernel, g: nat, t: nat, ghost s0: State, ghost l: seq<nat>, ghost i: nat) returns (n: int)
    requires DelFindsAt(s0, g, l, i) && t == l[i]
    requires k.Valid() && k.s == ReadiedTo(s0, l, i)
    modifies k.Repr()
    ensures k.Valid() && k.s == ReadiedTo(s0, l, i + 1) && n == At(l, i + 1)
  {
    n := DelNode(k, g, t, l[i..]);
    assert At(l[i..], 1) == At(l, i + 1);
  }

  method ReadyAllNodes(k: Kernel, g: nat)
    requires k.Valid() && CoreInv(k.s) && g < |k.s.grp|
    modifies k.Repr()
    ensures k.Valid() && k.s == ReadiedTo(old(k.s), old(k.s).grp[g].waiters, |old(k.s).grp[g].waiters|)
  {
    ghost var s0, l, i := k.s, k.s.grp[g].waiters, 0;
    forall j: nat | j < |l|
      ensures DelFindsAt(s0, g, l, j)
    {
      DelFinds(s0, g, l, j);
    }
    var p := FirstNode(k, g);
    while p != NIL
      invariant i <= |l| && k.Valid() && k.s == ReadiedTo(s0, l, i) && p == At(l, i)
      decreases |l| - i
    {
      p := DelRound(k, g, p, s0, l, i);
      i := i + 1;
    }
  }

  /** The switch of OSFlagDel. */
  method DelAt(k: Kernel, g: nat, always: bool) returns (deleted: bool)
    requires k.Valid() && CoreInv(k.s) && g < |k.s.grp|
    modifies k.Repr()
    ensures InTable(old(k.s), old(k.s).grp[g].waiters)
    ensures k.Valid() && k.s == FlagDel(old(k.s), g, always)
    ensures deleted <==> always || old(k.s).grp[g].waiters == []
  {
    GroupInTable(k.s, g);
    if always {
      FlagReadyAllKeeps(k.s, g, k.s.grp[g].waiters);
      DelEnds(k.s, g, k.s.grp[g].waiters);
      ReadyAllNodes(k, g);
    }
    assert k.groups.Linked(g);
    deleted := k.groups.heads[g] == NIL;
    if deleted {
      k.PutUse(g, false, {});
    }
  }

  /** OSFlagDel; sched tells whether it calls OS_Sched at the end. */
  method Del(k: Kernel, g: nat, always: bool) returns (deleted: bool, sched: bool)
    requires k.Valid() && CoreInv(k.s) && g < |k.s.grp|
    modifies k.Repr()
    ensures InTable(old(k.s), old(k.s).grp[g].waiters)
    ensures k.Valid() && k.s == FlagDel(old(k.s), g, always)
    ensures deleted <==> always || old(k.s).grp[g].waiters == []
    ensures sched <==> always && old(k.s).grp[g].waiters != []
  {
    var head := FirstNode(k, g);
    sched := always && head != NIL;
    deleted := DelAt(k, g, always);
  }

  /** OSFlagCreate; g is the head of OSFlagFreeList. */
  method Create(k: Kernel, g: int, flags: Flags) returns (ok: bool)
    requires k.Valid() && CoreInv(k.s) && (g == NIL || (0 <= g < |k.s.grp| && !k.s.grp[g].used))
    modifies k.Repr()
    ensures ok <==> g != NIL
    ensures k.Valid() && k.s == if ok then FlagCreate(old(k.s), g, flags) else old(k.s)
  {
    ok := g != NIL;
    if ok {
      assert GroupOk(k.s, g);
      k.PutUse(g, true, flags);
    }
  }
}
