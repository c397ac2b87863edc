/** The event flag groups. A node is on the stack of the task that waits, so that a task has at most
    one, and nodes go by the number of their task. */
module FlagTables {
  import opened IndexLists
  import opened KernelState

  class FlagTable {
    const used: array<bool>       // OSFlagType
    const flags: array<Flags>      // OSFlagFlags
    const heads: array<int>       // OSFlagWaitList
    const next: array<int>        // OSFlagNodeNext
    const prev: array<int>        // OSFlagNodePrev
    ghost var grp: seq<FlagGrp>

    ghost function Parts(): set<object>
    {
      {used as object, flags, heads, next, prev}
    }

    ghost predicate Layout()
    {
      && used as object !in {flags as object, heads, next, prev} && flags as object !in {heads as object, next, prev}
      && heads != next && heads != prev && next != prev && next.Length == prev.Length
      && used.Length == flags.Length == heads.Length
    }

    ghost predicate Words()
      requires Layout()
      reads this`grp, used, flags
    {
      |grp| == used.Length && forall g :: 0 <= g < |grp| ==> used[g] == grp[g].used && flags[g] == grp[g].flags
    }

    ghost predicate Linked(g: nat)
      requires Layout() && g < heads.Length
      reads this`grp, heads, next, prev
    {
      g < |grp| && Chain(heads[g], next[..], grp[g].waiters) && BackLinks(prev[..], grp[g].waiters)
    }

    /** No node is in two lists. */
    ghost predicate Apart(g: nat, h: nat)
      reads this`grp
    {
      g < |grp| && h < |grp| && forall t :: t in grp[g].waiters ==> t !in grp[h].waiters
    }

    ghost predicate Valid()
      reads this, Parts()
    {
      && Layout() && Words()
      && (forall g: nat :: g < heads.Length ==> Linked(g))
      && (forall g: nat, h: nat :: g < |grp| && h < |grp| && g != h ==> Apart(g, h))
    }

    /** OS_FlagInit */
    constructor (groups: nat, tasks: nat)
      ensures Valid() && grp == seq(groups, _ => FlagGrp(false, {}, [])) && next.Length == tasks
      ensures fresh(this) && fresh(Parts())
    {
      used := new bool[groups](_ => false);
      flags := new Flags[groups](_ => {});
      heads := new int[groups](_ => NIL);
      next := new int[tasks](_ => NIL);
      prev := new int[tasks](_ => NIL);
      grp := seq(groups, _ => FlagGrp(false, {}, []));
    }

    method SetFlags(g: nat, f: Flags)
      requires Valid() && g < |grp|
      modifies this, flags
      ensures Valid() && grp == old(grp)[g := old(grp)[g].(flags := f)]
    {
      flags[g] := f;
      grp := grp[g := grp[g].(flags := f)];
      forall h: nat | h < heads.Length
        ensures Linked(h)
      {
        assert old(Linked(h));
      }
      forall h: nat, k: nat | h < |grp| && k < |grp| && h != k
        ensures Apart(h, k)
      {
        assert old(Apart(h, k));
      }
    }

    /** A group without waiters comes into use, or goes out of it. */
    method SetUse(g: nat, u: bool, f: Flags)
      requires Valid() && g < |grp| && grp[g].waiters == []
      modifies this, used, flags
      ensures Valid() && grp == old(grp)[g := FlagGrp(u, f, [])]
    {
      used[g] := u;
      flags[g] := f;
      grp := grp[g := FlagGrp(u, f, [])];
      forall h: nat | h < heads.Length
        ensures Linked(h)
      {
        assert old(Linked(h));
      }
      forall h: nat, k: nat | h < |grp| && k < |grp| && h != k
        ensures Apart(h, k)
      {
        assert old(Apart(h, k));
      }
    }

    /** The list part of OS_FlagBlock: the node goes to the head. */
    method Push(g: nat, t: nat)
      requires Valid() && g < |grp| && t < next.Length
      requires forall h: nat :: h < |grp| ==> t !in grp[h].waiters
      modifies this, heads, next, prev
      ensures Valid() && grp == old(grp)[g := old(grp)[g].(waiters := [t] + old(grp)[g].waiters)]
    {
      ghost var next0, prev0, l := next[..], prev[..], grp[g].waiters;
      assert Linked(g);
      ChainBounds(heads[g], next[..], l);
      assert l != [] ==> l[0] in l;
      next[t] := heads[g];
      prev[t] := NIL;
      if heads[g] != NIL {
        prev[heads[g]] := t;
      }
      PushFront(heads[g], next0, l, t, next[..]);
      PushFrontBack(prev0, l, t, prev[..]);
      heads[g] := t;
      grp := grp[g := grp[g].(waiters := [t] + l)];
      forall h: nat | h < heads.Length
        ensures Linked(h)
      {
        if h != g {
          assert old(Linked(h)) && old(Apart(h, g));
          ChainFrame(heads[h], next0, grp[h].waiters, next[..]);
          BackFrame(prev0, grp[h].waiters, prev[..]);
        }
      }
      forall h: nat, k: nat | h < |grp| && k < |grp| && h != k
        ensures Apart(h, k)
      {
        assert old(Apart(h, k));
      }
    }

    /** The links of OS_FlagUnlink, for the node at position k of its list. */
    method LinkPast(g: nat, t: nat, ghost k: nat)
      requires Valid() && g < |grp| && k < |grp[g].waiters| && grp[g].waiters[k] == t
      modifies heads, next, prev
      ensures var l, next0, prev0, heads0 := grp[g].waiters, old(next[..]), old(prev[..]), old(heads[..]);
              && t < |next0| && t < |prev0| && (k > 0 ==> l[k - 1] < |next0|) && (k + 1 < |l| ==> l[k + 1] < |prev0|)
              && next[..] == (if k == 0 then next0 else next0[l[k - 1] := next0[t]])
              && prev[..] == (if k + 1 == |l| then prev0 else prev0[l[k + 1] := prev0[t]])
              && heads[..] == (if k == 0 then heads0[g := next0[t]] else heads0)
    {
      ghost var l := grp[g].waiters;
      assert Linked(g) && Forward(next[..], l, k) && Backward(prev[..], l, k);
      ChainBounds(heads[g], next[..], l);
      assert l[k] in l && (k > 0 ==> l[k - 1] in l) && (k + 1 < |l| ==> l[k + 1] in l);
      var p, n := prev[t], next[t];
      if p == NIL {
        heads[g] := n;
        if n != NIL {
          prev[n] := NIL;
        }
      } else {
        next[p] := n;
        if n != NIL {
          prev[n] := p;
        }
      }
    }

    /** OS_FlagUnlink. The node keeps its own forward link, which the walks of OSFlagPost and
        OSFlagDel rely on. */
    method Unlink(g: nat, t: nat)
      requires Valid() && g < |grp| && t in grp[g].waiters
      modifies this, heads, next, prev
      ensures Valid() && grp == old(grp)[g := old(grp)[g].(waiters := Remove(old(grp)[g].waiters, t))]
      ensures t < next.Length && next[t] == old(next[t])
    {
      ghost var next0, prev0, l := next[..], prev[..], grp[g].waiters;
      ghost var k :| 0 <= k < |l| && l[k] == t;
      assert Linked(g);
      LinkPast(g, t, k);
      TakeOut(old(heads[g]), next0, l, k, next[..]);
      TakeOutBack(prev0, l, k, prev[..]);
      WithoutMembers(l, k);
      RemoveIsWithout(l, k);
      grp := grp[g := grp[g].(waiters := Without(l, k))];
      assert Linked(g);
      forall h: nat | h < heads.Length && h != g
        ensures Linked(h)
      {
        assert old(Linked(h)) && old(Apart(h, g));
        ChainFrame(heads[h], next0, grp[h].waiters, next[..]);
        BackFrame(prev0, grp[h].waiters, prev[..]);
      }
      forall h: nat, m: nat | h < |grp| && m < |grp| && h != m
        ensures Apart(h, m)
      {
        assert old(Apart(h, m));
      }
    }
  }
}
