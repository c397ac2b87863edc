/** The event control blocks: what each is used for, its wait list as bitmaps, and the list of the
    free ones. */
module EventTables {
  import opened IndexLists
  import opened PrioritySet
  import opened KernelState

  /** One empty wait list for every event control block. */
  method WaitLists(n: nat) returns (waits: seq<PrioSet>)
    ensures |waits| == n
    ensures forall e :: 0 <= e < n ==>
              fresh(waits[e]) && fresh(waits[e].tbl) && waits[e].Valid() && waits[e].members == {}
    ensures forall e, f :: 0 <= e < f < n ==> waits[e] != waits[f] && waits[e].tbl != waits[f].tbl
  {
    waits := [];
    while |waits| < n
      invariant |waits| <= n
      invariant forall e :: 0 <= e < |waits| ==>
        fresh(waits[e]) && fresh(waits[e].tbl) && waits[e].Valid() && waits[e].members == {}
      invariant forall e, f :: 0 <= e < f < |waits| ==> waits[e] != waits[f] && waits[e].tbl != waits[f].tbl
    {
      var w := new PrioSet();
      waits := waits + [w];
    }
  }

  class EventTable {
    const kinds: array<Kind>          // OSEventType, OSEventCnt, OSEventPtr
    const waits: seq<PrioSet>         // OSEventGrp, OSEventTbl
    const next: array<int>            // OSEventPtr as the link of the free list
    var freeHead: int                 // OSEventFreeList
    ghost var ev: seq<Event>
    ghost var free: seq<nat>
    ghost const parts: set<object>

    ghost predicate Part(e: nat)
    {
      && e < |waits| && waits[e] in parts && waits[e].tbl in parts
      && waits[e].tbl as object != kinds && waits[e].tbl as object != next
    }

    ghost predicate Apart(e: nat, f: nat)
    {
      e < |waits| && f < |waits| && waits[e] != waits[f] && waits[e].tbl != waits[f].tbl
    }

    ghost predicate Layout()
    {
      && kinds in parts && next in parts && this !in parts && kinds as object != next
      && (forall e: nat :: e < |waits| ==> Part(e))
      && (forall e: nat, f: nat :: e < f < |waits| ==> Apart(e, f))
      && kinds.Length == |waits| == next.Length
    }

    /** The bitmaps of event e hold its waiters. */
    ghost predicate Holds(e: nat)
      requires Part(e)
      reads this`ev, waits[e], waits[e].tbl
    {
      waits[e].Valid() && e < |ev| && waits[e].members == ev[e].waiters
    }

    ghost predicate Kinds()
      reads this`ev, kinds
    {
      |ev| == kinds.Length && forall e :: 0 <= e < |ev| ==> kinds[e] == ev[e].kind
    }

    ghost predicate Valid()
      reads this, parts
    {
      && Layout() && Kinds()
      && (forall e: nat :: e < |waits| ==> Part(e) && Holds(e))
      && Chain(freeHead, next[..], free)
    }

    /** OS_InitEventList */
    constructor (n: nat)
      ensures Valid() && ev == seq(n, _ => Event(Unused, {})) && free == Upto(n)
      ensures fresh(this) && fresh(parts)
    {
      var links := FreeLinks(n);
      var w := WaitLists(n);
      var k := new Kind[n](_ => Unused);
      kinds, waits, next := k, w, links;
      freeHead := if n == 0 then NIL else 0;
      ev, free := seq(n, _ => Event(Unused, {})), Upto(n);
      parts := {k, links} + (set e | 0 <= e < n :: w[e] as object) + (set e | 0 <= e < n :: w[e].tbl as object);
      new;
      forall e: nat | e < n
        ensures Part(e) && Holds(e)
      {
      }
      forall e: nat, f: nat | e < f < n
        ensures Apart(e, f)
      {
      }
    }

    /** Grp |= bity; Tbl[y] |= bitx */
    method Insert(e: nat, prio: nat)
      requires Valid() && e < |ev| && prio < MAX_PRIO
      modifies this`ev, parts
      ensures Valid() && ev == old(ev)[e := old(ev)[e].(waiters := old(ev)[e].waiters + {prio})]
    {
      assert Part(e) && Holds(e);
      waits[e].Insert(prio);
      ev := ev[e := ev[e].(waiters := ev[e].waiters + {prio})];
      forall f: nat | f < |waits|
        ensures Part(f) && Holds(f)
      {
        assert f != e ==> old(Holds(f)) && (Apart(e, f) || Apart(f, e));
      }
    }

    /** if ((Tbl[y] &= ~bitx) == 0) Grp &= ~bity */
    method Remove(e: nat, prio: nat)
      requires Valid() && e < |ev| && prio < MAX_PRIO
      modifies this`ev, parts
      ensures Valid() && ev == old(ev)[e := old(ev)[e].(waiters := old(ev)[e].waiters - {prio})]
    {
      assert Part(e) && Holds(e);
      waits[e].Remove(prio);
      ev := ev[e := ev[e].(waiters := ev[e].waiters - {prio})];
      forall f: nat | f < |waits|
        ensures Part(f) && Holds(f)
      {
        assert f != e ==> old(Holds(f)) && (Apart(e, f) || Apart(f, e));
      }
    }

    /** OSEventGrp == 0 */
    method NoWaiters(e: nat) returns (b: bool)
      requires Valid() && e < |ev|
      ensures b <==> ev[e].waiters == {}
    {
      assert Part(e) && Holds(e);
      b := waits[e].IsEmpty();
    }

    /** The search of OS_EventTaskRdy. */
    method FirstPrio(e: nat) returns (prio: nat)
      requires Valid() && e < |ev| && ev[e].waiters != {}
      ensures IsLeast(ev[e].waiters, prio) && prio < MAX_PRIO
    {
      assert Part(e) && Holds(e);
      prio := waits[e].Least();
    }

    method SetKind(e: nat, k: Kind)
      requires Valid() && e < |ev|
      modifies this`ev, parts
      ensures Valid() && ev == old(ev)[e := old(ev)[e].(kind := k)]
    {
      kinds[e] := k;
      ev := ev[e := ev[e].(kind := k)];
      forall f: nat | f < |waits|
        ensures Part(f) && Holds(f)
      {
        assert Part(f) && old(Holds(f));
      }
    }

    /** The head of the free list comes into use, with an empty wait list (OS_EventWaitListInit). */
    method Take(k: Kind) returns (e: nat)
      requires Valid() && free != [] && free[0] < |ev|
      modifies this, parts
      ensures Valid() && e == old(free)[0] && free == old(free)[1..] && ev == old(ev)[e := Event(k, {})]
    {
      PopFront(freeHead, next[..], free);
      e := freeHead;
      freeHead := next[e];
      free := free[1..];
      kinds[e] := k;
      assert Part(e) && old(Holds(e));
      waits[e].Clear();
      ev := ev[e := Event(k, {})];
      forall f: nat | f < |waits|
        ensures Part(f) && Holds(f)
      {
        assert Part(f) && (f != e ==> old(Holds(f)) && (Apart(e, f) || Apart(f, e)));
      }
    }

    /** The event control block goes back to the free list. */
    method Give(e: nat)
      requires Valid() && e < |ev| && e !in free
      modifies this, parts
      ensures Valid() && free == [e] + old(free) && ev == old(ev)[e := old(ev)[e].(kind := Unused)]
    {
      kinds[e] := Unused;
      ghost var next0 := next[..];
      next[e] := freeHead;
      PushFront(freeHead, next0, free, e, next[..]);
      freeHead := e;
      free := [e] + free;
      ev := ev[e := ev[e].(kind := Unused)];
      forall f: nat | f < |waits|
        ensures Part(f) && Holds(f)
      {
        assert Part(f) && old(Holds(f));
      }
    }
  }
}
