/** The two lists of task control blocks: OSTCBList, doubly linked, and OSTCBFreeList, which uses the
    forward links only. */
module TaskLists {
  import opened IndexLists

  class TcbLists {
    const next: array<int>     // OSTCBNext
    const prev: array<int>     // OSTCBPrev
    var head: int              // OSTCBList
    var freeHead: int          // OSTCBFreeList
    var ctr: nat               // OSTaskCtr
    ghost var list: seq<nat>
    ghost var free: seq<nat>

    ghost predicate Valid()
      reads this, next, prev
    {
      && next != prev && next.Length == prev.Length
      && Chain(head, next[..], list) && BackLinks(prev[..], list) && Chain(freeHead, next[..], free)
      && (forall t :: t in list ==> t !in free) && ctr == |list|
    }

    /** OS_InitTCBList */
    constructor (n: nat)
      requires n > 0
      ensures Valid() && next.Length == n && list == [] && free == Upto(n) && fresh(next) && fresh(prev)
    {
      next := new int[n](_ => NIL);
      prev := new int[n](_ => NIL);
      head, freeHead, ctr := NIL, 0, 0;
      list, free := [], Upto(n);
      new;
      var i := 0;
      while i < n - 1
        invariant 0 <= i <= n - 1 && head == NIL && freeHead == 0 && ctr == 0 && list == [] && free == Upto(n)
        invariant forall j :: 0 <= j < n ==> next[j] == if j < i then j + 1 else NIL
      {
        next[i] := i + 1;
        i := i + 1;
      }
      forall j | 0 <= j < n
        ensures Forward(next[..], free, j)
      {
      }
    }

    /** OSTCBFreeList = ptcb->OSTCBNext */
    method Take() returns (t: nat)
      requires Valid() && free != []
      modifies this
      ensures Valid() && t == old(free)[0] && free == old(free)[1..] && list == old(list) && t < next.Length
    {
      PopFront(freeHead, next[..], free);
      t := freeHead;
      freeHead := next[t];
      assert forall x :: x in free[1..] ==> x in free;
      free := free[1..];
    }

    /** The list part of OS_TCBInit: a TCB that has been taken goes to the head of the list. */
    method Link(t: nat)
      requires Valid() && t < next.Length && t !in list && t !in free
      modifies this, next, prev
      ensures Valid() && list == [t] + old(list) && free == old(free)
    {
      ghost var next0, prev0 := next[..], prev[..];
      ChainBounds(head, next[..], list);
      assert list != [] ==> list[0] in list;
      next[t] := head;
      prev[t] := NIL;
      if head != NIL {
        prev[head] := t;
      }
      PushFront(head, next0, list, t, next[..]);
      PushFrontBack(prev0, list, t, prev[..]);
      head := t;
      list := [t] + list;
      ctr := ctr + 1;
      ChainFrame(freeHead, next0, free, next[..]);
    }

    /** The list part of OSTaskDel. Its two branches both follow the forward link of t, which is
        safe because the idle task comes last and is never deleted. */
    method Unlink(t: nat)
      requires Valid() && t in list && t != list[|list| - 1]
      modifies this, next, prev
      ensures Valid() && list == Remove(old(list), t) && free == [t] + old(free)
    {
      ghost var k :| 0 <= k < |list| && list[k] == t;
      ghost var next0, prev0, head0 := next[..], prev[..], head;
      ChainBounds(head, next[..], list);
      assert list[k] in list && list[k + 1] in list && (k > 0 ==> list[k - 1] in list);
      assert Forward(next[..], list, k) && Backward(prev[..], list, k);
      if prev[t] == NIL {
        prev[next[t]] := NIL;
        head := next[t];
      } else {
        next[prev[t]] := next[t];
        prev[next[t]] := prev[t];
      }
      ghost var l := Without(list, k);
      TakeOut(head0, next0, list, k, next[..]);
      TakeOutBack(prev0, list, k, prev[..]);
      WithoutMembers(list, k);
      RemoveIsWithout(list, k);
      ghost var next1 := next[..];
      ChainFrame(freeHead, next0, free, next1);
      next[t] := freeHead;
      ChainFrame(head, next1, l, next[..]);
      PushFront(freeHead, next1, free, t, next[..]);
      freeHead := t;
      ctr := ctr - 1;
      list, free := l, [t] + free;
    }
  }
}
