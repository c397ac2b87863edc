/** Linked lists whose nodes live in a static table, as all lists of the kernel do: a pointer is
    the index of a node, and NIL is the null pointer. A ghost sequence gives the order of the
    nodes. */
module IndexLists {

  const NIL: int := -1

  ghost predicate Distinct(l: seq<nat>)
  {
    forall i, j :: 0 <= i < j < |l| ==> l[i] != l[j]
  }

  /** All nodes of a table, in order. */
  ghost function Upto(n: nat): seq<nat>
  {
    seq(n, i => i)
  }

  ghost function Elements(l: seq<nat>): set<nat>
  {
    set x | x in l
  }

  lemma {:induction false} Cardinality(l: seq<nat>)
    requires Distinct(l)
    ensures |Elements(l)| == |l|
  {
    if l != [] {
      Cardinality(l[1..]);
      assert Elements(l) == Elements(l[1..]) + {l[0]};
      assert l[0] !in l[1..];
    }
  }

  lemma UptoElements(n: nat)
    ensures |Elements(Upto(n))| == n && forall x: nat :: x in Elements(Upto(n)) <==> x < n
  {
    Cardinality(Upto(n));
    forall x: nat
      ensures x in Elements(Upto(n)) <==> x < n
    {
      assert x < n ==> Upto(n)[x] == x;
    }
  }

  /** The node at a position of the list; NIL before the first and after the last. */
  ghost function At(l: seq<nat>, i: int): int
  {
    if 0 <= i < |l| then l[i] else NIL
  }

  /** The node at position i points to the one after it. */
  ghost predicate Forward(next: seq<int>, l: seq<nat>, i: nat)
  {
    i < |l| && l[i] < |next| && next[l[i]] == At(l, i + 1)
  }

  /** The node at position i points to the one before it. */
  ghost predicate Backward(prev: seq<int>, l: seq<nat>, i: nat)
  {
    i < |l| && l[i] < |prev| && prev[l[i]] == At(l, i - 1)
  }

  /** Following `next` from `head` visits exactly the nodes of l, in order, and ends. */
  ghost predicate Chain(head: int, next: seq<int>, l: seq<nat>)
  {
    && Distinct(l)
    && head == At(l, 0)
    && (forall i :: 0 <= i < |l| ==> Forward(next, l, i))
  }

  /** Following `prev` runs the list backwards. */
  ghost predicate BackLinks(prev: seq<int>, l: seq<nat>)
  {
    forall i :: 0 <= i < |l| ==> Backward(prev, l, i)
  }

  lemma ChainBounds(head: int, next: seq<int>, l: seq<nat>)
    requires Chain(head, next, l)
    ensures forall x :: x in l ==> x < |next|
  {
    forall i | 0 <= i < |l|
      ensures l[i] < |next|
    {
      assert Forward(next, l, i);
    }
  }

  lemma PushFront(head: int, next: seq<int>, l: seq<nat>, n: nat, next': seq<int>)
    requires Chain(head, next, l) && n !in l && n < |next|
    requires next' == next[n := head]
    ensures Chain(n, next', [n] + l)
  {
    var l' := [n] + l;
    forall i | 0 <= i < |l'|
      ensures Forward(next', l', i)
    {
      if i > 0 {
        assert Forward(next, l, i - 1);
      }
    }
  }

  lemma PushFrontBack(prev: seq<int>, l: seq<nat>, n: nat, prev': seq<int>)
    requires Distinct(l) && BackLinks(prev, l) && n !in l && n < |prev|
    requires l != [] ==> l[0] < |prev|
    requires prev' == if l == [] then prev[n := NIL] else prev[l[0] := n][n := NIL]
    ensures BackLinks(prev', [n] + l)
  {
    var l' := [n] + l;
    forall i | 0 <= i < |l'|
      ensures Backward(prev', l', i)
    {
      if i > 0 {
        assert Backward(prev, l, i - 1);
      }
    }
  }

  ghost function Without(l: seq<nat>, k: nat): seq<nat>
    requires k < |l|
  {
    l[..k] + l[k + 1..]
  }

  lemma WithoutMembers(l: seq<nat>, k: nat)
    requires Distinct(l) && k < |l|
    ensures |Without(l, k)| == |l| - 1 && Distinct(Without(l, k))
    ensures forall i :: 0 <= i < k ==> Without(l, k)[i] == l[i]
    ensures forall i :: k <= i < |l| - 1 ==> Without(l, k)[i] == l[i + 1]
    ensures forall x :: x in Without(l, k) <==> x in l && x != l[k]
  {
    var l' := Without(l, k);
    forall x | x in l && x != l[k]
      ensures x in l'
    {
      var i :| 0 <= i < |l| && l[i] == x;
      assert x == if i < k then l'[i] else l'[i - 1];
    }
  }

  /** The list without one of its nodes. */
  ghost function Remove(l: seq<nat>, x: nat): seq<nat>
  {
    if x in l then
      var k :| 0 <= k < |l| && l[k] == x;
      Without(l, k)
    else l
  }

  lemma RemoveMembers(l: seq<nat>, x: nat)
    requires Distinct(l)
    ensures Distinct(Remove(l, x)) && forall y :: y in Remove(l, x) <==> y in l && y != x
    ensures |Remove(l, x)| == if x in l then |l| - 1 else |l|
  {
    if x in l {
      var k :| 0 <= k < |l| && l[k] == x && Remove(l, x) == Without(l, k);
      WithoutMembers(l, k);
    }
  }

  lemma RemoveIsWithout(l: seq<nat>, k: nat)
    requires Distinct(l) && k < |l|
    ensures Remove(l, l[k]) == Without(l, k)
  {
    assert l[k] in l;
  }

  /** Taking out the node at position k: the head moves if it was first, and otherwise its
      predecessor is linked past it. */
  lemma TakeOut(head: int, next: seq<int>, l: seq<nat>, k: nat, next': seq<int>)
    requires Chain(head, next, l) && k < |l|
    requires l[k] < |next| && (k > 0 ==> l[k - 1] < |next|)
    requires next' == if k == 0 then next else next[l[k - 1] := next[l[k]]]
    ensures Chain(if k == 0 then next[l[0]] else head, next', Without(l, k))
  {
    var l' := Without(l, k);
    WithoutMembers(l, k);
    assert Forward(next, l, k);
    forall i | 0 <= i < |l'|
      ensures Forward(next', l', i)
    {
      assert Forward(next, l, if i < k then i else i + 1);
    }
  }

  lemma TakeOutBack(prev: seq<int>, l: seq<nat>, k: nat, prev': seq<int>)
    requires Distinct(l) && BackLinks(prev, l) && k < |l|
    requires l[k] < |prev| && (k + 1 < |l| ==> l[k + 1] < |prev|)
    requires prev' == if k + 1 == |l| then prev else prev[l[k + 1] := prev[l[k]]]
    ensures BackLinks(prev', Without(l, k))
  {
    var l' := Without(l, k);
    WithoutMembers(l, k);
    assert Backward(prev, l, k);
    forall i | 0 <= i < |l'|
      ensures Backward(prev', l', i)
    {
      assert Backward(prev, l, if i < k then i else i + 1);
    }
  }

  /** Writing the links of nodes that are not in a list leaves the list alone. */
  lemma ChainFrame(head: int, next: seq<int>, l: seq<nat>, next': seq<int>)
    requires Chain(head, next, l) && |next'| == |next|
    requires forall x :: x in l && x < |next| ==> next'[x] == next[x]
    ensures Chain(head, next', l)
  {
    forall i | 0 <= i < |l|
      ensures Forward(next', l, i)
    {
      assert Forward(next, l, i);
    }
  }

  lemma BackFrame(prev: seq<int>, l: seq<nat>, prev': seq<int>)
    requires BackLinks(prev, l) && |prev'| == |prev|
    requires forall x :: x in l && x < |prev| ==> prev'[x] == prev[x]
    ensures BackLinks(prev', l)
  {
    forall i | 0 <= i < |l|
      ensures Backward(prev', l, i)
    {
      assert Backward(prev, l, i);
    }
  }

  /** Taking the first node off: the head moves to the next. */
  lemma PopFront(head: int, next: seq<int>, l: seq<nat>)
    requires Chain(head, next, l) && l != []
    ensures head == l[0] < |next| && Chain(next[l[0]], next, l[1..])
  {
    assert Forward(next, l, 0);
    forall i | 0 <= i < |l| - 1
      ensures Forward(next, l[1..], i)
    {
      assert Forward(next, l, i + 1);
    }
  }

  /** The loop of OS_InitEventList and OSTmr_Init over the links: a list of all nodes in table order. */
  method FreeLinks(n: nat) returns (links: array<int>)
    ensures fresh(links) && links.Length == n && Chain(if n == 0 then NIL else 0, links[..], Upto(n))
  {
    links := new int[n](_ => NIL);
    var i := 0;
    while i + 1 < n
      invariant 0 <= i && (n > 0 ==> i <= n - 1)
      invariant forall j :: 0 <= j < n ==> links[j] == if j < i then j + 1 else NIL
    {
      links[i] := i + 1;
      i := i + 1;
    }
    forall j | 0 <= j < n
      ensures Forward(links[..], Upto(n), j)
    {
    }
  }
}
