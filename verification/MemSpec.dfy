/** Memory partitions on values: the free list is threaded through the managed memory itself. The
    word at byte address a (a multiple of 4) is words[a / 4]; address 0 is the null pointer. */
module MemSpec {
  import opened IndexLists

  const WORD: nat := 4

  /** OSMemAddr, OSMemBlkSize, OSMemNBlks. */
  datatype Part = Part(addr: nat, blksize: nat, nblks: nat)

  /** The memory and the two fields of the partition that change. */
  datatype Mem = Mem(words: seq<nat>, freeList: nat, nfree: nat)

  /** What OSMemCreate demands of its arguments (it checks most of it when argument checking is
      compiled in): an aligned, non-null partition that lies within the memory. */
  ghost predicate PartOk(p: Part, size: nat)
  {
    && p.addr > 0 && p.addr % WORD == 0
    && p.blksize >= WORD && p.blksize % WORD == 0
    && p.nblks > 0
    && Block(p, p.nblks) <= WORD * size
  }

  /** The address of block number j. */
  function Block(p: Part, j: nat): nat
  {
    p.addr + j * p.blksize
  }

  /** The address of the i-th block of the list of block numbers l, or null past its end. */
  ghost function Link(p: Part, l: seq<nat>, i: nat): nat
  {
    if i < |l| then Block(p, l[i]) else 0
  }

  ghost predicate LinkOk(p: Part, words: seq<nat>, l: seq<nat>, i: nat)
  {
    && i < |l| && l[i] < p.nblks
    && Block(p, l[i]) / WORD < |words|
    && words[Block(p, l[i]) / WORD] == Link(p, l, i + 1)
  }

  /** Following the links in memory from the head visits exactly the blocks l, each once, and ends. */
  ghost predicate FreeChain(p: Part, m: Mem, l: seq<nat>)
  {
    && Distinct(l)
    && |l| == m.nfree
    && m.freeList == Link(p, l, 0)
    && forall i :: 0 <= i < |l| ==> LinkOk(p, m.words, l, i)
  }

  /** The blocks not on the free list are those the clients hold. */
  ghost predicate Inv(p: Part, m: Mem, l: seq<nat>, out: set<nat>)
  {
    && PartOk(p, |m.words|)
    && FreeChain(p, m, l)
    && out == set j: nat | j < p.nblks && j !in l :: Block(p, j)
  }

  lemma BlockOrder(p: Part, j: nat, k: nat)
    requires p.blksize >= WORD && j < k
    ensures Block(p, j) + p.blksize <= Block(p, k)
  {
    Distribute(j, k - j, p.blksize);
    AtLeastOnce(k - j, p.blksize);
  }

  lemma Distribute(a: int, b: int, c: int)
    ensures (a + b) * c == a * c + b * c
  {
  }

  lemma AtLeastOnce(a: nat, c: nat)
    requires a > 0
    ensures a * c >= c
  {
  }

  lemma Multiple(x: nat, q: nat)
    requires x == WORD * q
    ensures x % WORD == 0 && x / WORD == q
  {
  }

  lemma Reassociate(j: nat, w: nat, q: nat)
    ensures j * (w * q) == w * (j * q)
  {
  }

  /** The words of a block, in words. */
  lemma BlockWords(p: Part, size: nat, j: nat) returns (a: nat, q: nat)
    requires PartOk(p, size) && j < p.nblks
    ensures Block(p, j) == WORD * a && p.blksize == WORD * q && q > 0
  {
    q := p.blksize / WORD;
    Reassociate(j, WORD, q);
    a := p.addr / WORD + j * q;
  }

  lemma BlockFits(p: Part, size: nat, j: nat)
    requires PartOk(p, size) && j < p.nblks
    ensures Block(p, j) % WORD == 0 && 0 < Block(p, j) && Block(p, j) / WORD < size
    ensures (Block(p, j) + p.blksize) / WORD <= size
  {
    BlockOrder(p, j, p.nblks);
    var a, q := BlockWords(p, size, j);
    Multiple(Block(p, j), a);
    Multiple(Block(p, j) + p.blksize, a + q);
  }

  /** No word of one block is a word of another. */
  lemma BlocksDisjoint(p: Part, size: nat, j: nat, k: nat, w: nat)
    requires PartOk(p, size) && j < p.nblks && k < p.nblks && j != k
    requires Block(p, j) <= WORD * w < Block(p, j) + p.blksize
    ensures w != Block(p, k) / WORD && Block(p, j) != Block(p, k)
  {
    BlockFits(p, size, j);
    BlockFits(p, size, k);
    if j < k {
      BlockOrder(p, j, k);
    } else {
      BlockOrder(p, k, j);
    }
  }

  // ---------------------------------------------------------------- the operations

  /** OSMemGet, when a block is free. */
  ghost function Get(m: Mem): Mem
    requires m.nfree > 0 && m.freeList / WORD < |m.words|
  {
    m.(freeList := m.words[m.freeList / WORD], nfree := m.nfree - 1)
  }

  /** OSMemPut. */
  ghost function Put(p: Part, m: Mem, pblk: nat): Mem
    requires m.nfree < p.nblks ==> pblk / WORD < |m.words|
  {
    if m.nfree >= p.nblks then m
    else Mem(m.words[pblk / WORD := m.freeList], pblk, m.nfree + 1)
  }

  ghost function Scribble(m: Mem, w: nat, v: nat): Mem
    requires w < |m.words|
  {
    m.(words := m.words[w := v])
  }

  lemma GetKeepsInv(p: Part, m: Mem, l: seq<nat>, out: set<nat>)
    requires Inv(p, m, l, out) && m.nfree > 0
    ensures l != [] && m.freeList == Block(p, l[0]) && m.freeList != 0 && m.freeList / WORD < |m.words|
    ensures m.freeList !in out
    ensures Inv(p, Get(m), l[1..], out + {m.freeList})
  {
    assert LinkOk(p, m.words, l, 0);
    BlockFits(p, |m.words|, l[0]);
    var l', out' := l[1..], out + {m.freeList};
    assert l == [l[0]] + l';
    forall i | 0 <= i < |l'|
      ensures LinkOk(p, m.words, l', i)
    {
      assert LinkOk(p, m.words, l, i + 1);
    }
    assert Link(p, l', 0) == Link(p, l, 1);
    forall j: nat | j < p.nblks && j != l[0]
      ensures Block(p, j) != Block(p, l[0])
    {
      BlocksDisjoint(p, |m.words|, j, l[0], Block(p, j) / WORD) by {
        BlockFits(p, |m.words|, j);
      }
    }
    assert out' == set j: nat | j < p.nblks && j !in l' :: Block(p, j) by {
      assert l[0] !in l';
      forall a | a in out'
        ensures exists j: nat :: j < p.nblks && j !in l' && Block(p, j) == a
      {
        if a == m.freeList {
          assert l[0] < p.nblks && l[0] !in l' && Block(p, l[0]) == a;
        }
      }
    }
  }

  lemma {:induction false} FewerThanAll(l: seq<nat>, n: nat, j: nat)
    requires Distinct(l) && (forall i :: 0 <= i < |l| ==> l[i] < n) && j < n && j !in l
    ensures |l| < n
  {
    Cardinality(l);
    UptoElements(n);
    assert Elements(l) < Elements(Upto(n)) by {
      assert j in Elements(Upto(n)) && j !in Elements(l);
    }
    SmallerSubset(Elements(l), Elements(Upto(n)));
  }

  lemma {:induction false} SmallerSubset(s: set<nat>, t: set<nat>)
    requires s < t
    ensures |s| < |t|
  {
    if s != {} {
      var x :| x in s;
      SmallerSubset(s - {x}, t - {x});
    } else {
      var x :| x in t;
      assert |t| == |t - {x}| + 1;
    }
  }

  /** Giving back a block that is out: it is not refused, and it becomes the head of the list. */
  lemma PutKeepsInv(p: Part, m: Mem, l: seq<nat>, out: set<nat>, j: nat)
    requires Inv(p, m, l, out) && j < p.nblks && j !in l
    ensures Block(p, j) / WORD < |m.words| && m.nfree < p.nblks
    ensures Inv(p, Put(p, m, Block(p, j)), [j] + l, out - {Block(p, j)})
  {
    BlockFits(p, |m.words|, j);
    forall i | 0 <= i < |l|
      ensures l[i] < p.nblks
    {
      assert LinkOk(p, m.words, l, i);
    }
    FewerThanAll(l, p.nblks, j);
    var l', m' := [j] + l, Put(p, m, Block(p, j));
    forall i | 0 <= i < |l'|
      ensures LinkOk(p, m'.words, l', i)
    {
      if i > 0 {
        assert LinkOk(p, m.words, l, i - 1);
        BlocksDisjoint(p, |m.words|, j, l[i - 1], Block(p, j) / WORD);
      }
    }
    forall k: nat | k < p.nblks && k != j
      ensures Block(p, k) != Block(p, j)
    {
      BlocksDisjoint(p, |m.words|, j, k, Block(p, j) / WORD);
    }
    var out' := out - {Block(p, j)};
    assert out' == set k: nat | k < p.nblks && k !in l' :: Block(p, k) by {
      forall k: nat | k < p.nblks && k !in l'
        ensures Block(p, k) in out'
      {
        assert Block(p, k) in out;
      }
    }
  }

  lemma WordInBlock(p: Part, size: nat, j: nat, w: nat)
    requires PartOk(p, size) && j < p.nblks && WORD * w < Block(p, j) + p.blksize
    ensures w < size
  {
    BlockOrder(p, j, p.nblks);
  }

  /** Whatever a client writes into a block it holds, the free list is not disturbed. */
  lemma ScribbleKeepsInv(p: Part, m: Mem, l: seq<nat>, out: set<nat>, j: nat, w: nat, v: nat)
    requires Inv(p, m, l, out) && j < p.nblks && j !in l
    requires Block(p, j) <= WORD * w < Block(p, j) + p.blksize
    ensures w < |m.words| && Inv(p, Scribble(m, w, v), l, out)
  {
    WordInBlock(p, |m.words|, j, w);
    var m' := Scribble(m, w, v);
    forall i | 0 <= i < |l|
      ensures LinkOk(p, m'.words, l, i)
    {
      assert LinkOk(p, m.words, l, i);
      BlocksDisjoint(p, |m.words|, j, l[i], w);
    }
  }

  // ---------------------------------------------------------------- whole runs

  datatype Op = GetOp | PutOp(pblk: nat) | ScribbleOp(w: nat, v: nat)

  /** The memory and the addresses handed out and not yet returned. */
  datatype State = State(m: Mem, out: set<nat>)

  /** Clients return only blocks they hold (unless none is out, when OSMemPut refuses anything), and
      write only inside them. */
  ghost predicate Legal(p: Part, s: State, op: Op)
  {
    match op
    case GetOp => true
    case PutOp(pblk) => s.m.nfree < p.nblks ==> pblk in s.out
    case ScribbleOp(w, v) => exists pblk :: pblk in s.out && pblk <= WORD * w < pblk + p.blksize
  }

  ghost predicate Step(p: Part, s: State, op: Op, s': State)
  {
    match op
    case GetOp =>
      if s.m.nfree > 0
      then s.m.freeList / WORD < |s.m.words| && s' == State(Get(s.m), s.out + {s.m.freeList})
      else s' == s
    case PutOp(pblk) =>
      if s.m.nfree < p.nblks
      then pblk / WORD < |s.m.words| && s' == State(Put(p, s.m, pblk), s.out - {pblk})
      else s' == s
    case ScribbleOp(w, v) => w < |s.m.words| && s' == State(Scribble(s.m, w, v), s.out)
  }

  ghost predicate Good(p: Part, s: State)
  {
    exists l :: Inv(p, s.m, l, s.out)
  }

  ghost predicate RunStep(p: Part, ss: seq<State>, ops: seq<Op>, n: nat)
  {
    n < |ops| && n + 1 < |ss| && Legal(p, ss[n], ops[n]) && Step(p, ss[n], ops[n], ss[n + 1])
  }

  lemma StepKeepsGood(p: Part, s: State, op: Op, s': State)
    requires Good(p, s) && Legal(p, s, op) && Step(p, s, op, s')
    ensures Good(p, s')
  {
    var l :| Inv(p, s.m, l, s.out);
    match op
    case GetOp =>
      if s.m.nfree > 0 {
        GetKeepsInv(p, s.m, l, s.out);
      }
    case PutOp(pblk) =>
      if s.m.nfree < p.nblks {
        var j: nat :| j < p.nblks && j !in l && Block(p, j) == pblk;
        PutKeepsInv(p, s.m, l, s.out, j);
        assert Inv(p, s'.m, [j] + l, s'.out);
      }
    case ScribbleOp(w, v) =>
      var pblk :| pblk in s.out && pblk <= WORD * w < pblk + p.blksize;
      var j: nat :| j < p.nblks && j !in l && Block(p, j) == pblk;
      ScribbleKeepsInv(p, s.m, l, s.out, j, w, v);
  }

  /** In every state of every run the list threaded through memory is acyclic, visits exactly
      OSMemNFree distinct blocks of the partition, and none of them is out. */
  lemma {:induction false} FreeListOverRuns(p: Part, ss: seq<State>, ops: seq<Op>, n: nat)
    requires |ss| == |ops| + 1 && n <= |ops| && Good(p, ss[0])
    requires forall k :: 0 <= k < |ops| ==> RunStep(p, ss, ops, k)
    ensures Good(p, ss[n])
  {
    if n > 0 {
      FreeListOverRuns(p, ss, ops, n - 1);
      assert RunStep(p, ss, ops, n - 1);
      StepKeepsGood(p, ss[n - 1], ops[n - 1], ss[n]);
    }
  }

  /** OSMemGet fails exactly when every block of the partition is out. */
  lemma GetFailsIffAllOut(p: Part, s: State)
    requires Good(p, s)
    ensures s.m.nfree == 0 <==> s.out == set j: nat | j < p.nblks :: Block(p, j)
  {
    var l :| Inv(p, s.m, l, s.out);
    if s.m.nfree > 0 {
      GetKeepsInv(p, s.m, l, s.out);
      assert LinkOk(p, s.m.words, l, 0);
    } else {
      assert l == [];
    }
  }

  /** A block handed out was not out before, so no two clients ever hold the same one. */
  lemma GetHandsOutFreeBlock(p: Part, s: State, s': State)
    requires Good(p, s) && s.m.nfree > 0 && Step(p, s, GetOp, s')
    ensures s.m.freeList !in s.out && s'.out == s.out + {s.m.freeList}
    ensures exists j: nat :: j < p.nblks && s.m.freeList == Block(p, j)
  {
    var l :| Inv(p, s.m, l, s.out);
    GetKeepsInv(p, s.m, l, s.out);
    assert LinkOk(p, s.m.words, l, 0);
  }
}
