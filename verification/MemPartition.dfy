/** A memory partition working in place on the memory it manages. */
module MemPartition {
  import opened IndexLists
  import opened MemSpec

  datatype MemErr = NoErr | NoFreeBlks | Full

  /** The order of the free list of a new partition. */
  ghost function AllBlocks(p: Part): seq<nat>
  {
    Upto(p.nblks)
  }

  /** Blocks 0..i-1 are linked to their successors. */
  ghost predicate LinkedUpTo(p: Part, words: seq<nat>, i: nat)
  {
    forall k :: 0 <= k < i ==> LinkOk(p, words, AllBlocks(p), k)
  }

  /** Storing the link of block i leaves the links of the earlier blocks alone. */
  lemma LinkStored(p: Part, before: seq<nat>, i: nat, v: nat)
    requires PartOk(p, |before|) && i < p.nblks && LinkedUpTo(p, before, i)
    requires v == Link(p, AllBlocks(p), i + 1)
    ensures Block(p, i) / WORD < |before| && LinkedUpTo(p, before[Block(p, i) / WORD := v], i + 1)
  {
    BlockFits(p, |before|, i);
    var all, after := AllBlocks(p), before[Block(p, i) / WORD := v];
    forall k | 0 <= k < i + 1
      ensures LinkOk(p, after, all, k)
    {
      if k < i {
        assert LinkOk(p, before, all, k);
        BlocksDisjoint(p, |before|, i, k, Block(p, i) / WORD);
      }
    }
  }

  /** The loop of OSMemCreate. */
  method ThreadBlocks(p: Part, mem: array<nat>)
    requires PartOk(p, mem.Length)
    modifies mem
    ensures LinkedUpTo(p, mem[..], p.nblks)
  {
    var plink: nat := p.addr;
    var pblk: nat := p.addr + p.blksize;
    var i := 0;
    while i < p.nblks - 1
      invariant 0 <= i <= p.nblks - 1
      invariant plink == Block(p, i) && pblk == plink + p.blksize
      invariant LinkedUpTo(p, mem[..], i)
    {
      NextBlock(p, i);
      LinkStored(p, mem[..], i, pblk);
      ghost var before := mem[..];
      mem[plink / WORD] := pblk;
      assert mem[..] == before[plink / WORD := pblk];
      plink := pblk;
      pblk := pblk + p.blksize;
      i := i + 1;
    }
    LinkStored(p, mem[..], i, 0);
    ghost var before := mem[..];
    mem[plink / WORD] := 0;
    assert mem[..] == before[plink / WORD := 0];
  }

  lemma NewPartition(p: Part, words: seq<nat>)
    requires PartOk(p, |words|) && LinkedUpTo(p, words, p.nblks)
    ensures Inv(p, Mem(words, p.addr, p.nblks), AllBlocks(p), {})
  {
    var l := AllBlocks(p);
    forall j: nat | j < p.nblks
      ensures j in l
    {
      assert l[j] == j;
    }
    assert Link(p, l, 0) == p.addr;
  }

  class Partition {
    const mem: array<nat>    // the words of memory
    const addr: nat          // OSMemAddr
    const blksize: nat       // OSMemBlkSize
    const nblks: nat         // OSMemNBlks
    var freeList: nat        // OSMemFreeList
    var nfree: nat           // OSMemNFree
    ghost var free: seq<nat> // the block numbers in the order of the list
    ghost var out: set<nat>  // the addresses the clients hold

    function P(): Part
    {
      Part(addr, blksize, nblks)
    }

    ghost function Abs(): Mem
      reads this, mem
    {
      Mem(mem[..], freeList, nfree)
    }

    ghost predicate Valid()
      reads this, mem
    {
      Inv(P(), Abs(), free, out)
    }

    /** OSMemCreate, once a control block has been found: block i is linked to block i + 1. */
    constructor (mem: array<nat>, addr: nat, nblks: nat, blksize: nat)
      requires PartOk(Part(addr, blksize, nblks), mem.Length)
      modifies mem
      ensures Valid() && this.mem == mem && P() == Part(addr, blksize, nblks)
      ensures nfree == nblks && freeList == addr && out == {}
    {
      this.mem, this.addr, this.nblks, this.blksize := mem, addr, nblks, blksize;
      freeList := addr;
      nfree := nblks;
      free := AllBlocks(Part(addr, blksize, nblks));
      out := {};
      new;
      ThreadBlocks(P(), mem);
      NewPartition(P(), mem[..]);
    }

    /** OSMemGet */
    method Get() returns (pblk: nat, err: MemErr)
      requires Valid()
      modifies this
      ensures Valid() && mem[..] == old(mem[..])
      ensures err == NoErr <==> old(nfree) > 0
      ensures err == NoErr ==> old(freeList) / WORD < mem.Length
                               && Abs() == MemSpec.Get(old(Abs())) && pblk == old(freeList)
                               && pblk !in old(out) && pblk != 0 && out == old(out) + {pblk}
      ensures err != NoErr ==> err == NoFreeBlks && pblk == 0 && Abs() == old(Abs()) && out == old(out)
    {
      if nfree > 0 {
        GetKeepsInv(P(), Abs(), free, out);
        pblk := freeList;
        freeList := mem[pblk / WORD];
        nfree := nfree - 1;
        free := free[1..];
        out := out + {pblk};
        return pblk, NoErr;
      }
      return 0, NoFreeBlks;
    }

    /** OSMemPut of a block obtained from Get; anything is refused when no block is out. */
    method Put(pblk: nat) returns (err: MemErr)
      requires Valid() && (nfree < nblks ==> pblk in out)
      modifies this, mem
      ensures Valid()
      ensures err == if old(nfree) < nblks then NoErr else Full
      ensures old(nfree) < nblks ==> pblk / WORD < mem.Length && freeList == pblk && nfree == old(nfree) + 1
      ensures Abs() == MemSpec.Put(P(), old(Abs()), pblk) && out == old(out) - {pblk}
    {
      if nfree >= nblks {
        BlocksOut(P(), Abs(), free, out);
        return Full;
      }
      ghost var j: nat :| j < nblks && j !in free && Block(P(), j) == pblk;
      PutKeepsInv(P(), Abs(), free, out, j);
      mem[pblk / WORD] := freeList;
      freeList := pblk;
      nfree := nfree + 1;
      free := [j] + free;
      out := out - {pblk};
      err := NoErr;
    }

    /** A client writing into a block it holds. */
    method ClientWrite(pblk: nat, offset: nat, v: nat)
      requires Valid() && pblk in out && offset % WORD == 0 && offset < blksize
      modifies mem
      ensures (pblk + offset) / WORD < mem.Length && Abs() == Scribble(old(Abs()), (pblk + offset) / WORD, v)
      ensures Valid()
    {
      ghost var j: nat :| j < nblks && j !in free && Block(P(), j) == pblk;
      BlockFits(P(), mem.Length, j);
      ScribbleKeepsInv(P(), Abs(), free, out, j, (pblk + offset) / WORD, v);
      mem[(pblk + offset) / WORD] := v;
    }

    /** OSMemQuery: the number of used blocks it reports is the number of blocks that are out. */
    method Query() returns (nused: nat)
      requires Valid()
      ensures nused == nblks - nfree && nused == |out|
    {
      BlocksOut(P(), Abs(), free, out);
      nused := nblks - nfree;
    }
  }

  lemma NextBlock(p: Part, j: nat)
    ensures Block(p, j) + p.blksize == Block(p, j + 1)
  {
    Distribute(j, 1, p.blksize);
  }

  /** Used and free blocks add up. */
  lemma BlocksOut(p: Part, m: Mem, l: seq<nat>, out: set<nat>)
    requires Inv(p, m, l, out)
    ensures |out| + m.nfree == p.nblks
  {
    forall i | 0 <= i < |l|
      ensures l[i] < p.nblks
    {
      assert LinkOk(p, m.words, l, i);
    }
    Cardinality(l);
    UptoElements(p.nblks);
    var all := Elements(Upto(p.nblks));
    var held := all - Elements(l);
    assert Elements(l) <= all;
    assert all == held + Elements(l);
    CountBlocks(p, |m.words|, held);
    assert out == set j | j in held :: Block(p, j);
  }

  lemma {:induction false} CountBlocks(p: Part, size: nat, js: set<nat>)
    requires PartOk(p, size) && forall j :: j in js ==> j < p.nblks
    ensures |set j | j in js :: Block(p, j)| == |js|
  {
    if js != {} {
      var j :| j in js;
      CountBlocks(p, size, js - {j});
      var rest := set k | k in js - {j} :: Block(p, k);
      assert (set k | k in js :: Block(p, k)) == rest + {Block(p, j)};
      forall k | k in js - {j}
        ensures Block(p, k) != Block(p, j)
      {
        BlockFits(p, size, k);
        BlocksDisjoint(p, size, k, j, Block(p, k) / WORD);
      }
    }
  }
}
