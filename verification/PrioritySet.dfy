/** The bitmap priority sets of uC/OS-II as configured for 255 priorities: a 16-bit group
    word and sixteen 16-bit row words. The ready list and the wait list of every event are
    such sets. Priority p lives in row p / 16, at bit p % 16. */
module PrioritySet {

  const MAX_PRIO: nat := 256

  /** OSUnMapTbl, in the sixteen rows in which it is written: for a byte, the position of its
      lowest set bit. */
  const OS_UNMAP_TBL: seq<seq<nat>> := [
    [0, 0, 1, 0, 2, 0, 1, 0, 3, 0, 1, 0, 2, 0, 1, 0],
    [4, 0, 1, 0, 2, 0, 1, 0, 3, 0, 1, 0, 2, 0, 1, 0],
    [5, 0, 1, 0, 2, 0, 1, 0, 3, 0, 1, 0, 2, 0, 1, 0],
    [4, 0, 1, 0, 2, 0, 1, 0, 3, 0, 1, 0, 2, 0, 1, 0],
    [6, 0, 1, 0, 2, 0, 1, 0, 3, 0, 1, 0, 2, 0, 1, 0],
    [4, 0, 1, 0, 2, 0, 1, 0, 3, 0, 1, 0, 2, 0, 1, 0],
    [5, 0, 1, 0, 2, 0, 1, 0, 3, 0, 1, 0, 2, 0, 1, 0],
    [4, 0, 1, 0, 2, 0, 1, 0, 3, 0, 1, 0, 2, 0, 1, 0],
    [7, 0, 1, 0, 2, 0, 1, 0, 3, 0, 1, 0, 2, 0, 1, 0],
    [4, 0, 1, 0, 2, 0, 1, 0, 3, 0, 1, 0, 2, 0, 1, 0],
    [5, 0, 1, 0, 2, 0, 1, 0, 3, 0, 1, 0, 2, 0, 1, 0],
    [4, 0, 1, 0, 2, 0, 1, 0, 3, 0, 1, 0, 2, 0, 1, 0],
    [6, 0, 1, 0, 2, 0, 1, 0, 3, 0, 1, 0, 2, 0, 1, 0],
    [4, 0, 1, 0, 2, 0, 1, 0, 3, 0, 1, 0, 2, 0, 1, 0],
    [5, 0, 1, 0, 2, 0, 1, 0, 3, 0, 1, 0, 2, 0, 1, 0],
    [4, 0, 1, 0, 2, 0, 1, 0, 3, 0, 1, 0, 2, 0, 1, 0]
  ]

  /** The mask (INT16U)(1 << x). */
  function Bit(x: nat): bv16
    requires x < 16
  {
    match x
    case 0 => 0x0001 case 1 => 0x0002 case 2 => 0x0004 case 3 => 0x0008
    case 4 => 0x0010 case 5 => 0x0020 case 6 => 0x0040 case 7 => 0x0080
    case 8 => 0x0100 case 9 => 0x0200 case 10 => 0x0400 case 11 => 0x0800
    case 12 => 0x1000 case 13 => 0x2000 case 14 => 0x4000 case 15 => 0x8000
  }

  predicate HasBit(w: bv16, x: nat)
    requires x < 16
  {
    w & Bit(x) != 0
  }

  lemma BitSet(w: bv16, x: nat, z: nat)
    requires x < 16 && z < 16
    ensures (w | Bit(x)) & Bit(z) != 0 <==> z == x || w & Bit(z) != 0
  {
  }

  lemma BitCleared(w: bv16, x: nat, z: nat)
    requires x < 16 && z < 16
    ensures (w & !Bit(x)) & Bit(z) != 0 <==> z != x && w & Bit(z) != 0
  {
  }

  lemma SomeBit(w: bv16)
    ensures w != 0 <==> exists x :: 0 <= x < 16 && HasBit(w, x)
  {
    if w != 0 {
      assert HasBit(w, 0) || HasBit(w, 1) || HasBit(w, 2) || HasBit(w, 3) || HasBit(w, 4) || HasBit(w, 5)
          || HasBit(w, 6) || HasBit(w, 7) || HasBit(w, 8) || HasBit(w, 9) || HasBit(w, 10) || HasBit(w, 11)
          || HasBit(w, 12) || HasBit(w, 13) || HasBit(w, 14) || HasBit(w, 15);
    }
  }

  function UnMap(b: bv16): nat
    requires b <= 0xFF
  {
    ByteValue(b);
    TableShape(b as int / 16);
    OS_UNMAP_TBL[b as int / 16][b as int % 16]
  }

  /** The value of a byte, bit by bit. */
  lemma ByteValue(b: bv16)
    requires b <= 0xFF
    ensures b as int < 256
    ensures b as int % 16 == (if HasBit(b, 0) then 1 else 0) + (if HasBit(b, 1) then 2 else 0)
                           + (if HasBit(b, 2) then 4 else 0) + (if HasBit(b, 3) then 8 else 0)
    ensures b as int / 16 == (if HasBit(b, 4) then 1 else 0) + (if HasBit(b, 5) then 2 else 0)
                           + (if HasBit(b, 6) then 4 else 0) + (if HasBit(b, 7) then 8 else 0)
  {
    var low := (if b & 0x01 != 0 then 1 else 0) + (if b & 0x02 != 0 then 2 else 0)
             + (if b & 0x04 != 0 then 4 else 0) + (if b & 0x08 != 0 then 8 else 0);
    var high := (if b & 0x10 != 0 then 1 else 0) + (if b & 0x20 != 0 then 2 else 0)
              + (if b & 0x40 != 0 then 4 else 0) + (if b & 0x80 != 0 then 8 else 0);
    assert b as int == low + 16 * high;
  }

  /** What the 256 literal entries of the table are. */
  lemma TableShape(r: nat)
    requires r < 16
    ensures |OS_UNMAP_TBL[r]| == 16
    ensures forall c :: 0 <= c < 16 ==> OS_UNMAP_TBL[r][c] == if c == 0 then HighEntry(r) else LowEntry(c)
  {
    match r
    case 0 => case 1 => case 2 => case 3 => case 4 => case 5 => case 6 => case 7 =>
    case 8 => case 9 => case 10 => case 11 => case 12 => case 13 => case 14 => case 15 =>
  }

  function LowEntry(c: nat): nat
  {
    if c % 2 == 1 then 0 else if c % 4 == 2 then 1 else if c % 8 == 4 then 2 else 3
  }

  function HighEntry(r: nat): nat
  {
    if r == 0 then 0 else 4 + LowEntry(r)
  }

  /** Each entry is the position of the lowest set bit of its index. */
  lemma UnMapIsLowestBit(b: bv16)
    requires 0 < b <= 0xFF
    ensures UnMap(b) < 8 && HasBit(b, UnMap(b))
    ensures forall z :: 0 <= z < UnMap(b) ==> !HasBit(b, z)
  {
    ByteValue(b);
    TableShape(b as int / 16);
    SomeBitOfByte(b);
  }

  lemma SomeBitOfByte(b: bv16)
    requires 0 < b <= 0xFF
    ensures HasBit(b, 0) || HasBit(b, 1) || HasBit(b, 2) || HasBit(b, 3)
         || HasBit(b, 4) || HasBit(b, 5) || HasBit(b, 6) || HasBit(b, 7)
  {
  }

  /** The two-step table look-up of OS_SchedNew and OS_EventTaskRdy: the position of the lowest
      set bit of a non-zero 16-bit word. */
  function LowestBit(w: bv16): (x: nat)
    requires w != 0
    ensures x < 16 && HasBit(w, x)
    ensures forall z :: 0 <= z < x ==> !HasBit(w, z)
  {
    if w & 0xFF != 0 then
      LowByte(w);
      UnMap(w & 0xFF)
    else
      HighByte(w);
      UnMap((w >> 8) & 0xFF) + 8
  }

  lemma LowByte(w: bv16)
    requires w & 0xFF != 0
    ensures UnMap(w & 0xFF) < 8 && HasBit(w, UnMap(w & 0xFF))
    ensures forall z :: 0 <= z < UnMap(w & 0xFF) ==> !HasBit(w, z)
  {
    UnMapIsLowestBit(w & 0xFF);
    forall z | 0 <= z < 8
      ensures HasBit(w & 0xFF, z) == HasBit(w, z)
    {
      LowHalf(w, z);
    }
  }

  lemma LowHalf(w: bv16, z: nat)
    requires z < 8
    ensures (w & 0xFF) & Bit(z) == w & Bit(z)
  {
  }

  lemma HighHalf(w: bv16, z: nat)
    requires w & 0xFF == 0 && z < 8
    ensures w & Bit(z) == 0
    ensures ((w >> 8) & 0xFF) & Bit(z) != 0 <==> w & Bit(z + 8) != 0
  {
  }

  lemma HighByte(w: bv16)
    requires w != 0 && w & 0xFF == 0
    ensures (w >> 8) & 0xFF != 0
    ensures UnMap((w >> 8) & 0xFF) < 8 && HasBit(w, UnMap((w >> 8) & 0xFF) + 8)
    ensures forall z :: 0 <= z < UnMap((w >> 8) & 0xFF) + 8 ==> !HasBit(w, z)
  {
    var b := (w >> 8) & 0xFF;
    UnMapIsLowestBit(b);
    HighHalf(w, UnMap(b));
    forall z | 0 <= z < UnMap(b) + 8
      ensures !HasBit(w, z)
    {
      if z < 8 {
        HighHalf(w, z);
      } else {
        assert !HasBit(b, z - 8);
        HighHalf(w, z - 8);
      }
    }
  }

  /** The bit positions set in a word. */
  ghost function Bits(w: bv16): set<nat>
  {
    set x: nat | x < 16 && HasBit(w, x)
  }

  lemma BitsOfWord(w: bv16)
    ensures Bits(w) == {} <==> w == 0
  {
    SomeBit(w);
    if w != 0 {
      var x :| 0 <= x < 16 && HasBit(w, x);
      assert x in Bits(w);
    }
  }

  lemma BitsSet(w: bv16, x: nat)
    requires x < 16
    ensures Bits(w | Bit(x)) == Bits(w) + {x}
  {
    forall z: nat | z < 16
      ensures z in Bits(w | Bit(x)) <==> z in Bits(w) + {x}
    {
      BitSet(w, x, z);
    }
  }

  lemma BitsCleared(w: bv16, x: nat)
    requires x < 16
    ensures Bits(w & !Bit(x)) == Bits(w) - {x}
  {
    forall z: nat | z < 16
      ensures z in Bits(w & !Bit(x)) <==> z in Bits(w) - {x}
    {
      BitCleared(w, x, z);
    }
  }

  /** w | (1 << x) */
  method WithBit(w: bv16, x: nat) returns (r: bv16)
    requires x < 16
    ensures Bits(r) == Bits(w) + {x}
  {
    BitsSet(w, x);
    r := w | Bit(x);
  }

  /** w & ~(1 << x) */
  method WithoutBit(w: bv16, x: nat) returns (r: bv16)
    requires x < 16
    ensures Bits(r) == Bits(w) - {x} && (r == 0 <==> Bits(r) == {})
  {
    BitsCleared(w, x);
    r := w & !Bit(x);
    BitsOfWord(r);
  }

  /** The look-up of the lowest set bit, stated over the bit positions. */
  method FindLowestBit(w: bv16) returns (x: nat)
    requires Bits(w) != {}
    ensures x < 16 && x in Bits(w) && forall z :: z in Bits(w) ==> x <= z
  {
    BitsOfWord(w);
    x := LowestBit(w);
  }

  ghost function RowSets(tbl: seq<bv16>): seq<set<nat>>
  {
    seq(|tbl|, i requires 0 <= i < |tbl| => Bits(tbl[i]))
  }

  /** The representation: the members are the bits set in the rows, and a group bit is set
      exactly when its row has a bit. */
  ghost predicate Represents(group: set<nat>, rows: seq<set<nat>>, members: set<nat>)
  {
    && |rows| == 16
    && (forall p :: p in members ==> p < MAX_PRIO)
    && (forall p :: 0 <= p < MAX_PRIO ==> (p in members <==> p % 16 in rows[p / 16]))
    && (forall y :: 0 <= y < 16 ==> (y in group <==> rows[y] != {}))
  }

  lemma NothingRepresented(group: set<nat>, rows: seq<set<nat>>)
    requires |rows| == 16 && group == {} && forall y :: 0 <= y < 16 ==> rows[y] == {}
    ensures Represents(group, rows, {})
  {
  }

  lemma InsertKeepsRepresentation(group: set<nat>, rows: seq<set<nat>>, members: set<nat>, p: nat)
    requires Represents(group, rows, members) && p < MAX_PRIO
    ensures Represents(group + {p / 16}, rows[p / 16 := rows[p / 16] + {p % 16}], members + {p})
  {
  }

  lemma RemoveKeepsRepresentation(group: set<nat>, rows: seq<set<nat>>, members: set<nat>, p: nat,
                                  group': set<nat>, rows': seq<set<nat>>)
    requires Represents(group, rows, members) && p < MAX_PRIO
    requires rows' == rows[p / 16 := rows[p / 16] - {p % 16}]
    requires group' == if rows'[p / 16] == {} then group - {p / 16} else group
    ensures Represents(group', rows', members - {p})
  {
  }

  lemma LeastOfRepresentation(group: set<nat>, rows: seq<set<nat>>, members: set<nat>, y: nat, x: nat)
    requires Represents(group, rows, members)
    requires y < 16 && y in group && forall z :: z in group ==> y <= z
    requires x in rows[y] && x < 16 && forall z :: z in rows[y] ==> x <= z
    ensures 16 * y + x in members && forall q :: q in members ==> 16 * y + x <= q
  {
    var p := 16 * y + x;
    assert p / 16 == y && p % 16 == x;
    forall q | q in members
      ensures p <= q
    {
      assert q % 16 in rows[q / 16];
      assert q / 16 in group;
    }
  }

  lemma EmptyRepresentation(group: set<nat>, rows: seq<set<nat>>, members: set<nat>)
    requires Represents(group, rows, members)
    requires forall y :: y in group ==> y < 16
    requires forall y, x :: 0 <= y < 16 && x in rows[y] ==> x < 16
    ensures group == {} <==> members == {}
  {
    if y :| y in group {
      assert rows[y] != {};
      var x :| x in rows[y];
      assert (16 * y + x) / 16 == y && (16 * y + x) % 16 == x;
      assert 16 * y + x in members;
    }
    if p :| p in members {
      assert p / 16 in group;
    }
  }

  class PrioSet {
    var grp: bv16
    const tbl: array<bv16>
    ghost var members: set<nat>

    ghost predicate Valid()
      reads this, tbl
    {
      tbl.Length == 16 && Represents(Bits(grp), RowSets(tbl[..]), members)
    }

    constructor ()
      ensures Valid() && fresh(tbl) && members == {}
    {
      grp := 0;
      tbl := new bv16[16](_ => 0);
      members := {};
      new;
      BitsOfWord(0);
      NothingRepresented(Bits(grp), RowSets(tbl[..]));
    }

    /** OS_EventWaitListInit */
    method Clear()
      requires Valid()
      modifies this, tbl
      ensures Valid() && members == {}
    {
      grp := 0;
      var i := 0;
      while i < 16
        invariant 0 <= i <= 16 && grp == 0
        invariant forall y :: 0 <= y < i ==> tbl[y] == 0
      {
        tbl[i] := 0;
        i := i + 1;
      }
      members := {};
      BitsOfWord(0);
      NothingRepresented(Bits(grp), RowSets(tbl[..]));
    }

    /** Grp |= bity; Tbl[y] |= bitx */
    method Insert(prio: nat)
      requires Valid() && prio < MAX_PRIO
      modifies this, tbl
      ensures Valid() && members == old(members) + {prio}
    {
      var y, x := prio / 16, prio % 16;
      ghost var rows := RowSets(tbl[..]);
      InsertKeepsRepresentation(Bits(grp), rows, members, prio);
      grp := WithBit(grp, y);
      tbl[y] := WithBit(tbl[y], x);
      assert RowSets(tbl[..]) == rows[y := rows[y] + {x}];
      members := members + {prio};
    }

    /** if ((Tbl[y] &= ~bitx) == 0) Grp &= ~bity */
    method Remove(prio: nat)
      requires Valid() && prio < MAX_PRIO
      modifies this, tbl
      ensures Valid() && members == old(members) - {prio}
    {
      var y, x := prio / 16, prio % 16;
      ghost var group, rows := Bits(grp), RowSets(tbl[..]);
      var row := WithoutBit(tbl[y], x);
      tbl[y] := row;
      assert RowSets(tbl[..]) == rows[y := rows[y] - {x}];
      if row == 0 {
        grp := WithoutBit(grp, y);
      }
      RemoveKeepsRepresentation(group, rows, members, prio, Bits(grp), RowSets(tbl[..]));
      members := members - {prio};
    }

    /** (Tbl[y] & bitx) != 0 */
    method Contains(prio: nat) returns (b: bool)
      requires Valid() && prio < MAX_PRIO
      ensures b <==> prio in members
    {
      var y, x := prio / 16, prio % 16;
      b := HasBit(tbl[y], x);
      assert RowSets(tbl[..])[y] == Bits(tbl[y]);
    }

    /** Grp == 0 */
    method IsEmpty() returns (b: bool)
      requires Valid()
      ensures b <==> members == {}
    {
      b := grp == 0;
      BitsOfWord(grp);
      EmptyRepresentation(Bits(grp), RowSets(tbl[..]), members);
    }

    /** OS_SchedNew and the search of OS_EventTaskRdy: the numerically least priority,
        with no loop whatever the number of tasks. */
    method Least() returns (prio: nat)
      requires Valid() && members != {}
      ensures prio in members && prio < MAX_PRIO && forall q :: q in members ==> prio <= q
    {
      EmptyRepresentation(Bits(grp), RowSets(tbl[..]), members);
      var y := FindLowestBit(grp);
      assert RowSets(tbl[..])[y] == Bits(tbl[y]);
      var x := FindLowestBit(tbl[y]);
      LeastOfRepresentation(Bits(grp), RowSets(tbl[..]), members, y, x);
      prio := 16 * y + x;
    }
  }
}
