/** Words of event flags (OS_FLAGS, 16 bits) as sets of flags: the bit operations of os_flag.c are
    the set operations that KernelState states them with. */
module FlagWords {
  import opened PrioritySet
  import opened KernelState

  // ---------------------------------------------------------------- bit by bit

  lemma AndHas(a: bv16, b: bv16, x: nat)
    requires x < 16 && HasBit(a, x) && HasBit(b, x)
    ensures HasBit(a & b, x)
  {
  }

  lemma HasAnd(a: bv16, b: bv16, x: nat)
    requires x < 16 && HasBit(a & b, x)
    ensures HasBit(a, x) && HasBit(b, x)
  {
  }

  lemma OrHas(a: bv16, b: bv16, x: nat)
    requires x < 16 && HasBit(a, x)
    ensures HasBit(a | b, x) && HasBit(b | a, x)
  {
  }

  lemma HasOr(a: bv16, b: bv16, x: nat)
    requires x < 16 && HasBit(a | b, x)
    ensures HasBit(a, x) || HasBit(b, x)
  {
  }

  lemma NotHas(a: bv16, x: nat)
    requires x < 16 && !HasBit(a, x)
    ensures HasBit(!a, x)
  {
  }

  lemma HasNot(a: bv16, x: nat)
    requires x < 16 && HasBit(!a, x)
    ensures !HasBit(a, x)
  {
  }

  lemma HasXor(a: bv16, b: bv16, x: nat)
    requires x < 16 && HasBit(a ^ b, x)
    ensures HasBit(a, x) != HasBit(b, x)
  {
  }

  // ---------------------------------------------------------------- word by word

  lemma AndIsIntersection(a: bv16, b: bv16)
    ensures Bits(a & b) == Bits(a) * Bits(b)
  {
    forall x: nat | x in Bits(a & b)
      ensures x in Bits(a) * Bits(b)
    {
      HasAnd(a, b, x);
    }
    forall x: nat | x in Bits(a) * Bits(b)
      ensures x in Bits(a & b)
    {
      AndHas(a, b, x);
    }
  }

  lemma OrIsUnion(a: bv16, b: bv16)
    ensures Bits(a | b) == Bits(a) + Bits(b)
  {
    forall x: nat | x in Bits(a | b)
      ensures x in Bits(a) + Bits(b)
    {
      HasOr(a, b, x);
    }
    forall x: nat | x in Bits(a)
      ensures x in Bits(a | b)
    {
      OrHas(a, b, x);
    }
    forall x: nat | x in Bits(b)
      ensures x in Bits(a | b)
    {
      OrHas(b, a, x);
    }
  }

  lemma NotIsComplement(a: bv16, b: bv16)
    ensures Bits(b) * Bits(!a) == Bits(b) - Bits(a)
  {
    forall x: nat | x in Bits(b) * Bits(!a)
      ensures x in Bits(b) - Bits(a)
    {
      HasNot(a, x);
    }
    forall x: nat | x in Bits(b) - Bits(a)
      ensures x in Bits(!a)
    {
      NotHas(a, x);
    }
  }

  lemma NotAndIsDifference(a: bv16, b: bv16)
    ensures Bits(!a & b) == Bits(b) - Bits(a)
  {
    NotIsComplement(a, b);
    AndIsIntersection(!a, b);
  }

  lemma AndNotIsDifference(a: bv16, b: bv16)
    ensures Bits(b & !a) == Bits(b) - Bits(a)
  {
    NotIsComplement(a, b);
    AndIsIntersection(b, !a);
  }

  lemma XorIsDifference(a: bv16, b: bv16)
    ensures a ^ b == 0 <==> a == b
  {
  }

  lemma DifferInBit(a: bv16, b: bv16) returns (x: nat)
    requires a != b
    ensures x < 16 && HasBit(a ^ b, x)
  {
    XorIsDifference(a, b);
    SomeBit(a ^ b);
    x :| x < 16 && HasBit(a ^ b, x);
  }

  /** A word is known by its bits. */
  lemma BitsDecideWord(a: bv16, b: bv16)
    ensures Bits(a) == Bits(b) <==> a == b
  {
    if a != b {
      var x := DifferInBit(a, b);
      HasXor(a, b, x);
      assert x in Bits(a) <==> x !in Bits(b);
    }
  }

  // ---------------------------------------------------------------- the code on words

  /** The flags that are as wanted, on words. */
  method MetWord(flags: bv16, wanted: bv16, w: WaitType) returns (rdy: bv16)
    ensures Bits(rdy) == FlagsMet(Bits(flags), Bits(wanted), w)
    ensures forall x: nat ::
              x in Bits(rdy) <==> x in Bits(wanted) && (x in Bits(flags) <==> w.SetAll? || w.SetAny?)
  {
    AndIsIntersection(flags, wanted);
    NotAndIsDifference(flags, wanted);
    rdy := if w.SetAll? || w.SetAny? then flags & wanted else !flags & wanted;
  }

  /** The conditions of the four wait types, on words. */
  method TestWord(rdy: bv16, wanted: bv16, w: WaitType) returns (ok: bool)
    ensures ok <==> if w.SetAll? || w.ClrAll? then Bits(rdy) == Bits(wanted) else Bits(rdy) != {}
  {
    BitsDecideWord(rdy, wanted);
    BitsOfWord(rdy);
    ok := if w.SetAll? || w.ClrAll? then rdy == wanted else rdy != 0;
  }

  /** The switch over the wait type, on words. */
  method CheckWord(flags: bv16, wanted: bv16, w: WaitType) returns (rdy: bv16, ok: bool)
    ensures Bits(rdy) == FlagsMet(Bits(flags), Bits(wanted), w)
    ensures ok <==> Satisfied(Bits(flags), Bits(wanted), w)
    ensures ok <==> match w
                    case SetAll => forall x: nat :: x in Bits(wanted) ==> x in Bits(flags)
                    case SetAny => exists x: nat :: x in Bits(wanted) && x in Bits(flags)
                    case ClrAll => forall x: nat :: x in Bits(wanted) ==> x !in Bits(flags)
                    case ClrAny => exists x: nat :: x in Bits(wanted) && x !in Bits(flags)
  {
    rdy := MetWord(flags, wanted, w);
    ok := TestWord(rdy, wanted, w);
  }

  /** Consuming, on words. */
  method ConsumeWord(flags: bv16, rdy: bv16, w: WaitType) returns (left: bv16)
    ensures Bits(left) == Consumed(Bits(flags), Bits(rdy), w)
    ensures forall x: nat ::
              x in Bits(left) <==> if x in Bits(rdy) then w.ClrAll? || w.ClrAny? else x in Bits(flags)
  {
    AndNotIsDifference(rdy, flags);
    OrIsUnion(flags, rdy);
    left := if w.SetAll? || w.SetAny? then flags & !rdy else flags | rdy;
  }

  /** The new word of OSFlagPost. */
  method PostWord(word: bv16, flags: bv16, toSet: bool) returns (f: bv16)
    ensures Bits(f) == PostedFlags(Bits(word), Bits(flags), toSet)
    ensures forall x: nat :: x in Bits(f) <==> if x in Bits(flags) then toSet else x in Bits(word)
  {
    OrIsUnion(word, flags);
    AndNotIsDifference(flags, word);
    f := if toSet then word | flags else word & !flags;
  }
}
