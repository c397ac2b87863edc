/** The ring of a message queue: OS_Q and the storage area its pointers run around in. */
module MessageRings {

  /** The position of message i in storage of the given size, which starts over at its end. */
  ghost function Spot(size: nat, out: nat, i: nat): int
  {
    if out + i < size then out + i else out + i - size
  }

  /** n messages of the storage from position out on. */
  ghost predicate Fits(store: seq<int>, out: nat, n: nat)
  {
    n <= |store| && (|store| == 0 ==> out == 0) && (|store| > 0 ==> out < |store|)
  }

  ghost function Window(store: seq<int>, out: nat, n: nat): (w: seq<int>)
    requires Fits(store, out, n)
    ensures |w| == n && forall i: nat :: i < n ==> w[i] == store[Spot(|store|, out, i)]
  {
    if n == 0 then [] else Window(store, out, n - 1) + [store[Spot(|store|, out, n - 1)]]
  }

  lemma {:induction false} OutsideWindow(store: seq<int>, out: nat, n: nat, k: nat, msg: int)
    requires Fits(store, out, n) && k < |store|
    requires forall i: nat :: i < n ==> Spot(|store|, out, i) != k
    ensures Window(store[k := msg], out, n) == Window(store, out, n)
  {
    if n > 0 {
      OutsideWindow(store, out, n - 1, k, msg);
    }
  }

  /** Writing behind the last message appends. */
  lemma WriteBehind(store: seq<int>, out: nat, n: nat, msg: int)
    requires Fits(store, out, n) && n < |store|
    ensures Window(store[Spot(|store|, out, n) := msg], out, n + 1) == Window(store, out, n) + [msg]
  {
    OutsideWindow(store, out, n, Spot(|store|, out, n), msg);
  }

  /** Writing before the first message prepends. */
  lemma WriteBefore(store: seq<int>, out: nat, out': nat, n: nat, msg: int)
    requires Fits(store, out, n) && n < |store|
    requires out' == if out == 0 then |store| - 1 else out - 1
    ensures Window(store[out' := msg], out', n + 1) == [msg] + Window(store, out, n)
  {
    OutsideWindow(store, out, n, out', msg);
    var w, w' := Window(store, out, n), Window(store[out' := msg], out', n + 1);
    assert Spot(|store|, out', 0) == out';
    forall i: nat | i < n
      ensures w'[i + 1] == w[i]
    {
      assert Spot(|store|, out', i + 1) == Spot(|store|, out, i);
    }
  }

  /** Moving on from the first message drops it. */
  lemma StepOut(store: seq<int>, out: nat, n: nat)
    requires Fits(store, out, n) && n > 0
    ensures var out' := if out + 1 == |store| then 0 else out + 1;
            [store[out]] + Window(store, out', n - 1) == Window(store, out, n)
  {
    var out' := if out + 1 == |store| then 0 else out + 1;
    var w, w' := Window(store, out, n), Window(store, out', n - 1);
    assert Spot(|store|, out, 0) == out;
    forall i: nat | i < n - 1
      ensures w'[i] == w[i + 1]
    {
      assert Spot(|store|, out', i) == Spot(|store|, out, i + 1);
    }
  }

  class Ring {
    const store: array<int>   // OSQStart up to OSQEnd
    var inp: nat              // OSQIn
    var out: nat              // OSQOut
    var entries: nat          // OSQEntries

    /** OSQIn is where the next message after the ones present goes. */
    ghost predicate Valid()
      reads this, store
    {
      && Fits(store[..], out, entries)
      && inp == (if store.Length == 0 then 0 else Spot(store.Length, out, entries))
    }

    /** The messages from the oldest to the newest. */
    ghost function Contents(): seq<int>
      requires Valid()
      reads this, store
    {
      Window(store[..], out, entries)
    }

    /** The part of OSQCreate that sets up the OS_Q. */
    constructor (size: nat)
      ensures Valid() && Contents() == [] && store.Length == size && fresh(store)
    {
      store := new int[size];
      inp, out, entries := 0, 0, 0;
    }

    /** OSQPost without waiters. */
    method Post(msg: int) returns (ok: bool)
      requires Valid()
      modifies this, store
      ensures Valid() && ok == (|old(Contents())| < store.Length)
      ensures Contents() == if ok then old(Contents()) + [msg] else old(Contents())
    {
      ok := entries < store.Length;
      if ok {
        WriteBehind(store[..], out, entries, msg);
        store[inp] := msg;
        inp := inp + 1;
        entries := entries + 1;
        if inp == store.Length {
          inp := 0;
        }
      }
    }

    /** OSQPostFront without waiters. */
    method PostFront(msg: int) returns (ok: bool)
      requires Valid()
      modifies this, store
      ensures Valid() && ok == (|old(Contents())| < store.Length)
      ensures Contents() == if ok then [msg] + old(Contents()) else old(Contents())
    {
      ok := entries < store.Length;
      if ok {
        ghost var before, out0 := store[..], out;
        if out == 0 {
          out := store.Length;
        }
        out := out - 1;
        store[out] := msg;
        WriteBefore(before, out0, out, entries, msg);
        assert store[..] == before[out := msg];
        entries := entries + 1;
        assert Spot(store.Length, out, entries) == inp;
      }
    }

    /** What OSQAccept and OSQPend do when there is a message. */
    method Take() returns (msg: int)
      requires Valid() && Contents() != []
      modifies this
      ensures Valid() && [msg] + Contents() == old(Contents())
    {
      StepOut(store[..], out, entries);
      msg := store[out];
      out := out + 1;
      entries := entries - 1;
      if out == store.Length {
        out := 0;
      }
    }

    /** OSQFlush */
    method Flush()
      requires Valid()
      modifies this
      ensures Valid() && Contents() == []
    {
      inp, out, entries := 0, 0, 0;
    }
  }
}
