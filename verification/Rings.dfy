/** The submission and completion rings of a channel and its worker
    (driver/dmaplane.h and driver/main.c).  Each method is one lock region. */
module Rings {
  import opened Arithmetic
  import opened Wrappers

  const RING_SIZE: nat := 1024

  datatype Entry = Entry(payload: Word64, flags: Word32)

  /** Unsigned 32-bit subtraction of 32-bit indices. */
  function Sub32(a: nat, b: nat): int { if a >= b then a - b else a - b + U32 }

  /** Unsigned 32-bit increment. */
  function Inc32(a: nat): nat { if a + 1 == U32 then 0 else a + 1 }

  /** The slot of the i-th entry behind a tail index. */
  function Slot(tail: nat, i: nat): nat { (tail + i) % U32 % RING_SIZE }

  /** Because the ring size divides 2^32, neighbouring entries keep their own slots even where
      the 32-bit index wraps. */
  lemma SlotsDistinct(tail: nat, i: nat, j: nat)
    requires i < j < i + RING_SIZE
    ensures Slot(tail, i) != Slot(tail, j)
  {
    Arithmetic.WrapKeepsSlot(tail + i, RING_SIZE, 0x40_0000);
    Arithmetic.WrapKeepsSlot(tail + j, RING_SIZE, 0x40_0000);
    var q, r := (tail + i) / RING_SIZE, (tail + i) % RING_SIZE;
    var q', r' := (tail + j) / RING_SIZE, (tail + j) % RING_SIZE;
    assert RING_SIZE * q + r < RING_SIZE * q' + r' < RING_SIZE * (q + 1) + r;
    assert q' == q ==> r < r';
    assert q' == q + 1 ==> r' < r;
  }

  lemma SlotShift(tail: nat, next: nat, n: nat)
    requires tail < U32 && next == Inc32(tail)
    ensures forall i :: 0 <= i < n ==> Slot(next, i) == Slot(tail, i + 1)
  {
    forall i | 0 <= i < n ensures Slot(next, i) == Slot(tail, i + 1) {
      if next == 0 {
        assert (tail + (i + 1)) % U32 == (U32 + i) % U32 == i % U32;
      }
    }
  }

  lemma CountAfterPush(head: nat, tail: nat)
    requires head < U32 && tail < U32 && Sub32(head, tail) < RING_SIZE
    ensures Sub32(Inc32(head), tail) == Sub32(head, tail) + 1
    ensures Slot(tail, Sub32(head, tail)) == head % RING_SIZE
  {
  }

  lemma CountAfterPop(head: nat, tail: nat)
    requires head < U32 && tail < U32 && head != tail
    ensures Sub32(head, Inc32(tail)) == Sub32(head, tail) - 1
  {
  }

  class Ring {
    const entries: array<Entry>
    var head: nat
    var tail: nat

    ghost predicate Valid()
      reads this
    {
      entries.Length == RING_SIZE && head < U32 && tail < U32 && Sub32(head, tail) <= RING_SIZE
    }

    /** The queue the ring stands for, oldest entry first. */
    ghost function Contents(): (q: seq<Entry>)
      requires Valid()
      reads this, entries
      ensures |q| <= RING_SIZE
    {
      seq(Sub32(head, tail), i requires 0 <= i reads this, entries requires entries.Length == RING_SIZE =>
        entries[Slot(tail, i)])
    }

    constructor ()
      ensures Valid() && Contents() == [] && fresh(entries)
    {
      entries := new Entry[RING_SIZE](_ => Entry(0, 0));
      head, tail := 0, 0;
    }

    /** dmaplane_ring_full, dmaplane_ring_empty and dmaplane_ring_count. */
    predicate Full()
      reads this
    {
      Sub32(head, tail) == RING_SIZE
    }

    predicate Empty()
      reads this
    {
      head == tail
    }

    function Count(): int
      reads this
    {
      Sub32(head, tail)
    }

    lemma CountsAreLengths()
      requires Valid()
      ensures Full() <==> |Contents()| == RING_SIZE
      ensures Empty() <==> Contents() == []
      ensures Count() == |Contents()|
    {
    }

    /** The producer's half of a lock region; it keeps a full ring as it is. */
    method Push(e: Entry) returns (ok: bool)
      requires Valid()
      modifies this`head, entries
      ensures Valid()
      ensures ok <==> |old(Contents())| < 1024
      ensures Contents() == if ok then old(Contents()) + [e] else old(Contents())
    {
      if Full() {
        return false;
      }
      ghost var n := Sub32(head, tail);
      CountAfterPush(head, tail);
      forall i | 0 <= i < n ensures Slot(tail, i) != head % RING_SIZE {
        SlotsDistinct(tail, i, n);
      }
      entries[head % RING_SIZE] := e;
      head := Inc32(head);
      ok := true;
    }

    method Pop() returns (r: Option<Entry>)
      requires Valid()
      modifies this`tail
      ensures Valid()
      ensures r == if old(Contents()) == [] then None else Some(old(Contents())[0])
      ensures Contents() == if r.None? then old(Contents()) else old(Contents())[1..]
    {
      if Empty() {
        return None;
      }
      CountAfterPop(head, tail);
      SlotShift(tail, Inc32(tail), Sub32(head, tail) - 1);
      r := Some(entries[tail % RING_SIZE]);
      tail := Inc32(tail);
    }
  }
}
