/** The ring buffer of slot indices: a power-of-two array with free-running 16-bit indices. */
module RingQueue {
  import opened Arithmetic

  const U16: nat := 0x1_0000

  datatype Ring = Ring(values: seq<nat>, head: nat, tail: nat)

  ghost predicate Ok(r: Ring, bits: nat) {
    && bits <= 15 && |r.values| == Pow2(bits)
    && r.head < U16 && r.tail < U16
    && (r.head - r.tail) % U16 < |r.values|
  }

  // The cell that holds the i-th element.
  function Cell(r: Ring, i: nat): (c: nat)
    requires |r.values| > 0
    ensures c < |r.values|
  {
    (r.tail + i) % |r.values|
  }

  /** The queue that a ring stands for, oldest element first. */
  ghost function Fifo(r: Ring): (q: seq<nat>)
    requires |r.values| > 0
    ensures |q| == (r.head - r.tail) % U16
  {
    seq((r.head - r.tail) % U16, i requires i >= 0 => r.values[Cell(r, i)])
  }

  function Put(r: Ring, x: nat): Ring
    requires |r.values| > 0
  {
    Ring(r.values[r.head % |r.values| := x], (r.head + 1) % U16, r.tail)
  }

  function Take(r: Ring): Ring {
    r.(tail := (r.tail + 1) % U16)
  }

  // An index that has wrapped at 2^16 still points to the same cell.
  lemma WrapKeepsCell(x: nat, bits: nat)
    requires bits <= 15
    ensures x % U16 % Pow2(bits) == x % Pow2(bits)
    ensures Pow2(bits) <= 0x8000
  {
    Pow2Constants();
    Pow2Monotone(bits, 15);
    RemainderOfRemainder(x, bits, 16);
  }

  lemma SmallCapacity(bits: nat)
    requires bits <= 15
    ensures Pow2(bits) <= 0x8000
  {
    Pow2Constants();
    Pow2Monotone(bits, 15);
  }

  // Free-running indices modulo 2^16.
  lemma IndexSteps(head: nat, tail: nat)
    requires head < U16 && tail < U16
    ensures (tail + (head - tail) % U16) % U16 == head
    ensures (head - tail) % U16 + 1 < U16 ==> ((head + 1) % U16 - tail) % U16 == (head - tail) % U16 + 1
    ensures head != tail ==> (head - (tail + 1) % U16) % U16 == (head - tail) % U16 - 1
  {
  }

  // The head points to the cell after the last element, which is free in a ring with room.
  lemma HeadCell(r: Ring, bits: nat)
    requires Ok(r, bits)
    ensures r.head % |r.values| == Cell(r, |Fifo(r)|)
  {
    IndexSteps(r.head, r.tail);
    WrapKeepsCell(r.tail + |Fifo(r)|, bits);
  }

  lemma CellsDiffer(r: Ring, i: nat, n: nat)
    requires i < n < |r.values|
    ensures Cell(r, i) != Cell(r, n)
  {
    RemaindersDiffer(r.tail + i, r.tail + n, |r.values|);
  }

  lemma PutLengthens(r: Ring, bits: nat, x: nat)
    requires Ok(r, bits) && |Fifo(r)| + 1 < |r.values|
    ensures Ok(Put(r, x), bits) && |Fifo(Put(r, x))| == |Fifo(r)| + 1
  {
    SmallCapacity(bits);
    IndexSteps(r.head, r.tail);
  }

  lemma PutAppends(r: Ring, bits: nat, x: nat)
    requires Ok(r, bits) && |Fifo(r)| + 1 < |r.values|
    ensures Ok(Put(r, x), bits) && Fifo(Put(r, x)) == Fifo(r) + [x]
  {
    var n, r' := |Fifo(r)|, Put(r, x);
    HeadCell(r, bits);
    PutLengthens(r, bits, x);
    forall i: nat | i <= n ensures Fifo(r')[i] == (Fifo(r) + [x])[i] {
      assert Cell(r', i) == Cell(r, i);
      if i < n {
        CellsDiffer(r, i, n);
      }
    }
  }

  lemma CellAfterTake(r: Ring, bits: nat, i: nat)
    requires Ok(r, bits)
    ensures Cell(Take(r), i) == Cell(r, i + 1)
  {
    WrapKeepsCell(r.tail + 1, bits);
    RemainderOfSum((r.tail + 1) % U16, i, |r.values|);
    RemainderOfSum(r.tail + 1, i, |r.values|);
  }

  lemma TakeDropsFirst(r: Ring, bits: nat)
    requires Ok(r, bits) && Fifo(r) != []
    ensures Ok(Take(r), bits) && Fifo(Take(r)) == Fifo(r)[1..]
    ensures Fifo(r)[0] == r.values[r.tail % |r.values|]
  {
    IndexSteps(r.head, r.tail);
    assert |Fifo(Take(r))| == |Fifo(r)| - 1;
    forall i: nat | i < |Fifo(Take(r))| ensures Fifo(Take(r))[i] == Fifo(r)[1..][i] {
      CellAfterTake(r, bits, i);
    }
    assert Fifo(r)[0] == r.values[Cell(r, 0)];
  }

  /** The masked difference of the indices is the length of the queue, in every position of
      the two wrapping indices. */
  lemma SizeIsLength(r: Ring, bits: nat)
    requires Ok(r, bits)
    ensures BitAnd((r.head - r.tail) % U16, Pow2(bits) - 1) == |Fifo(r)| <= Pow2(bits) - 1
    ensures r.head == r.tail <==> Fifo(r) == []
  {
    MaskIsRemainder((r.head - r.tail) % U16, bits);
    DivModUnique(|Fifo(r)|, Pow2(bits), 0, |Fifo(r)|);
  }

  // ---- For ever --------------------------------------------------------------------------

  datatype Op = Enqueue(x: nat) | Dequeue

  datatype Outcome = Accepted | Rejected | Got(x: nat) | Nothing

  function RunRing(r: Ring, mask: nat, ops: seq<Op>): seq<Outcome>
    requires |r.values| > 0
    decreases |ops|
  {
    if ops == [] then []
    else match ops[0]
      case Enqueue(x) =>
        if BitAnd((r.head - r.tail) % U16, mask) == mask then [Rejected] + RunRing(r, mask, ops[1..])
        else [Accepted] + RunRing(Put(r, x), mask, ops[1..])
      case Dequeue =>
        if r.head == r.tail then [Nothing] + RunRing(r, mask, ops[1..])
        else [Got(r.values[r.tail % |r.values|])] + RunRing(Take(r), mask, ops[1..])
  }

  /** Reference: a first-in-first-out queue of at most `limit` elements. */
  function RunFifo(q: seq<nat>, limit: nat, ops: seq<Op>): seq<Outcome>
    decreases |ops|
  {
    if ops == [] then []
    else match ops[0]
      case Enqueue(x) =>
        if |q| >= limit then [Rejected] + RunFifo(q, limit, ops[1..])
        else [Accepted] + RunFifo(q + [x], limit, ops[1..])
      case Dequeue =>
        if q == [] then [Nothing] + RunFifo(q, limit, ops[1..])
        else [Got(q[0])] + RunFifo(q[1..], limit, ops[1..])
  }

  /** Through any number of operations and index wraps, the ring answers like a queue of
      capacity - 1 elements. */
  lemma {:induction false} RingIsFifoForever(r: Ring, bits: nat, ops: seq<Op>)
    requires Ok(r, bits)
    ensures RunRing(r, Pow2(bits) - 1, ops) == RunFifo(Fifo(r), Pow2(bits) - 1, ops)
    decreases |ops|
  {
    if ops != [] {
      SizeIsLength(r, bits);
      match ops[0] {
        case Enqueue(x) =>
          if |Fifo(r)| < Pow2(bits) - 1 {
            PutAppends(r, bits, x);
            RingIsFifoForever(Put(r, x), bits, ops[1..]);
          } else {
            RingIsFifoForever(r, bits, ops[1..]);
          }
        case Dequeue =>
          if Fifo(r) != [] {
            TakeDropsFirst(r, bits);
            RingIsFifoForever(Take(r), bits, ops[1..]);
          } else {
            RingIsFifoForever(r, bits, ops[1..]);
          }
      }
    }
  }

  // ---- The queue updated in place --------------------------------------------------------

  class SlotQueue {
    const values: array<nat>
    const mask: nat
    ghost const bits: nat
    var head: nat
    var tail: nat

    ghost predicate Valid()
      reads this, values
    {
      Ok(State(), bits) && mask == Pow2(bits) - 1
    }

    ghost function State(): Ring
      reads this, values
    {
      Ring(values[..], head, tail)
    }

    /** The queued elements, oldest first. */
    ghost function Contents(): seq<nat>
      reads this, values
      requires Valid()
    {
      Fifo(State())
    }

    constructor (ghost bits: nat, capacity: nat)
      requires bits <= 15 && capacity == Pow2(bits)
      ensures Valid() && fresh(values) && this.bits == bits && mask == capacity - 1 && Contents() == []
    {
      this.bits := bits;
      mask := capacity - 1;
      values := new nat[capacity](_ => 0);
      head, tail := 0, 0;
    }

    method Size() returns (n: nat)
      requires Valid()
      ensures n == |Contents()|
    {
      SizeIsLength(State(), bits);
      n := BitAnd((head - tail) % U16, mask);
    }

    method IsEmpty() returns (b: bool)
      requires Valid()
      ensures b <==> Contents() == []
    {
      SizeIsLength(State(), bits);
      b := head == tail;
    }

    method IsFull() returns (b: bool)
      requires Valid()
      ensures b <==> |Contents()| == mask
    {
      var n := Size();
      b := n == mask;
    }

    method Available() returns (n: nat)
      requires Valid()
      ensures n + |Contents()| == mask
    {
      SizeIsLength(State(), bits);
      var size := Size();
      n := mask - size;
    }

    method Enqueue(x: nat) returns (ok: bool)
      requires Valid()
      modifies this`head, values
      ensures Valid()
      ensures ok == (|old(Contents())| < mask)
      ensures Contents() == if ok then old(Contents()) + [x] else old(Contents())
    {
      SizeIsLength(State(), bits);
      var full := IsFull();
      if full {
        return false;
      }
      MaskIsRemainder(head, bits);
      PutAppends(State(), bits, x);
      ghost var after := Put(State(), x);
      values[BitAnd(head, mask)] := x;
      head := (head + 1) % U16;
      assert State() == after;
      return true;
    }

    method Dequeue() returns (ok: bool, x: nat)
      requires Valid()
      modifies this`tail
      ensures Valid()
      ensures ok == (old(Contents()) != [])
      ensures if ok then old(Contents()) == [x] + Contents() else Contents() == old(Contents())
    {
      var empty := IsEmpty();
      if empty {
        return false, 0;
      }
      MaskIsRemainder(tail, bits);
      TakeDropsFirst(State(), bits);
      x := values[BitAnd(tail, mask)];
      tail := (tail + 1) % U16;
      return true, x;
    }

    /** Takes the first elements in order, as many as there are up to `max`. */
    method Drain(max: nat, out: array<nat>) returns (n: nat)
      requires Valid() && max <= out.Length && out != values
      modifies this`tail, out
      ensures Valid()
      ensures n == if max <= |old(Contents())| then max else |old(Contents())|
      ensures out[..n] == old(Contents())[..n] && Contents() == old(Contents())[n..]
    {
      n := 0;
      ghost var q := Contents();
      var empty := IsEmpty();
      while n < max && !empty
        invariant Valid() && n <= max && n <= |q|
        invariant Contents() == q[n..] && out[..n] == q[..n]
        invariant empty <==> Contents() == []
        decreases max - n
      {
        MaskIsRemainder(tail, bits);
        TakeDropsFirst(State(), bits);
        ghost var rest := Take(State());
        out[n] := values[BitAnd(tail, mask)];
        assert out[..n + 1] == q[..n] + [q[n]];
        tail := (tail + 1) % U16;
        n := n + 1;
        assert State() == rest && Contents() == q[n..];
        empty := IsEmpty();
      }
    }

    method Peek(index: nat) returns (ok: bool, x: nat)
      requires Valid()
      ensures ok == (index < |Contents()|)
      ensures ok ==> x == Contents()[index]
    {
      var size := Size();
      if index >= size {
        return false, 0;
      }
      MaskIsRemainder(tail + index, bits);
      return true, values[BitAnd(tail + index, mask)];
    }
  }
}
