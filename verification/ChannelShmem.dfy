/** Sizing of the channel: the number of slots, the power-of-two queue capacity, and what
    follows from them for the queue. */
module ChannelShmem {
  import opened Arithmetic
  import opened CacheTypes
  import opened RingQueue

  const U32: nat := 0x1_0000_0000

  // ---- The shift-or cascade --------------------------------------------------------------

  /** The bitwise OR of two numbers. */
  function BitOr(x: nat, y: nat): nat
    decreases x
  {
    if x == 0 then y
    else if y == 0 then x
    else (if x % 2 == 1 || y % 2 == 1 then 1 else 0) + 2 * BitOr(x / 2, y / 2)
  }

  /** Shifting a number right. */
  function Shr(x: nat, n: nat): nat
    decreases n
  {
    if n == 0 then x else Shr(x / 2, n - 1)
  }

  lemma {:induction false} ShrOfOr(x: nat, y: nat, n: nat)
    ensures Shr(BitOr(x, y), n) == BitOr(Shr(x, n), Shr(y, n))
    decreases n
  {
    if n > 0 {
      ShrOfOr(x / 2, y / 2, n - 1);
    }
  }

  lemma {:induction false} ShrAdds(x: nat, a: nat, b: nat)
    ensures Shr(Shr(x, a), b) == Shr(x, a + b)
    decreases a
  {
    if a > 0 {
      ShrAdds(x / 2, a - 1, b);
    }
  }

  lemma {:induction false} ShrOfOnes(a: nat, n: nat)
    ensures Shr(Pow2(a + n) - 1, n) == Pow2(a) - 1
    decreases n
  {
    if n > 0 {
      assert (Pow2(a + n) - 1) / 2 == Pow2(a + n - 1) - 1;
      ShrOfOnes(a, n - 1);
    }
  }

  lemma {:induction false} ShrToZero(x: nat, n: nat)
    ensures Shr(x, n) == 0 <==> x < Pow2(n)
    ensures Shr(x, n) == 1 <==> Pow2(n) <= x < Pow2(n + 1)
    decreases n
  {
    if n > 0 {
      ShrToZero(x / 2, n - 1);
    }
  }

  // Ones above n bits together with n ones below.
  lemma {:induction false} OrOnes(x: nat, a: nat, n: nat)
    requires Shr(x, n) == Pow2(a) - 1
    ensures BitOr(x, Pow2(n) - 1) == Pow2(a + n) - 1
    decreases n
  {
    if n == 0 {
    } else {
      OrOnes(x / 2, a, n - 1);
      assert (Pow2(n) - 1) / 2 == Pow2(n - 1) - 1 && (Pow2(n) - 1) % 2 == 1;
      if x == 0 {
        ShrToZero(0, n);
      }
    }
  }

  /** A number of at most k bits whose highest s bits are all ones. */
  ghost predicate TopOnes(x: nat, k: nat, s: nat) {
    s <= k && Shr(x, k) == 0 && Shr(x, k - s) == Pow2(s) - 1
  }

  function Min(a: nat, b: nat): nat {
    if a < b then a else b
  }

  // The shifted copy, seen from bit k - t on: the top of `x`, again shifted by s.
  lemma ShiftedCopy(x: nat, k: nat, s: nat, t: nat)
    requires t <= k
    ensures Shr(BitOr(x, Shr(x, s)), k - t) == BitOr(Shr(x, k - t), Shr(Shr(x, k - t), s))
  {
    ShrOfOr(x, Shr(x, s), k - t);
    ShrAdds(x, s, k - t);
    ShrAdds(x, k - t, s);
  }

  // Shifted by s, t bits with s ones at the top become t - s ones.
  lemma OnesShifted(top: nat, s: nat, t: nat)
    requires s <= t <= 2 * s && Shr(top, t - s) == Pow2(s) - 1
    ensures Shr(top, s) == Pow2(t - s) - 1
  {
    ShrAdds(top, t - s, 2 * s - t);
    ShrOfOnes(t - s, 2 * s - t);
  }

  lemma RunDoublesBelow(x: nat, k: nat, s: nat, t: nat)
    requires s < k && TopOnes(x, k, s) && t == Min(2 * s, k)
    ensures Shr(BitOr(x, Shr(x, s)), k - t) == Pow2(t) - 1
  {
    var top := Shr(x, k - t);
    ShiftedCopy(x, k, s, t);
    ShrAdds(x, k - t, t - s);
    OnesShifted(top, s, t);
    OrOnes(top, s, t - s);
  }

  // Neither the number nor its shifted copy reaches bit k.
  lemma StaysBelow(x: nat, k: nat, s: nat)
    requires Shr(x, k) == 0
    ensures Shr(BitOr(x, Shr(x, s)), k) == 0
  {
    ShrOfOr(x, Shr(x, s), k);
    ShrAdds(x, s, k);
    ShrAdds(x, k, s);
    ShrToZero(0, s);
  }

  lemma ShiftedAway(x: nat, k: nat, s: nat)
    requires Shr(x, k) == 0 && k <= s
    ensures Shr(x, s) == 0
  {
    ShrAdds(x, k, s - k);
    ShrToZero(0, s - k);
  }

  // ORing in a copy shifted by s doubles the run of ones at the top.
  lemma RunDoubles(x: nat, k: nat, s: nat)
    requires TopOnes(x, k, Min(s, k))
    ensures TopOnes(BitOr(x, Shr(x, s)), k, Min(2 * s, k))
  {
    StaysBelow(x, k, s);
    if s < k {
      RunDoublesBelow(x, k, s, Min(2 * s, k));
    } else {
      ShiftedAway(x, k, s);
    }
  }

  lemma BitLength(x: nat) returns (k: nat)
    requires 0 < x
    ensures k > 0 && Pow2(k - 1) <= x < Pow2(k)
    ensures TopOnes(x, k, 1)
  {
    k := 1;
    while x >= Pow2(k)
      invariant k > 0 && Pow2(k - 1) <= x
      decreases x - Pow2(k - 1)
    {
      k := k + 1;
    }
    ShrToZero(x, k);
    ShrToZero(x, k - 1);
  }

  /** The least power of two that is at least `n`. */
  ghost predicate IsCapacity(n: int, cap: nat, bits: nat) {
    cap == Pow2(bits) && n <= cap && (bits > 0 ==> Pow2(bits - 1) < n)
  }

  method Cascade(x: nat, ghost k: nat) returns (r: nat)
    requires k <= 32 && TopOnes(x, k, Min(1, k))
    ensures r == Pow2(k) - 1
  {
    r := x;
    RunDoubles(r, k, 1);
    r := BitOr(r, Shr(r, 1));
    RunDoubles(r, k, 2);
    r := BitOr(r, Shr(r, 2));
    RunDoubles(r, k, 4);
    r := BitOr(r, Shr(r, 4));
    RunDoubles(r, k, 8);
    r := BitOr(r, Shr(r, 8));
    RunDoubles(r, k, 16);
    r := BitOr(r, Shr(r, 16));
  }

  // A 32-bit word less one has at most 32 bits, and 32 only beyond 2^31.
  lemma LengthOfWord(x: nat, k: nat)
    requires x < U32 - 1 && (if x == 0 then k == 0 else k > 0 && Pow2(k - 1) <= x < Pow2(k))
    ensures k <= 32 && (k == 32 <==> x >= 0x8000_0000)
  {
    Pow2Constants();
    if k > 32 {
      Pow2Monotone(32, k - 1);
    } else if k < 32 {
      Pow2Monotone(k, 31);
    }
  }

  /** The cascade returns the least power of two that is at least `x`, for all `x` up to 2^31,
      and overflows to zero beyond. */
  method Pow2Ceil(x: nat) returns (r: nat, ghost bits: nat)
    requires x < U32
    ensures x <= 0x8000_0000 ==> IsCapacity(x, r, bits)
    ensures x > 0x8000_0000 ==> r == 0
  {
    if x == 0 {
      return 1, 0;
    }
    Pow2Constants();
    bits := 0;
    if x > 1 {
      bits := BitLength(x - 1);
    }
    LengthOfWord(x - 1, bits);
    r := Cascade(x - 1, bits);
    r := (r + 1) % U32;
  }

  // ---- Slot count and queue capacity -----------------------------------------------------

  /** The number of slots: as configured, or by default twice the connections, clamped. */
  function SlotCount(maxSlots: int, maxConnections: int): (n: int)
    ensures n > 0 && (maxSlots > 0 ==> n == maxSlots)
    ensures maxSlots <= 0 ==> 1024 <= n <= 16384
    ensures maxSlots <= 0 && n > 1024 ==> n <= maxConnections * 2
    ensures maxSlots <= 0 && n < 16384 ==> n >= maxConnections * 2
  {
    if maxSlots > 0 then maxSlots
    else if maxConnections * 2 < 1024 then 1024
    else if maxConnections * 2 > 16384 then 16384
    else maxConnections * 2
  }

  lemma CapacityFitsExactlyWhen(slots: int, cap: nat, bits: nat)
    requires 0 < slots && IsCapacity(slots, cap, bits)
    ensures slots <= 0x8000 <==> bits <= 15
    ensures cap % U16 > 0 <==> bits <= 15
    ensures bits <= 15 ==> cap % U16 == cap
    ensures 1024 <= slots <= 16384 ==> 1024 <= cap <= 16384
  {
    Pow2Constants();
    if bits <= 15 {
      Pow2Monotone(bits, 15);
    } else {
      Pow2Monotone(15, bits - 1);
      Pow2Adds(bits - 16, 16);
      DivModUnique(cap, U16, Pow2(bits - 16), 0);
    }
    if bits > 14 {
      Pow2Monotone(14, bits - 1);
    } else {
      Pow2Monotone(bits, 14);
    }
  }

  /** Setting up the queue hands the capacity over as a 16-bit number, which must not be zero
      there. That succeeds exactly for at most 2^15 slots, so always with the default count. */
  method InitQueue(maxSlots: int, maxConnections: int) returns (legal: bool, queue: SlotQueue?)
    requires maxSlots <= 0x7FFF_FFFF
    ensures legal <==> SlotCount(maxSlots, maxConnections) <= 0x8000
    ensures maxSlots <= 0 ==> legal && queue != null && 1024 <= queue.mask + 1 <= 16384
    ensures legal ==>
      && queue != null && queue.Valid() && queue.Contents() == []
      && IsCapacity(SlotCount(maxSlots, maxConnections), queue.mask + 1, queue.bits)
  {
    var slots := SlotCount(maxSlots, maxConnections);
    ghost var bits: nat;
    var cap;
    cap, bits := Pow2Ceil(slots);
    CapacityFitsExactlyWhen(slots, cap, bits);
    var passed := cap % U16;
    if passed == 0 {
      return false, null;
    }
    queue := new SlotQueue(bits, passed);
    legal := true;
  }

  // ---- When an enqueue can fail ----------------------------------------------------------

  ghost function Elements(q: seq<nat>): set<nat> {
    set x | x in q
  }

  ghost function Numbers(n: nat): set<nat> {
    if n == 0 then {} else Numbers(n - 1) + {n - 1}
  }

  lemma {:induction false} ElementsCount(q: seq<nat>)
    requires NoDup(q)
    ensures |Elements(q)| == |q|
  {
    if q != [] {
      var n := |q| - 1;
      ElementsCount(q[..n]);
      assert q == q[..n] + [q[n]];
      assert Elements(q) == Elements(q[..n]) + {q[n]};
    }
  }

  lemma {:induction false} NumbersCount(n: nat)
    ensures |Numbers(n)| == n && forall x: nat :: x in Numbers(n) <==> x < n
  {
    if n > 0 {
      NumbersCount(n - 1);
    }
  }

  /** A queue that holds distinct slots below the slot count rejects a slot it does not hold
      only by the pigeonhole: exactly when the slot count is itself the power of two and every
      other slot is queued. */
  lemma RejectedExactlyWhen(q: seq<nat>, slots: nat, cap: nat, bits: nat, slot: nat)
    requires NoDup(q) && (forall x :: x in q ==> x < slots) && slot < slots && slot !in q
    requires IsCapacity(slots, cap, bits) && |q| <= cap - 1
    ensures |q| == cap - 1 <==> slots == cap && forall x: nat :: x < slots && x != slot ==> x in q
  {
    var queued, others := Elements(q), Numbers(slots) - {slot};
    ElementsCount(q);
    NumbersCount(slots);
    SubsetFull(queued, others);
    if |q| == cap - 1 {
      forall x: nat | x < slots && x != slot ensures x in q {
        assert x in others;
      }
    }
    if slots == cap && forall x: nat :: x < slots && x != slot ==> x in q {
      SubsetFull(others, queued);
    }
  }

  lemma SubsetFull(a: set<nat>, b: set<nat>)
    requires a <= b
    ensures |a| <= |b| && (|a| == |b| ==> a == b)
  {
    assert b == a + (b - a);
    assert |b| == |a| + |b - a|;
  }
}
