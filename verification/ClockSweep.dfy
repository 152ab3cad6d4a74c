/** The clock sweep of the shared cache, stated over usage counts alone: which slots the
    32-bit hand visits, when the sweep stops, what it leaves behind and what it costs. */
module ClockSweep {
  import opened Arithmetic

  const U32: nat := 0x1_0000_0000
  const USAGE_MAX: nat := 5

  // ---- The hand --------------------------------------------------------------------------

  /** The slot that the `i`-th fetch-and-add of a sweep starting at `hand` looks at. */
  function Visit(hand: nat, cap: nat, i: nat): (slot: nat)
    requires 0 < cap
    ensures slot < cap
  {
    (hand + i) % U32 % cap
  }

  /** How often slot `j` is among the first `k` visits. */
  ghost function Passes(hand: nat, cap: nat, k: nat, j: nat): nat
    requires 0 < cap
  {
    if k == 0 then 0
    else Passes(hand, cap, k - 1, j) + if Visit(hand, cap, k - 1) == j then 1 else 0
  }

  /** A sweep over `eff` stops at the first visit that finds its slot used up: `eff[j]` is the
      number of times slot `j` may be passed over, zero for an entry that is not live. */
  ghost predicate StopsBy(eff: seq<nat>, hand: nat, i: nat)
    requires |eff| > 0
  {
    Passes(hand, |eff|, i, Visit(hand, |eff|, i)) >= eff[Visit(hand, |eff|, i)]
  }

  ghost predicate RunsPast(eff: seq<nat>, hand: nat, k: nat)
    requires |eff| > 0
  {
    forall i: nat :: i < k ==> !StopsBy(eff, hand, i)
  }

  ghost predicate IsStop(eff: seq<nat>, hand: nat, k: nat)
    requires |eff| > 0
  {
    RunsPast(eff, hand, k) && StopsBy(eff, hand, k)
  }

  // What remains of the counts `w` after `k` visits.
  ghost function Remaining(w: seq<nat>, hand: nat, k: nat): (r: seq<nat>)
    requires |w| > 0
    requires forall j :: 0 <= j < |w| ==> Passes(hand, |w|, k, j) <= w[j]
  {
    seq(|w|, j requires 0 <= j < |w| => w[j] - Passes(hand, |w|, k, j))
  }

  lemma {:induction false} PassesWithinBudget(eff: seq<nat>, hand: nat, k: nat, j: nat)
    requires |eff| > 0 && j < |eff| && RunsPast(eff, hand, k)
    ensures Passes(hand, |eff|, k, j) <= eff[j]
  {
    if k > 0 {
      PassesWithinBudget(eff, hand, k - 1, j);
      assert !StopsBy(eff, hand, k - 1);
    }
  }

  /** Every visit before the stop takes exactly one unit from the counts it walks over. */
  lemma {:induction false} SweepSpends(w: seq<nat>, hand: nat, k: nat)
    requires |w| > 0
    requires forall j :: 0 <= j < |w| ==> Passes(hand, |w|, k, j) <= w[j]
    ensures Sum(Remaining(w, hand, k)) + k == Sum(w)
  {
    if k == 0 {
      assert Remaining(w, hand, 0) == w;
    } else {
      assert forall j :: 0 <= j < |w| ==> Passes(hand, |w|, k - 1, j) <= Passes(hand, |w|, k, j);
      SweepSpends(w, hand, k - 1);
      var before, v := Remaining(w, hand, k - 1), Visit(hand, |w|, k - 1);
      assert Remaining(w, hand, k) == before[v := before[v] - 1];
      SumUpdate(before, v, before[v] - 1);
    }
  }

  /** A sweep that has not stopped yet has used at most the whole budget. */
  lemma RunsPastBounded(eff: seq<nat>, hand: nat, k: nat)
    requires |eff| > 0 && RunsPast(eff, hand, k)
    ensures k <= Sum(eff)
  {
    forall j | 0 <= j < |eff| ensures Passes(hand, |eff|, k, j) <= eff[j] {
      PassesWithinBudget(eff, hand, k, j);
    }
    SweepSpends(eff, hand, k);
  }

  lemma RunsPastMore(eff: seq<nat>, hand: nat, k: nat)
    requires |eff| > 0 && RunsPast(eff, hand, k) && !StopsBy(eff, hand, k)
    ensures RunsPast(eff, hand, k + 1) && k + 1 <= Sum(eff)
  {
    RunsPastBounded(eff, hand, k + 1);
  }

  ghost function StopFrom(eff: seq<nat>, hand: nat, k: nat): (stop: nat)
    requires |eff| > 0 && RunsPast(eff, hand, k)
    ensures IsStop(eff, hand, stop)
    decreases Sum(eff) + 1 - k
  {
    RunsPastBounded(eff, hand, k);
    if StopsBy(eff, hand, k) then k
    else
      RunsPastMore(eff, hand, k);
      StopFrom(eff, hand, k + 1)
  }

  /** The number of visits a sweep makes before the one that returns. */
  ghost function StopStep(eff: seq<nat>, hand: nat): (stop: nat)
    requires |eff| > 0
    ensures IsStop(eff, hand, stop)
  {
    StopFrom(eff, hand, 0)
  }

  lemma StopUnique(eff: seq<nat>, hand: nat, k: nat)
    requires |eff| > 0 && IsStop(eff, hand, k)
    ensures k == StopStep(eff, hand)
  {
    var s := StopStep(eff, hand);
    assert StopsBy(eff, hand, k) && StopsBy(eff, hand, s);
  }

  ghost function VictimSlot(eff: seq<nat>, hand: nat): (slot: nat)
    requires |eff| > 0
    ensures slot < |eff|
  {
    Visit(hand, |eff|, StopStep(eff, hand))
  }

  /** A single sweep makes at most `1 + Sum(eff)` visits, so at most five rounds and one more. */
  lemma SweepLengthBound(eff: seq<nat>, hand: nat)
    requires |eff| > 0
    ensures StopStep(eff, hand) <= Sum(eff)
    ensures (forall j :: 0 <= j < |eff| ==> eff[j] <= USAGE_MAX) ==> StopStep(eff, hand) <= USAGE_MAX * |eff|
  {
    RunsPastBounded(eff, hand, StopStep(eff, hand));
    if forall j :: 0 <= j < |eff| ==> eff[j] <= USAGE_MAX {
      SumBounded(eff, USAGE_MAX);
    }
  }

  // ---- The sweep as an argmin ------------------------------------------------------------

  /** Clock distance of slot `j` ahead of the hand. */
  function Distance(hand: nat, cap: nat, j: nat): (d: nat)
    requires j < cap
    ensures d < cap
  {
    (j - hand) % cap
  }

  /** `r` has the least pair (uses left, distance from the hand), compared lexicographically. */
  ghost predicate IsArgmin(eff: seq<nat>, hand: nat, r: nat)
    requires |eff| > 0
  {
    r < |eff| &&
    forall j: nat :: j < |eff| ==>
      eff[r] < eff[j] || (eff[r] == eff[j] && Distance(hand, |eff|, r) <= Distance(hand, |eff|, j))
  }

  // For the first `k` visits the hand acts like an unbounded counter.
  ghost predicate NoJump(hand: nat, cap: nat, k: nat)
    requires 0 < cap
  {
    U32 % cap == 0 || hand + k <= U32
  }

  lemma VisitNoJump(hand: nat, cap: nat, i: nat)
    requires 0 < cap && hand < U32 && NoJump(hand, cap, i + 1)
    ensures Visit(hand, cap, i) == (hand + i) % cap
  {
    if hand + i >= U32 {
      var x, c := hand + i, U32 / cap;
      assert U32 == c * cap;
      assert x == (x / U32) * U32 + x % U32;
      assert (x / U32) * U32 == ((x / U32) * c) * cap;
      ModSub(x % U32, cap, (x / U32) * c);
    }
  }

  lemma DistanceSplit(hand: nat, cap: nat, j: nat) returns (c: int)
    requires j < cap
    ensures j - hand == c * cap + Distance(hand, cap, j)
  {
    c := (j - hand) / cap;
  }

  // Visit number q * cap + d looks at the slot at distance d.
  lemma VisitAt(hand: nat, cap: nat, q: nat, j: nat, i: nat)
    requires j < cap && hand < U32 && i == q * cap + Distance(hand, cap, j) && NoJump(hand, cap, i + 1)
    ensures Visit(hand, cap, i) == j
  {
    VisitNoJump(hand, cap, i);
    var c := DistanceSplit(hand, cap, j);
    MulSub(q, c, cap);
    DivModUnique(hand + i, cap, q - c, j);
  }

  // The slot at distance d is j only if d is j's distance.
  lemma VisitOnly(hand: nat, cap: nat, q: nat, d: nat, j: nat, i: nat)
    requires j < cap && d < cap && hand < U32 && i == q * cap + d && NoJump(hand, cap, i + 1)
    ensures Visit(hand, cap, i) == j <==> d == Distance(hand, cap, j)
  {
    if d == Distance(hand, cap, j) {
      VisitAt(hand, cap, q, j, i);
    }
    if Visit(hand, cap, i) == j {
      VisitNoJump(hand, cap, i);
      var m := (hand + i) / cap;
      assert hand + i == m * cap + j;
      assert j - hand == (q - m) * cap + d;
      DivModUnique(j - hand, cap, q - m, d);
    }
  }

  /** While the hand does not jump, a slot at distance d has been passed once for every full
      round and once more if the current round has gone beyond d. */
  lemma {:induction false} PassesClosedForm(hand: nat, cap: nat, k: nat, j: nat, q: nat, d: nat)
    requires j < cap && hand < U32 && k == q * cap + d && d < cap && NoJump(hand, cap, k)
    ensures Passes(hand, cap, k, j) == q + if Distance(hand, cap, j) < d then 1 else 0
    decreases k
  {
    if k == 0 {
      MultipleBelow(q, cap);
    } else if d > 0 {
      PassesClosedForm(hand, cap, k - 1, j, q, d - 1);
      VisitOnly(hand, cap, q, d - 1, j, k - 1);
    } else {
      assert q * cap == (q - 1) * cap + cap;
      PassesClosedForm(hand, cap, k - 1, j, q - 1, cap - 1);
      VisitOnly(hand, cap, q - 1, cap - 1, j, k - 1);
    }
  }

  /** The clock sweep is an argmin: it returns the slot that minimises (uses left, distance
      from the hand), after exactly eff[r] full rounds and r's distance, and every slot has
      been passed eff[r] times, once more if it lies ahead of r. */
  lemma SweepIsArgmin(eff: seq<nat>, hand: nat, r: nat)
    requires |eff| > 0 && hand < U32 && IsArgmin(eff, hand, r)
    requires NoJump(hand, |eff|, eff[r] * |eff| + Distance(hand, |eff|, r) + 1)
    ensures StopStep(eff, hand) == eff[r] * |eff| + Distance(hand, |eff|, r)
    ensures VictimSlot(eff, hand) == r
    ensures forall j: nat :: j < |eff| ==>
      Passes(hand, |eff|, StopStep(eff, hand), j)
        == eff[r] + if Distance(hand, |eff|, j) < Distance(hand, |eff|, r) then 1 else 0
  {
    var cap := |eff|;
    var dr := Distance(hand, cap, r);
    var stop := eff[r] * cap + dr;
    VisitAt(hand, cap, eff[r], r, stop);
    PassesClosedForm(hand, cap, stop, r, eff[r], dr);
    RunsPastBefore(eff, hand, r, eff[r], dr);
    StopUnique(eff, hand, stop);
    forall j: nat | j < cap
      ensures Passes(hand, cap, stop, j) == eff[r] + if Distance(hand, cap, j) < dr then 1 else 0
    {
      PassesClosedForm(hand, cap, stop, j, eff[r], dr);
    }
  }

  // No visit before round eff[r], distance of r, stops the sweep.
  lemma RoundBefore(eff: seq<nat>, hand: nat, r: nat, q: nat, d: nat)
    requires |eff| > 0 && hand < U32 && IsArgmin(eff, hand, r)
    requires d < |eff| && (q < eff[r] || (q == eff[r] && d < Distance(hand, |eff|, r)))
    requires NoJump(hand, |eff|, q * |eff| + d + 1)
    ensures !StopsBy(eff, hand, q * |eff| + d)
  {
    var j := Visit(hand, |eff|, q * |eff| + d);
    VisitOnly(hand, |eff|, q, d, j, q * |eff| + d);
    PassesClosedForm(hand, |eff|, q * |eff| + d, j, q, d);
  }

  lemma RunsPastBefore(eff: seq<nat>, hand: nat, r: nat, m: nat, e: nat)
    requires |eff| > 0 && hand < U32 && IsArgmin(eff, hand, r) && e < |eff|
    requires m < eff[r] || (m == eff[r] && e <= Distance(hand, |eff|, r))
    requires NoJump(hand, |eff|, m * |eff| + e)
    ensures RunsPast(eff, hand, m * |eff| + e)
  {
    forall i: nat | i < m * |eff| + e ensures !StopsBy(eff, hand, i) {
      var q, d := InRound(i, |eff|);
      RoundsCompare(q, d, m, e, |eff|);
      RoundBefore(eff, hand, r, q, d);
    }
  }

  /** There is always exactly one argmin. */
  lemma ArgminExists(eff: seq<nat>, hand: nat) returns (r: nat)
    requires |eff| > 0
    ensures IsArgmin(eff, hand, r)
  {
    r := 0;
    var n := 1;
    while n < |eff|
      invariant r < n <= |eff|
      invariant forall j: nat :: j < n ==>
        eff[r] < eff[j] || (eff[r] == eff[j] && Distance(hand, |eff|, r) <= Distance(hand, |eff|, j))
    {
      if eff[n] < eff[r] || (eff[n] == eff[r] && Distance(hand, |eff|, n) < Distance(hand, |eff|, r)) {
        r := n;
      }
      n := n + 1;
    }
  }

  // ---- Exactly when the sweep is an argmin -----------------------------------------------

  ghost predicate Counts(eff: seq<nat>, cap: nat) {
    |eff| == cap && forall j :: 0 <= j < cap ==> eff[j] <= USAGE_MAX
  }

  /** The sweep returns the argmin whatever the usage counts are. */
  ghost predicate AlwaysArgmin(hand: nat, cap: nat)
    requires 0 < cap
  {
    forall eff: seq<nat> :: Counts(eff, cap) ==> IsArgmin(eff, hand, VictimSlot(eff, hand))
  }

  /** The hand is a 32-bit counter, and when it wraps it jumps to slot 0 unless the capacity
      divides 2^32. The sweep is the argmin for all usage counts if and only if no such jump
      lies within the five rounds that a sweep may take. */
  lemma ArgminExactlyWhen(hand: nat, cap: nat)
    requires 0 < cap && hand < U32
    ensures AlwaysArgmin(hand, cap) <==> U32 % cap == 0 || hand + USAGE_MAX * cap < U32
  {
    if U32 % cap == 0 || hand + USAGE_MAX * cap < U32 {
      forall eff: seq<nat> | Counts(eff, cap) ensures IsArgmin(eff, hand, VictimSlot(eff, hand)) {
        var r := ArgminExists(eff, hand);
        ArgminWithinFiveRounds(eff, hand, r);
        SweepIsArgmin(eff, hand, r);
      }
    } else {
      JumpMisleads(hand, cap);
    }
  }

  lemma ArgminWithinFiveRounds(eff: seq<nat>, hand: nat, r: nat)
    requires |eff| > 0 && Counts(eff, |eff|) && IsArgmin(eff, hand, r)
    ensures eff[r] * |eff| + Distance(hand, |eff|, r) <= USAGE_MAX * |eff|
  {
    var cap := |eff|;
    var first := hand % cap;
    var c := hand / cap;
    assert hand == c * cap + first;
    assert first - hand == (-c) * cap;
    DivModUnique(first - hand, cap, -c, 0);
    assert Distance(hand, cap, first) == 0;
    if eff[r] < USAGE_MAX {
      assert (eff[r] + 1) * cap <= USAGE_MAX * cap;
    } else {
      assert eff[first] == USAGE_MAX;
    }
  }

  // Counts for which the jump, at visit number w, makes the sweep return slot 0 instead of
  // the slot that was due.
  ghost function Misleading(hand: nat, cap: nat, q: nat, due: nat): (eff: seq<nat>)
    requires due < cap
    ensures |eff| == cap
  {
    seq(cap, j requires 0 <= j < cap => if Distance(hand, cap, j) < Distance(hand, cap, due) then q + 1 else q)
  }

  // The jump happens at visit w = q * cap + d, where d is the distance of the slot due.
  lemma JumpPosition(hand: nat, cap: nat) returns (due: nat, q: nat, d: nat)
    requires 0 < cap && hand < U32
    requires U32 % cap != 0 && hand + USAGE_MAX * cap >= U32
    ensures 0 < due < cap && d == Distance(hand, cap, due) && q * cap + d == U32 - hand
    ensures q < USAGE_MAX || (q == USAGE_MAX && d == 0)
  {
    due, q, d := U32 % cap, (U32 - hand) / cap, (U32 - hand) % cap;
    assert U32 - hand == q * cap + d;
    var c := U32 / cap;
    assert due - hand == (q - c) * cap + d;
    DivModUnique(due - hand, cap, q - c, d);
    if q * cap + d < USAGE_MAX * cap {
      RoundsCompare(q, d, USAGE_MAX, 0, cap);
    } else {
      DivModUnique(q * cap + d, cap, USAGE_MAX, 0);
      DivModUnique(q * cap + d, cap, q, d);
    }
  }

  lemma MisleadingArgmin(hand: nat, cap: nat, q: nat, due: nat)
    requires due < cap
    ensures IsArgmin(Misleading(hand, cap, q, due), hand, due)
    ensures forall j: nat :: j < cap && j != due ==> !IsArgmin(Misleading(hand, cap, q, due), hand, j)
  {
    forall j: nat | j < cap && j != due ensures Distance(hand, cap, j) != Distance(hand, cap, due) {
      if Distance(hand, cap, j) == Distance(hand, cap, due) {
        DistanceInjective(hand, cap, j, due);
      }
    }
  }

  lemma JumpMisleads(hand: nat, cap: nat)
    requires 0 < cap && hand < U32
    requires U32 % cap != 0 && hand + USAGE_MAX * cap >= U32
    ensures !AlwaysArgmin(hand, cap)
  {
    var due, q, d := JumpPosition(hand, cap);
    var eff := Misleading(hand, cap, q, due);
    MisleadingArgmin(hand, cap, q, due);
    RunsPastBefore(eff, hand, due, q, d);
    JumpLandsOnZero(hand, cap, q * cap + d);
    PassesClosedForm(hand, cap, q * cap + d, 0, q, d);
    StopUnique(eff, hand, q * cap + d);
    assert Counts(eff, cap) && !IsArgmin(eff, hand, VictimSlot(eff, hand));
  }

  lemma JumpLandsOnZero(hand: nat, cap: nat, w: nat)
    requires 0 < cap && hand + w == U32
    ensures Visit(hand, cap, w) == 0
  {
    DivModUnique(0, cap, 0, 0);
  }

  lemma DistanceInjective(hand: nat, cap: nat, i: nat, j: nat)
    requires i < cap && j < cap && Distance(hand, cap, i) == Distance(hand, cap, j)
    ensures i == j
  {
    var a, b := (i - hand) / cap, (j - hand) / cap;
    assert i - hand == a * cap + Distance(hand, cap, i);
    assert j - hand == b * cap + Distance(hand, cap, j);
    assert i == (a - b) * cap + j;
    DivModUnique(i, cap, a - b, j);
    DivModUnique(i, cap, 0, i);
  }
}
