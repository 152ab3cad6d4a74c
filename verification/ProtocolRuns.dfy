/** What the invariant of the slot protocol means for every run: exclusive ownership, no mixed
    up answers, when an enqueue fails, and the way back to an idle channel. */
module ProtocolRuns {
  import opened Arithmetic
  import opened CacheTypes
  import opened Channel
  import opened ChannelShmem
  import opened Protocol
  import BatchCheck

  // ---- Runs ------------------------------------------------------------------------------

  ghost predicate Transition(states: seq<State>, steps: seq<Step>, n: nat)
    requires n < |steps| && |states| == |steps| + 1
  {
    Enabled(states[n], steps[n]) && (InBounds(states[n]) ==> states[n + 1] == Next(states[n], steps[n]))
  }

  /** A run from the freshly set up channel. */
  ghost predicate IsRun(states: seq<State>, steps: seq<Step>) {
    && |states| == |steps| + 1 && Initial(states[0])
    && forall n: nat :: n < |steps| ==> Transition(states, steps, n)
  }

  lemma InitialInv(s: State) returns (a: Aux)
    requires Initial(s)
    ensures Inv(s, a)
  {
    var n := |s.chan.slots|;
    a := Aux(seq(n, _ => InFree), seq(n, _ => None));
    forall x: nat | x < n ensures x in s.chan.free {
      assert s.chan.free[n - 1 - x] == x;
    }
  }

  lemma {:induction false} Reached(states: seq<State>, steps: seq<Step>, n: nat) returns (a: Aux)
    requires IsRun(states, steps) && n <= |steps|
    ensures Inv(states[n], a) && InBounds(states[n])
    ensures states[n].chan.limit == states[0].chan.limit && |states[n].chan.slots| == |states[0].chan.slots|
  {
    if n == 0 {
      a := InitialInv(states[0]);
      InvInBounds(states[0], a);
    } else {
      var before := Reached(states, steps, n - 1);
      assert Transition(states, steps, n - 1);
      StepKeeps(states[n - 1], before, steps[n - 1]);
      a := After(states[n - 1], before, steps[n - 1]);
      InvInBounds(states[n], a);
      StepSizes(states[n - 1], steps[n - 1]);
    }
  }

  lemma StepSizes(s: State, step: Step)
    requires InBounds(s) && Enabled(s, step)
    ensures var s' := Next(s, step); s'.chan.limit == s.chan.limit && |s'.chan.slots| == |s.chan.slots|
  {
  }

  // ---- Exclusive ownership ---------------------------------------------------------------

  ghost predicate HeldBy(s: State, x: nat, b: nat) {
    b in s.backends && s.backends[b].Held? && s.backends[b].slot == x
  }

  ghost predicate AnsweredFor(s: State, x: nat, b: nat) {
    && b in s.backends && (s.backends[b].Waiting? || s.backends[b].Reading?) && s.backends[b].slot == x
    && x < |s.chan.slots| && s.chan.slots[x].word == Word.Done
  }

  function One(b: bool): nat {
    if b then 1 else 0
  }

  /** In how many hands a slot is: the free list, a backend that acquired it, the queue, the
      four lists of the worker, the client, a backend whose answer is ready. */
  ghost function Hands(s: State, x: nat): nat {
    One(x in s.chan.free) + One(exists b :: HeldBy(s, x, b)) + One(x in s.chan.queue) + One(x in s.drained)
    + One(x in s.batch) + One(x in s.inflight) + One(x in s.completed) + One(x in s.local)
    + One(exists b :: AnsweredFor(s, x, b))
  }

  // The state word that goes with each hand.
  ghost predicate WordAgrees(s: State, x: nat)
    requires x < |s.chan.slots|
  {
    var w := s.chan.slots[x].word;
    && (x in s.chan.free <==> w == Word.Empty)
    && ((exists b :: HeldBy(s, x, b)) ==> w == Word.Pending)
    && (x in s.chan.queue || x in s.drained ==> w == Word.Pending || w == Word.Canceled)
    && (x in s.batch || x in s.inflight || x in s.completed || x in s.local ==> w == Word.Processing || w == Word.Canceled)
    && ((exists b :: AnsweredFor(s, x, b)) <==> w == Word.Done)
  }

  lemma HandsFromPlace(s: State, a: Aux, x: nat)
    requires Inv(s, a) && x < |s.chan.slots|
    ensures (exists b :: HeldBy(s, x, b)) <==> a.place[x] == InHand
    ensures (exists b :: AnsweredFor(s, x, b)) <==> a.place[x] == IsDone
  {
    assert SlotOk(s, a, x);
    if a.place[x] == InHand {
      assert HeldBy(s, x, a.owner[x].value);
    }
    if a.place[x] == IsDone {
      assert AnsweredFor(s, x, a.owner[x].value);
    }
  }

  /** In every reachable state every slot is in exactly one hand, its state word agrees with
      it, and no list holds a slot twice. */
  lemma SlotPartition(states: seq<State>, steps: seq<Step>, n: nat, x: nat)
    requires IsRun(states, steps) && n <= |steps| && x < |states[0].chan.slots|
    ensures var s := states[n];
      && |s.chan.slots| == |states[0].chan.slots|
      && Hands(s, x) == 1 && WordAgrees(s, x)
      && NoDup(s.chan.free) && NoDup(s.chan.queue) && NoDup(s.drained) && NoDup(s.batch)
      && NoDup(s.completed) && NoDup(s.local)
  {
    var a := Reached(states, steps, n);
    assert SlotOk(states[n], a, x);
    HandsFromPlace(states[n], a, x);
  }

  /** No two backends ever have the same slot. */
  lemma BackendsExclusive(states: seq<State>, steps: seq<Step>, n: nat, b: nat, c: nat)
    requires IsRun(states, steps) && n <= |steps|
    requires b in states[n].backends && c in states[n].backends && b != c
    requires Attached(states[n].backends[b]) && Attached(states[n].backends[c])
    ensures states[n].backends[b].slot != states[n].backends[c].slot
  {
    var a := Reached(states, steps, n);
  }

  /** The worker never meets an unexpected state word, and a waiting backend never finds its
      request canceled: both defensive branches are dead. */
  lemma NoUnexpectedState(states: seq<State>, steps: seq<Step>, n: nat, x: nat)
    requires IsRun(states, steps) && n <= |steps|
    ensures x in states[n].drained ==>
      x < |states[n].chan.slots| && states[n].chan.slots[x].word in {Word.Pending, Word.Canceled}
    ensures forall b, id, q :: b in states[n].backends && states[n].backends[b] == Waiting(x, id, q) ==>
      x < |states[n].chan.slots| && states[n].chan.slots[x].word in {Word.Pending, Word.Processing, Word.Done}
  {
    var a := Reached(states, steps, n);
    if x < |a.place| {
      assert SlotOk(states[n], a, x);
    }
  }

  // ---- No answer mix-up ------------------------------------------------------------------

  /** A backend that has left the wait finds, in its own slot, the reply the server gave to its
      own question under its own request id. */
  lemma NoMixUp(states: seq<State>, steps: seq<Step>, n: nat, b: nat)
    requires IsRun(states, steps) && n <= |steps|
    requires b in states[n].backends && states[n].backends[b].Reading?
    ensures var be := states[n].backends[b];
      && be.slot < |states[n].chan.slots|
      && var r := states[n].chan.slots[be.slot].response;
         r.Some? && r.value.id == be.id && r.value.job == Job(be.id, be.question)
  {
    var a := Reached(states, steps, n);
    assert SlotOk(states[n], a, states[n].backends[b].slot);
  }

  /** While a request is with the client its slot is not reissued: it stays off the free list,
      even if it was canceled, it still carries the request id and question that were sent, and
      whoever has it is the backend that asked. */
  lemma CallbackOwnsSlot(states: seq<State>, steps: seq<Step>, n: nat, x: nat)
    requires IsRun(states, steps) && n <= |steps| && x in states[n].inflight
    ensures var s := states[n];
      && x < |s.chan.slots| && x !in s.chan.free && (forall b :: !HeldBy(s, x, b))
      && s.chan.slots[x].requestId == s.inflight[x].id && s.chan.slots[x].question == Some(s.inflight[x].question)
      && forall b :: b in s.backends && Attached(s.backends[b]) && s.backends[b].slot == x ==>
           s.backends[b].id == s.inflight[x].id && s.backends[b] == Waiting(x, s.inflight[x].id, s.inflight[x].question)
  {
    var a := Reached(states, steps, n);
    var s := states[n];
    assert SlotOk(s, a, x);
    HandsFromPlace(s, a, x);
  }

  /** A finished request whose backend still waits is always handed to it; only a canceled or
      orphaned slot is released by the worker. */
  lemma HandledExactlyWhen(states: seq<State>, steps: seq<Step>, n: nat)
    requires IsRun(states, steps) && n < |steps| && steps[n].HandleOne?
    ensures states[n].local != [] && states[n].local[0] < |states[n + 1].chan.slots|
    ensures var x := states[n].local[0];
      if exists b :: b in states[n].backends && Attached(states[n].backends[b]) && states[n].backends[b].slot == x
      then states[n + 1].chan.slots[x].word == Word.Done && states[n + 1].chan.free == states[n].chan.free
      else states[n + 1].chan.free == [x] + states[n].chan.free
  {
    var s := states[n];
    var a := Reached(states, steps, n);
    assert Transition(states, steps, n);
    assert s.local[0] in s.local;
    assert SlotOk(s, a, s.local[0]);
  }

  // ---- When an enqueue fails -------------------------------------------------------------

  /** With a queue of the configured capacity an enqueue is rejected exactly when the number of
      slots is itself a power of two and every other slot is queued. */
  lemma EnqueueRejectedExactlyWhen(states: seq<State>, steps: seq<Step>, n: nat, bits: nat, b: nat, x: nat, q: Question)
    requires IsRun(states, steps) && n < |steps| && steps[n] == EnqueueSlot(b, q) && HeldBy(states[n], x, b)
    requires IsCapacity(|states[0].chan.slots|, states[0].chan.limit + 1, bits)
    ensures b in states[n + 1].backends
    ensures states[n + 1].backends[b].Idle? <==>
      && |states[0].chan.slots| == states[0].chan.limit + 1
      && forall y: nat :: y < |states[0].chan.slots| && y != x ==> y in states[n].chan.queue
  {
    var s := states[n];
    var a := Reached(states, steps, n);
    assert Transition(states, steps, n);
    assert SlotOk(s, a, x);
    RejectedExactlyWhen(s.chan.queue, |s.chan.slots|, s.chan.limit + 1, bits, x);
  }

  // ---- Request ids -----------------------------------------------------------------------

  ghost predicate IdsOk(s: State, a: Aux)
    requires |s.chan.slots| == |a.place|
  {
    s.chan.issued < U64 ==>
      && (forall x :: 0 <= x < |a.place| && a.place[x] != InFree ==> s.chan.slots[x].requestId <= s.chan.issued)
      && (forall x, y :: 0 <= x < y < |a.place| && a.place[x] != InFree && a.place[y] != InFree ==>
            s.chan.slots[x].requestId != s.chan.slots[y].requestId)
  }

  lemma StepIds(s: State, a: Aux, s': State, a': Aux, taken: Option<nat>)
    requires |s.chan.slots| == |a.place| == |s'.chan.slots| == |a'.place| && IdsOk(s, a)
    requires KeepsIds(s, a, s', a', taken)
    ensures IdsOk(s', a')
  {
  }

  function Taken(s: State, step: Step): Option<nat> {
    if step.AcquireSlot? && s.chan.free != [] then Some(s.chan.free[0]) else None
  }

  // Only an acquisition changes a request id or takes a slot from the free list.
  ghost predicate KeepsIds(s: State, a: Aux, s': State, a': Aux, taken: Option<nat>)
    requires |s.chan.slots| == |a.place| == |s'.chan.slots| == |a'.place|
  {
    && (forall x :: 0 <= x < |a.place| && taken != Some(x) ==>
         s'.chan.slots[x].requestId == s.chan.slots[x].requestId && (a.place[x] == InFree ==> a'.place[x] == InFree))
    && (if taken.Some?
        then taken.value < |a.place| && s'.chan.issued == s.chan.issued + 1
             && s'.chan.slots[taken.value].requestId == NextId(s.chan)
        else s'.chan.issued == s.chan.issued)
  }

  lemma BackendKeepsIds(s: State, a: Aux, step: Step)
    requires Inv(s, a) && InBounds(s) && Enabled(s, step)
    requires step.EnqueueSlot? || step.LeaveWait? || step.CancelWait? || step.Die? || step.Finish?
    ensures |After(s, a, step).place| == |Next(s, step).chan.slots| == |a.place|
    ensures KeepsIds(s, a, Next(s, step), After(s, a, step), None)
  {
    assert SlotOk(s, a, s.backends[step.b].slot);
  }

  lemma StepKeepsIds(s: State, a: Aux, step: Step)
    requires Inv(s, a) && InBounds(s) && Enabled(s, step)
    ensures |After(s, a, step).place| == |Next(s, step).chan.slots| == |a.place|
    ensures KeepsIds(s, a, Next(s, step), After(s, a, step), Taken(s, step))
  {
    if step.EnqueueSlot? || step.LeaveWait? || step.CancelWait? || step.Die? || step.Finish? {
      BackendKeepsIds(s, a, step);
    } else {
      ListBounds(s.chan.queue, a.place, InQueue);
      ListBounds(s.drained, a.place, InDrained);
      ListBounds(s.local, a.place, InLocal);
    }
  }

  lemma {:induction false} ReachedIds(states: seq<State>, steps: seq<Step>, n: nat) returns (a: Aux)
    requires IsRun(states, steps) && n <= |steps|
    ensures Inv(states[n], a) && InBounds(states[n]) && IdsOk(states[n], a)
  {
    if n == 0 {
      a := InitialInv(states[0]);
      InvInBounds(states[0], a);
      forall x | 0 <= x < |a.place| ensures a.place[x] == InFree {
        assert states[0].chan.free[|a.place| - 1 - x] == x;
        assert x in states[0].chan.free;
      }
    } else {
      var before := ReachedIds(states, steps, n - 1);
      assert Transition(states, steps, n - 1);
      StepKeeps(states[n - 1], before, steps[n - 1]);
      StepKeepsIds(states[n - 1], before, steps[n - 1]);
      a := After(states[n - 1], before, steps[n - 1]);
      StepIds(states[n - 1], before, states[n], a, Taken(states[n - 1], steps[n - 1]));
      InvInBounds(states[n], a);
    }
  }

  /** Outstanding slots have pairwise distinct request ids as long as the 64-bit counter has
      not come round. */
  lemma OutstandingIdsDistinct(states: seq<State>, steps: seq<Step>, n: nat, x: nat, y: nat)
    requires IsRun(states, steps) && n <= |steps| && states[n].chan.issued < U64
    requires x < |states[n].chan.slots| && y < |states[n].chan.slots| && x != y
    requires x !in states[n].chan.free && y !in states[n].chan.free
    ensures states[n].chan.slots[x].requestId != states[n].chan.slots[y].requestId
  {
    var a := ReachedIds(states, steps, n);
  }

  /** The request ids of the slots of a batch, in order. */
  ghost predicate CarriesBatch(items: seq<BatchCheck.Payload>, s: State) {
    && |items| == |s.batch|
    && forall i :: 0 <= i < |items| ==> s.batch[i] < |s.chan.slots| && items[i].requestId == s.chan.slots[s.batch[i]].requestId
  }

  /** So every batch that the worker hands to the client has pairwise distinct correlation ids,
      which is what its demultiplexing needs. */
  lemma DispatchedIdsDistinct(states: seq<State>, steps: seq<Step>, n: nat, items: seq<BatchCheck.Payload>)
    requires IsRun(states, steps) && n < |steps| && steps[n].Dispatch? && states[n].chan.issued < U64
    requires CarriesBatch(items, states[n])
    ensures BatchCheck.DistinctIds(items)
  {
    var a := ReachedIds(states, steps, n);
    ListBounds(states[n].batch, a.place, InBatch);
  }
}
