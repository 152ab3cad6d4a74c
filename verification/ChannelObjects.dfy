/** The shared channel and the worker's processor as objects updated in place. Each method is
    one atomic section of the code, or a loop over such sections that nobody interrupts, and is
    proved to do what the transition system takes it to do. */
module ChannelObjects {
  import opened CacheTypes
  import opened Channel
  import RingQueue

  const DRAIN_MAX: nat := 64

  // Several slots one after the other.
  function BeginAll(c: Chan, l: seq<nat>): (r: Chan)
    requires forall i :: 0 <= i < |l| ==> l[i] < |c.slots|
    ensures |r.slots| == |c.slots|
  {
    if l == [] then c else Begin(BeginAll(c, l[..|l| - 1]), l[|l| - 1])
  }

  function HandleAll(c: Chan, l: seq<nat>, live: set<nat>): (r: Chan)
    requires forall i :: 0 <= i < |l| ==> l[i] < |c.slots|
    ensures |r.slots| == |c.slots|
  {
    if l == [] then c else Handle(HandleAll(c, l[..|l| - 1], live), l[|l| - 1], live)
  }

  /** The slots among `l` that are still pending, in order. */
  function PendingOf(c: Chan, l: seq<nat>): seq<nat>
    requires forall i :: 0 <= i < |l| ==> l[i] < |c.slots|
  {
    if l == [] then []
    else if c.slots[l[|l| - 1]].word == Word.Pending then PendingOf(c, l[..|l| - 1]) + [l[|l| - 1]]
    else PendingOf(c, l[..|l| - 1])
  }

  lemma {:induction false} BeginAllPointwise(c: Chan, l: seq<nat>, x: nat)
    requires (forall i :: 0 <= i < |l| ==> l[i] < |c.slots|) && x < |c.slots| && x !in l
    ensures BeginAll(c, l).slots[x] == c.slots[x]
  {
    if l != [] {
      BeginAllPointwise(c, l[..|l| - 1], x);
    }
  }

  lemma BeginNext(c: Chan, l: seq<nat>, i: nat)
    requires (forall j :: 0 <= j < |l| ==> l[j] < |c.slots|) && NoDup(l) && i < |l|
    ensures BeginAll(c, l[..i + 1]) == Begin(BeginAll(c, l[..i]), l[i])
    ensures BeginAll(c, l[..i]).slots[l[i]] == c.slots[l[i]]
    ensures PendingOf(c, l[..i + 1]) ==
      if c.slots[l[i]].word == Word.Pending then PendingOf(c, l[..i]) + [l[i]] else PendingOf(c, l[..i])
  {
    assert l[..i + 1][..i] == l[..i];
    BeginAllPointwise(c, l[..i], l[i]);
  }

  /** The channel `c'` is `c` after the slots of `l` have been begun: the pending ones are
      processing, the canceled ones empty and in front of the free list as `freed`, and nothing
      else has changed. */
  ghost predicate Begun(c: Chan, c': Chan, l: seq<nat>, freed: seq<nat>) {
    && |c'.slots| == |c.slots| && c' == c.(slots := c'.slots, free := freed + c.free)
    && (forall x :: 0 <= x < |c.slots| ==> c'.slots[x] == c.slots[x].(word := BegunWord(c.slots[x].word, x in l)))
    && NoDup(freed) && forall x :: x in freed <==> x in l && x < |c.slots| && c.slots[x].word == Word.Canceled
  }

  function BegunWord(w: Word, drained: bool): Word {
    if drained && w == Word.Pending then Word.Processing else if drained && w == Word.Canceled then Word.Empty else w
  }

  lemma BegunMore(c: Chan, c': Chan, l: seq<nat>, freed: seq<nat>, x: nat)
    requires Begun(c, c', l, freed) && x < |c.slots| && x !in l
    ensures Begun(c, Begin(c', x), l + [x], if c.slots[x].word == Word.Canceled then [x] + freed else freed)
  {
    assert forall y :: y in l + [x] <==> y in l || y == x;
  }

  lemma LastApart(l: seq<nat>)
    requires NoDup(l) && l != []
    ensures var before, last := l[..|l| - 1], l[|l| - 1]; l == before + [last] && NoDup(before) && last !in before
  {
  }

  /** What a list of drained slots turns into. */
  lemma {:induction false} BeginAllExactly(c: Chan, l: seq<nat>) returns (freed: seq<nat>)
    requires (forall i :: 0 <= i < |l| ==> l[i] < |c.slots|) && NoDup(l)
    ensures Begun(c, BeginAll(c, l), l, freed)
  {
    if l == [] {
      freed := [];
      assert [] + c.free == c.free;
    } else {
      var before, last := l[..|l| - 1], l[|l| - 1];
      LastApart(l);
      freed := BeginAllExactly(c, before);
      BegunMore(c, BeginAll(c, before), before, freed, last);
      freed := if c.slots[last].word == Word.Canceled then [last] + freed else freed;
    }
  }

  /** The slots that are sent are exactly the pending ones, once each and in order. */
  lemma {:induction false} PendingOfExactly(c: Chan, l: seq<nat>)
    requires (forall i :: 0 <= i < |l| ==> l[i] < |c.slots|) && NoDup(l)
    ensures forall x :: x in PendingOf(c, l) <==> x in l && c.slots[x].word == Word.Pending
    ensures NoDup(PendingOf(c, l)) && Subsequence(PendingOf(c, l), l)
  {
    if l != [] {
      var before, last := l[..|l| - 1], l[|l| - 1];
      LastApart(l);
      PendingOfExactly(c, before);
      if c.slots[last].word == Word.Pending {
        SubsequenceBoth(PendingOf(c, before), before, last);
      } else {
        SubsequenceOne(PendingOf(c, before), before, last);
      }
    }
  }

  /** `k` can be had by leaving elements out of `l`. */
  ghost predicate Subsequence(k: seq<nat>, l: seq<nat>)
    decreases |l|
  {
    if l == [] then k == []
    else Subsequence(k, l[..|l| - 1]) || (k != [] && k[|k| - 1] == l[|l| - 1] && Subsequence(k[..|k| - 1], l[..|l| - 1]))
  }

  lemma SubsequenceBoth(k: seq<nat>, l: seq<nat>, x: nat)
    requires Subsequence(k, l)
    ensures Subsequence(k + [x], l + [x])
  {
    assert (k + [x])[..|k|] == k && (l + [x])[..|l|] == l;
  }

  lemma SubsequenceOne(k: seq<nat>, l: seq<nat>, x: nat)
    requires Subsequence(k, l)
    ensures Subsequence(k, l + [x])
  {
    assert (l + [x])[..|l|] == l;
  }

  // The backend of a finished slot still wants the answer and can be woken.
  predicate Deliverable(sl: Slot, live: set<nat>) {
    sl.word != Word.Canceled && sl.pid.Some? && sl.pid.value in live
  }

  /** The channel `c'` is `c` after the completed slots of `l` have been handled: each slot whose
      backend can be woken is done, every other one empty and in front of the free list as
      `freed`, and nothing else has changed. */
  ghost predicate Handled(c: Chan, c': Chan, l: seq<nat>, live: set<nat>, freed: seq<nat>) {
    && |c'.slots| == |c.slots| && c' == c.(slots := c'.slots, free := freed + c.free)
    && (forall x :: 0 <= x < |c.slots| && x !in l ==> c'.slots[x] == c.slots[x])
    && (forall x :: 0 <= x < |c.slots| && x in l ==>
          c'.slots[x] == c.slots[x].(word := if Deliverable(c.slots[x], live) then Word.Done else Word.Empty))
    && NoDup(freed) && forall x :: x in freed <==> x in l && x < |c.slots| && !Deliverable(c.slots[x], live)
  }

  lemma HandledMore(c: Chan, c': Chan, l: seq<nat>, live: set<nat>, freed: seq<nat>, x: nat)
    requires Handled(c, c', l, live, freed) && x < |c.slots| && x !in l
    ensures Handled(c, Handle(c', x, live), l + [x], live, if Deliverable(c.slots[x], live) then freed else [x] + freed)
  {
    assert forall y :: y in l + [x] <==> y in l || y == x;
  }

  /** What a list of completed slots turns into. */
  lemma {:induction false} HandleAllExactly(c: Chan, l: seq<nat>, live: set<nat>) returns (freed: seq<nat>)
    requires (forall i :: 0 <= i < |l| ==> l[i] < |c.slots|) && NoDup(l)
    ensures Handled(c, HandleAll(c, l, live), l, live, freed)
  {
    if l == [] {
      freed := [];
      assert [] + c.free == c.free;
    } else {
      var before, last := l[..|l| - 1], l[|l| - 1];
      LastApart(l);
      freed := HandleAllExactly(c, before, live);
      HandledMore(c, HandleAll(c, before, live), before, live, freed, last);
      freed := if Deliverable(c.slots[last], live) then freed else [last] + freed;
    }
  }

  class SharedChannel {
    const slots: array<Slot>
    const queue: RingQueue.SlotQueue
    var free: seq<nat>
    var requestId: nat
    ghost var issued: nat

    ghost predicate Valid()
      reads this, slots, queue, queue.values
    {
      && queue.Valid()
      && requestId == issued % U64
      && (forall i :: 0 <= i < |free| ==> free[i] < slots.Length)
      && (forall i :: 0 <= i < |queue.Contents()| ==> queue.Contents()[i] < slots.Length)
    }

    ghost function State(): Chan
      reads this, slots, queue, queue.values
      requires queue.Valid()
    {
      Chan(slots[..], free, queue.Contents(), queue.mask, issued)
    }

    /** Every slot is emptied and pushed on the free list, so that the last one comes first. */
    constructor (slotCount: nat, queue: RingQueue.SlotQueue)
      requires queue.Valid() && queue.Contents() == []
      ensures Valid() && fresh(slots) && this.queue == queue && slots.Length == slotCount
      ensures State().issued == 0 && State().queue == []
      ensures forall x :: 0 <= x < slotCount ==> slots[x].word == Word.Empty
      ensures free == seq(slotCount, i requires 0 <= i < slotCount => slotCount - 1 - i)
    {
      var blank := Slot(Word.Empty, None, 0, None, None);
      slots := new Slot[slotCount](_ => blank);
      this.queue := queue;
      free := [];
      requestId := 0;
      issued := 0;
      new;
      var i := 0;
      while i < slotCount
        modifies this`free
        invariant 0 <= i <= slotCount
        invariant free == seq(i, j requires 0 <= j < i => i - 1 - j)
      {
        free := [i] + free;
        i := i + 1;
      }
    }

    method AcquireSlot(pid: nat) returns (slot: Option<nat>)
      requires Valid()
      modifies this, slots
      ensures Valid()
      ensures State() == Acquire(old(State()), pid)
      ensures slot == if old(free) == [] then None else Some(old(free)[0])
    {
      if free == [] {
        return None;
      }
      var x := free[0];
      free := free[1..];
      slots[x] := slots[x].(word := Word.Pending);
      issued := issued + 1;
      requestId := (requestId + 1) % U64;
      slots[x] := slots[x].(pid := Some(pid), question := None, response := None);
      slots[x] := slots[x].(requestId := requestId);
      assert State().slots == Acquire(old(State()), pid).slots;
      return Some(x);
    }

    method ReleaseSlot(x: nat)
      requires Valid() && x < slots.Length
      modifies this`free, slots
      ensures Valid()
      ensures State() == Release(old(State()), x)
    {
      slots[x] := slots[x].(word := Word.Empty);
      free := [x] + free;
    }

    /** The backend's question is written and the slot enqueued; false if the queue was full
        and the slot was given back. */
    method SubmitSlot(x: nat, question: Question) returns (queued: bool)
      requires Valid() && x < slots.Length
      modifies this`free, slots, queue, queue.values
      ensures Valid()
      ensures State() == Enqueue(old(State()), x, question)
      ensures queued == (|old(State()).queue| < old(State()).limit)
    {
      slots[x] := slots[x].(question := Some(question));
      queued := queue.Enqueue(x);
      if !queued {
        ReleaseSlot(x);
      }
    }

    /** The error exit of the wait loop. */
    method CancelSlot(x: nat)
      requires Valid() && x < slots.Length
      modifies this`free, slots
      ensures Valid()
      ensures State() == Cancel(old(State()), x)
    {
      var cur := slots[x].word;
      if cur == Word.Pending || cur == Word.Processing {
        slots[x] := slots[x].(word := Word.Canceled);
      } else if cur == Word.Done {
        ReleaseSlot(x);
      }
      slots[x] := slots[x].(pid := None);
    }

    /** Reading the answer: a verdict only if the response says so; the slot goes back. */
    method TakeAnswer(x: nat) returns (verdict: Option<bool>)
      requires Valid() && x < slots.Length && slots[x].response.Some?
      modifies this`free, slots
      ensures Valid()
      ensures State() == Release(old(State()), x)
      ensures var reply := old(slots[x]).response.value.reply; verdict == if reply.ok then Some(reply.allow) else None
    {
      var reply := slots[x].response.value.reply;
      verdict := if reply.ok then Some(reply.allow) else None;
      ReleaseSlot(x);
    }

    /** Takes the first slots of the queue, up to `maxCount` and never more than sixty-four. */
    method DrainSlots(maxCount: nat, out: array<nat>) returns (count: nat)
      requires Valid() && out.Length >= (if maxCount > DRAIN_MAX then DRAIN_MAX else maxCount) && out != queue.values
      modifies queue, out
      ensures Valid()
      ensures count <= maxCount && count <= 64 && count <= |old(State()).queue|
      ensures count == maxCount || count == 64 || count == |old(State()).queue|
      ensures out[..count] == old(State()).queue[..count]
      ensures State() == old(State()).(queue := old(State()).queue[count..])
    {
      var limit := if maxCount > DRAIN_MAX then DRAIN_MAX else maxCount;
      count := queue.Drain(limit, out);
    }
  }

  class Processor {
    var completedQueue: seq<nat>

    constructor ()
      ensures completedQueue == []
    {
      completedQueue := [];
    }

    /** True if the slot is to be processed; a canceled slot is released. */
    method BeginProcessing(ch: SharedChannel, x: nat) returns (begun: bool)
      requires ch.Valid() && x < ch.slots.Length
      modifies ch`free, ch.slots
      ensures ch.Valid()
      ensures ch.State() == Begin(old(ch.State()), x)
      ensures begun == (old(ch.slots[x]).word == Word.Pending)
    {
      var expected := ch.slots[x].word;
      if expected == Word.Pending {
        ch.slots[x] := ch.slots[x].(word := Word.Processing);
        return true;
      }
      if expected == Word.Canceled {
        ch.ReleaseSlot(x);
      }
      return false;
    }

    method EnqueueCompleted(x: nat)
      modifies this
      ensures completedQueue == old(completedQueue) + [x]
    {
      completedQueue := completedQueue + [x];
    }

    /** A finished slot; `live` are the processes that can be woken. */
    method HandleResponse(ch: SharedChannel, x: nat, live: set<nat>)
      requires ch.Valid() && x < ch.slots.Length
      modifies ch`free, ch.slots
      ensures ch.Valid()
      ensures ch.State() == Handle(old(ch.State()), x, live)
    {
      if ch.slots[x].word == Word.Canceled {
        ch.ReleaseSlot(x);
        return;
      }
      ch.slots[x] := ch.slots[x].(word := Word.Done);
      var woken := ch.slots[x].pid.Some? && ch.slots[x].pid.value in live;
      if !woken {
        ch.ReleaseSlot(x);
        assert ch.State().slots == Handle(old(ch.State()), x, live).slots;
      }
    }

    method DrainCompleted(ch: SharedChannel, live: set<nat>)
      requires ch.Valid() && forall i :: 0 <= i < |completedQueue| ==> completedQueue[i] < ch.slots.Length
      modifies this, ch`free, ch.slots
      ensures ch.Valid() && completedQueue == []
      ensures ch.State() == HandleAll(old(ch.State()), old(completedQueue), live)
      ensures NoDup(old(completedQueue)) ==>
        exists freed :: Handled(old(ch.State()), ch.State(), old(completedQueue), live, freed)
    {
      var local := completedQueue;
      completedQueue := [];
      var i := 0;
      while i < |local|
        invariant 0 <= i <= |local| && ch.Valid() && completedQueue == []
        invariant ch.State() == HandleAll(old(ch.State()), local[..i], live)
      {
        HandleResponse(ch, local[i], live);
        i := i + 1;
        assert local[..i][..i - 1] == local[..i - 1];
      }
      assert local[..i] == local;
      if NoDup(local) {
        ghost var freed := HandleAllExactly(old(ch.State()), local, live);
      }
    }

    /** The first half of a cycle: at most fifty slots leave the queue; those still pending
        are begun, in order, and the canceled ones released. */
    method BeginDrained(ch: SharedChannel) returns (sent: seq<nat>)
      requires ch.Valid() && NoDup(ch.queue.Contents())
      modifies ch`free, ch.slots, ch.queue
      ensures ch.Valid()
      ensures var c := old(ch.State()); var l := c.queue[..DrainCount(c)];
        && (forall i :: 0 <= i < |l| ==> l[i] < |c.slots|)
        && sent == PendingOf(Drain(c), l)
        && ch.State() == BeginAll(Drain(c), l)
        && exists freed :: Begun(Drain(c), ch.State(), l, freed)
    {
      ghost var c := ch.State();
      var buf := new nat[MAX_BATCH];
      var count := ch.DrainSlots(MAX_BATCH, buf);
      assert buf[..count] == c.queue[..DrainCount(c)];
      sent := BeginEach(ch, buf[..count]);
      ghost var freed := BeginAllExactly(Drain(c), c.queue[..DrainCount(c)]);
    }

    method BeginEach(ch: SharedChannel, l: seq<nat>) returns (sent: seq<nat>)
      requires ch.Valid() && (forall i :: 0 <= i < |l| ==> l[i] < ch.slots.Length) && NoDup(l)
      modifies ch`free, ch.slots
      ensures ch.Valid()
      ensures sent == PendingOf(old(ch.State()), l)
      ensures ch.State() == BeginAll(old(ch.State()), l)
    {
      ghost var c := ch.State();
      sent := [];
      var i := 0;
      while i < |l|
        invariant 0 <= i <= |l| && ch.Valid()
        invariant ch.State() == BeginAll(c, l[..i])
        invariant sent == PendingOf(c, l[..i])
      {
        BeginNext(c, l, i);
        var begun := BeginProcessing(ch, l[i]);
        if begun {
          sent := sent + [l[i]];
        }
        i := i + 1;
      }
      assert l[..i] == l;
    }

    /** One cycle that nobody interrupts: the pending slots go to the client as one request or
        one batch, then the completed ones are handed over. */
    method Execute(ch: SharedChannel, live: set<nat>) returns (sent: seq<nat>)
      requires ch.Valid() && forall i :: 0 <= i < |completedQueue| ==> completedQueue[i] < ch.slots.Length
      requires NoDup(ch.queue.Contents())
      modifies this, ch`free, ch.slots, ch.queue
      ensures ch.Valid() && completedQueue == []
      ensures var c := old(ch.State()); var l := c.queue[..DrainCount(c)];
        && (forall i :: 0 <= i < |l| ==> l[i] < |c.slots|)
        && sent == PendingOf(Drain(c), l)
        && ch.State() == HandleAll(BeginAll(Drain(c), l), old(completedQueue), live)
        && (exists freed :: Begun(Drain(c), BeginAll(Drain(c), l), l, freed))
        && (NoDup(old(completedQueue)) ==>
              exists freed :: Handled(BeginAll(Drain(c), l), ch.State(), old(completedQueue), live, freed))
    {
      sent := BeginDrained(ch);
      DrainCompleted(ch, live);
    }
  }
}
