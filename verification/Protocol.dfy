/** The slot protocol as a transition system over the channel, the background worker, the
    client's callbacks and the backends, with its invariant and its consequences. */
module Protocol {
  import opened Arithmetic
  import opened CacheTypes
  import opened Channel

  // ---- The system ------------------------------------------------------------------------

  /** Where a backend is in its check: outside, holding an acquired slot, waiting for the
      response, reading it, or gone. It remembers its slot, request id and question itself. */
  datatype Backend =
    | Idle
    | Held(slot: nat, id: nat)
    | Waiting(slot: nat, id: nat, question: Question)
    | Reading(slot: nat, id: nat, question: Question)
    | Dead

  /** Where the worker is in its cycle. */
  datatype Phase = Top | Beginning | Swapping | Handling

  datatype State = State(
    chan: Chan,
    phase: Phase, drained: seq<nat>, batch: seq<nat>, local: seq<nat>,
    inflight: map<nat, Job>, completed: seq<nat>,
    backends: map<nat, Backend>)

  datatype Step =
    | AcquireSlot(b: nat)
    | EnqueueSlot(b: nat, question: Question)
    | LeaveWait(b: nat)
    | CancelWait(b: nat)
    | Die(b: nat)
    | Finish(b: nat)
    | DrainQueue
    | BeginOne
    | Dispatch
    | ClientReply(x: nat, reply: Reply)
    | SwapCompleted
    | HandleOne
    | EndCycle

  function LiveSet(s: State): set<nat> {
    set b | b in s.backends && !s.backends[b].Dead?
  }

  predicate Attached(be: Backend) {
    be.Held? || be.Waiting? || be.Reading?
  }

  /** When a step can happen. The worker starts a cycle only when its latch has been set, by an
      enqueue or by a completion. A backend may die while its request is on its way. */
  ghost predicate Enabled(s: State, step: Step) {
    match step
    case AcquireSlot(b) => b in s.backends && s.backends[b].Idle?
    case EnqueueSlot(b, _) => b in s.backends && s.backends[b].Held?
    case LeaveWait(b) => b in s.backends && s.backends[b].Waiting?
      && s.backends[b].slot < |s.chan.slots| && s.chan.slots[s.backends[b].slot].word in {Word.Done, Word.Canceled}
    case CancelWait(b) => b in s.backends && s.backends[b].Waiting?
    case Die(b) => b in s.backends && s.backends[b].Waiting?
      && s.backends[b].slot < |s.chan.slots| && s.chan.slots[s.backends[b].slot].word != Word.Done
    case Finish(b) => b in s.backends && s.backends[b].Reading?
    case DrainQueue => s.phase.Top? && (s.chan.queue != [] || s.completed != [])
    case BeginOne => s.phase.Beginning? && s.drained != []
    case Dispatch => s.phase.Beginning? && s.drained == []
    case ClientReply(x, _) => x in s.inflight
    case SwapCompleted => s.phase.Swapping?
    case HandleOne => s.phase.Handling? && s.local != []
    case EndCycle => s.phase.Handling? && s.local == []
  }

  ghost predicate Slots(l: seq<nat>, c: Chan) {
    forall i :: 0 <= i < |l| ==> l[i] < |c.slots|
  }

  // The slots that a step names exist.
  ghost predicate InBounds(s: State) {
    && Slots(s.chan.free, s.chan) && Slots(s.drained, s.chan) && Slots(s.batch, s.chan) && Slots(s.local, s.chan)
    && (forall i :: 0 <= i < |s.batch| ==> s.chan.slots[s.batch[i]].question.Some?)
    && (forall b :: b in s.backends && Attached(s.backends[b]) ==> s.backends[b].slot < |s.chan.slots|)
    && (forall x :: x in s.inflight ==> x < |s.chan.slots|)
  }

  function Jobs(c: Chan, batch: seq<nat>): map<nat, Job>
    requires forall x :: x in batch ==> x < |c.slots| && c.slots[x].question.Some?
  {
    map x | x in batch :: Job(c.slots[x].requestId, c.slots[x].question.value)
  }

  ghost function Next(s: State, step: Step): State
    requires InBounds(s) && Enabled(s, step)
  {
    match step
    case AcquireSlot(b) =>
      if s.chan.free == [] then s
      else s.(chan := Acquire(s.chan, b), backends := s.backends[b := Held(s.chan.free[0], NextId(s.chan))])
    case EnqueueSlot(b, q) =>
      var x := s.backends[b].slot;
      s.(chan := Enqueue(s.chan, x, q),
         backends := s.backends[b := if |s.chan.queue| >= s.chan.limit then Idle else Waiting(x, s.backends[b].id, q)])
    case LeaveWait(b) =>
      var x := s.backends[b].slot;
      if s.chan.slots[x].word == Word.Done then
        s.(backends := s.backends[b := Reading(x, s.backends[b].id, s.backends[b].question)])
      else s.(chan := Release(s.chan, x), backends := s.backends[b := Idle])
    case CancelWait(b) => s.(chan := Cancel(s.chan, s.backends[b].slot), backends := s.backends[b := Idle])
    case Die(b) => s.(backends := s.backends[b := Dead])
    case Finish(b) => s.(chan := Release(s.chan, s.backends[b].slot), backends := s.backends[b := Idle])
    case DrainQueue =>
      s.(chan := Drain(s.chan), drained := s.chan.queue[..DrainCount(s.chan)], phase := Beginning)
    case BeginOne =>
      var x := s.drained[0];
      s.(chan := Begin(s.chan, x), drained := s.drained[1..],
         batch := if s.chan.slots[x].word == Word.Pending then s.batch + [x] else s.batch)
    case Dispatch => s.(inflight := s.inflight + Jobs(s.chan, s.batch), batch := [], phase := Swapping)
    case ClientReply(x, reply) =>
      s.(chan := Respond(s.chan, x, s.inflight[x], reply), inflight := s.inflight - {x}, completed := s.completed + [x])
    case SwapCompleted => s.(local := s.completed, completed := [], phase := Handling)
    case HandleOne => s.(chan := Handle(s.chan, s.local[0], LiveSet(s)), local := s.local[1..])
    case EndCycle => s.(phase := Top)
  }

  /** The pool as it is set up: every slot empty and on the free list, last slot first. */
  ghost predicate Initial(s: State) {
    && (forall x :: 0 <= x < |s.chan.slots| ==> s.chan.slots[x].word == Word.Empty)
    && s.chan.free == seq(|s.chan.slots|, i requires 0 <= i < |s.chan.slots| => |s.chan.slots| - 1 - i)
    && s.chan.queue == [] && s.chan.issued == 0
    && s.phase == Top && s.drained == [] && s.batch == [] && s.local == []
    && s.inflight == map[] && s.completed == []
    && forall b :: b in s.backends ==> s.backends[b].Idle?
  }

  // ---- The invariant ---------------------------------------------------------------------

  datatype Place = InFree | InHand | InQueue | InDrained | InBatch | InFlight | InCompleted | InLocal | IsDone

  /** Auxiliary bookkeeping: where each slot is, and which living backend still belongs to it. */
  datatype Aux = Aux(place: seq<Place>, owner: seq<Option<nat>>)

  /** The list holds exactly the slots at this place, each once. */
  ghost predicate Lists(l: seq<nat>, place: seq<Place>, p: Place) {
    NoDup(l) && forall x: nat :: x in l <==> x < |place| && place[x] == p
  }

  // The backend that a slot belongs to agrees with the slot.
  ghost predicate OwnerOk(sl: Slot, p: Place, x: nat, be: Backend) {
    && Attached(be) && be.slot == x && be.id == sl.requestId
    && (be.Held? <==> p == InHand)
    && (be.Reading? ==> p == IsDone)
    && (!be.Held? ==> sl.question == Some(be.question))
  }

  ghost predicate WordOk(w: Word, p: Place, owned: bool) {
    match p
    case InFree => w == Word.Empty && !owned
    case InHand => w == Word.Pending && owned
    case InQueue => w == Word.Pending || (w == Word.Canceled && !owned)
    case InDrained => w == Word.Pending || (w == Word.Canceled && !owned)
    case IsDone => w == Word.Done && owned
    case _ => w == Word.Processing || (w == Word.Canceled && !owned)
  }

  // The payload of a slot: nothing is left in it from the slot's last use, the question comes
  // with the enqueue and the response with the client's reply.
  ghost predicate PayloadOk(sl: Slot, p: Place) {
    match p
    case InFree => true
    case InHand => sl.question.None? && sl.response.None?
    case InCompleted => Answered(sl)
    case InLocal => Answered(sl)
    case IsDone => Answered(sl)
    case _ => sl.question.Some? && sl.response.None?
  }

  ghost predicate Answered(sl: Slot) {
    && sl.response.Some? && sl.response.value.id == sl.requestId
    && sl.response.value.job.id == sl.requestId && sl.question == Some(sl.response.value.job.question)
  }

  ghost predicate SlotOk(s: State, a: Aux, x: nat)
    requires x < |s.chan.slots| == |a.place| == |a.owner|
  {
    var sl, p, o := s.chan.slots[x], a.place[x], a.owner[x];
    && WordOk(sl.word, p, o.Some?)
    && PayloadOk(sl, p)
    && (sl.word == Word.Canceled ==> sl.pid.None?)
    && (o.Some? ==> sl.pid == o && o.value in s.backends && OwnerOk(sl, p, x, s.backends[o.value]))
    && (o.None? && p != InFree && sl.word != Word.Canceled ==>
          sl.pid.Some? && sl.pid.value in s.backends && s.backends[sl.pid.value].Dead?)
    && (p == InFlight ==> x in s.inflight && s.inflight[x].id == sl.requestId && sl.question == Some(s.inflight[x].question))
  }

  ghost predicate ListsOk(s: State, a: Aux) {
    && Lists(s.chan.free, a.place, InFree)
    && Lists(s.chan.queue, a.place, InQueue)
    && Lists(s.drained, a.place, InDrained)
    && Lists(s.batch, a.place, InBatch)
    && Lists(s.completed, a.place, InCompleted)
    && Lists(s.local, a.place, InLocal)
    && (forall x: nat :: x in s.inflight <==> x < |a.place| && a.place[x] == InFlight)
  }

  ghost predicate BackendsOk(s: State, a: Aux) {
    forall b :: b in s.backends && Attached(s.backends[b]) ==>
      s.backends[b].slot < |a.owner| && a.owner[s.backends[b].slot] == Some(b)
  }

  ghost predicate PhaseOk(s: State) {
    && (s.drained != [] || s.batch != [] ==> s.phase == Beginning)
    && (s.local != [] ==> s.phase == Handling)
    && |s.chan.queue| <= s.chan.limit
  }

  ghost predicate Inv(s: State, a: Aux) {
    && |s.chan.slots| == |a.place| == |a.owner|
    && ListsOk(s, a)
    && (forall x :: 0 <= x < |a.place| ==> SlotOk(s, a, x))
    && BackendsOk(s, a)
    && PhaseOk(s)
  }

  // ---- Moving slots between places -------------------------------------------------------

  ghost function Move1(a: Aux, x: nat, p: Place, o: Option<nat>): Aux
    requires x < |a.place| == |a.owner|
  {
    Aux(a.place[x := p], a.owner[x := o])
  }

  ghost function MoveAll(place: seq<Place>, l: seq<nat>, p: Place): (r: seq<Place>)
    ensures |r| == |place|
  {
    seq(|place|, x requires 0 <= x < |place| => if x in l then p else place[x])
  }

  lemma ListPop(l: seq<nat>, place: seq<Place>, p: Place, q: Place)
    requires Lists(l, place, p) && l != [] && p != q
    ensures l[0] < |place| && place[l[0]] == p && Lists(l[1..], place[l[0] := q], p)
  {
    assert l[0] in l;
    forall x: nat ensures x in l[1..] <==> x < |place| && place[l[0] := q][x] == p {
      assert x in l <==> x == l[0] || x in l[1..];
    }
  }

  lemma ListPush(l: seq<nat>, l': seq<nat>, place: seq<Place>, x: nat, p: Place)
    requires Lists(l, place, p) && x < |place| && place[x] != p && (l' == [x] + l || l' == l + [x])
    ensures Lists(l', place[x := p], p)
  {
  }

  lemma ListOther(l: seq<nat>, place: seq<Place>, x: nat, p: Place, q: Place)
    requires Lists(l, place, p) && x < |place| && place[x] != p && q != p
    ensures Lists(l, place[x := q], p)
  {
  }

  lemma ListBounds(l: seq<nat>, place: seq<Place>, p: Place)
    requires Lists(l, place, p)
    ensures forall i :: 0 <= i < |l| ==> l[i] < |place| && place[l[i]] == p
  {
    forall i | 0 <= i < |l| ensures l[i] < |place| && place[l[i]] == p {
      assert l[i] in l;
    }
  }

  lemma InvInBounds(s: State, a: Aux)
    requires Inv(s, a)
    ensures InBounds(s)
  {
    ListBounds(s.chan.free, a.place, InFree);
    ListBounds(s.drained, a.place, InDrained);
    ListBounds(s.batch, a.place, InBatch);
    ListBounds(s.local, a.place, InLocal);
    forall i | 0 <= i < |s.batch| ensures s.chan.slots[s.batch[i]].question.Some? {
      assert SlotOk(s, a, s.batch[i]);
    }
  }

  ghost function After(s: State, a: Aux, step: Step): Aux
    requires Inv(s, a) && InBounds(s) && Enabled(s, step)
  {
    match step
    case AcquireSlot(b) => if s.chan.free == [] then a else Move1(a, s.chan.free[0], InHand, Some(b))
    case EnqueueSlot(b, _) =>
      var x := s.backends[b].slot;
      if |s.chan.queue| >= s.chan.limit then Move1(a, x, InFree, None) else Move1(a, x, InQueue, Some(b))
    case LeaveWait(b) => a
    case CancelWait(b) =>
      var x := s.backends[b].slot;
      Move1(a, x, if s.chan.slots[x].word == Word.Done then InFree else a.place[x], None)
    case Die(b) => Move1(a, s.backends[b].slot, a.place[s.backends[b].slot], None)
    case Finish(b) => Move1(a, s.backends[b].slot, InFree, None)
    case DrainQueue => a.(place := MoveAll(a.place, s.chan.queue[..DrainCount(s.chan)], InDrained))
    case BeginOne =>
      var x := s.drained[0];
      if s.chan.slots[x].word == Word.Canceled then Move1(a, x, InFree, None) else Move1(a, x, InBatch, a.owner[x])
    case Dispatch => a.(place := MoveAll(a.place, s.batch, InFlight))
    case ClientReply(x, _) => Move1(a, x, InCompleted, a.owner[x])
    case SwapCompleted => a.(place := MoveAll(a.place, s.completed, InLocal))
    case HandleOne =>
      var x := s.local[0];
      if a.owner[x].Some? then Move1(a, x, IsDone, a.owner[x]) else Move1(a, x, InFree, None)
    case EndCycle => a
  }

  // ---- Every step keeps the invariant ----------------------------------------------------

  // Lists after a single slot has moved from place p to place q; `l` is any list but these two.
  lemma OthersKept(s: State, a: Aux, x: nat, q: Place, o: Option<nat>)
    requires Inv(s, a) && x < |a.place|
    ensures var place := Move1(a, x, q, o).place; var p := a.place[x];
      && (InFree !in {p, q} ==> Lists(s.chan.free, place, InFree))
      && (InQueue !in {p, q} ==> Lists(s.chan.queue, place, InQueue))
      && (InDrained !in {p, q} ==> Lists(s.drained, place, InDrained))
      && (InBatch !in {p, q} ==> Lists(s.batch, place, InBatch))
      && (InCompleted !in {p, q} ==> Lists(s.completed, place, InCompleted))
      && (InLocal !in {p, q} ==> Lists(s.local, place, InLocal))
      && (p == q ==> place == a.place)
  {
    var p := a.place[x];
    if InFree !in {p, q} { ListOther(s.chan.free, a.place, x, InFree, q); }
    if InQueue !in {p, q} { ListOther(s.chan.queue, a.place, x, InQueue, q); }
    if InDrained !in {p, q} { ListOther(s.drained, a.place, x, InDrained, q); }
    if InBatch !in {p, q} { ListOther(s.batch, a.place, x, InBatch, q); }
    if InCompleted !in {p, q} { ListOther(s.completed, a.place, x, InCompleted, q); }
    if InLocal !in {p, q} { ListOther(s.local, a.place, x, InLocal, q); }
  }

  // A slot that a step leaves alone, together with its backend.
  lemma SlotKept(s: State, s': State, a: Aux, a': Aux, y: nat)
    requires y < |s.chan.slots| == |a.place| == |a.owner| && y < |s'.chan.slots| == |a'.place| == |a'.owner|
    requires SlotOk(s, a, y)
    requires s'.chan.slots[y] == s.chan.slots[y] && a'.place[y] == a.place[y] && a'.owner[y] == a.owner[y]
    requires forall b :: b in s.backends && (a.owner[y] == Some(b) || s.backends[b].Dead?) ==>
               b in s'.backends && s'.backends[b] == s.backends[b]
    requires y in s.inflight ==> y in s'.inflight && s'.inflight[y] == s.inflight[y]
    ensures SlotOk(s', a', y)
  {
  }

  // A slot that moves along with a whole list.
  lemma SlotMoved(s: State, s': State, a: Aux, a': Aux, y: nat)
    requires y < |s.chan.slots| == |a.place| == |a.owner| && y < |s'.chan.slots| == |a'.place| == |a'.owner|
    requires SlotOk(s, a, y) && s'.chan.slots[y] == s.chan.slots[y] && a'.owner[y] == a.owner[y] && s'.backends == s.backends
    requires a'.place[y] == a.place[y] || (a.place[y], a'.place[y]) in {(InQueue, InDrained), (InBatch, InFlight), (InCompleted, InLocal)}
    requires a.place[y] == InFlight ==> y in s'.inflight && (y in s.inflight ==> s'.inflight[y] == s.inflight[y])
    requires a.place[y] == InBatch && a'.place[y] == InFlight ==>
      y in s'.inflight && s'.inflight[y].id == s.chan.slots[y].requestId && s.chan.slots[y].question == Some(s'.inflight[y].question)
    ensures SlotOk(s', a', y)
  {
  }

  lemma AcquireLists(s: State, a: Aux, b: nat)
    requires Inv(s, a) && InBounds(s) && Enabled(s, AcquireSlot(b))
    ensures ListsOk(Next(s, AcquireSlot(b)), After(s, a, AcquireSlot(b)))
  {
    if s.chan.free != [] {
      var x := s.chan.free[0];
      ListPop(s.chan.free, a.place, InFree, InHand);
      OthersKept(s, a, x, InHand, Some(b));
    }
  }

  lemma AcquiredSlot(s: State, s': State, a: Aux, a': Aux, b: nat, x: nat)
    requires x < |s.chan.slots| == |a.place| == |a.owner| && s.chan.free != [] && x == s.chan.free[0]
    requires s'.chan == Acquire(s.chan, b) && s'.backends == s.backends[b := Held(x, NextId(s.chan))]
    requires a' == Move1(a, x, InHand, Some(b))
    ensures SlotOk(s', a', x)
  {
  }

  lemma AcquireKeeps(s: State, a: Aux, b: nat)
    requires Inv(s, a) && InBounds(s) && Enabled(s, AcquireSlot(b))
    ensures Inv(Next(s, AcquireSlot(b)), After(s, a, AcquireSlot(b)))
  {
    AcquireLists(s, a, b);
    if s.chan.free != [] {
      var x := s.chan.free[0];
      var s', a' := Next(s, AcquireSlot(b)), After(s, a, AcquireSlot(b));
      ListBounds(s.chan.free, a.place, InFree);
      assert SlotOk(s, a, x);
      forall y | 0 <= y < |a.place| ensures SlotOk(s', a', y) {
        assert SlotOk(s, a, y);
        if y == x {
          AcquiredSlot(s, s', a, a', b, x);
        } else {
          SlotKept(s, s', a, a', y);
        }
      }
    }
  }

  lemma EnqueueLists(s: State, a: Aux, b: nat, q: Question)
    requires Inv(s, a) && InBounds(s) && Enabled(s, EnqueueSlot(b, q))
    ensures ListsOk(Next(s, EnqueueSlot(b, q)), After(s, a, EnqueueSlot(b, q)))
  {
    var x := s.backends[b].slot;
    var s', a' := Next(s, EnqueueSlot(b, q)), After(s, a, EnqueueSlot(b, q));
    assert SlotOk(s, a, x);
    if |s.chan.queue| >= s.chan.limit {
      OthersKept(s, a, x, InFree, None);
      ListPush(s.chan.free, s'.chan.free, a.place, x, InFree);
    } else {
      OthersKept(s, a, x, InQueue, Some(b));
      ListPush(s.chan.queue, s'.chan.queue, a.place, x, InQueue);
    }
  }

  // The slot that its backend enqueues, or gives back.
  lemma EnqueuedSlot(s: State, s': State, a: Aux, a': Aux, b: nat, x: nat, q: Question)
    requires x < |s.chan.slots| == |a.place| == |a.owner| && SlotOk(s, a, x) && a.owner[x] == Some(b) && a.place[x] == InHand
    requires s'.chan == Enqueue(s.chan, x, q) && s'.inflight == s.inflight
    requires if |s.chan.queue| >= s.chan.limit then a' == Move1(a, x, InFree, None)
             else a' == Move1(a, x, InQueue, Some(b)) && s'.backends == s.backends[b := Waiting(x, s.backends[b].id, q)]
    ensures SlotOk(s', a', x)
  {
  }

  lemma EnqueueSlots(s: State, a: Aux, b: nat, q: Question, y: nat)
    requires Inv(s, a) && InBounds(s) && Enabled(s, EnqueueSlot(b, q)) && y < |a.place|
    ensures SlotOk(Next(s, EnqueueSlot(b, q)), After(s, a, EnqueueSlot(b, q)), y)
  {
    var s', a' := Next(s, EnqueueSlot(b, q)), After(s, a, EnqueueSlot(b, q));
    assert SlotOk(s, a, y);
    if y == s.backends[b].slot {
      EnqueuedSlot(s, s', a, a', b, y, q);
    } else {
      SlotKept(s, s', a, a', y);
    }
  }

  lemma EnqueueKeeps(s: State, a: Aux, b: nat, q: Question)
    requires Inv(s, a) && InBounds(s) && Enabled(s, EnqueueSlot(b, q))
    ensures Inv(Next(s, EnqueueSlot(b, q)), After(s, a, EnqueueSlot(b, q)))
  {
    EnqueueLists(s, a, b, q);
    assert SlotOk(s, a, s.backends[b].slot);
    forall y | 0 <= y < |a.place| ensures SlotOk(Next(s, EnqueueSlot(b, q)), After(s, a, EnqueueSlot(b, q)), y) {
      EnqueueSlots(s, a, b, q, y);
    }
  }

  lemma LeaveWaitKeeps(s: State, a: Aux, b: nat)
    requires Inv(s, a) && InBounds(s) && Enabled(s, LeaveWait(b))
    ensures Inv(Next(s, LeaveWait(b)), After(s, a, LeaveWait(b)))
  {
    var s', a' := Next(s, LeaveWait(b)), After(s, a, LeaveWait(b));
    assert SlotOk(s, a, s.backends[b].slot);
    forall y | 0 <= y < |a.place| ensures SlotOk(s', a', y) {
      assert SlotOk(s, a, y);
    }
  }

  lemma CanceledSlot(s: State, s': State, a: Aux, a': Aux, b: nat, x: nat)
    requires x < |s.chan.slots| == |a.place| == |a.owner| && SlotOk(s, a, x) && a.owner[x] == Some(b) && a.place[x] != InHand
    requires s'.chan == Cancel(s.chan, x) && s'.inflight == s.inflight
    requires a' == Move1(a, x, if s.chan.slots[x].word == Word.Done then InFree else a.place[x], None)
    ensures SlotOk(s', a', x)
  {
  }

  // A canceled wait: the slot stays where it is, or goes to the free list if it was done.
  lemma CancelSlots(s: State, a: Aux, b: nat, y: nat)
    requires Inv(s, a) && InBounds(s) && Enabled(s, CancelWait(b)) && y < |a.place|
    ensures SlotOk(Next(s, CancelWait(b)), After(s, a, CancelWait(b)), y)
  {
    var s', a' := Next(s, CancelWait(b)), After(s, a, CancelWait(b));
    assert SlotOk(s, a, y);
    if y == s.backends[b].slot {
      CanceledSlot(s, s', a, a', b, y);
    } else {
      SlotKept(s, s', a, a', y);
    }
  }

  lemma CancelLists(s: State, a: Aux, b: nat)
    requires Inv(s, a) && InBounds(s) && Enabled(s, CancelWait(b))
    ensures ListsOk(Next(s, CancelWait(b)), After(s, a, CancelWait(b)))
  {
    var x := s.backends[b].slot;
    var s' := Next(s, CancelWait(b));
    assert SlotOk(s, a, x);
    if s.chan.slots[x].word == Word.Done {
      OthersKept(s, a, x, InFree, None);
      ListPush(s.chan.free, s'.chan.free, a.place, x, InFree);
    } else {
      OthersKept(s, a, x, a.place[x], None);
    }
  }

  lemma CancelKeeps(s: State, a: Aux, b: nat)
    requires Inv(s, a) && InBounds(s) && Enabled(s, CancelWait(b))
    ensures Inv(Next(s, CancelWait(b)), After(s, a, CancelWait(b)))
  {
    CancelLists(s, a, b);
    forall y | 0 <= y < |a.place| ensures SlotOk(Next(s, CancelWait(b)), After(s, a, CancelWait(b)), y) {
      CancelSlots(s, a, b, y);
    }
  }

  lemma AbandonedSlot(s: State, s': State, a: Aux, a': Aux, b: nat, x: nat)
    requires x < |s.chan.slots| == |a.place| == |a.owner| && SlotOk(s, a, x) && a.owner[x] == Some(b)
    requires a.place[x] != InHand && a.place[x] != IsDone
    requires s'.chan == s.chan && s'.inflight == s.inflight && s'.backends == s.backends[b := Dead]
    requires a' == Move1(a, x, a.place[x], None)
    ensures SlotOk(s', a', x)
  {
  }

  lemma DieSlots(s: State, a: Aux, b: nat, y: nat)
    requires Inv(s, a) && InBounds(s) && Enabled(s, Die(b)) && y < |a.place|
    ensures SlotOk(Next(s, Die(b)), After(s, a, Die(b)), y)
  {
    var s', a' := Next(s, Die(b)), After(s, a, Die(b));
    assert SlotOk(s, a, y);
    if y == s.backends[b].slot {
      AbandonedSlot(s, s', a, a', b, y);
    } else {
      SlotKept(s, s', a, a', y);
    }
  }

  lemma DieKeeps(s: State, a: Aux, b: nat)
    requires Inv(s, a) && InBounds(s) && Enabled(s, Die(b))
    ensures Inv(Next(s, Die(b)), After(s, a, Die(b)))
  {
    var x := s.backends[b].slot;
    OthersKept(s, a, x, a.place[x], None);
    forall y | 0 <= y < |a.place| ensures SlotOk(Next(s, Die(b)), After(s, a, Die(b)), y) {
      DieSlots(s, a, b, y);
    }
  }

  lemma FinishLists(s: State, a: Aux, b: nat)
    requires Inv(s, a) && InBounds(s) && Enabled(s, Finish(b))
    ensures ListsOk(Next(s, Finish(b)), After(s, a, Finish(b)))
  {
    var x := s.backends[b].slot;
    var s', a' := Next(s, Finish(b)), After(s, a, Finish(b));
    assert SlotOk(s, a, x);
    OthersKept(s, a, x, InFree, None);
    ListPush(s.chan.free, s'.chan.free, a.place, x, InFree);
  }

  lemma ReleasedSlot(s: State, s': State, a: Aux, a': Aux, x: nat)
    requires x < |s.chan.slots| == |a.place| == |a.owner|
    requires s'.chan == Release(s.chan, x) && a' == Move1(a, x, InFree, None)
    ensures SlotOk(s', a', x)
  {
  }

  lemma FinishSlots(s: State, a: Aux, b: nat, y: nat)
    requires Inv(s, a) && InBounds(s) && Enabled(s, Finish(b)) && y < |a.place|
    ensures SlotOk(Next(s, Finish(b)), After(s, a, Finish(b)), y)
  {
    var s', a' := Next(s, Finish(b)), After(s, a, Finish(b));
    assert SlotOk(s, a, y);
    if y == s.backends[b].slot {
      ReleasedSlot(s, s', a, a', y);
    } else {
      SlotKept(s, s', a, a', y);
    }
  }

  lemma FinishKeeps(s: State, a: Aux, b: nat)
    requires Inv(s, a) && InBounds(s) && Enabled(s, Finish(b))
    ensures Inv(Next(s, Finish(b)), After(s, a, Finish(b)))
  {
    FinishLists(s, a, b);
    forall y | 0 <= y < |a.place| ensures SlotOk(Next(s, Finish(b)), After(s, a, Finish(b)), y) {
      FinishSlots(s, a, b, y);
    }
  }

  lemma BeginLists(s: State, a: Aux)
    requires Inv(s, a) && InBounds(s) && Enabled(s, BeginOne)
    ensures ListsOk(Next(s, BeginOne), After(s, a, BeginOne))
  {
    var x := s.drained[0];
    var s', a' := Next(s, BeginOne), After(s, a, BeginOne);
    ListBounds(s.drained, a.place, InDrained);
    assert SlotOk(s, a, x);
    var q := if s.chan.slots[x].word == Word.Canceled then InFree else InBatch;
    OthersKept(s, a, x, q, a'.owner[x]);
    ListPop(s.drained, a.place, InDrained, q);
    if q == InFree {
      ListPush(s.chan.free, s'.chan.free, a.place, x, InFree);
    } else {
      ListPush(s.batch, s'.batch, a.place, x, InBatch);
    }
  }

  lemma BeginSlots(s: State, a: Aux, y: nat)
    requires Inv(s, a) && InBounds(s) && Enabled(s, BeginOne) && y < |a.place|
    ensures SlotOk(Next(s, BeginOne), After(s, a, BeginOne), y)
  {
    ListBounds(s.drained, a.place, InDrained);
    assert SlotOk(s, a, y);
    if y != s.drained[0] {
      SlotKept(s, Next(s, BeginOne), a, After(s, a, BeginOne), y);
    }
  }

  lemma BeginKeeps(s: State, a: Aux)
    requires Inv(s, a) && InBounds(s) && Enabled(s, BeginOne)
    ensures Inv(Next(s, BeginOne), After(s, a, BeginOne))
  {
    BeginLists(s, a);
    ListBounds(s.drained, a.place, InDrained);
    assert SlotOk(s, a, s.drained[0]);
    forall y | 0 <= y < |a.place| ensures SlotOk(Next(s, BeginOne), After(s, a, BeginOne), y) {
      BeginSlots(s, a, y);
    }
  }

  lemma ReplyLists(s: State, a: Aux, x: nat, reply: Reply)
    requires Inv(s, a) && InBounds(s) && Enabled(s, ClientReply(x, reply))
    ensures ListsOk(Next(s, ClientReply(x, reply)), After(s, a, ClientReply(x, reply)))
  {
    var s' := Next(s, ClientReply(x, reply));
    assert a.place[x] == InFlight;
    OthersKept(s, a, x, InCompleted, a.owner[x]);
    ListPush(s.completed, s'.completed, a.place, x, InCompleted);
  }

  lemma ReplyKeeps(s: State, a: Aux, x: nat, reply: Reply)
    requires Inv(s, a) && InBounds(s) && Enabled(s, ClientReply(x, reply))
    ensures Inv(Next(s, ClientReply(x, reply)), After(s, a, ClientReply(x, reply)))
  {
    var s', a' := Next(s, ClientReply(x, reply)), After(s, a, ClientReply(x, reply));
    ReplyLists(s, a, x, reply);
    forall y | 0 <= y < |a.place| ensures SlotOk(s', a', y) {
      assert SlotOk(s, a, y);
      if y != x {
        SlotKept(s, s', a, a', y);
      }
    }
  }

  lemma HandleLists(s: State, a: Aux)
    requires Inv(s, a) && InBounds(s) && Enabled(s, HandleOne)
    ensures ListsOk(Next(s, HandleOne), After(s, a, HandleOne))
  {
    var x := s.local[0];
    var s', a' := Next(s, HandleOne), After(s, a, HandleOne);
    ListBounds(s.local, a.place, InLocal);
    assert SlotOk(s, a, x);
    var q := if a.owner[x].Some? then IsDone else InFree;
    OthersKept(s, a, x, q, a'.owner[x]);
    ListPop(s.local, a.place, InLocal, q);
    if q == InFree {
      ListPush(s.chan.free, s'.chan.free, a.place, x, InFree);
    }
  }

  lemma HandleSlots(s: State, a: Aux, y: nat)
    requires Inv(s, a) && InBounds(s) && Enabled(s, HandleOne) && y < |a.place|
    ensures SlotOk(Next(s, HandleOne), After(s, a, HandleOne), y)
  {
    ListBounds(s.local, a.place, InLocal);
    assert SlotOk(s, a, y);
    if y != s.local[0] {
      SlotKept(s, Next(s, HandleOne), a, After(s, a, HandleOne), y);
    }
  }

  lemma HandleKeeps(s: State, a: Aux)
    requires Inv(s, a) && InBounds(s) && Enabled(s, HandleOne)
    ensures Inv(Next(s, HandleOne), After(s, a, HandleOne))
  {
    var s', a' := Next(s, HandleOne), After(s, a, HandleOne);
    HandleLists(s, a);
    ListBounds(s.local, a.place, InLocal);
    forall y | 0 <= y < |a.place| ensures SlotOk(s', a', y) {
      HandleSlots(s, a, y);
    }
  }

  // Moving the first n elements of a list to an empty place.
  lemma ListSplit(l: seq<nat>, place: seq<Place>, n: nat, p: Place, q: Place)
    requires Lists(l, place, p) && n <= |l| && p != q && Lists([], place, q)
    ensures Lists(l[n..], MoveAll(place, l[..n], q), p)
    ensures Lists(l[..n], MoveAll(place, l[..n], q), q)
  {
    ListBounds(l, place, p);
    forall x: nat ensures x in l[n..] <==> x < |place| && MoveAll(place, l[..n], q)[x] == p {
      assert x in l <==> x in l[..n] || x in l[n..] by { assert l == l[..n] + l[n..]; }
    }
  }

  lemma ListAside(l: seq<nat>, place: seq<Place>, moved: seq<nat>, p: Place, q: Place, r: Place)
    requires Lists(l, place, r) && r != p && r != q
    requires forall x: nat :: x in moved ==> x < |place| && place[x] == p
    ensures Lists(l, MoveAll(place, moved, q), r)
  {
  }

  lemma DrainLists(s: State, a: Aux)
    requires Inv(s, a) && InBounds(s) && Enabled(s, DrainQueue)
    ensures ListsOk(Next(s, DrainQueue), After(s, a, DrainQueue))
  {
    var n := DrainCount(s.chan);
    var moved := s.chan.queue[..n];
    assert forall x: nat :: x in moved ==> x in s.chan.queue;
    ListSplit(s.chan.queue, a.place, n, InQueue, InDrained);
    ListAside(s.chan.free, a.place, moved, InQueue, InDrained, InFree);
    ListAside(s.batch, a.place, moved, InQueue, InDrained, InBatch);
    ListAside(s.completed, a.place, moved, InQueue, InDrained, InCompleted);
    ListAside(s.local, a.place, moved, InQueue, InDrained, InLocal);
  }

  lemma DrainKeeps(s: State, a: Aux)
    requires Inv(s, a) && InBounds(s) && Enabled(s, DrainQueue)
    ensures Inv(Next(s, DrainQueue), After(s, a, DrainQueue))
  {
    var s', a' := Next(s, DrainQueue), After(s, a, DrainQueue);
    DrainLists(s, a);
    ListBounds(s.chan.queue, a.place, InQueue);
    forall y | 0 <= y < |a.place| ensures SlotOk(s', a', y) {
      assert SlotOk(s, a, y);
      SlotMoved(s, s', a, a', y);
    }
  }

  lemma DispatchLists(s: State, a: Aux)
    requires Inv(s, a) && InBounds(s) && Enabled(s, Dispatch)
    ensures ListsOk(Next(s, Dispatch), After(s, a, Dispatch))
  {
    assert forall x: nat :: x in s.batch ==> x < |a.place| && a.place[x] == InBatch;
    ListAside(s.chan.free, a.place, s.batch, InBatch, InFlight, InFree);
    ListAside(s.chan.queue, a.place, s.batch, InBatch, InFlight, InQueue);
    ListAside(s.drained, a.place, s.batch, InBatch, InFlight, InDrained);
    ListAside(s.completed, a.place, s.batch, InBatch, InFlight, InCompleted);
    ListAside(s.local, a.place, s.batch, InBatch, InFlight, InLocal);
  }

  lemma DispatchKeeps(s: State, a: Aux)
    requires Inv(s, a) && InBounds(s) && Enabled(s, Dispatch)
    ensures Inv(Next(s, Dispatch), After(s, a, Dispatch))
  {
    var s', a' := Next(s, Dispatch), After(s, a, Dispatch);
    DispatchLists(s, a);
    forall y | 0 <= y < |a.place| ensures SlotOk(s', a', y) {
      assert SlotOk(s, a, y);
      SlotMoved(s, s', a, a', y);
    }
  }

  lemma SwapLists(s: State, a: Aux)
    requires Inv(s, a) && InBounds(s) && Enabled(s, SwapCompleted)
    ensures ListsOk(Next(s, SwapCompleted), After(s, a, SwapCompleted))
  {
    ListSplit(s.completed, a.place, |s.completed|, InCompleted, InLocal);
    assert s.completed[..|s.completed|] == s.completed;
    ListAside(s.chan.free, a.place, s.completed, InCompleted, InLocal, InFree);
    ListAside(s.chan.queue, a.place, s.completed, InCompleted, InLocal, InQueue);
    ListAside(s.drained, a.place, s.completed, InCompleted, InLocal, InDrained);
    ListAside(s.batch, a.place, s.completed, InCompleted, InLocal, InBatch);
  }

  lemma SwapKeeps(s: State, a: Aux)
    requires Inv(s, a) && InBounds(s) && Enabled(s, SwapCompleted)
    ensures Inv(Next(s, SwapCompleted), After(s, a, SwapCompleted))
  {
    var s', a' := Next(s, SwapCompleted), After(s, a, SwapCompleted);
    SwapLists(s, a);
    forall y | 0 <= y < |a.place| ensures SlotOk(s', a', y) {
      assert SlotOk(s, a, y);
      SlotMoved(s, s', a, a', y);
    }
  }

  lemma EndCycleKeeps(s: State, a: Aux)
    requires Inv(s, a) && InBounds(s) && Enabled(s, EndCycle)
    ensures Inv(Next(s, EndCycle), After(s, a, EndCycle))
  {
    forall y | 0 <= y < |a.place| ensures SlotOk(Next(s, EndCycle), a, y) {
      assert SlotOk(s, a, y);
    }
  }

  /** The invariant is inductive. */
  lemma StepKeeps(s: State, a: Aux, step: Step)
    requires Inv(s, a) && InBounds(s) && Enabled(s, step)
    ensures Inv(Next(s, step), After(s, a, step))
  {
    match step
    case AcquireSlot(b) => AcquireKeeps(s, a, b);
    case EnqueueSlot(b, q) => EnqueueKeeps(s, a, b, q);
    case LeaveWait(b) => LeaveWaitKeeps(s, a, b);
    case CancelWait(b) => CancelKeeps(s, a, b);
    case Die(b) => DieKeeps(s, a, b);
    case Finish(b) => FinishKeeps(s, a, b);
    case DrainQueue => DrainKeeps(s, a);
    case BeginOne => BeginKeeps(s, a);
    case Dispatch => DispatchKeeps(s, a);
    case ClientReply(x, reply) => ReplyKeeps(s, a, x, reply);
    case SwapCompleted => SwapKeeps(s, a);
    case HandleOne => HandleKeeps(s, a);
    case EndCycle => EndCycleKeeps(s, a);
  }
}
