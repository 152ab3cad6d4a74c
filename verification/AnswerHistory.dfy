/** Where the answer that a backend reads comes from: the history of one request through a run
    of the slot protocol, from its acquisition to the reply of the server. */
module AnswerHistory {
  import opened CacheTypes
  import opened Channel
  import opened Protocol
  import opened ProtocolRuns

  predicate Asked(be: Backend) {
    be.Waiting? || be.Reading?
  }

  predicate RepliesTo(step: Step, x: nat) {
    step.ClientReply? && step.x == x
  }

  ghost predicate HasSlot(s: State, b: nat, x: nat, id: nat) {
    b in s.backends && Attached(s.backends[b]) && s.backends[b].slot == x && s.backends[b].id == id
  }

  ghost predicate HasAsked(s: State, b: nat, q: Question) {
    b in s.backends && Asked(s.backends[b]) && s.backends[b].question == q
  }

  /** The backend has kept its slot and request id since it acquired them in step `j`. */
  ghost predicate HoldsSince(states: seq<State>, b: nat, x: nat, id: nat, j: nat, n: nat) {
    n < |states| && forall i: nat :: j < i <= n ==> HasSlot(states[i], b, x, id)
  }

  // ---- One step --------------------------------------------------------------------------

  lemma SlotMoves(s: State, step: Step, b: nat, x: nat, id: nat)
    requires InBounds(s) && Enabled(s, step) && HasSlot(Next(s, step), b, x, id)
    ensures HasSlot(s, b, x, id) || (step == AcquireSlot(b) && s.chan.free != [] && x == s.chan.free[0] && id == NextId(s.chan))
  {
  }

  lemma QuestionMoves(s: State, step: Step, b: nat, q: Question)
    requires InBounds(s) && Enabled(s, step) && HasAsked(Next(s, step), b, q)
    ensures HasAsked(s, b, q) || step == EnqueueSlot(b, q)
  {
  }

  // The response in the slot of a backend changes by the client's reply only, and once.
  lemma ResponseMoves(s: State, a: Aux, step: Step, b: nat, x: nat, id: nat)
    requires Inv(s, a) && InBounds(s) && Enabled(s, step) && HasSlot(s, b, x, id) && x < |Next(s, step).chan.slots|
    ensures var before, after := s.chan.slots[x].response, Next(s, step).chan.slots[x].response;
      if RepliesTo(step, x) then before == None && after.Some? && after.value.reply == step.reply else after == before
  {
    assert SlotOk(s, a, x);
  }

  // ---- The history of a request ----------------------------------------------------------

  lemma {:induction false} Acquisition(states: seq<State>, steps: seq<Step>, n: nat, b: nat, x: nat, id: nat) returns (j: nat)
    requires IsRun(states, steps) && n <= |steps| && HasSlot(states[n], b, x, id)
    ensures j < n && steps[j] == AcquireSlot(b) && HoldsSince(states, b, x, id, j, n)
    ensures states[j].chan.free != [] && states[j].chan.free[0] == x && NextId(states[j].chan) == id
  {
    assert n > 0;
    var a := Reached(states, steps, n - 1);
    assert Transition(states, steps, n - 1);
    SlotMoves(states[n - 1], steps[n - 1], b, x, id);
    if HasSlot(states[n - 1], b, x, id) {
      j := Acquisition(states, steps, n - 1, b, x, id);
    } else {
      j := n - 1;
    }
  }

  lemma {:induction false} Enqueueing(states: seq<State>, steps: seq<Step>, n: nat, b: nat, q: Question) returns (k: nat)
    requires IsRun(states, steps) && n <= |steps| && HasAsked(states[n], b, q)
    ensures k < n && steps[k] == EnqueueSlot(b, q) && forall i: nat :: k < i <= n ==> HasAsked(states[i], b, q)
  {
    assert n > 0;
    var a := Reached(states, steps, n - 1);
    assert Transition(states, steps, n - 1);
    QuestionMoves(states[n - 1], steps[n - 1], b, q);
    if HasAsked(states[n - 1], b, q) {
      k := Enqueueing(states, steps, n - 1, b, q);
    } else {
      k := n - 1;
    }
  }

  // What a backend that holds a slot finds in it.
  lemma ResponseAt(states: seq<State>, steps: seq<Step>, n: nat, b: nat, x: nat, id: nat)
    requires IsRun(states, steps) && n <= |steps| && HasSlot(states[n], b, x, id)
    ensures x < |states[n].chan.slots|
    ensures states[n].backends[b].Held? ==> states[n].chan.slots[x].response == None
    ensures n < |steps| && RepliesTo(steps[n], x) ==> !states[n].backends[b].Held?
  {
    var a := Reached(states, steps, n);
    assert SlotOk(states[n], a, x);
    if n < |steps| {
      assert Transition(states, steps, n);
    }
  }

  lemma ResponseNext(states: seq<State>, steps: seq<Step>, n: nat, b: nat, x: nat, id: nat)
    requires IsRun(states, steps) && n < |steps| && HasSlot(states[n], b, x, id)
    ensures x < |states[n].chan.slots| == |states[n + 1].chan.slots|
    ensures var before, after := states[n].chan.slots[x].response, states[n + 1].chan.slots[x].response;
      if RepliesTo(steps[n], x) then before == None && after.Some? && after.value.reply == steps[n].reply else after == before
  {
    var a := Reached(states, steps, n);
    assert Transition(states, steps, n);
    StepSizes(states[n], steps[n]);
    ResponseMoves(states[n], a, steps[n], b, x, id);
  }

  // A slot without a response has not been replied to since its acquisition.
  lemma {:induction false} NoReplyYet(states: seq<State>, steps: seq<Step>, n: nat, b: nat, x: nat, id: nat, j: nat)
    requires IsRun(states, steps) && j < n <= |steps| && HoldsSince(states, b, x, id, j, n)
    requires x < |states[n].chan.slots| && states[n].chan.slots[x].response == None
    ensures forall i: nat :: j < i < n ==> !RepliesTo(steps[i], x)
  {
    if j < n - 1 {
      ResponseNext(states, steps, n - 1, b, x, id);
      NoReplyYet(states, steps, n - 1, b, x, id, j);
    }
  }

  lemma {:induction false} OneReply(states: seq<State>, steps: seq<Step>, n: nat, b: nat, x: nat, id: nat, j: nat) returns (m: nat)
    requires IsRun(states, steps) && j < n <= |steps| && HoldsSince(states, b, x, id, j, n) && steps[j] == AcquireSlot(b)
    requires x < |states[n].chan.slots| && states[n].chan.slots[x].response.Some?
    ensures j < m < n && steps[m] == ClientReply(x, states[n].chan.slots[x].response.value.reply)
    ensures forall i: nat :: j < i < n && i != m ==> !RepliesTo(steps[i], x)
  {
    if j == n - 1 {
      assert Transition(states, steps, j);
      var a := Reached(states, steps, j);
      ResponseAt(states, steps, n, b, x, id);
      assert false;
    } else {
      ResponseNext(states, steps, n - 1, b, x, id);
      if RepliesTo(steps[n - 1], x) {
        m := n - 1;
        NoReplyYet(states, steps, n - 1, b, x, id, j);
      } else {
        m := OneReply(states, steps, n - 1, b, x, id, j);
      }
    }
  }

  /** The whole history of an answer. A backend that has left the wait acquired its slot in a
      step j and kept it ever since, asked its question in a later step k, and finds in its slot
      exactly what the server replied in a later step m, to the request that carried its own id
      and question; nobody else has replied into the slot since the acquisition. */
  lemma AnswerProvenance(states: seq<State>, steps: seq<Step>, n: nat, b: nat) returns (j: nat, k: nat, m: nat)
    requires IsRun(states, steps) && n <= |steps| && b in states[n].backends && states[n].backends[b].Reading?
    ensures var be := states[n].backends[b];
      && j < k < m < n
      && steps[j] == AcquireSlot(b) && HoldsSince(states, b, be.slot, be.id, j, n)
      && steps[k] == EnqueueSlot(b, be.question)
      && be.slot in states[m].inflight && states[m].inflight[be.slot] == Job(be.id, be.question)
      && be.slot < |states[n].chan.slots| && states[n].chan.slots[be.slot].response.Some?
      && steps[m] == ClientReply(be.slot, states[n].chan.slots[be.slot].response.value.reply)
      && forall i: nat :: j < i < n && i != m ==> !RepliesTo(steps[i], be.slot)
  {
    var be := states[n].backends[b];
    NoMixUp(states, steps, n, b);
    j := Acquisition(states, steps, n, b, be.slot, be.id);
    k := Enqueueing(states, steps, n, b, be.question);
    m := OneReply(states, steps, n, b, be.slot, be.id, j);
    assert Transition(states, steps, j) && Transition(states, steps, k) && Transition(states, steps, m);
    ResponseAt(states, steps, k, b, be.slot, be.id);
    if m < k {
      NoReplyYet(states, steps, k, b, be.slot, be.id, j);
    }
    assert HasAsked(states[m], b, be.question);
    CallbackOwnsSlot(states, steps, m, be.slot);
  }
}
