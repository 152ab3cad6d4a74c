/** One undisturbed cycle of the worker, as its code carries it out, is a run of the steps of
    the slot protocol. */
module WorkerCycle {
  import opened CacheTypes
  import opened Channel
  import opened ChannelObjects
  import opened Protocol
  import opened Quiescence
  import ProtocolRuns

  lemma {:induction false} PathThen(s: State, steps: seq<Step>, t: State, step: Step)
    requires Path(s, steps, t) && InBounds(t) && Enabled(t, step)
    ensures Path(s, steps + [step], Next(t, step))
    decreases |steps|
  {
    if steps == [] {
      assert [step][1..] == [];
    } else {
      PathThen(Next(s, steps[0]), steps[1..], t, step);
      assert (steps + [step])[1..] == steps[1..] + [step];
    }
  }

  // A path together with the bookkeeping of where it has led.
  ghost predicate Leads(s: State, steps: seq<Step>, t: State, a: Aux) {
    Path(s, steps, t) && Inv(t, a) && InBounds(t)
  }

  lemma LeadsOn(s: State, steps: seq<Step>, t: State, a: Aux, step: Step)
    requires Leads(s, steps, t, a) && Enabled(t, step)
    ensures Leads(s, steps + [step], Next(t, step), After(t, a, step))
  {
    PathThen(s, steps, t, step);
    StepKeeps(t, a, step);
    InvInBounds(Next(t, step), After(t, a, step));
  }

  ghost function BegunState(s: State, i: nat): State
    requires i <= |s.drained| && Slots(s.drained, s.chan)
  {
    s.(chan := BeginAll(s.chan, s.drained[..i]), drained := s.drained[i..], batch := s.batch + PendingOf(s.chan, s.drained[..i]))
  }

  lemma BegunNext(s: State, i: nat)
    requires i < |s.drained| && Slots(s.drained, s.chan) && NoDup(s.drained) && s.phase.Beginning?
    requires InBounds(BegunState(s, i))
    ensures Enabled(BegunState(s, i), BeginOne) && Next(BegunState(s, i), BeginOne) == BegunState(s, i + 1)
  {
    BeginNext(s.chan, s.drained, i);
  }

  // Beginning the drained slots one by one.
  lemma {:induction false} BeginRun(z: State, before: seq<Step>, s: State, a: Aux, i: nat) returns (steps: seq<Step>, a': Aux)
    requires Leads(z, before, s, a) && s.phase.Beginning? && i <= |s.drained|
    ensures Leads(z, steps, BegunState(s, i), a')
  {
    if i == 0 {
      steps, a' := before, a;
      assert s.drained[..0] == [] && s.batch + [] == s.batch;
    } else {
      steps, a' := BeginRun(z, before, s, a, i - 1);
      BegunNext(s, i - 1);
      LeadsOn(z, steps, BegunState(s, i - 1), a', BeginOne);
      steps, a' := steps + [BeginOne], After(BegunState(s, i - 1), a', BeginOne);
    }
  }

  ghost function HandledState(s: State, i: nat): State
    requires i <= |s.local| && Slots(s.local, s.chan)
  {
    s.(chan := HandleAll(s.chan, s.local[..i], LiveSet(s)), local := s.local[i..])
  }

  lemma HandledNext(s: State, i: nat)
    requires i < |s.local| && Slots(s.local, s.chan) && s.phase.Handling? && InBounds(HandledState(s, i))
    ensures Enabled(HandledState(s, i), HandleOne) && Next(HandledState(s, i), HandleOne) == HandledState(s, i + 1)
  {
    assert s.local[..i + 1][..i] == s.local[..i];
    assert LiveSet(HandledState(s, i)) == LiveSet(s);
  }

  // Handling the completed slots one by one.
  lemma {:induction false} HandleRun(z: State, before: seq<Step>, s: State, a: Aux, i: nat) returns (steps: seq<Step>, a': Aux)
    requires Leads(z, before, s, a) && s.phase.Handling? && i <= |s.local|
    ensures Leads(z, steps, HandledState(s, i), a')
  {
    if i == 0 {
      steps, a' := before, a;
    } else {
      steps, a' := HandleRun(z, before, s, a, i - 1);
      HandledNext(s, i - 1);
      LeadsOn(z, steps, HandledState(s, i - 1), a', HandleOne);
      steps, a' := steps + [HandleOne], After(HandledState(s, i - 1), a', HandleOne);
    }
  }

  lemma BegunDone(s: State)
    requires Slots(s.drained, s.chan) && s.batch == []
    ensures BegunState(s, |s.drained|) ==
      s.(chan := BeginAll(s.chan, s.drained), drained := [], batch := PendingOf(s.chan, s.drained))
  {
    assert s.drained[..|s.drained|] == s.drained;
    assert [] + PendingOf(s.chan, s.drained) == PendingOf(s.chan, s.drained);
  }

  lemma HandledDone(s: State)
    requires Slots(s.local, s.chan)
    ensures HandledState(s, |s.local|) == s.(chan := HandleAll(s.chan, s.local, LiveSet(s)), local := [])
  {
    assert s.local[..|s.local|] == s.local;
  }

  // Draining the queue and beginning what was drained.
  lemma DrainRun(s: State, a: Aux) returns (steps: seq<Step>, t: State, a': Aux)
    requires Inv(s, a) && InBounds(s) && Enabled(s, DrainQueue)
    ensures var l := s.chan.queue[..DrainCount(s.chan)];
      && Slots(l, s.chan)
      && t == s.(chan := BeginAll(Drain(s.chan), l), phase := Beginning, drained := [], batch := PendingOf(Drain(s.chan), l))
    ensures Leads(s, steps, t, a')
  {
    ListBounds(s.chan.queue, a.place, InQueue);
    var s1, a1 := Next(s, DrainQueue), After(s, a, DrainQueue);
    LeadsOn(s, [], s, a, DrainQueue);
    steps, a' := BeginRun(s, [] + [DrainQueue], s1, a1, |s1.drained|);
    BegunDone(s1);
    t := BegunState(s1, |s1.drained|);
  }

  // The first half: draining, beginning, sending.
  lemma SendRun(s: State, a: Aux) returns (steps: seq<Step>, t: State, a': Aux)
    requires Inv(s, a) && InBounds(s) && Enabled(s, DrainQueue)
    ensures Leads(s, steps, t, a') && t.phase.Swapping? && t.backends == s.backends && t.completed == s.completed
    ensures var l := s.chan.queue[..DrainCount(s.chan)];
      && Slots(l, s.chan)
      && t.chan == BeginAll(Drain(s.chan), l)
      && t.inflight.Keys == s.inflight.Keys + set x | x in PendingOf(Drain(s.chan), l)
  {
    var s2;
    steps, s2, a' := DrainRun(s, a);
    LeadsOn(s, steps, s2, a', Dispatch);
    steps, t, a' := steps + [Dispatch], Next(s2, Dispatch), After(s2, a', Dispatch);
  }

  function Swapped(s: State): State {
    s.(local := s.completed, completed := [], phase := Handling)
  }

  lemma SwappedHandled(s: State)
    requires Slots(s.completed, s.chan)
    ensures HandledState(Swapped(s), |s.completed|) ==
      s.(chan := HandleAll(s.chan, s.completed, LiveSet(s)), completed := [], local := [], phase := Handling)
  {
    HandledDone(Swapped(s));
    assert LiveSet(Swapped(s)) == LiveSet(s);
  }

  // The second half: handing over what was completed.
  lemma HandOverRun(z: State, before: seq<Step>, s: State, a: Aux) returns (steps: seq<Step>, t: State, a': Aux)
    requires Leads(z, before, s, a) && s.phase.Swapping?
    ensures Slots(s.completed, s.chan) && Leads(z, steps, t, a')
    ensures t == s.(chan := HandleAll(s.chan, s.completed, LiveSet(s)), completed := [], local := [], phase := Handling)
  {
    ListBounds(s.completed, a.place, InCompleted);
    var s1 := Swapped(s);
    LeadsOn(z, before, s, a, SwapCompleted);
    steps, a' := HandleRun(z, before + [SwapCompleted], s1, After(s, a, SwapCompleted), |s1.local|);
    SwappedHandled(s);
    t := HandledState(s1, |s1.local|);
  }

  lemma EndRun(z: State, steps: seq<Step>, s: State, a: Aux)
    requires Leads(z, steps, s, a) && s.phase.Handling? && s.local == []
    ensures Leads(z, steps + [EndCycle], s.(phase := Top), a)
  {
    LeadsOn(z, steps, s, a, EndCycle);
  }

  /** A cycle of the processor that starts when there is work, and that nobody interrupts, is a
      run of protocol steps from the top of the cycle to the top of the next. It leaves the
      channel as `Processor.Execute` does, what was pending with the client, and nothing on any
      list of the worker. */
  lemma CycleIsRun(s: State, a: Aux) returns (steps: seq<Step>, t: State, a': Aux)
    requires Inv(s, a) && InBounds(s) && Enabled(s, DrainQueue)
    ensures Path(s, steps, t) && Inv(t, a')
    ensures t.phase.Top? && t.drained == t.batch == t.local == t.completed == [] && t.backends == s.backends
    ensures var l := s.chan.queue[..DrainCount(s.chan)];
      && Slots(l, s.chan) && Slots(s.completed, s.chan)
      && t.chan == HandleAll(BeginAll(Drain(s.chan), l), s.completed, LiveSet(s))
      && t.inflight.Keys == s.inflight.Keys + set x | x in PendingOf(Drain(s.chan), l)
  {
    ListBounds(s.completed, a.place, InCompleted);
    var s3;
    steps, s3, a' := SendRun(s, a);
    assert s3.drained == s3.batch == [];
    var s4;
    steps, s4, a' := HandOverRun(s, steps, s3, a');
    assert LiveSet(s3) == LiveSet(s);
    EndRun(s, steps, s4, a');
    steps, t := steps + [EndCycle], s4.(phase := Top);
  }
}
