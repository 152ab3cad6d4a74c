/** From every reachable state of the slot protocol the channel drains: without new
    acquisitions every run is finite, and some run returns all slots to the free list. */
module Quiescence {
  import opened Arithmetic
  import opened CacheTypes
  import opened Channel
  import opened Protocol
  import ProtocolRuns

  // ---- The measure -----------------------------------------------------------------------

  function Stage(p: Place): nat {
    match p
    case InFree => 0
    case IsDone => 1
    case InLocal => 2
    case InCompleted => 3
    case InFlight => 4
    case InBatch => 5
    case InDrained => 6
    case InQueue => 7
    case InHand => 8
  }

  /** How far a slot is from the free list: its stage, then what its backend still has to do. */
  ghost function Rank(s: State, a: Aux, x: nat): nat
    requires x < |a.place| == |a.owner|
  {
    3 * Stage(a.place[x]) +
    match a.owner[x]
    case None => 0
    case Some(b) => if b in s.backends && s.backends[b].Reading? then 1 else 2
  }

  ghost function Ranks(s: State, a: Aux): (r: seq<nat>)
    requires |a.place| == |a.owner|
    ensures |r| == |a.place|
  {
    seq(|a.place|, x requires 0 <= x < |a.place| => Rank(s, a, x))
  }

  /** How far the worker is from its next look at the completed queue. A cycle that will find
      it empty costs extra; such a cycle has drained something. */
  function PhaseTerm(s: State): nat {
    match s.phase
    case Handling => 3
    case Top => 2
    case Beginning => if s.completed == [] then 5 else 1
    case Swapping => if s.completed == [] then 4 else 0
  }

  ghost function Measure(s: State, a: Aux): nat
    requires |a.place| == |a.owner|
  {
    8 * Sum(Ranks(s, a)) + PhaseTerm(s)
  }

  lemma {:induction false} SumSmaller(u: seq<nat>, v: seq<nat>, i: nat)
    requires |u| == |v| && forall j :: 0 <= j < |u| ==> u[j] <= v[j]
    ensures Sum(u) <= Sum(v)
    ensures i < |u| && u[i] < v[i] ==> Sum(u) < Sum(v)
  {
    if u != [] {
      SumSmaller(u[1..], v[1..], if i > 0 then i - 1 else |u|);
    }
  }

  // Every slot ranks as before or lower; `x` is one that has moved, if any has.
  ghost predicate Lowers(s: State, a: Aux, s': State, a': Aux, x: nat)
    requires |a.place| == |a.owner| == |a'.place| == |a'.owner|
  {
    && (forall y :: 0 <= y < |a.place| ==> Rank(s', a', y) <= Rank(s, a, y))
    && (x < |a.place| ==> Rank(s', a', x) < Rank(s, a, x))
  }

  lemma LowersMeasure(s: State, a: Aux, s': State, a': Aux, x: nat)
    requires |a.place| == |a.owner| == |a'.place| == |a'.owner|
    requires Lowers(s, a, s', a', x)
    requires if x < |a.place| then PhaseTerm(s') < PhaseTerm(s) + 8 else PhaseTerm(s') < PhaseTerm(s)
    ensures Measure(s', a') < Measure(s, a)
  {
    SumSmaller(Ranks(s', a'), Ranks(s, a), x);
  }

  /** The slot a step moves on; the number of slots if it moves none. */
  ghost function Moved(s: State, step: Step): nat
    requires InBounds(s) && Enabled(s, step) && !step.AcquireSlot?
  {
    match step
    case EnqueueSlot(b, _) => s.backends[b].slot
    case LeaveWait(b) => s.backends[b].slot
    case CancelWait(b) => s.backends[b].slot
    case Die(b) => s.backends[b].slot
    case Finish(b) => s.backends[b].slot
    case DrainQueue => if s.chan.queue == [] then |s.chan.slots| else s.chan.queue[0]
    case BeginOne => s.drained[0]
    case Dispatch => if s.batch == [] then |s.chan.slots| else s.batch[0]
    case ClientReply(x, _) => x
    case SwapCompleted => if s.completed == [] then |s.chan.slots| else s.completed[0]
    case HandleOne => s.local[0]
    case EndCycle => |s.chan.slots|
  }

  // The slot of a backend that moves on, and the slots of the others.
  lemma OthersRankSame(s: State, a: Aux, s': State, a': Aux, b: nat, y: nat)
    requires y < |s.chan.slots| == |a.place| == |a.owner| == |a'.place| == |a'.owner| && SlotOk(s, a, y)
    requires b in s.backends && Attached(s.backends[b]) && s.backends[b].slot != y
    requires a'.place[y] == a.place[y] && a'.owner[y] == a.owner[y]
    requires s'.backends.Keys == s.backends.Keys && forall c :: c in s.backends && c != b ==> s'.backends[c] == s.backends[c]
    ensures Rank(s', a', y) == Rank(s, a, y)
  {
  }

  lemma OwnRankLower(s: State, a: Aux, step: Step)
    requires Inv(s, a) && InBounds(s) && Enabled(s, step)
    requires step.EnqueueSlot? || step.LeaveWait? || step.CancelWait? || step.Die? || step.Finish?
    ensures var x := s.backends[step.b].slot;
      |After(s, a, step).place| == |After(s, a, step).owner| == |a.place|
      && Rank(Next(s, step), After(s, a, step), x) < Rank(s, a, x)
  {
    assert SlotOk(s, a, s.backends[step.b].slot);
  }

  lemma BackendStepLowers(s: State, a: Aux, step: Step)
    requires Inv(s, a) && InBounds(s) && Enabled(s, step)
    requires step.EnqueueSlot? || step.LeaveWait? || step.CancelWait? || step.Die? || step.Finish?
    ensures |After(s, a, step).place| == |After(s, a, step).owner| == |a.place|
    ensures Lowers(s, a, Next(s, step), After(s, a, step), Moved(s, step))
  {
    var x := s.backends[step.b].slot;
    OwnRankLower(s, a, step);
    forall y | 0 <= y < |a.place| && y != x ensures Rank(Next(s, step), After(s, a, step), y) <= Rank(s, a, y) {
      assert SlotOk(s, a, y);
      OthersRankSame(s, a, Next(s, step), After(s, a, step), step.b, y);
    }
  }

  // Moving one slot to a place of lower stage, with or without its backend.
  lemma MoveOneLowers(s: State, a: Aux, s': State, x: nat, q: Place, o: Option<nat>)
    requires x < |a.place| == |a.owner| && s'.backends == s.backends
    requires Stage(q) < Stage(a.place[x]) && o in {None, a.owner[x]}
    ensures Lowers(s, a, s', Move1(a, x, q, o), x)
  {
  }

  lemma OneStepLowers(s: State, a: Aux, step: Step)
    requires Inv(s, a) && InBounds(s) && Enabled(s, step)
    requires step.BeginOne? || step.ClientReply? || step.HandleOne? || step.EndCycle?
    ensures |After(s, a, step).place| == |After(s, a, step).owner| == |a.place|
    ensures Lowers(s, a, Next(s, step), After(s, a, step), Moved(s, step))
  {
    var s', x := Next(s, step), Moved(s, step);
    match step
    case BeginOne =>
      ListBounds(s.drained, a.place, InDrained);
      var canceled := s.chan.slots[x].word == Word.Canceled;
      MoveOneLowers(s, a, s', x, if canceled then InFree else InBatch, if canceled then None else a.owner[x]);
    case ClientReply(_, _) =>
      MoveOneLowers(s, a, s', x, InCompleted, a.owner[x]);
    case HandleOne =>
      ListBounds(s.local, a.place, InLocal);
      MoveOneLowers(s, a, s', x, if a.owner[x].Some? then IsDone else InFree, a.owner[x]);
    case EndCycle =>
  }

  // Moving a whole list to a place of lower stage.
  lemma MoveLowers(s: State, a: Aux, s': State, l: seq<nat>, p: Place, q: Place)
    requires |a.place| == |a.owner| && s'.backends == s.backends && Stage(q) < Stage(p)
    requires forall i :: 0 <= i < |l| ==> l[i] < |a.place| && a.place[l[i]] == p
    ensures Lowers(s, a, s', a.(place := MoveAll(a.place, l, q)), if l == [] then |a.place| else l[0])
  {
  }

  lemma ListStepLowers(s: State, a: Aux, step: Step)
    requires Inv(s, a) && InBounds(s) && Enabled(s, step)
    requires step.DrainQueue? || step.Dispatch? || step.SwapCompleted?
    ensures |After(s, a, step).place| == |After(s, a, step).owner| == |a.place|
    ensures Lowers(s, a, Next(s, step), After(s, a, step), Moved(s, step))
  {
    match step
    case DrainQueue =>
      ListBounds(s.chan.queue, a.place, InQueue);
      MoveLowers(s, a, Next(s, step), s.chan.queue[..DrainCount(s.chan)], InQueue, InDrained);
    case Dispatch =>
      ListBounds(s.batch, a.place, InBatch);
      MoveLowers(s, a, Next(s, step), s.batch, InBatch, InFlight);
    case SwapCompleted =>
      ListBounds(s.completed, a.place, InCompleted);
      MoveLowers(s, a, Next(s, step), s.completed, InCompleted, InLocal);
  }

  // Only the worker's own steps change its phase, and those that move no slot lower the term.
  lemma PhaseSteps(s: State, step: Step)
    requires InBounds(s) && Enabled(s, step) && !step.AcquireSlot?
    requires Slots(s.chan.queue, s.chan) && Slots(s.completed, s.chan)
    ensures PhaseTerm(Next(s, step)) < PhaseTerm(s) + 8
    ensures Moved(s, step) >= |s.chan.slots| ==> PhaseTerm(Next(s, step)) < PhaseTerm(s)
  {
  }

  /** Every step but an acquisition brings the channel closer to rest. */
  lemma StepLowers(s: State, a: Aux, step: Step)
    requires Inv(s, a) && InBounds(s) && Enabled(s, step) && !step.AcquireSlot?
    ensures Inv(Next(s, step), After(s, a, step))
    ensures Measure(Next(s, step), After(s, a, step)) < Measure(s, a)
  {
    StepKeeps(s, a, step);
    if step.EnqueueSlot? || step.LeaveWait? || step.CancelWait? || step.Die? || step.Finish? {
      BackendStepLowers(s, a, step);
    } else if step.DrainQueue? || step.Dispatch? || step.SwapCompleted? {
      ListStepLowers(s, a, step);
    } else {
      OneStepLowers(s, a, step);
    }
    ListBounds(s.chan.queue, a.place, InQueue);
    ListBounds(s.completed, a.place, InCompleted);
    PhaseSteps(s, step);
    LowersMeasure(s, a, Next(s, step), After(s, a, step), Moved(s, step));
  }

  // ---- Paths -----------------------------------------------------------------------------

  /** The steps lead from `s` to `t`, each possible where it is taken. */
  ghost predicate Path(s: State, steps: seq<Step>, t: State)
    decreases |steps|
  {
    if steps == [] then s == t
    else InBounds(s) && Enabled(s, steps[0]) && Path(Next(s, steps[0]), steps[1..], t)
  }

  /** Without acquisitions no path is longer than the measure. */
  lemma {:induction false} PathBounded(s: State, a: Aux, steps: seq<Step>, t: State)
    requires Inv(s, a) && Path(s, steps, t) && forall i :: 0 <= i < |steps| ==> !steps[i].AcquireSlot?
    ensures |steps| <= Measure(s, a)
    decreases |steps|
  {
    if steps != [] {
      StepLowers(s, a, steps[0]);
      PathBounded(Next(s, steps[0]), After(s, a, steps[0]), steps[1..], t);
    }
  }

  /** Steps that need neither an error nor a death. */
  predicate Ordinary(step: Step) {
    !step.AcquireSlot? && !step.CancelWait? && !step.Die?
  }

  ghost predicate AllFree(s: State) {
    forall x: nat :: x < |s.chan.slots| ==> x in s.chan.free
  }

  /** A state with a slot in use is never stuck. */
  lemma SomeStep(s: State, a: Aux, x: nat) returns (step: Step)
    requires Inv(s, a) && InBounds(s) && x < |s.chan.slots| && x !in s.chan.free
    ensures Enabled(s, step) && Ordinary(step)
  {
    assert SlotOk(s, a, x);
    var reply := Reply(true, false);
    match a.place[x]
    case InHand => step := EnqueueSlot(a.owner[x].value, Question("", "", ""));
    case InFlight => step := ClientReply(x, reply);
    case IsDone =>
      var b := a.owner[x].value;
      step := if s.backends[b].Reading? then Finish(b) else LeaveWait(b);
    case _ =>
      match s.phase
      case Top => step := DrainQueue;
      case Beginning => step := if s.drained != [] then BeginOne else Dispatch;
      case Swapping => step := SwapCompleted;
      case Handling => step := if s.local != [] then HandleOne else EndCycle;
  }

  lemma Forward(s: State, a: Aux) returns (step: Step)
    requires Inv(s, a) && InBounds(s) && !AllFree(s)
    ensures Enabled(s, step) && Ordinary(step)
    ensures Inv(Next(s, step), After(s, a, step)) && Measure(Next(s, step), After(s, a, step)) < Measure(s, a)
    ensures |Next(s, step).chan.slots| == |s.chan.slots|
  {
    var x: nat :| x < |s.chan.slots| && x !in s.chan.free;
    step := SomeStep(s, a, x);
    StepLowers(s, a, step);
    ProtocolRuns.StepSizes(s, step);
  }

  lemma {:induction false} DrainsFrom(s: State, a: Aux) returns (steps: seq<Step>, t: State)
    requires Inv(s, a)
    ensures Path(s, steps, t) && AllFree(t) && |t.chan.slots| == |s.chan.slots|
    ensures forall i :: 0 <= i < |steps| ==> Ordinary(steps[i])
    decreases Measure(s, a)
  {
    InvInBounds(s, a);
    if AllFree(s) {
      return [], s;
    }
    var step := Forward(s, a);
    var rest;
    rest, t := DrainsFrom(Next(s, step), After(s, a, step));
    PathPrepend(s, step, rest, t);
    steps := [step] + rest;
  }

  lemma PathPrepend(s: State, step: Step, rest: seq<Step>, t: State)
    requires InBounds(s) && Enabled(s, step) && Path(Next(s, step), rest, t)
    ensures Path(s, [step] + rest, t)
  {
    assert ([step] + rest)[1..] == rest;
  }

  /** From every reachable state the worker, the client and the waiting backends can bring all
      slots back to the free list, and there is a bound on how long anything but new
      acquisitions can go on. */
  lemma DrainsToQuiescence(states: seq<State>, run: seq<Step>, n: nat) returns (steps: seq<Step>, t: State, bound: nat)
    requires ProtocolRuns.IsRun(states, run) && n <= |run|
    ensures Path(states[n], steps, t) && AllFree(t) && |t.chan.slots| == |states[n].chan.slots|
    ensures forall i :: 0 <= i < |steps| ==> Ordinary(steps[i])
    ensures forall other: seq<Step>, u: State :: Path(states[n], other, u) && (forall i :: 0 <= i < |other| ==> !other[i].AcquireSlot?) ==>
      |other| <= bound
  {
    var a := ProtocolRuns.Reached(states, run, n);
    steps, t := DrainsFrom(states[n], a);
    bound := Measure(states[n], a);
    forall other: seq<Step>, u: State | Path(states[n], other, u) && (forall i :: 0 <= i < |other| ==> !other[i].AcquireSlot?)
      ensures |other| <= bound
    {
      PathBounded(states[n], a, other, u);
    }
  }
}
