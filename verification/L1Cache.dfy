/** The per-backend first-level cache: two-way sets with a one-bit victim marker. */
module L1Cache {
  import opened CacheTypes

  const NUM_SETS: nat := 16384

  /** The digest of a key, all that this level compares. */
  datatype Digest = Digest(low: nat, high: nat)

  datatype Entry = Entry(valid: bool, allowed: bool, gen: nat, expiresAt: nat, digest: Digest)

  datatype Set = Set(ways: seq<Entry>, victim: nat)

  // The expiry is an unsigned 64-bit field and the clock is converted to it for the comparison.
  function Unsigned(t: int): (u: nat)
    ensures u < U64
  {
    t % U64
  }

  function SetOf(d: Digest): (s: nat)
    ensures s < NUM_SETS
  {
    d.low % NUM_SETS
  }

  predicate Live(e: Entry, gen: nat, now: int) {
    !(e.expiresAt <= Unsigned(now)) && e.gen == gen
  }

  predicate Holds(s: Set, d: Digest, i: nat)
    requires i < |s.ways|
  {
    s.ways[i].valid && s.ways[i].digest == d
  }

  ghost predicate SetInv(s: Set, index: nat) {
    && |s.ways| == 2 && s.victim < 2
    && (forall i :: 0 <= i < 2 && s.ways[i].valid ==> SetOf(s.ways[i].digest) == index)
    && !(s.ways[0].valid && s.ways[1].valid && s.ways[0].digest == s.ways[1].digest)
  }

  // ---- Operations on one set -------------------------------------------------------------

  /** First way that holds the digest; two if there is none. */
  function FindWay(s: Set, d: Digest): (i: nat)
    requires |s.ways| == 2
    ensures i <= 2
    ensures i < 2 ==> Holds(s, d, i)
    ensures i == 2 ==> !Holds(s, d, 0) && !Holds(s, d, 1)
  {
    if Holds(s, d, 0) then 0 else if Holds(s, d, 1) then 1 else 2
  }

  function LookupResult(s: Set, d: Digest, gen: nat, now: int): Option<bool>
    requires |s.ways| == 2
  {
    var i := FindWay(s, d);
    if i < 2 && Live(s.ways[i], gen, now) then Some(s.ways[i].allowed) else None
  }

  function LookupSet(s: Set, d: Digest, gen: nat, now: int): (s': Set)
    requires |s.ways| == 2
    ensures |s'.ways| == 2
  {
    var i := FindWay(s, d);
    if i == 2 then s
    else if Live(s.ways[i], gen, now) then s.(victim := 1 - i)
    else s.(ways := s.ways[i := s.ways[i].(valid := false)])
  }

  function StoreWay(s: Set, d: Digest): (i: nat)
    requires |s.ways| == 2
  {
    var i := FindWay(s, d);
    if i < 2 then i
    else if !s.ways[0].valid then 0
    else if !s.ways[1].valid then 1
    else s.victim
  }

  function StoreSet(s: Set, e: Entry): (s': Set)
    requires |s.ways| == 2 && s.victim < 2
    ensures |s'.ways| == 2
  {
    var i := StoreWay(s, e.digest);
    Set(s.ways[i := e], 1 - i)
  }

  function Dropped(e: Entry, gen: Option<nat>): Entry {
    if gen == None || e.gen == gen.value then e.(valid := false) else e
  }

  /** Invalidation of every entry, or of the entries of one generation. */
  function InvalidateSet(s: Set, gen: Option<nat>): (s': Set)
    requires |s.ways| == 2
    ensures |s'.ways| == 2
  {
    Set([Dropped(s.ways[0], gen), Dropped(s.ways[1], gen)], if gen == None then 0 else s.victim)
  }

  // ---- A set is a least-recently-used list -----------------------------------------------

  /** The valid entries of a set, most recently used first. */
  function Recency(s: Set): (r: seq<Entry>)
    requires |s.ways| == 2 && s.victim < 2
    ensures |r| <= 2
  {
    var older, recent := s.ways[s.victim], s.ways[1 - s.victim];
    (if recent.valid then [recent] else []) + (if older.valid then [older] else [])
  }

  function Position(list: seq<Entry>, d: Digest): (i: nat)
    ensures i <= |list| && (i < |list| ==> list[i].digest == d)
  {
    if list == [] || list[0].digest == d then 0 else 1 + Position(list[1..], d)
  }

  function Remove(list: seq<Entry>, d: Digest): (r: seq<Entry>)
    ensures |r| <= |list|
  {
    var i := Position(list, d);
    if i < |list| then list[..i] + list[i + 1..] else list
  }

  /** Reference: an LRU list moves a hit to the front and drops a dead entry. */
  function LruLookup(list: seq<Entry>, d: Digest, gen: nat, now: int): seq<Entry> {
    var i := Position(list, d);
    if i == |list| then list
    else if Live(list[i], gen, now) then [list[i]] + Remove(list, d)
    else Remove(list, d)
  }

  /** Reference: a store goes to the front, and only the least recent entry makes room. */
  function LruStore(list: seq<Entry>, e: Entry): seq<Entry> {
    var rest := Remove(list, e.digest);
    [e] + if |rest| > 1 then rest[..1] else rest
  }

  lemma SmallLists(list: seq<Entry>, d: Digest)
    requires |list| <= 2
    ensures Position(list, d) ==
      if |list| > 0 && list[0].digest == d then 0
      else if |list| > 1 && list[1].digest == d then 1 else |list|
  {
  }

  lemma RecencyPosition(s: Set, index: nat, d: Digest)
    requires SetInv(s, index)
    ensures var i, p := FindWay(s, d), Position(Recency(s), d);
      if i < 2 then p < |Recency(s)| && Recency(s)[p] == s.ways[i] else p == |Recency(s)|
  {
    SmallLists(Recency(s), d);
  }

  // What is left when a digest is removed is the valid entry of the other way.
  lemma RemoveFound(s: Set, index: nat, d: Digest)
    requires SetInv(s, index) && FindWay(s, d) < 2
    ensures var other := s.ways[1 - FindWay(s, d)]; Remove(Recency(s), d) == if other.valid then [other] else []
  {
    SmallLists(Recency(s), d);
  }

  lemma LookupRecency(s: Set, index: nat, d: Digest, gen: nat, now: int)
    requires SetInv(s, index)
    ensures SetInv(LookupSet(s, d, gen, now), index)
    ensures var i, s' := FindWay(s, d), LookupSet(s, d, gen, now);
      Recency(s') ==
        if i == 2 then Recency(s)
        else (if Live(s.ways[i], gen, now) then [s.ways[i]] else []) + (if s.ways[1 - i].valid then [s.ways[1 - i]] else [])
  {
  }

  /** A lookup acts on the set as on the LRU list, and answers with the list's live entry. */
  lemma LookupIsLru(s: Set, index: nat, d: Digest, gen: nat, now: int)
    requires SetInv(s, index)
    ensures SetInv(LookupSet(s, d, gen, now), index)
    ensures Recency(LookupSet(s, d, gen, now)) == LruLookup(Recency(s), d, gen, now)
    ensures LookupResult(s, d, gen, now) ==
      var i := Position(Recency(s), d);
      if i < |Recency(s)| && Live(Recency(s)[i], gen, now) then Some(Recency(s)[i].allowed) else None
  {
    RecencyPosition(s, index, d);
    LookupRecency(s, index, d, gen, now);
    if FindWay(s, d) < 2 {
      RemoveFound(s, index, d);
    }
  }

  /** And so does a store. */
  lemma StoreIsLru(s: Set, index: nat, e: Entry)
    requires SetInv(s, index) && e.valid && SetOf(e.digest) == index
    ensures SetInv(StoreSet(s, e), index)
    ensures Recency(StoreSet(s, e)) == LruStore(Recency(s), e)
  {
    SmallLists(Recency(s), e.digest);
  }

  // ---- The whole cache as a value --------------------------------------------------------

  type L1 = seq<Set>

  ghost predicate Inv(c: L1) {
    |c| == NUM_SETS && forall s :: 0 <= s < NUM_SETS ==> SetInv(c[s], s)
  }

  ghost predicate Empty(c: L1) {
    Inv(c) && forall s, i :: 0 <= s < NUM_SETS && 0 <= i < 2 ==> !c[s].ways[i].valid
  }

  datatype Op =
    | Lookup(digest: Digest, gen: nat, now: int)
    | Store(entry: Entry)
    | Invalidate(stale: Option<nat>)

  predicate OpOk(op: Op) {
    op.Store? ==> op.entry.valid
  }

  function Step(c: L1, op: Op): (c': L1)
    requires |c| == NUM_SETS && forall s :: 0 <= s < NUM_SETS ==> |c[s].ways| == 2 && c[s].victim < 2
    ensures |c'| == NUM_SETS
  {
    match op
    case Lookup(d, gen, now) => c[SetOf(d) := LookupSet(c[SetOf(d)], d, gen, now)]
    case Store(e) => c[SetOf(e.digest) := StoreSet(c[SetOf(e.digest)], e)]
    case Invalidate(stale) => seq(NUM_SETS, s requires 0 <= s < NUM_SETS => InvalidateSet(c[s], stale))
  }

  lemma StepInv(c: L1, op: Op)
    requires Inv(c) && OpOk(op)
    ensures Inv(Step(c, op))
  {
    match op
    case Lookup(d, gen, now) => LookupIsLru(c[SetOf(d)], SetOf(d), d, gen, now);
    case Store(e) => StoreIsLru(c[SetOf(e.digest)], SetOf(e.digest), e);
    case Invalidate(stale) =>
  }

  /** Does this operation use the entry of digest `d`: a store of it or a hit on it? */
  predicate Touches(c: L1, op: Op, d: Digest)
    requires |c| == NUM_SETS && forall s :: 0 <= s < NUM_SETS ==> |c[s].ways| == 2
  {
    match op
    case Lookup(e, gen, now) => e == d && LookupResult(c[SetOf(d)], d, gen, now).Some?
    case Store(e) => e.digest == d
    case Invalidate(_) => false
  }

  ghost predicate Transition(states: seq<L1>, ops: seq<Op>, n: nat)
    requires n < |ops| && |states| == |ops| + 1
  {
    Inv(states[n]) ==> states[n + 1] == Step(states[n], ops[n])
  }

  /** A run from the empty cache: the operations and the states they lead through. */
  ghost predicate IsRun(states: seq<L1>, ops: seq<Op>)
    ensures IsRun(states, ops) ==> Shape(states, ops)
  {
    && |states| == |ops| + 1 && Empty(states[0])
    && (forall n :: 0 <= n < |ops| ==> OpOk(ops[n]))
    && (forall n: nat :: n < |ops| ==> Transition(states, ops, n))
    && (RunShape(states, ops); true)
  }

  ghost predicate Shape(states: seq<L1>, ops: seq<Op>) {
    && |states| == |ops| + 1
    && (forall n :: 0 <= n < |states| ==> Inv(states[n]))
    && (forall n :: 0 <= n < |ops| ==> OpOk(ops[n]))
  }

  lemma RunShape(states: seq<L1>, ops: seq<Op>)
    requires |states| == |ops| + 1 && Empty(states[0])
    requires forall n :: 0 <= n < |ops| ==> OpOk(ops[n])
    requires forall n: nat :: n < |ops| ==> Transition(states, ops, n)
    ensures Shape(states, ops)
  {
    var n := 0;
    while n < |ops|
      invariant n <= |ops|
      invariant forall m :: 0 <= m <= n ==> Inv(states[m])
    {
      assert Transition(states, ops, n);
      StepInv(states[n], ops[n]);
      n := n + 1;
    }
  }

  /** The time of the last use of `d` among the first `n` operations, counting from one; zero
      for never. */
  ghost function LastUse(states: seq<L1>, ops: seq<Op>, n: nat, d: Digest): (t: nat)
    requires Shape(states, ops) && n <= |ops|
    ensures t <= n
    ensures t > 0 ==> Touches(states[t - 1], ops[t - 1], d)
    ensures forall u :: t <= u < n ==> !Touches(states[u], ops[u], d)
  {
    if n == 0 then 0
    else if Touches(states[n - 1], ops[n - 1], d) then n
    else LastUse(states, ops, n - 1, d)
  }

  /** The flip bit is exact LRU: after every run from the empty cache, in every full set, the
      victim marker names the entry whose last use lies further back. */
  lemma {:induction false} VictimIsLeastRecent(states: seq<L1>, ops: seq<Op>, n: nat, s: nat)
    requires IsRun(states, ops) && n <= |ops| && s < NUM_SETS
    ensures var pair := states[n][s];
      pair.ways[0].valid && pair.ways[1].valid ==>
        LastUse(states, ops, n, pair.ways[pair.victim].digest) < LastUse(states, ops, n, pair.ways[1 - pair.victim].digest)
  {
    if n > 0 {
      VictimIsLeastRecent(states, ops, n - 1, s);
      SetAfter(states, ops, n - 1, s);
      assert SetInv(states[n][s], s);
    }
  }

  // A full set after one operation: either it is as before and its cold key was not used, or
  // the operation used its hot key and not the cold one.
  ghost predicate ColdUntouched(c: L1, c': L1, op: Op, s: nat)
    requires Inv(c) && Inv(c') && s < NUM_SETS
  {
    c'[s].ways[0].valid && c'[s].ways[1].valid ==>
      && !Touches(c, op, c'[s].ways[c'[s].victim].digest)
      && (Touches(c, op, c'[s].ways[1 - c'[s].victim].digest) || c[s] == c'[s])
  }

  lemma StepColdUntouched(c: L1, op: Op, s: nat)
    requires Inv(c) && Inv(Step(c, op)) && OpOk(op) && s < NUM_SETS
    ensures ColdUntouched(c, Step(c, op), op, s)
  {
    assert SetInv(c[s], s) && SetInv(Step(c, op)[s], s);
  }

  lemma SetAfter(states: seq<L1>, ops: seq<Op>, n: nat, s: nat)
    requires IsRun(states, ops) && n < |ops| && s < NUM_SETS
    ensures ColdUntouched(states[n], states[n + 1], ops[n], s)
  {
    assert Transition(states, ops, n);
    StepColdUntouched(states[n], ops[n], s);
  }

  /** So an eviction always removes the least recently used key: whenever a store drops
      another key of its set, that key's last use lies before the last use of the key kept. */
  lemma EvictsLeastRecent(states: seq<L1>, ops: seq<Op>, n: nat, gone: nat)
    requires IsRun(states, ops) && n < |ops| && ops[n].Store? && gone < 2
    requires Evicts(states[n][SetOf(ops[n].entry.digest)], states[n + 1][SetOf(ops[n].entry.digest)], ops[n].entry, gone)
    ensures var before, after := states[n][SetOf(ops[n].entry.digest)], states[n + 1][SetOf(ops[n].entry.digest)];
      && before.ways[1 - gone].valid && before.ways[1 - gone] == after.ways[1 - gone]
      && LastUse(states, ops, n, before.ways[gone].digest) < LastUse(states, ops, n, before.ways[1 - gone].digest)
  {
    var s := SetOf(ops[n].entry.digest);
    assert Transition(states, ops, n);
    assert SetInv(states[n][s], s);
    VictimIsLeastRecent(states, ops, n, s);
  }

  // The store of `e` turns the set into `after` and drops the valid entry of way `gone`.
  ghost predicate Evicts(before: Set, after: Set, e: Entry, gone: nat)
    requires |before.ways| == 2 && |after.ways| == 2 && gone < 2
  {
    before.ways[gone].valid && before.ways[gone].digest != e.digest && after.ways[gone].digest == e.digest
  }

  // ---- The unsigned clock comparison -----------------------------------------------------

  /** Comparing expiry and clock as unsigned numbers agrees with comparing them as times
      exactly when both lie on the same side of the epoch. */
  lemma UnsignedComparisonExactlyWhen(expiresAt: int, now: int)
    requires -0x8000_0000_0000_0000 <= expiresAt < 0x8000_0000_0000_0000
    requires -0x8000_0000_0000_0000 <= now < 0x8000_0000_0000_0000
    ensures (Unsigned(expiresAt) <= Unsigned(now) <==> expiresAt <= now) <==> (expiresAt < 0 <==> now < 0)
  {
    assert Unsigned(expiresAt) == if expiresAt < 0 then expiresAt + U64 else expiresAt;
    assert Unsigned(now) == if now < 0 then now + U64 else now;
  }

  /** For times after the epoch an entry is live exactly before its expiry, in its generation. */
  lemma LiveExactlyWhen(e: Entry, gen: nat, now: int, expiresAt: int)
    requires e.expiresAt == Unsigned(expiresAt)
    requires 0 <= expiresAt < 0x8000_0000_0000_0000 && 0 <= now < 0x8000_0000_0000_0000
    ensures Live(e, gen, now) <==> now < expiresAt && e.gen == gen
  {
  }

  /** Invalidation makes the entries of one generation, or all of them, invalid, and leaves
      every other entry valid and where it is. */
  lemma InvalidatesExactly(c: L1, gen: Option<nat>, s: nat, i: nat)
    requires Inv(c) && s < NUM_SETS && i < 2
    ensures var e, e' := c[s].ways[i], Step(c, Op.Invalidate(gen))[s].ways[i];
      && (e'.valid <==> e.valid && gen.Some? && e.gen != gen.value)
      && e' == e.(valid := e'.valid)
    ensures Step(c, Op.Invalidate(gen))[s].victim == if gen.None? then 0 else c[s].victim
  {
    assert SetInv(c[s], s);
  }

  // ---- The cache updated in place --------------------------------------------------------

  class BackendCache {
    const ways: array2<Entry>
    const victims: array<nat>

    ghost function SetAt(s: nat): Set
      requires ways.Length0 == NUM_SETS && ways.Length1 == 2 && victims.Length == NUM_SETS && s < NUM_SETS
      reads ways, victims
    {
      Set([ways[s, 0], ways[s, 1]], victims[s])
    }

    ghost predicate Shaped() {
      ways.Length0 == NUM_SETS && ways.Length1 == 2 && victims.Length == NUM_SETS
    }

    ghost function State(): (c: L1)
      requires Shaped()
      reads ways, victims
      ensures |c| == NUM_SETS && forall s :: 0 <= s < NUM_SETS ==> c[s] == SetAt(s)
    {
      seq(NUM_SETS, s requires 0 <= s < NUM_SETS reads ways, victims => SetAt(s))
    }

    ghost predicate Valid()
      reads ways, victims
    {
      Shaped() && Inv(State())
    }

    constructor ()
      ensures Valid() && Empty(State()) && fresh(ways) && fresh(victims)
    {
      var blank := Entry(false, false, 0, 0, Digest(0, 0));
      ways := new Entry[NUM_SETS, 2]((_, _) => blank);
      victims := new nat[NUM_SETS](_ => 0);
    }

    // The way just used is hot; the other one becomes the victim.
    method MarkUsed(s: nat, way: nat)
      requires Shaped() && s < NUM_SETS && way < 2
      modifies victims
      ensures victims[s] == 1 - way
      ensures forall t :: 0 <= t < NUM_SETS && t != s ==> victims[t] == old(victims[t])
    {
      victims[s] := 1 - way;
    }

    method Lookup(d: Digest, gen: nat, now: int) returns (hit: bool, allowed: bool)
      requires Valid()
      modifies ways, victims
      ensures Valid()
      ensures State() == Step(old(State()), Op.Lookup(d, gen, now))
      ensures hit == LookupResult(old(State())[SetOf(d)], d, gen, now).Some?
      ensures hit ==> LookupResult(old(State())[SetOf(d)], d, gen, now) == Some(allowed)
    {
      StepInv(State(), Op.Lookup(d, gen, now));
      var s := SetOf(d);
      ghost var before := State();
      var i := 0;
      while i < 2
        invariant 0 <= i <= 2
        invariant State() == before
        invariant FindWay(before[s], d) >= i
      {
        if ways[s, i].valid && ways[s, i].digest == d {
          if ways[s, i].expiresAt <= Unsigned(now) {
            ways[s, i] := ways[s, i].(valid := false);
            assert SetAt(s) == LookupSet(before[s], d, gen, now);
            assert State() == before[s := SetAt(s)];
            return false, false;
          }
          if ways[s, i].gen != gen {
            ways[s, i] := ways[s, i].(valid := false);
            assert SetAt(s) == LookupSet(before[s], d, gen, now);
            assert State() == before[s := SetAt(s)];
            return false, false;
          }
          MarkUsed(s, i);
          assert State() == before[s := SetAt(s)];
          return true, ways[s, i].allowed;
        }
        i := i + 1;
      }
      return false, false;
    }

    method Store(d: Digest, gen: nat, expiresAt: int, allowed: bool)
      requires Valid()
      modifies ways, victims
      ensures Valid()
      ensures State() == Step(old(State()), Op.Store(Entry(true, allowed, gen, Unsigned(expiresAt), d)))
    {
      var entry := Entry(true, allowed, gen, Unsigned(expiresAt), d);
      StepInv(State(), Op.Store(entry));
      var s := SetOf(d);
      ghost var before := State();
      var emptyWay := 2;
      var i := 0;
      while i < 2
        invariant 0 <= i <= 2
        invariant State() == before
        invariant FindWay(before[s], d) >= i
        invariant emptyWay == if i > 0 && !before[s].ways[0].valid then 0
                              else if i > 1 && !before[s].ways[1].valid then 1 else 2
      {
        if !ways[s, i].valid {
          if emptyWay == 2 {
            emptyWay := i;
          }
        } else if ways[s, i].digest == d {
          ways[s, i] := ways[s, i].(allowed := allowed, expiresAt := Unsigned(expiresAt), gen := gen);
          MarkUsed(s, i);
          assert State() == before[s := SetAt(s)];
          assert SetAt(s) == StoreSet(before[s], entry);
          return;
        }
        i := i + 1;
      }
      var target := if emptyWay < 2 then emptyWay else victims[s];
      ways[s, target] := entry;
      MarkUsed(s, target);
      assert State() == before[s := SetAt(s)];
      assert SetAt(s) == StoreSet(before[s], entry);
    }

    method InvalidateAll()
      requires Valid()
      modifies ways, victims
      ensures Valid()
      ensures State() == Step(old(State()), Op.Invalidate(None))
      ensures Empty(State())
    {
      StepInv(State(), Op.Invalidate(None));
      ghost var before := State();
      var s := 0;
      while s < NUM_SETS
        invariant 0 <= s <= NUM_SETS
        invariant forall t :: 0 <= t < s ==> SetAt(t) == InvalidateSet(before[t], None)
        invariant forall t :: s <= t < NUM_SETS ==> SetAt(t) == before[t]
      {
        ways[s, 0] := ways[s, 0].(valid := false);
        ways[s, 1] := ways[s, 1].(valid := false);
        victims[s] := 0;
        s := s + 1;
      }
    }

    method InvalidateByGeneration(gen: nat)
      requires Valid()
      modifies ways
      ensures Valid()
      ensures State() == Step(old(State()), Op.Invalidate(Some(gen)))
    {
      StepInv(State(), Op.Invalidate(Some(gen)));
      ghost var before := State();
      var s := 0;
      while s < NUM_SETS
        invariant 0 <= s <= NUM_SETS
        invariant forall t :: 0 <= t < s ==> SetAt(t) == InvalidateSet(before[t], Some(gen))
        invariant forall t :: s <= t < NUM_SETS ==> SetAt(t) == before[t]
      {
        var w := 0;
        while w < 2
          invariant 0 <= w <= 2
          invariant forall t :: 0 <= t < NUM_SETS && t != s ==> SetAt(t) == if t < s then InvalidateSet(before[t], Some(gen)) else before[t]
          invariant ways[s, 0] == if w > 0 then Dropped(before[s].ways[0], Some(gen)) else before[s].ways[0]
          invariant ways[s, 1] == if w > 1 then Dropped(before[s].ways[1], Some(gen)) else before[s].ways[1]
        {
          if ways[s, w].valid && ways[s, w].gen == gen {
            ways[s, w] := ways[s, w].(valid := false);
          }
          w := w + 1;
        }
        s := s + 1;
      }
    }
  }
}
