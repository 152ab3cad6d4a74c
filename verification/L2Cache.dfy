/** The shared second-level cache: an array of entries, a hash index from keys to slots and a
    clock hand. The first half is the cache as a value with its laws, the second half the
    shared structure that is updated in place. */
module L2Cache {
  import opened Arithmetic
  import opened CacheTypes
  import opened ClockSweep

  datatype Entry = Entry(key: Key, allowed: bool, gen: nat, expiresAt: int, usage: nat, valid: bool)

  datatype L2 = L2(entries: seq<Entry>, index: map<Key, nat>, hand: nat, generation: nat)

  datatype Verdict = Verdict(allowed: bool, expiresAt: int)

  // ---- Observers -------------------------------------------------------------------------

  predicate Expired(generation: nat, e: Entry, now: int) {
    !e.valid || e.expiresAt <= now || e.gen != generation
  }

  function HashSize(capacity: nat): nat {
    capacity * 2
  }

  /** How often the hand may still pass each slot: nothing for an entry that is not live. */
  ghost function Effs(c: L2, now: int): (r: seq<nat>)
    ensures |r| == |c.entries|
  {
    seq(|c.entries|, i requires 0 <= i < |c.entries| =>
      if Expired(c.generation, c.entries[i], now) then 0 else c.entries[i].usage)
  }

  /** The index maps a key to a slot exactly when that slot is valid and holds the key. */
  ghost predicate IndexExact(c: L2) {
    && (forall k :: k in c.index ==>
          c.index[k] < |c.entries| && c.entries[c.index[k]].valid && c.entries[c.index[k]].key == k)
    && (forall i :: 0 <= i < |c.entries| && c.entries[i].valid ==>
          c.entries[i].key in c.index && c.index[c.entries[i].key] == i)
  }

  ghost predicate Inv(c: L2) {
    && HandOk(c)
    && IndexExact(c)
    && forall i :: 0 <= i < |c.entries| && c.entries[i].valid ==> c.entries[i].usage <= USAGE_MAX
  }

  ghost predicate Initial(c: L2) {
    && 0 < |c.entries| < U32 && c.hand == 0 && c.generation == 0
    && c.index == map[]
    && forall i :: 0 <= i < |c.entries| ==> !c.entries[i].valid
  }

  // ---- Operations ------------------------------------------------------------------------

  ghost function Decayed(e: Entry, passes: nat): Entry {
    e.(usage := if passes <= e.usage then e.usage - passes else 0)
  }

  ghost function AfterSweep(entries: seq<Entry>, hand: nat, k: nat): (r: seq<Entry>)
    requires |entries| > 0
    ensures |r| == |entries|
  {
    seq(|entries|, j requires 0 <= j < |entries| => Decayed(entries[j], Passes(hand, |entries|, k, j)))
  }

  /** The sweep's retry counter runs out only when there is a single slot and it is in use. */
  ghost predicate GivesUp(eff: seq<nat>) {
    |eff| == 1 && eff[0] > 0
  }

  function NewEntry(key: Key, expiresAt: int, allowed: bool, generation: nat): Entry {
    Entry(key, allowed, generation, expiresAt, USAGE_MAX, true)
  }

  function LookupResult(c: L2, key: Key, now: int): Option<Verdict>
    requires key in c.index ==> c.index[key] < |c.entries|
  {
    if key !in c.index || Expired(c.generation, c.entries[c.index[key]], now) then None
    else Some(Verdict(c.entries[c.index[key]].allowed, c.entries[c.index[key]].expiresAt))
  }

  function LookupState(c: L2, key: Key, now: int): L2
    requires key in c.index ==> c.index[key] < |c.entries|
  {
    if key !in c.index then c
    else
      var e := c.entries[c.index[key]];
      var usage := if Expired(c.generation, e, now) then 0 else if e.usage < USAGE_MAX then e.usage + 1 else e.usage;
      c.(entries := c.entries[c.index[key] := e.(usage := usage)])
  }

  /** What a sweep leaves behind, with the hand one past the slot it looked at last. */
  ghost function SweepState(c: L2, now: int): (c': L2)
    requires 0 < |c.entries|
    ensures |c'.entries| == |c.entries|
  {
    var k := if GivesUp(Effs(c, now)) then 1 else StopStep(Effs(c, now), c.hand);
    c.(entries := AfterSweep(c.entries, c.hand, k),
       hand := (c.hand + if GivesUp(Effs(c, now)) then 1 else k + 1) % U32)
  }

  ghost function StoreState(c: L2, key: Key, now: int, expiresAt: int, allowed: bool): L2
    requires 0 < |c.entries|
    requires key in c.index ==> c.index[key] < |c.entries|
  {
    var stored := NewEntry(key, expiresAt, allowed, c.generation);
    var eff := Effs(c, now);
    if key in c.index then c.(entries := c.entries[c.index[key] := stored])
    else if GivesUp(eff) then SweepState(c, now)
    else
      var v := VictimSlot(eff, c.hand);
      var s := SweepState(c, now);
      s.(entries := s.entries[v := stored], index := Without(c.index, s.entries[v])[key := v])
  }

  function Without(index: map<Key, nat>, victim: Entry): map<Key, nat> {
    if victim.valid then index - {victim.key} else index
  }

  ghost predicate HandOk(c: L2) {
    0 < |c.entries| < U32 && c.hand < U32
  }

  // The cache after `k` turns of the sweep loop.
  ghost function SweepAt(c: L2, k: nat): (c': L2)
    requires HandOk(c)
    ensures HandOk(c') && |c'.entries| == |c.entries|
  {
    c.(entries := AfterSweep(c.entries, c.hand, k), hand := (c.hand + k) % U32)
  }

  lemma SweepBegins(c: L2)
    requires HandOk(c)
    ensures SweepAt(c, 0) == c
  {
    assert c.entries == AfterSweep(c.entries, c.hand, 0);
  }

  lemma AfterOneMore(entries: seq<Entry>, hand: nat, k: nat)
    requires |entries| > 0
    requires var v := Visit(hand, |entries|, k); Passes(hand, |entries|, k, v) < entries[v].usage
    ensures var v := Visit(hand, |entries|, k);
      var before := AfterSweep(entries, hand, k);
      AfterSweep(entries, hand, k + 1) == before[v := before[v].(usage := before[v].usage - 1)]
  {
  }

  lemma HandTurn(hand: nat, cap: nat, k: nat)
    requires cap > 0
    ensures (hand + k) % U32 % cap == Visit(hand, cap, k)
    ensures ((hand + k) % U32 + 1) % U32 == (hand + k + 1) % U32
  {
  }

  // One turn of the sweep loop: it stops at a slot that is expired or used up, and otherwise
  // takes one unit from it.
  lemma SweepTurn(c: L2, now: int, k: nat)
    requires HandOk(c) && RunsPast(Effs(c, now), c.hand, k)
    ensures var s := SweepAt(c, k);
      var v := s.hand % |s.entries|;
      var e := s.entries[v];
      && v == Visit(c.hand, |c.entries|, k)
      && (if StopsBy(Effs(c, now), c.hand, k) then Expired(c.generation, e, now) || e.usage == 0
          else
            && !Expired(c.generation, e, now) && e.usage > 0
            && SweepAt(c, k + 1) == s.(entries := s.entries[v := e.(usage := e.usage - 1)], hand := (s.hand + 1) % U32)
            && RunsPast(Effs(c, now), c.hand, k + 1)
            && k + 1 <= Sum(Effs(c, now)))
  {
    var eff := Effs(c, now);
    HandTurn(c.hand, |c.entries|, k);
    PassesWithinBudget(eff, c.hand, k, Visit(c.hand, |c.entries|, k));
    if !StopsBy(eff, c.hand, k) {
      AfterOneMore(c.entries, c.hand, k);
      RunsPastMore(eff, c.hand, k);
    }
  }

  // ---- Refinement of a bounded map -------------------------------------------------------

  datatype Binding = Binding(allowed: bool, expiresAt: int, gen: nat)

  /** The cache as a finite map. */
  ghost function View(c: L2): map<Key, Binding>
    requires IndexExact(c)
  {
    map k | k in c.index :: var e := c.entries[c.index[k]]; Binding(e.allowed, e.expiresAt, e.gen)
  }

  predicate Live(b: Binding, generation: nat, now: int) {
    now < b.expiresAt && b.gen == generation
  }

  lemma InitialInv(c: L2)
    requires Initial(c)
    ensures Inv(c) && View(c) == map[] && Potential(c) == 0
  {
    var w := ValidUsage(c);
    SumBounded(w, 0);
  }

  /** A lookup answers with the live binding of the abstract map and changes no binding. */
  lemma LookupRefines(c: L2, key: Key, now: int)
    requires Inv(c)
    ensures var c' := LookupState(c, key, now);
      && Inv(c') && View(c') == View(c)
      && c'.generation == c.generation && |c'.entries| == |c.entries|
    ensures LookupResult(c, key, now) ==
      if key in View(c) && Live(View(c)[key], c.generation, now)
      then Some(Verdict(View(c)[key].allowed, View(c)[key].expiresAt)) else None
  {
    var c' := LookupState(c, key, now);
    assert forall i :: 0 <= i < |c.entries| ==> c'.entries[i].(usage := 0) == c.entries[i].(usage := 0);
  }

  // Entries that differ in nothing but smaller usage counts.
  ghost predicate Worn(was: seq<Entry>, now: seq<Entry>) {
    && |now| == |was|
    && forall j :: 0 <= j < |was| ==>
         now[j] == was[j].(usage := now[j].usage) && now[j].usage <= was[j].usage
  }

  lemma AfterSweepWorn(entries: seq<Entry>, hand: nat, k: nat)
    requires |entries| > 0
    ensures Worn(entries, AfterSweep(entries, hand, k))
  {
  }

  lemma WornKeeps(c: L2, worn: seq<Entry>, hand: nat)
    requires Inv(c) && Worn(c.entries, worn) && hand < U32
    ensures var c' := c.(entries := worn, hand := hand); Inv(c') && View(c') == View(c)
  {
    var c' := c.(entries := worn, hand := hand);
    assert IndexExact(c');
  }

  // Putting an entry into slot v, in place of whatever was there.
  lemma PutEntry(c: L2, v: nat, e: Entry)
    requires Inv(c) && v < |c.entries| && e.valid && e.usage <= USAGE_MAX
    requires e.key in c.index ==> c.index[e.key] == v
    ensures var c' := c.(entries := c.entries[v := e], index := Without(c.index, c.entries[v])[e.key := v]);
      && Inv(c')
      && View(c') == (View(c) - (if c.entries[v].valid then {c.entries[v].key} else {}))
                       [e.key := Binding(e.allowed, e.expiresAt, e.gen)]
  {
    var c' := c.(entries := c.entries[v := e], index := Without(c.index, c.entries[v])[e.key := v]);
    assert IndexExact(c');
  }

  /** A store updates the one binding of a key that is present; otherwise it inserts one and
      drops at most the binding of the slot chosen by the sweep; it changes no other binding. */
  lemma StoreRefines(c: L2, key: Key, now: int, expiresAt: int, allowed: bool)
    requires Inv(c)
    ensures var c' := StoreState(c, key, now, expiresAt, allowed);
      && Inv(c') && c'.generation == c.generation && |c'.entries| == |c.entries|
      && View(c') ==
           (if key in View(c) then View(c)[key := Binding(allowed, expiresAt, c.generation)]
            else if GivesUp(Effs(c, now)) then View(c)
            else (View(c) - Evicted(c, now))[key := Binding(allowed, expiresAt, c.generation)])
  {
    var stored := NewEntry(key, expiresAt, allowed, c.generation);
    if key in c.index {
      PutEntry(c, c.index[key], stored);
      assert Without(c.index, c.entries[c.index[key]])[key := c.index[key]] == c.index;
    } else if GivesUp(Effs(c, now)) {
      AfterSweepWorn(c.entries, c.hand, 1);
      WornKeeps(c, AfterSweep(c.entries, c.hand, 1), (c.hand + 1) % U32);
    } else {
      var k, v := StopStep(Effs(c, now), c.hand), VictimSlot(Effs(c, now), c.hand);
      var swept := AfterSweep(c.entries, c.hand, k);
      AfterSweepWorn(c.entries, c.hand, k);
      WornKeeps(c, swept, (c.hand + k + 1) % U32);
      PutEntry(c.(entries := swept, hand := (c.hand + k + 1) % U32), v, stored);
    }
  }

  lemma StoredBinding(c: L2, c': L2, key: Key, now: int, expiresAt: int, allowed: bool, k: Key)
    requires Inv(c) && Inv(c') && c' == StoreState(c, key, now, expiresAt, allowed) && k in View(c')
    ensures if k == key then View(c')[k] == Binding(allowed, expiresAt, c.generation)
            else k in View(c) && View(c')[k] == View(c)[k]
  {
    StoreRefines(c, key, now, expiresAt, allowed);
  }

  lemma StoreInv(c: L2, key: Key, now: int, expiresAt: int, allowed: bool)
    requires Inv(c)
    ensures var c' := StoreState(c, key, now, expiresAt, allowed);
      Inv(c') && c'.generation == c.generation && |c'.entries| == |c.entries|
  {
    StoreRefines(c, key, now, expiresAt, allowed);
  }

  lemma LookupKeepsView(c: L2, key: Key, now: int)
    requires Inv(c) && Inv(LookupState(c, key, now))
    ensures View(LookupState(c, key, now)) == View(c)
  {
    LookupRefines(c, key, now);
  }

  lemma LookupInv(c: L2, key: Key, now: int)
    requires Inv(c)
    ensures var c' := LookupState(c, key, now);
      Inv(c') && c'.generation == c.generation && |c'.entries| == |c.entries|
  {
    LookupRefines(c, key, now);
  }

  /** The key that makes room: the one in the sweep's victim slot, if that slot is valid. */
  ghost function Evicted(c: L2, now: int): set<Key>
    requires |c.entries| > 0
  {
    var e := c.entries[VictimSlot(Effs(c, now), c.hand)];
    if e.valid then {e.key} else {}
  }

  /** The key just stored is present afterwards, except for the give-up of a one-slot cache
      whose slot is live, in use and holds another key. */
  lemma StoredKeyPresentExactlyWhen(c: L2, key: Key, now: int, expiresAt: int, allowed: bool)
    requires Inv(c)
    ensures Inv(StoreState(c, key, now, expiresAt, allowed))
    ensures key in View(StoreState(c, key, now, expiresAt, allowed)) <==>
      key in View(c) || |c.entries| > 1 || Expired(c.generation, c.entries[0], now) || c.entries[0].usage == 0
  {
    StoreRefines(c, key, now, expiresAt, allowed);
  }

  // Nothing keeps this entry: it is dead for the moment and generation, or used up.
  predicate Reclaimable(e: Entry, generation: nat, now: int) {
    !e.valid || e.expiresAt <= now || e.gen != generation || e.usage == 0
  }

  /** A store that needs room takes the slot that minimises (effective usage, distance from the
      hand), gives it the new entry at full usage and leaves the hand one past it; every other
      entry loses exactly one use for each time the hand passed it. A live entry in use is
      dropped only if there is nothing else, and then one that is used least. */
  lemma StoreEvictsArgmin(c: L2, key: Key, now: int, expiresAt: int, allowed: bool, r: nat)
    requires Inv(c) && key !in c.index && (|c.entries| > 1 || Reclaimable(c.entries[0], c.generation, now))
    requires IsArgmin(Effs(c, now), c.hand, r)
    requires U32 % |c.entries| == 0 || c.hand + Effs(c, now)[r] * |c.entries| + Distance(c.hand, |c.entries|, r) < U32
    ensures var c' := StoreState(c, key, now, expiresAt, allowed);
      && Inv(c') && c'.index[key] == r
      && c'.entries[r] == Entry(key, allowed, c.generation, expiresAt, 5, true)
      && c'.hand == (c.hand + Effs(c, now)[r] * |c.entries| + Distance(c.hand, |c.entries|, r) + 1) % U32
      && forall j :: 0 <= j < |c.entries| && j != r ==>
           var passes := Effs(c, now)[r] +
             if Distance(c.hand, |c.entries|, j) < Distance(c.hand, |c.entries|, r) then 1 else 0;
           passes <= c.entries[j].usage && c'.entries[j] == c.entries[j].(usage := c.entries[j].usage - passes)
    ensures forall j :: 0 <= j < |c.entries| && !Reclaimable(c.entries[r], c.generation, now) ==>
      !Reclaimable(c.entries[j], c.generation, now) && c.entries[r].usage <= c.entries[j].usage
  {
    var eff := Effs(c, now);
    SweepIsArgmin(eff, c.hand, r);
    StoreRefines(c, key, now, expiresAt, allowed);
    forall j: nat | j < |c.entries| ensures Passes(c.hand, |c.entries|, StopStep(eff, c.hand), j) <= eff[j] {
      PassesWithinBudget(eff, c.hand, StopStep(eff, c.hand), j);
    }
    LeastUsed(c, now, r);
  }

  /** The store that gives up costs the only entry one use and moves the hand by one. */
  lemma StoreGivesUp(c: L2, key: Key, now: int, expiresAt: int, allowed: bool)
    requires Inv(c) && key !in c.index && |c.entries| == 1 && !Reclaimable(c.entries[0], c.generation, now)
    ensures var e := c.entries[0];
      StoreState(c, key, now, expiresAt, allowed) ==
        c.(entries := [e.(usage := e.usage - 1)], hand := (c.hand + 1) % U32)
  {
    var e := c.entries[0];
    assert Visit(c.hand, 1, 0) == 0;
    assert Passes(c.hand, 1, 1, 0) == 1;
    assert AfterSweep(c.entries, c.hand, 1) == [e.(usage := e.usage - 1)];
  }

  lemma LeastUsed(c: L2, now: int, r: nat)
    requires Inv(c) && IsArgmin(Effs(c, now), c.hand, r)
    ensures forall j :: 0 <= j < |c.entries| && !Reclaimable(c.entries[r], c.generation, now) ==>
      !Reclaimable(c.entries[j], c.generation, now) && c.entries[r].usage <= c.entries[j].usage
  {
    var eff := Effs(c, now);
    forall j: nat | j < |c.entries| && !Reclaimable(c.entries[r], c.generation, now)
      ensures !Reclaimable(c.entries[j], c.generation, now) && c.entries[r].usage <= c.entries[j].usage
    {
      assert eff[r] <= eff[j];
    }
  }

  /** A store of a key that is present rewrites its entry at full usage and touches nothing else. */
  lemma StoreUpdatesInPlace(c: L2, key: Key, now: int, expiresAt: int, allowed: bool, i: nat)
    requires Inv(c) && i < |c.entries| && c.entries[i].valid && c.entries[i].key == key
    ensures StoreState(c, key, now, expiresAt, allowed) ==
      c.(entries := c.entries[i := Entry(key, allowed, c.generation, expiresAt, 5, true)])
  {
    assert c.index[key] == i;
  }

  /** What a lookup does to usage counts: a hit adds one up to five, a dead entry drops to zero,
      and no other entry, nor index or hand, changes. */
  lemma LookupCounts(c: L2, key: Key, now: int, i: nat)
    requires Inv(c) && i < |c.entries|
    ensures LookupState(c, key, now) == c.(entries := LookupState(c, key, now).entries)
    ensures |LookupState(c, key, now).entries| == |c.entries|
    ensures var e, e' := c.entries[i], LookupState(c, key, now).entries[i];
      e' == if !e.valid || e.key != key then e
            else if e.expiresAt <= now || e.gen != c.generation then e.(usage := 0)
            else if e.usage >= 5 then e else e.(usage := e.usage + 1)
  {
    if c.entries[i].valid && c.entries[i].key == key {
      assert c.index[key] == i;
    }
  }

  /** With the index exact it never holds more keys than there are slots, so the hash table,
      sized twice the capacity, never refuses an insertion. */
  lemma IndexFitsHash(c: L2)
    requires Inv(c)
    ensures |c.index| <= |c.entries| < HashSize(|c.entries|)
  {
    InjectiveBound(c.index.Keys, c.index, |c.entries|);
    assert |c.index| == |c.index.Keys|;
  }

  lemma {:induction false} InjectiveBound(keys: set<Key>, m: map<Key, nat>, bound: nat)
    requires keys <= m.Keys
    requires forall k :: k in keys ==> m[k] < bound
    requires forall k, l :: k in keys && l in keys && m[k] == m[l] ==> k == l
    ensures |keys| <= bound
  {
    if keys != {} {
      var k :| k in keys;
      if bound == 0 {
        assert false;
      }
      if exists top :: top in keys && m[top] == bound - 1 {
        var top :| top in keys && m[top] == bound - 1;
        InjectiveBound(keys - {top}, m, bound - 1);
      } else {
        InjectiveBound(keys, m, bound - 1);
      }
    }
  }

  // ---- Amortised cost --------------------------------------------------------------------

  ghost function ValidUsage(c: L2): (r: seq<nat>)
    ensures |r| == |c.entries|
  {
    seq(|c.entries|, i requires 0 <= i < |c.entries| => if c.entries[i].valid then c.entries[i].usage else 0)
  }

  ghost function Potential(c: L2): nat {
    Sum(ValidUsage(c))
  }

  /** Iterations of the sweep loop that a store runs through. */
  ghost function StoreCost(c: L2, key: Key, now: int): nat
    requires 0 < |c.entries|
  {
    if key in c.index then 0
    else if GivesUp(Effs(c, now)) then 1
    else StopStep(Effs(c, now), c.hand) + 1
  }

  lemma SweepPotential(c: L2, now: int, k: nat)
    requires Inv(c) && RunsPast(Effs(c, now), c.hand, k)
    ensures Potential(c.(entries := AfterSweep(c.entries, c.hand, k))) + k == Potential(c)
  {
    var w := ValidUsage(c);
    forall j | 0 <= j < |w| ensures Passes(c.hand, |w|, k, j) <= w[j] {
      PassesWithinBudget(Effs(c, now), c.hand, k, j);
    }
    SweepSpends(w, c.hand, k);
    assert Remaining(w, c.hand, k) == ValidUsage(c.(entries := AfterSweep(c.entries, c.hand, k)));
  }

  lemma PotentialUpdate(entries: seq<Entry>, c: L2, i: nat, e: Entry)
    requires i < |entries|
    ensures Potential(c.(entries := entries[i := e])) <=
      Potential(c.(entries := entries)) + if e.valid && entries[i].valid && entries[i].usage <= e.usage
                                         then e.usage - entries[i].usage else e.usage
  {
    var w := ValidUsage(c.(entries := entries));
    var x := if e.valid then e.usage else 0;
    SumUpdate(w, i, x);
    assert w[i := x] == ValidUsage(c.(entries := entries[i := e]));
  }

  /** A store pays for its sweep out of the potential, up to six. */
  lemma StorePays(c: L2, key: Key, now: int, expiresAt: int, allowed: bool)
    requires Inv(c)
    ensures StoreCost(c, key, now) + Potential(StoreState(c, key, now, expiresAt, allowed)) <= Potential(c) + USAGE_MAX + 1
  {
    var eff := Effs(c, now);
    var stored := NewEntry(key, expiresAt, allowed, c.generation);
    if key in c.index {
      PotentialUpdate(c.entries, c, c.index[key], stored);
    } else if GivesUp(eff) {
      assert Visit(c.hand, 1, 0) == 0;
      assert RunsPast(eff, c.hand, 1);
      SweepPotential(c, now, 1);
      assert ValidUsage(c.(entries := AfterSweep(c.entries, c.hand, 1))) == ValidUsage(StoreState(c, key, now, expiresAt, allowed));
    } else {
      var k, v := StopStep(eff, c.hand), VictimSlot(eff, c.hand);
      SweepPotential(c, now, k);
      PotentialUpdate(AfterSweep(c.entries, c.hand, k), c, v, stored);
      assert ValidUsage(c.(entries := AfterSweep(c.entries, c.hand, k)[v := stored]))
          == ValidUsage(StoreState(c, key, now, expiresAt, allowed));
    }
  }

  lemma LookupPays(c: L2, key: Key, now: int)
    requires Inv(c)
    ensures Potential(LookupState(c, key, now)) <= Potential(c) + if LookupResult(c, key, now).Some? then 1 else 0
  {
    if key in c.index {
      var i := c.index[key];
      PotentialUpdate(c.entries, c, i, LookupState(c, key, now).entries[i]);
      assert c.(entries := c.entries) == c;
    }
  }

  // ---- Runs ------------------------------------------------------------------------------

  /** What may happen to the shared cache; a bump of the generation comes from outside. */
  datatype Op =
    | Lookup(key: Key, now: int)
    | Store(key: Key, now: int, expiresAt: int, allowed: bool)
    | Bump

  ghost function Step(c: L2, op: Op): (c': L2)
    requires Inv(c)
    ensures Inv(c') && |c'.entries| == |c.entries|
  {
    match op
    case Lookup(key, now) => LookupInv(c, key, now); LookupState(c, key, now)
    case Store(key, now, expiresAt, allowed) =>
      StoreInv(c, key, now, expiresAt, allowed); StoreState(c, key, now, expiresAt, allowed)
    case Bump => c.(generation := (c.generation + 1) % GENERATIONS)
  }

  ghost function Run(c: L2, ops: seq<Op>): (c': L2)
    requires Inv(c)
    ensures Inv(c') && |c'.entries| == |c.entries|
    decreases |ops|
  {
    if ops == [] then c else Run(Step(c, ops[0]), ops[1..])
  }

  ghost function RunCost(c: L2, ops: seq<Op>): nat
    requires Inv(c)
    decreases |ops|
  {
    if ops == [] then 0
    else (if ops[0].Store? then StoreCost(c, ops[0].key, ops[0].now) else 0) + RunCost(Step(c, ops[0]), ops[1..])
  }

  ghost function Stores(ops: seq<Op>): nat {
    if ops == [] then 0 else (if ops[0].Store? then 1 else 0) + Stores(ops[1..])
  }

  ghost function Hits(c: L2, ops: seq<Op>): nat
    requires Inv(c)
    decreases |ops|
  {
    if ops == [] then 0
    else (if ops[0].Lookup? && LookupResult(c, ops[0].key, ops[0].now).Some? then 1 else 0)
         + Hits(Step(c, ops[0]), ops[1..])
  }

  /** Over every run the sweep loop is iterated at most six times per store and once per hit,
      beyond the potential at the start. */
  lemma {:induction false} AmortisedCost(c: L2, ops: seq<Op>)
    requires Inv(c)
    ensures RunCost(c, ops) + Potential(Run(c, ops)) <= Potential(c) + 6 * Stores(ops) + Hits(c, ops)
    decreases |ops|
  {
    if ops != [] {
      match ops[0] {
        case Lookup(key, now) => LookupPays(c, key, now);
        case Store(key, now, expiresAt, allowed) => StorePays(c, key, now, expiresAt, allowed);
        case Bump => assert ValidUsage(Step(c, Bump)) == ValidUsage(c);
      }
      AmortisedCost(Step(c, ops[0]), ops[1..]);
    }
  }

  lemma AmortisedCostFromStart(c: L2, ops: seq<Op>)
    requires Initial(c)
    ensures Inv(c) && RunCost(c, ops) <= 6 * Stores(ops) + Hits(c, ops)
  {
    InitialInv(c);
    AmortisedCost(c, ops);
  }

  /** After every run of the empty cache the index and the array agree exactly: a key is
      mapped to a slot if and only if that slot is valid and holds it, so no two valid slots
      share a key. */
  lemma IndexExactAfterRun(c: L2, ops: seq<Op>, k: Key, i: nat)
    requires Initial(c) && i < |c.entries|
    ensures Inv(c)
    ensures var d := Run(c, ops);
      (k in d.index && d.index[k] == i) <==> (d.entries[i].valid && d.entries[i].key == k)
  {
    InitialInv(c);
  }

  // ---- The cache updated in place --------------------------------------------------------

  const UINT32_MAX: nat := 0xFFFF_FFFF

  // The search has left `c` as `s`, after `k` full turns of its loop.
  ghost predicate Swept(c: L2, s: L2, now: int, slot: nat, k: nat)
    requires HandOk(c)
  {
    && (slot == UINT32_MAX <==> GivesUp(Effs(c, now)))
    && (slot == UINT32_MAX ==> k == 1 && s == SweepAt(c, 1))
    && (slot != UINT32_MAX ==>
          && IsStop(Effs(c, now), c.hand, k)
          && slot == Visit(c.hand, |c.entries|, k)
          && s == SweepAt(c, k).(hand := (SweepAt(c, k).hand + 1) % U32))
  }

  lemma SweepOutcome(c: L2, s: L2, now: int, slot: nat, k: nat)
    requires Inv(c) && Swept(c, s, now, slot, k)
    ensures s == SweepState(c, now) && Inv(s)
    ensures slot == if GivesUp(Effs(c, now)) then UINT32_MAX else VictimSlot(Effs(c, now), c.hand)
  {
    if slot != UINT32_MAX {
      StopUnique(Effs(c, now), c.hand, k);
      HandTurn(c.hand, |c.entries|, k);
    }
    AfterSweepWorn(c.entries, c.hand, k);
    WornKeeps(c, SweepState(c, now).entries, SweepState(c, now).hand);
  }

  class SharedCache {
    const entries: array<Entry>
    const capacity: nat
    var index: map<Key, nat>
    var nextVictim: nat
    var generation: nat

    ghost function State(): L2
      reads this, entries
    {
      L2(entries[..], index, nextVictim, generation)
    }

    ghost predicate Valid()
      reads this, entries
    {
      capacity == entries.Length && Inv(State())
    }

    constructor (capacity: nat)
      requires 0 < capacity < U32
      ensures Valid() && fresh(entries) && this.capacity == capacity
      ensures Initial(State())
    {
      this.capacity := capacity;
      var blank := Entry(Key(0, 0, 0, 0, 0), false, 0, 0, 0, false);
      entries := new Entry[capacity](_ => blank);
      index, nextVictim, generation := map[], 0, 0;
    }

    // Fetch-and-add of the 32-bit hand.
    method AdvanceHand() returns (slot: nat)
      requires capacity > 0
      modifies this`nextVictim
      ensures slot == old(nextVictim) % capacity
      ensures nextVictim == (old(nextVictim) + 1) % U32
    {
      slot := nextVictim % capacity;
      nextVictim := (nextVictim + 1) % U32;
    }

    method FindVictimSlot(now: int) returns (slot: nat)
      requires Valid()
      modifies this`nextVictim, entries
      ensures Valid()
      ensures State() == SweepState(old(State()), now)
      ensures slot == if GivesUp(Effs(old(State()), now)) then UINT32_MAX
                      else VictimSlot(Effs(old(State()), now), old(State()).hand)
    {
      ghost var c := State();
      ghost var k: nat;
      slot, k := SweepLoop(now);
      SweepOutcome(c, State(), now, slot, k);
    }

    // The loop of the search; `k` counts the turns it completes.
    method SweepLoop(now: int) returns (slot: nat, ghost k: nat)
      requires capacity == entries.Length && HandOk(State())
      modifies this`nextVictim, entries
      ensures HandOk(State()) && Swept(old(State()), State(), now, slot, k)
    {
      var tryCounter := capacity;
      ghost var c := State();
      k := 0;
      SweepBegins(c);
      while true
        invariant State() == SweepAt(c, k)
        invariant RunsPast(Effs(c, now), c.hand, k) && k <= Sum(Effs(c, now))
        invariant capacity == 1 ==> k == 0
        invariant tryCounter == if k == 0 then capacity else capacity - 1
        decreases Sum(Effs(c, now)) - k
      {
        SweepTurn(c, now, k);
        ghost var s := State();
        slot := AdvanceHand();
        if Expired(generation, entries[slot], now) {
          return;
        }
        if entries[slot].usage > 0 {
          entries[slot] := entries[slot].(usage := entries[slot].usage - 1);
          tryCounter := capacity;
        } else {
          return;
        }
        assert State() == SweepAt(c, k + 1);
        tryCounter := tryCounter - 1;
        k := k + 1;
        if tryCounter == 0 {
          return UINT32_MAX, k;
        }
      }
    }

    method Lookup(key: Key, now: int) returns (hit: bool, verdict: Verdict)
      requires Valid()
      modifies entries
      ensures Valid()
      ensures State() == LookupState(old(State()), key, now)
      ensures hit == LookupResult(old(State()), key, now).Some?
      ensures hit ==> LookupResult(old(State()), key, now) == Some(verdict)
    {
      LookupInv(State(), key, now);
      verdict := Verdict(false, 0);
      if key !in index {
        return false, verdict;
      }
      var e := entries[index[key]];
      if Expired(generation, e, now) {
        entries[index[key]] := e.(usage := 0);
        return false, verdict;
      }
      if e.usage < USAGE_MAX {
        entries[index[key]] := e.(usage := e.usage + 1);
      }
      return true, Verdict(e.allowed, e.expiresAt);
    }

    method Store(key: Key, now: int, expiresAt: int, allowed: bool) returns (outOfMemory: bool)
      requires Valid()
      modifies this`index, this`nextVictim, entries
      ensures Valid()
      ensures State() == StoreState(old(State()), key, now, expiresAt, allowed)
      ensures !outOfMemory
    {
      ghost var before := State();
      StoreInv(before, key, now, expiresAt, allowed);
      if key in index {
        entries[index[key]] := NewEntry(key, expiresAt, allowed, generation);
        return false;
      }
      var victim := FindVictimSlot(now);
      if victim == UINT32_MAX {
        return false;
      }
      IndexFitsHash(before);
      ghost var swept := State();
      var e := entries[victim];
      if e.valid {
        index := index - {e.key};
      }
      if |index| >= HashSize(capacity) && key !in index {
        return true;
      }
      assert key !in index;
      index := index[key := victim];
      entries[victim] := NewEntry(key, expiresAt, allowed, generation);
      assert State().entries == swept.entries[victim := NewEntry(key, expiresAt, allowed, generation)];
      return false;
    }
  }
}
