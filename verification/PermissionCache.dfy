/** The two cache levels together: what one lookup or store does to the private first level of
    its backend and to the shared second level, and what holds over every run of any number of
    backends. */
module PermissionCache {
  import opened CacheTypes
  import L1 = L1Cache
  import L2 = L2Cache

  datatype Levels = Levels(l1: L1.L1, l2: L2.L2)

  function DigestOf(key: Key): L1.Digest {
    L1.Digest(key.low, key.high)
  }

  function Entry1(key: Key, allowed: bool, generation: nat, expiresAt: int): L1.Entry {
    L1.Entry(true, allowed, generation, L1.Unsigned(expiresAt), DigestOf(key))
  }

  ghost predicate Ok(p: Levels) {
    L1.Inv(p.l1) && L2.Inv(p.l2)
  }

  // ---- One call --------------------------------------------------------------------------

  ghost function Answer1(p: Levels, key: Key, now: int): Option<bool>
    requires Ok(p)
  {
    L1.LookupResult(p.l1[L1.SetOf(DigestOf(key))], DigestOf(key), p.l2.generation, now)
  }

  ghost function Answer2(p: Levels, key: Key, now: int): Option<L2.Verdict>
    requires Ok(p)
  {
    L2.LookupResult(p.l2, key, now)
  }

  /** The verdict a lookup returns, if any. */
  ghost function Answer(p: Levels, key: Key, now: int): Option<bool>
    requires Ok(p)
  {
    if Answer1(p, key, now).Some? then Answer1(p, key, now)
    else if Answer2(p, key, now).Some? then Some(Answer2(p, key, now).value.allowed) else None
  }

  ghost function Probe1(c: L1.L1, key: Key, generation: nat, now: int): (c': L1.L1)
    requires L1.Inv(c)
    ensures L1.Inv(c')
  {
    L1.StepInv(c, L1.Op.Lookup(DigestOf(key), generation, now));
    L1.Step(c, L1.Op.Lookup(DigestOf(key), generation, now))
  }

  ghost function Put1(c: L1.L1, e: L1.Entry): (c': L1.L1)
    requires L1.Inv(c) && e.valid
    ensures L1.Inv(c')
  {
    L1.StepInv(c, L1.Op.Store(e));
    L1.Step(c, L1.Op.Store(e))
  }

  ghost function Probe2(c: L2.L2, key: Key, now: int): (c': L2.L2)
    requires L2.Inv(c)
    ensures L2.Inv(c') && c'.generation == c.generation
  {
    L2.LookupInv(c, key, now);
    L2.LookupState(c, key, now)
  }

  ghost function Put2(c: L2.L2, key: Key, now: int, expiresAt: int, allowed: bool): (c': L2.L2)
    requires L2.Inv(c)
    ensures L2.Inv(c') && c'.generation == c.generation
  {
    L2.StoreInv(c, key, now, expiresAt, allowed);
    L2.StoreState(c, key, now, expiresAt, allowed)
  }

  ghost function LookupCall(p: Levels, key: Key, now: int): (p': Levels)
    requires Ok(p)
    ensures Ok(p') && p'.l2.generation == p.l2.generation
  {
    var l1 := Probe1(p.l1, key, p.l2.generation, now);
    if Answer1(p, key, now).Some? then Levels(l1, p.l2)
    else if Answer2(p, key, now).None? then Levels(l1, Probe2(p.l2, key, now))
    else
      var v := Answer2(p, key, now).value;
      Levels(Put1(l1, Entry1(key, v.allowed, p.l2.generation, v.expiresAt)), Probe2(p.l2, key, now))
  }

  ghost function StoreCall(p: Levels, key: Key, allowed: bool, now: int, ttl: nat): (p': Levels)
    requires Ok(p)
    ensures Ok(p') && p'.l2.generation == p.l2.generation
  {
    Levels(Put1(p.l1, Entry1(key, allowed, p.l2.generation, now + ttl)), Put2(p.l2, key, now, now + ttl, allowed))
  }

  // ---- The first level as a map ----------------------------------------------------------

  ghost function Find(c: L1.L1, d: L1.Digest): Option<L1.Entry>
    requires L1.Inv(c)
  {
    var s := c[L1.SetOf(d)];
    var i := L1.FindWay(s, d);
    if i < 2 then Some(s.ways[i]) else None
  }

  lemma ProbeKeepsOrDrops(c: L1.L1, key: Key, generation: nat, now: int, d: L1.Digest)
    requires L1.Inv(c)
    ensures Find(Probe1(c, key, generation, now), d) in {Find(c, d), None}
  {
    assert L1.SetInv(c[L1.SetOf(d)], L1.SetOf(d));
  }

  lemma PutKeepsOrDrops(c: L1.L1, e: L1.Entry, d: L1.Digest)
    requires L1.Inv(c) && e.valid
    ensures if d == e.digest then Find(Put1(c, e), d) == Some(e) else Find(Put1(c, e), d) in {Find(c, d), None}
  {
    assert L1.SetInv(c[L1.SetOf(d)], L1.SetOf(d));
  }

  // ---- What one call changes -------------------------------------------------------------

  // The lookup misses the first level and hits the second, and so copies the entry down.
  ghost predicate Copies(p: Levels, key: Key, now: int)
    requires Ok(p)
  {
    Answer1(p, key, now).None? && Answer2(p, key, now).Some?
  }

  /** A hit answers with an entry that is live at the time of the call. */
  lemma AnswerIsLive(p: Levels, key: Key, now: int)
    requires Ok(p) && Answer(p, key, now).Some?
    ensures if Copies(p, key, now)
            then key in L2.View(p.l2) && L2.Live(L2.View(p.l2)[key], p.l2.generation, now)
                 && Answer(p, key, now) == Some(L2.View(p.l2)[key].allowed)
            else Find(p.l1, DigestOf(key)).Some? && L1.Live(Find(p.l1, DigestOf(key)).value, p.l2.generation, now)
                 && Answer(p, key, now) == Some(Find(p.l1, DigestOf(key)).value.allowed)
  {
    L2.LookupRefines(p.l2, key, now);
  }

  // The first level holds the digest, unexpired and of the current generation ...
  ghost predicate Usable1(p: Levels, key: Key, now: int)
    requires Ok(p)
  {
    Find(p.l1, DigestOf(key)).Some? &&
    var e := Find(p.l1, DigestOf(key)).value; L1.Unsigned(now) < e.expiresAt && e.gen == p.l2.generation
  }

  // ... and so does the second level with the key.
  ghost predicate Usable2(p: Levels, key: Key, now: int)
    requires Ok(p)
  {
    key in L2.View(p.l2) &&
    var e := L2.View(p.l2)[key]; now < e.expiresAt && e.gen == p.l2.generation
  }

  /** A lookup hits exactly when one of the levels holds a usable entry, and the first level
      takes precedence. */
  lemma AnswerExactlyWhen(p: Levels, key: Key, now: int)
    requires Ok(p)
    ensures Answer(p, key, now).Some? <==> Usable1(p, key, now) || Usable2(p, key, now)
    ensures Usable1(p, key, now) ==> Answer(p, key, now) == Some(Find(p.l1, DigestOf(key)).value.allowed)
    ensures !Usable1(p, key, now) && Usable2(p, key, now) ==> Answer(p, key, now) == Some(L2.View(p.l2)[key].allowed)
  {
    L2.LookupRefines(p.l2, key, now);
  }

  lemma LookupEffect2(p: Levels, key: Key, now: int)
    requires Ok(p)
    ensures L2.View(LookupCall(p, key, now).l2) == L2.View(p.l2)
  {
    L2.LookupKeepsView(p.l2, key, now);
  }

  lemma LookupEffect1(p: Levels, key: Key, now: int, d: L1.Digest)
    requires Ok(p)
    ensures if Copies(p, key, now) && d == DigestOf(key)
            then key in L2.View(p.l2) && L2.View(p.l2)[key].gen == p.l2.generation
                 && Find(LookupCall(p, key, now).l1, d)
                      == Some(Entry1(key, L2.View(p.l2)[key].allowed, p.l2.generation, L2.View(p.l2)[key].expiresAt))
            else Find(LookupCall(p, key, now).l1, d) in {Find(p.l1, d), None}
  {
    ProbeKeepsOrDrops(p.l1, key, p.l2.generation, now, d);
    if Copies(p, key, now) {
      var v := Answer2(p, key, now).value;
      var l1 := Probe1(p.l1, key, p.l2.generation, now);
      PutKeepsOrDrops(l1, Entry1(key, v.allowed, p.l2.generation, v.expiresAt), d);
      L2.LookupRefines(p.l2, key, now);
    }
  }

  lemma StoreEffect1(p: Levels, key: Key, allowed: bool, now: int, ttl: nat, d: L1.Digest)
    requires Ok(p)
    ensures if d == DigestOf(key)
            then Find(StoreCall(p, key, allowed, now, ttl).l1, d) == Some(Entry1(key, allowed, p.l2.generation, now + ttl))
            else Find(StoreCall(p, key, allowed, now, ttl).l1, d) in {Find(p.l1, d), None}
  {
    PutKeepsOrDrops(p.l1, Entry1(key, allowed, p.l2.generation, now + ttl), d);
  }

  // ---- Runs ------------------------------------------------------------------------------

  /** One call of a backend, or a bump of the generation between calls. The clock of a call
      is its own: calls of different backends need not be ordered by it. */
  datatype Event =
    | Lookup(b: nat, key: Key, now: int, enabled: bool)
    | Store(b: nat, key: Key, allowed: bool, now: int, ttl: nat, enabled: bool)
    | Bump

  datatype Sys = Sys(l1s: seq<L1.L1>, l2: L2.L2)

  ghost predicate Inv(s: Sys) {
    L2.Inv(s.l2) && forall b :: 0 <= b < |s.l1s| ==> L1.Inv(s.l1s[b])
  }

  ghost predicate Initial(s: Sys) {
    && L2.Initial(s.l2)
    && forall b :: 0 <= b < |s.l1s| ==> L1.Empty(s.l1s[b])
  }

  const CLOCK_END: nat := 0x8000_0000_0000_0000

  /** The event comes from an existing backend and its times lie after the epoch, within a
      signed 64-bit number. */
  predicate EventOk(ev: Event, backends: nat) {
    match ev
    case Lookup(b, _, now, _) => b < backends && 0 <= now < CLOCK_END
    case Store(b, _, _, now, ttl, _) => b < backends && 0 <= now && now + ttl < CLOCK_END
    case Bump => true
  }

  ghost function Step(s: Sys, ev: Event): (s': Sys)
    requires Inv(s) && EventOk(ev, |s.l1s|)
    ensures Inv(s') && |s'.l1s| == |s.l1s|
  {
    match ev
    case Lookup(b, key, now, enabled) =>
      if !enabled then s
      else
        var p := LookupCall(Levels(s.l1s[b], s.l2), key, now);
        Sys(s.l1s[b := p.l1], p.l2)
    case Store(b, key, allowed, now, ttl, enabled) =>
      if !enabled then s
      else
        var p := StoreCall(Levels(s.l1s[b], s.l2), key, allowed, now, ttl);
        Sys(s.l1s[b := p.l1], p.l2)
    case Bump => s.(l2 := s.l2.(generation := (s.l2.generation + 1) % GENERATIONS))
  }

  ghost predicate RunOk(run: seq<Event>, backends: nat) {
    forall i :: 0 <= i < |run| ==> EventOk(run[i], backends)
  }

  /** What a lookup event answers in a state. */
  ghost function AnswerTo(s: Sys, ev: Event): Option<bool>
    requires Inv(s) && ev.Lookup? && EventOk(ev, |s.l1s|)
  {
    if ev.enabled then Answer(Levels(s.l1s[ev.b], s.l2), ev.key, ev.now) else None
  }

  ghost predicate StoresKey(ev: Event, key: Key) {
    ev.Store? && ev.enabled && ev.key == key
  }

  ghost predicate StoresDigest(ev: Event, d: L1.Digest) {
    ev.Store? && ev.enabled && DigestOf(ev.key) == d
  }

  ghost predicate CopiesDown(s: Sys, ev: Event, b: nat, d: L1.Digest)
    requires Inv(s) && EventOk(ev, |s.l1s|)
  {
    ev.Lookup? && ev.enabled && ev.b == b && DigestOf(ev.key) == d && Copies(Levels(s.l1s[b], s.l2), ev.key, ev.now)
  }

  // What an event may do to the first-level entry of one backend for one digest ...
  ghost predicate Moves1(s: Sys, s': Sys, ev: Event, b: nat, d: L1.Digest)
    requires Inv(s) && Inv(s') && EventOk(ev, |s.l1s|) && b < |s.l1s| == |s'.l1s|
  {
    if StoresDigest(ev, d) && ev.b == b then
      Find(s'.l1s[b], d) == Some(Entry1(ev.key, ev.allowed, s.l2.generation, ev.now + ev.ttl))
    else if CopiesDown(s, ev, b, d) then
      && ev.key in L2.View(s.l2) && L2.View(s.l2)[ev.key].gen == s.l2.generation
      && Find(s'.l1s[b], d) ==
           Some(Entry1(ev.key, L2.View(s.l2)[ev.key].allowed, s.l2.generation, L2.View(s.l2)[ev.key].expiresAt))
    else Find(s'.l1s[b], d) in {Find(s.l1s[b], d), None}
  }

  // ... and to the second-level binding of one key.
  ghost predicate Moves2(s: Sys, s': Sys, ev: Event, key: Key)
    requires Inv(s) && Inv(s')
  {
    key in L2.View(s'.l2) ==>
      if StoresKey(ev, key) then L2.View(s'.l2)[key] == L2.Binding(ev.allowed, ev.now + ev.ttl, s.l2.generation)
      else key in L2.View(s.l2) && L2.View(s'.l2)[key] == L2.View(s.l2)[key]
  }

  lemma StepMoves1(s: Sys, ev: Event, b: nat, d: L1.Digest)
    requires Inv(s) && EventOk(ev, |s.l1s|) && b < |s.l1s|
    ensures Moves1(s, Step(s, ev), ev, b, d)
  {
    if !ev.Bump? && ev.b == b {
      var p := Levels(s.l1s[b], s.l2);
      if ev.Lookup? {
        LookupEffect1(p, ev.key, ev.now, d);
      } else {
        StoreEffect1(p, ev.key, ev.allowed, ev.now, ev.ttl, d);
      }
    }
  }

  lemma StoreStep(s: Sys, ev: Event)
    requires Inv(s) && EventOk(ev, |s.l1s|) && ev.Store? && ev.enabled
    ensures Step(s, ev).l2 == L2.StoreState(s.l2, ev.key, ev.now, ev.now + ev.ttl, ev.allowed)
  {
  }

  lemma StoreMoves2(s: Sys, s': Sys, ev: Event, key: Key)
    requires Inv(s) && Inv(s') && ev.Store? && ev.enabled
    requires s'.l2 == L2.StoreState(s.l2, ev.key, ev.now, ev.now + ev.ttl, ev.allowed)
    ensures Moves2(s, s', ev, key)
  {
    if key in L2.View(s'.l2) {
      L2.StoredBinding(s.l2, s'.l2, ev.key, ev.now, ev.now + ev.ttl, ev.allowed, key);
    }
  }

  lemma StepMoves2(s: Sys, ev: Event, key: Key)
    requires Inv(s) && EventOk(ev, |s.l1s|)
    ensures Moves2(s, Step(s, ev), ev, key)
  {
    if ev.Lookup? {
      LookupEffect2(Levels(s.l1s[ev.b], s.l2), ev.key, ev.now);
    } else if ev.Store? && ev.enabled {
      StoreStep(s, ev);
      StoreMoves2(s, Step(s, ev), ev, key);
    }
  }

  // ---- Runs as traces --------------------------------------------------------------------

  ghost predicate Shape(states: seq<Sys>, run: seq<Event>) {
    && |states| == |run| + 1
    && (forall i :: 0 <= i < |states| ==> Inv(states[i]) && |states[i].l1s| == |states[0].l1s|)
    && RunOk(run, |states[0].l1s|)
  }

  ghost predicate Transition(states: seq<Sys>, run: seq<Event>, n: nat)
    requires n < |run| && |states| == |run| + 1
  {
    Inv(states[n]) && EventOk(run[n], |states[n].l1s|) ==> states[n + 1] == Step(states[n], run[n])
  }

  ghost predicate Steps(states: seq<Sys>, run: seq<Event>) {
    && |states| == |run| + 1
    && Initial(states[0]) && RunOk(run, |states[0].l1s|)
    && forall n: nat :: n < |run| ==> Transition(states, run, n)
  }

  lemma {:induction false} StepsInv(states: seq<Sys>, run: seq<Event>, n: nat)
    requires Steps(states, run) && n <= |run|
    ensures Inv(states[n]) && |states[n].l1s| == |states[0].l1s|
  {
    if n == 0 {
      L2.InitialInv(states[0].l2);
    } else {
      StepsInv(states, run, n - 1);
      assert Transition(states, run, n - 1);
    }
  }

  lemma StepsShape(states: seq<Sys>, run: seq<Event>)
    requires Steps(states, run)
    ensures Shape(states, run)
  {
    forall i | 0 <= i < |states| ensures Inv(states[i]) && |states[i].l1s| == |states[0].l1s| {
      StepsInv(states, run, i);
    }
  }

  /** A run of the system from empty caches: the events and the states they lead through. */
  ghost predicate IsRun(states: seq<Sys>, run: seq<Event>)
    ensures IsRun(states, run) ==> Shape(states, run)
  {
    Steps(states, run) && (StepsShape(states, run); true)
  }

  // ---- Where a verdict comes from --------------------------------------------------------

  /** Bumps among the first `n` events; the generation is this number in sixteen bits. */
  ghost function Epoch(run: seq<Event>, n: nat): nat
    requires n <= |run|
  {
    if n == 0 then 0 else Epoch(run, n - 1) + if run[n - 1].Bump? then 1 else 0
  }

  /** Position of the last store of a key by any backend before `n`; -1 for none. */
  ghost function Latest(run: seq<Event>, n: nat, key: Key): (i: int)
    requires n <= |run|
    ensures -1 <= i < n
    ensures i >= 0 ==> StoresKey(run[i], key)
    ensures forall j :: i < j < n ==> !StoresKey(run[j], key)
  {
    if n == 0 then -1
    else if StoresKey(run[n - 1], key) then n - 1
    else Latest(run, n - 1, key)
  }

  /** Position of the store whose verdict backend `b` holds for a digest before event `n`: its
      own last store, or the one its last copy from the second level came from; -1 for none. */
  ghost function Source(states: seq<Sys>, run: seq<Event>, n: nat, b: nat, d: L1.Digest): (i: int)
    requires Shape(states, run) && n <= |run|
    ensures -1 <= i < n
    ensures i >= 0 ==> StoresDigest(run[i], d)
  {
    if n == 0 then -1
    else if StoresDigest(run[n - 1], d) && run[n - 1].b == b then n - 1
    else if CopiesDown(states[n - 1], run[n - 1], b, d) then Latest(run, n - 1, run[n - 1].key)
    else Source(states, run, n - 1, b, d)
  }

  /** The data of a cache entry are those of the store at position `i` of the run. */
  ghost predicate ComesFrom(run: seq<Event>, i: int, allowed: bool, expiresAt: int, gen: nat) {
    && 0 <= i < |run| && run[i].Store?
    && run[i].allowed == allowed
    && run[i].now + run[i].ttl == expiresAt
    && Epoch(run, i) % GENERATIONS == gen
  }

  ghost predicate Tracked2(s: Sys, run: seq<Event>, n: nat, key: Key)
    requires Inv(s) && n <= |run|
  {
    key in L2.View(s.l2) ==>
      var e := L2.View(s.l2)[key]; ComesFrom(run, Latest(run, n, key), e.allowed, e.expiresAt, e.gen)
  }

  ghost predicate Tracked1(s: Sys, run: seq<Event>, i: int, b: nat, d: L1.Digest)
    requires Inv(s) && b < |s.l1s|
  {
    Find(s.l1s[b], d).Some? ==>
      var e := Find(s.l1s[b], d).value; ComesFrom(run, i, e.allowed, e.expiresAt, e.gen)
  }

  lemma Track2(s: Sys, s': Sys, run: seq<Event>, n: nat, key: Key)
    requires Inv(s) && Inv(s') && n < |run| && Moves2(s, s', run[n], key)
    requires Tracked2(s, run, n, key) && s.l2.generation == Epoch(run, n) % GENERATIONS
    ensures Tracked2(s', run, n + 1, key)
  {
  }

  lemma Track1(s: Sys, s': Sys, states: seq<Sys>, run: seq<Event>, n: nat, b: nat, d: L1.Digest)
    requires Shape(states, run) && n < |run| && s == states[n] && s' == states[n + 1] && b < |s.l1s|
    requires Moves1(s, s', run[n], b, d)
    requires Tracked1(s, run, Source(states, run, n, b, d), b, d) && s.l2.generation == Epoch(run, n) % GENERATIONS
    requires !run[n].Bump? ==> Tracked2(s, run, n, run[n].key)
    ensures Tracked1(s', run, Source(states, run, n + 1, b, d), b, d)
  {
    var ev := run[n];
    if StoresDigest(ev, d) && ev.b == b {
    } else if CopiesDown(s, ev, b, d) {
      var i := Latest(run, n, ev.key);
      assert EventOk(run[i], |s.l1s|);
    }
  }

  lemma GenerationStep(s: Sys, ev: Event)
    requires Inv(s) && EventOk(ev, |s.l1s|)
    ensures Step(s, ev).l2.generation == if ev.Bump? then (s.l2.generation + 1) % GENERATIONS else s.l2.generation
  {
  }

  lemma {:induction false} GenerationIsEpoch(states: seq<Sys>, run: seq<Event>, n: nat)
    requires IsRun(states, run) && n <= |run|
    ensures states[n].l2.generation == Epoch(run, n) % GENERATIONS
  {
    if n > 0 {
      GenerationIsEpoch(states, run, n - 1);
      assert Transition(states, run, n - 1);
      GenerationStep(states[n - 1], run[n - 1]);
    }
  }

  lemma Moves2At(states: seq<Sys>, run: seq<Event>, n: nat, key: Key)
    requires IsRun(states, run) && n < |run|
    ensures Moves2(states[n], states[n + 1], run[n], key)
  {
    assert Transition(states, run, n);
    StepMoves2(states[n], run[n], key);
  }

  lemma Moves1At(states: seq<Sys>, run: seq<Event>, n: nat, b: nat, d: L1.Digest)
    requires IsRun(states, run) && n < |run| && b < |states[0].l1s|
    ensures Moves1(states[n], states[n + 1], run[n], b, d)
  {
    assert Transition(states, run, n);
    StepMoves1(states[n], run[n], b, d);
  }

  /** Every binding of the second level has, at every moment, the data of the last store of
      its key by any backend ... */
  lemma {:induction false} AllTracked2(states: seq<Sys>, run: seq<Event>, n: nat, key: Key)
    requires IsRun(states, run) && n <= |run|
    ensures Tracked2(states[n], run, n, key)
  {
    if n == 0 {
      L2.InitialInv(states[0].l2);
    } else {
      AllTracked2(states, run, n - 1, key);
      GenerationIsEpoch(states, run, n - 1);
      Moves2At(states, run, n - 1, key);
      Track2(states[n - 1], states[n], run, n - 1, key);
    }
  }

  lemma Tracked1Next(states: seq<Sys>, run: seq<Event>, n: nat, b: nat, d: L1.Digest)
    requires IsRun(states, run) && n < |run| && b < |states[0].l1s|
    requires Tracked1(states[n], run, Source(states, run, n, b, d), b, d)
    ensures Tracked1(states[n + 1], run, Source(states, run, n + 1, b, d), b, d)
  {
    GenerationIsEpoch(states, run, n);
    Moves1At(states, run, n, b, d);
    if !run[n].Bump? {
      AllTracked2(states, run, n, run[n].key);
    }
    Track1(states[n], states[n + 1], states, run, n, b, d);
  }

  /** ... and every first-level entry of a backend the data of its source. */
  lemma {:induction false} AllTracked1(states: seq<Sys>, run: seq<Event>, n: nat, b: nat, d: L1.Digest)
    requires IsRun(states, run) && n <= |run| && b < |states[0].l1s|
    ensures Tracked1(states[n], run, Source(states, run, n, b, d), b, d)
  {
    if n > 0 {
      AllTracked1(states, run, n - 1, b, d);
      Tracked1Next(states, run, n - 1, b, d);
    }
  }

  // ---- Main results over runs ------------------------------------------------------------

  ghost predicate HitAt(states: seq<Sys>, run: seq<Event>, n: nat)
    requires Shape(states, run)
  {
    n < |run| && run[n].Lookup? && AnswerTo(states[n], run[n]).Some?
  }

  /** The store behind the verdict of the lookup at position `n`. */
  ghost function HitSource(states: seq<Sys>, run: seq<Event>, n: nat): int
    requires Shape(states, run) && n < |run| && run[n].Lookup?
  {
    Source(states, run, n + 1, run[n].b, DigestOf(run[n].key))
  }

  // A hit reads a tracked entry that is live.
  lemma HitReadsSource(s: Sys, states: seq<Sys>, run: seq<Event>, n: nat)
    requires Shape(states, run) && HitAt(states, run, n) && s == states[n]
    requires Tracked1(s, run, Source(states, run, n, run[n].b, DigestOf(run[n].key)), run[n].b, DigestOf(run[n].key))
    requires Tracked2(s, run, n, run[n].key)
    requires s.l2.generation == Epoch(run, n) % GENERATIONS
    ensures var i := HitSource(states, run, n);
      && 0 <= i < n
      && AnswerTo(s, run[n]) == Some(run[i].allowed)
      && run[n].now < run[i].now + run[i].ttl
      && Epoch(run, i) % GENERATIONS == Epoch(run, n) % GENERATIONS
  {
    AnswerIsLive(Levels(s.l1s[run[n].b], s.l2), run[n].key, run[n].now);
  }

  /** Provenance and lifetime, for any number of backends: a hit at time t returns the verdict
      of one earlier store for the same digest, t lies before the end of that store's lifetime,
      and the two generations agree, so fewer than 2^16 bumps in between means none. */
  lemma HitProvenance(states: seq<Sys>, run: seq<Event>, n: nat)
    requires IsRun(states, run) && HitAt(states, run, n)
    ensures var i := HitSource(states, run, n);
      && 0 <= i < n && StoresDigest(run[i], DigestOf(run[n].key))
      && AnswerTo(states[n], run[n]) == Some(run[i].allowed)
      && run[n].now < run[i].now + run[i].ttl
      && Epoch(run, i) % GENERATIONS == Epoch(run, n) % GENERATIONS
      && (Epoch(run, n) < Epoch(run, i) + 0x1_0000 ==> Epoch(run, i) == Epoch(run, n))
  {
    GenerationIsEpoch(states, run, n);
    AllTracked1(states, run, n, run[n].b, DigestOf(run[n].key));
    AllTracked2(states, run, n, run[n].key);
    HitReadsSource(states[n], states, run, n);
    EpochMonotone(run, HitSource(states, run, n), n);
  }

  // The store at position i of the run can still answer the lookup at position n.
  ghost predicate Fresh(run: seq<Event>, i: int, n: nat)
    requires n < |run| && run[n].Lookup?
  {
    && 0 <= i < n && run[i].Store?
    && run[n].now < run[i].now + run[i].ttl
    && Epoch(run, i) % GENERATIONS == Epoch(run, n) % GENERATIONS
  }

  lemma UsableIsFresh(s: Sys, states: seq<Sys>, run: seq<Event>, n: nat)
    requires Shape(states, run) && n < |run| && run[n].Lookup? && s == states[n]
    requires Tracked1(s, run, Source(states, run, n, run[n].b, DigestOf(run[n].key)), run[n].b, DigestOf(run[n].key))
    requires Tracked2(s, run, n, run[n].key)
    requires s.l2.generation == Epoch(run, n) % GENERATIONS
    ensures var b, key := run[n].b, run[n].key;
      var p, i, m := Levels(s.l1s[b], s.l2), Source(states, run, n, b, DigestOf(key)), Latest(run, n, key);
      && (Usable1(p, key, run[n].now) <==> Find(s.l1s[b], DigestOf(key)).Some? && Fresh(run, i, n))
      && (Usable2(p, key, run[n].now) <==> key in L2.View(s.l2) && Fresh(run, m, n))
      && (Usable1(p, key, run[n].now) ==> Find(s.l1s[b], DigestOf(key)).value.allowed == run[i].allowed)
      && (Usable2(p, key, run[n].now) ==> L2.View(s.l2)[key].allowed == run[m].allowed)
  {
  }

  /** Over every run a lookup hits exactly when its backend still holds the digest and the store
      it came from is neither outlived nor of another generation, or else the second level still
      holds the key and the same is true of the key's last store; it returns that store's
      verdict. */
  lemma HitExactlyWhen(states: seq<Sys>, run: seq<Event>, n: nat)
    requires IsRun(states, run) && n < |run| && run[n].Lookup? && run[n].enabled
    ensures var b, key := run[n].b, run[n].key;
      var i, m := Source(states, run, n, b, DigestOf(key)), Latest(run, n, key);
      AnswerTo(states[n], run[n]) ==
        if Find(states[n].l1s[b], DigestOf(key)).Some? && Fresh(run, i, n) then Some(run[i].allowed)
        else if key in L2.View(states[n].l2) && Fresh(run, m, n) then Some(run[m].allowed)
        else None
  {
    GenerationIsEpoch(states, run, n);
    AllTracked1(states, run, n, run[n].b, DigestOf(run[n].key));
    AllTracked2(states, run, n, run[n].key);
    UsableIsFresh(states[n], states, run, n);
    AnswerExactlyWhen(Levels(states[n].l1s[run[n].b], states[n].l2), run[n].key, run[n].now);
  }

  // A store leaves its key in both levels, in the second unless that is a single slot.
  lemma StoreLeaves(s: Sys, ev: Event)
    requires Inv(s) && EventOk(ev, |s.l1s|) && ev.Store? && ev.enabled
    ensures Find(Step(s, ev).l1s[ev.b], DigestOf(ev.key)).Some?
    ensures |s.l2.entries| > 1 ==> ev.key in L2.View(Step(s, ev).l2)
  {
    StoreEffect1(Levels(s.l1s[ev.b], s.l2), ev.key, ev.allowed, ev.now, ev.ttl, DigestOf(ev.key));
    StoreStep(s, ev);
    L2.StoredKeyPresentExactlyWhen(s.l2, ev.key, ev.now, ev.now + ev.ttl, ev.allowed);
  }

  /** A store is visible at once: the next call, looking the key up within the lifetime, hits.
      On the storing backend it returns the verdict just stored. */
  lemma StoreIsVisible(states: seq<Sys>, run: seq<Event>, n: nat)
    requires IsRun(states, run) && n + 1 < |run| && run[n].Store? && run[n].enabled
    requires run[n + 1].Lookup? && run[n + 1].enabled && run[n + 1].key == run[n].key
    requires run[n + 1].now < run[n].now + run[n].ttl
    ensures run[n + 1].b == run[n].b ==> AnswerTo(states[n + 1], run[n + 1]) == Some(run[n].allowed)
    ensures |states[n].l2.entries| > 1 ==> AnswerTo(states[n + 1], run[n + 1]).Some?
  {
    assert Transition(states, run, n);
    StoreLeaves(states[n], run[n]);
    HitExactlyWhen(states, run, n + 1);
  }

  lemma {:induction false} EpochMonotone(run: seq<Event>, m: nat, n: nat)
    requires m <= n <= |run|
    ensures Epoch(run, m) <= Epoch(run, n)
  {
    if m < n {
      EpochMonotone(run, m, n - 1);
    }
  }

  /** Keys with the same digest are the same key. */
  ghost predicate Normalised(run: seq<Event>) {
    forall i, j ::
      0 <= i < |run| && 0 <= j < |run| && !run[i].Bump? && !run[j].Bump? ==>
        DigestOf(run[i].key) == DigestOf(run[j].key) ==> run[i].key == run[j].key
  }

  lemma {:induction false} SourceMonotone(states: seq<Sys>, run: seq<Event>, m: nat, n: nat, b: nat, d: L1.Digest)
    requires Shape(states, run) && Normalised(run) && m <= n <= |run|
    ensures Source(states, run, m, b, d) <= Source(states, run, n, b, d)
  {
    if m < n {
      SourceMonotone(states, run, m, n - 1, b, d);
    }
  }

  /** Session guarantees: a hit never returns a verdict older than the backend's own last store
      of the key (read your writes), nor older than one it has already returned to the backend
      (monotonic reads). */
  lemma ReadsMoveForward(states: seq<Sys>, run: seq<Event>, m: nat, n: nat)
    requires IsRun(states, run) && Normalised(run) && m < n && HitAt(states, run, n)
    ensures StoresDigest(run[m], DigestOf(run[n].key)) && run[m].b == run[n].b ==> m <= HitSource(states, run, n)
    ensures HitAt(states, run, m) && run[m].b == run[n].b && run[m].key == run[n].key ==>
      HitSource(states, run, m) <= HitSource(states, run, n)
  {
    SourceMonotone(states, run, m + 1, n + 1, run[n].b, DigestOf(run[n].key));
  }

  ghost predicate OnlyStoredBy(run: seq<Event>, d: L1.Digest, b: nat) {
    forall i :: 0 <= i < |run| && StoresDigest(run[i], d) ==> run[i].b == b
  }

  /** With one backend storing a key, each of its hits returns the most recent store. */
  lemma SingleBackendLatest(states: seq<Sys>, run: seq<Event>, n: nat)
    requires IsRun(states, run) && Normalised(run) && HitAt(states, run, n)
    requires OnlyStoredBy(run, DigestOf(run[n].key), run[n].b)
    ensures var i := Latest(run, n, run[n].key);
      0 <= i && AnswerTo(states[n], run[n]) == Some(run[i].allowed)
  {
    HitProvenance(states, run, n);
    var i := HitSource(states, run, n);
    assert run[i].key == run[n].key;
    ReadsMoveForward(states, run, Latest(run, n, run[n].key), n);
  }

  /** Coherence: in the same setting an entry present in both levels is the same in both. */
  lemma LevelsAgree(states: seq<Sys>, run: seq<Event>, n: nat, b: nat, key: Key)
    requires IsRun(states, run) && Normalised(run) && n <= |run| && b < |states[0].l1s|
    requires OnlyStoredBy(run, DigestOf(key), b)
    requires key in L2.View(states[n].l2) && Find(states[n].l1s[b], DigestOf(key)).Some?
    ensures var e1, e2 := Find(states[n].l1s[b], DigestOf(key)).value, L2.View(states[n].l2)[key];
      e1.allowed == e2.allowed && e1.expiresAt == e2.expiresAt && e1.gen == e2.gen
  {
    AllTracked1(states, run, n, b, DigestOf(key));
    AllTracked2(states, run, n, key);
    var i, m := Source(states, run, n, b, DigestOf(key)), Latest(run, n, key);
    assert run[i].key == run[m].key;
    SourceMonotone(states, run, m + 1, n, b, DigestOf(key));
  }

  // ---- The calls updated in place --------------------------------------------------------

  /** One backend's handle: its own first level and the shared second level. */
  class Handle {
    const l1: L1.BackendCache
    const l2: L2.SharedCache

    ghost predicate Valid()
      reads l1.ways, l1.victims, l2, l2.entries
    {
      l1.Valid() && l2.Valid()
    }

    ghost function State(): Levels
      requires Valid()
      reads l1.ways, l1.victims, l2, l2.entries
    {
      Levels(l1.State(), l2.State())
    }

    constructor (l1: L1.BackendCache, l2: L2.SharedCache)
      ensures this.l1 == l1 && this.l2 == l2
    {
      this.l1, this.l2 := l1, l2;
    }

    method Lookup(key: Key, now: int, enabled: bool) returns (hit: bool, allowed: bool)
      requires Valid()
      modifies l1.ways, l1.victims, l2.entries
      ensures Valid()
      ensures State() == if enabled then LookupCall(old(State()), key, now) else old(State())
      ensures hit == (enabled && Answer(old(State()), key, now).Some?)
      ensures hit ==> Answer(old(State()), key, now) == Some(allowed)
    {
      allowed := false;
      if !enabled {
        return false, allowed;
      }
      hit, allowed := l1.Lookup(DigestOf(key), l2.generation, now);
      if hit {
        return;
      }
      var verdict;
      hit, verdict := l2.Lookup(key, now);
      if hit {
        allowed := verdict.allowed;
        l1.Store(DigestOf(key), l2.generation, verdict.expiresAt, allowed);
      }
    }

    method Store(key: Key, allowed: bool, now: int, ttl: nat, enabled: bool)
      requires Valid()
      modifies l1.ways, l1.victims, l2`index, l2`nextVictim, l2.entries
      ensures Valid()
      ensures State() == if enabled then StoreCall(old(State()), key, allowed, now, ttl) else old(State())
    {
      if !enabled {
        return;
      }
      StoreBoth(key, allowed, now, now + ttl);
    }

    method StoreBoth(key: Key, allowed: bool, now: int, expiresAt: int)
      requires Valid()
      modifies l1.ways, l1.victims, l2`index, l2`nextVictim, l2.entries
      ensures Valid()
      ensures l1.State() == Put1(old(l1.State()), Entry1(key, allowed, old(l2.generation), expiresAt))
      ensures l2.State() == Put2(old(l2.State()), key, now, expiresAt, allowed)
    {
      l1.Store(DigestOf(key), l2.generation, expiresAt, allowed);
      var outOfMemory := l2.Store(key, now, expiresAt, allowed);
    }
  }
}
