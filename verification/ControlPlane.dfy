/** `RedisControlPlane`: the client's methods, each running against the shared store.

    The methods are proved against what they leave in the store and return; `LookupIsSteps`
    ties the uninterrupted `lookup` to the protocol's separate steps. */
module ControlPlane {
  import opened Wrappers
  import opened Sorting
  import opened Redis
  import opened Policy
  import opened Backoff
  import opened Protocol

  /** What the rest of the cluster does to the store during the n-th sleep. */
  type Others = (nat, Store) -> Store

  /** How a wait ends. */
  datatype Waited = Waited(store: Store, clock: nat, probes: nat, result: Option<Stored>)

  /** The wait from a given attempt on: sleep, probe the lock, look up if it is gone. */
  function AwaitFrom(base: nat, max: nat, key: string, others: Others, st: Store, now: nat, attempt: nat): Waited
    decreases max - attempt, now
  {
    if attempt >= max then Waited(st, now, attempt, None)
    else
      var st', now' := others(attempt, st), now + BackoffMs(base, attempt);
      if Exists(st'.locks, key, now') then AwaitFrom(base, max, key, others, st', now', attempt + 1)
      else Waited(LookedUp(st', key, now'), now', attempt + 1, Found(st', key, now'))
  }

  /** `await_ghost_lock_release` */
  function Await(key: string, others: Others, st: Store, now: nat): Waited {
    AwaitFrom(BASE_MS, RETRY_MAX, key, others, st, now, 0)
  }

  /** The store after `lookup`: a hit's entry is rewritten without a deadline. */
  function LookedUp(st: Store, key: string, now: nat): Store {
    match Found(st, key, now)
    case None => st
    case Some(e) => st.(cache := st.cache[key := Timed(e, None)])
  }

  /** What `lookup` returns: the stored entry with the hit counted. */
  function Found(st: Store, key: string, now: nat): Option<Stored> {
    if Exists(st.cache, key, now) then Some(Bump(st.cache[key].value, now)) else None
  }

  class RedisControlPlane {
    var store: Store
    var clock: nat

    constructor (store: Store, clock: nat)
      ensures this.store == store && this.clock == clock
    {
      this.store := store;
      this.clock := clock;
    }

    /** On a hit the entry comes back with one more hit and the time of this one, and so it is stored,
        without a deadline; nothing else changes, and on a miss nothing at all. */
    method Lookup(key: string) returns (r: Option<Stored>)
      modifies this`store
      ensures r.Some? <==> Exists(old(store).cache, key, clock)
      ensures r.Some? ==>
        var was, e := old(store).cache[key].value.entry, r.value.entry;
        && e.lastHitAt == clock / 1000 && e.hitCount == was.hitCount + 1
        && e.(lastHitAt := was.lastHitAt, hitCount := was.hitCount) == was
        && r.value.writer == old(store).cache[key].value.writer
        && store == old(store).(cache := old(store).cache[key := Timed(r.value, None)])
      ensures r.None? ==> store == old(store)
      ensures r == Found(old(store), key, clock)
      ensures store == LookedUp(old(store), key, clock)
    {
      var raw := Get(store.cache, key, clock);
      if raw.None? { return None; }
      var found := raw.value;
      if found.entry.ttlPolicy.Sliding? {
        store := store.(cache := Expire(store.cache, key, found.entry.ttlPolicy.windowSecs, clock));
      }
      var entry := found.entry;
      entry := entry.(lastHitAt := clock / 1000);
      entry := entry.(hitCount := entry.hitCount + 1);
      found := found.(entry := entry);
      store := store.(cache := Set(store.cache, key, found));
      return Some(found);
    }

    /** SETEX refuses a lifetime of zero seconds; every other entry is readable at once. */
    method Write(e: Stored) returns (ok: bool)
      modifies this`store
      ensures ok <==> RedisTtlSecs(e.entry.ttlPolicy) != Some(0)
      ensures !ok ==> store == old(store)
      ensures ok ==> store == old(store).(cache := WriteEntry(old(store).cache, e, clock))
      ensures ok ==> Get(store.cache, e.entry.prefixHash, clock) == Some(e)
      ensures ok && e.entry.ttlPolicy.Infinite? ==> store.cache[e.entry.prefixHash].deadline == None
      ensures ok && e.entry.ttlPolicy.Fixed? ==>
        store.cache[e.entry.prefixHash].deadline == Some(clock + 1000 * e.entry.ttlPolicy.secs)
      ensures ok && e.entry.ttlPolicy.Sliding? ==>
        store.cache[e.entry.prefixHash].deadline == Some(clock + 1000 * e.entry.ttlPolicy.windowSecs)
      ensures ok ==> store.cache - {e.entry.prefixHash} == old(store).cache - {e.entry.prefixHash}
      ensures ok ==> store.locks == old(store).locks && store.loads == old(store).loads
    {
      var key := e.entry.prefixHash;
      match RedisTtlSecs(e.entry.ttlPolicy) {
        case None => store := store.(cache := Set(store.cache, key, e));
        case Some(secs) =>
          if secs == 0 { return false; }
          store := store.(cache := SetEx(store.cache, key, e, secs, clock));
      }
      return true;
    }

    method TryAcquireGhostLock(key: string, owner: nat) returns (acquired: bool)
      modifies this`store
      ensures acquired <==> !Exists(old(store).locks, key, clock)
      ensures store == old(store).(locks := SetNxEx(old(store).locks, key, owner, LOCK_TTL_SECS, clock))
      ensures Exists(store.locks, key, clock)
      ensures acquired ==>
        store == old(store).(locks := old(store).locks[key := Timed(owner, Some(clock + 30_000))])
      ensures !acquired ==> store == old(store)
    {
      acquired := !Exists(store.locks, key, clock);
      store := store.(locks := SetNxEx(store.locks, key, owner, LOCK_TTL_SECS, clock));
    }

    method ReleaseGhostLock(key: string)
      modifies this`store
      ensures store == old(store).(locks := old(store).locks - {key})
    {
      store := store.(locks := Del(store.locks, key));
    }

    method AwaitGhostLockRelease(key: string, others: Others) returns (r: Option<Stored>)
      modifies this
      ensures var w := Await(key, others, old(store), old(clock));
        store == w.store && clock == w.clock && r == w.result
    {
      var attempt: nat := 0;
      ghost var goal := Await(key, others, store, clock);
      while true
        invariant attempt <= RETRY_MAX
        invariant AwaitFrom(BASE_MS, RETRY_MAX, key, others, store, clock, attempt) == goal
        decreases RETRY_MAX - attempt
      {
        if attempt >= RETRY_MAX { return None; }
        var backoffMs := BackoffMs(BASE_MS, attempt);
        store := others(attempt, store);
        clock := clock + backoffMs;
        attempt := attempt + 1;
        var locked := Exists(store.locks, key, clock);
        if !locked {
          r := Lookup(key);
          return;
        }
      }
    }

    /** Given the live keys in the order KEYS returned them. */
    method ListPodLoads(keys: seq<string>) returns (loads: seq<PodLoad>)
      requires IsKeyScan(store.loads, keys, clock)
      ensures Sorted(loads, ByLoad)
      ensures |loads| == |keys| == |multiset(loads)|
      ensures forall p :: p in loads <==> p.pod in keys && p.load == store.loads[p.pod].value
      ensures loads != [] ==> forall p :: p in loads ==> loads[0].load <= p.load
    {
      loads := [];
      for i := 0 to |keys|
        invariant |loads| == i
        invariant forall k :: 0 <= k < i ==>
          keys[k] in store.loads && loads[k] == PodLoad(keys[k], store.loads[keys[k]].value)
      {
        assert keys[i] in keys;
        var load := Get(store.loads, keys[i], clock).GetOr(0.5);
        loads := loads + [PodLoad(keys[i], load)];
      }
      ghost var read := loads;
      loads := SortBy(loads, ByLoad);
      assert TotalPreorder(ByLoad);
      SortSorts(read, ByLoad);
      forall p ensures p in loads <==> p.pod in keys && p.load == store.loads[p.pod].value {
        assert p in multiset(loads) <==> p in multiset(read);
        if p.pod in keys && p.load == store.loads[p.pod].value {
          var k :| 0 <= k < |keys| && keys[k] == p.pod;
          assert read[k] == p;
        }
      }
      forall p | p in loads ensures loads[0].load <= p.load {
        var k :| 0 <= k < |loads| && loads[k] == p;
        assert k > 0 ==> ByLoad(loads[0], loads[k]);
      }
    }
  }

  // ---- The methods and the protocol's steps ----

  /** A request at another point, everything else alike. */
  function At(s: State, r: nat, pc: Pc): State
    requires r in s.clients
  {
    s.(clients := s.clients[r := s.clients[r].(pc := pc)])
  }

  /** Request r runs alone for up to n commands, none of them failing. */
  ghost function Alone(s: State, r: nat, n: nat): State
    decreases n
  {
    if n == 0 || !Enabled(s, Step(r, NoFault)) then s else Alone(Next(s, Step(r, NoFault)), r, n - 1)
  }

  /** Run without interruption, the protocol's GET, EXPIRE and SET are `lookup`. */
  lemma LookupIsSteps(s: State, r: nat, n: nat)
    requires r in s.clients && s.clients[r].pc.Getting?
    requires n == if s.clients[r].pc.again || HasEntry(s, s.clients[r].req.key) then 3 else 1
    ensures var c := s.clients[r]; var found := Found(s.store, c.req.key, s.clock);
      var pc := match found case Some(e) => Hit(e) case None => if c.pc.again then Scanning else Acquiring;
      Alone(s, r, n) == At(s, r, pc).(store := LookedUp(s.store, c.req.key, s.clock))
  {
    var c := s.clients[r];
    var key := c.req.key;
    var s1 := Next(s, Step(r, NoFault));
    if HasEntry(s, key) {
      var s2 := if s1.clients[r].pc.Touching? then Next(s1, Step(r, NoFault)) else s1;
      assert s2.clients[r].pc == Putting(c.pc.again, s.store.cache[key].value);
      PutIsLast(s2, r, if s1.clients[r].pc.Touching? then 1 else 2);
    } else {
      assert n == 1 || !Enabled(s1, Step(r, NoFault));
    }
  }

  lemma PutIsLast(s: State, r: nat, n: nat)
    requires r in s.clients && s.clients[r].pc.Putting? && n >= 1
    ensures Alone(s, r, n) == Next(s, Step(r, NoFault))
  {
    assert !Enabled(Next(s, Step(r, NoFault)), Step(r, NoFault));
  }

  /** The state when request r wakes from its sleep, on time. */
  function Woken(s: State, others: Others, attempt: nat): State {
    s.(store := others(attempt, s.store), clock := s.clock + BackoffMs(BASE_MS, attempt))
  }

  predicate Asleep(s: State, r: nat, attempt: nat) {
    r in s.clients && s.clients[r].pc == Waiting(attempt, s.clock + BackoffMs(BASE_MS, attempt))
  }

  /** A wait as the protocol takes it: the others act while the request sleeps, it wakes on time,
      and each probe, with the lookup that may follow, runs alone. */
  ghost function WaitSteps(s: State, r: nat, others: Others, attempt: nat): State
    requires Asleep(s, r, attempt)
    decreases RETRY_MAX - attempt
  {
    var probed := Next(Woken(s, others, attempt), Step(r, NoFault));
    if probed.clients[r].pc.Waiting? then WaitSteps(probed, r, others, attempt + 1) else Alone(probed, r, 3)
  }

  lemma ProbeIs(s: State, r: nat, attempt: nat)
    requires r in s.clients && s.clients[r].pc == Waiting(attempt, s.clock)
    ensures Next(s, Step(r, NoFault)) == At(s, r,
      if !HasLock(s, s.clients[r].req.key) then Getting(true)
      else if attempt + 1 >= RETRY_MAX then Scanning
      else Waiting(attempt + 1, s.clock + BackoffMs(BASE_MS, attempt + 1)))
  {}

  /** A request asleep again after a probe that found the lock. */
  function SleepingOn(s: State, r: nat, others: Others, attempt: nat): State
    requires r in s.clients
  {
    var woken := Woken(s, others, attempt);
    At(woken, r, Waiting(attempt + 1, woken.clock + BackoffMs(BASE_MS, attempt + 1)))
  }

  lemma ScanningStays(s: State, r: nat, n: nat)
    requires r in s.clients && s.clients[r].pc.Scanning?
    ensures Alone(s, r, n) == s
  {}

  /** One turn of `WaitSteps`: the request wakes, probes, and goes on as it finds the lock. */
  lemma WaitTurn(s: State, r: nat, others: Others, attempt: nat)
    requires Asleep(s, r, attempt)
    ensures var woken := Woken(s, others, attempt);
      var probed := Next(woken, Step(r, NoFault));
      && probed == (
           if !HasLock(woken, s.clients[r].req.key) then At(woken, r, Getting(true))
           else if attempt + 1 >= RETRY_MAX then At(woken, r, Scanning)
           else SleepingOn(s, r, others, attempt))
      && WaitSteps(s, r, others, attempt) ==
           if probed.clients[r].pc.Waiting? then WaitSteps(probed, r, others, attempt + 1) else Alone(probed, r, 3)
  {
    ProbeIs(Woken(s, others, attempt), r, attempt);
  }

  /** The state a finished wait leaves for the request. */
  function Ended(s: State, r: nat, w: Waited): State
    requires r in s.clients
  {
    At(s, r, match w.result case Some(e) => Hit(e) case None => Scanning).(store := w.store, clock := w.clock)
  }

  lemma EndedLater(s: State, r: nat, others: Others, attempt: nat, pc: Pc, w: Waited)
    requires r in s.clients
    ensures Ended(At(Woken(s, others, attempt), r, pc), r, w) == Ended(s, r, w)
  {}

  lemma LookupEnds(s: State, r: nat)
    requires r in s.clients && s.clients[r].pc == Getting(true)
    ensures var key := s.clients[r].req.key;
      Alone(s, r, 3) == Ended(s, r, Waited(LookedUp(s.store, key, s.clock), s.clock, 0, Found(s.store, key, s.clock)))
  {
    LookupIsSteps(s, r, 3);
  }

  lemma LastTurn(s: State, r: nat, others: Others, attempt: nat)
    requires Asleep(s, r, attempt) && !HasLock(Woken(s, others, attempt), s.clients[r].req.key)
    ensures var woken, key := Woken(s, others, attempt), s.clients[r].req.key;
      WaitSteps(s, r, others, attempt) == Ended(s, r,
        Waited(LookedUp(woken.store, key, woken.clock), woken.clock, 0, Found(woken.store, key, woken.clock)))
  {
    var woken, key := Woken(s, others, attempt), s.clients[r].req.key;
    WaitTurn(s, r, others, attempt);
    LookupEnds(At(woken, r, Getting(true)), r);
    EndedLater(s, r, others, attempt, Getting(true),
      Waited(LookedUp(woken.store, key, woken.clock), woken.clock, 0, Found(woken.store, key, woken.clock)));
  }

  lemma LastProbe(s: State, r: nat, others: Others, attempt: nat)
    requires Asleep(s, r, attempt) && HasLock(Woken(s, others, attempt), s.clients[r].req.key)
    requires attempt + 1 == RETRY_MAX
    ensures var woken := Woken(s, others, attempt);
      WaitSteps(s, r, others, attempt) == Ended(s, r, Waited(woken.store, woken.clock, attempt + 1, None))
  {
    WaitTurn(s, r, others, attempt);
    ScanningStays(At(Woken(s, others, attempt), r, Scanning), r, 3);
  }

  lemma MiddleTurn(s: State, r: nat, others: Others, attempt: nat, w: Waited)
    requires Asleep(s, r, attempt) && HasLock(Woken(s, others, attempt), s.clients[r].req.key)
    requires attempt + 1 < RETRY_MAX
    ensures var s' := SleepingOn(s, r, others, attempt);
      && Asleep(s', r, attempt + 1) && s'.clients[r].req == s.clients[r].req
      && WaitSteps(s, r, others, attempt) == WaitSteps(s', r, others, attempt + 1)
      && Ended(s', r, w) == Ended(s, r, w)
  {
    WaitTurn(s, r, others, attempt);
    EndedOn(s, r, others, attempt, w);
  }

  lemma EndedOn(s: State, r: nat, others: Others, attempt: nat, w: Waited)
    requires r in s.clients
    ensures Ended(SleepingOn(s, r, others, attempt), r, w) == Ended(s, r, w)
  {
    var woken := Woken(s, others, attempt);
    EndedLater(s, r, others, attempt, Waiting(attempt + 1, woken.clock + BackoffMs(BASE_MS, attempt + 1)), w);
  }

  /** One turn of `AwaitFrom`, for a sleeping request's store and clock. */
  lemma AwaitTurn(s: State, others: Others, key: string, attempt: nat)
    requires attempt < RETRY_MAX
    ensures var woken := Woken(s, others, attempt);
      AwaitFrom(BASE_MS, RETRY_MAX, key, others, s.store, s.clock, attempt) ==
        if HasLock(woken, key)
        then AwaitFrom(BASE_MS, RETRY_MAX, key, others, woken.store, woken.clock, attempt + 1)
        else Waited(
          LookedUp(woken.store, key, woken.clock), woken.clock, attempt + 1, Found(woken.store, key, woken.clock))
    ensures AwaitFrom(BASE_MS, RETRY_MAX, key, others, s.store, s.clock, RETRY_MAX) ==
      Waited(s.store, s.clock, RETRY_MAX, None)
  {}

  /** The waiting steps of the protocol are `await_ghost_lock_release`: the same store, the same
      time, and a hit exactly if the method returns the entry. */
  lemma {:induction false} AwaitIsSteps(s: State, r: nat, others: Others, attempt: nat)
    requires Asleep(s, r, attempt) && attempt < RETRY_MAX
    ensures WaitSteps(s, r, others, attempt) ==
      Ended(s, r, AwaitFrom(BASE_MS, RETRY_MAX, s.clients[r].req.key, others, s.store, s.clock, attempt))
    decreases RETRY_MAX - attempt
  {
    var woken, key := Woken(s, others, attempt), s.clients[r].req.key;
    AwaitTurn(s, others, key, attempt);
    if !HasLock(woken, key) {
      LastTurn(s, r, others, attempt);
    } else if attempt + 1 == RETRY_MAX {
      LastProbe(s, r, others, attempt);
      AwaitTurn(woken, others, key, attempt);
    } else {
      var s' := SleepingOn(s, r, others, attempt);
      MiddleTurn(s, r, others, attempt,
        AwaitFrom(BASE_MS, RETRY_MAX, key, others, woken.store, woken.clock, attempt + 1));
      AwaitIsSteps(s', r, others, attempt + 1);
    }
  }

  // ---- How long a wait takes ----

  /** The store after n sleeps, as long as the waiter only probes. */
  function StoreAt(others: Others, st: Store, n: nat): Store {
    if n == 0 then st else others(n - 1, StoreAt(others, st, n - 1))
  }

  /** As the others act from this store on, the lock is there until x ms after the wait began and
      never again. */
  ghost predicate VanishesAt(base: nat, key: string, others: Others, st: Store, start: nat, x: nat) {
    forall n: nat :: n > 0 ==>
      (Exists(StoreAt(others, st, n).locks, key, start + TotalWait(base, n)) <==> TotalWait(base, n) < x)
  }

  /** The wait ended with a lookup in this store, which no longer held the lock. */
  predicate LooksUp(w: Waited, key: string, st: Store) {
    !Exists(st.locks, key, w.clock) && w.store == LookedUp(st, key, w.clock) && w.result == Found(st, key, w.clock)
  }

  /** One turn of the waiting loop. */
  lemma AwaitStep(base: nat, max: nat, key: string, others: Others, st: Store, start: nat, x: nat, attempt: nat)
    requires VanishesAt(base, key, others, st, start, x) && attempt < max
    ensures var w :=
        AwaitFrom(base, max, key, others, StoreAt(others, st, attempt), start + TotalWait(base, attempt), attempt);
      var t := TotalWait(base, attempt + 1);
      if t < x then w == AwaitFrom(base, max, key, others, StoreAt(others, st, attempt + 1), start + t, attempt + 1)
      else w.clock == start + t && LooksUp(w, key, StoreAt(others, st, attempt + 1))
  {
    var st', t := StoreAt(others, st, attempt + 1), TotalWait(base, attempt + 1);
    assert t == TotalWait(base, attempt) + BackoffMs(base, attempt);
    assert Exists(st'.locks, key, start + t) <==> t < x;
  }

  /** The waiter sleeps through every probe that finds the lock. */
  lemma {:induction false} AwaitUntil(
      base: nat, max: nat, key: string, others: Others, st: Store, start: nat, x: nat, attempt: nat, n: nat)
    requires VanishesAt(base, key, others, st, start, x) && attempt < n <= max
    requires x <= TotalWait(base, n) && (attempt + 1 < n ==> TotalWait(base, n - 1) < x)
    ensures var w :=
        AwaitFrom(base, max, key, others, StoreAt(others, st, attempt), start + TotalWait(base, attempt), attempt);
      w.clock == start + TotalWait(base, n) && LooksUp(w, key, StoreAt(others, st, n))
    decreases n - attempt
  {
    AwaitStep(base, max, key, others, st, start, x, attempt);
    if attempt + 1 < n {
      TotalWaitMonotone(base, attempt + 1, n - 1);
      AwaitUntil(base, max, key, others, st, start, x, attempt + 1, n);
    }
  }

  lemma {:induction false} GivesUp(
      base: nat, max: nat, key: string, others: Others, st: Store, start: nat, x: nat, attempt: nat)
    requires VanishesAt(base, key, others, st, start, x) && attempt <= max && x > TotalWait(base, max)
    ensures var w :=
        AwaitFrom(base, max, key, others, StoreAt(others, st, attempt), start + TotalWait(base, attempt), attempt);
      w.result == None && w.clock == start + TotalWait(base, max) && w.store == StoreAt(others, st, max)
    decreases max - attempt
  {
    if attempt < max {
      TotalWaitMonotone(base, attempt + 1, max);
      AwaitStep(base, max, key, others, st, start, x, attempt);
      GivesUp(base, max, key, others, st, start, x, attempt + 1);
    }
  }

  /** The first probe at or after x. */
  lemma {:induction false} FirstProbe(x: nat, n: nat) returns (k: nat)
    requires 1 <= n && x <= TotalWait(BASE_MS, n)
    ensures 1 <= k <= n && x <= TotalWait(BASE_MS, k) && (1 < k ==> TotalWait(BASE_MS, k - 1) < x)
  {
    if n == 1 || TotalWait(BASE_MS, n - 1) < x { k := n; } else { k := FirstProbe(x, n - 1); }
  }

  /** The schedule of the eight probes. */
  lemma Schedule()
    ensures TotalWait(BASE_MS, 7) == 6350 && TotalWait(BASE_MS, 8) == 9550
  {
    TotalWaitClosed(BASE_MS, 7);
    TotalWaitClosed(BASE_MS, 8);
    assert Pow2(7) == 128;
  }

  /** How late the first probe after x can come. */
  lemma ProbeDelay(x: nat, k: nat)
    requires 1 <= k <= RETRY_MAX && (1 < k ==> TotalWait(BASE_MS, k - 1) < x)
    ensures TotalWait(BASE_MS, k) <= if x <= 6350 then 2 * x + 50 else x + 3200
  {
    Schedule();
    if k == 1 {
      TotalWaitClosed(BASE_MS, 1);
      assert Pow2(1) == 2;
    } else if k == 8 {
      assert x > 6350;
    } else {
      NextWake(BASE_MS, k - 1);
      TotalWaitMonotone(BASE_MS, k, 7);
    }
  }

  lemma NoticedInTime(key: string, others: Others, st: Store, start: nat, x: nat) returns (k: nat)
    requires VanishesAt(BASE_MS, key, others, st, start, x) && x <= 9550
    ensures var w := Await(key, others, st, start);
      && start + x <= w.clock <= start + (if x <= 6350 then 2 * x + 50 else x + 3200)
      && w.clock == start + TotalWait(BASE_MS, k) && LooksUp(w, key, StoreAt(others, st, k))
  {
    Schedule();
    k := FirstProbe(x, RETRY_MAX);
    AwaitUntil(BASE_MS, RETRY_MAX, key, others, st, start, x, 0, k);
    ProbeDelay(x, k);
  }

  /** Waiting is competitive. With Redis answering at once, if the lock vanishes for good
      x ms into the wait, the waiter looks the entry up after its k-th sleep, in the store the
      others have made of it by then, no sooner than x and by 2x + 50 ms, or by x + 3200 ms once the
      sleep no longer doubles; beyond 9550 ms, well inside the lock's own lifetime, it gives up. */
  lemma WaitIsCompetitive(key: string, others: Others, st: Store, start: nat, x: nat) returns (k: nat)
    requires VanishesAt(BASE_MS, key, others, st, start, x)
    ensures var w := Await(key, others, st, start);
      if x <= 9550 then
        && start + x <= w.clock <= start + (if x <= 6350 then 2 * x + 50 else x + 3200)
        && w.clock == start + TotalWait(BASE_MS, k) && LooksUp(w, key, StoreAt(others, st, k))
      else
        && w.clock == start + 9550 < start + 30_000
        && k == RETRY_MAX && w.result == None && w.store == StoreAt(others, st, k)
  {
    if x <= 9550 {
      k := NoticedInTime(key, others, st, start, x);
    } else {
      Schedule();
      k := RETRY_MAX;
      GivesUp(BASE_MS, k, key, others, st, start, x, 0);
    }
  }
}
