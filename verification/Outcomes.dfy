/** Where one command takes a request, by its outcome: the handler's branches, and what each of them
    does to the store. */
module Outcomes {
  import opened Wrappers
  import opened Redis
  import opened Policy
  import opened Backoff
  import opened Protocol

  ghost predicate OnColdRoute(s: State, r: nat) { r in s.clients && Owning(s.clients[r].pc) }

  /** In the middle of `lookup`. */
  predicate LookingUp(pc: Pc) { pc.Getting? || pc.Touching? || pc.Putting? }

  /** The cold route is taken exactly by a request that takes the free lock; whose last of eight
      probes still finds it; whose lookup after the wait misses; or whose lookup or probe reports an
      error. A miss before the lock, and an error at the lock, do not lead there. */
  lemma TurnsColdExactly(s: State, a: Action, s': State, r: nat)
    requires IsStep(s, a, s') && r in s.clients && !OnColdRoute(s, r)
    ensures OnColdRoute(s', r) <==>
      && StepsAt(s, a, r)
      && var pc, key := s.clients[r].pc, s.clients[r].req.key;
         || (pc.Acquiring? && a.fault == NoFault && !HasLock(s, key))
         || (pc.Waiting? && (a.fault != NoFault || (HasLock(s, key) && pc.attempt >= 7)))
         || (pc == Getting(true) && a.fault == NoFault && !HasEntry(s, key))
         || (LookingUp(pc) && a.fault != NoFault)
  {}

  /** A request hits exactly when the SET of its lookup is answered, with the entry it stored: the one
      it had read, with one more hit and the time of this one. */
  lemma HitsExactly(s: State, a: Action, s': State, r: nat)
    requires IsStep(s, a, s') && r in s.clients && !s.clients[r].pc.Hit?
    ensures s'.clients[r].pc.Hit? <==> StepsAt(s, a, r) && s.clients[r].pc.Putting? && a.fault == NoFault
    ensures s'.clients[r].pc.Hit? ==>
      var was, e := s.clients[r].pc.found, s'.clients[r].pc.found;
      && s'.store.cache == s.store.cache[s.clients[r].req.key := Timed(e, None)]
      && e.writer == was.writer && e.entry.hitCount == was.entry.hitCount + 1 && e.entry.lastHitAt == s.clock / 1000
      && e.entry.(hitCount := was.entry.hitCount, lastHitAt := was.entry.lastHitAt) == was.entry
  {}

  /** A request turns to the lock exactly when its first GET is answered and finds nothing. */
  lemma TurnsToLockExactly(s: State, a: Action, s': State, r: nat)
    requires IsStep(s, a, s') && r in s.clients && !s.clients[r].pc.Acquiring?
    ensures s'.clients[r].pc.Acquiring? <==>
      && StepsAt(s, a, r) && s.clients[r].pc == Getting(false) && a.fault == NoFault
      && !HasEntry(s, s.clients[r].req.key)
  {}

  /** A request that did not get the lock, or no answer about it, sleeps 50 ms before its first probe. */
  lemma TurnedAway(s: State, a: Action, s': State, r: nat)
    requires IsStep(s, a, s') && StepsAt(s, a, r) && s.clients[r].pc.Acquiring?
    ensures s'.clients[r].pc ==
      if a.fault == NoFault && !HasLock(s, s.clients[r].req.key) then Scanning else Waiting(0, s.clock + 50)
  {
    Sleeps(0);
  }

  /** The sleeps, in ms. */
  lemma Sleeps(attempt: nat)
    ensures BackoffMs(BASE_MS, attempt) == match attempt
      case 0 => 50 case 1 => 100 case 2 => 200 case 3 => 400 case 4 => 800 case 5 => 1600 case _ => 3200
  {
    assert Pow2(1) == 2 && Pow2(2) == 4 && Pow2(3) == 8;
    assert Pow2(4) == 16 && Pow2(5) == 32 && Pow2(6) == 64;
  }

  /** A waiter's probe: eight at most, and the sleep before the next doubles up to 3200 ms. */
  lemma Probes(s: State, a: Action, s': State, r: nat)
    requires IsStep(s, a, s') && StepsAt(s, a, r) && s.clients[r].pc.Waiting? && a.fault == NoFault
    ensures var pc := s.clients[r].pc;
      s'.clients[r].pc ==
        if !HasLock(s, s.clients[r].req.key) then Getting(true)
        else if pc.attempt >= 7 then Scanning
        else Waiting(pc.attempt + 1, s.clock + (match pc.attempt
          case 0 => 100 case 1 => 200 case 2 => 400 case 3 => 800 case 4 => 1600 case _ => 3200))
  {
    Sleeps(s.clients[r].pc.attempt + 1);
  }

  /** A warm task writes and then deletes the lock, whatever either command reports. */
  lemma WarmsThenReleases(s: State, a: Action, s': State, r: nat)
    requires IsStep(s, a, s') && StepsAt(s, a, r)
    ensures var c, key := s.clients[r], s.clients[r].req.key;
      && (c.pc.Warming? ==>
           && c.pc.wake <= s.clock
           && s'.clients[r].pc == Releasing(c.pc.pod)
           && s'.store.locks == s.store.locks
           && (a.fault == NotSent ==> s'.store.cache == s.store.cache)
           && (a.fault != NotSent ==>
                && key in s'.store.cache && s'.store.cache - {key} == s.store.cache - {key}
                && s'.store.cache[key].value.writer == r
                && s'.store.cache[key].value.entry == CacheEntry(
                     key, c.req.podIp, c.pc.pod, c.req.blockCount, c.req.tokenCount, 0,
                     s.clock / 1000, s.clock / 1000, c.req.policy)))
      && (c.pc.Releasing? ==>
           && s'.clients[r].pc == Missed(c.pc.pod)
           && s'.store.cache == s.store.cache
           && s'.store.locks == if a.fault == NotSent then s.store.locks else s.store.locks - {key})
  {}

  /** What a command for one key does to others: nothing. */
  lemma OtherKeysUntouched(s: State, a: Action, s': State, r: nat, key: string)
    requires IsStep(s, a, s') && StepsAt(s, a, r) && s.clients[r].req.key != key
    ensures key in s'.store.cache <==> key in s.store.cache
    ensures key in s.store.cache ==> s'.store.cache[key] == s.store.cache[key]
    ensures key in s'.store.locks <==> key in s.store.locks
    ensures key in s.store.locks ==> s'.store.locks[key] == s.store.locks[key]
    ensures s'.store.loads == s.store.loads
  {}
}
