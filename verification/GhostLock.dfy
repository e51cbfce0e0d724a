/** What the Ghost-Lock guarantees, and under which conditions. */
module GhostLock {
  import opened Redis
  import opened Backoff
  import opened Protocol
  import opened Affinity

  // ---- Runs in which nothing befalls a key: no Redis error, eviction or expiry ----

  /** Nothing goes wrong for the key: no command fails for a request for it, and neither its entry
      nor its lock is evicted. */
  ghost predicate QuietAction(s: State, a: Action, key: string) {
    match a
    case Step(r, fault) => r in s.clients && s.clients[r].req.key == key ==> fault == NoFault
    case Scan(r, _, fault) => r in s.clients && s.clients[r].req.key == key ==> fault == NoFault
    case EvictEntry(k) => k != key
    case EvictLock(k) => k != key
    case _ => true
  }

  ghost predicate NothingExpired(s: State, key: string) {
    && (key in s.store.cache ==> !Expired(s.store.cache[key], s.clock))
    && (key in s.store.locks ==> !Expired(s.store.locks[key], s.clock))
  }

  /** A run that is quiet for the key, whatever befalls other keys. */
  ghost predicate QuietRun(run: Run, key: string) {
    && IsRun(run)
    && (forall i :: 0 <= i < |run.actions| ==> QuietAction(run.states[i], run.actions[i], key))
    && (forall i :: 0 <= i < |run.states| ==> NothingExpired(run.states[i], key))
  }

  ghost predicate QuietStep(s: State, a: Action, s': State, key: string) {
    IsStep(s, a, s') && QuietAction(s, a, key) && NothingExpired(s, key) && NothingExpired(s', key)
  }

  lemma QuietRunStep(run: Run, i: nat, key: string)
    requires QuietRun(run, key) && i < |run.actions|
    ensures QuietStep(run.states[i], run.actions[i], run.states[i + 1], key)
  {}

  /** Entries stay once they are there. */
  lemma EntryStays(s: State, a: Action, s': State, key: string)
    requires QuietStep(s, a, s', key) && HasEntry(s, key)
    ensures HasEntry(s', key)
  {}

  /** Only a release takes a lock away. */
  lemma LockGoes(s: State, a: Action, s': State, key: string)
    requires QuietStep(s, a, s', key) && HasLock(s, key) && !HasLock(s', key)
    ensures a.Step? && s.clients[a.r].pc.Releasing? && s.clients[a.r].req.key == key
  {}

  // ---- Waiters hit ----

  /** What a request may rely on at each point: a waiter has the lock or the entry to look
      forward to, and whoever found an entry, saw the lock go, or is about to release has an
      entry behind it. */
  ghost predicate Served(s: State, c: Client) {
    match c.pc
    case Waiting(_, _) => HasLock(s, c.req.key) || HasEntry(s, c.req.key)
    case Getting(again) => again ==> HasEntry(s, c.req.key)
    case Touching(_, _) => HasEntry(s, c.req.key)
    case Putting(_, _) => HasEntry(s, c.req.key)
    case Releasing(_) => HasEntry(s, c.req.key)
    case _ => true
  }

  ghost predicate AllServed(s: State, key: string) {
    forall r :: r in s.clients && s.clients[r].req.key == key ==> Served(s, s.clients[r])
  }

  lemma ServedStays(s: State, a: Action, s': State, c: Client, key: string)
    requires QuietStep(s, a, s', key) && AllServed(s, key) && Served(s, c) && c.req.key == key
    ensures Served(s', c)
  {
    if HasEntry(s, key) {
      EntryStays(s, a, s', key);
    } else if HasLock(s, key) && !HasLock(s', key) {
      LockGoes(s, a, s', key);
      assert Served(s, s.clients[a.r]);
    }
  }

  lemma ServedNow(s: State, a: Action, s': State, key: string)
    requires QuietStep(s, a, s', key) && AllServed(s, key) && a.Step? && s.clients[a.r].req.key == key
    ensures Served(s', s'.clients[a.r])
  {
    var c := s.clients[a.r];
    assert Served(s, c);
    if HasEntry(s, key) { EntryStays(s, a, s', key); }
  }

  lemma AllServedStep(s: State, a: Action, s': State, key: string)
    requires QuietStep(s, a, s', key) && AllServed(s, key)
    ensures AllServed(s', key)
  {
    forall r | r in s'.clients && s'.clients[r].req.key == key ensures Served(s', s'.clients[r]) {
      if r in s.clients && s'.clients[r] == s.clients[r] {
        ServedStays(s, a, s', s.clients[r], key);
      } else if a.Step? {
        ServedNow(s, a, s', key);
      }
    }
  }

  lemma {:induction false} AllServedAlways(run: Run, i: nat, key: string)
    requires QuietRun(run, key) && i < |run.states|
    ensures AllServed(run.states[i], key)
  {
    if i > 0 {
      AllServedAlways(run, i - 1, key);
      QuietRunStep(run, i - 1, key);
      AllServedStep(run.states[i - 1], run.actions[i - 1], run.states[i], key);
    }
  }

  // ---- A lock that is gone has left its entry ----

  /** A run that keeps the key's data: neither its entry nor its lock is evicted or expires, and every
      warm write for it reaches Redis. Any other command may fail, and any reply may be lost. */
  ghost predicate KeepingRun(run: Run, key: string) {
    && IsRun(run)
    && (forall i :: 0 <= i < |run.actions| ==> KeepingAction(run.states[i], run.actions[i], key))
    && (forall i :: 0 <= i < |run.states| ==> NothingExpired(run.states[i], key))
  }

  ghost predicate KeepingAction(s: State, a: Action, key: string) {
    && a != EvictEntry(key) && a != EvictLock(key)
    && (a.Step? && a.r in s.clients && s.clients[a.r].req.key == key && s.clients[a.r].pc.Warming? ==>
         a.fault != NotSent)
  }

  lemma QuietKeeps(run: Run, key: string)
    requires QuietRun(run, key)
    ensures KeepingRun(run, key)
  {
    forall i | 0 <= i < |run.actions| ensures KeepingAction(run.states[i], run.actions[i], key) {
      assert QuietAction(run.states[i], run.actions[i], key);
    }
  }

  /** Whoever is about to release has an entry behind it. */
  ghost predicate ReleasersServed(s: State, key: string) {
    forall r :: r in s.clients && s.clients[r].req.key == key && s.clients[r].pc.Releasing? ==> HasEntry(s, key)
  }

  ghost predicate KeepingStep(s: State, a: Action, s': State, key: string) {
    IsStep(s, a, s') && KeepingAction(s, a, key) && NothingExpired(s, key) && NothingExpired(s', key)
  }

  lemma EntryKept(s: State, a: Action, s': State, key: string)
    requires KeepingStep(s, a, s', key) && HasEntry(s, key)
    ensures HasEntry(s', key)
  {}

  lemma ReleasersServedStep(s: State, a: Action, s': State, key: string)
    requires KeepingStep(s, a, s', key) && ReleasersServed(s, key)
    ensures ReleasersServed(s', key)
  {
    if HasEntry(s, key) { EntryKept(s, a, s', key); }
  }

  lemma {:induction false} ReleasersServedAlways(run: Run, i: nat, key: string)
    requires KeepingRun(run, key) && i < |run.states|
    ensures ReleasersServed(run.states[i], key)
  {
    if i > 0 {
      ReleasersServedAlways(run, i - 1, key);
      ReleasersServedStep(run.states[i - 1], run.actions[i - 1], run.states[i], key);
    }
  }

  /** The lock or the entry is there. */
  ghost predicate Covered(s: State, key: string) { HasLock(s, key) || HasEntry(s, key) }

  lemma CoveredStep(s: State, a: Action, s': State, key: string)
    requires KeepingStep(s, a, s', key) && ReleasersServed(s, key) && Covered(s, key)
    ensures Covered(s', key)
  {
    if HasEntry(s, key) { EntryKept(s, a, s', key); }
  }

  lemma CoveredNext(run: Run, j: nat, key: string)
    requires KeepingRun(run, key) && j < |run.actions| && Covered(run.states[j], key)
    ensures Covered(run.states[j + 1], key)
  {
    ReleasersServedAlways(run, j, key);
    CoveredStep(run.states[j], run.actions[j], run.states[j + 1], key);
  }

  lemma {:induction false} CoveredLater(run: Run, i: nat, j: nat, key: string)
    requires KeepingRun(run, key) && i <= j < |run.states| && Covered(run.states[i], key)
    ensures Covered(run.states[j], key)
  {
    if i < j {
      CoveredLater(run, i, j - 1, key);
      CoveredNext(run, j - 1, key);
    }
  }

  /** In every run that keeps the key's data, a lock that was once held and is gone has left its
      entry behind, whatever else fails. */
  lemma LockGoneMeansEntry(run: Run, i: nat, j: nat, key: string)
    requires KeepingRun(run, key) && i <= j < |run.states|
    requires HasLock(run.states[i], key) && !HasLock(run.states[j], key)
    ensures HasEntry(run.states[j], key)
  {
    CoveredLater(run, i, j, key);
  }

  /** On the way to a hit, with no way back to the cold route. */
  predicate BoundToHit(pc: Pc) {
    match pc
    case Getting(again) => again
    case Touching(again, _) => again
    case Putting(again, _) => again
    case Hit(_) => true
    case Dropped => true
    case _ => false
  }

  ghost predicate Bound(s: State, r: nat, key: string) {
    r in s.clients && s.clients[r].req.key == key && BoundToHit(s.clients[r].pc)
  }

  lemma BoundFirst(s: State, a: Action, s': State, r: nat, key: string)
    requires QuietStep(s, a, s', key) && StepsAt(s, a, r) && s.clients[r].pc.Waiting?
    requires s.clients[r].req.key == key && !HasLock(s, key)
    ensures Bound(s', r, key)
  {}

  lemma BoundStep(s: State, a: Action, s': State, r: nat, key: string)
    requires QuietStep(s, a, s', key) && AllServed(s, key) && Bound(s, r, key)
    ensures Bound(s', r, key)
  {
    assert Served(s, s.clients[r]);
  }

  lemma BoundNext(run: Run, j: nat, r: nat, key: string)
    requires QuietRun(run, key) && j < |run.actions| && Bound(run.states[j], r, key)
    ensures Bound(run.states[j + 1], r, key)
  {
    AllServedAlways(run, j, key);
    QuietRunStep(run, j, key);
    BoundStep(run.states[j], run.actions[j], run.states[j + 1], r, key);
  }

  /** In every quiet run, a waiter that sees the lock gone ends on a hit: it never falls
      through to the cold route, whatever the others do. */
  lemma {:induction false} WaiterHits(run: Run, i: nat, j: nat, r: nat, key: string)
    requires QuietRun(run, key) && i < j < |run.states|
    requires StepsAt(run.states[i], run.actions[i], r) && run.states[i].clients[r].pc.Waiting?
    requires run.states[i].clients[r].req.key == key && !HasLock(run.states[i], key)
    ensures Bound(run.states[j], r, key)
  {
    if i + 1 < j {
      WaiterHits(run, i, j - 1, r, key);
      BoundNext(run, j - 1, r, key);
    } else {
      QuietRunStep(run, i, key);
      BoundFirst(run.states[i], run.actions[i], run.states[j], r, key);
    }
  }

  // ---- Mutual exclusion ----

  /** A waiter gives up: its last probe still finds the lock. */
  ghost predicate Exhausts(s: State, a: Action) {
    && a.Step? && a.r in s.clients && s.clients[a.r].pc.Waiting?
    && s.clients[a.r].pc.attempt + 1 >= RETRY_MAX && HasLock(s, s.clients[a.r].req.key)
  }

  /** Request r is warming the key: between turning cold and having released the lock. */
  ghost predicate Warms(s: State, r: nat, key: string) {
    r in s.clients && s.clients[r].req.key == key && Owning(s.clients[r].pc)
  }

  /** Request r holds the lock of the key: it is warming it, or was dropped and left its lock behind. */
  ghost predicate Holds(s: State, r: nat, key: string) {
    || Warms(s, r, key)
    || (&& r in s.clients && s.clients[r].req.key == key && s.clients[r].pc.Dropped?
        && key in s.store.locks && s.store.locks[key].value == r)
  }

  /** A waiter for the key gives up. */
  ghost predicate GivesUpOn(s: State, a: Action, key: string) { Exhausts(s, a) && s.clients[a.r].req.key == key }

  ghost predicate NobodyGaveUp(run: Run, n: nat, key: string) {
    forall i :: 0 <= i < n && i < |run.actions| && i < |run.states| ==>
      !GivesUpOn(run.states[i], run.actions[i], key)
  }

  /** Whoever is warming the key has the lock. */
  ghost predicate OwnersLocked(s: State, key: string) {
    forall r :: Warms(s, r, key) ==>
      key in s.store.locks && s.store.locks[key].value == r
  }

  ghost predicate LockOwned(s: State, key: string) {
    key in s.store.locks ==> Holds(s, s.store.locks[key].value, key)
  }

  lemma OwnersStep(s: State, a: Action, s': State, key: string)
    requires QuietStep(s, a, s', key) && !GivesUpOn(s, a, key) && AllServed(s, key) && OwnersLocked(s, key)
    ensures OwnersLocked(s', key)
  {
    if a.Step? && s.clients[a.r].req.key == key {
      assert Served(s, s.clients[a.r]);
      assert Owning(s.clients[a.r].pc) ==> Warms(s, a.r, key);
    }
    forall r | Warms(s', r, key) ensures key in s'.store.locks && s'.store.locks[key].value == r {
      assert Warms(s, r, key) || (a.Step? && a.r == r);
    }
  }

  /** A holder goes on holding until the lock is deleted. */
  lemma HolderStays(s: State, a: Action, s': State, key: string)
    requires QuietStep(s, a, s', key) && OwnersLocked(s, key) && LockOwned(s, key)
    requires key in s.store.locks && key in s'.store.locks
    ensures s'.store.locks[key] == s.store.locks[key]
    ensures Holds(s', s.store.locks[key].value, key)
  {
    assert Holds(s, s.store.locks[key].value, key);
  }

  lemma LockOwnedStep(s: State, a: Action, s': State, key: string)
    requires QuietStep(s, a, s', key) && OwnersLocked(s, key) && LockOwned(s, key)
    ensures LockOwned(s', key)
  {
    if key in s.store.locks && key in s'.store.locks { HolderStays(s, a, s', key); }
  }

  lemma {:induction false} ExclusionAlways(run: Run, i: nat, key: string)
    requires QuietRun(run, key) && i < |run.states| && NobodyGaveUp(run, i, key)
    ensures OwnersLocked(run.states[i], key) && LockOwned(run.states[i], key)
  {
    if i > 0 {
      ExclusionAlways(run, i - 1, key);
      AllServedAlways(run, i - 1, key);
      QuietRunStep(run, i - 1, key);
      OwnersStep(run.states[i - 1], run.actions[i - 1], run.states[i], key);
      LockOwnedStep(run.states[i - 1], run.actions[i - 1], run.states[i], key);
    }
  }

  ghost predicate OneHolder(s: State, key: string) {
    forall q, r :: Holds(s, q, key) && Holds(s, r, key) ==> q == r
  }

  /** Conditional mutual exclusion. In a quiet run, as long as no waiter for the key has given
      up, its lock is present exactly while some request holds it, and never do two. */
  lemma MutualExclusion(run: Run, i: nat, key: string)
    requires QuietRun(run, key) && i < |run.states| && NobodyGaveUp(run, i, key)
    ensures HasLock(run.states[i], key) <==> exists r :: Holds(run.states[i], r, key)
    ensures OneHolder(run.states[i], key)
  {
    ExclusionAlways(run, i, key);
    var s := run.states[i];
    assert NothingExpired(s, key);
    if HasLock(s, key) { assert Holds(s, s.store.locks[key].value, key); }
  }

  /** The first waiter to give up joins the holder. */
  lemma GivingUpJoins(s: State, a: Action, s': State, key: string)
    requires QuietStep(s, a, s', key) && OwnersLocked(s, key) && LockOwned(s, key) && GivesUpOn(s, a, key)
    ensures !OneHolder(s', key)
  {
    HolderStays(s, a, s', key);
    var q := s.store.locks[key].value;
    assert Holds(s, q, key) && q != a.r;
    assert Holds(s', q, key) && Holds(s', a.r, key);
  }

  lemma {:induction false} FirstToGiveUp(run: Run, n: nat, key: string) returns (i: nat)
    requires QuietRun(run, key) && n < |run.states| && !NobodyGaveUp(run, n, key)
    ensures i < n && GivesUpOn(run.states[i], run.actions[i], key) && NobodyGaveUp(run, i, key)
  {
    if NobodyGaveUp(run, n - 1, key) { i := n - 1; } else { i := FirstToGiveUp(run, n - 1, key); }
  }

  /** Holders exactly. In a quiet run, up to any moment, a key has never had two holders, dropped
      ones included, if and only if no waiter for it has given up. */
  lemma ExclusionExactly(run: Run, n: nat, key: string)
    requires QuietRun(run, key) && n < |run.states|
    ensures NobodyGaveUp(run, n, key) <==> forall i :: 0 <= i <= n ==> OneHolder(run.states[i], key)
  {
    if NobodyGaveUp(run, n, key) {
      forall i | 0 <= i <= n ensures OneHolder(run.states[i], key) { MutualExclusion(run, i, key); }
    } else {
      var i := FirstToGiveUp(run, n, key);
      ExclusionAlways(run, i, key);
      QuietRunStep(run, i, key);
      GivingUpJoins(run.states[i], run.actions[i], run.states[i + 1], key);
    }
  }

  // ---- One warmer ----

  ghost predicate OneWarmer(s: State, key: string) {
    forall q, r :: Warms(s, q, key) && Warms(s, r, key) ==> q == r
  }

  ghost predicate WarmerLocked(s: State, key: string) { forall r :: Warms(s, r, key) ==> HasLock(s, key) }

  /** A waiter for the key gives up while another request is warming it. */
  ghost predicate Joins(s: State, a: Action, key: string) { GivesUpOn(s, a, key) && exists q :: Warms(s, q, key) }

  ghost predicate NobodyJoined(run: Run, n: nat, key: string) {
    forall i :: 0 <= i < n && i < |run.actions| && i < |run.states| ==> !Joins(run.states[i], run.actions[i], key)
  }

  /** A warmer is one already, or takes the free lock, or gives up waiting. */
  lemma WarmerStep(s: State, a: Action, s': State, r: nat, key: string)
    requires QuietStep(s, a, s', key) && AllServed(s, key) && Warms(s', r, key)
    ensures Warms(s, r, key) || (a.Step? && a.r == r && HasLock(s', key) && (!HasLock(s, key) || GivesUpOn(s, a, key)))
  {
    if a.Step? && a.r == r && s.clients[r].req.key == key { assert Served(s, s.clients[r]); }
  }

  /** A release ends the releaser's own warming. */
  lemma ReleaserStops(s: State, a: Action, s': State, key: string)
    requires QuietStep(s, a, s', key) && HasLock(s, key) && !HasLock(s', key)
    ensures a.Step? && Warms(s, a.r, key) && !Warms(s', a.r, key)
  {
    LockGoes(s, a, s', key);
  }

  lemma OneWarmerStep(s: State, a: Action, s': State, key: string)
    requires QuietStep(s, a, s', key) && AllServed(s, key) && !Joins(s, a, key)
    requires OneWarmer(s, key) && WarmerLocked(s, key)
    ensures OneWarmer(s', key) && WarmerLocked(s', key)
  {
    forall q, r | Warms(s', q, key) && Warms(s', r, key) ensures q == r {
      WarmerStep(s, a, s', q, key);
      WarmerStep(s, a, s', r, key);
    }
    forall r | Warms(s', r, key) ensures HasLock(s', key) {
      WarmerStep(s, a, s', r, key);
      if HasLock(s, key) && !HasLock(s', key) { ReleaserStops(s, a, s', key); }
    }
  }

  lemma {:induction false} OneWarmerAlways(run: Run, i: nat, key: string)
    requires QuietRun(run, key) && i < |run.states| && NobodyJoined(run, i, key)
    ensures OneWarmer(run.states[i], key) && WarmerLocked(run.states[i], key)
  {
    if i > 0 {
      OneWarmerAlways(run, i - 1, key);
      AllServedAlways(run, i - 1, key);
      QuietRunStep(run, i - 1, key);
      OneWarmerStep(run.states[i - 1], run.actions[i - 1], run.states[i], key);
    }
  }

  lemma {:induction false} FirstToJoin(run: Run, n: nat, key: string) returns (i: nat)
    requires QuietRun(run, key) && n < |run.states| && !NobodyJoined(run, n, key)
    ensures i < n && Joins(run.states[i], run.actions[i], key)
  {
    if NobodyJoined(run, n - 1, key) { i := n - 1; } else { i := FirstToJoin(run, n - 1, key); }
  }

  lemma JoiningMakesTwo(s: State, a: Action, s': State, key: string)
    requires QuietStep(s, a, s', key) && Joins(s, a, key)
    ensures !OneWarmer(s', key)
  {
    var q :| Warms(s, q, key);
    assert q != a.r && Warms(s', q, key) && Warms(s', a.r, key);
  }

  /** One warmer, exactly. In a quiet run, up to any moment, no two requests have been warming a
      key at once if and only if no waiter for it gave up while another request was warming it. */
  lemma OneWarmerExactly(run: Run, n: nat, key: string)
    requires QuietRun(run, key) && n < |run.states|
    ensures NobodyJoined(run, n, key) <==> forall i :: 0 <= i <= n ==> OneWarmer(run.states[i], key)
  {
    if NobodyJoined(run, n, key) {
      forall i | 0 <= i <= n ensures OneWarmer(run.states[i], key) { OneWarmerAlways(run, i, key); }
    } else {
      var i := FirstToJoin(run, n, key);
      QuietRunStep(run, i, key);
      JoiningMakesTwo(run.states[i], run.actions[i], run.states[i + 1], key);
    }
  }

  // ---- Releases ----

  /** Request r took the key's lock at some step before i, and nothing has removed it since. */
  ghost predicate TookAndKept(run: Run, i: nat, r: nat, key: string) {
    exists t: nat :: t < i && t < |run.actions| && t < |run.states|
      && StepsAt(run.states[t], run.actions[t], r) && Occurs(run.states[t], run.actions[t], LockTaken(key))
      && !Between(run, t, i, LockRemoved(key))
  }

  ghost predicate OwnLock(s: State, r: nat, key: string) { HasLock(s, key) && s.store.locks[key].value == r }

  /** A lock is a request's own if it has just taken it, or had it and it is not removed. */
  lemma OwnLockStep(s: State, a: Action, s': State, r: nat, key: string)
    requires QuietStep(s, a, s', key)
    ensures OwnLock(s', r, key) <==>
      || (StepsAt(s, a, r) && Occurs(s, a, LockTaken(key)))
      || (OwnLock(s, r, key) && !Occurs(s, a, LockRemoved(key)))
  {}

  lemma TookAndKeptNext(run: Run, i: nat, r: nat, key: string)
    requires |run.states| == |run.actions| + 1 && i < |run.actions|
    ensures TookAndKept(run, i + 1, r, key) <==>
      || (StepsAt(run.states[i], run.actions[i], r) && Occurs(run.states[i], run.actions[i], LockTaken(key)))
      || (TookAndKept(run, i, r, key) && !Occurs(run.states[i], run.actions[i], LockRemoved(key)))
  {
    if TookAndKept(run, i + 1, r, key) {
      var t: nat :| t < i + 1
        && StepsAt(run.states[t], run.actions[t], r) && Occurs(run.states[t], run.actions[t], LockTaken(key))
        && !Between(run, t, i + 1, LockRemoved(key));
      if t < i { BetweenSnoc(run, t, i + 1, LockRemoved(key)); }
    }
    if TookAndKept(run, i, r, key) && !Occurs(run.states[i], run.actions[i], LockRemoved(key)) {
      var t: nat :| t < i
        && StepsAt(run.states[t], run.actions[t], r) && Occurs(run.states[t], run.actions[t], LockTaken(key))
        && !Between(run, t, i, LockRemoved(key));
      BetweenSnoc(run, t, i + 1, LockRemoved(key));
    }
    if StepsAt(run.states[i], run.actions[i], r) && Occurs(run.states[i], run.actions[i], LockTaken(key)) {
      assert !Between(run, i, i + 1, LockRemoved(key));
    }
  }

  /** Whose lock it is, exactly. In every quiet run the lock present is request r's if and only if r
      took it and it has not been removed since. */
  lemma {:induction false} LockIsWhose(run: Run, i: nat, r: nat, key: string)
    requires QuietRun(run, key) && i < |run.states|
    ensures OwnLock(run.states[i], r, key) <==> TookAndKept(run, i, r, key)
  {
    if i > 0 {
      LockIsWhose(run, i - 1, r, key);
      QuietRunStep(run, i - 1, key);
      OwnLockStep(run.states[i - 1], run.actions[i - 1], run.states[i], r, key);
      TookAndKeptNext(run, i - 1, r, key);
    }
  }

  /** A DEL removes the deleter's own lock, rather than another's or none, if and only if the deleter
      took the lock, instead of giving up on it, and nobody has removed it since. */
  lemma ReleasesOwnExactly(run: Run, i: nat, r: nat, key: string)
    requires QuietRun(run, key) && i < |run.actions|
    requires StepsAt(run.states[i], run.actions[i], r) && run.states[i].clients[r].pc.Releasing?
    requires run.states[i].clients[r].req.key == key
    ensures OwnLock(run.states[i], r, key) <==> TookAndKept(run, i, r, key)
    ensures !HasLock(run.states[i + 1], key)
  {
    LockIsWhose(run, i, r, key);
    QuietRunStep(run, i, key);
  }

  /** Until a waiter gives up, a DEL always removes the deleter's own lock. */
  lemma OnlyTheHolderReleases(run: Run, i: nat, r: nat, key: string)
    requires QuietRun(run, key) && i < |run.actions|
    requires StepsAt(run.states[i], run.actions[i], r) && run.states[i].clients[r].pc.Releasing?
    requires run.states[i].clients[r].req.key == key && NobodyGaveUp(run, i, key)
    ensures var s := run.states[i];
      HasLock(s, key) && s.store.locks[key].value == r && !HasLock(run.states[i + 1], key)
  {
    ExclusionAlways(run, i, key);
    QuietRunStep(run, i, key);
    assert Warms(run.states[i], r, key);
  }

  // ---- When a prefix is warmed twice ----

  /** Request r's lookup misses and it turns to the lock. */
  ghost predicate Misses(s: State, a: Action, r: nat) {
    StepsAt(s, a, r) && a.fault == NoFault && s.clients[r].pc == Getting(false) && !HasEntry(s, s.clients[r].req.key)
  }

  /** Request r takes the free lock. */
  ghost predicate Acquires(s: State, a: Action, r: nat) {
    StepsAt(s, a, r) && Occurs(s, a, LockTaken(s.clients[r].req.key))
  }

  /** Only a warm write makes an absent entry appear: a hit's SET rewrites one that is there. */
  lemma EntryNext(s: State, a: Action, s': State, key: string)
    requires QuietStep(s, a, s', key) && AllServed(s, key)
    ensures HasEntry(s', key) <==> HasEntry(s, key) || Occurs(s, a, EntryWritten(key))
  {
    if HasEntry(s, key) {
      EntryStays(s, a, s', key);
    } else if a.Step? && s.clients[a.r].req.key == key {
      assert Served(s, s.clients[a.r]);
    }
  }

  ghost predicate Tracks(run: Run, i: nat, key: string)
    requires i < |run.actions| && |run.states| == |run.actions| + 1
  {
    HasEntry(run.states[i + 1], key) <==>
      HasEntry(run.states[i], key) || Occurs(run.states[i], run.actions[i], EntryWritten(key))
  }

  lemma {:induction false} Tracked(run: Run, g: nat, i: nat, key: string)
    requires |run.states| == |run.actions| + 1 && g < i <= |run.actions|
    requires forall m: nat :: g <= m < i ==> Tracks(run, m, key)
    requires !HasEntry(run.states[g], key) && !Occurs(run.states[g], run.actions[g], EntryWritten(key))
    ensures HasEntry(run.states[i], key) <==> Between(run, g, i, EntryWritten(key))
  {
    assert Tracks(run, i - 1, key);
    if i - 1 > g {
      Tracked(run, g, i - 1, key);
      BetweenSnoc(run, g, i, EntryWritten(key));
    }
  }

  lemma FirstEntry(run: Run, g: nat, i: nat, key: string)
    requires QuietRun(run, key) && g < i <= |run.actions|
    requires !HasEntry(run.states[g], key) && !Occurs(run.states[g], run.actions[g], EntryWritten(key))
    ensures HasEntry(run.states[i], key) <==> Between(run, g, i, EntryWritten(key))
  {
    forall m: nat | g <= m < i ensures Tracks(run, m, key) {
      QuietRunStep(run, m, key);
      AllServedAlways(run, m, key);
      EntryNext(run.states[m], run.actions[m], run.states[m + 1], key);
    }
    Tracked(run, g, i, key);
  }

  // ---- The way to a warm write in a quiet run ----

  /** Request r turns to the cold route: it takes the free lock, or gives up waiting for it. */
  ghost predicate TurnsCold(s: State, a: Action, r: nat) {
    StepsAt(s, a, r) && (Acquires(s, a, r) || Exhausts(s, a))
  }

  /** Request r for the key is on the cold route and has not written yet. */
  ghost predicate Cold(s: State, r: nat, key: string) {
    r in s.clients && s.clients[r].req.key == key && (Routing(s.clients[r].pc) || s.clients[r].pc.Warming?)
  }

  ghost predicate Unwritten(run: Run, i: nat, w: nat, r: nat, key: string) {
    forall m :: i < m <= w && m < |run.states| ==> Cold(run.states[m], r, key)
  }

  lemma ColdStep(s: State, a: Action, s': State, r: nat, key: string)
    requires QuietStep(s, a, s', key) && AllServed(s, key) && Cold(s', r, key)
    ensures Cold(s, r, key) || (TurnsCold(s, a, r) && AtLock(s, r, key))
  {
    if r in s.clients && s.clients[r].req.key == key { assert Served(s, s.clients[r]); }
  }

  lemma ColdBefore(run: Run, w: nat, r: nat, key: string)
    requires QuietRun(run, key) && w < |run.actions| && Cold(run.states[w + 1], r, key)
    ensures Cold(run.states[w], r, key) || TurnsCold(run.states[w], run.actions[w], r)
    ensures Cold(run.states[w], r, key) || AtLock(run.states[w], r, key)
  {
    QuietRunStep(run, w, key);
    AllServedAlways(run, w, key);
    ColdStep(run.states[w], run.actions[w], run.states[w + 1], r, key);
  }

  lemma {:induction false} ColdSince(run: Run, w: nat, r: nat, key: string) returns (i: nat)
    requires QuietRun(run, key) && w < |run.states| && Cold(run.states[w], r, key)
    ensures i < w && TurnsCold(run.states[i], run.actions[i], r) && AtLock(run.states[i], r, key)
    ensures Unwritten(run, i, w, r, key)
  {
    ColdBefore(run, w - 1, r, key);
    if Cold(run.states[w - 1], r, key) { i := ColdSince(run, w - 1, r, key); } else { i := w - 1; }
  }

  /** Request r for the key stands at the lock. */
  ghost predicate AtLock(s: State, r: nat, key: string) {
    r in s.clients && s.clients[r].req.key == key && (s.clients[r].pc.Acquiring? || s.clients[r].pc.Waiting?)
  }

  lemma AtLockStep(s: State, a: Action, s': State, r: nat, key: string)
    requires QuietStep(s, a, s', key) && AtLock(s', r, key)
    ensures AtLock(s, r, key) || Misses(s, a, r)
  {}

  /** A request at the lock has looked up and missed. */
  lemma {:induction false} MissedBefore(run: Run, i: nat, r: nat, key: string) returns (g: nat)
    requires QuietRun(run, key) && i < |run.states| && AtLock(run.states[i], r, key)
    ensures g < i && Misses(run.states[g], run.actions[g], r)
  {
    QuietRunStep(run, i - 1, key);
    AtLockStep(run.states[i - 1], run.actions[i - 1], run.states[i], r, key);
    if AtLock(run.states[i - 1], r, key) { g := MissedBefore(run, i - 1, r, key); } else { g := i - 1; }
  }

  /** While request r is about to write and nobody joins it, nobody else writes. */
  lemma NoOtherWriter(run: Run, i: nat, w: nat, r: nat, key: string)
    requires QuietRun(run, key) && i < w < |run.states| && Unwritten(run, i, w, r, key)
    requires NobodyJoined(run, w, key)
    ensures !Between(run, i, w, EntryWritten(key))
  {
    forall m: nat | i < m < w ensures !Occurs(run.states[m], run.actions[m], EntryWritten(key)) {
      var s, a := run.states[m], run.actions[m];
      OneWarmerAlways(run, m, key);
      QuietRunStep(run, m, key);
      assert Cold(s, r, key) && Cold(run.states[m + 1], r, key) && Warms(s, r, key);
      if Occurs(s, a, EntryWritten(key)) { assert Warms(s, a.r, key); }
    }
  }

  lemma BetweenSplit(run: Run, g: nat, i: nat, w: nat, e: Event)
    requires g < i < w <= |run.actions| && |run.states| == |run.actions| + 1
    requires !Occurs(run.states[i], run.actions[i], e)
    ensures Between(run, g, w, e) <==> Between(run, g, i, e) || Between(run, i, w, e)
  {
    if Between(run, g, w, e) {
      var m :| g < m < w && Occurs(run.states[m], run.actions[m], e);
      assert m < i ==> Between(run, g, i, e);
      assert i < m ==> Between(run, i, w, e);
    }
    if Between(run, g, i, e) {
      var m :| g < m < i && Occurs(run.states[m], run.actions[m], e);
    }
    if Between(run, i, w, e) {
      var m :| i < m < w && Occurs(run.states[m], run.actions[m], e);
    }
  }

  /** When a prefix is warmed again, exactly. In a quiet run, a request whose warm write is about
      to land missed at some step g and turned cold at a later step i. Its write finds the prefix
      already warm if and only if another write landed between g and i, or between i and now.
      The second happens only after a waiter has given up while another request was warming; and
      until a waiter has given up at all, turning cold is taking the lock. */
  lemma RedundantWarmExactly(run: Run, w: nat, r: nat, key: string) returns (g: nat, i: nat)
    requires QuietRun(run, key) && w < |run.actions| && Writes(run.states[w], run.actions[w], r, key)
    ensures g < i < w && Misses(run.states[g], run.actions[g], r) && TurnsCold(run.states[i], run.actions[i], r)
    ensures HasEntry(run.states[w], key) <==>
      Between(run, g, i, EntryWritten(key)) || Between(run, i, w, EntryWritten(key))
    ensures NobodyJoined(run, w, key) ==> !Between(run, i, w, EntryWritten(key))
    ensures NobodyGaveUp(run, w, key) ==> Acquires(run.states[i], run.actions[i], r)
  {
    i := ColdSince(run, w, r, key);
    g := MissedBefore(run, i, r, key);
    ClientLater(run, g, i, r);
    ClientLater(run, i, w, r);
    FirstEntry(run, g, w, key);
    BetweenSplit(run, g, i, w, EntryWritten(key));
    if NobodyJoined(run, w, key) { NoOtherWriter(run, i, w, r, key); }
  }
}
