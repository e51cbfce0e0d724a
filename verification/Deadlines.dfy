/** Clocks and deadlines: how far apart the lock is taken, and how long an entry lives. */
module Deadlines {
  import opened Wrappers
  import opened Policy
  import opened Backoff
  import opened Protocol
  import opened Affinity
  import GhostLock

  lemma {:induction false} ClockMonotone(run: Run, i: nat, j: nat)
    requires IsRun(run) && i <= j < |run.states|
    ensures run.states[i].clock <= run.states[j].clock
  {
    if i < j {
      ClockMonotone(run, i, j - 1);
      assert IsStep(run.states[j - 1], run.actions[j - 1], run.states[j]);
    }
  }

  // ---- Acquisitions are separated ----

  lemma LockKept(s: State, a: Action, s': State, key: string)
    requires IsStep(s, a, s') && !Occurs(s, a, LockRemoved(key))
    requires key in s.store.locks && s.store.locks[key].deadline.Some? && s.clock < s.store.locks[key].deadline.value
    ensures key in s'.store.locks && s'.store.locks[key] == s.store.locks[key]
  {}

  /** The lock is held with its deadline ahead, or the deadline is past. */
  ghost predicate HeldUntil(s: State, key: string, due: nat) {
    due <= s.clock || (key in s.store.locks && s.store.locks[key].deadline == Some(due))
  }

  lemma HeldOn(run: Run, j: nat, key: string, due: nat)
    requires IsRun(run) && j < |run.actions|
    requires !Occurs(run.states[j], run.actions[j], LockRemoved(key)) && HeldUntil(run.states[j], key, due)
    ensures HeldUntil(run.states[j + 1], key, due)
  {
    ClockMonotone(run, j, j + 1);
    if run.states[j].clock < due { LockKept(run.states[j], run.actions[j], run.states[j + 1], key); }
  }

  lemma LockSet(s: State, a: Action, s': State, key: string)
    requires IsStep(s, a, s') && Occurs(s, a, LockTaken(key))
    ensures HeldUntil(s', key, s.clock + 30_000)
  {}

  lemma {:induction false} LockHeldMeanwhile(run: Run, i: nat, j: nat, key: string)
    requires IsRun(run) && i < j < |run.states|
    requires Occurs(run.states[i], run.actions[i], LockTaken(key)) && !Between(run, i, j, LockRemoved(key))
    ensures HeldUntil(run.states[j], key, run.states[i].clock + 30_000)
  {
    if i == j - 1 {
      LockSet(run.states[i], run.actions[i], run.states[j], key);
    } else {
      BetweenSnoc(run, i, j, LockRemoved(key));
      LockHeldMeanwhile(run, i, j - 1, key);
      HeldOn(run, j - 1, key, run.states[i].clock + 30_000);
    }
  }

  /** In every run, faults included: between two acquisitions of the same lock it is removed,
      or the lock's whole lifetime of 30 s passes. */
  lemma AcquisitionsSeparated(run: Run, i: nat, j: nat, key: string)
    requires IsRun(run) && i < j < |run.actions|
    requires Occurs(run.states[i], run.actions[i], LockTaken(key))
    requires Occurs(run.states[j], run.actions[j], LockTaken(key))
    ensures Between(run, i, j, LockRemoved(key)) || run.states[j].clock >= run.states[i].clock + 30_000
  {
    if !Between(run, i, j, LockRemoved(key)) { LockHeldMeanwhile(run, i, j, key); }
  }

  // ---- A waiter gives up late ----

  /** A request asleep before its probe a+1 turned away from the lock at some step i, and will
      wake no sooner than the schedule's first a+1 sleeps after it. */
  lemma {:induction false} WaitingSince(run: Run, j: nat, r: nat) returns (i: nat)
    requires IsRun(run) && j < |run.states|
    requires r in run.states[j].clients && run.states[j].clients[r].pc.Waiting?
    ensures i < j && StepsAt(run.states[i], run.actions[i], r) && run.states[i].clients[r].pc.Acquiring?
    ensures var pc := run.states[j].clients[r].pc;
      run.states[i].clock + TotalWait(BASE_MS, pc.attempt + 1) <= pc.wake
  {
    var s, a, s' := run.states[j - 1], run.actions[j - 1], run.states[j];
    assert IsStep(s, a, s');
    if r in s.clients && s.clients[r].pc.Waiting? {
      i := WaitingSince(run, j - 1, r);
      SleepMore(s'.clients[r].pc.attempt);
    } else {
      i := j - 1;
      SleepMore(0);
    }
  }

  lemma SleepMore(n: nat)
    ensures TotalWait(BASE_MS, n + 1) == TotalWait(BASE_MS, n) + BackoffMs(BASE_MS, n)
    ensures n == 0 ==> TotalWait(BASE_MS, n) == 0
  {}

  /** In every run, a waiter that gives up on the lock does so at least 9550 ms after it was
      turned away from it. */
  lemma GivesUpLate(run: Run, j: nat, r: nat) returns (i: nat)
    requires IsRun(run) && j < |run.actions| && StepsAt(run.states[j], run.actions[j], r)
    requires GhostLock.Exhausts(run.states[j], run.actions[j])
    ensures i < j && StepsAt(run.states[i], run.actions[i], r) && run.states[i].clients[r].pc.Acquiring?
    ensures run.states[i].clock + 9550 <= run.states[j].clock
  {
    i := WaitingSince(run, j, r);
    assert IsStep(run.states[j], run.actions[j], run.states[j + 1]);
    TotalWaitMonotone(BASE_MS, RETRY_MAX, run.states[j].clients[r].pc.attempt + 1);
    TotalWaitClosed(BASE_MS, RETRY_MAX);
    assert Pow2(7) == 128;
  }

  // ---- Entry lifetimes ----

  /** All requests for the key carry this policy; hashing makes it so, see EndToEnd. */
  ghost predicate KeyHasPolicy(s: State, key: string, policy: TtlPolicy) {
    forall r :: r in s.clients && s.clients[r].req.key == key ==> s.clients[r].req.policy == policy
  }

  /** The entry is not evicted strictly between steps i and j. */
  ghost predicate NoEviction(run: Run, i: nat, j: nat, key: string) {
    forall m :: i < m < j && m < |run.actions| ==> run.actions[m] != EvictEntry(key)
  }

  /** The entry is in the store and its deadline, if it has one, is not before `due`. */
  ghost predicate LivesUntil(s: State, key: string, due: Option<nat>) {
    && key in s.store.cache
    && var d := s.store.cache[key].deadline;
       d.None? || (due.Some? && due.value <= d.value)
  }

  function Due(policy: TtlPolicy, now: nat): Option<nat> {
    match RedisTtlSecs(policy)
    case None => None
    case Some(secs) => Some(now + 1000 * secs)
  }

  lemma NeverSliding(run: Run, i: nat, r: nat)
    requires IsRun(run) && i < |run.states| && r in run.states[i].clients
    ensures !run.states[i].clients[r].pc.Touching?
  {
    TouchingNever(run, i);
  }

  /** EXPIRE is never sent: no entry is ever sliding. */
  lemma {:induction false} TouchingNever(run: Run, i: nat)
    requires IsRun(run) && i < |run.states|
    ensures forall r :: r in run.states[i].clients ==> !run.states[i].clients[r].pc.Touching?
  {
    if i > 0 {
      TouchingNever(run, i - 1);
      InvAlways(run, i - 1);
      var s, a, s' := run.states[i - 1], run.actions[i - 1], run.states[i];
      assert IsStep(s, a, s');
      forall r | r in s'.clients ensures !s'.clients[r].pc.Touching? {
        if a.Step? && a.r == r && HasEntry(s, s.clients[r].req.key) {
          var e := s.store.cache[s.clients[r].req.key].value;
          assert Sound(s.clients, s.clients[r].req.key, e);
          assert ClientSound(s.clients, s.clients[e.writer]);
        }
      }
    }
  }

  lemma LifeStep(s: State, a: Action, s': State, key: string, policy: TtlPolicy, due: Option<nat>)
    requires IsStep(s, a, s') && LivesUntil(s, key, due)
    requires a != EvictEntry(key)
    requires a.Step? ==> !s.clients[a.r].pc.Touching?
    requires a.Step? && s.clients[a.r].req.key == key ==> s.clients[a.r].req.policy == policy
    requires due.Some? ==> Due(policy, s.clock).Some? && due.value <= Due(policy, s.clock).value
    requires due.None? ==> Due(policy, s.clock).None?
    ensures LivesUntil(s', key, due)
  {}

  lemma LifeSet(s: State, a: Action, s': State, key: string, policy: TtlPolicy)
    requires IsStep(s, a, s') && Occurs(s, a, EntryWritten(key)) && KeyHasPolicy(s, key, policy)
    ensures LivesUntil(s', key, Due(policy, s.clock))
  {}

  /** A later step keeps the lifetime of a write at time `since`. */
  lemma LifeOn(run: Run, j: nat, key: string, policy: TtlPolicy, since: nat)
    requires IsRun(run) && j < |run.actions| && run.actions[j] != EvictEntry(key)
    requires KeyHasPolicy(run.states[j], key, policy) && since <= run.states[j].clock
    requires LivesUntil(run.states[j], key, Due(policy, since))
    ensures LivesUntil(run.states[j + 1], key, Due(policy, since))
  {
    TouchingNever(run, j);
    LifeStep(run.states[j], run.actions[j], run.states[j + 1], key, policy, Due(policy, since));
  }

  lemma PolicyBefore(run: Run, i: nat, j: nat, key: string, policy: TtlPolicy)
    requires IsRun(run) && i <= j < |run.states| && KeyHasPolicy(run.states[j], key, policy)
    ensures KeyHasPolicy(run.states[i], key, policy)
  {
    forall r | r in run.states[i].clients && run.states[i].clients[r].req.key == key
      ensures run.states[i].clients[r].req.policy == policy
    {
      ClientLater(run, i, j, r);
    }
  }

  lemma {:induction false} LifeKept(run: Run, i: nat, j: nat, key: string, policy: TtlPolicy)
    requires IsRun(run) && i < j < |run.states| && NoEviction(run, i, j, key)
    requires Occurs(run.states[i], run.actions[i], EntryWritten(key))
    requires KeyHasPolicy(run.states[j], key, policy)
    ensures LivesUntil(run.states[j], key, Due(policy, run.states[i].clock))
  {
    PolicyBefore(run, j - 1, j, key, policy);
    if i == j - 1 {
      LifeSet(run.states[i], run.actions[i], run.states[j], key, policy);
    } else {
      LifeKept(run, i, j - 1, key, policy);
      ClockMonotone(run, i, j - 1);
      LifeOn(run, j - 1, key, policy, run.states[i].clock);
    }
  }

  /** Lifetimes never shrink. Barring eviction of the entry, an entry without a document
      never expires once written, and one with a document is there for its full lifetime,
      through every interleaving of lookups and further writes. */
  lemma EntryLives(run: Run, i: nat, j: nat, key: string, policy: TtlPolicy)
    requires IsRun(run) && i < j < |run.states| && NoEviction(run, i, j, key)
    requires Occurs(run.states[i], run.actions[i], EntryWritten(key))
    requires KeyHasPolicy(run.states[j], key, policy)
    requires policy.Infinite? || run.states[j].clock < run.states[i].clock + 14_400_000
    ensures HasEntry(run.states[j], key)
  {
    LifeKept(run, i, j, key, policy);
    var r := run.actions[i].r;
    ClientLater(run, i, j, r);
    InvAlways(run, j);
    assert ClientSound(run.states[j].clients, run.states[j].clients[r]);
  }

  // ---- The documented upper bound ----

  lemma DeadlineStep(s: State, a: Action, s': State, key: string)
    requires IsStep(s, a, s') && key in s.store.cache && a != EvictEntry(key)
    requires a.Step? ==> !s.clients[a.r].pc.Touching?
    requires !Occurs(s, a, EntryWritten(key))
    ensures key in s'.store.cache
    ensures s'.store.cache[key].deadline ==
      if Occurs(s, a, EntryRefreshed(key)) then None else s.store.cache[key].deadline
  {}

  function Lifetime(run: Run, i: nat): Option<nat>
    requires i < |run.actions| && i < |run.states| && run.actions[i].Step? && run.actions[i].r in run.states[i].clients
  {
    Due(run.states[i].clients[run.actions[i].r].req.policy, run.states[i].clock)
  }

  lemma {:induction false} DeadlineSince(run: Run, i: nat, j: nat, key: string)
    requires IsRun(run) && i < j < |run.states| && NoEviction(run, i, j, key)
    requires Occurs(run.states[i], run.actions[i], EntryWritten(key)) && !Between(run, i, j, EntryWritten(key))
    ensures key in run.states[j].store.cache
    ensures run.states[j].store.cache[key].deadline ==
      if Between(run, i, j, EntryRefreshed(key)) then None else Lifetime(run, i)
  {
    var s, a, s' := run.states[j - 1], run.actions[j - 1], run.states[j];
    assert IsStep(s, a, s');
    if i < j - 1 {
      BetweenSnoc(run, i, j, EntryWritten(key));
      BetweenSnoc(run, i, j, EntryRefreshed(key));
      DeadlineSince(run, i, j - 1, key);
      if a.Step? { NeverSliding(run, j - 1, a.r); }
      DeadlineStep(s, a, s', key);
    }
  }

  /** The four-hour lifetime of document entries is an upper bound exactly as long as nobody
      hits the entry: past the deadline of the last write the entry is still there if and only
      if some hit's SET has landed since, because SET clears the deadline. */
  lemma OutlivesDeadlineExactly(run: Run, i: nat, j: nat, key: string)
    requires IsRun(run) && i < j < |run.states| && NoEviction(run, i, j, key)
    requires Occurs(run.states[i], run.actions[i], EntryWritten(key)) && !Between(run, i, j, EntryWritten(key))
    requires run.states[i].clients[run.actions[i].r].req.policy == Fixed(14_400)
    requires run.states[j].clock >= run.states[i].clock + 14_400_000
    ensures HasEntry(run.states[j], key) <==> Between(run, i, j, EntryRefreshed(key))
  {
    DeadlineSince(run, i, j, key);
  }
}
