/** Hit counts under racing GET-then-SET lookups. */
module HitCounts {
  import opened Protocol

  /** Completed hit updates of the key strictly between steps i and j. */
  ghost function Updates(run: Run, i: int, j: nat, key: string): nat
    requires |run.states| == |run.actions| + 1 && -1 <= i && j <= |run.actions|
  {
    if j <= i + 1 then 0
    else
      Updates(run, i, j - 1, key)
      + (if Occurs(run.states[j - 1], run.actions[j - 1], EntryRefreshed(key)) then 1 else 0)
  }

  predicate InFlight(pc: Pc) { pc.Touching? || pc.Putting? }

  ghost predicate StoredAtMost(s: State, key: string, n: nat) {
    key in s.store.cache ==> s.store.cache[key].value.entry.hitCount <= n
  }

  ghost predicate HeldAtMost(s: State, key: string, n: nat) {
    forall r :: r in s.clients && s.clients[r].req.key == key && InFlight(s.clients[r].pc) ==>
      s.clients[r].pc.found.entry.hitCount <= n
  }

  /** No copy of the key's entry, stored or held by a lookup, counts more than n hits. */
  ghost predicate AtMost(s: State, key: string, n: nat) { StoredAtMost(s, key, n) && HeldAtMost(s, key, n) }

  lemma StoredAtMostStep(s: State, a: Action, s': State, key: string, n: nat)
    requires IsStep(s, a, s') && AtMost(s, key, n)
    ensures StoredAtMost(s', key, if Occurs(s, a, EntryRefreshed(key)) then n + 1 else n)
  {}

  lemma HeldAtMostStep(s: State, a: Action, s': State, key: string, n: nat)
    requires IsStep(s, a, s') && AtMost(s, key, n)
    ensures HeldAtMost(s', key, n)
  {}

  lemma AtMostStep(s: State, a: Action, s': State, key: string, n: nat)
    requires IsStep(s, a, s') && AtMost(s, key, n)
    ensures AtMost(s', key, if Occurs(s, a, EntryRefreshed(key)) then n + 1 else n)
  {
    StoredAtMostStep(s, a, s', key, n);
    HeldAtMostStep(s, a, s', key, n);
  }

  lemma {:induction false} CountedAlways(run: Run, j: nat, key: string)
    requires IsRun(run) && j < |run.states|
    ensures AtMost(run.states[j], key, Updates(run, -1, j, key))
  {
    if j > 0 {
      CountedAlways(run, j - 1, key);
      AtMostStep(run.states[j - 1], run.actions[j - 1], run.states[j], key, Updates(run, -1, j - 1, key));
    }
  }

  /** In every run, a stored hit count never exceeds the hit updates made for its key. */
  lemma HitCountSound(run: Run, j: nat, key: string)
    requires IsRun(run) && j < |run.states| && key in run.states[j].store.cache
    ensures run.states[j].store.cache[key].value.entry.hitCount <= Updates(run, -1, j, key)
  {
    CountedAlways(run, j, key);
  }

  // ---- Who has written is done warming ----

  ghost predicate Done(s: State, w: nat) {
    w in s.clients && (s.clients[w].pc.Releasing? || s.clients[w].pc.Missed? || s.clients[w].pc.Dropped?)
  }

  ghost predicate CachedDone(s: State) { forall k :: k in s.store.cache ==> Done(s, s.store.cache[k].value.writer) }

  ghost predicate HeldDone(s: State) {
    forall r :: r in s.clients && InFlight(s.clients[r].pc) ==> Done(s, s.clients[r].pc.found.writer)
  }

  lemma DoneStays(s: State, a: Action, s': State, w: nat)
    requires IsStep(s, a, s') && Done(s, w)
    ensures Done(s', w)
  {}

  lemma CachedDoneStep(s: State, a: Action, s': State)
    requires IsStep(s, a, s') && CachedDone(s) && HeldDone(s)
    ensures CachedDone(s')
  {
    forall k | k in s'.store.cache ensures Done(s', s'.store.cache[k].value.writer) {
      var w := s'.store.cache[k].value.writer;
      if Done(s, w) { DoneStays(s, a, s', w); }
    }
  }

  lemma HeldDoneStep(s: State, a: Action, s': State)
    requires IsStep(s, a, s') && CachedDone(s) && HeldDone(s)
    ensures HeldDone(s')
  {
    forall r | r in s'.clients && InFlight(s'.clients[r].pc) ensures Done(s', s'.clients[r].pc.found.writer) {
      var w := s'.clients[r].pc.found.writer;
      if Done(s, w) { DoneStays(s, a, s', w); }
    }
  }

  lemma {:induction false} DoneAlways(run: Run, i: nat)
    requires IsRun(run) && i < |run.states|
    ensures CachedDone(run.states[i]) && HeldDone(run.states[i])
  {
    if i > 0 {
      DoneAlways(run, i - 1);
      CachedDoneStep(run.states[i - 1], run.actions[i - 1], run.states[i]);
      HeldDoneStep(run.states[i - 1], run.actions[i - 1], run.states[i]);
    }
  }

  // ---- Exactly when no update is lost ----

  /** Request r's lookup of the key has its copy of the entry and has not written it back. */
  ghost predicate Holding(s: State, r: nat, key: string) {
    r in s.clients && s.clients[r].req.key == key && InFlight(s.clients[r].pc)
  }

  ghost predicate HoldingThrough(run: Run, r: nat, m: nat, n: nat, key: string) {
    forall t :: m <= t <= n && t < |run.states| ==> Holding(run.states[t], r, key)
  }

  /** Since the write at step i another lookup's SET went by while request r held its copy. */
  ghost predicate Overtaken(run: Run, i: nat, n: nat, r: nat, key: string) {
    exists m :: i < m < n && m < |run.actions| && m < |run.states|
      && Occurs(run.states[m], run.actions[m], EntryRefreshed(key)) && HoldingThrough(run, r, m, n, key)
  }

  /** Request r's copy is from before the write at step i, or has been overtaken since. */
  ghost predicate Outdated(run: Run, i: nat, n: nat, r: nat, key: string) {
    HoldingThrough(run, r, i, n, key) || Overtaken(run, i, n, r, key)
  }

  /** The SET at step n writes back an outdated copy. */
  ghost predicate LosesAt(run: Run, i: nat, n: nat, key: string) {
    && n < |run.actions| && n < |run.states| && Occurs(run.states[n], run.actions[n], EntryRefreshed(key))
    && Outdated(run, i, n, run.actions[n].r, key)
  }

  ghost predicate UpdateLost(run: Run, i: nat, j: nat, key: string) {
    exists n :: i < n < j && LosesAt(run, i, n, key)
  }

  /** The copy is writer w's entry with n hits; behind, it is an older entry or counts less. */
  predicate Tallies(e: Stored, w: nat, n: nat, behind: bool) {
    if behind then e.writer != w || e.entry.hitCount < n else e.writer == w && e.entry.hitCount == n
  }

  /** What stored and held copies tell since writer w's write at step i, by whether an update has
      been lost and whether the copy held is outdated. */
  ghost predicate Counts(run: Run, i: nat, j: nat, w: nat, key: string)
    requires |run.states| == |run.actions| + 1 && j < |run.states|
  {
    var s, n, lost := run.states[j], Updates(run, i, j, key), UpdateLost(run, i, j, key);
    && (key in s.store.cache ==> Tallies(s.store.cache[key].value, w, n, lost))
    && (forall r :: Holding(s, r, key) ==>
         Tallies(s.clients[r].pc.found, w, n, lost || Outdated(run, i, j, r, key)))
  }

  lemma OvertakenStep(run: Run, i: nat, j: nat, r: nat, key: string)
    requires |run.states| == |run.actions| + 1 && i < j < |run.actions|
    ensures Overtaken(run, i, j + 1, r, key) <==>
      && Holding(run.states[j + 1], r, key)
      && (|| Overtaken(run, i, j, r, key)
          || (Holding(run.states[j], r, key) && Occurs(run.states[j], run.actions[j], EntryRefreshed(key))))
  {
    if Overtaken(run, i, j + 1, r, key) {
      var m :| i < m < j + 1 && Occurs(run.states[m], run.actions[m], EntryRefreshed(key))
        && HoldingThrough(run, r, m, j + 1, key);
      assert Holding(run.states[j], r, key) && Holding(run.states[j + 1], r, key);
      if m < j { assert HoldingThrough(run, r, m, j, key); }
    }
    if Holding(run.states[j + 1], r, key) {
      if Overtaken(run, i, j, r, key) {
        var m :| i < m < j && Occurs(run.states[m], run.actions[m], EntryRefreshed(key))
          && HoldingThrough(run, r, m, j, key);
        assert HoldingThrough(run, r, m, j + 1, key);
      } else if Holding(run.states[j], r, key) && Occurs(run.states[j], run.actions[j], EntryRefreshed(key)) {
        assert HoldingThrough(run, r, j, j + 1, key);
      }
    }
  }

  lemma HoldingOn(run: Run, i: nat, j: nat, r: nat, key: string)
    requires i <= j < |run.states| - 1
    ensures HoldingThrough(run, r, i, j + 1, key) <==>
      HoldingThrough(run, r, i, j, key) && Holding(run.states[j + 1], r, key)
  {
    if HoldingThrough(run, r, i, j + 1, key) { assert Holding(run.states[j + 1], r, key); }
  }

  lemma OutdatedStep(run: Run, i: nat, j: nat, r: nat, key: string)
    requires |run.states| == |run.actions| + 1 && i < j < |run.actions|
    ensures Outdated(run, i, j + 1, r, key) <==>
      && Holding(run.states[j + 1], r, key)
      && (|| Outdated(run, i, j, r, key)
          || (Holding(run.states[j], r, key) && Occurs(run.states[j], run.actions[j], EntryRefreshed(key))))
  {
    OvertakenStep(run, i, j, r, key);
    HoldingOn(run, i, j, r, key);
  }

  lemma OutdatedHolds(run: Run, i: nat, j: nat, r: nat, key: string)
    requires i <= j < |run.states|
    ensures Outdated(run, i, j, r, key) ==> Holding(run.states[j], r, key)
  {}

  lemma UpdateLostStep(run: Run, i: nat, j: nat, key: string)
    requires |run.states| == |run.actions| + 1 && i < j < |run.actions|
    ensures UpdateLost(run, i, j + 1, key) <==> UpdateLost(run, i, j, key) || LosesAt(run, i, j, key)
  {
    if UpdateLost(run, i, j, key) {
      var n :| i < n < j && LosesAt(run, i, n, key);
    }
    if UpdateLost(run, i, j + 1, key) {
      var n :| i < n < j + 1 && LosesAt(run, i, n, key);
      if n < j { assert UpdateLost(run, i, j, key); }
    }
  }

  /** A hit's SET stores its copy with one hit more. */
  lemma RefreshStores(s: State, a: Action, s': State, key: string)
    requires IsStep(s, a, s') && Occurs(s, a, EntryRefreshed(key))
    ensures Holding(s, a.r, key) && !Holding(s', a.r, key) && key in s'.store.cache
    ensures s'.store.cache[key].value == Bump(s.clients[a.r].pc.found, s.clock)
    ensures forall r :: Holding(s', r, key) ==> Holding(s, r, key) && s'.clients[r].pc.found == s.clients[r].pc.found
  {}

  /** Any other step but a warm write keeps the stored entry, and whoever newly holds a copy
      holds the stored one. */
  lemma OtherStep(s: State, a: Action, s': State, key: string)
    requires IsStep(s, a, s') && !Occurs(s, a, EntryRefreshed(key)) && !Occurs(s, a, EntryWritten(key))
    ensures key in s'.store.cache ==>
      key in s.store.cache && s'.store.cache[key].value == s.store.cache[key].value
  {}

  lemma OtherHolds(s: State, a: Action, s': State, key: string)
    requires IsStep(s, a, s') && !Occurs(s, a, EntryRefreshed(key)) && !Occurs(s, a, EntryWritten(key))
    ensures forall r :: Holding(s', r, key) ==>
      if Holding(s, r, key) then s'.clients[r].pc.found == s.clients[r].pc.found
      else key in s.store.cache && s'.clients[r].pc.found == s.store.cache[key].value
  {}

  lemma CountsAfterRefresh(run: Run, i: nat, j: nat, w: nat, key: string)
    requires IsRun(run) && i < j < |run.actions| && Counts(run, i, j, w, key)
    requires Occurs(run.states[j], run.actions[j], EntryRefreshed(key))
    ensures Counts(run, i, j + 1, w, key)
  {
    var s, s' := run.states[j], run.states[j + 1];
    RefreshStores(s, run.actions[j], s', key);
    UpdateLostStep(run, i, j, key);
    forall r | Holding(s', r, key)
      ensures Outdated(run, i, j + 1, r, key)
      ensures Tallies(s'.clients[r].pc.found, w, Updates(run, i, j + 1, key), true)
    {
      OutdatedStep(run, i, j, r, key);
    }
  }

  lemma CountsAfterOther(run: Run, i: nat, j: nat, w: nat, key: string)
    requires IsRun(run) && i < j < |run.actions| && Counts(run, i, j, w, key)
    requires !Occurs(run.states[j], run.actions[j], EntryRefreshed(key))
    requires !Occurs(run.states[j], run.actions[j], EntryWritten(key))
    ensures Counts(run, i, j + 1, w, key)
  {
    var s, s' := run.states[j], run.states[j + 1];
    OtherStep(s, run.actions[j], s', key);
    OtherHolds(s, run.actions[j], s', key);
    UpdateLostStep(run, i, j, key);
    forall r | Holding(s', r, key)
      ensures Outdated(run, i, j + 1, r, key) <==> Holding(s, r, key) && Outdated(run, i, j, r, key)
    {
      OutdatedStep(run, i, j, r, key);
      OutdatedHolds(run, i, j, r, key);
    }
  }

  /** Everything stored or held before the write is some other request's entry. */
  lemma CountsFirst(run: Run, i: nat, key: string)
    requires IsRun(run) && i < |run.actions| && Occurs(run.states[i], run.actions[i], EntryWritten(key))
    ensures Counts(run, i, i + 1, run.actions[i].r, key)
  {
    var s, a, s' := run.states[i], run.actions[i], run.states[i + 1];
    DoneAlways(run, i);
    WriteStores(s, a, s', key);
    forall r | Holding(s', r, key)
      ensures HoldingThrough(run, r, i, i + 1, key) && s'.clients[r].pc.found.writer != a.r
    {
      assert Done(s, s.clients[r].pc.found.writer);
    }
  }

  lemma WriteStores(s: State, a: Action, s': State, key: string)
    requires IsStep(s, a, s') && Occurs(s, a, EntryWritten(key))
    ensures s.clients[a.r].pc.Warming? && key in s'.store.cache
    ensures s'.store.cache[key].value.writer == a.r && s'.store.cache[key].value.entry.hitCount == 0
    ensures forall r :: Holding(s', r, key) ==> Holding(s, r, key) && s'.clients[r].pc.found == s.clients[r].pc.found
  {}

  /** A window of the run, from the write at step i to state j, with no other write. */
  ghost predicate Window(run: Run, i: nat, j: nat, key: string) {
    IsRun(run) && i < j < |run.states| && !Between(run, i, j, EntryWritten(key))
  }

  ghost predicate Counted(run: Run, i: nat, j: nat, w: nat, key: string) {
    |run.states| == |run.actions| + 1 && j < |run.states| && Counts(run, i, j, w, key)
  }

  lemma CountsNext(run: Run, i: nat, k: nat, j: nat, w: nat, key: string)
    requires Window(run, i, j, key) && i < k < j && Counted(run, i, k, w, key)
    ensures Counted(run, i, k + 1, w, key)
  {
    assert !Occurs(run.states[k], run.actions[k], EntryWritten(key));
    if Occurs(run.states[k], run.actions[k], EntryRefreshed(key)) {
      CountsAfterRefresh(run, i, k, w, key);
    } else {
      CountsAfterOther(run, i, k, w, key);
    }
  }

  lemma {:induction false} CountsOn(run: Run, i: nat, k: nat, j: nat, w: nat, key: string)
    requires k <= j && Counted(run, i, k, w, key)
    requires forall m: nat :: k <= m < j && Counted(run, i, m, w, key) ==> Counted(run, i, m + 1, w, key)
    ensures Counted(run, i, j, w, key)
    decreases j - k
  {
    if k < j { CountsOn(run, i, k + 1, j, w, key); }
  }

  lemma CountsSince(run: Run, i: nat, j: nat, w: nat, key: string)
    requires Window(run, i, j, key) && Counted(run, i, i + 1, w, key)
    ensures Counted(run, i, j, w, key)
  {
    forall m: nat | i < m < j && Counted(run, i, m, w, key) ensures Counted(run, i, m + 1, w, key) {
      CountsNext(run, i, m, j, w, key);
    }
    CountsOn(run, i, i + 1, j, w, key);
  }

  /** Hit counts exactly. Since the last write, the store holds that write's entry, counting the hit
      updates made since, if and only if no lookup has written back an outdated copy: one read
      before the write, or overtaken by another lookup's SET. */
  lemma HitCountExact(run: Run, i: nat, j: nat, key: string)
    requires IsRun(run) && i < j < |run.states|
    requires Occurs(run.states[i], run.actions[i], EntryWritten(key)) && !Between(run, i, j, EntryWritten(key))
    requires key in run.states[j].store.cache
    ensures var e := run.states[j].store.cache[key].value;
      e.writer == run.actions[i].r && e.entry.hitCount == Updates(run, i, j, key) <==> !UpdateLost(run, i, j, key)
  {
    CountsFirst(run, i, key);
    CountsSince(run, i, j, run.actions[i].r, key);
  }

  /** At most one lookup of the key is between its GET and its SET. */
  ghost predicate OneLookup(s: State, key: string) {
    forall q, r :: Holding(s, q, key) && Holding(s, r, key) ==> q == r
  }

  /** In particular no update is lost as long as lookups of the key overlap neither each other nor
      the write. */
  lemma NoOverlapNoLoss(run: Run, i: nat, j: nat, key: string)
    requires IsRun(run) && i < j < |run.states|
    requires forall r :: !Holding(run.states[i], r, key)
    requires forall m :: i < m < j ==> OneLookup(run.states[m], key)
    ensures !UpdateLost(run, i, j, key)
  {
    forall n, r | i < n < j ensures !Outdated(run, i, n, r, key) {
      assert !Holding(run.states[i], r, key);
      forall m | i < m < n && Occurs(run.states[m], run.actions[m], EntryRefreshed(key))
        ensures !HoldingThrough(run, r, m, n, key)
      {
        RefreshStores(run.states[m], run.actions[m], run.states[m + 1], key);
        assert OneLookup(run.states[m], key);
        assert !(Holding(run.states[m], r, key) && Holding(run.states[m + 1], r, key));
      }
    }
  }
}
