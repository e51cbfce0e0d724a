/** Concrete runs on which stronger claims fail: why the theorems carry the conditions they carry. */
module Witnesses {
  import opened Wrappers
  import opened Redis
  import opened Policy
  import opened Backoff
  import opened Protocol
  import opened GhostLock
  import opened HitCounts

  // ---- Runs in which nothing fails at all ----

  predicate FaultFreeAction(a: Action) {
    match a
    case Step(_, fault) => fault == NoFault
    case Scan(_, _, fault) => fault == NoFault
    case EvictEntry(_) => false
    case EvictLock(_) => false
    case _ => true
  }

  ghost predicate AllAlive(s: State) {
    && (forall k :: k in s.store.cache ==> !Expired(s.store.cache[k], s.clock))
    && (forall k :: k in s.store.locks ==> !Expired(s.store.locks[k], s.clock))
  }

  ghost predicate FaultFreeRun(run: Run) {
    && IsRun(run)
    && (forall i :: 0 <= i < |run.actions| ==> FaultFreeAction(run.actions[i]))
    && (forall i :: 0 <= i < |run.states| ==> AllAlive(run.states[i]))
  }

  /** And nobody gives up waiting. */
  ghost predicate CalmRun(run: Run) {
    && FaultFreeRun(run)
    && forall i :: 0 <= i < |run.actions| ==> !Exhausts(run.states[i], run.actions[i])
  }

  /** Such a run is quiet for every key. */
  lemma FaultFreeIsQuiet(run: Run, key: string)
    requires FaultFreeRun(run)
    ensures QuietRun(run, key)
  {}

  function Last(run: Run): State
    requires run.states != []
  {
    run.states[|run.states| - 1]
  }

  ghost function Snoc(run: Run, a: Action): Run
    requires run.states != [] && Enabled(Last(run), a)
  {
    Run(run.states + [Next(Last(run), a)], run.actions + [a])
  }

  /** Letting a fault-free run take one more such step. */
  lemma Extend(run: Run, a: Action) returns (run': Run)
    requires FaultFreeRun(run) && Enabled(Last(run), a) && FaultFreeAction(a) && AllAlive(Next(Last(run), a))
    ensures FaultFreeRun(run') && run' == Snoc(run, a) && Last(run') == Next(Last(run), a)
  {
    run' := Snoc(run, a);
    forall i | 0 <= i < |run'.actions| ensures IsStep(run'.states[i], run'.actions[i], run'.states[i + 1]) {
      if i < |run.actions| { assert IsStep(run.states[i], run.actions[i], run.states[i + 1]); }
    }
  }

  /** The same with nobody giving up. */
  lemma Go(run: Run, a: Action) returns (run': Run)
    requires CalmRun(run) && Enabled(Last(run), a)
    requires FaultFreeAction(a) && AllAlive(Next(Last(run), a)) && !Exhausts(Last(run), a)
    ensures CalmRun(run') && run' == Snoc(run, a) && Last(run') == Next(Last(run), a)
  {
    run' := Extend(run, a);
  }

  lemma Start() returns (run: Run)
    ensures CalmRun(run) && Last(run) == State(Store(map[], map[], map[]), map[], 0) && run.actions == []
  {
    run := Run([State(Store(map[], map[], map[]), map[], 0)], []);
  }

  /** With no pod reporting, request r, about to scan, is routed to "default". */
  lemma RouteCold(run: Run, r: nat) returns (run': Run)
    requires CalmRun(run)
    requires var s := Last(run);
      && r in s.clients && s.clients[r].pc.Scanning? && s.store.loads == map[]
      && (forall k :: k in s.store.locks ==> s.store.locks[k].deadline == Some(s.clock + 30_000))
      && (forall k :: k in s.store.cache ==> s.store.cache[k].deadline.None?)
    ensures CalmRun(run')
    ensures var s, s' := Last(run), Last(run'); var c := s.clients[r];
      s' == State(s.store, s.clients[r := Client(c.req, Warming("default", s'.clock), Some("default"))], s.clock + 200)
  {
    run' := Go(run, Scan(r, [], NoFault));
    run' := Go(run', Tick(200));
  }

  /** From there it warms and releases the lock. */
  lemma Warm(run: Run, r: nat) returns (run': Run)
    requires CalmRun(run)
    requires var s := Last(run);
      && r in s.clients && s.clients[r].pc.Scanning? && s.clients[r].req.policy in {Infinite, Fixed(DOC_SECS)}
      && s.store.loads == map[]
      && s.store.locks == map[s.clients[r].req.key := Timed(r, Some(s.clock + 30_000))]
      && (forall k :: k in s.store.cache ==> k == s.clients[r].req.key && s.store.cache[k].deadline.None?)
    ensures CalmRun(run')
    ensures var s, s' := Last(run), Last(run'); var c := s.clients[r];
      && s'.clock == s.clock + 200
      && s'.clients == s.clients[r := Client(c.req, Missed("default"), Some("default"))]
      && s'.store.locks == map[] && s'.store.loads == map[]
      && s'.store.cache == WriteEntry(s.store.cache, Stored(NewEntry(c.req, "default", s'.clock), r), s'.clock)
  {
    run' := RouteCold(run, r);
    assert Last(run').store.locks.Keys == {Last(run).clients[r].req.key};
    run' := Go(run', Step(r, NoFault));
    run' := Go(run', Step(r, NoFault));
    assert Last(run').store.locks == map[];
  }

  /** Two requests for one key both miss and stand at the lock. */
  lemma MissTogether(req: Request) returns (run: Run)
    requires req.policy == Infinite
    ensures CalmRun(run)
    ensures Last(run) ==
      State(Store(map[], map[], map[]), map[0 := Client(req, Acquiring, None), 1 := Client(req, Acquiring, None)], 0)
  {
    run := Start();
    run := Go(run, Arrive(0, req));
    run := Go(run, Arrive(1, req));
    run := Go(run, Step(0, NoFault));
    run := Go(run, Step(1, NoFault));
  }

  /** Warming twice: the second request takes the lock after the first has warmed and released
      it, and warms the prefix again. Nothing fails and nobody gives up. */
  lemma WarmedTwice(req: Request) returns (run: Run)
    requires req.policy == Infinite
    ensures CalmRun(run)
    ensures var c := Client(req, Missed("default"), Some("default"));
      Last(run).clients == map[0 := c, 1 := c]
  {
    run := MissTogether(req);
    run := Go(run, Step(0, NoFault));
    run := Warm(run, 0);
    run := Go(run, Step(1, NoFault));
    run := Warm(run, 1);
  }

  /** A first request for a key comes, warms it and goes. */
  lemma FirstWarm(req: Request) returns (run: Run)
    requires req.policy in {Infinite, Fixed(DOC_SECS)}
    ensures CalmRun(run)
    ensures Last(run) == State(
      Store(WriteEntry(map[], Stored(NewEntry(req, "default", 200), 0), 200), map[], map[]),
      map[0 := Client(req, Missed("default"), Some("default"))], 200)
  {
    run := Start();
    run := Go(run, Arrive(0, req));
    run := Go(run, Step(0, NoFault));
    run := Go(run, Step(0, NoFault));
    run := Warm(run, 0);
  }

  /** Past four hours: one hit, and a document entry is still there a day later. */
  lemma OutlivesFourHours(req: Request) returns (run: Run)
    requires req.policy == Fixed(DOC_SECS)
    ensures CalmRun(run)
    ensures Last(run).clock >= 1000 * 24 * 3600 && HasEntry(Last(run), req.key)
    ensures Last(run).store.cache[req.key].value.entry.createdAt == 0
  {
    run := FirstWarm(req);
    run := Go(run, Arrive(1, req));
    run := Go(run, Step(1, NoFault));
    run := Go(run, Step(1, NoFault));
    run := Go(run, Tick(1000 * 24 * 3600));
  }

  /** Two lookups read the same entry before either writes it back. */
  lemma ReadTogether(req: Request) returns (run: Run)
    requires req.policy == Infinite
    ensures CalmRun(run)
    ensures var s := Last(run);
      && s.store == Store(map[req.key := Timed(Stored(NewEntry(req, "default", 200), 0), None)], map[], map[])
      && 1 in s.clients && s.clients[1] == Client(req, Putting(false, s.store.cache[req.key].value), None)
      && 2 in s.clients && s.clients[2] == s.clients[1]
  {
    run := FirstWarm(req);
    run := Go(run, Arrive(1, req));
    run := Go(run, Arrive(2, req));
    run := Go(run, Step(1, NoFault));
    run := Go(run, Step(2, NoFault));
  }

  /** A second lookup reads the entry of the first warm task, which request 1, having missed with
      it, is about to replace. */
  lemma ReadBeforeRewrite(req: Request) returns (run: Run)
    requires req.policy == Infinite
    ensures CalmRun(run)
    ensures var s := Last(run); var e := StaleEntry(req);
      && s.store == Store(map[req.key := Timed(e, None)], map[], map[])
      && s.clients.Keys == {0, 1, 2, 3} && s.clients[0].pc.Missed? && s.clients[2].pc.Hit?
      && s.clients[1] == Client(req, Acquiring, None)
      && s.clients[3] == Client(req, Putting(false, e), None)
  {
    run := MissTogether(req);
    run := Go(run, Step(0, NoFault));
    run := Warm(run, 0);
    run := HitOnce(run, req);
    run := ReadOnce(run, req);
  }

  lemma ReadOnce(run: Run, req: Request) returns (run': Run)
    requires CalmRun(run) && req.policy == Infinite
    requires var s := Last(run);
      3 !in s.clients && HasEntry(s, req.key) && s.store.cache[req.key].value.entry.ttlPolicy == Infinite
    ensures CalmRun(run')
    ensures var s, s' := Last(run), Last(run');
      && s'.store == s.store && s'.clock == s.clock
      && s'.clients == s.clients[3 := Client(req, Putting(false, s.store.cache[req.key].value), None)]
  {
    run' := Go(run, Arrive(3, req));
    run' := Go(run', Step(3, NoFault));
  }

  lemma HitOnce(run: Run, req: Request) returns (run': Run)
    requires CalmRun(run) && req.policy == Infinite
    requires var s := Last(run);
      2 !in s.clients && req.key in s.store.cache && s.store.cache[req.key].value.entry.ttlPolicy == Infinite
    ensures CalmRun(run')
    ensures var s, s' := Last(run), Last(run'); var e := Bump(s.store.cache[req.key].value, s.clock);
      && s'.clock == s.clock && s'.clients == s.clients[2 := Client(req, Hit(e), None)]
      && s'.store == s.store.(cache := s.store.cache[req.key := Timed(e, None)])
  {
    run' := Go(run, Arrive(2, req));
    run' := Go(run', Step(2, NoFault));
    run' := Go(run', Step(2, NoFault));
  }

  /** A stale write-back: no two lookups overlap since the warm write, but one has read before it
      and stores after it. The store is left with the old entry and two hits, one more than have
      been made since. */
  lemma StaleEntryReturns(req: Request) returns (run: Run, i: nat)
    requires req.policy == Infinite
    ensures CalmRun(run) && i + 3 == |run.actions| && Writes(run.states[i], run.actions[i], 1, req.key)
    ensures !Occurs(run.states[i + 1], run.actions[i + 1], EntryRefreshed(req.key))
    ensures Occurs(run.states[i + 2], run.actions[i + 2], EntryRefreshed(req.key))
    ensures forall m :: i <= m < |run.states| ==> OneLookup(run.states[m], req.key)
    ensures var s := Last(run);
      && req.key in s.store.cache
      && s.store.cache[req.key].value.writer == 0 && s.store.cache[req.key].value.entry.hitCount == 2
  {
    run := ReadBeforeRewrite(req);
    run := Go(run, Step(1, NoFault));
    run := RouteCold(run, 1);
    run, i := RewriteThenSet(run, req);
  }

  lemma RewriteThenSet(run: Run, req: Request) returns (run': Run, i: nat)
    requires CalmRun(run) && req.policy == Infinite && ThirdWaits(Last(run), req)
    requires Last(run).clients[1] == Client(req, Warming("default", Last(run).clock), Some("default"))
    ensures CalmRun(run') && i + 3 == |run'.actions| && Writes(run'.states[i], run'.actions[i], 1, req.key)
    ensures !Occurs(run'.states[i + 1], run'.actions[i + 1], EntryRefreshed(req.key))
    ensures Occurs(run'.states[i + 2], run'.actions[i + 2], EntryRefreshed(req.key))
    ensures forall m :: i <= m < |run'.states| ==> OneLookup(run'.states[m], req.key)
    ensures var s := Last(run');
      && req.key in s.store.cache
      && s.store.cache[req.key].value.writer == 0 && s.store.cache[req.key].value.entry.hitCount == 2
  {
    i := |run.actions|;
    var r1 := StepOf1(run, req);
    var r2 := StepOf1(r1, req);
    run' := SetStale(r2, req);
    ThirdAlone(Last(run), req);
    ThirdAlone(Last(r1), req);
    ThirdAlone(Last(r2), req);
    assert run'.states == run.states + [Last(r1), Last(r2), Last(run')];
    assert run'.actions == run.actions + [Step(1, NoFault), Step(1, NoFault), Step(3, NoFault)];
    assert run'.states[i] == Last(run);
  }

  ghost predicate Longer(run: Run, a: Action, run': Run)
    requires run'.states != []
  {
    run'.states == run.states + [Last(run')] && run'.actions == run.actions + [a]
  }

  lemma ThirdAlone(s: State, req: Request)
    requires ThirdWaits(s, req)
    ensures OneLookup(s, req.key)
  {
    assert OnlyThird(s, req.key);
  }

  /** Request 3 has read the stale entry; 0 and 2 are done; 1 writes or releases next. */
  ghost predicate ThirdWaits(s: State, req: Request) {
    && s.store.cache.Keys == {req.key} && s.store.locks.Keys <= {req.key}
    && s.clients.Keys == {0, 1, 2, 3}
    && s.clients[0].pc.Missed? && s.clients[2].pc.Hit?
    && s.clients[1].req == req && (s.clients[1].pc.Warming? || s.clients[1].pc.Releasing? || s.clients[1].pc.Missed?)
    && s.clients[3] == Client(req, Putting(false, StaleEntry(req)), None)
  }

  /** Request 1 writes, or releases. */
  lemma StepOf1(run: Run, req: Request) returns (run': Run)
    requires CalmRun(run) && req.policy == Infinite && ThirdWaits(Last(run), req)
    requires var pc := Last(run).clients[1].pc;
      pc == Warming("default", Last(run).clock) || pc == Releasing("default")
    ensures CalmRun(run') && Longer(run, Step(1, NoFault), run') && ThirdWaits(Last(run'), req)
    ensures Last(run').clients[1].pc ==
      if Last(run).clients[1].pc.Warming? then Releasing("default") else Missed("default")
    ensures Last(run).clients[1].pc.Warming? ==> Writes(Last(run), Step(1, NoFault), 1, req.key)
    ensures !Occurs(Last(run), Step(1, NoFault), EntryRefreshed(req.key))
  {
    run' := Go(run, Step(1, NoFault));
  }

  /** Only request 3 can be between its GET and its SET. */
  ghost predicate OnlyThird(s: State, key: string) { forall r :: Holding(s, r, key) ==> r == 3 }

  lemma SetStale(run: Run, req: Request) returns (run': Run)
    requires CalmRun(run) && ThirdWaits(Last(run), req)
    ensures CalmRun(run') && Longer(run, Step(3, NoFault), run')
    ensures Occurs(Last(run), Step(3, NoFault), EntryRefreshed(req.key)) && OneLookup(Last(run'), req.key)
    ensures var s := Last(run');
      && req.key in s.store.cache
      && s.store.cache[req.key].value.writer == 0 && s.store.cache[req.key].value.entry.hitCount == 2
  {
    run' := Go(run, Step(3, NoFault));
    assert OnlyThird(Last(run'), req.key);
  }

  /** The entry that request 0 wrote and request 2 hit. */
  function StaleEntry(req: Request): Stored { Bump(Stored(NewEntry(req, "default", 200), 0), 200) }

  /** A lost update: two overlapping lookups both hit and the stored count says one. */
  lemma HitLost(req: Request) returns (run: Run)
    requires req.policy == Infinite
    ensures CalmRun(run)
    ensures var s := Last(run);
      && 1 in s.clients && s.clients[1].pc.Hit? && 2 in s.clients && s.clients[2].pc.Hit?
      && req.key in s.store.cache && s.store.cache[req.key].value.entry.hitCount == 1
  {
    run := ReadTogether(req);
    run := Go(run, Step(1, NoFault));
    run := Go(run, Step(2, NoFault));
  }

  ghost predicate Contended(s: State, req: Request, attempt: nat) {
    && s.store == Store(map[], map[req.key := Timed(0, Some(30_000))], map[])
    && s.clock == TotalWait(BASE_MS, attempt)
    && s.clients == map[
         0 := Client(req, Scanning, None),
         1 := Client(req, Waiting(attempt, s.clock + BackoffMs(BASE_MS, attempt)), None)]
  }

  lemma BeforeLockExpiry(attempt: nat)
    requires attempt < RETRY_MAX
    ensures TotalWait(BASE_MS, attempt + 1) == TotalWait(BASE_MS, attempt) + BackoffMs(BASE_MS, attempt)
    ensures TotalWait(BASE_MS, attempt + 1) + 1000 < 30_000
  {
    TotalWaitMonotone(BASE_MS, attempt + 1, RETRY_MAX);
    TotalWaitClosed(BASE_MS, RETRY_MAX);
    assert Pow2(7) == 128;
  }

  lemma Sleep(run: Run, req: Request, attempt: nat) returns (run': Run)
    requires CalmRun(run) && attempt < RETRY_MAX && Contended(Last(run), req, attempt)
    ensures CalmRun(run')
    ensures Last(run') == Last(run).(clock := TotalWait(BASE_MS, attempt + 1))
    ensures TotalWait(BASE_MS, attempt + 1) + 1000 < 30_000
  {
    BeforeLockExpiry(attempt);
    run' := Go(run, Tick(BackoffMs(BASE_MS, attempt)));
  }

  /** The probe finds the lock still there, and the waiter sleeps again. */
  lemma Probe(run: Run, req: Request, attempt: nat) returns (run': Run)
    requires CalmRun(run) && attempt + 1 < RETRY_MAX && Contended(Last(run), req, attempt)
    ensures CalmRun(run') && Contended(Last(run'), req, attempt + 1)
  {
    run' := Sleep(run, req, attempt);
    var s := Last(run');
    assert HasLock(s, req.key);
    run' := Go(run', Step(1, NoFault));
    assert Last(run').clients[1].pc == Waiting(attempt + 1, s.clock + BackoffMs(BASE_MS, attempt + 1));
  }

  lemma {:induction false} WaitOut(run: Run, req: Request, attempt: nat) returns (run': Run)
    requires CalmRun(run) && attempt < RETRY_MAX && Contended(Last(run), req, attempt)
    ensures FaultFreeRun(run')
    ensures Last(run').clients == map[0 := Client(req, Scanning, None), 1 := Client(req, Scanning, None)]
    ensures Last(run').store == Last(run).store && Last(run').clock + 1000 < 30_000
    decreases RETRY_MAX - attempt
  {
    if attempt + 1 < RETRY_MAX {
      run' := Probe(run, req, attempt);
      run' := WaitOut(run', req, attempt + 1);
    } else {
      run' := Sleep(run, req, attempt);
      run' := Extend(run', Step(1, NoFault));
    }
  }

  /** Two warmers at once: nothing fails, but the first holder dawdles and a waiter gives up. */
  lemma ExhaustionBreaksExclusion(req: Request) returns (run: Run)
    requires req.policy == Infinite
    ensures FaultFreeRun(run)
    ensures Holds(Last(run), 0, req.key) && Holds(Last(run), 1, req.key)
    ensures Last(run) == State(
      Store(map[], map[req.key := Timed(0, Some(30_000))], map[]),
      map[0 := Client(req, Scanning, None), 1 := Client(req, Scanning, None)],
      Last(run).clock)
    ensures Last(run).clock + 1000 < 30_000
  {
    run := MissTogether(req);
    run := Go(run, Step(0, NoFault));
    run := Go(run, Step(1, NoFault));
    assert TotalWait(BASE_MS, 0) == 0;
    run := WaitOut(run, req, 0);
  }

  /** From there both write: the lock was taken once, and the prefix is warmed twice. */
  lemma GivingUpWarmsAgain(req: Request) returns (run: Run)
    requires req.policy == Infinite
    ensures FaultFreeRun(run) && |run.actions| >= 2
    ensures var n := |run.actions|;
      && Writes(run.states[n - 2], run.actions[n - 2], 0, req.key)
      && Writes(run.states[n - 1], run.actions[n - 1], 1, req.key)
  {
    run := ExhaustionBreaksExclusion(req);
    run := Extend(run, Scan(0, [], NoFault));
    run := Extend(run, Scan(1, [], NoFault));
    run := Extend(run, Tick(200));
    run := BothWrite(run, req.key);
  }

  lemma BothWrite(run: Run, key: string) returns (run': Run)
    requires FaultFreeRun(run)
    requires var s := Last(run);
      && 0 in s.clients && 1 in s.clients && s.clients[0].req.key == key && s.clients[1].req.key == key
      && s.clients[0].req.policy == Infinite && s.clients[1].req.policy == Infinite
      && s.clients[0].pc == Warming("default", s.clock) && s.clients[1].pc == Warming("default", s.clock)
    ensures FaultFreeRun(run') && |run'.actions| >= 2
    ensures var n := |run'.actions|;
      && Writes(run'.states[n - 2], run'.actions[n - 2], 0, key)
      && Writes(run'.states[n - 1], run'.actions[n - 1], 1, key)
  {
    var mid := Extend(run, Step(0, NoFault));
    run' := Extend(mid, Step(1, NoFault));
    var n := |run'.actions|;
    assert run'.states[n - 2] == Last(run) && run'.states[n - 1] == Last(mid);
  }

  /** The pod is recorded, not routed to: the only pod reporting is chosen for a request that is
      forwarded to its sidecar's configured address. */
  lemma RecordedNotRouted(req: Request, pod: string) returns (run: Run)
    requires req.policy == Infinite
    ensures CalmRun(run) && 0 in Last(run).clients
    ensures Last(run).clients[0].chosen == Some(pod) && Destination(Last(run).clients[0]) == Some(req.podIp)
  {
    run := Start();
    run := Go(run, Heartbeat(pod, 0.0));
    run := Go(run, Arrive(0, req));
    run := Go(run, Step(0, NoFault));
    run := Go(run, Step(0, NoFault));
    run := ScanOnly(run, pod);
  }

  lemma ScanOnly(run: Run, pod: string) returns (run': Run)
    requires CalmRun(run)
    requires var s := Last(run);
      && 0 in s.clients && s.clients[0].pc.Scanning?
      && s.store.loads.Keys == {pod} && !Expired(s.store.loads[pod], s.clock)
    ensures CalmRun(run') && 0 in Last(run').clients
    ensures Last(run').clients[0].chosen == Some(pod) && Last(run').clients[0].pc.Warming?
    ensures Last(run').clients[0].req == Last(run).clients[0].req
  {
    run' := Go(run, Scan(0, [pod], NoFault));
    run' := Go(run', Step(0, NoFault));
  }

  /** The exhausted waiter's DEL removes the lock of a third request, which took it after the first
      holder had released its own. */
  lemma DeletesAnothersLock(req: Request) returns (run: Run)
    requires req.policy == Infinite
    ensures FaultFreeRun(run) && |run.actions| >= 1
    ensures var n := |run.actions|;
      && StepsAt(run.states[n - 1], run.actions[n - 1], 1) && run.states[n - 1].clients[1].pc.Releasing?
      && OwnLock(run.states[n - 1], 2, req.key) && !HasLock(Last(run), req.key)
  {
    run := ExhaustionBreaksExclusion(req);
    run := ThirdMisses(run, req);
    run := BothScan(run, req);
    run := FirstReleases(run, req);
    run := ThirdLocks(run, req);
    run := WrongRelease(run, req);
  }

  /** Requests 0 and 1 are on the cold route, request 2 is about to try the lock. */
  ghost predicate TwoScan(s: State, req: Request) {
    && s.clients == map[
         0 := Client(req, Scanning, None), 1 := Client(req, Scanning, None), 2 := Client(req, Acquiring, None)]
    && s.store == Store(map[], map[req.key := Timed(0, Some(30_000))], map[]) && s.clock + 1000 < 30_000
  }

  lemma ThirdMisses(run: Run, req: Request) returns (run': Run)
    requires FaultFreeRun(run) && req.policy == Infinite
    requires Last(run) == State(
      Store(map[], map[req.key := Timed(0, Some(30_000))], map[]),
      map[0 := Client(req, Scanning, None), 1 := Client(req, Scanning, None)],
      Last(run).clock)
    requires Last(run).clock + 1000 < 30_000
    ensures FaultFreeRun(run') && TwoScan(Last(run'), req)
  {
    run' := Extend(run, Arrive(2, req));
    run' := Extend(run', Step(2, NoFault));
  }

  lemma BothScan(run: Run, req: Request) returns (run': Run)
    requires FaultFreeRun(run) && TwoScan(Last(run), req)
    ensures FaultFreeRun(run') && TwoWarmOneWaits(Last(run'), req)
  {
    run' := Extend(run, Scan(0, [], NoFault));
    run' := Extend(run', Scan(1, [], NoFault));
    run' := Extend(run', Tick(200));
  }

  /** Requests 0 and 1 are about to write, request 2 is about to try the lock. */
  ghost predicate TwoWarmOneWaits(s: State, req: Request) {
    && s.clients.Keys == {0, 1, 2} && s.clients[0].req == s.clients[1].req == s.clients[2].req == req
    && s.clients[0].pc == Warming("default", s.clock) && s.clients[1].pc == Warming("default", s.clock)
    && s.clients[2].pc.Acquiring?
    && s.store.cache == map[] && s.store.locks == map[req.key := Timed(0, Some(30_000))] && s.clock + 500 < 30_000
  }

  lemma FirstReleases(run: Run, req: Request) returns (run': Run)
    requires FaultFreeRun(run) && req.policy == Infinite && TwoWarmOneWaits(Last(run), req)
    ensures FaultFreeRun(run')
    ensures var s := Last(run');
      && s.clients.Keys == {0, 1, 2} && s.clients[1].req == s.clients[2].req == req
      && s.clients[1].pc == Warming("default", s.clock) && s.clients[2].pc.Acquiring?
      && s.store.cache.Keys == {req.key} && s.store.cache[req.key].deadline.None? && s.store.locks == map[]
  {
    run' := Extend(run, Step(0, NoFault));
    run' := Extend(run', Step(0, NoFault));
    assert Last(run').store.locks == map[];
  }

  lemma ThirdLocks(run: Run, req: Request) returns (run': Run)
    requires FaultFreeRun(run) && req.policy == Infinite
    requires var s := Last(run);
      && s.clients.Keys == {0, 1, 2} && s.clients[1].req == s.clients[2].req == req
      && s.clients[1].pc == Warming("default", s.clock) && s.clients[2].pc.Acquiring?
      && s.store.cache.Keys == {req.key} && s.store.cache[req.key].deadline.None? && s.store.locks == map[]
    ensures FaultFreeRun(run') && ThirdOwns(Last(run'), req)
  {
    run' := Extend(run, Step(1, NoFault));
    run' := Extend(run', Step(2, NoFault));
  }

  ghost predicate ThirdOwns(s: State, req: Request) {
    && s.clients.Keys == {0, 1, 2} && s.clients[1].req == req && s.clients[1].pc.Releasing?
    && s.store.locks.Keys == {req.key} && OwnLock(s, 2, req.key)
  }

  lemma WrongRelease(run: Run, req: Request) returns (run': Run)
    requires FaultFreeRun(run) && ThirdOwns(Last(run), req)
    ensures FaultFreeRun(run') && |run'.actions| >= 1
    ensures var n := |run'.actions|;
      && StepsAt(run'.states[n - 1], run'.actions[n - 1], 1) && run'.states[n - 1].clients[1].pc.Releasing?
      && OwnLock(run'.states[n - 1], 2, req.key) && !HasLock(Last(run'), req.key)
  {
    run' := Extend(run, Step(1, NoFault));
    assert run'.states[|run'.actions| - 1] == Last(run);
  }
}
