/** The Ghost-Lock and affinity-map protocol as a state machine.

    Any number of requests run `intercept_handler` (and its spawned warm task) against one
    Redis. Every Redis command is one atomic step, so requests interleave between any two of
    their commands. Time passes, keys expire, and the environment may lose a command, lose a
    reply, evict a key, or drop a request. */
module Protocol {
  import opened Wrappers
  import opened Sorting
  import opened Redis
  import opened Policy
  import opened Backoff

  const WARM_DELAY_MS: nat := 200
  const HEARTBEAT_SECS: nat := 45

  /** What the handler knows of a request before its first Redis command; `podIp` is its sidecar's
      configured default address. */
  datatype Request = Request(key: string, policy: TtlPolicy, blockCount: nat, tokenCount: nat, podIp: string)

  /** A cache entry, with the id of the request whose warm task wrote it. */
  datatype Stored = Stored(entry: CacheEntry, writer: nat)

  datatype PodLoad = PodLoad(pod: string, load: real)

  /** Where a request stands: always just before a Redis command, or finished. */
  datatype Pc =
    | Getting(again: bool)                            // GET in `lookup`; again = the re-lookup after waiting
    | Touching(again: bool, found: Stored)            // EXPIRE of a sliding entry
    | Putting(again: bool, found: Stored)             // SET of the updated entry
    | Acquiring                                       // SET NX EX of the lock
    | Waiting(attempt: nat, wake: nat)                // asleep, then EXISTS of the lock
    | Scanning                                        // KEYS pod_load:*
    | Reading(todo: seq<string>, got: seq<PodLoad>)   // GET of each load
    | Warming(pod: string, wake: nat)                 // 200 ms, then the cache write
    | Releasing(pod: string)                          // DEL of the lock
    | Hit(found: Stored)                              // forwarded with the entry found
    | Missed(pod: string)                             // forwarded cold, cache written, lock deleted
    | Dropped                                         // abandoned

  datatype Client = Client(req: Request, pc: Pc, chosen: Option<string>)

  datatype Store = Store(cache: Keyspace<Stored>, locks: Keyspace<nat>, loads: Keyspace<real>)

  datatype State = State(store: Store, clients: map<nat, Client>, clock: nat)

  /** What can go wrong with one command: it never reaches Redis, or only its reply is lost. */
  datatype Fault = NoFault | NotSent | ReplyLost

  datatype Action =
    | Arrive(r: nat, req: Request)
    | Step(r: nat, fault: Fault)
    | Scan(r: nat, keys: seq<string>, fault: Fault)
    | Drop(r: nat)
    | Heartbeat(pod: string, load: real)
    | Deregister(pod: string)
    | Tick(ms: nat)
    | EvictEntry(key: string)
    | EvictLock(key: string)
    | EvictLoad(pod: string)

  predicate Finished(pc: Pc) { pc.Hit? || pc.Missed? || pc.Dropped? }

  predicate Awake(pc: Pc, now: nat) {
    match pc
    case Waiting(_, wake) => wake <= now
    case Warming(_, wake) => wake <= now
    case _ => true
  }

  // ---- One command ----

  function NewEntry(req: Request, pod: string, now: nat): CacheEntry {
    CacheEntry(req.key, req.podIp, pod, req.blockCount, req.tokenCount, 0, now / 1000, now / 1000, req.policy)
  }

  /** The entry `lookup` stores and returns. */
  function Bump(e: Stored, now: nat): Stored {
    e.(entry := e.entry.(hitCount := e.entry.hitCount + 1, lastHitAt := now / 1000))
  }

  /** `write` */
  function WriteEntry(cache: Keyspace<Stored>, e: Stored, now: nat): Keyspace<Stored> {
    match RedisTtlSecs(e.entry.ttlPolicy)
    case None => Set(cache, e.entry.prefixHash, e)
    case Some(secs) => SetEx(cache, e.entry.prefixHash, e, secs, now)
  }

  /** What the pending command does to the store. */
  function Effect(pc: Pc, r: nat, req: Request, st: Store, now: nat): Store {
    match pc
    case Touching(_, e) => st.(cache := Expire(st.cache, req.key, RedisTtlSecs(e.entry.ttlPolicy).GetOr(0), now))
    case Putting(_, e) => st.(cache := Set(st.cache, req.key, Bump(e, now)))
    case Acquiring => st.(locks := SetNxEx(st.locks, req.key, r, LOCK_TTL_SECS, now))
    case Warming(pod, _) => st.(cache := WriteEntry(st.cache, Stored(NewEntry(req, pod, now), r), now))
    case Releasing(_) => st.(locks := Del(st.locks, req.key))
    case _ => st
  }

  predicate ByLoad(a: PodLoad, b: PodLoad) { a.load <= b.load }

  /** The pod `cold_miss_target` takes from the loads it read. */
  function LeastLoaded(got: seq<PodLoad>): string
    requires got != []
  {
    SortBy(got, ByLoad)[0].pod
  }

  function AfterRead(todo: seq<string>, got: seq<PodLoad>, load: real, now: nat): Pc
    requires todo != []
  {
    var got' := got + [PodLoad(todo[0], load)];
    if |todo| == 1 then Warming(LeastLoaded(got'), now + WARM_DELAY_MS) else Reading(todo[1..], got')
  }

  /** Where the request goes on the command's reply. */
  function After(pc: Pc, req: Request, st: Store, now: nat): Pc {
    match pc
    case Getting(again) =>
      (match Get(st.cache, req.key, now)
       case None => if again then Scanning else Acquiring
       case Some(e) => if e.entry.ttlPolicy.Sliding? then Touching(again, e) else Putting(again, e))
    case Touching(again, e) => Putting(again, e)
    case Putting(_, e) => Hit(Bump(e, now))
    case Acquiring => if Exists(st.locks, req.key, now) then Waiting(0, now + BackoffMs(BASE_MS, 0)) else Scanning
    case Waiting(attempt, _) =>
      if !Exists(st.locks, req.key, now) then Getting(true)
      else if attempt + 1 >= RETRY_MAX then Scanning
      else Waiting(attempt + 1, now + BackoffMs(BASE_MS, attempt + 1))
    case Reading(todo, got) =>
      if todo == [] then pc else AfterRead(todo, got, Get(st.loads, todo[0], now).GetOr(0.5), now)
    case Warming(pod, _) => Releasing(pod)
    case Releasing(pod) => Missed(pod)
    case _ => pc
  }

  /** Where the request goes when the command reports an error. */
  function OnError(pc: Pc, now: nat): Pc {
    match pc
    case Getting(_) => Scanning
    case Touching(_, _) => Scanning
    case Putting(_, _) => Scanning
    case Acquiring => Waiting(0, now + BackoffMs(BASE_MS, 0))
    case Waiting(_, _) => Scanning
    case Reading(todo, got) => if todo == [] then pc else AfterRead(todo, got, 0.5, now)
    case Warming(pod, _) => Releasing(pod)
    case Releasing(pod) => Missed(pod)
    case _ => pc
  }

  function AfterScan(keys: seq<string>, fault: Fault, now: nat): Pc {
    if fault != NoFault || keys == [] then Warming("default", now + WARM_DELAY_MS) else Reading(keys, [])
  }

  /** The address the handler forwards to. A hit goes to the address in the entry. A miss goes to
      the sidecar's own configured one: the pod that `cold_miss_target` chooses is only recorded. */
  function Destination(c: Client): Option<string> {
    match c.pc
    case Hit(e) => Some(e.entry.podIp)
    case Warming(_, _) => Some(c.req.podIp)
    case Releasing(_) => Some(c.req.podIp)
    case Missed(_) => Some(c.req.podIp)
    case _ => None
  }

  // ---- The machine ----

  ghost predicate Enabled(s: State, a: Action) {
    match a
    case Arrive(r, req) => r !in s.clients && req.policy in {Infinite, Fixed(DOC_SECS)}
    case Step(r, _) =>
      r in s.clients && !Finished(s.clients[r].pc) && !s.clients[r].pc.Scanning? && Awake(s.clients[r].pc, s.clock)
    case Scan(r, keys, _) => r in s.clients && s.clients[r].pc.Scanning? && IsKeyScan(s.store.loads, keys, s.clock)
    case Drop(r) => r in s.clients && !Finished(s.clients[r].pc)
    case _ => true
  }

  /** Moving to a pod fixes the request's choice. */
  function Move(c: Client, pc: Pc): Client {
    c.(pc := pc, chosen := if pc.Warming? then Some(pc.pod) else c.chosen)
  }

  function StepStore(s: State, r: nat, fault: Fault): Store
    requires r in s.clients
  {
    if fault == NotSent then s.store else Effect(s.clients[r].pc, r, s.clients[r].req, s.store, s.clock)
  }

  function StepPc(s: State, r: nat, fault: Fault): Pc
    requires r in s.clients
  {
    if fault == NoFault then After(s.clients[r].pc, s.clients[r].req, s.store, s.clock)
    else OnError(s.clients[r].pc, s.clock)
  }

  ghost function Next(s: State, a: Action): State
    requires Enabled(s, a)
  {
    match a
    case Arrive(r, req) => s.(clients := s.clients[r := Client(req, Getting(false), None)])
    case Step(r, fault) =>
      s.(store := StepStore(s, r, fault), clients := s.clients[r := Move(s.clients[r], StepPc(s, r, fault))])
    case Scan(r, keys, fault) => s.(clients := s.clients[r := Move(s.clients[r], AfterScan(keys, fault, s.clock))])
    case Drop(r) => s.(clients := s.clients[r := Move(s.clients[r], Dropped)])
    case Heartbeat(pod, load) =>
      s.(store := s.store.(loads := SetEx(s.store.loads, pod, load, HEARTBEAT_SECS, s.clock)))
    case Deregister(pod) => s.(store := s.store.(loads := Del(s.store.loads, pod)))
    case Tick(ms) => s.(clock := s.clock + ms)
    case EvictEntry(key) => s.(store := s.store.(cache := Del(s.store.cache, key)))
    case EvictLock(key) => s.(store := s.store.(locks := Del(s.store.locks, key)))
    case EvictLoad(pod) => s.(store := s.store.(loads := Del(s.store.loads, pod)))
  }

  datatype Run = Run(states: seq<State>, actions: seq<Action>)

  ghost predicate Initial(s: State) { s.store == Store(map[], map[], map[]) && s.clients == map[] }

  ghost predicate IsStep(s: State, a: Action, s': State) { Enabled(s, a) && s' == Next(s, a) }

  ghost predicate IsRun(run: Run) {
    && |run.states| == |run.actions| + 1
    && Initial(run.states[0])
    && forall i :: 0 <= i < |run.actions| ==> IsStep(run.states[i], run.actions[i], run.states[i + 1])
  }

  // ---- Vocabulary of the theorems ----

  ghost predicate StepsAt(s: State, a: Action, r: nat) { a.Step? && a.r == r && r in s.clients }

  /** The action's command on request r's behalf reaches Redis. */
  ghost predicate Executes(s: State, a: Action, r: nat) { StepsAt(s, a, r) && a.fault != NotSent }

  predicate HasEntry(s: State, key: string) { Exists(s.store.cache, key, s.clock) }

  predicate HasLock(s: State, key: string) { Exists(s.store.locks, key, s.clock) }

  predicate Routing(pc: Pc) { pc.Scanning? || pc.Reading? }

  /** Between deciding to warm and having released the lock. */
  predicate Owning(pc: Pc) { Routing(pc) || pc.Warming? || pc.Releasing? }

  /** What may happen to a key in one step; always the command's effect on Redis, whether or
      not its reply arrives. */
  datatype Event =
    | LockTaken(key: string)        // a SET NX EX that took effect
    | LockRemoved(key: string)      // a DEL, or an eviction
    | EntryWritten(key: string)     // a warm task's write
    | EntryRefreshed(key: string)   // a hit's SET

  /** Request w's warm task writes its entry under the key. */
  ghost predicate Writes(s: State, a: Action, w: nat, key: string) {
    Executes(s, a, w) && s.clients[w].pc.Warming? && s.clients[w].req.key == key
  }

  ghost predicate Occurs(s: State, a: Action, e: Event) {
    if e.LockRemoved? && a == EvictLock(e.key) then true
    else
      && a.Step? && Executes(s, a, a.r) && s.clients[a.r].req.key == e.key
      && match e
         case LockTaken(key) => s.clients[a.r].pc.Acquiring? && !HasLock(s, key)
         case LockRemoved(_) => s.clients[a.r].pc.Releasing?
         case EntryWritten(_) => s.clients[a.r].pc.Warming?
         case EntryRefreshed(_) => s.clients[a.r].pc.Putting?
  }

  /** The event happens strictly between steps i and j. */
  ghost predicate Between(run: Run, i: int, j: nat, e: Event) {
    exists m :: i < m < j && 0 <= m < |run.actions| && m < |run.states| && Occurs(run.states[m], run.actions[m], e)
  }

  lemma BetweenSnoc(run: Run, i: int, j: nat, e: Event)
    requires -1 <= i && i + 1 < j <= |run.actions| && |run.states| == |run.actions| + 1
    ensures Between(run, i, j, e) <==> Between(run, i, j - 1, e) || Occurs(run.states[j - 1], run.actions[j - 1], e)
  {
    if Between(run, i, j - 1, e) {
      var m :| i < m < j - 1 && Occurs(run.states[m], run.actions[m], e);
    }
    if Between(run, i, j, e) {
      var m :| i < m < j && Occurs(run.states[m], run.actions[m], e);
      if m < j - 1 { assert Between(run, i, j - 1, e); }
    }
  }
}
