/** Affinity soundness: in every run, whatever fails or is evicted, a cached entry speaks for
    the key it is stored under, the pod id its writer recorded and its writer's address. */
module Affinity {
  import opened Wrappers
  import opened Redis
  import opened Policy
  import opened Protocol

  type Clients = map<nat, Client>

  /** The entry is what its writer's warm task wrote, apart from hit statistics. */
  ghost predicate Sound(cs: Clients, key: string, e: Stored) {
    e.writer in cs &&
    var w := cs[e.writer];
    && w.req.key == key
    && w.chosen == Some(e.entry.podId)
    && e.entry.prefixHash == key
    && e.entry.podIp == w.req.podIp
    && e.entry.blockCount == w.req.blockCount
    && e.entry.tokenCount == w.req.tokenCount
    && e.entry.ttlPolicy == w.req.policy
  }

  ghost predicate ClientSound(cs: Clients, c: Client) {
    && c.req.policy in {Infinite, Fixed(DOC_SECS)}
    && match c.pc
       case Touching(_, e) => c.chosen == None && Sound(cs, c.req.key, e)
       case Putting(_, e) => c.chosen == None && Sound(cs, c.req.key, e)
       case Hit(e) => c.chosen == None && Sound(cs, c.req.key, e)
       case Reading(todo, _) => c.chosen == None && todo != []
       case Warming(pod, _) => c.chosen == Some(pod)
       case Releasing(pod) => c.chosen == Some(pod)
       case Missed(pod) => c.chosen == Some(pod)
       case Dropped => true
       case _ => c.chosen == None
  }

  ghost predicate CacheSound(cs: Clients, cache: Keyspace<Stored>) {
    forall k :: k in cache ==> Sound(cs, k, cache[k].value)
  }

  ghost predicate ClientsSound(cs: Clients) { forall r :: r in cs ==> ClientSound(cs, cs[r]) }

  ghost predicate Inv(s: State) { CacheSound(s.clients, s.store.cache) && ClientsSound(s.clients) }

  /** Requests never change, and a choice once made stays. */
  ghost predicate Extends(cs: Clients, cs': Clients) {
    forall r :: r in cs ==>
      r in cs' && cs'[r].req == cs[r].req && (cs[r].chosen.Some? ==> cs'[r].chosen == cs[r].chosen)
  }

  lemma SoundExtends(cs: Clients, cs': Clients, key: string, e: Stored)
    requires Extends(cs, cs') && Sound(cs, key, e)
    ensures Sound(cs', key, e)
  {}

  lemma ClientExtends(cs: Clients, cs': Clients, c: Client)
    requires Extends(cs, cs') && ClientSound(cs, c)
    ensures ClientSound(cs', c)
  {}

  lemma InvExtends(cs: Clients, cs': Clients, cache: Keyspace<Stored>)
    requires Extends(cs, cs')
    requires CacheSound(cs, cache)
    ensures CacheSound(cs', cache)
  {
    forall k | k in cache ensures Sound(cs', k, cache[k].value) { SoundExtends(cs, cs', k, cache[k].value); }
  }

  /** Replacing one client by a sound successor keeps every client sound. */
  lemma ReplaceClient(cs: Clients, r: nat, c: Client)
    requires ClientsSound(cs)
    requires r in cs ==> c.req == cs[r].req && (cs[r].chosen.Some? ==> c.chosen == cs[r].chosen)
    requires ClientSound(cs[r := c], c)
    ensures Extends(cs, cs[r := c])
    ensures ClientsSound(cs[r := c])
  {
    var cs' := cs[r := c];
    forall q | q in cs' ensures ClientSound(cs', cs'[q]) {
      if q != r { ClientExtends(cs, cs', cs[q]); }
    }
  }

  lemma StepClientSound(s: State, r: nat, fault: Fault)
    requires Inv(s) && r in s.clients && !Finished(s.clients[r].pc) && !s.clients[r].pc.Scanning?
    ensures var c := Move(s.clients[r], StepPc(s, r, fault));
      && ClientSound(s.clients[r := c], c)
      && c.req == s.clients[r].req
      && (s.clients[r].chosen.Some? ==> c.chosen == s.clients[r].chosen)
  {
    var c, key := s.clients[r], s.clients[r].req.key;
    var c' := Move(c, StepPc(s, r, fault));
    var cs' := s.clients[r := c'];
    assert c.chosen.Some? ==> c'.chosen == c.chosen;
    assert Extends(s.clients, cs');
    match c.pc {
      case Getting(_) => if HasEntry(s, key) { SoundExtends(s.clients, cs', key, s.store.cache[key].value); }
      case Touching(_, e) => SoundExtends(s.clients, cs', key, e);
      case Putting(_, e) => SoundExtends(s.clients, cs', key, e);
      case _ =>
    }
  }

  lemma AddSound(cs: Clients, cache: Keyspace<Stored>, key: string, v: Timed<Stored>)
    requires CacheSound(cs, cache) && Sound(cs, key, v.value)
    ensures CacheSound(cs, cache[key := v])
  {}

  lemma StepCacheSound(s: State, r: nat, fault: Fault)
    requires Inv(s) && r in s.clients
    ensures CacheSound(s.clients, StepStore(s, r, fault).cache)
  {
    var c, now := s.clients[r], s.clock;
    var key := c.req.key;
    assert ClientSound(s.clients, c);
    match c.pc {
      case Touching(_, e) =>
        if HasEntry(s, key) {
          var secs := RedisTtlSecs(e.entry.ttlPolicy).GetOr(0);
          AddSound(s.clients, s.store.cache, key, Expire(s.store.cache, key, secs, now)[key]);
        }
      case Putting(_, e) => AddSound(s.clients, s.store.cache, key, Timed(Bump(e, now), None));
      case Warming(pod, _) =>
        var e := Stored(NewEntry(c.req, pod, now), r);
        AddSound(s.clients, s.store.cache, key, WriteEntry(s.store.cache, e, now)[key]);
      case _ =>
    }
  }

  lemma InvStep(s: State, a: Action)
    requires Inv(s) && Enabled(s, a)
    ensures Inv(Next(s, a))
    ensures Extends(s.clients, Next(s, a).clients)
  {
    var s' := Next(s, a);
    match a {
      case Arrive(r, req) => ReplaceClient(s.clients, r, s'.clients[r]);
      case Step(r, fault) =>
        StepClientSound(s, r, fault);
        StepCacheSound(s, r, fault);
        ReplaceClient(s.clients, r, s'.clients[r]);
        InvExtends(s.clients, s'.clients, s'.store.cache);
        return;
      case Scan(r, keys, fault) => ReplaceClient(s.clients, r, s'.clients[r]);
      case Drop(r) => ReplaceClient(s.clients, r, s'.clients[r]);
      case _ =>
    }
    InvExtends(s.clients, s'.clients, s.store.cache);
  }

  lemma {:induction false} InvAlways(run: Run, i: nat)
    requires IsRun(run) && i < |run.states|
    ensures Inv(run.states[i])
  {
    if i > 0 {
      InvAlways(run, i - 1);
      assert IsStep(run.states[i - 1], run.actions[i - 1], run.states[i]);
      InvStep(run.states[i - 1], run.actions[i - 1]);
    }
  }

  // ---- Where an entry comes from ----

  /** The entry's writer wrote it under the key at some step before i, when it was created. */
  ghost predicate WrittenBefore(run: Run, i: nat, e: Stored, key: string) {
    exists m :: 0 <= m < i && m < |run.actions| && i < |run.states|
      && Writes(run.states[m], run.actions[m], e.writer, key)
      && e.entry.createdAt == run.states[m].clock / 1000
  }

  predicate Carries(pc: Pc) { pc.Touching? || pc.Putting? || pc.Hit? }

  ghost predicate Provenance(run: Run, i: nat)
    requires |run.states| == |run.actions| + 1 && i < |run.states|
  {
    var s := run.states[i];
    && (forall k :: k in s.store.cache ==> WrittenBefore(run, i, s.store.cache[k].value, k))
    && (forall r :: r in s.clients && Carries(s.clients[r].pc) ==>
         WrittenBefore(run, i, s.clients[r].pc.found, s.clients[r].req.key))
  }

  lemma WrittenLater(run: Run, i: nat, e: Stored, key: string)
    requires i + 1 < |run.states| && |run.states| == |run.actions| + 1
    requires WrittenBefore(run, i, e, key)
    ensures WrittenBefore(run, i + 1, e, key)
  {
    var m :| 0 <= m < i && Writes(run.states[m], run.actions[m], e.writer, key)
      && e.entry.createdAt == run.states[m].clock / 1000;
  }

  /** A hit keeps an entry's writer and creation time. */
  lemma BumpedFrom(run: Run, i: nat, e: Stored, now: nat, key: string)
    requires WrittenBefore(run, i, e, key)
    ensures WrittenBefore(run, i, Bump(e, now), key)
  {
    var m :| 0 <= m < i && m < |run.actions| && i < |run.states|
      && Writes(run.states[m], run.actions[m], e.writer, key)
      && e.entry.createdAt == run.states[m].clock / 1000;
    assert Bump(e, now).writer == e.writer && Bump(e, now).entry.createdAt == e.entry.createdAt;
  }

  lemma JustWritten(run: Run, i: nat, r: nat)
    requires IsRun(run) && i + 1 < |run.states|
    requires Executes(run.states[i], run.actions[i], r) && run.states[i].clients[r].pc.Warming?
    ensures var s, c := run.states[i], run.states[i].clients[r];
      WrittenBefore(run, i + 1, Stored(NewEntry(c.req, c.pc.pod, s.clock), r), c.req.key)
  {
    assert Writes(run.states[i], run.actions[i], r, run.states[i].clients[r].req.key);
  }

  /** What a key holds after a step: what it held, a bumped copy that a lookup carried, or a new
      entry. */
  lemma CacheNext(s: State, a: Action, s': State, key: string)
    requires IsStep(s, a, s') && key in s'.store.cache
    ensures var e := s'.store.cache[key].value;
      || (key in s.store.cache && e == s.store.cache[key].value)
      || (a.Step? && Executes(s, a, a.r) && s.clients[a.r].pc.Putting? && s.clients[a.r].req.key == key
          && e == Bump(s.clients[a.r].pc.found, s.clock))
      || (a.Step? && Executes(s, a, a.r) && s.clients[a.r].pc.Warming? && s.clients[a.r].req.key == key
          && e == Stored(NewEntry(s.clients[a.r].req, s.clients[a.r].pc.pod, s.clock), a.r))
  {}

  lemma ProvenanceCache(run: Run, i: nat, key: string)
    requires IsRun(run) && i + 1 < |run.states| && Provenance(run, i)
    requires key in run.states[i + 1].store.cache
    ensures WrittenBefore(run, i + 1, run.states[i + 1].store.cache[key].value, key)
  {
    var s, a := run.states[i], run.actions[i];
    var e := run.states[i + 1].store.cache[key].value;
    CacheNext(s, a, run.states[i + 1], key);
    if key in s.store.cache && e == s.store.cache[key].value {
      WrittenLater(run, i, e, key);
    } else if s.clients[a.r].pc.Warming? {
      JustWritten(run, i, a.r);
    } else {
      BumpedFrom(run, i, s.clients[a.r].pc.found, s.clock, key);
      WrittenLater(run, i, e, key);
    }
  }

  /** What a lookup carries after a step: what it carried, the stored entry, or its own bumped. */
  lemma CarriedNext(s: State, a: Action, s': State, r: nat)
    requires IsStep(s, a, s') && r in s'.clients && Carries(s'.clients[r].pc)
    ensures r in s.clients && s.clients[r].req == s'.clients[r].req
    ensures var e, key := s'.clients[r].pc.found, s.clients[r].req.key;
      || (Carries(s.clients[r].pc) && (e == s.clients[r].pc.found || e == Bump(s.clients[r].pc.found, s.clock)))
      || (key in s.store.cache && e == s.store.cache[key].value)
  {}

  lemma ProvenanceClient(run: Run, i: nat, r: nat)
    requires IsRun(run) && i + 1 < |run.states| && Provenance(run, i)
    requires r in run.states[i + 1].clients && Carries(run.states[i + 1].clients[r].pc)
    ensures var c := run.states[i + 1].clients[r];
      WrittenBefore(run, i + 1, c.pc.found, c.req.key)
  {
    var s, c := run.states[i], run.states[i + 1].clients[r];
    CarriedNext(s, run.actions[i], run.states[i + 1], r);
    if Carries(s.clients[r].pc) { BumpedFrom(run, i, s.clients[r].pc.found, s.clock, c.req.key); }
    WrittenLater(run, i, c.pc.found, c.req.key);
  }

  lemma ProvenanceStep(run: Run, i: nat)
    requires IsRun(run) && i + 1 < |run.states| && Provenance(run, i)
    ensures Provenance(run, i + 1)
  {
    var s := run.states[i + 1];
    forall k | k in s.store.cache ensures WrittenBefore(run, i + 1, s.store.cache[k].value, k) {
      ProvenanceCache(run, i, k);
    }
    forall r | r in s.clients && Carries(s.clients[r].pc)
      ensures WrittenBefore(run, i + 1, s.clients[r].pc.found, s.clients[r].req.key)
    {
      ProvenanceClient(run, i, r);
    }
  }

  lemma {:induction false} ProvenanceAlways(run: Run, i: nat)
    requires IsRun(run) && i < |run.states|
    ensures Provenance(run, i)
  {
    if i > 0 {
      ProvenanceAlways(run, i - 1);
      ProvenanceStep(run, i - 1);
    }
  }

  // ---- When an entry was last stored ----

  /** A warm write or a hit's SET stores the key's entry. */
  ghost predicate Stores(s: State, a: Action, key: string) {
    Occurs(s, a, EntryWritten(key)) || Occurs(s, a, EntryRefreshed(key))
  }

  /** In every run a stored entry's last hit time is the clock of the last step that stored it: its
      last hit, or its writing if there has been none since. */
  lemma {:induction false} LastHitTime(run: Run, j: nat, key: string) returns (t: nat)
    requires IsRun(run) && j < |run.states| && key in run.states[j].store.cache
    ensures t < j && Stores(run.states[t], run.actions[t], key)
    ensures forall m :: t < m < j ==> !Stores(run.states[m], run.actions[m], key)
    ensures run.states[j].store.cache[key].value.entry.lastHitAt == run.states[t].clock / 1000
  {
    StoredNext(run, j, key);
    if Stores(run.states[j - 1], run.actions[j - 1], key) { t := j - 1; } else { t := LastHitTime(run, j - 1, key); }
  }

  lemma StoredNext(run: Run, j: nat, key: string)
    requires IsRun(run) && j < |run.states| && key in run.states[j].store.cache
    ensures j > 0
    ensures var s := run.states[j - 1]; var e := run.states[j].store.cache[key].value;
      if Stores(s, run.actions[j - 1], key) then e.entry.lastHitAt == s.clock / 1000
      else key in s.store.cache && e == s.store.cache[key].value
  {
    assert IsStep(run.states[j - 1], run.actions[j - 1], run.states[j]);
    StoredTime(run.states[j - 1], run.actions[j - 1], run.states[j], key);
  }

  lemma StoredTime(s: State, a: Action, s': State, key: string)
    requires IsStep(s, a, s') && key in s'.store.cache
    ensures if Stores(s, a, key) then s'.store.cache[key].value.entry.lastHitAt == s.clock / 1000
      else key in s.store.cache && s'.store.cache[key].value == s.store.cache[key].value
  {}

  /** In every run an entry's creation time, stored or returned by a hit, is the clock at which its
      writer wrote it. */
  lemma CreationTime(run: Run, j: nat, e: Stored, key: string) returns (m: nat)
    requires IsRun(run) && j < |run.states|
    requires var s := run.states[j];
      || (key in s.store.cache && e == s.store.cache[key].value)
      || (exists r :: r in s.clients && s.clients[r].pc == Hit(e) && s.clients[r].req.key == key)
    ensures m < j && Writes(run.states[m], run.actions[m], e.writer, key)
    ensures e.entry.createdAt == run.states[m].clock / 1000
  {
    ProvenanceAlways(run, j);
    assert WrittenBefore(run, j, e, key);
    m :| 0 <= m < j && Writes(run.states[m], run.actions[m], e.writer, key)
      && e.entry.createdAt == run.states[m].clock / 1000;
  }

  /** `cold_miss_target` ends for request w with this pod id. */
  ghost predicate Routes(s: State, a: Action, w: nat, pod: string) {
    && (a.Step? || a.Scan?) && a.r == w && w in s.clients && Routing(s.clients[w].pc)
    && Enabled(s, a) && Next(s, a).clients[w].pc.Warming? && Next(s, a).clients[w].pc.pod == pod
  }

  lemma {:induction false} ChosenAt(run: Run, i: nat, w: nat) returns (j: nat)
    requires IsRun(run) && i < |run.states| && w in run.states[i].clients && run.states[i].clients[w].chosen.Some?
    ensures j < i && Routes(run.states[j], run.actions[j], w, run.states[i].clients[w].chosen.value)
  {
    var s, a := run.states[i - 1], run.actions[i - 1];
    assert IsStep(s, a, run.states[i]);
    InvAlways(run, i - 1);
    InvStep(s, a);
    if w in s.clients && s.clients[w].chosen.Some? {
      j := ChosenAt(run, i - 1, w);
    } else {
      j := i - 1;
    }
  }

  /** The affinity theorem. In every run, a request that hits was given the entry for the very key
      it asked for. That entry names the pod id recorded by `cold_miss_target` for another request
      with the same key, which had written the entry before. The hit is forwarded to that
      request's configured address. */
  lemma HitIsSound(run: Run, i: nat, r: nat) returns (j: nat, m: nat)
    requires IsRun(run) && i < |run.states|
    requires r in run.states[i].clients && run.states[i].clients[r].pc.Hit?
    ensures var c := run.states[i].clients[r]; var e := c.pc.found;
      && Sound(run.states[i].clients, c.req.key, e)
      && Destination(c) == Some(run.states[i].clients[e.writer].req.podIp)
      && e.writer != r
      && j < m < i
      && Routes(run.states[j], run.actions[j], e.writer, e.entry.podId)
      && Writes(run.states[m], run.actions[m], e.writer, c.req.key)
  {
    InvAlways(run, i);
    var c := run.states[i].clients[r];
    assert ClientSound(run.states[i].clients, c);
    m := WrittenAt(run, i, r);
    j := RoutedBefore(run, m, i, c.pc.found.writer, c.req.key);
  }

  lemma WrittenAt(run: Run, i: nat, r: nat) returns (m: nat)
    requires IsRun(run) && i < |run.states|
    requires r in run.states[i].clients && run.states[i].clients[r].pc.Hit?
    ensures m < i && m < |run.actions|
    ensures var c := run.states[i].clients[r];
      Writes(run.states[m], run.actions[m], c.pc.found.writer, c.req.key)
  {
    ProvenanceAlways(run, i);
    var c := run.states[i].clients[r];
    assert WrittenBefore(run, i, c.pc.found, c.req.key);
    m :| 0 <= m < i && Writes(run.states[m], run.actions[m], c.pc.found.writer, c.req.key);
  }

  /** Whoever writes has been routed before, to the pod id it still carries. */
  lemma RoutedBefore(run: Run, m: nat, i: nat, w: nat, key: string) returns (j: nat)
    requires IsRun(run) && m < i < |run.states| && Writes(run.states[m], run.actions[m], w, key)
    ensures j < m && w in run.states[i].clients && run.states[i].clients[w].chosen.Some?
    ensures Routes(run.states[j], run.actions[j], w, run.states[i].clients[w].chosen.value)
  {
    InvAlways(run, m);
    assert ClientSound(run.states[m].clients, run.states[m].clients[w]);
    j := ChosenAt(run, m, w);
    ClientLater(run, m, i, w);
  }

  /** Every forwarded request goes to the configured address of the request that warmed its prefix:
      one that wrote the entry for a hit, itself for a miss. Neither the pod id recorded nor any load read
      plays a part. */
  lemma DestinationIsConfigured(run: Run, i: nat, r: nat) returns (w: nat, m: nat)
    requires IsRun(run) && i < |run.states| && r in run.states[i].clients
    requires Destination(run.states[i].clients[r]).Some?
    ensures w in run.states[i].clients
    ensures var c, warmer := run.states[i].clients[r], run.states[i].clients[w];
      && warmer.req.key == c.req.key && warmer.chosen.Some?
      && Destination(c) == Some(warmer.req.podIp)
      && (w == r <==> !c.pc.Hit?)
      && (c.pc.Hit? ==> m < i && m < |run.actions| && Writes(run.states[m], run.actions[m], w, c.req.key))
  {
    InvAlways(run, i);
    var c := run.states[i].clients[r];
    assert ClientSound(run.states[i].clients, c);
    w, m := r, 0;
    if c.pc.Hit? {
      w := c.pc.found.writer;
      m := WrittenAt(run, i, r);
    }
  }

  /** Sidecars that share one configured address forward everything there, hit or miss. */
  lemma OneAddressForAll(run: Run, i: nat, r: nat, address: string)
    requires IsRun(run) && i < |run.states| && r in run.states[i].clients
    requires forall q :: q in run.states[i].clients ==> run.states[i].clients[q].req.podIp == address
    ensures Destination(run.states[i].clients[r]) in {None, Some(address)}
  {
    if Destination(run.states[i].clients[r]).Some? { var _, _ := DestinationIsConfigured(run, i, r); }
  }

  lemma ExtendsNext(run: Run, i: nat)
    requires IsRun(run) && i < |run.actions|
    ensures Extends(run.states[i].clients, run.states[i + 1].clients)
  {
    InvAlways(run, i);
    assert IsStep(run.states[i], run.actions[i], run.states[i + 1]);
    InvStep(run.states[i], run.actions[i]);
  }

  lemma {:induction false} ClientLater(run: Run, i: nat, j: nat, r: nat)
    requires IsRun(run) && i <= j < |run.states| && r in run.states[i].clients
    ensures r in run.states[j].clients
    ensures var c, c' := run.states[i].clients[r], run.states[j].clients[r];
      c'.req == c.req && (c.chosen.Some? ==> c'.chosen == c.chosen)
  {
    if i < j {
      ClientLater(run, i, j - 1, r);
      ExtendsNext(run, j - 1);
    }
  }
}
