/** The hasher and the protocol put together: what a cache hit means for a prompt. */
module EndToEnd {
  import opened Wrappers
  import opened Text
  import opened Canonical
  import Sources
  import opened Hasher
  import opened Policy
  import opened Protocol
  import opened Affinity
  import opened Deadlines

  type Prompts = nat -> seq<PromptBlock>

  /** The handler's request for a prompt. */
  function RequestOf(hash: HashFn, blocks: seq<PromptBlock>, podIp: string): Request {
    Request(Prefix(hash, blocks), InferTtlPolicy(blocks), |Cacheable(blocks)|, TotalEstimate(Cacheable(blocks)), podIp)
  }

  /** Every request of the state is the handler's, for the prompt `prompts` gives it. */
  ghost predicate Handles(hash: HashFn, prompts: Prompts, s: State) {
    forall r :: r in s.clients ==> s.clients[r].req == RequestOf(hash, prompts(r), s.clients[r].req.podIp)
  }

  /** A prompt's request can always arrive: its policy is never sliding. */
  lemma RequestArrives(hash: HashFn, blocks: seq<PromptBlock>, podIp: string, s: State, r: nat)
    requires r !in s.clients
    ensures Enabled(s, Arrive(r, RequestOf(hash, blocks, podIp)))
  {
    InferredPolicy(blocks);
  }

  /** After this run the requests of the first n prompts have arrived, and no others. */
  ghost predicate Arrived(hash: HashFn, prompts: Prompts, n: nat, run: Run) {
    && IsRun(run)
    && var s := run.states[|run.states| - 1];
       Handles(hash, prompts, s) && forall r: nat :: r in s.clients <==> r < n
  }

  lemma NobodyArrived(hash: HashFn, prompts: Prompts) returns (run: Run)
    ensures Arrived(hash, prompts, 0, run)
  {
    run := Run([State(Store(map[], map[], map[]), map[], 0)], []);
  }

  /** Any number of prompts can arrive. */
  lemma {:induction false} PromptsArrive(hash: HashFn, prompts: Prompts, podIp: string, n: nat) returns (run: Run)
    ensures Arrived(hash, prompts, n, run)
  {
    if n == 0 {
      run := NobodyArrived(hash, prompts);
    } else {
      run := PromptsArrive(hash, prompts, podIp, n - 1);
      run := NextArrives(hash, prompts, podIp, n - 1, run);
    }
  }

  lemma NextArrives(hash: HashFn, prompts: Prompts, podIp: string, r: nat, run: Run) returns (run': Run)
    requires Arrived(hash, prompts, r, run)
    ensures Arrived(hash, prompts, r + 1, run')
  {
    var s, a := run.states[|run.states| - 1], Arrive(r, RequestOf(hash, prompts(r), podIp));
    RequestArrives(hash, prompts(r), podIp, s, r);
    run' := Run(run.states + [Next(s, a)], run.actions + [a]);
    forall i | 0 <= i < |run'.actions| ensures IsStep(run'.states[i], run'.actions[i], run'.states[i + 1]) {
      if i < |run.actions| { assert IsStep(run.states[i], run.actions[i], run.states[i + 1]); }
    }
  }

  /** Affinity end to end. In every run, a prompt that hits gets the pod id that `cold_miss_target`
      recorded for an earlier prompt, and is forwarded to that prompt's configured address; the
      earlier prompt has the same stable form, or texts hashed for the two prompts collide. */
  lemma HitMeansSamePrefix(hash: HashFn, prompts: Prompts, run: Run, i: nat, r: nat)
    returns (j: nat, m: nat, x: string, y: string)
    requires IsRun(run) && i < |run.states| && Handles(hash, prompts, run.states[i])
    requires r in run.states[i].clients && run.states[i].clients[r].pc.Hit?
    ensures var e := run.states[i].clients[r].pc.found;
      && e.writer != r && j < m < i && e.writer in run.states[i].clients
      && Destination(run.states[i].clients[r]) == Some(run.states[i].clients[e.writer].req.podIp)
      && Routes(run.states[j], run.actions[j], e.writer, e.entry.podId)
      && Writes(run.states[m], run.actions[m], e.writer, e.entry.prefixHash)
      && e.entry.prefixHash == Prefix(hash, prompts(r))
      && e.entry.blockCount == |StableForm(prompts(e.writer))|
      && e.entry.tokenCount == TotalEstimate(Cacheable(prompts(e.writer)))
      && (|| StableForm(prompts(e.writer)) == StableForm(prompts(r))
          || KeysCollide(hash, prompts(e.writer), prompts(r), x, y))
  {
    j, m := HitIsSound(run, i, r);
    var e := run.states[i].clients[r].pc.found;
    x, y := KeyExactness(hash, prompts(e.writer), prompts(r));
  }

  /** Lifetimes end to end. Barring eviction, once a prompt's entry is written, a prompt with
      the same key finds it at any later time if it has no document, and for four hours if it
      has one, or a text hashed for it collides with one hashed for some prompt that has arrived. */
  lemma PrefixStaysCached(hash: HashFn, prompts: Prompts, run: Run, i: nat, j: nat, r: nat)
    returns (q: nat, x: string, y: string)
    requires IsRun(run) && i < j < |run.states| && Handles(hash, prompts, run.states[j])
    requires r in run.states[j].clients && NoEviction(run, i, j, Prefix(hash, prompts(r)))
    requires Occurs(run.states[i], run.actions[i], EntryWritten(Prefix(hash, prompts(r))))
    requires HasDocument(prompts(r)) ==> run.states[j].clock < run.states[i].clock + 14_400_000
    ensures || HasEntry(run.states[j], Prefix(hash, prompts(r)))
            || (q in run.states[j].clients && KeysCollide(hash, prompts(q), prompts(r), x, y))
  {
    var key, policy := Prefix(hash, prompts(r)), InferTtlPolicy(prompts(r));
    InferredPolicy(prompts(r));
    q, x, y := r, "", "";
    var cs := run.states[j].clients;
    if p :| p in cs && cs[p].req.key == key && cs[p].req.policy != policy {
      q := p;
      x, y := KeyDeterminesPolicy(hash, prompts(q), prompts(r));
    } else {
      assert KeyHasPolicy(run.states[j], key, policy);
      EntryLives(run, i, j, key, policy);
    }
  }

  /** Two blocks that say the same: the same text up to whitespace, or documents holding the
      same sources in any order. */
  ghost predicate SaysTheSame(a: PromptBlock, b: PromptBlock) {
    && a.kind == b.kind
    && (|| (a.kind != Document && Tokens(a.content) == Tokens(b.content))
        || (a.kind == Document && exists p, s, q, t ::
             && Sources.WellFormed(p, s) && Sources.WellFormed(q, t)
             && a.content == Sources.Compose(p, s) && b.content == Sources.Compose(q, t)
             && Tokens(p) == Tokens(q) && Sources.Content(s) == Sources.Content(t)))
  }

  lemma SameFormFromSame(a: PromptBlock, b: PromptBlock)
    requires SaysTheSame(a, b)
    ensures Form(a) == Form(b)
  {
    if a.kind != Document {
      PlainExact(a.kind, a.content, b.content);
    } else {
      var p, s, q, t :|
        && Sources.WellFormed(p, s) && Sources.WellFormed(q, t)
        && a.content == Sources.Compose(p, s) && b.content == Sources.Compose(q, t)
        && Tokens(p) == Tokens(q) && Sources.Content(s) == Sources.Content(t);
      Sources.DocumentInvariance(p, s, q, t);
    }
  }

  /** Neither whitespace drift, nor the order in which the sources of well-formed documents (distinct,
      closed ids) were retrieved, nor the user's question changes the key. */
  lemma DriftKeepsKey(hash: HashFn, a: seq<PromptBlock>, b: seq<PromptBlock>)
    requires |Cacheable(a)| == |Cacheable(b)|
    requires forall i :: 0 <= i < |Cacheable(a)| ==> SaysTheSame(Cacheable(a)[i], Cacheable(b)[i])
    ensures Prefix(hash, a) == Prefix(hash, b)
  {
    forall i | 0 <= i < |Cacheable(a)| ensures StableForm(a)[i] == StableForm(b)[i] {
      SameFormFromSame(Cacheable(a)[i], Cacheable(b)[i]);
    }
    var _, _ := KeyExactness(hash, a, b);
  }
}
