/** Cache entries, their lifetime policies, and the policy a prompt gets. */
module Policy {
  import opened Wrappers
  import opened Canonical
  import opened Hasher

  datatype TtlPolicy = Infinite | Fixed(secs: nat) | Sliding(windowSecs: nat)

  /** `redis_ttl_secs` */
  function RedisTtlSecs(p: TtlPolicy): Option<nat> {
    match p
    case Infinite => None
    case Fixed(secs) => Some(secs)
    case Sliding(windowSecs) => Some(windowSecs)
  }

  datatype CacheEntry = CacheEntry(
    prefixHash: string, podIp: string, podId: string, blockCount: nat, tokenCount: nat,
    hitCount: nat, createdAt: int, lastHitAt: int, ttlPolicy: TtlPolicy)

  const DOC_SECS: nat := 4 * 3600

  /** `infer_ttl_policy` */
  function InferTtlPolicy(blocks: seq<PromptBlock>): TtlPolicy {
    var hasDoc := exists i :: 0 <= i < |blocks| && blocks[i].kind == Document;
    var sysOnly := forall i :: 0 <= i < |blocks| ==> blocks[i].kind in {System, Tools, User};
    if sysOnly then Infinite
    else if hasDoc then Fixed(DOC_SECS)
    else Sliding(3600)
  }

  ghost predicate HasDocument(blocks: seq<PromptBlock>) { exists b :: b in blocks && b.kind == Document }

  /** Four hours if there is a document, for ever if not; the sliding branch is dead. */
  lemma InferredPolicy(blocks: seq<PromptBlock>)
    ensures InferTtlPolicy(blocks) == if HasDocument(blocks) then Fixed(14_400) else Infinite
  {
    if HasDocument(blocks) {
      var b :| b in blocks && b.kind == Document;
      var i :| 0 <= i < |blocks| && blocks[i] == b;
    } else {
      forall i | 0 <= i < |blocks| ensures blocks[i].kind != Document { assert blocks[i] in blocks; }
    }
  }

  lemma {:induction false} CacheableMembers(blocks: seq<PromptBlock>, b: PromptBlock)
    ensures b in Cacheable(blocks) <==> b in blocks && IsCacheable(b.kind)
  {
    if blocks != [] {
      CacheableMembers(blocks[1..], b);
      assert blocks == [blocks[0]] + blocks[1..];
    }
  }

  lemma FormShowsDocument(a: seq<PromptBlock>, b: seq<PromptBlock>)
    requires StableForm(a) == StableForm(b) && HasDocument(a)
    ensures HasDocument(b)
  {
    var d :| d in a && d.kind == Document;
    CacheableMembers(a, d);
    var i :| 0 <= i < |Cacheable(a)| && Cacheable(a)[i] == d;
    assert |Cacheable(a)| == |StableForm(a)| == |Cacheable(b)|;
    assert StableForm(a)[i] == Form(d) && StableForm(b)[i] == Form(Cacheable(b)[i]);
    var e := Cacheable(b)[i];
    CacheableMembers(b, e);
    assert e in b && e.kind == Document;
  }

  /** The key determines the policy, unless texts hashed for the two prompts collide. */
  lemma KeyDeterminesPolicy(hash: HashFn, a: seq<PromptBlock>, b: seq<PromptBlock>) returns (x: string, y: string)
    requires Prefix(hash, a) == Prefix(hash, b)
    ensures InferTtlPolicy(a) == InferTtlPolicy(b) || KeysCollide(hash, a, b, x, y)
  {
    x, y := KeyExactness(hash, a, b);
    if StableForm(a) == StableForm(b) {
      InferredPolicy(a);
      InferredPolicy(b);
      if HasDocument(a) { FormShowsDocument(a, b); }
      if HasDocument(b) { FormShowsDocument(b, a); }
    }
  }
}
