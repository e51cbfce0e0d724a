/** The documented formula of the cache key, H(H_sys sep H_tools sep H_doc), and when it is true. */
module Composite {
  import opened Seqs
  import opened Wrappers
  import opened Canonical
  import opened Hasher

  function Present(digest: Option<Hex64>): seq<Hex64> {
    match digest
    case Some(d) => [d]
    case None => []
  }

  /** The digests that the formula names, those of absent sections left out. */
  function SectionDigests(hash: HashFn, blocks: seq<PromptBlock>): seq<Hex64> {
    Present(LastDigest(hash, blocks, System)) + Present(LastDigest(hash, blocks, Tools))
      + Present(DocDigest(hash, blocks))
  }

  function DocumentedPrefix(hash: HashFn, blocks: seq<PromptBlock>): Hex64 {
    hash(Join64(SectionDigests(hash, blocks)))
  }

  function Rank(kind: BlockKind): nat {
    match kind
    case System => 0
    case Tools => 1
    case Document => 2
    case User => 3
  }

  /** At most one block of each kind, in the order system, tools, document. */
  predicate Regular(blocks: seq<PromptBlock>) {
    forall i, j :: 0 <= i < j < |blocks| ==> Rank(blocks[i].kind) < Rank(blocks[j].kind)
  }

  function OfKind(kind: BlockKind, blocks: seq<PromptBlock>): seq<PromptBlock> {
    if blocks == [] then []
    else if blocks[0].kind == kind then [blocks[0]] + OfKind(kind, blocks[1..])
    else OfKind(kind, blocks[1..])
  }

  function ByKind(blocks: seq<PromptBlock>): seq<PromptBlock> {
    OfKind(System, blocks) + OfKind(Tools, blocks) + OfKind(Document, blocks)
  }

  predicate OnePerKind(blocks: seq<PromptBlock>) {
    |OfKind(System, blocks)| <= 1 && |OfKind(Tools, blocks)| <= 1 && |OfKind(Document, blocks)| <= 1
  }

  predicate AllStable(blocks: seq<PromptBlock>) { forall i :: 0 <= i < |blocks| ==> IsCacheable(blocks[i].kind) }

  // ---- Regular prompts are arranged by kind ----

  lemma {:induction false} OfKindIs(kind: BlockKind, blocks: seq<PromptBlock>)
    ensures forall i :: 0 <= i < |OfKind(kind, blocks)| ==> OfKind(kind, blocks)[i].kind == kind
  {
    if blocks != [] { OfKindIs(kind, blocks[1..]); }
  }

  lemma {:induction false} OfKindNone(kind: BlockKind, blocks: seq<PromptBlock>)
    requires forall i :: 0 <= i < |blocks| ==> blocks[i].kind != kind
    ensures OfKind(kind, blocks) == []
  {
    if blocks != [] { OfKindNone(kind, blocks[1..]); }
  }

  lemma {:induction false} CountByKind(blocks: seq<PromptBlock>)
    requires AllStable(blocks)
    ensures |ByKind(blocks)| == |blocks|
  {
    if blocks != [] { CountByKind(blocks[1..]); }
  }

  lemma RegularTail(blocks: seq<PromptBlock>, kind: BlockKind)
    requires Regular(blocks) && blocks != [] && Rank(kind) <= Rank(blocks[0].kind)
    ensures OfKind(kind, blocks[1..]) == []
  {
    OfKindNone(kind, blocks[1..]);
  }

  lemma ByKindCons(blocks: seq<PromptBlock>)
    requires AllStable(blocks) && Regular(blocks) && blocks != []
    ensures ByKind(blocks) == [blocks[0]] + ByKind(blocks[1..])
    ensures OnePerKind(blocks[1..]) ==> OnePerKind(blocks)
  {
    var head, rest := blocks[0], blocks[1..];
    RegularTail(blocks, head.kind);
    if head.kind != System { RegularTail(blocks, System); }
    if head.kind == Document { RegularTail(blocks, Tools); }
    HeadFirst(head, OfKind(System, rest), OfKind(Tools, rest), OfKind(Document, rest));
  }

  lemma {:induction false} RegularByKind(blocks: seq<PromptBlock>)
    requires AllStable(blocks) && Regular(blocks)
    ensures ByKind(blocks) == blocks && OnePerKind(blocks)
  {
    if blocks != [] {
      RegularByKind(blocks[1..]);
      ByKindCons(blocks);
      assert blocks == [blocks[0]] + blocks[1..];
    }
  }

  lemma HeadFirst(head: PromptBlock, s: seq<PromptBlock>, t: seq<PromptBlock>, d: seq<PromptBlock>)
    ensures [head] + s + t + d == [head] + (s + t + d)
    ensures s == [] ==> s + ([head] + t) + d == [head] + (s + t + d)
    ensures s == [] && t == [] ==> s + t + ([head] + d) == [head] + (s + t + d)
  {}

  lemma ByKindRegular(blocks: seq<PromptBlock>)
    requires OnePerKind(blocks)
    ensures Regular(ByKind(blocks))
  {
    OfKindIs(System, blocks);
    OfKindIs(Tools, blocks);
    OfKindIs(Document, blocks);
  }

  // ---- The section digests are the digests by kind ----

  lemma {:induction false} ContentsOfKind(blocks: seq<PromptBlock>, kind: BlockKind)
    requires IsCacheable(kind)
    ensures Contents(blocks, kind) == Map((b: PromptBlock) => b.content, OfKind(kind, Cacheable(blocks)))
  {
    if blocks != [] {
      ContentsOfKind(blocks[1..], kind);
    }
  }

  lemma LastDigestOfKind(hash: HashFn, blocks: seq<PromptBlock>, kind: BlockKind)
    requires IsCacheable(kind)
    ensures var bs := OfKind(kind, Cacheable(blocks));
      && |Present(LastDigest(hash, blocks, kind))| == (if bs == [] then 0 else 1)
      && (|bs| <= 1 ==> Present(LastDigest(hash, blocks, kind)) == Digests(hash, bs))
  {
    ContentsOfKind(blocks, kind);
    OfKindIs(kind, Cacheable(blocks));
  }

  lemma DocDigestOfKind(hash: HashFn, blocks: seq<PromptBlock>)
    ensures var bs := OfKind(Document, Cacheable(blocks));
      && |Present(DocDigest(hash, blocks))| == (if bs == [] then 0 else 1)
      && (|bs| <= 1 ==> Present(DocDigest(hash, blocks)) == Digests(hash, bs))
  {
    ContentsOfKind(blocks, Document);
    OfKindIs(Document, Cacheable(blocks));
    var bs := OfKind(Document, Cacheable(blocks));
    if |bs| == 1 { OneDoc(hash, Contents(blocks, Document)); }
  }

  lemma OneDoc(hash: HashFn, docs: seq<string>)
    requires |docs| == 1
    ensures DocChain(hash, Map(CanonicalDoc, docs)) == hash(Tagged(Document, CanonicalDoc(docs[0])))
  {}

  lemma SectionsByKind(hash: HashFn, blocks: seq<PromptBlock>)
    ensures var c := Cacheable(blocks);
      && (OnePerKind(c) ==> SectionDigests(hash, blocks) == Digests(hash, ByKind(c)))
      && (|SectionDigests(hash, blocks)| == |ByKind(c)| ==> OnePerKind(c))
  {
    var c := Cacheable(blocks);
    LastDigestOfKind(hash, blocks, System);
    LastDigestOfKind(hash, blocks, Tools);
    DocDigestOfKind(hash, blocks);
    DigestsAppend(hash, OfKind(System, c), OfKind(Tools, c));
    DigestsAppend(hash, OfKind(System, c) + OfKind(Tools, c), OfKind(Document, c));
  }

  lemma {:induction false} CacheableStable(blocks: seq<PromptBlock>)
    ensures AllStable(Cacheable(blocks))
  {
    if blocks != [] { CacheableStable(blocks[1..]); }
  }

  lemma SameKindsRegular(a: seq<PromptBlock>, b: seq<PromptBlock>)
    requires Map(Form, a) == Map(Form, b) && Regular(b)
    ensures Regular(a)
  {
    assert |a| == |Map(Form, a)| == |b|;
    forall i | 0 <= i < |a| ensures a[i].kind == b[i].kind {
      assert Map(Form, a)[i] == Form(a[i]) && Map(Form, b)[i] == Form(b[i]);
    }
  }

  lemma {:induction false} OfKindMembers(kind: BlockKind, blocks: seq<PromptBlock>, b: PromptBlock)
    requires b in OfKind(kind, blocks)
    ensures b in blocks
  {
    if b != blocks[0] { OfKindMembers(kind, blocks[1..], b); }
  }

  lemma ByKindHashed(blocks: seq<PromptBlock>, t: string)
    requires BlockHashed(ByKind(blocks), t)
    ensures BlockHashed(blocks, t)
  {
    var b :| b in ByKind(blocks) && t == BlockInput(b);
    if b in OfKind(System, blocks) {
      OfKindMembers(System, blocks, b);
    } else if b in OfKind(Tools, blocks) {
      OfKindMembers(Tools, blocks, b);
    } else {
      OfKindMembers(Document, blocks, b);
    }
  }

  /** The documented formula, exactly. The key is H(H_sys sep H_tools sep H_doc) if the stable blocks
      are at most one of each kind, in that order; on any other prompt, two documents included, a key
      that meets the formula means a collision among the texts hashed for the prompt and its formula. */
  lemma FormulaExactly(hash: HashFn, blocks: seq<PromptBlock>) returns (x: string, y: string)
    ensures if Regular(Cacheable(blocks)) then Prefix(hash, blocks) == DocumentedPrefix(hash, blocks)
      else Prefix(hash, blocks) == DocumentedPrefix(hash, blocks) ==>
        && Collision(hash, x, y) && HashedFor(hash, blocks, x)
        && (HashedFor(hash, blocks, y) || y == Join64(SectionDigests(hash, blocks)))
  {
    var c, ds := Cacheable(blocks), SectionDigests(hash, blocks);
    x, y := Join64(Digests(hash, c)), Join64(ds);
    CacheableStable(blocks);
    SectionsByKind(hash, blocks);
    if Regular(c) {
      RegularByKind(c);
    } else if Prefix(hash, blocks) == DocumentedPrefix(hash, blocks) && x == y {
      Join64Injective(Digests(hash, c), ds);
      CountByKind(c);
      ByKindRegular(c);
      if Map(Form, c) == Map(Form, ByKind(c)) { SameKindsRegular(c, ByKind(c)); }
      x, y := DigestsCollide(hash, c, ByKind(c));
      ByKindHashed(c, y);
    }
  }
}
