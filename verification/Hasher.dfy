/** The stable-prefix hasher: what the cache key identifies.

    SHA-256 is any function from text to 64 lowercase hex digits. It is never assumed
    injective, and some pair of texts collides under every such function: where two results ought to
    differ, the lemmas hand back a collision among the very texts hashed for them. */
module Hasher {
  import opened Seqs
  import opened Wrappers
  import opened Text
  import opened Canonical

  predicate IsLowerHex(c: char) { '0' <= c <= '9' || 'a' <= c <= 'f' }

  predicate IsHex64(s: string) { |s| == 64 && forall i :: 0 <= i < 64 ==> IsLowerHex(s[i]) }

  type Hex64 = s: string | IsHex64(s) witness seq(64, _ => '0')

  type HashFn = string -> Hex64

  ghost predicate Collision(hash: HashFn, x: string, y: string) { x != y && hash(x) == hash(y) }

  datatype PromptBlock = PromptBlock(kind: BlockKind, content: string)

  datatype HashResult = HashResult(
    hSys: Option<string>, hTools: Option<string>, hDoc: Option<string>,
    prefix: string, prefixTokenEstimate: nat)

  const BLOCK_SEP := "\0GC\0"

  function KindTag(kind: BlockKind): string {
    match kind
    case System => "SYS"
    case Tools => "TOOLS"
    case Document => "DOC"
    case User => "USER"
  }

  predicate IsCacheable(kind: BlockKind) { kind != User }

  function Tagged(kind: BlockKind, canonical: string): string { KindTag(kind) + ":" + canonical }

  /** `hash_block` */
  function HashBlock(hash: HashFn, b: PromptBlock): Hex64 { hash(BlockInput(b)) }

  function BlockInput(b: PromptBlock): string { Tagged(b.kind, Canonicalize(b.kind, b.content)) }

  function Cacheable(blocks: seq<PromptBlock>): seq<PromptBlock> {
    if blocks == [] then []
    else if IsCacheable(blocks[0].kind) then [blocks[0]] + Cacheable(blocks[1..])
    else Cacheable(blocks[1..])
  }

  function Form(b: PromptBlock): (BlockKind, string) { (b.kind, Canonicalize(b.kind, b.content)) }

  /** What a prompt's stable part says: its cacheable blocks, kind and canonical text. */
  function StableForm(blocks: seq<PromptBlock>): seq<(BlockKind, string)> { Map(Form, Cacheable(blocks)) }

  function Digests(hash: HashFn, blocks: seq<PromptBlock>): (r: seq<Hex64>)
    ensures |r| == |blocks|
    ensures forall i :: 0 <= i < |blocks| ==> r[i] == HashBlock(hash, blocks[i])
  {
    if blocks == [] then [] else [HashBlock(hash, blocks[0])] + Digests(hash, blocks[1..])
  }

  function Join64(digests: seq<Hex64>): string {
    if digests == [] then ""
    else if |digests| == 1 then digests[0]
    else digests[0] + BLOCK_SEP + Join64(digests[1..])
  }

  /** The cache key, H(H_1 sep H_2 sep ... H_n), in one shot. */
  function Prefix(hash: HashFn, blocks: seq<PromptBlock>): Hex64 {
    hash(Join64(Digests(hash, Cacheable(blocks))))
  }

  function CanonicalDoc(content: string): string { Canonicalize(Document, content) }

  /** The document chain over canonical texts: each further document's digest is hashed onto
      the digest so far. */
  function DocChain(hash: HashFn, docs: seq<string>): Hex64
    requires docs != []
    decreases |docs|, 1
  {
    hash(ChainInput(hash, docs))
  }

  function ChainInput(hash: HashFn, docs: seq<string>): string
    requires docs != []
    decreases |docs|, 0
  {
    var last := Tagged(Document, docs[|docs| - 1]);
    if |docs| == 1 then last else DocChain(hash, docs[..|docs| - 1]) + BLOCK_SEP + hash(last)
  }

  function Contents(blocks: seq<PromptBlock>, kind: BlockKind): seq<string> {
    if blocks == [] then []
    else if blocks[0].kind == kind then [blocks[0].content] + Contents(blocks[1..], kind)
    else Contents(blocks[1..], kind)
  }

  /** The digest of the last block of a kind, if there is one. */
  function LastDigest(hash: HashFn, blocks: seq<PromptBlock>, kind: BlockKind): Option<Hex64> {
    var texts := Contents(blocks, kind);
    if texts == [] then None else Some(HashBlock(hash, PromptBlock(kind, texts[|texts| - 1])))
  }

  // ---- Token estimate ----

  function Utf8Width(c: char): nat {
    var u := c as int;
    if u < 0x80 then 1 else if u < 0x800 then 2 else if u < 0x10000 then 3 else 4
  }

  /** `len`: the length of the UTF-8 encoding. */
  function ByteLen(s: string): nat {
    if s == "" then 0 else Utf8Width(s[0]) + ByteLen(s[1..])
  }

  /** ceil(bytes / 3.8), exactly */
  function TokensForBytes(bytes: nat): nat { (10 * bytes + 37) / 38 }

  function EstimateTokens(content: string): nat { TokensForBytes(ByteLen(content)) }

  function TotalEstimate(blocks: seq<PromptBlock>): nat {
    if blocks == [] then 0 else EstimateTokens(blocks[0].content) + TotalEstimate(blocks[1..])
  }

  function TotalBytes(blocks: seq<PromptBlock>): nat {
    if blocks == [] then 0 else ByteLen(blocks[0].content) + TotalBytes(blocks[1..])
  }

  /** Rounding up block by block: the estimate is at least the bytes over 3.8, and exceeds them by less
      than one token a block. For one block it is the bytes over 3.8 rounded up. */
  lemma {:induction false} EstimateBounds(blocks: seq<PromptBlock>)
    ensures 10 * TotalBytes(blocks) <= 38 * TotalEstimate(blocks)
    ensures blocks != [] ==> 38 * (TotalEstimate(blocks) - |blocks|) < 10 * TotalBytes(blocks)
  {
    if |blocks| == 1 {
      assert blocks[1..] == [];
    } else if blocks != [] {
      EstimateBounds(blocks[1..]);
    }
  }

  /** Bytes of the UTF-8 encoding, by code point: one up to U+007F, two up to U+07FF, three up to
      U+FFFF, four beyond; and the bytes of a text are those of its parts. */
  lemma {:induction false} ByteLenBy(s: string, t: string)
    ensures ByteLen(s + t) == ByteLen(s) + ByteLen(t)
    ensures |s| == 1 ==> (ByteLen(s) == 1 <==> s[0] <= '\U{7F}') && (ByteLen(s) <= 2 <==> s[0] <= '\U{7FF}')
    ensures |s| == 1 ==> (ByteLen(s) <= 3 <==> s[0] <= '\U{FFFF}') && 1 <= ByteLen(s) <= 4
  {
    if s == "" {
      assert s + t == t;
    } else {
      assert (s + t)[1..] == s[1..] + t;
      ByteLenBy(s[1..], t);
    }
  }

  lemma {:induction false} ByteLenBounds(s: string)
    ensures |s| <= ByteLen(s) <= 4 * |s|
    ensures (forall i :: 0 <= i < |s| ==> s[i] <= '\U{7F}') ==> ByteLen(s) == |s|
  {
    if s != "" { ByteLenBounds(s[1..]); }
  }

  // ---- Snoc forms for the hashing loop ----

  lemma {:induction false} CacheableSnoc(blocks: seq<PromptBlock>, b: PromptBlock)
    ensures Cacheable(blocks + [b]) == Cacheable(blocks) + (if IsCacheable(b.kind) then [b] else [])
  {
    if blocks != [] {
      assert (blocks + [b])[1..] == blocks[1..] + [b];
      CacheableSnoc(blocks[1..], b);
    }
  }

  lemma {:induction false} ContentsSnoc(blocks: seq<PromptBlock>, b: PromptBlock, kind: BlockKind)
    ensures Contents(blocks + [b], kind) == Contents(blocks, kind) + (if b.kind == kind then [b.content] else [])
  {
    if blocks != [] {
      assert (blocks + [b])[1..] == blocks[1..] + [b];
      ContentsSnoc(blocks[1..], b, kind);
    }
  }

  lemma {:induction false} TotalEstimateSnoc(blocks: seq<PromptBlock>, b: PromptBlock)
    ensures TotalEstimate(blocks + [b]) == TotalEstimate(blocks) + EstimateTokens(b.content)
  {
    if blocks != [] {
      assert (blocks + [b])[1..] == blocks[1..] + [b];
      TotalEstimateSnoc(blocks[1..], b);
    }
  }

  /** What the running hasher holds after one more digest. */
  function Feed(fed: string, first: bool, digest: string): string {
    if first then digest else fed + BLOCK_SEP + digest
  }

  lemma {:induction false} Join64Snoc(ds: seq<Hex64>, d: Hex64)
    ensures Join64(ds + [d]) == Feed(Join64(ds), ds == [], d)
  {
    if |ds| > 1 {
      assert (ds + [d])[1..] == ds[1..] + [d];
      Join64Snoc(ds[1..], d);
      FeedAssoc(ds[0], Join64(ds[1..]), d);
    } else if |ds| == 1 {
      assert (ds + [d])[1..] == [d];
    }
  }

  lemma FeedAssoc(a: string, b: string, c: string)
    ensures a + BLOCK_SEP + (b + BLOCK_SEP + c) == (a + BLOCK_SEP + b) + BLOCK_SEP + c
  {
    var p, q := a + BLOCK_SEP, BLOCK_SEP + c;
    Assoc(b, BLOCK_SEP, c);
    Assoc(p, b, q);
    Assoc(p + b, BLOCK_SEP, c);
  }

  lemma DigestsSnoc(hash: HashFn, blocks: seq<PromptBlock>, b: PromptBlock)
    ensures Digests(hash, blocks + [b]) == Digests(hash, blocks) + [HashBlock(hash, b)]
  {}

  /** All the text fed to the prefix hasher for a list of blocks. */
  function Fed(hash: HashFn, blocks: seq<PromptBlock>): string { Join64(Digests(hash, Cacheable(blocks))) }

  function DocDigest(hash: HashFn, blocks: seq<PromptBlock>): Option<Hex64> {
    var docs := Contents(blocks, Document);
    if docs == [] then None else Some(DocChain(hash, Map(CanonicalDoc, docs)))
  }

  lemma FedSnoc(hash: HashFn, blocks: seq<PromptBlock>, b: PromptBlock)
    ensures Fed(hash, blocks + [b]) ==
      if IsCacheable(b.kind) then Feed(Fed(hash, blocks), Cacheable(blocks) == [], HashBlock(hash, b))
      else Fed(hash, blocks)
  {
    CacheableSnoc(blocks, b);
    if IsCacheable(b.kind) {
      DigestsSnoc(hash, Cacheable(blocks), b);
      Join64Snoc(Digests(hash, Cacheable(blocks)), HashBlock(hash, b));
    } else {
      assert Cacheable(blocks) + [] == Cacheable(blocks);
    }
  }

  lemma LastDigestSnoc(hash: HashFn, blocks: seq<PromptBlock>, b: PromptBlock, kind: BlockKind)
    ensures LastDigest(hash, blocks + [b], kind) ==
      if b.kind == kind then Some(HashBlock(hash, b)) else LastDigest(hash, blocks, kind)
  {
    var texts, texts' := Contents(blocks, kind), Contents(blocks + [b], kind);
    ContentsSnoc(blocks, b, kind);
    if b.kind == kind {
      assert texts'[|texts'| - 1] == b.content && PromptBlock(kind, b.content) == b;
    } else {
      assert texts' == texts;
    }
  }

  lemma DocDigestSnoc(hash: HashFn, blocks: seq<PromptBlock>, b: PromptBlock)
    ensures DocDigest(hash, blocks + [b]) ==
      if b.kind != Document then DocDigest(hash, blocks)
      else if DocDigest(hash, blocks).None? then Some(HashBlock(hash, b))
      else Some(hash(DocDigest(hash, blocks).value + BLOCK_SEP + HashBlock(hash, b)))
  {
    ContentsSnoc(blocks, b, Document);
    var docs := Contents(blocks, Document);
    if b.kind == Document {
      MapDocsSnoc(docs, b.content);
      DocChainSnoc(hash, Map(CanonicalDoc, docs), CanonicalDoc(b.content));
    } else {
      assert docs + [] == docs;
    }
  }

  lemma DocChainSnoc(hash: HashFn, docs: seq<string>, d: string)
    ensures DocChain(hash, docs + [d]) ==
      if docs == [] then hash(Tagged(Document, d))
      else hash(DocChain(hash, docs) + BLOCK_SEP + hash(Tagged(Document, d)))
  {
    assert (docs + [d])[..|docs|] == docs;
  }

  lemma MapDocsSnoc(docs: seq<string>, d: string)
    ensures Map(CanonicalDoc, docs + [d]) == Map(CanonicalDoc, docs) + [CanonicalDoc(d)]
  {}

  lemma EstimateSnoc(blocks: seq<PromptBlock>, b: PromptBlock)
    ensures TotalEstimate(Cacheable(blocks + [b])) ==
      TotalEstimate(Cacheable(blocks)) + (if IsCacheable(b.kind) then EstimateTokens(b.content) else 0)
  {
    CacheableSnoc(blocks, b);
    if IsCacheable(b.kind) {
      TotalEstimateSnoc(Cacheable(blocks), b);
    } else {
      assert Cacheable(blocks) + [] == Cacheable(blocks);
    }
  }

  /** The loop's running values after the given blocks. */
  ghost predicate Running(hash: HashFn, done: seq<PromptBlock>, fed: string, first: bool, tokens: nat) {
    && fed == Fed(hash, done)
    && (first <==> Cacheable(done) == [])
    && tokens == TotalEstimate(Cacheable(done))
  }

  ghost predicate Sections(
      hash: HashFn, done: seq<PromptBlock>, hSys: Option<string>, hTools: Option<string>, hDoc: Option<string>)
  {
    && hSys == LastDigest(hash, done, System)
    && hTools == LastDigest(hash, done, Tools)
    && hDoc == DocDigest(hash, done)
  }

  lemma FeedByParts(fed: string, first: bool, digest: string)
    requires first ==> fed == ""
    ensures (if first then fed else fed + BLOCK_SEP) + digest == Feed(fed, first, digest)
  {}

  lemma RunningStep(hash: HashFn, done: seq<PromptBlock>, b: PromptBlock, fed: string, first: bool, tokens: nat)
    requires Running(hash, done, fed, first, tokens)
    ensures first ==> fed == ""
    ensures if IsCacheable(b.kind)
            then Running(
              hash, done + [b], Feed(fed, first, HashBlock(hash, b)), false, tokens + EstimateTokens(b.content))
            else Running(hash, done + [b], fed, first, tokens)
  {
    FedSnoc(hash, done, b);
    CacheableSnoc(done, b);
    EstimateSnoc(done, b);
  }

  lemma SectionsStep(
      hash: HashFn, done: seq<PromptBlock>, b: PromptBlock,
      hSys: Option<string>, hTools: Option<string>, hDoc: Option<string>)
    requires Sections(hash, done, hSys, hTools, hDoc)
    ensures var h := HashBlock(hash, b);
      match b.kind
      case System => Sections(hash, done + [b], Some(h), hTools, hDoc)
      case Tools => Sections(hash, done + [b], hSys, Some(h), hDoc)
      case Document =>
        Sections(hash, done + [b], hSys, hTools, Some(if hDoc.None? then h else hash(hDoc.value + BLOCK_SEP + h)))
      case User => Sections(hash, done + [b], hSys, hTools, hDoc)
  {
    LastDigestSnoc(hash, done, b, System);
    LastDigestSnoc(hash, done, b, Tools);
    DocDigestSnoc(hash, done, b);
  }

  /** `hash_prompt_blocks`: one pass, feeding the hasher as it goes. The state of the running
      SHA-256 is the text fed to it so far; finalising it hashes that text. */
  method HashPromptBlocks(hash: HashFn, blocks: seq<PromptBlock>) returns (r: HashResult)
    ensures r.prefix == Prefix(hash, blocks)
    ensures r.hSys == LastDigest(hash, blocks, System)
    ensures r.hTools == LastDigest(hash, blocks, Tools)
    ensures r.hDoc == DocDigest(hash, blocks)
    ensures r.prefixTokenEstimate == TotalEstimate(Cacheable(blocks))
  {
    var hSys: Option<string>, hTools: Option<string>, hDoc: Option<string> := None, None, None;
    var tokens: nat := 0;
    var fed := "";
    var firstBlock := true;
    for i := 0 to |blocks|
      invariant Running(hash, blocks[..i], fed, firstBlock, tokens)
      invariant Sections(hash, blocks[..i], hSys, hTools, hDoc)
    {
      var block := blocks[i];
      TakeSnoc(blocks, i);
      RunningStep(hash, blocks[..i], block, fed, firstBlock, tokens);
      SectionsStep(hash, blocks[..i], block, hSys, hTools, hDoc);
      if !IsCacheable(block.kind) { continue; }
      var blockHash := HashBlock(hash, block);
      tokens := tokens + EstimateTokens(block.content);
      if !firstBlock { fed := fed + BLOCK_SEP; }
      FeedByParts(fed, firstBlock, blockHash);
      fed := fed + blockHash;
      firstBlock := false;
      match block.kind {
        case System => hSys := Some(blockHash);
        case Tools => hTools := Some(blockHash);
        case Document =>
          hDoc := Some(if hDoc.None? then blockHash else hash(hDoc.value + BLOCK_SEP + blockHash));
        case User =>
      }
    }
    assert blocks[..|blocks|] == blocks;
    r := HashResult(hSys, hTools, hDoc, hash(fed), tokens);
  }

  // ---- What is hashed, spelled out ----

  /** Each kind's tag. */
  lemma DigestIs(hash: HashFn, content: string)
    ensures HashBlock(hash, PromptBlock(System, content)) == hash("SYS:" + Canonicalize(System, content))
    ensures HashBlock(hash, PromptBlock(Tools, content)) == hash("TOOLS:" + Canonicalize(Tools, content))
    ensures HashBlock(hash, PromptBlock(Document, content)) == hash("DOC:" + Canonicalize(Document, content))
  {
    assert "SYS" + ":" == "SYS:" && "TOOLS" + ":" == "TOOLS:" && "DOC" + ":" == "DOC:";
  }

  lemma {:induction false} CacheableAppend(a: seq<PromptBlock>, b: seq<PromptBlock>)
    ensures Cacheable(a + b) == Cacheable(a) + Cacheable(b)
  {
    if a == [] {
      assert a + b == b;
    } else {
      assert (a + b)[1..] == a[1..] + b;
      CacheableAppend(a[1..], b);
    }
  }

  lemma DigestsAppend(hash: HashFn, a: seq<PromptBlock>, b: seq<PromptBlock>)
    ensures Digests(hash, a + b) == Digests(hash, a) + Digests(hash, b)
  {}

  lemma {:induction false} Join64Plus(a: seq<Hex64>, b: seq<Hex64>)
    requires a != [] && b != []
    ensures Join64(a + b) == Join64(a) + "\0GC\0" + Join64(b)
  {
    if |a| == 1 {
      assert (a + b)[1..] == b;
    } else {
      assert (a + b)[1..] == a[1..] + b;
      Join64Plus(a[1..], b);
      FeedAssoc(a[0], Join64(a[1..]), Join64(b));
    }
  }

  /** What the parts of a prompt feed: a user block nothing, any other its digest, and two prompts one
      after the other what either feeds, with NUL GC NUL in between if both feed something. The key
      is the hash of it all. */
  lemma KeyIs(hash: HashFn, a: seq<PromptBlock>, b: seq<PromptBlock>)
    ensures Prefix(hash, a) == hash(Fed(hash, a))
    ensures Fed(hash, a + b) ==
      if Cacheable(a) == [] then Fed(hash, b)
      else if Cacheable(b) == [] then Fed(hash, a)
      else Fed(hash, a) + "\0GC\0" + Fed(hash, b)
  {
    var da, db := Digests(hash, Cacheable(a)), Digests(hash, Cacheable(b));
    CacheableAppend(a, b);
    DigestsAppend(hash, Cacheable(a), Cacheable(b));
    JoinedPlus(da, db);
  }

  lemma JoinedPlus(a: seq<Hex64>, b: seq<Hex64>)
    ensures Join64(a + b) ==
      if a == [] then Join64(b) else if b == [] then Join64(a) else Join64(a) + "\0GC\0" + Join64(b)
  {
    if a == [] {
      assert a + b == b;
    } else if b == [] {
      assert a + b == a;
    } else {
      Join64Plus(a, b);
    }
  }

  lemma BlockFeeds(hash: HashFn, x: PromptBlock)
    ensures Fed(hash, [x]) == if x.kind == User then "" else HashBlock(hash, x)
    ensures Fed(hash, []) == ""
    ensures Cacheable([x]) == [] <==> x.kind == User
  {
    assert [x][1..] == [];
    if x.kind != User {
      assert Cacheable([x]) == [x];
      assert Digests(hash, [x]) == [HashBlock(hash, x)];
    }
  }

  /** The last block of a kind decides its digest, and further documents are chained onto the first. */
  lemma SectionDigestsAre(hash: HashFn, blocks: seq<PromptBlock>, b: PromptBlock)
    ensures LastDigest(hash, [], System) == LastDigest(hash, [], Tools) == DocDigest(hash, []) == None
    ensures LastDigest(hash, blocks + [b], System) ==
      if b.kind == System then Some(HashBlock(hash, b)) else LastDigest(hash, blocks, System)
    ensures LastDigest(hash, blocks + [b], Tools) ==
      if b.kind == Tools then Some(HashBlock(hash, b)) else LastDigest(hash, blocks, Tools)
    ensures DocDigest(hash, blocks + [b]) ==
      if b.kind != Document then DocDigest(hash, blocks)
      else match DocDigest(hash, blocks)
           case None => Some(HashBlock(hash, b))
           case Some(prev) => Some(hash(prev + "\0GC\0" + HashBlock(hash, b)))
  {
    LastDigestSnoc(hash, blocks, b, System);
    LastDigestSnoc(hash, blocks, b, Tools);
    DocDigestSnoc(hash, blocks, b);
  }

  // ---- What the key identifies ----

  lemma {:induction false} Join64Length(ds: seq<Hex64>)
    ensures ds != [] ==> |Join64(ds)| >= 64 && Join64(ds)[..64] == ds[0]
    ensures |ds| > 1 ==> |Join64(ds)| >= 132 && Join64(ds)[68..] == Join64(ds[1..])
  {
    if |ds| > 1 {
      Join64Length(ds[1..]);
      var j := ds[0] + BLOCK_SEP;
      assert Join64(ds) == j + Join64(ds[1..]) && |j| == 68;
      assert j[..64] == ds[0];
    }
  }

  /** Digests have one width, so the separated list can be read back. */
  lemma {:induction false} Join64Injective(a: seq<Hex64>, b: seq<Hex64>)
    requires Join64(a) == Join64(b)
    ensures a == b
  {
    Join64Length(a);
    Join64Length(b);
    if |a| > 1 && |b| > 1 {
      Join64Injective(a[1..], b[1..]);
      assert a == [a[0]] + a[1..] && b == [b[0]] + b[1..];
    }
  }

  /** No kind tag with its colon is a prefix of another. */
  lemma TaggedInjective(j: BlockKind, s: string, k: BlockKind, t: string)
    requires Tagged(j, s) == Tagged(k, t)
    ensures j == k && s == t
  {
    var u, v := Tagged(j, s), Tagged(k, t);
    assert u[0] == KindTag(j)[0] && v[0] == KindTag(k)[0];
    assert |KindTag(j)| == |KindTag(k)|;
    assert s == u[|KindTag(j)| + 1..] && t == v[|KindTag(k)| + 1..];
  }

  /** The text is what one of the blocks feeds to the hash. */
  ghost predicate BlockHashed(blocks: seq<PromptBlock>, t: string) {
    exists b :: b in blocks && t == BlockInput(b)
  }

  /** The text is hashed on the way to the prompt's key: a stable block's, or the joined digests. */
  ghost predicate HashedFor(hash: HashFn, blocks: seq<PromptBlock>, t: string) {
    t == Fed(hash, blocks) || BlockHashed(Cacheable(blocks), t)
  }

  /** Two texts collide, one hashed for each prompt's key. */
  ghost predicate KeysCollide(hash: HashFn, a: seq<PromptBlock>, b: seq<PromptBlock>, x: string, y: string) {
    Collision(hash, x, y) && HashedFor(hash, a, x) && HashedFor(hash, b, y)
  }

  lemma BlockInputInjective(a: PromptBlock, b: PromptBlock)
    ensures BlockInput(a) == BlockInput(b) <==> Form(a) == Form(b)
  {
    if BlockInput(a) == BlockInput(b) {
      TaggedInjective(a.kind, Canonicalize(a.kind, a.content), b.kind, Canonicalize(b.kind, b.content));
    }
  }

  /** Where two lists of blocks have the same digests but different forms, two of their own texts
      collide. */
  lemma DigestsCollide(hash: HashFn, a: seq<PromptBlock>, b: seq<PromptBlock>) returns (x: string, y: string)
    requires Digests(hash, a) == Digests(hash, b) && Map(Form, a) != Map(Form, b)
    ensures Collision(hash, x, y) && BlockHashed(a, x) && BlockHashed(b, y)
  {
    assert |a| == |Digests(hash, a)| == |b|;
    var i := Difference(Map(Form, a), Map(Form, b));
    assert Map(Form, a)[i] == Form(a[i]) && Map(Form, b)[i] == Form(b[i]);
    assert a[i] in a && b[i] in b;
    x, y := BlockInput(a[i]), BlockInput(b[i]);
    BlockInputInjective(a[i], b[i]);
    assert hash(x) == Digests(hash, a)[i] == Digests(hash, b)[i] == hash(y);
  }

  lemma Difference<T>(a: seq<T>, b: seq<T>) returns (i: nat)
    requires |a| == |b| && a != b
    ensures i < |a| && a[i] != b[i]
  {
    i :| 0 <= i < |a| && a[i] != b[i];
  }

  lemma {:induction false} SameFormsSameDigests(hash: HashFn, a: seq<PromptBlock>, b: seq<PromptBlock>)
    requires Map(Form, a) == Map(Form, b)
    ensures Digests(hash, a) == Digests(hash, b)
  {
    assert |a| == |Map(Form, a)| == |b|;
    forall i | 0 <= i < |a| ensures HashBlock(hash, a[i]) == HashBlock(hash, b[i]) {
      assert Form(a[i]) == Map(Form, a)[i] == Map(Form, b)[i] == Form(b[i]);
    }
  }

  /** The cache-key theorem: prompts with the same stable form share a key, and where prompts share
      a key without it, a text hashed for the one collides with a text hashed for the other. */
  lemma KeyExactness(hash: HashFn, a: seq<PromptBlock>, b: seq<PromptBlock>) returns (x: string, y: string)
    ensures StableForm(a) == StableForm(b) ==> Prefix(hash, a) == Prefix(hash, b)
    ensures Prefix(hash, a) == Prefix(hash, b) && StableForm(a) != StableForm(b) ==> KeysCollide(hash, a, b, x, y)
  {
    var da, db := Digests(hash, Cacheable(a)), Digests(hash, Cacheable(b));
    x, y := Join64(da), Join64(db);
    if StableForm(a) == StableForm(b) {
      SameFormsSameDigests(hash, Cacheable(a), Cacheable(b));
    } else if Prefix(hash, a) == Prefix(hash, b) && x == y {
      Join64Injective(da, db);
      x, y := DigestsCollide(hash, Cacheable(a), Cacheable(b));
    }
  }

  /** A chained input opens with a hex digit, a single document's with the tag `DOC:`. */
  lemma ChainInputShape(hash: HashFn, docs: seq<string>)
    requires docs != []
    ensures |ChainInput(hash, docs)| > 0
    ensures |docs| == 1 <==> ChainInput(hash, docs)[0] == 'D'
  {
    if |docs| > 1 {
      var d := DocChain(hash, docs[..|docs| - 1]);
      assert IsHex64(d) && IsLowerHex(d[0]);
      assert ChainInput(hash, docs)[0] == d[0];
    }
  }

  lemma SeparatedInjective(a: Hex64, b: Hex64, c: Hex64, d: Hex64)
    requires a + BLOCK_SEP + b == c + BLOCK_SEP + d
    ensures a == c && b == d
  {
    var u, v := a + BLOCK_SEP + b, c + BLOCK_SEP + d;
    assert a == u[..64] && c == v[..64];
    assert b == u[68..] && d == v[68..];
  }

  /** The text is hashed on the way to the chain over the documents. */
  ghost predicate ChainHashed(hash: HashFn, docs: seq<string>, t: string) {
    || (exists n :: 0 < n <= |docs| && t == ChainInput(hash, docs[..n]))
    || (exists i :: 0 <= i < |docs| && t == Tagged(Document, docs[i]))
  }

  lemma ChainHashedLater(hash: HashFn, docs: seq<string>, d: string, t: string)
    requires ChainHashed(hash, docs, t)
    ensures ChainHashed(hash, docs + [d], t)
  {
    if n :| 0 < n <= |docs| && t == ChainInput(hash, docs[..n]) {
      assert (docs + [d])[..n] == docs[..n];
    } else {
      var i :| 0 <= i < |docs| && t == Tagged(Document, docs[i]);
      assert (docs + [d])[i] == docs[i];
    }
  }

  lemma LastInputHashed(hash: HashFn, docs: seq<string>)
    requires docs != []
    ensures ChainHashed(hash, docs, ChainInput(hash, docs))
    ensures ChainHashed(hash, docs, Tagged(Document, docs[|docs| - 1]))
  {
    assert docs[..|docs|] == docs;
  }

  /** The last step of two equal chains: a collision there, or equal chains before it. */
  lemma LastLink(hash: HashFn, a: seq<string>, s: string, b: seq<string>, t: string)
    returns (found: bool, x: string, y: string)
    requires DocChain(hash, a + [s]) == DocChain(hash, b + [t])
    ensures found ==> Collision(hash, x, y) && ChainHashed(hash, a + [s], x) && ChainHashed(hash, b + [t], y)
    ensures !found ==> s == t && (a == [] <==> b == []) && (a != [] ==> DocChain(hash, a) == DocChain(hash, b))
  {
    x, y := ChainInput(hash, a + [s]), ChainInput(hash, b + [t]);
    LastInputHashed(hash, a + [s]);
    LastInputHashed(hash, b + [t]);
    found := x != y;
    if x == y {
      SameInput(hash, a, s, b, t);
      if s != t {
        found, x, y := true, Tagged(Document, s), Tagged(Document, t);
        TaggedDiffer(s, t);
      }
    }
  }

  /** The document chain is faithful: equal chains over any numbers of documents mean equal
      canonical documents in equal order, or two of the texts hashed for them collide. */
  lemma {:induction false} DocChainExact(hash: HashFn, a: seq<string>, b: seq<string>) returns (x: string, y: string)
    requires a != [] && b != [] && DocChain(hash, a) == DocChain(hash, b) && a != b
    ensures Collision(hash, x, y) && ChainHashed(hash, a, x) && ChainHashed(hash, b, y)
    decreases |a|
  {
    var a', s, b', t := a[..|a| - 1], a[|a| - 1], b[..|b| - 1], b[|b| - 1];
    assert a == a' + [s] && b == b' + [t];
    var found: bool;
    found, x, y := LastLink(hash, a', s, b', t);
    if !found {
      x, y := DocChainExact(hash, a', b');
      ChainHashedLater(hash, a', s, x);
      ChainHashedLater(hash, b', t, y);
    }
  }

  lemma TaggedDiffer(s: string, t: string)
    requires s != t
    ensures Tagged(Document, s) != Tagged(Document, t)
  {
    if Tagged(Document, s) == Tagged(Document, t) { TaggedInjective(Document, s, Document, t); }
  }

  /** Equal chain inputs: the same last document, alone; or the same digests of what went before and
      of the last documents. */
  lemma SameInput(hash: HashFn, a: seq<string>, s: string, b: seq<string>, t: string)
    requires ChainInput(hash, a + [s]) == ChainInput(hash, b + [t])
    ensures a == [] <==> b == []
    ensures a == [] ==> s == t
    ensures a != [] ==> DocChain(hash, a) == DocChain(hash, b)
    ensures hash(Tagged(Document, s)) == hash(Tagged(Document, t))
  {
    ChainInputShape(hash, a + [s]);
    ChainInputShape(hash, b + [t]);
    assert (a + [s])[..|a|] == a && (b + [t])[..|b|] == b;
    if a == [] {
      TaggedInjective(Document, s, Document, t);
    } else {
      SeparatedInjective(
        DocChain(hash, a), hash(Tagged(Document, s)), DocChain(hash, b), hash(Tagged(Document, t)));
    }
  }
}
