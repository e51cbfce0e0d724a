/** What the blocks extracted from a request hold, kind by kind, told from the request alone. */
module BlockContents {
  import opened Seqs
  import opened Wrappers
  import opened Canonical
  import opened Hasher
  import opened Json
  import opened Extraction
  import opened Composite

  predicate SystemMessage(m: Json) { Field(m, "role") == Some(Str("system")) }

  predicate ToolMessage(m: Json) { Field(m, "role") == Some(Str("tool")) }

  predicate TurnMessage(m: Json) { Field(m, "role") in {Some(Str("user")), Some(Str("assistant"))} }

  predicate HeadMessage(m: Json) { SystemMessage(m) || ToolMessage(m) }

  function Texts(blocks: seq<PromptBlock>): seq<string> {
    if blocks == [] then [] else [blocks[0].content] + Texts(blocks[1..])
  }

  lemma {:induction false} ContentsAppend(a: seq<PromptBlock>, b: seq<PromptBlock>, kind: BlockKind)
    ensures Contents(a + b, kind) == Contents(a, kind) + Contents(b, kind)
  {
    if a == [] {
      assert a + b == b;
    } else {
      assert (a + b)[1..] == a[1..] + b;
      ContentsAppend(a[1..], b, kind);
    }
  }

  lemma ContentsOne(b: PromptBlock, kind: BlockKind)
    ensures Contents([b], kind) == if b.kind == kind then [b.content] else []
  {
    assert [b][1..] == [];
  }

  lemma RolesByField(m: Json)
    ensures IsHead(m) <==> HeadMessage(m)
    ensures IsTurn(m) <==> TurnMessage(m)
    ensures Role(m) == "system" <==> SystemMessage(m)
  {
    assert |"system"| > 0 && |"tool"| > 0 && |"user"| > 0 && |"assistant"| > 0;
    assert "system"[0] != "tool"[0];
  }

  lemma {:induction false} SameFilter<T>(p: T -> bool, q: T -> bool, xs: seq<T>)
    requires forall x :: x in xs ==> p(x) == q(x)
    ensures Filter(p, xs) == Filter(q, xs)
  {
    if xs != [] {
      assert xs[0] in xs;
      SameFilter(p, q, xs[1..]);
    }
  }

  lemma HeadBlocksCons(ser: Serializer, m: Json, rest: seq<Json>)
    ensures HeadBlocks(ser, [m] + rest) ==
      (if IsHead(m) then [HeadBlock(ser, m)] else []) + HeadBlocks(ser, rest)
  {
    FilterAppend(IsHead, [m], rest);
    FilterOne(IsHead, m);
    if IsHead(m) { MapAppend((x: Json) => HeadBlock(ser, x), [m], Filter(IsHead, rest)); }
  }

  /** One message's share of the head blocks. */
  lemma HeadShare(ser: Serializer, m: Json)
    ensures var share := if IsHead(m) then [HeadBlock(ser, m)] else [];
      && Contents(share, System) == (if SystemMessage(m) then [ser(m)] else [])
      && Contents(share, Tools) == (if ToolMessage(m) then [ser(m)] else [])
      && Contents(share, Document) == [] && Contents(share, User) == []
      && Texts(share) == (if HeadMessage(m) then [ser(m)] else [])
  {
    RolesByField(m);
    if IsHead(m) {
      ContentsOne(HeadBlock(ser, m), System);
      ContentsOne(HeadBlock(ser, m), Tools);
      ContentsOne(HeadBlock(ser, m), Document);
      ContentsOne(HeadBlock(ser, m), User);
      assert [HeadBlock(ser, m)][1..] == [];
    }
  }

  lemma {:induction false} TextsAppend(a: seq<PromptBlock>, b: seq<PromptBlock>)
    ensures Texts(a + b) == Texts(a) + Texts(b)
  {
    if a == [] {
      assert a + b == b;
    } else {
      assert (a + b)[1..] == a[1..] + b;
      TextsAppend(a[1..], b);
    }
  }

  lemma MapFilterCons(ser: Serializer, p: Json -> bool, m: Json, rest: seq<Json>)
    ensures Map(ser, Filter(p, [m] + rest)) == (if p(m) then [ser(m)] else []) + Map(ser, Filter(p, rest))
  {
    FilterAppend(p, [m], rest);
    FilterOne(p, m);
    if p(m) { MapAppend(ser, [m], Filter(p, rest)); }
  }

  lemma {:induction false} HeadContents(ser: Serializer, ms: seq<Json>)
    ensures Contents(HeadBlocks(ser, ms), System) == Map(ser, Filter(SystemMessage, ms))
    ensures Contents(HeadBlocks(ser, ms), Tools) == Map(ser, Filter(ToolMessage, ms))
    ensures Contents(HeadBlocks(ser, ms), Document) == [] && Contents(HeadBlocks(ser, ms), User) == []
    ensures Texts(HeadBlocks(ser, ms)) == Map(ser, Filter(HeadMessage, ms))
  {
    if ms != [] {
      var m, rest := ms[0], ms[1..];
      assert ms == [m] + rest;
      HeadContents(ser, rest);
      HeadContentsCons(ser, m, rest);
    }
  }

  lemma HeadContentsCons(ser: Serializer, m: Json, rest: seq<Json>)
    requires Contents(HeadBlocks(ser, rest), System) == Map(ser, Filter(SystemMessage, rest))
    requires Contents(HeadBlocks(ser, rest), Tools) == Map(ser, Filter(ToolMessage, rest))
    requires Contents(HeadBlocks(ser, rest), Document) == [] && Contents(HeadBlocks(ser, rest), User) == []
    requires Texts(HeadBlocks(ser, rest)) == Map(ser, Filter(HeadMessage, rest))
    ensures var blocks := HeadBlocks(ser, [m] + rest);
      && Contents(blocks, System) == Map(ser, Filter(SystemMessage, [m] + rest))
      && Contents(blocks, Tools) == Map(ser, Filter(ToolMessage, [m] + rest))
      && Contents(blocks, Document) == [] && Contents(blocks, User) == []
      && Texts(blocks) == Map(ser, Filter(HeadMessage, [m] + rest))
  {
    var share := if IsHead(m) then [HeadBlock(ser, m)] else [];
    HeadBlocksCons(ser, m, rest);
    HeadShare(ser, m);
    ContentsAppend(share, HeadBlocks(ser, rest), System);
    ContentsAppend(share, HeadBlocks(ser, rest), Tools);
    ContentsAppend(share, HeadBlocks(ser, rest), Document);
    ContentsAppend(share, HeadBlocks(ser, rest), User);
    TextsAppend(share, HeadBlocks(ser, rest));
    MapFilterCons(ser, SystemMessage, m, rest);
    MapFilterCons(ser, ToolMessage, m, rest);
    MapFilterCons(ser, HeadMessage, m, rest);
  }

  /** All turns but the last, as one text. */
  function Earlier(ser: Serializer, turns: seq<Json>): seq<string> {
    if |turns| > 1 then [ser(Arr(turns[..|turns| - 1]))] else []
  }

  /** The last turn. */
  function Latest(ser: Serializer, turns: seq<Json>): seq<string> {
    if turns == [] then [] else [ser(turns[|turns| - 1])]
  }

  lemma TailContents(ser: Serializer, turns: seq<Json>)
    ensures var tail := TailBlocks(ser, turns);
      && Contents(tail, System) == [] && Contents(tail, Tools) == []
      && Contents(tail, Document) == Earlier(ser, turns) && Contents(tail, User) == Latest(ser, turns)
      && Texts(tail) == Earlier(ser, turns) + Latest(ser, turns)
  {
    var tail := TailBlocks(ser, turns);
    if |turns| == 1 {
      assert tail == [tail[0]] && tail[1..] == [];
    } else if |turns| > 1 {
      var front, last := turns[..|turns| - 1], turns[|turns| - 1];
      assert tail == [PromptBlock(Document, ser(Arr(front)))] + [PromptBlock(User, ser(last))];
      PairContents(PromptBlock(Document, ser(Arr(front))), PromptBlock(User, ser(last)));
    }
  }

  lemma PairOf(d: PromptBlock, u: PromptBlock, kind: BlockKind)
    ensures Contents([d] + [u], kind) ==
      (if d.kind == kind then [d.content] else []) + (if u.kind == kind then [u.content] else [])
  {
    ContentsAppend([d], [u], kind);
    ContentsOne(d, kind);
    ContentsOne(u, kind);
  }

  lemma PairContents(d: PromptBlock, u: PromptBlock)
    requires d.kind == Document && u.kind == User
    ensures var tail := [d] + [u];
      && Contents(tail, System) == [] && Contents(tail, Tools) == []
      && Contents(tail, Document) == [d.content] && Contents(tail, User) == [u.content]
      && Texts(tail) == [d.content] + [u.content]
  {
    PairOf(d, u, System);
    PairOf(d, u, Tools);
    PairOf(d, u, Document);
    PairOf(d, u, User);
    TextsAppend([d], [u]);
    assert [d][1..] == [] && [u][1..] == [];
  }

  /** What an OpenAI conversation is split into: system messages make system blocks and tool messages
      tools blocks, in the order of the messages; the turns but the last make one document, and the
      last turn is the user block. */
  lemma OpenAIContents(ser: Serializer, ms: seq<Json>)
    ensures var blocks, turns := OpenAIBlocks(ser, ms), Filter(TurnMessage, ms);
      && Contents(blocks, System) == Map(ser, Filter(SystemMessage, ms))
      && Contents(blocks, Tools) == Map(ser, Filter(ToolMessage, ms))
      && Contents(blocks, Document) == Earlier(ser, turns)
      && Contents(blocks, User) == Latest(ser, turns)
      && Texts(blocks) == Map(ser, Filter(HeadMessage, ms)) + Earlier(ser, turns) + Latest(ser, turns)
  {
    forall m | m in ms ensures IsTurn(m) == TurnMessage(m) { RolesByField(m); }
    SameFilter(IsTurn, TurnMessage, ms);
    var turns := Filter(TurnMessage, ms);
    var heads, tail := HeadBlocks(ser, ms), TailBlocks(ser, turns);
    HeadContents(ser, ms);
    TailContents(ser, turns);
    ContentsAppend(heads, tail, System);
    ContentsAppend(heads, tail, Tools);
    ContentsAppend(heads, tail, Document);
    ContentsAppend(heads, tail, User);
    TextsAppend(heads, tail);
    ConcatAssoc(Map(ser, Filter(HeadMessage, ms)), Earlier(ser, turns), Latest(ser, turns));
  }

  lemma ConcatAssoc<T>(a: seq<T>, b: seq<T>, c: seq<T>)
    ensures a + (b + c) == a + b + c
  {}

  /** What an Anthropic body is split into. */
  lemma AnthropicContents(ser: Serializer, json: Json)
    ensures var blocks := AnthropicBlocks(ser, json);
      var turns := match Field(json, "messages") case Some(Arr(ms)) => ms case _ => [];
      && Contents(blocks, System) == (match Field(json, "system") case Some(Str(s)) => [s] case _ => [])
      && Contents(blocks, Tools) == (match Field(json, "tools") case Some(t) => [ser(t)] case None => [])
      && Contents(blocks, Document) == Earlier(ser, turns)
      && Contents(blocks, User) == Latest(ser, turns)
  {
    var turns := Messages(json).GetOr([]);
    var system, tools, tail := SystemBlocks(json), ToolBlocks(ser, json), TailBlocks(ser, turns);
    TailContents(ser, turns);
    PartContents(system, tools, tail, System);
    PartContents(system, tools, tail, Tools);
    PartContents(system, tools, tail, Document);
    PartContents(system, tools, tail, User);
  }

  /** At most one block of each kind, in the order system, tools, document, user. */
  lemma AnthropicOrder(ser: Serializer, json: Json)
    ensures Regular(AnthropicBlocks(ser, json))
  {
    PartsRegular(SystemBlocks(json), ToolBlocks(ser, json), TailBlocks(ser, Messages(json).GetOr([])));
  }

  lemma PartsRegular(a: seq<PromptBlock>, b: seq<PromptBlock>, c: seq<PromptBlock>)
    requires |a| <= 1 && |b| <= 1 && |c| <= 2
    requires forall i :: 0 <= i < |a| ==> a[i].kind == System
    requires forall i :: 0 <= i < |b| ==> b[i].kind == Tools
    requires forall i :: 0 <= i < |c| ==> c[i].kind == if i == |c| - 1 then User else Document
    ensures Regular(a + b + c)
  {}

  lemma PartContents(a: seq<PromptBlock>, b: seq<PromptBlock>, c: seq<PromptBlock>, kind: BlockKind)
    requires |a| <= 1 && |b| <= 1
    ensures Contents(a + b + c, kind) ==
      (if |a| == 1 && a[0].kind == kind then [a[0].content] else [])
      + (if |b| == 1 && b[0].kind == kind then [b[0].content] else []) + Contents(c, kind)
  {
    ContentsAppend(a + b, c, kind);
    ContentsAppend(a, b, kind);
    if |a| == 1 { assert a == [a[0]]; ContentsOne(a[0], kind); }
    if |b| == 1 { assert b == [b[0]]; ContentsOne(b[0], kind); }
  }
}
