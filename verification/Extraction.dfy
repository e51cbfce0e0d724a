/** Which part of a request is stable and which is volatile. */
module Extraction {
  import opened Seqs
  import opened Wrappers
  import opened Canonical
  import opened Hasher
  import opened Json

  /** `serde_json::to_string`, left abstract. */
  type Serializer = Json -> string

  function Role(msg: Json): string {
    match Field(msg, "role")
    case Some(Str(s)) => s
    case _ => ""
  }

  predicate IsTurn(msg: Json) { Role(msg) == "user" || Role(msg) == "assistant" }

  predicate IsHead(msg: Json) { Role(msg) == "system" || Role(msg) == "tool" }

  function HeadBlock(ser: Serializer, msg: Json): PromptBlock {
    PromptBlock(if Role(msg) == "system" then System else Tools, ser(msg))
  }

  /** All turns but the last are one document; the last one is the volatile tail. */
  function TailBlocks(ser: Serializer, turns: seq<Json>): seq<PromptBlock> {
    if turns == [] then []
    else
      (if |turns| > 1 then [PromptBlock(Document, ser(Arr(turns[..|turns| - 1])))] else [])
      + [PromptBlock(User, ser(turns[|turns| - 1]))]
  }

  function OpenAIBlocks(ser: Serializer, messages: seq<Json>): seq<PromptBlock> {
    HeadBlocks(ser, messages) + TailBlocks(ser, Filter(IsTurn, messages))
  }

  function HeadBlocks(ser: Serializer, messages: seq<Json>): seq<PromptBlock> {
    Map((m: Json) => HeadBlock(ser, m), Filter(IsHead, messages))
  }

  function AnthropicBlocks(ser: Serializer, json: Json): seq<PromptBlock> {
    SystemBlocks(json) + ToolBlocks(ser, json) + TailBlocks(ser, Messages(json).GetOr([]))
  }

  function SystemBlocks(json: Json): seq<PromptBlock> {
    match Field(json, "system")
    case Some(Str(s)) => [PromptBlock(System, s)]
    case _ => []
  }

  function ToolBlocks(ser: Serializer, json: Json): seq<PromptBlock> {
    match Field(json, "tools")
    case Some(t) => [PromptBlock(Tools, ser(t))]
    case None => []
  }

  lemma TailAfter(ser: Serializer, before: seq<PromptBlock>, turns: seq<Json>)
    requires turns != []
    ensures var last := [PromptBlock(User, ser(turns[|turns| - 1]))];
      before + TailBlocks(ser, turns) == if |turns| == 1 then before + last
        else before + [PromptBlock(Document, ser(Arr(turns[..|turns| - 1])))] + last
  {}

  /** No message is both. */
  lemma Roles()
    ensures forall m :: !(IsHead(m) && IsTurn(m))
  {
    assert "system"[0] != "user"[0] && "tool"[0] != "user"[0];
    assert "system"[0] != "assistant"[0] && "tool"[0] != "assistant"[0];
  }

  /** One more message goes to exactly one place. */
  lemma SplitOff(ser: Serializer, messages: seq<Json>, msg: Json)
    ensures HeadBlocks(ser, messages + [msg]) ==
      HeadBlocks(ser, messages) + (if IsHead(msg) then [HeadBlock(ser, msg)] else [])
    ensures Filter(IsTurn, messages + [msg]) == Filter(IsTurn, messages) + (if IsTurn(msg) then [msg] else [])
    ensures !(IsHead(msg) && IsTurn(msg))
  {
    FilterAppend(IsHead, messages, [msg]);
    FilterAppend(IsTurn, messages, [msg]);
    FilterOne(IsHead, msg);
    FilterOne(IsTurn, msg);
    if IsHead(msg) { MapAppend((m: Json) => HeadBlock(ser, m), Filter(IsHead, messages), [msg]); }
    Roles();
  }

  /** `extract_openai_blocks`; a body without a message array has no messages. */
  method ExtractOpenAI(ser: Serializer, json: Json) returns (blocks: seq<PromptBlock>)
    ensures blocks == OpenAIBlocks(ser, Messages(json).GetOr([]))
  {
    blocks := [];
    var messages := Messages(json).GetOr([]);
    var history: seq<Json> := [];
    for i := 0 to |messages|
      invariant blocks == HeadBlocks(ser, messages[..i])
      invariant history == Filter(IsTurn, messages[..i])
    {
      var msg := messages[i];
      TakeSnoc(messages, i);
      SplitOff(ser, messages[..i], msg);
      var role := Role(msg);
      if role == "system" {
        blocks := blocks + [PromptBlock(System, ser(msg))];
      } else if role == "tool" {
        blocks := blocks + [PromptBlock(Tools, ser(msg))];
      } else if role == "user" || role == "assistant" {
        history := history + [msg];
      }
    }
    assert messages[..|messages|] == messages;
    if |history| > 1 {
      blocks := blocks + [PromptBlock(Document, ser(Arr(history[..|history| - 1])))];
    }
    if history != [] {
      blocks := blocks + [PromptBlock(User, ser(history[|history| - 1]))];
    }
  }

  /** `extract_anthropic_blocks` */
  method ExtractAnthropic(ser: Serializer, json: Json) returns (blocks: seq<PromptBlock>)
    ensures blocks == AnthropicBlocks(ser, json)
  {
    blocks := [];
    var system := Field(json, "system");
    if system.Some? && system.value.Str? {
      blocks := blocks + [PromptBlock(System, system.value.s)];
    }
    assert blocks == SystemBlocks(json);
    var tools := Field(json, "tools");
    if tools.Some? {
      blocks := blocks + [PromptBlock(Tools, ser(tools.value))];
    }
    assert blocks == SystemBlocks(json) + ToolBlocks(ser, json);
    var messages := Messages(json);
    if messages.Some? {
      var ms := messages.value;
      if ms != [] { TailAfter(ser, blocks, ms); }
      var prior := if |ms| > 1 then ms[..|ms| - 1] else [];
      if prior != [] {
        blocks := blocks + [PromptBlock(Document, ser(Arr(prior)))];
      }
      if ms != [] {
        blocks := blocks + [PromptBlock(User, ser(ms[|ms| - 1]))];
      }
    }
  }

  /** No message is lost or duplicated: each is a head block, a turn, or of an unknown role. */
  lemma {:induction false} MessagesPartitioned(messages: seq<Json>)
    ensures multiset(messages) == multiset(Filter(IsHead, messages)) + multiset(Filter(IsTurn, messages))
      + multiset(Filter((m: Json) => !IsHead(m) && !IsTurn(m), messages))
  {
    if messages != [] {
      MessagesPartitioned(messages[1..]);
      assert messages == [messages[0]] + messages[1..];
    }
  }

  // ---- Only the last turn is volatile ----

  lemma StableTail(ser: Serializer, prior: seq<Json>, x: Json, y: Json)
    ensures Cacheable(TailBlocks(ser, prior + [x])) == Cacheable(TailBlocks(ser, prior + [y]))
  {
    assert (prior + [x])[..|prior|] == prior && (prior + [y])[..|prior|] == prior;
    var doc := if |prior| > 0 then [PromptBlock(Document, ser(Arr(prior)))] else [];
    CacheableAppend(doc, [PromptBlock(User, ser(x))]);
    CacheableAppend(doc, [PromptBlock(User, ser(y))]);
    assert TailBlocks(ser, prior + [x]) == doc + [PromptBlock(User, ser(x))];
    assert TailBlocks(ser, prior + [y]) == doc + [PromptBlock(User, ser(y))];
  }

  lemma SameCacheableSameKey(hash: HashFn, a: seq<PromptBlock>, b: seq<PromptBlock>)
    requires Cacheable(a) == Cacheable(b)
    ensures Prefix(hash, a) == Prefix(hash, b)
  {}

  /** Two OpenAI conversations that differ only in their last user or assistant message, with
      anything of other roles around it, have the same key. */
  lemma OpenAILastTurnVolatile(hash: HashFn, ser: Serializer, before: seq<Json>, x: Json, y: Json, after: seq<Json>)
    requires IsTurn(x) && IsTurn(y)
    requires forall m :: m in after ==> !IsTurn(m)
    ensures Prefix(hash, OpenAIBlocks(ser, before + [x] + after))
      == Prefix(hash, OpenAIBlocks(ser, before + [y] + after))
  {
    FilterNone(IsTurn, after);
    OneChange(before, x, after);
    OneChange(before, y, after);
    var prior := Filter(IsTurn, before);
    StableTail(ser, prior, x, y);
    CacheableAppend(HeadBlocks(ser, before + [x] + after), TailBlocks(ser, prior + [x]));
    CacheableAppend(HeadBlocks(ser, before + [y] + after), TailBlocks(ser, prior + [y]));
    SameCacheableSameKey(hash, OpenAIBlocks(ser, before + [x] + after), OpenAIBlocks(ser, before + [y] + after));
  }

  lemma OneChange(before: seq<Json>, x: Json, after: seq<Json>)
    requires IsTurn(x) && Filter(IsTurn, after) == []
    ensures Filter(IsTurn, before + [x] + after) == Filter(IsTurn, before) + [x]
    ensures Filter(IsHead, before + [x] + after) == Filter(IsHead, before) + Filter(IsHead, after)
  {
    FilterOne(IsTurn, x);
    FilterOne(IsHead, x);
    FilterAppend(IsTurn, before + [x], after);
    FilterAppend(IsTurn, before, [x]);
    FilterAppend(IsHead, before + [x], after);
    FilterAppend(IsHead, before, [x]);
  }

  /** Two Anthropic bodies with the same system prompt and tools whose messages differ only in
      the last have the same key. */
  lemma AnthropicLastTurnVolatile(hash: HashFn, ser: Serializer, a: Json, b: Json, prior: seq<Json>, x: Json, y: Json)
    requires Field(a, "system") == Field(b, "system") && Field(a, "tools") == Field(b, "tools")
    requires Messages(a) == Some(prior + [x]) && Messages(b) == Some(prior + [y])
    ensures Prefix(hash, AnthropicBlocks(ser, a)) == Prefix(hash, AnthropicBlocks(ser, b))
  {
    var system := match Field(a, "system") case Some(Str(s)) => [PromptBlock(System, s)] case _ => [];
    var tools := match Field(a, "tools") case Some(t) => [PromptBlock(Tools, ser(t))] case None => [];
    StableTail(ser, prior, x, y);
    CacheableAppend(system + tools, TailBlocks(ser, prior + [x]));
    CacheableAppend(system + tools, TailBlocks(ser, prior + [y]));
    SameCacheableSameKey(hash, AnthropicBlocks(ser, a), AnthropicBlocks(ser, b));
  }
}
