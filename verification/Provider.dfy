/** The provider adapters: rewriting a request body so that the provider caches its prefix. */
module Provider {
  import opened Wrappers
  import opened Hasher
  import opened Json

  const EPHEMERAL := Obj(map["type" := Str("ephemeral")])

  /** A text as a one-block content array carrying a cache breakpoint. */
  function Marked(text: string): Json {
    Arr([Obj(map["type" := Str("text"), "text" := Str(text), "cache_control" := EPHEMERAL])])
  }

  function MarkIfText(j: Json): Json { if j.Str? then Marked(j.s) else j }

  function MarkMessage(msg: Json): Json {
    match Field(msg, "content")
    case Some(content) => Obj(msg.fields["content" := MarkIfText(content)])
    case None => msg
  }

  function MarkMessages(ms: seq<Json>): (r: seq<Json>)
    ensures |r| == |ms|
  {
    if |ms| >= 2 then ms[|ms| - 2 := MarkMessage(ms[|ms| - 2])] else ms
  }

  predicate AnyCacheable(blocks: seq<PromptBlock>) {
    exists i :: 0 <= i < |blocks| && IsCacheable(blocks[i].kind)
  }

  /** `rposition(is_cacheable)` */
  function LastCacheable(blocks: seq<PromptBlock>): (r: Option<nat>)
    ensures r.Some? <==> AnyCacheable(blocks)
    ensures r.Some? ==> r.value < |blocks| && IsCacheable(blocks[r.value].kind)
    ensures r.Some? ==> forall i :: r.value < i < |blocks| ==> !IsCacheable(blocks[i].kind)
  {
    if blocks == [] then None
    else if IsCacheable(blocks[|blocks| - 1].kind) then Some(|blocks| - 1)
    else LastCacheable(blocks[..|blocks| - 1])
  }

  function MarkSystem(json: Json): Json {
    match Field(json, "system")
    case Some(system) => Obj(json.fields["system" := MarkIfText(system)])
    case None => json
  }

  function MarkHistory(json: Json): Json {
    match Messages(json)
    case Some(ms) => Obj(json.fields["messages" := Arr(MarkMessages(ms))])
    case None => json
  }

  function AnthropicRewrite(json: Json, blocks: seq<PromptBlock>): Json {
    if AnyCacheable(blocks) then MarkHistory(MarkSystem(json)) else json
  }

  /** `inject_anthropic` on a parsed body */
  method InjectAnthropic(body: Json, blocks: seq<PromptBlock>) returns (json: Json)
    ensures json == AnthropicRewrite(body, blocks)
  {
    json := body;
    var lastCacheable := LastCacheable(blocks);
    if lastCacheable.None? { return; }
    var system := Field(json, "system");
    if system.Some? {
      if system.value.Str? {
        var text := system.value.s;
        json := Obj(json.fields["system" := Marked(text)]);
      } else {
        assert json.fields == json.fields["system" := system.value];
      }
    }
    assert json == MarkSystem(body);
    var messages := Messages(json);
    if messages.Some? {
      var ms := messages.value;
      var n := |ms|;
      if n >= 2 {
        var content := Field(ms[n - 2], "content");
        if content.Some? && content.value.Str? {
          ms := ms[n - 2 := Obj(ms[n - 2].fields["content" := Marked(content.value.s)])];
        } else if content.Some? {
          assert ms[n - 2].fields == ms[n - 2].fields["content" := content.value];
        }
        assert ms == MarkMessages(messages.value);
      }
      json := Obj(json.fields["messages" := Arr(ms)]);
    }
  }

  // ---- Meaning is preserved ----

  /** The text a model reads in a content field: a string, or the text blocks of an array. */
  function TextOf(content: Json): string {
    match content
    case Str(s) => s
    case Arr(items) => BlockTexts(items)
    case _ => ""
  }

  function BlockTexts(items: seq<Json>): string {
    if items == [] then ""
    else
      (match (Field(items[0], "type"), Field(items[0], "text"))
       case (Some(Str(t)), Some(Str(s))) => if t == "text" then s else ""
       case _ => "")
      + BlockTexts(items[1..])
  }

  function FieldText(j: Json, key: string): string { TextOf(Field(j, key).GetOr(Null)) }

  lemma MarkedShape(text: string)
    ensures Marked(text).Arr? && |Marked(text).items| == 1
    ensures var block := Marked(text).items[0];
      && Field(block, "type") == Some(Str("text"))
      && Field(block, "text") == Some(Str(text))
      && Field(block, "cache_control") == Some(Obj(map["type" := Str("ephemeral")]))
  {
    assert "type"[1] != "text"[1];
    assert |"cache_control"| != |"text"|;
  }

  lemma MarkedText(text: string)
    ensures TextOf(Marked(text)) == text
  {
    MarkedShape(text);
    var items := Marked(text).items;
    assert items[1..] == [];
    assert BlockTexts(items) == text + BlockTexts(items[1..]);
  }

  lemma MarkKeepsText(j: Json)
    ensures TextOf(MarkIfText(j)) == TextOf(j)
  {
    if j.Str? { MarkedText(j.s); }
  }

  /** Same fields apart from one. */
  ghost predicate SameBut(a: Json, b: Json, key: string) {
    forall k :: k != key ==> Field(a, k) == Field(b, k)
  }

  lemma MarkMessageKeeps(msg: Json)
    ensures FieldText(MarkMessage(msg), "content") == FieldText(msg, "content")
    ensures SameBut(MarkMessage(msg), msg, "content")
    ensures Field(MarkMessage(msg), "content").None? <==> Field(msg, "content").None?
  {
    var content := Field(msg, "content");
    if content.Some? { MarkKeepsText(content.value); }
  }

  /** The rewrite preserves what the request says: the text of the system prompt and of every
      message, every other field of the body and of every message, and the number and order
      of messages are unchanged, and only the last but one message is touched at all. */
  lemma AnthropicKeepsMeaning(json: Json, blocks: seq<PromptBlock>)
    ensures var out := AnthropicRewrite(json, blocks);
      && FieldText(out, "system") == FieldText(json, "system")
      && (forall k :: k != "system" && k != "messages" ==> Field(out, k) == Field(json, k))
      && (Messages(json).None? ==> Messages(out).None? && Field(out, "messages") == Field(json, "messages"))
      && (Messages(json).Some? ==>
           && Messages(out).Some? && |Messages(out).value| == |Messages(json).value|
           && forall i :: 0 <= i < |Messages(json).value| ==>
                && FieldText(Messages(out).value[i], "content") == FieldText(Messages(json).value[i], "content")
                && SameBut(Messages(out).value[i], Messages(json).value[i], "content")
                && (i != |Messages(json).value| - 2 ==> Messages(out).value[i] == Messages(json).value[i]))
  {
    SystemKept(json);
    var mid := MarkSystem(json);
    HistoryKept(mid);
  }

  lemma SystemKept(json: Json)
    ensures FieldText(MarkSystem(json), "system") == FieldText(json, "system")
    ensures SameBut(MarkSystem(json), json, "system")
    ensures Messages(MarkSystem(json)) == Messages(json)
  {
    var system := Field(json, "system");
    if system.Some? { MarkKeepsText(system.value); }
  }

  lemma HistoryKept(json: Json)
    ensures SameBut(MarkHistory(json), json, "messages")
    ensures Messages(json).None? ==> MarkHistory(json) == json
    ensures Messages(json).Some? ==> Messages(MarkHistory(json)) == Some(MarkMessages(Messages(json).value))
    ensures Messages(json).Some? ==> var ms, r := Messages(json).value, MarkMessages(Messages(json).value);
      forall i :: 0 <= i < |ms| ==>
        && FieldText(r[i], "content") == FieldText(ms[i], "content") && SameBut(r[i], ms[i], "content")
        && (i != |ms| - 2 ==> r[i] == ms[i])
  {
    if Messages(json).Some? {
      var ms := Messages(json).value;
      if |ms| >= 2 { MarkMessageKeeps(ms[|ms| - 2]); }
    }
  }

  /** A text with a breakpoint, as it is sent. */
  predicate SentMarked(content: Option<Json>, text: string) {
    content == Some(Arr([Obj(map[
      "type" := Str("text"),
      "text" := Str(text),
      "cache_control" := Obj(map["type" := Str("ephemeral")])])]))
  }

  /** What is sent, spelled out: a plain system prompt and a plain last but one message become a
      single text block with an ephemeral cache control. */
  lemma AnthropicSends(json: Json, blocks: seq<PromptBlock>)
    requires exists b :: b in blocks && !b.kind.User?
    ensures var out, ms := AnthropicRewrite(json, blocks), Messages(json).GetOr([]);
      && (PlainText(Field(json, "system")) ==> SentMarked(Field(out, "system"), Field(json, "system").value.s))
      && (|ms| >= 2 && PlainText(Field(ms[|ms| - 2], "content")) ==>
           && Messages(out).Some? && |Messages(out).value| == |ms|
           && SentMarked(Field(Messages(out).value[|ms| - 2], "content"), Field(ms[|ms| - 2], "content").value.s))
  {
    var b :| b in blocks && !b.kind.User?;
    var i :| 0 <= i < |blocks| && blocks[i] == b;
    assert IsCacheable(blocks[i].kind);
    SystemKept(json);
    HistoryKept(MarkSystem(json));
  }

  // ---- Breakpoints ----

  function MarkedBlocks(items: seq<Json>): nat {
    if items == [] then 0
    else (if Field(items[0], "cache_control").Some? then 1 else 0) + MarkedBlocks(items[1..])
  }

  function ContentBreakpoints(j: Option<Json>): nat {
    match j
    case Some(Arr(items)) => MarkedBlocks(items)
    case _ => 0
  }

  function MessageBreakpoints(ms: seq<Json>): nat {
    if ms == [] then 0 else ContentBreakpoints(Field(ms[0], "content")) + MessageBreakpoints(ms[1..])
  }

  function Breakpoints(json: Json): nat {
    ContentBreakpoints(Field(json, "system")) + MessageBreakpoints(Messages(json).GetOr([]))
  }

  predicate PlainText(j: Option<Json>) { j.Some? && j.value.Str? }

  lemma {:induction false} MessageBreakpointsUpdate(ms: seq<Json>, i: nat, m: Json)
    requires i < |ms|
    ensures MessageBreakpoints(ms[i := m]) + ContentBreakpoints(Field(ms[i], "content"))
      == MessageBreakpoints(ms) + ContentBreakpoints(Field(m, "content"))
  {
    if i == 0 {
      assert ms[0 := m][1..] == ms[1..];
    } else {
      assert ms[i := m][1..] == ms[1..][i - 1 := m];
      MessageBreakpointsUpdate(ms[1..], i - 1, m);
    }
  }

  lemma MarkedOnce(j: Option<Json>)
    requires j.Some?
    ensures ContentBreakpoints(Some(MarkIfText(j.value))) == ContentBreakpoints(j) + (if PlainText(j) then 1 else 0)
  {
    if j.value.Str? {
      MarkedShape(j.value.s);
      var items := Marked(j.value.s).items;
      assert items[1..] == [];
      assert MarkedBlocks(items) == 1;
    }
  }

  lemma {:induction false} HistoryBreakpoints(ms: seq<Json>)
    ensures MessageBreakpoints(MarkMessages(ms)) ==
      MessageBreakpoints(ms) + (if |ms| >= 2 && PlainText(Field(ms[|ms| - 2], "content")) then 1 else 0)
  {
    if |ms| >= 2 {
      var i := |ms| - 2;
      MessageBreakpointsUpdate(ms, i, MarkMessage(ms[i]));
      if Field(ms[i], "content").Some? { MarkedOnce(Field(ms[i], "content")); }
    }
  }

  /** At most two breakpoints are added, one for a plain system prompt and one for a plain last
      but one message, and none if nothing is cacheable. */
  lemma BreakpointsAdded(json: Json, blocks: seq<PromptBlock>)
    ensures var ms := Messages(json).GetOr([]);
      Breakpoints(AnthropicRewrite(json, blocks)) == Breakpoints(json)
        + (if AnyCacheable(blocks) && PlainText(Field(json, "system")) then 1 else 0)
        + (if AnyCacheable(blocks) && |ms| >= 2 && PlainText(Field(ms[|ms| - 2], "content")) then 1 else 0)
  {
    SystemKept(json);
    HistoryKept(MarkSystem(json));
    HistoryBreakpoints(Messages(json).GetOr([]));
    if Field(json, "system").Some? { MarkedOnce(Field(json, "system")); }
  }

  // ---- Idempotence ----

  lemma MarkMessageTwice(msg: Json)
    ensures MarkMessage(MarkMessage(msg)) == MarkMessage(msg)
  {}

  lemma AnthropicIdempotent(json: Json, blocks: seq<PromptBlock>)
    ensures AnthropicRewrite(AnthropicRewrite(json, blocks), blocks) == AnthropicRewrite(json, blocks)
  {
    var mid := MarkSystem(json);
    var out := MarkHistory(mid);
    HistoryKept(mid);
    SystemKept(json);
    assert MarkSystem(out) == out;
    if Messages(mid).Some? {
      var ms := Messages(mid).value;
      if |ms| >= 2 { MarkMessageTwice(ms[|ms| - 2]); }
      assert MarkMessages(MarkMessages(ms)) == MarkMessages(ms);
    }
  }

  /** Bytes in, bytes out: a body that does not parse goes through untouched. */
  function InjectBody(
      parse: string -> Option<Json>, write: Json -> string, body: string, blocks: seq<PromptBlock>): string
  {
    match parse(body)
    case None => body
    case Some(json) => if AnyCacheable(blocks) then write(AnthropicRewrite(json, blocks)) else body
  }

  /** What goes out, in bytes: a body that parses comes out as its rewrite if something is cacheable;
      otherwise, and if it does not parse, it comes out untouched. */
  lemma InjectBodyRewrites(parse: string -> Option<Json>, write: Json -> string, body: string, blocks: seq<PromptBlock>)
    requires forall j :: parse(write(j)) == Some(j)
    ensures var out := InjectBody(parse, write, body, blocks);
      if parse(body).Some? && AnyCacheable(blocks)
      then parse(out) == Some(AnthropicRewrite(parse(body).value, blocks))
      else out == body
  {
    if parse(body).Some? && AnyCacheable(blocks) {
      var json := AnthropicRewrite(parse(body).value, blocks);
      assert parse(write(json)) == Some(json);
    }
  }

  lemma InjectBodyIdempotent(
      parse: string -> Option<Json>, write: Json -> string, body: string, blocks: seq<PromptBlock>)
    requires forall j :: parse(write(j)) == Some(j)
    ensures var out := InjectBody(parse, write, body, blocks);
      InjectBody(parse, write, out, blocks) == out
  {
    if parse(body).Some? { AnthropicIdempotent(parse(body).value, blocks); }
  }

  // ---- OpenAI ----

  /** `json[key] = v` goes through: serde_json panics on anything but an object or null. */
  predicate Assignable(j: Json) { j.Obj? || j.Null? }

  /** What the OpenAI rewrite promises; None is a panic. A `store` already there is kept, an absent
      one is set, and nothing else changes. */
  ghost predicate OnlyStoreSet(body: Json, out: Option<Json>) {
    && (out.Some? <==> Assignable(body))
    && (out.Some? ==>
         && SameBut(out.value, body, "store")
         && Field(out.value, "store") == Some(Field(body, "store").GetOr(Bool(true))))
  }

  /** `inject_openai` on a parsed body */
  method InjectOpenAI(body: Json) returns (json: Option<Json>)
    ensures OnlyStoreSet(body, json)
  {
    json := Some(body);
    if Field(body, "store").None? {
      json := IndexAssign(body, "store", Bool(true));
    }
  }

  lemma SameFields(a: Json, b: Json)
    requires a.Obj? && b.Obj? && forall k :: Field(a, k) == Field(b, k)
    ensures a == b
  {
    forall k ensures k in a.fields <==> k in b.fields { assert Field(a, k) == Field(b, k); }
    forall k | k in a.fields ensures a.fields[k] == b.fields[k] { assert Field(a, k) == Field(b, k); }
    assert a.fields == b.fields;
  }

  /** The promise pins the result down. */
  lemma OpenAIDetermined(body: Json, a: Option<Json>, b: Option<Json>)
    requires OnlyStoreSet(body, a) && OnlyStoreSet(body, b)
    ensures a == b
  {
    if a.Some? {
      forall k ensures Field(a.value, k) == Field(b.value, k) {
        if k != "store" { assert Field(a.value, k) == Field(body, k) == Field(b.value, k); }
      }
      assert Field(a.value, "store").Some? && Field(b.value, "store").Some?;
      SameFields(a.value, b.value);
    }
  }

  /** A second pass goes through and changes nothing. */
  lemma OpenAIIdempotent(body: Json, out: Json, again: Option<Json>)
    requires OnlyStoreSet(body, Some(out)) && OnlyStoreSet(out, again)
    ensures again == Some(out)
  {
    assert Field(out, "store").Some?;
    OpenAIDetermined(out, again, Some(out));
  }

  // ---- Bedrock ----

  const OPTIMIZED := Obj(map["latency" := Str("optimized")])
  const CACHE_POINT := Obj(map["type" := Str("default")])

  /** The message that gets the cache point: the index of the last cacheable block is used as an
      index into the messages. */
  function Target(body: Json, blocks: seq<PromptBlock>): Option<nat> {
    match (LastCacheable(blocks), Messages(body))
    case (Some(i), Some(ms)) => if i < |ms| then Some(i) else None
    case _ => None
  }

  /** What the Bedrock rewrite promises; None is a panic. Only `performanceConfig` and the target
      message's `cachePoint` are written. */
  ghost predicate OnlyPointSet(body: Json, target: Option<nat>, out: Option<Json>)
    requires target.Some? ==> Messages(body).Some? && target.value < |Messages(body).value|
  {
    && (out.Some? <==> Assignable(body) && (target.Some? ==> Assignable(Messages(body).value[target.value])))
    && (out.Some? ==>
         && SameBesides(out.value, body)
         && Field(out.value, "performanceConfig") == Some(Obj(map["latency" := Str("optimized")]))
         && (Messages(body).None? ==> Field(out.value, "messages") == Field(body, "messages"))
         && (Messages(body).Some? ==>
              Messages(out.value).Some? && PointedAt(Messages(body).value, target, Messages(out.value).value)))
  }

  ghost predicate SameBesides(out: Json, body: Json) {
    forall k :: k != "performanceConfig" && k != "messages" ==> Field(out, k) == Field(body, k)
  }

  ghost predicate PointedAt(ms: seq<Json>, target: Option<nat>, out: seq<Json>) {
    && |out| == |ms|
    && forall i :: 0 <= i < |ms| ==>
         if target != Some(i) then out[i] == ms[i]
         else
           && SameBut(out[i], ms[i], "cachePoint")
           && Field(out[i], "cachePoint") == Some(Obj(map["type" := Str("default")]))
  }

  /** `inject_bedrock` on a parsed body */
  method InjectBedrock(body: Json, blocks: seq<PromptBlock>) returns (out: Option<Json>)
    ensures OnlyPointSet(body, Target(body, blocks), out)
  {
    var configured := IndexAssign(body, "performanceConfig", OPTIMIZED);
    if configured.None? { return None; }
    var json := configured.value;
    assert Messages(json) == Messages(body);
    var breakpoint := LastCacheable(blocks);
    if breakpoint.Some? {
      var messages := Messages(json);
      if messages.Some? && breakpoint.value < |messages.value| {
        var ms := messages.value;
        var msg := IndexAssign(ms[breakpoint.value], "cachePoint", CACHE_POINT);
        if msg.None? { return None; }
        ms := ms[breakpoint.value := msg.value];
        assert PointedAt(messages.value, Target(body, blocks), ms);
        json := Obj(json.fields["messages" := Arr(ms)]);
      }
    }
    return Some(json);
  }

  lemma PointedOnce(ms: seq<Json>, target: Option<nat>, a: seq<Json>, b: seq<Json>)
    requires PointedAt(ms, target, a) && PointedAt(ms, target, b)
    ensures a == b
  {
    forall i | 0 <= i < |ms| ensures a[i] == b[i] {
      if target == Some(i) {
        forall k ensures Field(a[i], k) == Field(b[i], k) {
          if k != "cachePoint" { assert Field(a[i], k) == Field(ms[i], k) == Field(b[i], k); }
        }
        assert Field(a[i], "cachePoint").Some? && Field(b[i], "cachePoint").Some?;
        SameFields(a[i], b[i]);
      }
    }
  }

  /** The promise pins the result down. */
  lemma BedrockDetermined(body: Json, target: Option<nat>, a: Option<Json>, b: Option<Json>)
    requires target.Some? ==> Messages(body).Some? && target.value < |Messages(body).value|
    requires OnlyPointSet(body, target, a) && OnlyPointSet(body, target, b)
    ensures a == b
  {
    if a.Some? {
      var x, y := a.value, b.value;
      if Messages(body).Some? {
        PointedOnce(Messages(body).value, target, Messages(x).value, Messages(y).value);
        assert Field(x, "messages") == Some(Arr(Messages(x).value)) == Field(y, "messages");
      }
      forall k ensures Field(x, k) == Field(y, k) {
        if k != "performanceConfig" && k != "messages" { assert Field(x, k) == Field(body, k) == Field(y, k); }
      }
      assert Field(x, "performanceConfig").Some? && Field(y, "performanceConfig").Some?;
      SameFields(x, y);
    }
  }

  /** A second pass has the same target, goes through, and changes nothing. */
  lemma BedrockIdempotent(body: Json, blocks: seq<PromptBlock>, out: Json, again: Option<Json>)
    requires OnlyPointSet(body, Target(body, blocks), Some(out))
    requires OnlyPointSet(out, Target(out, blocks), again)
    ensures Target(out, blocks) == Target(body, blocks) && again == Some(out)
  {
    TargetKept(body, blocks, out);
    assert Field(out, "performanceConfig").Some?;
    if Target(out, blocks).Some? {
      var i := Target(out, blocks).value;
      assert Field(Messages(out).value[i], "cachePoint").Some?;
    }
    BedrockDetermined(out, Target(out, blocks), again, Some(out));
  }

  lemma TargetKept(body: Json, blocks: seq<PromptBlock>, out: Json)
    requires OnlyPointSet(body, Target(body, blocks), Some(out))
    ensures Target(out, blocks) == Target(body, blocks)
    ensures Messages(out).Some? <==> Messages(body).Some?
    ensures Messages(out).Some? ==> |Messages(out).value| == |Messages(body).value|
  {
    if Messages(body).None? { assert Field(out, "messages") == Field(body, "messages"); }
  }
}
