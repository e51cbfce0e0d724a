/** When two request bodies share a cache key. */
module RequestKeys {
  import opened Seqs
  import opened Wrappers
  import opened Text
  import opened Canonical
  import opened Hasher
  import opened Json
  import opened Extraction
  import opened Provider

  type BlockForm = (BlockKind, string)

  /** At most one block of a kind. */
  function Optional(kind: BlockKind, text: Option<string>): seq<PromptBlock> {
    match text
    case Some(s) => [PromptBlock(kind, s)]
    case None => []
  }

  function FormOf(kind: BlockKind, canonical: Option<string>): seq<BlockForm> {
    match canonical
    case Some(c) => [(kind, c)]
    case None => []
  }

  function OptionalForm(kind: BlockKind, text: Option<string>): seq<BlockForm> {
    FormOf(kind, CanonicalText(kind, text))
  }

  function CanonicalText(kind: BlockKind, text: Option<string>): Option<string> {
    match text
    case Some(s) => Some(Canonicalize(kind, s))
    case None => None
  }

  lemma OptionalStable(kind: BlockKind, text: Option<string>)
    requires IsCacheable(kind)
    ensures StableForm(Optional(kind, text)) == OptionalForm(kind, text)
  {
    if text.Some? { assert Cacheable([PromptBlock(kind, text.value)]) == [PromptBlock(kind, text.value)]; }
  }

  lemma StableAppend(a: seq<PromptBlock>, b: seq<PromptBlock>)
    ensures StableForm(a + b) == StableForm(a) + StableForm(b)
  {
    CacheableAppend(a, b);
    MapAppend(Form, Cacheable(a), Cacheable(b));
  }

  /** The turns before the last, as they are hashed. */
  function History(ser: Serializer, turns: seq<Json>): Option<string> {
    if |turns| > 1 then Some(ser(Arr(turns[..|turns| - 1]))) else None
  }

  lemma TailStable(ser: Serializer, turns: seq<Json>)
    ensures StableForm(TailBlocks(ser, turns)) == OptionalForm(Document, History(ser, turns))
  {
    if turns != [] {
      var doc, last := Optional(Document, History(ser, turns)), [PromptBlock(User, ser(turns[|turns| - 1]))];
      assert TailBlocks(ser, turns) == doc + last;
      StableAppend(doc, last);
      OptionalStable(Document, History(ser, turns));
      assert Cacheable(last) == [];
    }
  }

  // ---- Anthropic ----

  /** What of an Anthropic body reaches the key: a system prompt given as a string, up to
      whitespace, the tools, up to whitespace, and the canonical messages before the last. */
  datatype AnthropicStable =
    AnthropicStable(system: Option<seq<string>>, tools: Option<seq<string>>, history: Option<string>)

  function Words(text: Option<string>): Option<seq<string>> {
    match text
    case Some(s) => Some(Tokens(s))
    case None => None
  }

  function SystemText(json: Json): Option<string> {
    match Field(json, "system")
    case Some(Str(s)) => Some(s)
    case _ => None
  }

  function ToolsText(ser: Serializer, json: Json): Option<string> {
    match Field(json, "tools")
    case Some(t) => Some(ser(t))
    case None => None
  }

  function StableOfAnthropic(ser: Serializer, json: Json): AnthropicStable {
    AnthropicStable(
      Words(SystemText(json)),
      Words(ToolsText(ser, json)),
      CanonicalText(Document, History(ser, Messages(json).GetOr([]))))
  }

  function AnthropicForm(ser: Serializer, json: Json): seq<BlockForm> {
    OptionalForm(System, SystemText(json)) + OptionalForm(Tools, ToolsText(ser, json))
      + OptionalForm(Document, History(ser, Messages(json).GetOr([])))
  }

  lemma AnthropicFormIs(ser: Serializer, json: Json)
    ensures StableForm(AnthropicBlocks(ser, json)) == AnthropicForm(ser, json)
  {
    var system, tools := Optional(System, SystemText(json)), Optional(Tools, ToolsText(ser, json));
    var turns := Messages(json).GetOr([]);
    assert SystemBlocks(json) == system && ToolBlocks(ser, json) == tools;
    StableAppend(system + tools, TailBlocks(ser, turns));
    StableAppend(system, tools);
    OptionalStable(System, SystemText(json));
    OptionalStable(Tools, ToolsText(ser, json));
    TailStable(ser, turns);
  }

  lemma WordsExact(kind: BlockKind, s: Option<string>, t: Option<string>)
    requires kind != Document
    ensures CanonicalText(kind, s) == CanonicalText(kind, t) <==> Words(s) == Words(t)
  {
    if s.Some? && t.Some? { PlainExact(kind, s.value, t.value); }
  }

  ghost predicate WithoutKind(kind: BlockKind, forms: seq<BlockForm>) {
    forall i :: 0 <= i < |forms| ==> forms[i].0 != kind
  }

  /** A block of one kind in front of blocks of other kinds can be told apart. */
  lemma FrontInjective(kind: BlockKind, c: Option<string>, x: seq<BlockForm>, c': Option<string>, x': seq<BlockForm>)
    requires WithoutKind(kind, x) && WithoutKind(kind, x')
    requires FormOf(kind, c) + x == FormOf(kind, c') + x'
    ensures c == c' && x == x'
  {
    var a, b := FormOf(kind, c), FormOf(kind, c');
    assert a != [] ==> (a + x)[0] == a[0];
    assert b != [] ==> (b + x')[0] == b[0];
    assert x == (a + x)[|a|..] && x' == (b + x')[|b|..];
  }

  lemma ThreeInjective(
      s: Option<string>, t: Option<string>, d: Option<string>,
      s': Option<string>, t': Option<string>, d': Option<string>)
    requires FormOf(System, s) + FormOf(Tools, t) + FormOf(Document, d)
      == FormOf(System, s') + FormOf(Tools, t') + FormOf(Document, d')
    ensures s == s' && t == t' && d == d'
  {
    var y, z, y', z' := FormOf(Tools, t), FormOf(Document, d), FormOf(Tools, t'), FormOf(Document, d');
    FormAssoc(FormOf(System, s), y, z);
    FormAssoc(FormOf(System, s'), y', z');
    AfterSystem(t, d);
    AfterSystem(t', d');
    FrontInjective(System, s, y + z, s', y' + z');
    FrontInjective(Tools, t, z, t', z');
    FormOfInjective(Document, d, d');
  }

  lemma AfterSystem(t: Option<string>, d: Option<string>)
    ensures WithoutKind(System, FormOf(Tools, t) + FormOf(Document, d))
  {}

  lemma FormAssoc(x: seq<BlockForm>, y: seq<BlockForm>, z: seq<BlockForm>)
    ensures x + y + z == x + (y + z)
  {}

  lemma FormOfInjective(kind: BlockKind, c: Option<string>, c': Option<string>)
    ensures FormOf(kind, c) == FormOf(kind, c') <==> c == c'
  {
    if c.Some? && c'.Some? { assert FormOf(kind, c)[0].1 == c.value && FormOf(kind, c')[0].1 == c'.value; }
  }

  lemma AnthropicFormInjective(ser: Serializer, a: Json, b: Json)
    ensures AnthropicForm(ser, a) == AnthropicForm(ser, b) <==> StableOfAnthropic(ser, a) == StableOfAnthropic(ser, b)
  {
    var ha, hb := History(ser, Messages(a).GetOr([])), History(ser, Messages(b).GetOr([]));
    if AnthropicForm(ser, a) == AnthropicForm(ser, b) {
      ThreeInjective(
        CanonicalText(System, SystemText(a)), CanonicalText(Tools, ToolsText(ser, a)), CanonicalText(Document, ha),
        CanonicalText(System, SystemText(b)), CanonicalText(Tools, ToolsText(ser, b)), CanonicalText(Document, hb));
    }
    WordsExact(System, SystemText(a), SystemText(b));
    WordsExact(Tools, ToolsText(ser, a), ToolsText(ser, b));
  }

  /** Two Anthropic bodies share a key if and only if they agree on those three parts, or texts
      hashed for the two collide. */
  lemma AnthropicKeyExactly(hash: HashFn, ser: Serializer, a: Json, b: Json) returns (x: string, y: string)
    ensures var ka, kb := Prefix(hash, AnthropicBlocks(ser, a)), Prefix(hash, AnthropicBlocks(ser, b));
      if StableOfAnthropic(ser, a) == StableOfAnthropic(ser, b) then ka == kb
      else ka == kb ==> KeysCollide(hash, AnthropicBlocks(ser, a), AnthropicBlocks(ser, b), x, y)
  {
    AnthropicFormIs(ser, a);
    AnthropicFormIs(ser, b);
    AnthropicFormInjective(ser, a, b);
    x, y := KeyExactness(hash, AnthropicBlocks(ser, a), AnthropicBlocks(ser, b));
  }

  /** A system prompt given as an array of blocks never reaches the key. */
  lemma SystemArrayUnseen(hash: HashFn, ser: Serializer, body: map<string, Json>, s: seq<Json>, t: seq<Json>)
    ensures Prefix(hash, AnthropicBlocks(ser, Obj(body["system" := Arr(s)])))
      == Prefix(hash, AnthropicBlocks(ser, Obj(body["system" := Arr(t)])))
  {
    var a, b := Obj(body["system" := Arr(s)]), Obj(body["system" := Arr(t)]);
    assert Field(a, "tools") == Field(b, "tools") && Messages(a) == Messages(b);
    var _, _ := AnthropicKeyExactly(hash, ser, a, b);
  }

  /** A second sidecar that extracts the blocks from the rewritten body itself changes nothing more. */
  lemma SecondSidecarChangesNothing(ser: Serializer, json: Json)
    ensures var out := AnthropicRewrite(json, AnthropicBlocks(ser, json));
      AnthropicRewrite(out, AnthropicBlocks(ser, out)) == out
  {
    var blocks := AnthropicBlocks(ser, json);
    var out := AnthropicRewrite(json, blocks);
    if AnyCacheable(blocks) { AnthropicIdempotent(json, blocks); }
  }

  // ---- OpenAI ----

  /** What of an OpenAI conversation reaches the key: its system and tool messages in order, and
      the canonical turns before the last. */
  datatype OpenAIStable = OpenAIStable(heads: seq<BlockForm>, history: Option<string>)

  function StableOfOpenAI(ser: Serializer, messages: seq<Json>): OpenAIStable {
    OpenAIStable(
      Map(Form, HeadBlocks(ser, messages)),
      CanonicalText(Document, History(ser, Filter(IsTurn, messages))))
  }

  lemma {:induction false} AllCacheable(blocks: seq<PromptBlock>)
    requires forall i :: 0 <= i < |blocks| ==> IsCacheable(blocks[i].kind)
    ensures Cacheable(blocks) == blocks
  {
    if blocks != [] { AllCacheable(blocks[1..]); }
  }

  lemma OpenAIFormIs(ser: Serializer, messages: seq<Json>)
    ensures StableForm(OpenAIBlocks(ser, messages)) ==
      Map(Form, HeadBlocks(ser, messages)) + OptionalForm(Document, History(ser, Filter(IsTurn, messages)))
  {
    StableAppend(HeadBlocks(ser, messages), TailBlocks(ser, Filter(IsTurn, messages)));
    AllCacheable(HeadBlocks(ser, messages));
    TailStable(ser, Filter(IsTurn, messages));
  }

  /** A document at the end can be told from the blocks before it. */
  lemma BackInjective(a: seq<BlockForm>, x: seq<BlockForm>, b: seq<BlockForm>, y: seq<BlockForm>)
    requires |x| <= 1 && |y| <= 1 && a + x == b + y
    requires forall i :: 0 <= i < |a| ==> a[i].0 != Document
    requires forall i :: 0 <= i < |b| ==> b[i].0 != Document
    requires forall i :: 0 <= i < |x| ==> x[i].0 == Document
    requires forall i :: 0 <= i < |y| ==> y[i].0 == Document
    ensures a == b && x == y
  {
    var u, v := a + x, b + y;
    assert x != [] ==> u[|u| - 1] == x[0];
    assert y != [] ==> v[|v| - 1] == y[0];
    assert a == u[..|a|] && b == v[..|b|];
  }

  lemma TwoInjective(f: seq<BlockForm>, h: Option<string>, f': seq<BlockForm>, h': Option<string>)
    requires forall i :: 0 <= i < |f| ==> f[i].0 != Document
    requires forall i :: 0 <= i < |f'| ==> f'[i].0 != Document
    ensures f + FormOf(Document, h) == f' + FormOf(Document, h') <==> f == f' && h == h'
  {
    if f + FormOf(Document, h) == f' + FormOf(Document, h') {
      BackInjective(f, FormOf(Document, h), f', FormOf(Document, h'));
      FormOfInjective(Document, h, h');
    }
  }

  lemma HeadForms(ser: Serializer, messages: seq<Json>)
    ensures var f := Map(Form, HeadBlocks(ser, messages)); forall i :: 0 <= i < |f| ==> f[i].0 != Document
  {}

  lemma OpenAIFormInjective(ser: Serializer, a: seq<Json>, b: seq<Json>)
    ensures StableForm(OpenAIBlocks(ser, a)) == StableForm(OpenAIBlocks(ser, b))
      <==> StableOfOpenAI(ser, a) == StableOfOpenAI(ser, b)
  {
    var ha, hb := History(ser, Filter(IsTurn, a)), History(ser, Filter(IsTurn, b));
    OpenAIFormIs(ser, a);
    OpenAIFormIs(ser, b);
    HeadForms(ser, a);
    HeadForms(ser, b);
    TwoInjective(
      Map(Form, HeadBlocks(ser, a)), CanonicalText(Document, ha),
      Map(Form, HeadBlocks(ser, b)), CanonicalText(Document, hb));
  }

  /** Two OpenAI conversations share a key if and only if they agree on those two parts, or texts
      hashed for the two collide. */
  lemma OpenAIKeyExactly(hash: HashFn, ser: Serializer, a: seq<Json>, b: seq<Json>) returns (x: string, y: string)
    ensures var ka, kb := Prefix(hash, OpenAIBlocks(ser, a)), Prefix(hash, OpenAIBlocks(ser, b));
      if StableOfOpenAI(ser, a) == StableOfOpenAI(ser, b) then ka == kb
      else ka == kb ==> KeysCollide(hash, OpenAIBlocks(ser, a), OpenAIBlocks(ser, b), x, y)
  {
    OpenAIFormInjective(ser, a, b);
    x, y := KeyExactness(hash, OpenAIBlocks(ser, a), OpenAIBlocks(ser, b));
  }

  /** A message of any other role never reaches the key. */
  lemma OtherRolesUnseen(ser: Serializer, before: seq<Json>, msg: Json, after: seq<Json>)
    requires !IsHead(msg) && !IsTurn(msg)
    ensures OpenAIBlocks(ser, before + [msg] + after) == OpenAIBlocks(ser, before + after)
  {
    FilterOne(IsHead, msg);
    FilterOne(IsTurn, msg);
    FilterAppend(IsTurn, before, [msg]);
    FilterAppend(IsHead, before, [msg]);
    FilterAppend(IsTurn, before + [msg], after);
    FilterAppend(IsTurn, before, after);
    FilterAppend(IsHead, before + [msg], after);
    FilterAppend(IsHead, before, after);
    assert Filter(IsTurn, before + [msg] + after) == Filter(IsTurn, before + after);
    assert Filter(IsHead, before + [msg] + after) == Filter(IsHead, before + after);
  }
}
