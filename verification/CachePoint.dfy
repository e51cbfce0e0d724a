/** Where the Bedrock cache point lands, when the blocks are those extracted from the same body. */
module CachePoint {
  import opened Seqs
  import opened Wrappers
  import opened Hasher
  import opened Json
  import opened Extraction
  import opened Provider

  /** The last message that is not volatile: a system or tool message, or a turn with a later turn
      (given whether a turn follows the list). */
  function LastStable(ms: seq<Json>, turnFollows: bool): Option<nat> {
    if ms == [] then None
    else
      var i := |ms| - 1;
      if IsHead(ms[i]) || (IsTurn(ms[i]) && turnFollows) then Some(i)
      else LastStable(ms[..i], turnFollows || IsTurn(ms[i]))
  }

  lemma EndsInTurn(front: seq<Json>, turn: Json, turnFollows: bool)
    requires IsTurn(turn)
    ensures LastStable(front + [turn], turnFollows) == if turnFollows then Some(|front|) else LastStable(front, true)
  {
    Roles();
    assert (front + [turn])[..|front|] == front;
  }

  lemma EndsInHead(front: seq<Json>, head: Json, turnFollows: bool)
    requires IsHead(head)
    ensures LastStable(front + [head], turnFollows) == Some(|front|)
  {}

  function HeadsEnd(heads: seq<Json>): Option<nat> { if heads == [] then None else Some(|heads| - 1) }

  lemma LastStableHeads(heads: seq<Json>, turnFollows: bool)
    requires forall m :: m in heads ==> IsHead(m)
    ensures LastStable(heads, turnFollows) == HeadsEnd(heads)
  {
    if heads != [] {
      var front, last := heads[..|heads| - 1], heads[|heads| - 1];
      assert heads == front + [last];
      EndsInHead(front, last, turnFollows);
    }
  }

  lemma EndsInTurns(front: seq<Json>, turn: Json, last: Json)
    requires IsTurn(turn) && IsTurn(last)
    ensures LastStable(front + [turn] + [last], false) == Some(|front|)
  {
    EndsInTurn(front + [turn], last, false);
    EndsInTurn(front, turn, true);
  }

  lemma TwoTurns(heads: seq<Json>, turns: seq<Json>)
    requires |turns| >= 2 && IsTurn(turns[|turns| - 2]) && IsTurn(turns[|turns| - 1])
    ensures LastStable(heads + turns, false) == Some(|heads| + |turns| - 2)
  {
    LastTwo(heads, turns);
    EndsInTurns(heads + turns[..|turns| - 2], turns[|turns| - 2], turns[|turns| - 1]);
  }

  lemma OneTurn(heads: seq<Json>, turns: seq<Json>)
    requires |turns| == 1 && IsTurn(turns[0]) && forall m :: m in heads ==> IsHead(m)
    ensures LastStable(heads + turns, false) == HeadsEnd(heads)
  {
    EndsInTurn(heads, turns[0], false);
    LastStableHeads(heads, true);
    assert turns == [turns[0]];
  }

  lemma LastStableHeadsFirst(heads: seq<Json>, turns: seq<Json>)
    requires (forall m :: m in heads ==> IsHead(m)) && (forall m :: m in turns ==> IsTurn(m))
    ensures LastStable(heads + turns, false) ==
      if |turns| >= 2 then Some(|heads| + |turns| - 2) else HeadsEnd(heads)
  {
    if |turns| >= 2 {
      assert turns[|turns| - 2] in turns && turns[|turns| - 1] in turns;
      TwoTurns(heads, turns);
    } else if |turns| == 1 {
      OneTurn(heads, turns);
    } else {
      LastStableHeads(heads, false);
      assert heads + turns == heads;
    }
  }

  lemma {:induction false} LastCacheableAt(front: seq<PromptBlock>, b: PromptBlock, back: seq<PromptBlock>)
    requires IsCacheable(b.kind) && forall i :: 0 <= i < |back| ==> !IsCacheable(back[i].kind)
    ensures LastCacheable(front + [b] + back) == Some(|front|)
  {
    var blocks := front + [b] + back;
    if back == [] {
      assert blocks[|blocks| - 1] == b;
    } else {
      assert blocks[|blocks| - 1] == back[|back| - 1];
      assert blocks[..|blocks| - 1] == front + [b] + back[..|back| - 1];
      LastCacheableAt(front, b, back[..|back| - 1]);
    }
  }

  lemma HeadsAreCacheable(ser: Serializer, ms: seq<Json>)
    ensures |HeadBlocks(ser, ms)| == |Filter(IsHead, ms)|
    ensures forall i :: 0 <= i < |HeadBlocks(ser, ms)| ==> IsCacheable(HeadBlocks(ser, ms)[i].kind)
  {}

  /** The block index that serves as the message index. */
  lemma LastCacheableOfOpenAI(ser: Serializer, ms: seq<Json>)
    ensures var h, t := |Filter(IsHead, ms)|, |Filter(IsTurn, ms)|;
      LastCacheable(OpenAIBlocks(ser, ms)) == if t >= 2 then Some(h) else if h > 0 then Some(h - 1) else None
  {
    var heads, tail := HeadBlocks(ser, ms), TailBlocks(ser, Filter(IsTurn, ms));
    HeadsAreCacheable(ser, ms);
    TailShape(ser, Filter(IsTurn, ms));
    if |tail| == 2 {
      LastCacheableAt(heads, tail[0], [tail[1]]);
      assert heads + [tail[0]] + [tail[1]] == heads + tail;
    } else {
      LastOfHeads(heads, tail);
    }
  }

  lemma TailShape(ser: Serializer, turns: seq<Json>)
    ensures var tail := TailBlocks(ser, turns);
      if |turns| >= 2 then |tail| == 2 && IsCacheable(tail[0].kind) && !IsCacheable(tail[1].kind)
      else |tail| == |turns| && forall i :: 0 <= i < |tail| ==> !IsCacheable(tail[i].kind)
  {}

  lemma LastOfHeads(heads: seq<PromptBlock>, tail: seq<PromptBlock>)
    requires forall i :: 0 <= i < |heads| ==> IsCacheable(heads[i].kind)
    requires forall i :: 0 <= i < |tail| ==> !IsCacheable(tail[i].kind)
    ensures LastCacheable(heads + tail) == if heads != [] then Some(|heads| - 1) else None
  {
    if heads != [] {
      var front, last := heads[..|heads| - 1], heads[|heads| - 1];
      assert front + [last] == heads;
      LastCacheableAt(front, last, tail);
    } else {
      assert heads + tail == tail;
      NoneCacheable(tail);
    }
  }

  lemma {:induction false} NoneCacheable(tail: seq<PromptBlock>)
    requires forall i :: 0 <= i < |tail| ==> !IsCacheable(tail[i].kind)
    ensures LastCacheable(tail) == None
  {
    if tail != [] { NoneCacheable(tail[..|tail| - 1]); }
  }

  lemma HeadsFirst(heads: seq<Json>, turns: seq<Json>)
    requires (forall m :: m in heads ==> IsHead(m)) && (forall m :: m in turns ==> IsTurn(m))
    ensures Filter(IsHead, heads + turns) == heads && Filter(IsTurn, heads + turns) == turns
  {
    Roles();
    FilterAppend(IsHead, heads, turns);
    FilterAppend(IsTurn, heads, turns);
    FilterAll(IsHead, heads);
    FilterAll(IsTurn, turns);
    FilterNone(IsTurn, heads);
    FilterNone(IsHead, turns);
  }

  // ---- Any order of messages ----

  /** What the last stable message is, told from the messages around it. */
  lemma {:induction false} LastStableIs(ms: seq<Json>, turnFollows: bool)
    ensures var last := LastStable(ms, turnFollows);
      && (last.None? ==> forall i :: 0 <= i < |ms| ==> !IsHead(ms[i]))
      && (last.Some? ==>
           && last.value < |ms| && (IsHead(ms[last.value]) || IsTurn(ms[last.value]))
           && forall i :: last.value < i < |ms| ==> !IsHead(ms[i]))
  {
    if ms != [] {
      var front, m := ms[..|ms| - 1], ms[|ms| - 1];
      if !IsHead(m) && !(IsTurn(m) && turnFollows) {
        LastStableIs(front, turnFollows || IsTurn(m));
        assert forall i :: 0 <= i < |ms| ==> ms[i] == if i < |front| then front[i] else m;
      }
    }
  }

  /** A turn that is stable has a later turn; with none stable there are none to spare. */
  lemma {:induction false} TurnsAround(ms: seq<Json>, turnFollows: bool)
    ensures var last, t := LastStable(ms, turnFollows), |Filter(IsTurn, ms)|;
      && (last.None? ==> t + (if turnFollows then 1 else 0) <= 1)
      && (last.Some? ==>
           last.value < |ms| && (IsHead(ms[last.value]) || t + (if turnFollows then 1 else 0) >= 2))
  {
    if ms != [] {
      var front, m := ms[..|ms| - 1], ms[|ms| - 1];
      assert ms == front + [m];
      FilterAppend(IsTurn, front, [m]);
      FilterOne(IsTurn, m);
      TurnsAround(front, turnFollows || IsTurn(m));
      LastStableIs(front, turnFollows || IsTurn(m));
    }
  }

  function NotHead(m: Json): bool { !IsHead(m) }

  lemma {:induction false} SplitCount(ms: seq<Json>)
    ensures |Filter(IsHead, ms)| + |Filter(NotHead, ms)| == |ms|
  {
    if ms != [] { SplitCount(ms[1..]); }
  }

  /** All system and tool messages are at or before the last stable message. */
  lemma HeadsUpTo(ms: seq<Json>, i: nat)
    requires i < |ms| && forall k :: i < k < |ms| ==> !IsHead(ms[k])
    ensures |Filter(IsHead, ms)| == |Filter(IsHead, ms[..i])| + (if IsHead(ms[i]) then 1 else 0)
  {
    var back := ms[i + 1..];
    assert ms == ms[..i] + [ms[i]] + back;
    FilterAppend(IsHead, ms[..i] + [ms[i]], back);
    FilterAppend(IsHead, ms[..i], [ms[i]]);
    FilterOne(IsHead, ms[i]);
    FilterNone(IsHead, back);
  }

  lemma TargetOfOpenAI(ser: Serializer, body: Json, ms: seq<Json>)
    requires Messages(body) == Some(ms)
    ensures var h, t := |Filter(IsHead, ms)|, |Filter(IsTurn, ms)|;
      Target(body, OpenAIBlocks(ser, ms)) == if t >= 2 then Some(h) else if h > 0 then Some(h - 1) else None
  {
    LastCacheableOfOpenAI(ser, ms);
    HeadsAndTurns(ms);
  }

  lemma {:induction false} HeadsAndTurns(ms: seq<Json>)
    ensures |Filter(IsHead, ms)| + |Filter(IsTurn, ms)| <= |ms|
  {
    Roles();
    if ms != [] { HeadsAndTurns(ms[1..]); }
  }

  /** How many messages other than system and tool stand before the last stable one, when the cache
      point lands on it. */
  function Expected(ms: seq<Json>, last: nat): nat
    requires last < |ms|
  {
    if IsHead(ms[last]) && |Filter(IsTurn, ms)| >= 2 then 1 else 0
  }

  /** Where the cache point lands, exactly. For every list of messages it lands on the last stable
      one if and only if there is none, or the number of messages other than system and tool before
      it is 1 if it is itself system or tool and there are at least two turns, and 0 otherwise. */
  lemma CachePointExactly(ser: Serializer, body: Json, ms: seq<Json>)
    requires Messages(body) == Some(ms)
    ensures var last := LastStable(ms, false);
      && (last.Some? ==> last.value < |ms|)
      && (Target(body, OpenAIBlocks(ser, ms)) == last <==>
           last.None? || |Filter(NotHead, ms[..last.value])| == Expected(ms, last.value))
  {
    TargetOfOpenAI(ser, body, ms);
    match LastStable(ms, false) {
      case Some(last) => CountsAround(ms, last);
      case None => NoneStable(ms);
    }
  }

  /** With h system and tool messages and t turns, the point is at h, or at h - 1 with t < 2. */
  lemma CountsAround(ms: seq<Json>, last: nat)
    requires LastStable(ms, false) == Some(last)
    ensures last < |ms|
    ensures var h, t := |Filter(IsHead, ms)|, |Filter(IsTurn, ms)|;
      && (t < 2 ==> h > 0)
      && (last == (if t >= 2 then h else h - 1) <==> |Filter(NotHead, ms[..last])| == Expected(ms, last))
  {
    LastStableIs(ms, false);
    TurnsAround(ms, false);
    HeadsUpTo(ms, last);
    SplitCount(ms[..last]);
  }

  lemma NoneStable(ms: seq<Json>)
    requires LastStable(ms, false) == None
    ensures |Filter(IsHead, ms)| == 0 && |Filter(IsTurn, ms)| < 2
  {
    LastStableIs(ms, false);
    TurnsAround(ms, false);
    FilterNone(IsHead, ms);
  }

  /** A tool result after an assistant turn: the cache point lands on the volatile last turn, one
      message before the last stable one. */
  lemma ToolResultMissed(ser: Serializer, body: Json, user: Json, assistant: Json, tool: Json)
    requires Role(user) == "user" && Role(assistant) == "assistant" && Role(tool) == "tool"
    requires Messages(body) == Some([user, assistant, tool])
    ensures Target(body, OpenAIBlocks(ser, [user, assistant, tool])) == Some(1)
    ensures LastStable([user, assistant, tool], false) == Some(2)
  {
    var ms := [user, assistant, tool];
    Roles();
    assert [user, assistant] + [tool] == ms;
    EndsInHead([user, assistant], tool, false);
    HeadsFirst([], [user, assistant]);
    assert [] + [user, assistant] == [user, assistant];
    FilterAppend(IsHead, [user, assistant], [tool]);
    FilterAppend(IsTurn, [user, assistant], [tool]);
    FilterOne(IsHead, tool);
    FilterOne(IsTurn, tool);
    TargetOfOpenAI(ser, body, ms);
  }

  /** In particular, in a conversation that opens with its system and tool messages, it lands on the
      last stable message if and only if there are at most two turns: all earlier turns are one
      block but several messages. */
  lemma CachePointPlaced(ser: Serializer, body: Json, heads: seq<Json>, turns: seq<Json>)
    requires Messages(body) == Some(heads + turns)
    requires (forall m :: m in heads ==> IsHead(m)) && (forall m :: m in turns ==> IsTurn(m))
    ensures Target(body, OpenAIBlocks(ser, heads + turns)) == LastStable(heads + turns, false) <==> |turns| <= 2
  {
    HeadsFirst(heads, turns);
    LastCacheableOfOpenAI(ser, heads + turns);
    LastStableHeadsFirst(heads, turns);
  }
}
