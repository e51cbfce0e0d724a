/** Text as the client languages see it: the sidecar's whitespace functions for any notion of
    whitespace, and string order by UTF-16 code units. */
module ClientText {
  import opened Seqs
  import opened Sorting
  import opened Text
  import opened Markers
  import opened Canonical

  type Whitespace = char -> bool

  /** JavaScript's `\s`, which `trim` uses as well: U+FEFF is in it and U+0085 is not. */
  predicate JsWhite(c: char) { (IsWhite(c) && c as int != 0x85) || c as int == 0xFEFF }

  /** Python's `str.isspace`: the four information separators are in it. */
  predicate PyWhite(c: char) { IsWhite(c) || 0x1C <= c as int <= 0x1F }

  function WordLenBy(white: Whitespace, s: string): (n: nat)
    ensures n <= |s|
    ensures s != "" && !white(s[0]) ==> n > 0
  {
    if s == "" || white(s[0]) then 0 else 1 + WordLenBy(white, s[1..])
  }

  function TokensBy(white: Whitespace, s: string): seq<string>
    decreases |s|
  {
    if s == "" then []
    else if white(s[0]) then TokensBy(white, s[1..])
    else [s[..WordLenBy(white, s)]] + TokensBy(white, s[WordLenBy(white, s)..])
  }

  function TrimStartBy(white: Whitespace, s: string): (r: string)
    ensures |r| <= |s| && (s != "" && white(s[0]) ==> |r| < |s|)
  {
    if s != "" && white(s[0]) then TrimStartBy(white, s[1..]) else s
  }

  function TrimEndBy(white: Whitespace, s: string): string {
    if s != "" && white(s[|s| - 1]) then TrimEndBy(white, s[..|s| - 1]) else s
  }

  function TrimBy(white: Whitespace, s: string): string { TrimEndBy(white, TrimStartBy(white, s)) }

  lemma {:induction false} AfterWord(white: Whitespace, s: string)
    ensures var n := WordLenBy(white, s); n < |s| ==> white(s[n])
    ensures forall i :: 0 <= i < WordLenBy(white, s) ==> !white(s[i])
  {
    if s != "" && !white(s[0]) { AfterWord(white, s[1..]); }
  }

  /** JavaScript's `split(/\s+/)`: the pieces between whitespace runs, empty ones included. */
  function PiecesByRuns(white: Whitespace, s: string): (pieces: seq<string>)
    ensures pieces != []
    decreases |s|
  {
    var n := WordLenBy(white, s);
    if n == |s| then [s]
    else
      AfterWord(white, s);
      [s[..n]] + PiecesByRuns(white, TrimStartBy(white, s[n..]))
  }

  // ---- Where two notions of whitespace agree on a text ----

  ghost predicate Agrees(white: Whitespace, s: string) { forall c :: c in s ==> white(c) == IsWhite(c) }

  lemma AgreesPart(white: Whitespace, s: string, i: nat, j: nat)
    requires i <= j <= |s| && Agrees(white, s)
    ensures Agrees(white, s[i..j])
  {
    forall c | c in s[i..j] ensures white(c) == IsWhite(c) { assert c in s; }
  }

  lemma AgreesTail(white: Whitespace, s: string, i: nat)
    requires i <= |s| && Agrees(white, s)
    ensures Agrees(white, s[i..])
  {
    AgreesPart(white, s, i, |s|);
    assert s[i..|s|] == s[i..];
  }

  lemma AgreesFront(white: Whitespace, s: string, j: nat)
    requires j <= |s| && Agrees(white, s)
    ensures Agrees(white, s[..j])
  {
    AgreesPart(white, s, 0, j);
    assert s[0..j] == s[..j];
  }

  lemma {:induction false} WordLenAgrees(white: Whitespace, s: string)
    requires Agrees(white, s)
    ensures WordLenBy(white, s) == WordLen(s)
  {
    if s != "" {
      assert s[0] in s;
      AgreesTail(white, s, 1);
      WordLenAgrees(white, s[1..]);
    }
  }

  lemma {:induction false} TokensAgree(white: Whitespace, s: string)
    requires Agrees(white, s)
    ensures TokensBy(white, s) == Tokens(s)
    decreases |s|
  {
    if s != "" {
      assert s[0] in s;
      if IsWhite(s[0]) {
        AgreesTail(white, s, 1);
        TokensAgree(white, s[1..]);
      } else {
        WordLenAgrees(white, s);
        AgreesTail(white, s, WordLen(s));
        TokensAgree(white, s[WordLen(s)..]);
      }
    }
  }

  lemma {:induction false} TrimStartAgrees(white: Whitespace, s: string)
    requires Agrees(white, s)
    ensures TrimStartBy(white, s) == TrimStart(s) && Agrees(white, TrimStart(s))
  {
    if s != "" {
      assert s[0] in s;
      if IsWhite(s[0]) {
        AgreesTail(white, s, 1);
        TrimStartAgrees(white, s[1..]);
      }
    }
  }

  lemma {:induction false} TrimEndAgrees(white: Whitespace, s: string)
    requires Agrees(white, s)
    ensures TrimEndBy(white, s) == TrimEnd(s) && Agrees(white, TrimEnd(s))
  {
    if s != "" {
      assert s[|s| - 1] in s;
      if IsWhite(s[|s| - 1]) {
        AgreesFront(white, s, |s| - 1);
        TrimEndAgrees(white, s[..|s| - 1]);
      }
    }
  }

  lemma TrimAgrees(white: Whitespace, s: string)
    requires Agrees(white, s)
    ensures TrimBy(white, s) == Trim(s) && Agrees(white, Trim(s))
  {
    TrimStartAgrees(white, s);
    TrimEndAgrees(white, TrimStart(s));
  }

  predicate Solid(s: string) { s != "" && !IsWhite(s[0]) && !IsWhite(s[|s| - 1]) }

  lemma {:induction false} TrimStartSuffix(s: string)
    ensures |TrimStart(s)| <= |s| && TrimStart(s) == s[|s| - |TrimStart(s)|..]
  {
    if s != "" && IsWhite(s[0]) { TrimStartSuffix(s[1..]); }
  }

  lemma {:induction false} NotAllTrimmed(s: string)
    requires s != "" && !IsWhite(s[|s| - 1])
    ensures TrimStart(s) != ""
  {
    if IsWhite(s[0]) { NotAllTrimmed(s[1..]); }
  }

  lemma RestIsSolid(s: string)
    requires s != "" && !IsWhite(s[|s| - 1])
    ensures Solid(TrimStart(s))
  {
    NotAllTrimmed(s);
    TrimStartShape(s);
    TrimStartSuffix(s);
  }

  lemma {:induction false} PiecesOfSolid(white: Whitespace, s: string)
    requires Solid(s) && Agrees(white, s)
    ensures PiecesByRuns(white, s) == Tokens(s)
    decreases |s|
  {
    var n := WordLen(s);
    WordLenAgrees(white, s);
    if n == |s| {
      assert s[..n] == s && s[n..] == "";
    } else {
      AfterWord(white, s);
      AgreesTail(white, s, n);
      TrimStartAgrees(white, s[n..]);
      RestIsSolid(s[n..]);
      PiecesOfSolid(white, TrimStart(s[n..]));
      TokensTrimStart(s[n..]);
    }
  }

  lemma PiecesOfTrimmed(white: Whitespace, s: string)
    requires Agrees(white, s)
    ensures Join(PiecesByRuns(white, TrimBy(white, s))) == Join(Tokens(s))
  {
    TrimAgrees(white, s);
    TrimShape(s);
    TokensTrim(s);
    if Trim(s) != "" { PiecesOfSolid(white, Trim(s)); }
  }

  // ---- What becomes of a character ----

  lemma {:induction false} TrimStartChars(white: Whitespace, s: string, c: char)
    ensures c in TrimStartBy(white, s) ==> c in s
    ensures c in s && !white(c) ==> c in TrimStartBy(white, s)
  {
    if s != "" && white(s[0]) {
      TrimStartChars(white, s[1..], c);
      assert s == [s[0]] + s[1..];
    }
  }

  lemma {:induction false} TrimEndChars(white: Whitespace, s: string, c: char)
    ensures c in TrimEndBy(white, s) ==> c in s
    ensures c in s && !white(c) ==> c in TrimEndBy(white, s)
  {
    if s != "" && white(s[|s| - 1]) {
      TrimEndChars(white, s[..|s| - 1], c);
      assert s == s[..|s| - 1] + [s[|s| - 1]];
    }
  }

  lemma TrimChars(white: Whitespace, s: string, c: char)
    ensures c in TrimBy(white, s) ==> c in s
    ensures c in s && !white(c) ==> c in TrimBy(white, s)
  {
    TrimStartChars(white, s, c);
    TrimEndChars(white, TrimStartBy(white, s), c);
  }

  /** Some text of the list contains the character. */
  ghost predicate Among(c: char, xs: seq<string>) { exists i :: 0 <= i < |xs| && c in xs[i] }

  lemma AmongPlus(c: char, xs: seq<string>, ys: seq<string>)
    ensures Among(c, xs + ys) <==> Among(c, xs) || Among(c, ys)
  {
    if i :| 0 <= i < |xs| && c in xs[i] { assert c in (xs + ys)[i]; }
    if i :| 0 <= i < |ys| && c in ys[i] { assert c in (xs + ys)[|xs| + i]; }
    if i :| 0 <= i < |xs + ys| && c in (xs + ys)[i] {
      if i < |xs| { assert c in xs[i]; } else { assert c in ys[i - |xs|]; }
    }
  }

  lemma AmongOne(c: char, x: string)
    ensures Among(c, [x]) <==> c in x
  {
    if c in x { assert c in [x][0]; }
  }

  lemma {:induction false} JoinChars(xs: seq<string>, sep: string, c: char)
    ensures c in JoinBy(xs, sep) ==> c in sep || Among(c, xs)
    ensures Among(c, xs) ==> c in JoinBy(xs, sep)
  {
    if xs != [] {
      assert xs == [xs[0]] + xs[1..];
      AmongPlus(c, [xs[0]], xs[1..]);
      AmongOne(c, xs[0]);
      JoinChars(xs[1..], sep, c);
    }
  }

  lemma {:induction false} TokensChars(white: Whitespace, s: string, c: char)
    ensures Among(c, TokensBy(white, s)) <==> c in s && !white(c)
    decreases |s|
  {
    if s != "" {
      if white(s[0]) {
        TokensChars(white, s[1..], c);
        assert s == [s[0]] + s[1..];
      } else {
        var n := WordLenBy(white, s);
        AfterWord(white, s);
        TokensChars(white, s[n..], c);
        AmongPlus(c, [s[..n]], TokensBy(white, s[n..]));
        AmongOne(c, s[..n]);
        assert s == s[..n] + s[n..];
      }
    }
  }

  lemma {:induction false} PiecesChars(white: Whitespace, s: string, c: char)
    ensures Among(c, PiecesByRuns(white, s)) <==> c in s && !white(c)
    decreases |s|
  {
    var n := WordLenBy(white, s);
    AfterWord(white, s);
    if n == |s| {
      AmongOne(c, s);
    } else {
      var rest := TrimStartBy(white, s[n..]);
      TrimStartChars(white, s[n..], c);
      PiecesChars(white, rest, c);
      AmongPlus(c, [s[..n]], PiecesByRuns(white, rest));
      AmongOne(c, s[..n]);
      assert s == s[..n] + s[n..];
    }
  }

  lemma {:induction false} SplitChars(s: string, c: char)
    ensures Among(c, Split(s)) ==> c in s
    ensures c in s && c !in MARKER ==> Among(c, Split(s))
    decreases |s|
  {
    if MarkerAt(s, 0) {
      SplitChars(s[8..], c);
      AmongPlus(c, [""], Split(s[8..]));
      AmongOne(c, "");
      assert s == MARKER + s[8..];
    } else if s == "" {
      AmongOne(c, "");
    } else {
      var r := Split(s[1..]);
      SplitChars(s[1..], c);
      AmongPlus(c, [[s[0]] + r[0]], r[1..]);
      AmongOne(c, [s[0]] + r[0]);
      AmongPlus(c, [r[0]], r[1..]);
      AmongOne(c, r[0]);
      assert r == [r[0]] + r[1..];
      assert s == [s[0]] + s[1..];
    }
  }

  lemma SortedChars(parts: seq<string>, le: (string, string) -> bool, c: char)
    ensures var sections := SortBy(Map(Tag, parts), le);
      && (Among(c, sections) ==> c in MARKER || Among(c, parts))
      && (Among(c, parts) ==> Among(c, sections))
  {
    var tagged := Map(Tag, parts);
    var sections := SortBy(tagged, le);
    if i :| 0 <= i < |sections| && c in sections[i] {
      assert sections[i] in multiset(sections);
      assert sections[i] in tagged;
      var j :| 0 <= j < |parts| && tagged[j] == sections[i];
      assert c in MARKER || c in parts[j];
    }
    if j :| 0 <= j < |parts| && c in parts[j] {
      assert c in tagged[j] && tagged[j] in multiset(tagged);
      assert tagged[j] in sections;
      var i :| 0 <= i < |sections| && sections[i] == tagged[j];
    }
  }

  // ---- Order by UTF-16 code units ----

  /** The code units of a character: itself, or a surrogate pair. */
  function Units(c: char): seq<int> {
    var u := c as int;
    if u < 0x10000 then [u] else [0xD800 + (u - 0x10000) / 0x400, 0xDC00 + (u - 0x10000) % 0x400]
  }

  function Utf16(s: string): seq<int> { if s == "" then [] else Units(s[0]) + Utf16(s[1..]) }

  predicate UnitsLe(a: seq<int>, b: seq<int>) {
    a == [] || (b != [] && (a[0] < b[0] || (a[0] == b[0] && UnitsLe(a[1..], b[1..]))))
  }

  /** The order of JavaScript's `sort`. */
  predicate Utf16Le(a: string, b: string) { UnitsLe(Utf16(a), Utf16(b)) }

  predicate Astral(c: char) { c as int >= 0x10000 }

  /** A character above the surrogates: as a code unit it follows them, as a code point it precedes
      the characters they encode. */
  predicate HighBmp(c: char) { 0xE000 <= c as int < 0x10000 }

  ghost predicate NoAstral(s: string) { forall c :: c in s ==> !Astral(c) }

  ghost predicate NoHighBmp(s: string) { forall c :: c in s ==> !HighBmp(c) }

  lemma {:induction false} UnitsPrefix(p: seq<int>, a: seq<int>, b: seq<int>)
    ensures UnitsLe(p + a, p + b) == UnitsLe(a, b)
  {
    if p == [] {
      assert p + a == a && p + b == b;
    } else {
      assert (p + a)[1..] == p[1..] + a && (p + b)[1..] == p[1..] + b;
      UnitsPrefix(p[1..], a, b);
    }
  }

  lemma UnitsDecide(c: char, d: char, a: seq<int>, b: seq<int>)
    requires c != d && !((Astral(c) && HighBmp(d)) || (Astral(d) && HighBmp(c)))
    ensures UnitsLe(Units(c) + a, Units(d) + b) <==> c < d
  {
    var x, y := Units(c) + a, Units(d) + b;
    assert x[0] == Units(c)[0] && y[0] == Units(d)[0];
    if Astral(c) && Astral(d) {
      assert x[1..][0] == Units(c)[1] && y[1..][0] == Units(d)[1];
    }
  }

  lemma {:induction false} SameOrder(a: string, b: string)
    requires NoAstral(a + b) || NoHighBmp(a + b)
    ensures Utf16Le(a, b) == StrLe(a, b)
  {
    if a != "" && b != "" {
      assert a[0] in a + b && b[0] in a + b;
      if a[0] == b[0] {
        assert forall c :: c in a[1..] + b[1..] ==> c in a + b;
        UnitsPrefix(Units(a[0]), Utf16(a[1..]), Utf16(b[1..]));
        SameOrder(a[1..], b[1..]);
      } else {
        UnitsDecide(a[0], b[0], Utf16(a[1..]), Utf16(b[1..]));
      }
    }
  }

  lemma {:induction false} InsertSame<T>(x: T, xs: seq<T>, le: (T, T) -> bool, le': (T, T) -> bool)
    requires forall y :: y in xs ==> le(x, y) == le'(x, y)
    ensures Insert(x, xs, le) == Insert(x, xs, le')
  {
    if xs != [] {
      assert xs[0] in xs;
      InsertSame(x, xs[1..], le, le');
    }
  }

  /** Orders that agree on the elements sort them alike. */
  lemma {:induction false} SortSame<T>(xs: seq<T>, le: (T, T) -> bool, le': (T, T) -> bool)
    requires forall x, y :: x in xs && y in xs ==> le(x, y) == le'(x, y)
    ensures SortBy(xs, le) == SortBy(xs, le')
  {
    if xs != [] {
      var rest := SortBy(xs[1..], le);
      SortSame(xs[1..], le, le');
      forall y | y in rest ensures le(xs[0], y) == le'(xs[0], y) {
        assert y in multiset(rest);
        assert y in xs[1..];
      }
      InsertSame(xs[0], rest, le, le');
    }
  }
}
