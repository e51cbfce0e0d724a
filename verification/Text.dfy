/** Text as the Rust standard library sees it: whitespace, trimming, splitting on
    whitespace, and the lexicographic order of strings. */
module Text {
  import opened Sorting

  /** `char::is_whitespace`: the Unicode White_Space property. */
  predicate IsWhite(c: char) {
    var u := c as int;
    || 0x09 <= u <= 0x0D || u == 0x20 || u == 0x85 || u == 0xA0 || u == 0x1680
    || 0x2000 <= u <= 0x200A || u == 0x2028 || u == 0x2029 || u == 0x202F
    || u == 0x205F || u == 0x3000
  }

  /** The 25 characters with that property. */
  lemma WhiteSpaceIs(c: char)
    ensures var all :=
        "\t\n\U{0B}\U{0C}\r \U{85}\U{A0}\U{1680}\U{2000}\U{2001}\U{2002}\U{2003}\U{2004}\U{2005}\U{2006}"
        + "\U{2007}\U{2008}\U{2009}\U{200A}\U{2028}\U{2029}\U{202F}\U{205F}\U{3000}";
      |all| == 25 && (IsWhite(c) <==> c in all)
  {}

  /** A word: what `split_whitespace` yields. */
  predicate IsWord(w: string) { w != "" && forall i :: 0 <= i < |w| ==> !IsWhite(w[i]) }

  predicate AllWords(ws: seq<string>) { forall i :: 0 <= i < |ws| ==> IsWord(ws[i]) }

  /** Length of the leading run without whitespace. */
  function WordLen(s: string): (n: nat)
    ensures n <= |s|
    ensures forall i :: 0 <= i < n ==> !IsWhite(s[i])
    ensures n < |s| ==> IsWhite(s[n])
  {
    if s == "" || IsWhite(s[0]) then 0 else 1 + WordLen(s[1..])
  }

  /** `split_whitespace` */
  function Tokens(s: string): (ws: seq<string>)
    ensures AllWords(ws)
  {
    if s == "" then []
    else if IsWhite(s[0]) then Tokens(s[1..])
    else [s[..WordLen(s)]] + Tokens(s[WordLen(s)..])
  }

  /** `join(sep)` */
  function JoinBy(ws: seq<string>, sep: string): string {
    if ws == [] then "" else if |ws| == 1 then ws[0] else ws[0] + sep + JoinBy(ws[1..], sep)
  }

  function Join(ws: seq<string>): string { JoinBy(ws, " ") }

  /** Whitespace normalisation: runs become one space, ends are stripped. */
  function Collapse(s: string): string { Join(Tokens(s)) }

  function TrimStart(s: string): string {
    if s != "" && IsWhite(s[0]) then TrimStart(s[1..]) else s
  }

  function TrimEnd(s: string): string {
    if s != "" && IsWhite(s[|s| - 1]) then TrimEnd(s[..|s| - 1]) else s
  }

  /** `trim` */
  function Trim(s: string): string { TrimEnd(TrimStart(s)) }

  /** The order of `String`: lexicographic. UTF-8 byte order is code point order. */
  predicate StrLe(a: string, b: string) {
    a == "" || (b != "" && (a[0] < b[0] || (a[0] == b[0] && StrLe(a[1..], b[1..]))))
  }

  lemma Assoc(a: string, b: string, c: string)
    ensures a + b + c == a + (b + c)
  {}

  // ---- Tokens ----

  lemma WordLenUnique(s: string, n: nat)
    requires n <= |s| && (forall i :: 0 <= i < n ==> !IsWhite(s[i]))
    requires n < |s| ==> IsWhite(s[n])
    ensures WordLen(s) == n
  {}

  /** Tokenisation is a homomorphism over a whitespace separator. */
  lemma {:induction false} TokensSep(a: string, w: char, b: string)
    requires IsWhite(w)
    ensures Tokens(a + [w] + b) == Tokens(a) + Tokens(b)
  {
    var s := a + [w] + b;
    if a == "" {
      assert s[1..] == b;
    } else if IsWhite(a[0]) {
      assert s[1..] == a[1..] + [w] + b;
      TokensSep(a[1..], w, b);
    } else {
      var n := WordLen(a);
      WordLenUnique(s, n);
      assert s[..n] == a[..n];
      assert s[n..] == a[n..] + [w] + b;
      TokensSep(a[n..], w, b);
    }
  }

  lemma TokensSnocWhite(a: string, w: char)
    requires IsWhite(w)
    ensures Tokens(a + [w]) == Tokens(a)
  {
    assert a + [w] + "" == a + [w];
    TokensSep(a, w, "");
  }

  /** A word glued to the front of a text. */
  lemma {:induction false} TokensGlue(x: string, s: string)
    requires IsWord(x)
    ensures Tokens(x + s) == [x + s[..WordLen(s)]] + Tokens(s[WordLen(s)..])
  {
    var n := WordLen(s);
    WordLenUnique(x + s, |x| + n);
    assert (x + s)[..|x| + n] == x + s[..n];
    assert (x + s)[|x| + n..] == s[n..];
  }

  lemma FirstToken(s: string)
    requires s != "" && !IsWhite(s[0])
    ensures Tokens(s) != [] && s == Tokens(s)[0] + s[WordLen(s)..]
  {
    assert s == s[..WordLen(s)] + s[WordLen(s)..];
  }

  lemma TokensOfWord(x: string)
    requires IsWord(x)
    ensures Tokens(x) == [x]
  {
    assert x + "" == x;
    TokensGlue(x, "");
  }

  /** Joining words with single spaces and splitting again is the identity. */
  lemma {:induction false} TokensJoin(ws: seq<string>)
    requires AllWords(ws)
    ensures Tokens(Join(ws)) == ws
  {
    if ws == [] {
    } else if |ws| == 1 {
      TokensOfWord(ws[0]);
    } else {
      TokensOfWord(ws[0]);
      TokensSep(ws[0], ' ', Join(ws[1..]));
      TokensJoin(ws[1..]);
    }
  }

  lemma JoinInjective(a: seq<string>, b: seq<string>)
    requires AllWords(a) && AllWords(b) && Join(a) == Join(b)
    ensures a == b
  {
    TokensJoin(a);
    TokensJoin(b);
  }

  lemma {:induction false} JoinAppend(a: seq<string>, b: seq<string>)
    requires a != [] && b != []
    ensures Join(a + b) == Join(a) + " " + Join(b)
  {
    if |a| == 1 {
      assert (a + b)[1..] == b;
    } else {
      assert (a + b)[1..] == a[1..] + b;
      JoinAppend(a[1..], b);
    }
  }

  /** Collapsing whitespace twice is collapsing it once. */
  lemma CollapseIdempotent(s: string)
    ensures Collapse(Collapse(s)) == Collapse(s)
  {
    TokensJoin(Tokens(s));
  }

  // ---- Trimming ----

  lemma {:induction false} TokensTrimStart(s: string)
    ensures Tokens(TrimStart(s)) == Tokens(s)
  {
    if s != "" && IsWhite(s[0]) { TokensTrimStart(s[1..]); }
  }

  lemma {:induction false} TokensTrimEnd(s: string)
    ensures Tokens(TrimEnd(s)) == Tokens(s)
  {
    if s != "" && IsWhite(s[|s| - 1]) {
      TokensTrimEnd(s[..|s| - 1]);
      assert s == s[..|s| - 1] + [s[|s| - 1]];
      TokensSnocWhite(s[..|s| - 1], s[|s| - 1]);
    }
  }

  lemma TokensTrim(s: string)
    ensures Tokens(Trim(s)) == Tokens(s)
  {
    TokensTrimStart(s);
    TokensTrimEnd(TrimStart(s));
  }

  /** Trimming touches only the outer ends of a text with a solid middle. */
  lemma {:induction false} TrimStartKeeps(p: string, x: string, q: string)
    requires IsWord(x)
    ensures TrimStart(p + x + q) == TrimStart(p) + x + q
  {
    if p != "" && IsWhite(p[0]) {
      assert (p + x + q)[1..] == p[1..] + x + q;
      TrimStartKeeps(p[1..], x, q);
    } else if p == "" {
      assert p + x + q == x + q;
      assert (x + q)[0] == x[0];
    } else {
      assert (p + x + q)[0] == p[0];
    }
  }

  lemma {:induction false} TrimEndKeeps(p: string, x: string, q: string)
    requires IsWord(x)
    ensures TrimEnd(p + x + q) == p + x + TrimEnd(q)
  {
    var s := p + x + q;
    if q == "" {
      assert s == p + x;
      assert s[|s| - 1] == x[|x| - 1];
    } else if IsWhite(q[|q| - 1]) {
      assert s[..|s| - 1] == p + x + q[..|q| - 1];
      TrimEndKeeps(p, x, q[..|q| - 1]);
    } else {
      assert s[|s| - 1] == q[|q| - 1];
    }
  }

  lemma {:induction false} TrimEndShape(s: string)
    ensures TrimEnd(s) <= s
    ensures TrimEnd(s) != "" ==> !IsWhite(TrimEnd(s)[|TrimEnd(s)| - 1])
    ensures s != "" && !IsWhite(s[0]) ==> TrimEnd(s) != ""
  {
    if s != "" && IsWhite(s[|s| - 1]) { TrimEndShape(s[..|s| - 1]); }
  }

  lemma {:induction false} TrimStartShape(s: string)
    ensures TrimStart(s) != "" ==> !IsWhite(TrimStart(s)[0])
  {
    if s != "" && IsWhite(s[0]) { TrimStartShape(s[1..]); }
  }

  /** What is trimmed starts and ends solid. */
  lemma TrimShape(s: string)
    ensures Trim(s) != "" ==> !IsWhite(Trim(s)[0]) && !IsWhite(Trim(s)[|Trim(s)| - 1])
  {
    TrimStartShape(s);
    TrimEndShape(TrimStart(s));
  }

  lemma TrimSolid(s: string)
    requires s != "" ==> !IsWhite(s[0]) && !IsWhite(s[|s| - 1])
    ensures Trim(s) == s
  {}

  lemma {:induction false} JoinShape(ws: seq<string>)
    requires AllWords(ws) && ws != []
    ensures Join(ws) != "" && !IsWhite(Join(ws)[0]) && !IsWhite(Join(ws)[|Join(ws)| - 1])
  {
    if |ws| > 1 {
      JoinShape(ws[1..]);
      var t := Join(ws[1..]);
      assert Join(ws) == ws[0] + " " + t;
    }
  }

  /** Normalised text has nothing left to trim. */
  lemma TrimJoin(ws: seq<string>)
    requires AllWords(ws)
    ensures Trim(Join(ws)) == Join(ws)
  {
    if ws != [] { JoinShape(ws); }
    TrimSolid(Join(ws));
  }

  // ---- Order ----

  lemma {:induction false} StrLeTotal(a: string, b: string)
    ensures StrLe(a, b) || StrLe(b, a)
    ensures StrLe(a, b) && StrLe(b, a) ==> a == b
  {
    if a != "" && b != "" && a[0] == b[0] {
      StrLeTotal(a[1..], b[1..]);
      assert a == [a[0]] + a[1..] && b == [b[0]] + b[1..];
    }
  }

  lemma {:induction false} StrLeTransitive(a: string, b: string, c: string)
    requires StrLe(a, b) && StrLe(b, c)
    ensures StrLe(a, c)
  {
    if a != "" && a[0] == b[0] && b[0] == c[0] { StrLeTransitive(a[1..], b[1..], c[1..]); }
  }

  lemma StrLeOrder()
    ensures TotalOrder(StrLe)
  {
    forall a: string, b: string ensures (StrLe(a, b) || StrLe(b, a)) && (StrLe(a, b) && StrLe(b, a) ==> a == b) {
      StrLeTotal(a, b);
    }
    forall a: string, b: string, c: string | StrLe(a, b) && StrLe(b, c) ensures StrLe(a, c) {
      StrLeTransitive(a, b, c);
    }
  }

  /** A common prefix does not affect the order. */
  lemma {:induction false} StrLePrefix(p: string, a: string, b: string)
    ensures StrLe(p + a, p + b) == StrLe(a, b)
  {
    if p == "" {
      assert p + a == a && p + b == b;
    } else {
      assert (p + a)[1..] == p[1..] + a && (p + b)[1..] == p[1..] + b;
      StrLePrefix(p[1..], a, b);
    }
  }
}
