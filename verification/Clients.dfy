/** The two client libraries' own canonical forms, compared with the sidecar's. */
module Clients {
  import opened Seqs
  import opened Sorting
  import opened Text
  import opened Markers
  import opened Canonical
  import opened ClientText

  /** The tagged sections of a document, in an order of theirs. */
  function SectionsBy(le: (string, string) -> bool, parts: seq<string>): seq<string>
    requires parts != []
  {
    SortBy(Map(Tag, parts[1..]), le)
  }

  /** `canonicalize` of dashboard/client.ts, for a notion of whitespace and an order of strings */
  function TypeScriptForm(white: Whitespace, le: (string, string) -> bool, kind: BlockKind, content: string): string {
    var trimmed := TrimBy(white, content);
    if kind == Document then
      var parts := Split(trimmed);
      var joined := TrimBy(white, JoinBy([parts[0]] + SectionsBy(le, parts), "\n"));
      Join(PiecesByRuns(white, joined))
    else
      Join(PiecesByRuns(white, trimmed))
  }

  function TypeScriptCanonicalize(kind: BlockKind, content: string): string {
    TypeScriptForm(JsWhite, Utf16Le, kind, content)
  }

  /** `_canonicalize` of dashboard/client.py */
  function PythonForm(white: Whitespace, kind: BlockKind, content: string): string {
    var trimmed := TrimBy(white, content);
    if kind == Document then
      var parts := Split(trimmed);
      Join(TokensBy(white, parts[0] + JoinBy(SectionsBy(StrLe, parts), "\n")))
    else
      Join(TokensBy(white, trimmed))
  }

  function PythonCanonicalize(kind: BlockKind, content: string): string { PythonForm(PyWhite, kind, content) }

  // ---- Characters that only one side takes for whitespace ----

  /** The form contains every solid character of a text, and of the others only spaces. */
  lemma TypeScriptChars(white: Whitespace, le: (string, string) -> bool, kind: BlockKind, s: string, c: char)
    requires c != ' ' && c !in MARKER
    ensures c in TypeScriptForm(white, le, kind, s) ==> !white(c)
    ensures c in s && !white(c) ==> c in TypeScriptForm(white, le, kind, s)
  {
    var trimmed := TrimBy(white, s);
    TrimChars(white, s, c);
    if kind == Document {
      var parts := Split(trimmed);
      var lines := [parts[0]] + SectionsBy(le, parts);
      SplitChars(trimmed, c);
      LinesChars(le, parts, c);
      JoinChars(lines, "\n", c);
      TrimChars(white, JoinBy(lines, "\n"), c);
      PieceFormChars(white, TrimBy(white, JoinBy(lines, "\n")), c);
    } else {
      PieceFormChars(white, trimmed, c);
    }
  }

  lemma PieceFormChars(white: Whitespace, s: string, c: char)
    requires c != ' '
    ensures c in Join(PiecesByRuns(white, s)) <==> c in s && !white(c)
  {
    PiecesChars(white, s, c);
    JoinChars(PiecesByRuns(white, s), " ", c);
  }

  lemma LinesChars(le: (string, string) -> bool, parts: seq<string>, c: char)
    requires parts != [] && c !in MARKER
    ensures Among(c, [parts[0]] + SectionsBy(le, parts)) <==> Among(c, parts)
  {
    AmongPlus(c, [parts[0]], SectionsBy(le, parts));
    AmongPlus(c, [parts[0]], parts[1..]);
    assert parts == [parts[0]] + parts[1..];
    SortedChars(parts[1..], le, c);
  }

  lemma PythonChars(white: Whitespace, kind: BlockKind, s: string, c: char)
    requires c != ' ' && white(c)
    ensures c !in PythonForm(white, kind, s)
  {
    var trimmed := TrimBy(white, s);
    var parts := Split(trimmed);
    var text := if kind == Document then parts[0] + JoinBy(SectionsBy(StrLe, parts), "\n") else trimmed;
    TokensChars(white, text, c);
    JoinChars(TokensBy(white, text), " ", c);
  }

  // ---- The TypeScript form ----

  /** All text of the lines comes from the parts, the markers and the line breaks. */
  lemma LinesAgree(white: Whitespace, le: (string, string) -> bool, s: string)
    requires Agrees(white, s) && Agrees(white, MARKER) && white('\n')
    ensures Agrees(white, JoinBy([Split(s)[0]] + SectionsBy(le, Split(s)), "\n"))
  {
    var parts := Split(s);
    var lines := [parts[0]] + SectionsBy(le, parts);
    forall c | c in JoinBy(lines, "\n") ensures white(c) == IsWhite(c) {
      JoinChars(lines, "\n", c);
      if c !in "\n" && c !in MARKER {
        LinesChars(le, parts, c);
        SplitChars(s, c);
      }
    }
  }

  /** Where whitespace agrees, the TypeScript document form is the preamble's words and then the
      sections' in its own order. */
  lemma TypeScriptWords(white: Whitespace, le: (string, string) -> bool, s: string)
    requires Agrees(white, s) && Agrees(white, MARKER) && white('\n')
    ensures TypeScriptForm(white, le, Document, s) ==
      Join(PreambleWords(s) + Flat(Map(Tokens, SectionsBy(le, Split(Trim(s))))))
  {
    TrimAgrees(white, s);
    var parts := Split(Trim(s));
    LinesAgree(white, le, Trim(s));
    PiecesOfTrimmed(white, JoinBy([parts[0]] + SectionsBy(le, parts), "\n"));
    TokensLines([parts[0]] + SectionsBy(le, parts));
    MapCons(parts[0], SectionsBy(le, parts));
  }

  lemma MapCons(x: string, xs: seq<string>)
    ensures Flat(Map(Tokens, [x] + xs)) == Tokens(x) + Flat(Map(Tokens, xs))
  {
    assert ([x] + xs)[1..] == xs;
  }

  lemma TypeScriptPlain(white: Whitespace, le: (string, string) -> bool, kind: BlockKind, s: string)
    requires kind != Document && Agrees(white, s)
    ensures TypeScriptForm(white, le, kind, s) == Canonicalize(kind, s)
  {
    PiecesOfTrimmed(white, s);
    TokensTrim(s);
  }

  /** With the sidecar's own whitespace and order, the TypeScript form is the sidecar's. */
  lemma SidecarAsTypeScript(kind: BlockKind, s: string)
    ensures TypeScriptForm(IsWhite, StrLe, kind, s) == Canonicalize(kind, s)
  {
    if kind == Document {
      TypeScriptWords(IsWhite, StrLe, s);
      DocumentNormalForm(s);
    } else {
      TypeScriptPlain(IsWhite, StrLe, kind, s);
    }
  }

  /** Word lists of sections can be read back from the form. */
  lemma SectionsInjective(pre: seq<string>, a: seq<seq<string>>, b: seq<seq<string>>)
    requires CleanWords(pre) && CleanGroups(a) && CleanGroups(b)
    requires Join(pre + Flat(a)) == Join(pre + Flat(b))
    ensures a == b
  {
    CanonicalPartsUnsplit(pre, a);
    CanonicalPartsUnsplit(pre, b);
    CanonicalPartsClean(pre, a);
    CanonicalPartsClean(pre, b);
    SplitUnsplit(CanonicalParts(pre, a));
    SplitUnsplit(CanonicalParts(pre, b));
    CanonicalPartsInjective(pre, a, pre, b);
  }

  lemma SectionsAreClean(le: (string, string) -> bool, s: string)
    ensures CleanGroups(Map(Tokens, SectionsBy(le, Split(s))))
  {
    var parts := Split(s);
    var sections := SectionsBy(le, parts);
    UnsplitSplit(s);
    forall i | 0 <= i < |sections| ensures CleanGroup(Tokens(sections[i])) {
      assert sections[i] in multiset(sections);
      assert sections[i] in Map(Tag, parts[1..]);
      var j :| 0 <= j < |parts| - 1 && Map(Tag, parts[1..])[j] == sections[i];
      assert parts[1..][j] == parts[j + 1];
      TaggedClean(parts[j + 1]);
    }
  }

  /** No character that JavaScript and Rust disagree about: U+0085 and U+FEFF. */
  ghost predicate JsNeutral(s: string) { forall c :: c in s ==> c as int !in {0x85, 0xFEFF} }

  /** Sorted by UTF-16 code units, the raw sections bring the same words in the same order. */
  ghost predicate SameSectionOrder(s: string) {
    Map(Tokens, SectionsBy(Utf16Le, Split(Trim(s)))) == SectionWords(s)
  }

  lemma JsForeign(kind: BlockKind, s: string, c: char)
    requires c in s && c as int in {0x85, 0xFEFF}
    ensures TypeScriptCanonicalize(kind, s) != Canonicalize(kind, s)
  {
    TypeScriptChars(JsWhite, Utf16Le, kind, s, c);
    TypeScriptChars(IsWhite, StrLe, kind, s, c);
    SidecarAsTypeScript(kind, s);
  }

  lemma JsAgrees(s: string)
    requires JsNeutral(s)
    ensures Agrees(JsWhite, s) && Agrees(JsWhite, MARKER) && JsWhite('\n')
  {}

  lemma TypeScriptDocument(s: string)
    requires JsNeutral(s)
    ensures TypeScriptCanonicalize(Document, s) == Canonicalize(Document, s) <==> SameSectionOrder(s)
  {
    var sections := Map(Tokens, SectionsBy(Utf16Le, Split(Trim(s))));
    JsAgrees(s);
    TypeScriptWords(JsWhite, Utf16Le, s);
    DocumentNormalForm(s);
    DocumentPartsClean(s);
    SectionsAreClean(Utf16Le, Trim(s));
    if TypeScriptCanonicalize(Document, s) == Canonicalize(Document, s) {
      SectionsInjective(PreambleWords(s), sections, SectionWords(s));
    }
  }

  /** The TypeScript form is the sidecar's if and only if the text has no character that only one of
      the two takes for whitespace and, for a document, its sections come in the same order by code
      units as by code points. */
  lemma TypeScriptAgreesExactly(kind: BlockKind, s: string)
    ensures TypeScriptCanonicalize(kind, s) == Canonicalize(kind, s)
      <==> JsNeutral(s) && (kind == Document ==> SameSectionOrder(s))
  {
    if JsNeutral(s) {
      if kind == Document {
        TypeScriptDocument(s);
      } else {
        JsAgrees(s);
        TypeScriptPlain(JsWhite, Utf16Le, kind, s);
      }
    } else {
      var c :| c in s && c as int in {0x85, 0xFEFF};
      JsForeign(kind, s, c);
    }
  }

  lemma TrimmedIn(s: string, c: char)
    requires c in Trim(s)
    ensures c in s
  {
    TrimChars(IsWhite, s, c);
    assert Agrees(IsWhite, s);
    TrimAgrees(IsWhite, s);
  }

  lemma SectionIn(s: string, x: string, c: char)
    requires x in Map(Tag, Split(s)[1..]) && c in x && c !in MARKER
    ensures c in s
  {
    var parts := Split(s);
    var i :| 0 <= i < |parts| - 1 && Map(Tag, parts[1..])[i] == x;
    assert c in parts[1 + i];
    SplitChars(s, c);
  }

  /** In particular wherever the text has no character beyond the basic plane, or none between the
      surrogates and its end. */
  lemma TypeScriptAgrees(kind: BlockKind, s: string)
    requires JsNeutral(s) && (NoAstral(s) || NoHighBmp(s))
    ensures TypeScriptCanonicalize(kind, s) == Canonicalize(kind, s)
  {
    var tagged := Map(Tag, Split(Trim(s))[1..]);
    forall x, y | x in tagged && y in tagged ensures Utf16Le(x, y) == StrLe(x, y) {
      forall c | c in x + y && c !in MARKER ensures c in s {
        SectionIn(Trim(s), if c in x then x else y, c);
        TrimmedIn(s, c);
      }
      SameOrder(x, y);
    }
    SortSame(tagged, Utf16Le, StrLe);
    TypeScriptAgreesExactly(kind, s);
  }

  // ---- The Python form ----

  /** No character that Python and Rust disagree about: U+001C to U+001F. */
  ghost predicate PyNeutral(s: string) { forall c :: c in s ==> !(0x1C <= c as int <= 0x1F) }

  lemma PyForeign(kind: BlockKind, s: string, c: char)
    requires c in s && 0x1C <= c as int <= 0x1F
    ensures PythonCanonicalize(kind, s) != Canonicalize(kind, s)
  {
    PythonChars(PyWhite, kind, s, c);
    TypeScriptChars(IsWhite, StrLe, kind, s, c);
    SidecarAsTypeScript(kind, s);
  }

  /** Two solid ends written next to each other merge into one word. */
  lemma {:induction false} TokensMerge(a: string, b: string)
    requires a != "" && b != "" && !IsWhite(a[|a| - 1]) && !IsWhite(b[0])
    ensures |Tokens(a + b)| == |Tokens(a)| + |Tokens(b)| - 1
    decreases |a|
  {
    if IsWhite(a[0]) {
      assert (a + b)[1..] == a[1..] + b;
      TokensMerge(a[1..], b);
    } else {
      var n := WordLen(a);
      if n == |a| {
        TokensGlue(a, b);
        TokensOfWord(a);
        FirstToken(b);
      } else {
        WordLenUnique(a + b, n);
        assert (a + b)[n..] == a[n..] + b;
        TokensMerge(a[n..], b);
      }
    }
  }

  /** A preamble that runs straight into the first source marker. */
  predicate PreambleTouches(s: string) {
    var parts := Split(Trim(s));
    |parts| > 1 && parts[0] != "" && !IsWhite(parts[0][|parts[0]| - 1])
  }

  lemma SortedNonEmpty(sections: seq<string>)
    requires sections != []
    ensures SortBy(Map(Tag, sections), StrLe) != []
    ensures var j := JoinBy(SortBy(Map(Tag, sections), StrLe), "\n"); j != "" && j[0] == '['
  {
    var sorted := SortBy(Map(Tag, sections), StrLe);
    assert sorted[0] in multiset(sorted);
    assert sorted[0] in Map(Tag, sections);
    var i :| 0 <= i < |sections| && Map(Tag, sections)[i] == sorted[0];
    assert MARKER[0] == '[';
  }

  lemma TokensGap(a: string, b: string)
    requires a != "" && IsWhite(a[|a| - 1])
    ensures Tokens(a + b) == Tokens(a) + Tokens(b)
  {
    var init, w := a[..|a| - 1], a[|a| - 1];
    assert a == init + [w];
    TokensSep(init, w, b);
    TokensSnocWhite(init, w);
  }

  /** Juxtaposition keeps the words apart exactly when one side is empty or there is a gap. */
  lemma TokensJuxtaposed(a: string, b: string)
    requires b != "" ==> !IsWhite(b[0])
    ensures Tokens(a + b) == Tokens(a) + Tokens(b) <==> (a == "" || b == "" || IsWhite(a[|a| - 1]))
  {
    if a == "" {
      assert a + b == b;
    } else if b == "" {
      assert a + b == a;
    } else if IsWhite(a[|a| - 1]) {
      TokensGap(a, b);
    } else {
      TokensMerge(a, b);
    }
  }

  /** What Python tokenises. */
  function Juxtaposed(s: string): string {
    var parts := Split(Trim(s));
    parts[0] + JoinBy(SectionsBy(StrLe, parts), "\n")
  }

  lemma PyAgrees(s: string)
    requires PyNeutral(s)
    ensures TrimBy(PyWhite, s) == Trim(s) && Agrees(PyWhite, Trim(s)) && Agrees(PyWhite, Juxtaposed(s))
  {
    assert Agrees(PyWhite, s);
    TrimAgrees(PyWhite, s);
    var parts := Split(Trim(s));
    var sections := SectionsBy(StrLe, parts);
    LinesAgree(PyWhite, StrLe, Trim(s));
    forall c | c in Juxtaposed(s) ensures PyWhite(c) == IsWhite(c) {
      assert Agrees(PyWhite, JoinBy([parts[0]] + sections, "\n"));
      JoinChars([parts[0]] + sections, "\n", c);
      AmongPlus(c, [parts[0]], sections);
      AmongOne(c, parts[0]);
      JoinChars(sections, "\n", c);
    }
  }

  lemma PythonTokens(s: string)
    requires PyNeutral(s)
    ensures PythonCanonicalize(Document, s) == Join(Tokens(Juxtaposed(s)))
  {
    PyAgrees(s);
    TokensAgree(PyWhite, Juxtaposed(s));
  }

  lemma PythonDocument(s: string)
    requires PyNeutral(s)
    ensures PythonCanonicalize(Document, s) == Canonicalize(Document, s) <==> !PreambleTouches(s)
  {
    var parts := Split(Trim(s));
    var sorted := SectionsBy(StrLe, parts);
    var text := JoinBy(sorted, "\n");
    PythonTokens(s);
    DocumentNormalForm(s);
    DocumentWordsAreWords(s);
    TokensLines(sorted);
    if |parts| > 1 { SortedNonEmpty(parts[1..]); }
    TokensJuxtaposed(parts[0], text);
    if PythonCanonicalize(Document, s) == Canonicalize(Document, s) {
      JoinInjective(Tokens(parts[0] + text), DocumentWords(s));
    }
  }

  /** The Python form is the sidecar's if and only if the text has no character that only Python takes
      for whitespace and, for a document, no preamble runs straight into a marker. */
  lemma PythonAgreesExactly(kind: BlockKind, s: string)
    ensures PythonCanonicalize(kind, s) == Canonicalize(kind, s)
      <==> PyNeutral(s) && (kind == Document ==> !PreambleTouches(s))
  {
    if PyNeutral(s) {
      if kind == Document {
        PythonDocument(s);
      } else {
        PyAgrees(s);
        TokensAgree(PyWhite, Trim(s));
      }
    } else {
      var c :| c in s && 0x1C <= c as int <= 0x1F;
      PyForeign(kind, s, c);
    }
  }
}
