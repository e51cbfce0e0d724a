/** Concrete texts on which stronger claims fail: why documents need distinct ids, and where a
    client library differs. */
module TextWitnesses {
  import opened Seqs
  import opened Sorting
  import opened Text
  import opened Markers
  import opened Canonical
  import opened Idempotence
  import opened ClientText
  import opened Clients

  lemma PairWords(a: string, b: string)
    requires |a| < 8 && |b| < 8 && b != "" && !IsWhite(b[|b| - 1])
    ensures var d := Unsplit(["", a, b]);
      && PreambleWords(d) == [] && SectionWords(d) == Map(Tokens, SortBy([Tag(a), Tag(b)], StrLe))
      && Map(Tag, Split(Trim(d))[1..]) == [Tag(a), Tag(b)]
  {
    var d := Unsplit(["", a, b]);
    assert ["", a, b][1..] == [a, b] && [a, b][1..] == [b];
    assert Unsplit([a, b]) == a + MARKER + b;
    assert Unsplit([b]) == b;
    assert d == "" + MARKER + Unsplit([a, b]);
    assert d[0] == MARKER[0] == '[' && d[|d| - 1] == b[|b| - 1];
    TrimSolid(d);
    SplitUnsplit(["", a, b]);
    assert Map(Tag, [a, b]) == [Tag(a), Tag(b)];
  }

  /** A section body under the id 1, set off by a gap. */
  function One(gap: char, x: char): string { "1]" + [gap] + [x] }

  lemma SectionOf(gap: char, x: char)
    requires IsWhite(gap) && !IsWhite(x)
    ensures Tokens(Tag(One(gap, x))) == [Tag("1]"), [x]]
  {
    MarkerIsWord();
    assert Tag(One(gap, x)) == Tag("1]") + [gap] + [x];
    assert IsWord(Tag("1]")) && IsWord([x]);
    TokensSep(Tag("1]"), gap, [x]);
    TokensOfWord(Tag("1]"));
    TokensOfWord([x]);
  }

  lemma SectionOrder(v: char, x: char, w: char, y: char)
    requires x != y
    ensures StrLe(Tag(One(v, x)), Tag(One(w, y))) <==> v < w || (v == w && x < y)
  {
    StrLePrefix(MARKER + "1]", [v] + [x], [w] + [y]);
    assert Tag(One(v, x)) == MARKER + "1]" + ([v] + [x]);
    assert Tag(One(w, y)) == MARKER + "1]" + ([w] + [y]);
    assert ([v] + [x])[1..] == [x] && ([w] + [y])[1..] == [y];
  }

  lemma SameWordsEitherWay(p: string, x: string)
    ensures Tokens(p + " " + x) == Tokens(p + "\t" + x)
  {
    TokensSep(p, ' ', x);
    TokensSep(p, '\t', x);
  }

  /** Two sources under the id 1, the second body set off by the given gap. */
  function TwoOnes(gap: char): string { Unsplit(["", One(' ', 'a'), One(gap, 'b')]) }

  lemma TwoOnesText(gap: char)
    ensures TwoOnes(gap) == MARKER + One(' ', 'a') + MARKER + "1]" + [gap] + "b"
  {
    var a, b := One(' ', 'a'), One(gap, 'b');
    assert ["", a, b][1..] == [a, b] && [a, b][1..] == [b];
    assert Unsplit([a, b]) == a + MARKER + b;
    assert TwoOnes(gap) == "" + MARKER + Unsplit([a, b]);
  }

  lemma TwoSorted(a: string, b: string)
    ensures SortBy([a, b], StrLe) == if StrLe(a, b) then [a, b] else [b, a]
  {
    assert [a, b][1..] == [b] && [b][1..] == [];
    assert SortBy([b], StrLe) == Insert(b, [], StrLe) == [b];
    assert SortBy([a, b], StrLe) == Insert(a, [b], StrLe);
    assert Insert(a, [], StrLe) == [a];
  }

  lemma MapTwo(a: string, b: string)
    ensures Map(Tokens, [a, b]) == [Tokens(a), Tokens(b)]
  {}

  lemma PairOrdered(a: string, b: string)
    requires |a| < 8 && |b| < 8 && b != "" && !IsWhite(b[|b| - 1])
    ensures PreambleWords(Unsplit(["", a, b])) == []
    ensures SectionWords(Unsplit(["", a, b])) ==
      if StrLe(Tag(a), Tag(b)) then [Tokens(Tag(a)), Tokens(Tag(b))] else [Tokens(Tag(b)), Tokens(Tag(a))]
  {
    PairWords(a, b);
    TwoSorted(Tag(a), Tag(b));
    MapTwo(Tag(a), Tag(b));
    MapTwo(Tag(b), Tag(a));
  }

  /** The first section is the one whose raw text sorts first. */
  lemma SpaceKeepsOrder()
    ensures SectionWords(TwoOnes(' ')) == [[Tag("1]"), ['a']], [Tag("1]"), ['b']]]
  {
    PairOrdered(One(' ', 'a'), One(' ', 'b'));
    SectionOrder(' ', 'a', ' ', 'b');
    SectionOf(' ', 'a');
    SectionOf(' ', 'b');
  }

  lemma TabSwapsOrder()
    ensures SectionWords(TwoOnes('\t')) == [[Tag("1]"), ['b']], [Tag("1]"), ['a']]]
    ensures PreambleWords(TwoOnes('\t')) == []
  {
    PairOrdered(One(' ', 'a'), One('\t', 'b'));
    SectionOrder(' ', 'a', '\t', 'b');
    SectionOf(' ', 'a');
    SectionOf('\t', 'b');
  }

  /** With an id used twice, a tab in place of a space is enough to change the canonical form:
      sections are ordered on their raw text. */
  lemma DuplicateIdsDrift()
    ensures Tokens(TwoOnes(' ')) == Tokens(TwoOnes('\t'))
    ensures Canonicalize(Document, TwoOnes(' ')) != Canonicalize(Document, TwoOnes('\t'))
  {
    TwoOnesText(' ');
    TwoOnesText('\t');
    SameWordsEitherWay(MARKER + One(' ', 'a') + MARKER + "1]", "b");
    SpaceKeepsOrder();
    TabSwapsOrder();
    assert SectionWords(TwoOnes(' '))[0][1] != SectionWords(TwoOnes('\t'))[0][1];
    DocumentExact(TwoOnes(' '), TwoOnes('\t'));
  }

  // ---- Canonicalising twice ----

  lemma TwoFlat(g: seq<string>, h: seq<string>)
    ensures Flat([g, h]) == g + h
  {
    assert [g, h][1..] == [h] && [h][1..] == [];
    assert Flat([h]) == h;
  }

  lemma JoinTwo(t: string, x: string)
    ensures Join([t, x]) == t + " " + x
  {
    assert [t, x][1..] == [x];
    assert JoinBy([x], " ") == x;
  }

  lemma ListedPair(t: string, x: string, y: string)
    ensures Listed([[t, x], [t, y]]) == [t + " " + x + " ", t + " " + y]
  {
    JoinTwo(t, x);
    JoinTwo(t, y);
  }

  lemma LaterFirst(t: string)
    ensures SortBy([t + " " + "b" + " ", t + " " + "a"], StrLe) == [t + " " + "a", t + " " + "b" + " "]
  {
    TwoSorted(t + " " + "b" + " ", t + " " + "a");
    assert t + " " + "b" + " " == t + " " + "b ";
    StrLePrefix(t + " ", "b ", "a");
  }

  lemma SpacedWords(t: string, x: string)
    requires IsWord(t) && IsWord(x)
    ensures Tokens(t + " " + x) == [t, x] && Tokens(t + " " + x + " ") == [t, x]
  {
    TokensOfWord(t);
    TokensOfWord(x);
    TokensSep(t, ' ', x);
    TokensSnocWhite(t + " " + x, ' ');
  }

  lemma PairForm(d: string, t: string, x: string, y: string)
    requires PreambleWords(d) == [] && SectionWords(d) == [[t, x], [t, y]]
    ensures Canonicalize(Document, d) == Join([t, x, t, y])
  {
    DocumentNormalForm(d);
    TwoFlat([t, x], [t, y]);
    assert [] + ([t, x] + [t, y]) == [t, x, t, y];
  }

  /** The second pass on a document whose two sections come out in the wrong order. */
  lemma NextPassSwaps(d: string, t: string, x: string, y: string)
    requires IsWord(t) && IsWord(x) && IsWord(y)
    requires PreambleWords(d) == [] && SectionWords(d) == [[t, y], [t, x]]
    requires SortBy([t + " " + y + " ", t + " " + x], StrLe) == [t + " " + x, t + " " + y + " "]
    ensures var c := Canonicalize(Document, d);
      PreambleWords(c) == [] && SectionWords(c) == [[t, x], [t, y]]
  {
    NextPass(d);
    ListedPair(t, y, x);
    MapTwo(t + " " + x, t + " " + y + " ");
    SpacedWords(t, x);
    SpacedWords(t, y);
  }

  /** Documents are not idempotent in general: the first pass puts b before a, because a tab
      sorts before a space, and the second puts a before b. */
  lemma SecondPassSwaps()
    ensures var t, c := Tag("1]"), Canonicalize(Document, TwoOnes('\t'));
      && c == Join([t, "b", t, "a"])
      && Canonicalize(Document, c) == Join([t, "a", t, "b"]) != c
  {
    TagIsWord();
    TabSwapsOrder();
    SwapsTwice(TwoOnes('\t'), Tag("1]"));
  }

  lemma SwapsTwice(d: string, t: string)
    requires IsWord(t) && PreambleWords(d) == [] && SectionWords(d) == [[t, "b"], [t, "a"]]
    ensures var c := Canonicalize(Document, d);
      c == Join([t, "b", t, "a"]) && Canonicalize(Document, c) == Join([t, "a", t, "b"]) != c
  {
    LaterFirst(t);
    SwapsPair(d, t, "a", "b");
  }

  lemma SwapsPair(d: string, t: string, x: string, y: string)
    requires IsWord(t) && IsWord(x) && IsWord(y) && x != y
    requires PreambleWords(d) == [] && SectionWords(d) == [[t, y], [t, x]]
    requires SortBy([t + " " + y + " ", t + " " + x], StrLe) == [t + " " + x, t + " " + y + " "]
    ensures var c := Canonicalize(Document, d);
      c == Join([t, y, t, x]) && Canonicalize(Document, c) == Join([t, x, t, y]) != c
  {
    NextPassSwaps(d, t, x, y);
    PairForm(d, t, y, x);
    PairForm(Canonicalize(Document, d), t, x, y);
    SwappedDiffer(t, x, y);
  }

  lemma SwappedDiffer(t: string, x: string, y: string)
    requires IsWord(t) && IsWord(x) && IsWord(y) && x != y
    ensures Join([t, x, t, y]) != Join([t, y, t, x])
  {
    SameJoin([t, y, t, x], [t, x, t, y]);
    assert [t, y, t, x][1] != [t, x, t, y][1];
  }

  lemma TagIsWord()
    ensures IsWord(Tag("1]"))
  {
    MarkerIsWord();
  }

  lemma SameJoin(a: seq<string>, b: seq<string>)
    requires AllWords(a) && AllWords(b)
    ensures Join(a) == Join(b) <==> a == b
  {
    TokensJoin(a);
    TokensJoin(b);
  }

  // ---- The Python client ----

  lemma TouchingParts()
    ensures Trim("a[SOURCE:1]") == "a[SOURCE:1]" && Split("a[SOURCE:1]") == ["a", "1]"]
  {
    var d := "a[SOURCE:1]";
    assert ["a", "1]"][1..] == ["1]"];
    assert Unsplit(["1]"]) == "1]";
    assert d == "a" + MARKER + "1]";
    TrimSolid(d);
    SplitUnsplit(["a", "1]"]);
  }

  lemma OneSorted()
    ensures SortBy(Map(Tag, ["1]"]), StrLe) == [Tag("1]")]
  {
    assert ["1]"][1..] == [] && [Tag("1]")][1..] == [];
    assert Map(Tag, ["1]"]) == [Tag("1]")];
  }

  lemma OneFlat(g: seq<string>)
    ensures Flat([g]) == g
  {
    assert [g][1..] == [];
  }

  /** A preamble that runs straight into a marker: the sidecar separates them, Python does not. */
  lemma PythonJoinsPreamble()
    ensures PythonCanonicalize(Document, "a[SOURCE:1]") == "a[SOURCE:1]"
    ensures Canonicalize(Document, "a[SOURCE:1]") == "a [SOURCE:1]"
  {
    var d := "a[SOURCE:1]";
    TouchingParts();
    assert ["a", "1]"][1..] == ["1]"];
    OneSorted();
    PythonSide(d);
    SidecarSide(d);
  }

  lemma PythonSide(d: string)
    requires d == "a[SOURCE:1]" && Split(Trim(d)) == ["a"] + ["1]"]
    requires SortBy(Map(Tag, ["1]"]), StrLe) == [Tag("1]")]
    ensures PythonCanonicalize(Document, d) == d
  {
    OneJuxtaposed(d, "a", "1]");
    Touching();
    NeutralWord(d);
    PythonTokens(d);
    TokensOfWord(d);
  }

  lemma Touching()
    ensures "a" + Tag("1]") == "a[SOURCE:1]"
  {}

  lemma NeutralWord(d: string)
    requires d == "a[SOURCE:1]"
    ensures IsWord(d) && PyNeutral(d)
  {}

  lemma OneJuxtaposed(d: string, p: string, x: string)
    requires Split(Trim(d)) == [p] + [x] && SortBy(Map(Tag, [x]), StrLe) == [Tag(x)]
    ensures Juxtaposed(d) == p + Tag(x)
  {
    assert ([p] + [x])[1..] == [x];
  }

  lemma Spelled()
    ensures "a" + " " + Tag("1]") == "a [SOURCE:1]"
  {}

  lemma SidecarSide(d: string)
    requires d == "a[SOURCE:1]" && Split(Trim(d)) == ["a"] + ["1]"]
    requires SortBy(Map(Tag, ["1]"]), StrLe) == [Tag("1]")]
    ensures Canonicalize(Document, d) == "a [SOURCE:1]"
  {
    var t := Tag("1]");
    TagIsWord();
    OneSection(d, "a", "1]");
    OneForm(d, "a", t);
    Spelled();
  }

  lemma OneSection(d: string, p: string, x: string)
    requires IsWord(p) && IsWord(Tag(x)) && Split(Trim(d)) == [p] + [x]
    requires SortBy(Map(Tag, [x]), StrLe) == [Tag(x)]
    ensures PreambleWords(d) == [p] && SectionWords(d) == [[Tag(x)]]
  {
    assert ([p] + [x])[1..] == [x];
    TokensOfWord(Tag(x));
    TokensOfWord(p);
    MapOne(Tag(x));
  }

  lemma OneForm(d: string, p: string, t: string)
    requires PreambleWords(d) == [p] && SectionWords(d) == [[t]]
    ensures Canonicalize(Document, d) == p + " " + t
  {
    DocumentNormalForm(d);
    OneFlat([t]);
    assert [p] + [t] == [p, t];
    JoinTwo(p, t);
  }

  lemma MapOne(a: string)
    ensures Map(Tokens, [a]) == [Tokens(a)]
  {}

  // ---- The TypeScript client ----

  /** Two sources whose ids are a full-width exclamation mark and an emoji. */
  function TwoPlanes(): string { Unsplit(["", "\U{FF01}]", "\U{1F600}]"]) }

  lemma PlanesOrder(a: string, b: string)
    requires a == "\U{FF01}]" && b == "\U{1F600}]"
    ensures StrLe(Tag(a), Tag(b)) && !Utf16Le(Tag(a), Tag(b)) && Tag(a) != Tag(b)
  {
    assert Tag(a)[8] == a[0] != b[0] == Tag(b)[8];
    StrLePrefix(MARKER, a, b);
    Utf16Plus(MARKER, a);
    Utf16Plus(MARKER, b);
    UnitsPrefix(Utf16(MARKER), Utf16(a), Utf16(b));
    assert Utf16(a)[0] == 0xFF01 && Utf16(b)[0] == 0xD83D;
  }

  lemma {:induction false} Utf16Plus(p: string, s: string)
    ensures Utf16(p + s) == Utf16(p) + Utf16(s)
  {
    if p == "" {
      assert p + s == s;
    } else {
      assert (p + s)[1..] == p[1..] + s;
      Utf16Plus(p[1..], s);
    }
  }

  lemma SwappedPair(a: string, b: string)
    requires !Utf16Le(a, b)
    ensures SortBy([a, b], Utf16Le) == [b, a]
  {
    assert [a, b][1..] == [b] && [b][1..] == [];
    assert SortBy([b], Utf16Le) == Insert(b, [], Utf16Le) == [b];
    assert SortBy([a, b], Utf16Le) == Insert(a, [b], Utf16Le);
    assert Insert(a, [], Utf16Le) == [a];
  }

  lemma PlanesWord(a: string)
    requires IsWord(a)
    ensures Tokens(Tag(a)) == [Tag(a)]
  {
    MarkerIsWord();
    TokensOfWord(Tag(a));
  }

  /** Sorted by code units the emoji comes first, by code points the exclamation mark. */
  lemma TypeScriptSwaps()
    ensures TypeScriptCanonicalize(Document, TwoPlanes()) != Canonicalize(Document, TwoPlanes())
  {
    var a, b := "\U{FF01}]", "\U{1F600}]";
    PlanesOrder(a, b);
    PlanesWord(a);
    PlanesWord(b);
    PlanesSwap(a, b);
  }

  lemma PlanesSwap(a: string, b: string)
    requires |a| < 8 && |b| < 8 && IsWord(b) && Tag(a) != Tag(b)
    requires StrLe(Tag(a), Tag(b)) && !Utf16Le(Tag(a), Tag(b))
    requires Tokens(Tag(a)) == [Tag(a)] && Tokens(Tag(b)) == [Tag(b)]
    ensures var d := Unsplit(["", a, b]); TypeScriptCanonicalize(Document, d) != Canonicalize(Document, d)
  {
    var d := Unsplit(["", a, b]);
    PairWords(a, b);
    PairOrdered(a, b);
    SwappedPair(Tag(a), Tag(b));
    MapTwo(Tag(b), Tag(a));
    assert SectionWords(d)[0] == [Tag(a)];
    assert Map(Tokens, SectionsBy(Utf16Le, Split(Trim(d))))[0] == [Tag(b)];
    assert [Tag(a)][0] != [Tag(b)][0];
    TypeScriptAgreesExactly(Document, d);
  }
}
