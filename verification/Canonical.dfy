/** The canonical form of a prompt block, and what exactly it identifies. */
module Canonical {
  import opened Seqs
  import opened Sorting
  import opened Text
  import opened Markers

  datatype BlockKind = System | Tools | Document | User

  function Tag(part: string): string { MARKER + part }

  /** `canonicalize`: one whitespace-normalised line; document sections are sorted on their
      raw text before whitespace is collapsed. */
  function Canonicalize(kind: BlockKind, content: string): string {
    var trimmed := Trim(content);
    if kind == Document then Join(Tokens(InOrder(trimmed))) else Join(Tokens(trimmed))
  }

  /** A document with its sections sorted, one to a line. */
  function InOrder(trimmed: string): string {
    var sections := Split(trimmed);
    var preamble := sections[0];
    var tagged := SortBy(Map(Tag, sections[1..]), StrLe);
    var joined := JoinBy(tagged, "\n");
    if preamble == "" then joined else Trim(preamble) + "\n" + joined
  }

  // ---- The normal form: a canonical document as lists of words ----

  function Flat(groups: seq<seq<string>>): seq<string> {
    if groups == [] then [] else groups[0] + Flat(groups[1..])
  }

  /** The words before the first marker. */
  function PreambleWords(s: string): seq<string> { Tokens(Split(Trim(s))[0]) }

  /** The words of each tagged section, sections in the order of their raw text. */
  function SectionWords(s: string): seq<seq<string>> {
    Map(Tokens, SortBy(Map(Tag, Split(Trim(s))[1..]), StrLe))
  }

  function DocumentWords(s: string): seq<string> { PreambleWords(s) + Flat(SectionWords(s)) }

  lemma {:induction false} TokensLines(xs: seq<string>)
    ensures Tokens(JoinBy(xs, "\n")) == Flat(Map(Tokens, xs))
  {
    if |xs| == 1 {
      assert Map(Tokens, xs)[1..] == [];
    } else if |xs| > 1 {
      TokensLines(xs[1..]);
      TokensSep(xs[0], '\n', JoinBy(xs[1..], "\n"));
      assert Map(Tokens, xs)[1..] == Map(Tokens, xs[1..]);
    }
  }

  lemma {:induction false} FlatWords(groups: seq<seq<string>>)
    requires forall i :: 0 <= i < |groups| ==> AllWords(groups[i])
    ensures AllWords(Flat(groups))
  {
    if groups != [] { FlatWords(groups[1..]); }
  }

  lemma DocumentWordsAreWords(s: string)
    ensures AllWords(DocumentWords(s))
  {
    FlatWords(SectionWords(s));
  }

  /** Every document's canonical form is its word list on one line. */
  lemma DocumentNormalForm(s: string)
    ensures Canonicalize(Document, s) == Join(DocumentWords(s))
  {
    var parts := Split(Trim(s));
    FullWords(parts[0], SortBy(Map(Tag, parts[1..]), StrLe));
  }

  lemma FullWords(preamble: string, tagged: seq<string>)
    ensures Tokens(if preamble == "" then JoinBy(tagged, "\n") else Trim(preamble) + "\n" + JoinBy(tagged, "\n"))
      == Tokens(preamble) + Flat(Map(Tokens, tagged))
  {
    TokensLines(tagged);
    if preamble != "" {
      TokensSep(Trim(preamble), '\n', JoinBy(tagged, "\n"));
      TokensTrim(preamble);
    }
  }

  // ---- Collapsing creates no marker ----

  ghost predicate CleanWords(ws: seq<string>) { AllWords(ws) && NoMarkers(ws) }

  /** The words of a tagged section: the marker opens the first word and occurs nowhere else. */
  ghost predicate CleanGroup(g: seq<string>) {
    g != [] && AllWords(g) && MARKER <= g[0] && NoMarker(g[0][8..]) && NoMarkers(g[1..])
  }

  ghost predicate CleanGroups(gs: seq<seq<string>>) { forall i :: 0 <= i < |gs| ==> CleanGroup(gs[i]) }

  lemma {:induction false} TokensClean(s: string)
    requires NoMarker(s)
    ensures CleanWords(Tokens(s))
    decreases |s|
  {
    if s != "" {
      if IsWhite(s[0]) {
        NoMarkerPart(s, 1, |s|);
        assert s[1..|s|] == s[1..];
        TokensClean(s[1..]);
      } else {
        var n := WordLen(s);
        NoMarkerPart(s, 0, n);
        NoMarkerPart(s, n, |s|);
        assert s[n..|s|] == s[n..];
        TokensClean(s[n..]);
      }
    }
  }

  lemma HalvesClean(s: string, n: nat)
    requires n <= |s| && NoMarker(s)
    ensures NoMarker(s[..n]) && CleanWords(Tokens(s[n..]))
  {
    NoMarkerPart(s, 0, n);
    assert s[0..n] == s[..n];
    NoMarkerPart(s, n, |s|);
    assert s[n..|s|] == s[n..];
    TokensClean(s[n..]);
  }

  lemma TaggedClean(part: string)
    requires NoMarker(part)
    ensures CleanGroup(Tokens(Tag(part)))
  {
    var n := WordLen(part);
    MarkerIsWord();
    TokensGlue(MARKER, part);
    HalvesClean(part, n);
    assert (MARKER + part[..n])[8..] == part[..n];
  }

  lemma {:induction false} JoinClean(ws: seq<string>)
    requires CleanWords(ws)
    ensures NoMarker(Join(ws))
  {
    if |ws| > 1 {
      JoinClean(ws[1..]);
      NoMarkerSep(ws[0], ' ', Join(ws[1..]));
    }
  }

  // ---- A canonical document is itself a document with known parts ----

  /** What follows the marker in a collapsed section. */
  function Body(g: seq<string>): string
    requires g != [] && MARKER <= g[0]
  {
    Join([g[0][8..]] + g[1..])
  }

  function BodyParts(gs: seq<seq<string>>): (parts: seq<string>)
    requires forall i :: 0 <= i < |gs| ==> gs[i] != [] && MARKER <= gs[i][0]
    ensures |parts| == |gs|
  {
    if gs == [] then []
    else if |gs| == 1 then [Body(gs[0])]
    else [Body(gs[0]) + " "] + BodyParts(gs[1..])
  }

  function CanonicalParts(pre: seq<string>, gs: seq<seq<string>>): (parts: seq<string>)
    requires forall i :: 0 <= i < |gs| ==> gs[i] != [] && MARKER <= gs[i][0]
    ensures |parts| == |gs| + 1
  {
    [if gs == [] || pre == [] then Join(pre) else Join(pre) + " "] + BodyParts(gs)
  }

  lemma JoinHead(x: string, w: string, rest: seq<string>)
    ensures Join([x + w] + rest) == x + Join([w] + rest)
  {
    assert ([x + w] + rest)[1..] == rest && ([w] + rest)[1..] == rest;
    if rest != [] {
      assert x + w + " " + Join(rest) == x + (w + " " + Join(rest));
    }
  }

  lemma JoinGroup(g: seq<string>)
    requires g != [] && MARKER <= g[0]
    ensures Join(g) == MARKER + Body(g)
  {
    JoinHead(MARKER, g[0][8..], g[1..]);
    assert MARKER + g[0][8..] == g[0];
    assert [g[0]] + g[1..] == g;
  }

  lemma {:induction false} BodyPartsUnsplit(gs: seq<seq<string>>)
    requires gs != [] && forall i :: 0 <= i < |gs| ==> gs[i] != [] && MARKER <= gs[i][0]
    ensures MARKER + Unsplit(BodyParts(gs)) == Join(Flat(gs))
    ensures Flat(gs) != []
  {
    JoinGroup(gs[0]);
    if |gs| == 1 {
      assert Flat(gs[1..]) == [];
      assert Flat(gs) == gs[0];
    } else {
      BodyPartsUnsplit(gs[1..]);
      JoinAppend(gs[0], Flat(gs[1..]));
      assert BodyParts(gs)[1..] == BodyParts(gs[1..]);
      var b, rest := Body(gs[0]), Unsplit(BodyParts(gs[1..]));
      assert MARKER + (b + " " + MARKER + rest) == (MARKER + b) + " " + (MARKER + rest);
    }
  }

  lemma CanonicalPartsUnsplit(pre: seq<string>, gs: seq<seq<string>>)
    requires forall i :: 0 <= i < |gs| ==> gs[i] != [] && MARKER <= gs[i][0]
    ensures Unsplit(CanonicalParts(pre, gs)) == Join(pre + Flat(gs))
  {
    var head := if gs == [] || pre == [] then Join(pre) else Join(pre) + " ";
    if gs == [] {
      assert pre + Flat(gs) == pre;
    } else {
      BodyPartsUnsplit(gs);
      assert CanonicalParts(pre, gs)[1..] == BodyParts(gs);
      var m, tail := MARKER, Unsplit(BodyParts(gs));
      assert Unsplit(CanonicalParts(pre, gs)) == head + m + tail;
      Assoc(head, m, tail);
      if pre == [] {
        assert pre + Flat(gs) == Flat(gs);
      } else {
        JoinAppend(pre, Flat(gs));
      }
    }
  }

  lemma NoMarkerSpace(s: string)
    requires NoMarker(s)
    ensures NoMarker(s + " ")
  {
    NoMarkerSep(s, ' ', "");
    assert s + [' '] + "" == s + " ";
  }

  lemma BodyClean(g: seq<string>)
    requires CleanGroup(g)
    ensures NoMarker(Body(g))
  {
    var w := g[0][8..];
    assert ([w] + g[1..])[1..] == g[1..];
    JoinClean(g[1..]);
    if |g| > 1 { NoMarkerSep(w, ' ', Join(g[1..])); }
  }

  lemma GroupClean(g: seq<string>)
    requires CleanGroup(g)
    ensures NoMarker(Body(g)) && NoMarker(Body(g) + " ")
    ensures Tokens(Tag(Body(g))) == g && Tokens(Tag(Body(g) + " ")) == g
  {
    BodyClean(g);
    NoMarkerSpace(Body(g));
    JoinGroup(g);
    TokensJoin(g);
    TokensSnocWhite(Tag(Body(g)), ' ');
    assert Tag(Body(g)) + [' '] == Tag(Body(g) + " ");
  }

  lemma {:induction false} BodyPartsAt(gs: seq<seq<string>>, i: nat)
    requires forall k :: 0 <= k < |gs| ==> gs[k] != [] && MARKER <= gs[k][0]
    requires i < |gs|
    ensures BodyParts(gs)[i] == Body(gs[i]) || BodyParts(gs)[i] == Body(gs[i]) + " "
  {
    if i > 0 { BodyPartsAt(gs[1..], i - 1); }
  }

  lemma {:induction false} BodyPartClean(gs: seq<seq<string>>, i: nat)
    requires CleanGroups(gs) && i < |gs|
    ensures NoMarker(BodyParts(gs)[i]) && Tokens(Tag(BodyParts(gs)[i])) == gs[i]
  {
    BodyPartsAt(gs, i);
    GroupClean(gs[i]);
  }

  lemma HeadClean(pre: seq<string>)
    requires CleanWords(pre)
    ensures NoMarker(Join(pre)) && NoMarker(Join(pre) + " ")
    ensures Tokens(Join(pre)) == pre && Tokens(Join(pre) + " ") == pre
  {
    var head := Join(pre);
    JoinClean(pre);
    NoMarkerSpace(head);
    TokensJoin(pre);
    TokensSnocWhite(head, ' ');
    assert head + [' '] == head + " ";
  }

  lemma CanonicalPartsAre(pre: seq<string>, gs: seq<seq<string>>)
    requires forall i :: 0 <= i < |gs| ==> gs[i] != [] && MARKER <= gs[i][0]
    ensures CanonicalParts(pre, gs)[0] == Join(pre) || CanonicalParts(pre, gs)[0] == Join(pre) + " "
    ensures CanonicalParts(pre, gs)[1..] == BodyParts(gs)
  {}

  lemma CanonicalPartsClean(pre: seq<string>, gs: seq<seq<string>>)
    requires CleanWords(pre) && CleanGroups(gs)
    ensures NoMarkers(CanonicalParts(pre, gs))
    ensures Tokens(CanonicalParts(pre, gs)[0]) == pre
    ensures forall i :: 0 <= i < |gs| ==> Tokens(Tag(CanonicalParts(pre, gs)[i + 1])) == gs[i]
  {
    var parts := CanonicalParts(pre, gs);
    CanonicalPartsAre(pre, gs);
    HeadClean(pre);
    forall i | 0 <= i < |gs| ensures Tokens(Tag(parts[i + 1])) == gs[i] {
      BodyPartClean(gs, i);
      assert parts[i + 1] == parts[1..][i];
    }
    forall i | 0 <= i < |parts| ensures NoMarker(parts[i]) {
      if i > 0 {
        BodyPartClean(gs, i - 1);
        assert parts[i] == parts[1..][i - 1];
      }
    }
  }

  lemma DocumentPartsClean(s: string)
    ensures CleanWords(PreambleWords(s))
    ensures CleanGroups(SectionWords(s))
  {
    var parts := Split(Trim(s));
    UnsplitSplit(Trim(s));
    TokensClean(parts[0]);
    var tagged := SortBy(Map(Tag, parts[1..]), StrLe);
    forall i | 0 <= i < |tagged| ensures CleanGroup(Tokens(tagged[i])) {
      assert tagged[i] in multiset(tagged);
      assert tagged[i] in Map(Tag, parts[1..]);
      var j :| 0 <= j < |parts| - 1 && Map(Tag, parts[1..])[j] == tagged[i];
      assert parts[1..][j] == parts[j + 1];
      TaggedClean(parts[j + 1]);
    }
  }

  /** Splitting a canonical document gives back the words of the original: collapsing and
      joining neither create nor lose a section. */
  lemma CanonicalSplits(s: string)
    ensures var c := Canonicalize(Document, s);
      && Trim(c) == c
      && CleanGroups(SectionWords(s))
      && Split(c) == CanonicalParts(PreambleWords(s), SectionWords(s))
  {
    DocumentNormalForm(s);
    DocumentPartsClean(s);
    DocumentWordsAreWords(s);
    TrimJoin(DocumentWords(s));
    CanonicalPartsUnsplit(PreambleWords(s), SectionWords(s));
    CanonicalPartsClean(PreambleWords(s), SectionWords(s));
    SplitUnsplit(CanonicalParts(PreambleWords(s), SectionWords(s)));
  }

  lemma CanonicalPartsInjective(p1: seq<string>, g1: seq<seq<string>>, p2: seq<string>, g2: seq<seq<string>>)
    requires CleanWords(p1) && CleanWords(p2) && CleanGroups(g1) && CleanGroups(g2)
    requires CanonicalParts(p1, g1) == CanonicalParts(p2, g2)
    ensures p1 == p2 && g1 == g2
  {
    CanonicalPartsClean(p1, g1);
    CanonicalPartsClean(p2, g2);
    assert |g1| == |CanonicalParts(p1, g1)| - 1 == |g2|;
  }

  /** Full characterisation for all documents: two have the same canonical form if and only
      if their preambles agree up to whitespace and, with sections in raw order, so do the
      sections one by one. */
  lemma DocumentExact(s: string, t: string)
    ensures Canonicalize(Document, s) == Canonicalize(Document, t)
      <==> PreambleWords(s) == PreambleWords(t) && SectionWords(s) == SectionWords(t)
  {
    DocumentNormalForm(s);
    DocumentNormalForm(t);
    if Canonicalize(Document, s) == Canonicalize(Document, t) {
      CanonicalSplits(s);
      CanonicalSplits(t);
      DocumentPartsClean(s);
      DocumentPartsClean(t);
      CanonicalPartsInjective(PreambleWords(s), SectionWords(s), PreambleWords(t), SectionWords(t));
    }
  }

  /** The other kinds: equal up to whitespace, and nothing else is identified. */
  lemma {:induction false} PlainExact(kind: BlockKind, s: string, t: string)
    requires kind != Document
    ensures Canonicalize(kind, s) == Canonicalize(kind, t) <==> Tokens(s) == Tokens(t)
  {
    TokensTrim(s);
    TokensTrim(t);
    if Canonicalize(kind, s) == Canonicalize(kind, t) {
      JoinInjective(Tokens(s), Tokens(t));
    }
  }

  // ---- Idempotence ----

  lemma PlainIdempotent(kind: BlockKind, s: string)
    requires kind != Document
    ensures Canonicalize(kind, Canonicalize(kind, s)) == Canonicalize(kind, s)
  {
    TokensTrim(s);
    TrimJoin(Tokens(s));
    CollapseIdempotent(s);
  }
}
