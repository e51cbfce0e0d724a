/** Documents built from identified sources, `[SOURCE:id]body`: the promise that retrieval
    order and whitespace drift never cost a cache hit. */
module Sources {
  import opened Seqs
  import opened Sorting
  import opened Text
  import opened Markers
  import opened Canonical
  import opened Idempotence

  datatype Source = Source(id: string, body: string)

  /** An id is written between the marker and the next `]`. */
  predicate IsId(id: string) {
    forall i :: 0 <= i < |id| ==> id[i] != ']' && !IsWhite(id[i])
  }

  function Part(x: Source): string { x.id + "]" + x.body }

  function Compose(pre: string, sources: seq<Source>): string {
    Unsplit([pre] + Map(Part, sources))
  }

  predicate DistinctIds(sources: seq<Source>) {
    forall i, j :: 0 <= i < j < |sources| ==> sources[i].id != sources[j].id
  }

  /** Distinct ids, and no part of the document that itself reads as a source marker. */
  ghost predicate WellFormed(pre: string, sources: seq<Source>) {
    && DistinctIds(sources)
    && NoMarker(pre)
    && forall i :: 0 <= i < |sources| ==> IsId(sources[i].id) && NoMarker(Part(sources[i]))
  }

  /** The body up to whitespace; the closing bracket keeps "]x" apart from "] x". */
  function BodyWords(x: Source): seq<string> { Tokens("]" + x.body) }

  /** What a document says, whatever the order of its sources and its whitespace. */
  function Content(sources: seq<Source>): set<(string, seq<string>)> {
    set x | x in sources :: (x.id, BodyWords(x))
  }

  function SourceWords(x: Source): seq<string> { Tokens(Tag(Part(x))) }

  function IdKey(x: Source): string { x.id + "]" }

  predicate ById(x: Source, y: Source) { StrLe(IdKey(x), IdKey(y)) }

  // ---- Order is decided by the id ----

  /** An id closed by `]` is never a proper prefix of another. */
  lemma {:induction false} IdDecides(a: string, b: string, s: string, t: string)
    requires IsId(a) && IsId(b) && a != b
    ensures StrLe(a + "]" + s, b + "]" + t) == StrLe(a + "]", b + "]")
  {
    if a == "" {
      assert a + "]" + s == "]" + s && a + "]" == "]";
      assert b[0] != ']';
      assert (b + "]" + t)[0] == b[0] == (b + "]")[0];
    } else if b == "" {
      assert b + "]" + t == "]" + t && b + "]" == "]";
      assert a[0] != ']';
      assert (a + "]" + s)[0] == a[0] == (a + "]")[0];
    } else {
      assert (a + "]" + s)[1..] == a[1..] + "]" + s && (a + "]")[1..] == a[1..] + "]";
      assert (b + "]" + t)[1..] == b[1..] + "]" + t && (b + "]")[1..] == b[1..] + "]";
      if a[0] == b[0] {
        assert a == [a[0]] + a[1..] && b == [b[0]] + b[1..];
        IdDecides(a[1..], b[1..], s, t);
      }
    }
  }

  lemma TagOrder(x: Source, y: Source)
    requires IsId(x.id) && IsId(y.id) && x.id != y.id
    ensures StrLe(Tag(Part(x)), Tag(Part(y))) == ById(x, y)
  {
    StrLePrefix(MARKER, Part(x), Part(y));
    IdDecides(x.id, y.id, x.body, y.body);
  }

  function TaggedPart(x: Source): string { Tag(Part(x)) }

  /** Sorting the raw sections is sorting the sources by id. */
  lemma SortById(sources: seq<Source>)
    requires DistinctIds(sources) && forall i :: 0 <= i < |sources| ==> IsId(sources[i].id)
    ensures SortBy(Map(TaggedPart, sources), StrLe) == Map(TaggedPart, SortBy(sources, ById))
    ensures Map(IdKey, SortBy(sources, ById)) == SortBy(Map(IdKey, sources), StrLe)
  {
    forall i, j | 0 <= i < j < |sources|
      ensures ById(sources[i], sources[j]) == StrLe(TaggedPart(sources[i]), TaggedPart(sources[j]))
    {
      TagOrder(sources[i], sources[j]);
    }
    MapSort(TaggedPart, sources, ById, StrLe);
    MapSort(IdKey, sources, ById, StrLe);
  }

  // ---- Trimming a document trims its outer parts only ----

  function TrimLast(sources: seq<Source>): (r: seq<Source>)
    ensures |r| == |sources|
  {
    if sources == [] then []
    else sources[..|sources| - 1] + [sources[|sources| - 1].(body := TrimEnd(sources[|sources| - 1].body))]
  }

  lemma {:induction false} UnsplitSnoc(parts: seq<string>, p: string)
    requires parts != []
    ensures Unsplit(parts + [p]) == Unsplit(parts) + MARKER + p
  {
    if |parts| == 1 {
      assert (parts + [p])[1..] == [p];
    } else {
      assert (parts + [p])[1..] == parts[1..] + [p];
      UnsplitSnoc(parts[1..], p);
    }
  }

  lemma UnsplitCons(p: string, parts: seq<string>)
    requires parts != []
    ensures Unsplit([p] + parts) == p + MARKER + Unsplit(parts)
  {
    assert ([p] + parts)[1..] == parts;
  }

  lemma TrimEndSection(front: string, x: Source)
    ensures TrimEnd(front + MARKER + Part(x)) == front + MARKER + Part(x.(body := TrimEnd(x.body)))
  {
    var head := front + MARKER + x.id;
    assert front + MARKER + Part(x) == head + "]" + x.body;
    assert IsWord("]");
    TrimEndKeeps(head, "]", x.body);
    assert head + "]" + TrimEnd(x.body) == front + MARKER + (x.id + "]" + TrimEnd(x.body));
  }

  lemma DocumentSnoc(pre: string, sources: seq<Source>, x: Source)
    ensures Compose(pre, sources + [x]) == Compose(pre, sources) + MARKER + Part(x)
  {
    assert [pre] + Map(Part, sources + [x]) == ([pre] + Map(Part, sources)) + [Part(x)];
    UnsplitSnoc([pre] + Map(Part, sources), Part(x));
  }

  lemma DocumentTrimEnd(pre: string, sources: seq<Source>)
    requires sources != []
    ensures TrimEnd(Compose(pre, sources)) == Compose(pre, TrimLast(sources))
  {
    var n := |sources| - 1;
    var front, last := sources[..n], sources[n];
    assert sources == front + [last];
    DocumentSnoc(pre, front, last);
    DocumentSnoc(pre, front, last.(body := TrimEnd(last.body)));
    TrimEndSection(Compose(pre, front), last);
  }

  lemma {:induction false} DocumentTrim(pre: string, sources: seq<Source>)
    requires sources != []
    ensures Trim(Compose(pre, sources)) == Compose(TrimStart(pre), TrimLast(sources))
  {
    MarkerIsWord();
    var parts := Map(Part, sources);
    UnsplitCons(pre, parts);
    UnsplitCons(TrimStart(pre), parts);
    TrimStartKeeps(pre, MARKER, Unsplit(parts));
    DocumentTrimEnd(TrimStart(pre), sources);
  }

  lemma TrimmedBody(body: string)
    ensures TrimEnd("]" + body) == "]" + TrimEnd(body)
  {
    assert IsWord("]");
    TrimEndKeeps("", "]", body);
    assert "" + "]" == "]";
  }

  lemma TrimmedSource(x: Source)
    requires NoMarker(Part(x))
    ensures var x' := x.(body := TrimEnd(x.body)); BodyWords(x') == BodyWords(x) && NoMarker(Part(x'))
  {
    TrimmedBody(x.body);
    TokensTrimEnd("]" + x.body);
    TrimEndShape(x.body);
    var open, n := x.id + "]", |x.id| + 1 + |TrimEnd(x.body)|;
    NoMarkerPart(open + x.body, 0, n);
    assert (open + x.body)[0..n] == open + TrimEnd(x.body);
  }

  lemma SameContent(s: seq<Source>, t: seq<Source>)
    requires |s| == |t|
    requires forall i :: 0 <= i < |s| ==> s[i].id == t[i].id && BodyWords(s[i]) == BodyWords(t[i])
    ensures Content(s) == Content(t)
  {
    forall x | x in s ensures (x.id, BodyWords(x)) in Content(t) {
      var i :| 0 <= i < |s| && s[i] == x;
      assert t[i] in t;
    }
    forall x | x in t ensures (x.id, BodyWords(x)) in Content(s) {
      var i :| 0 <= i < |t| && t[i] == x;
      assert s[i] in s;
    }
  }

  lemma TrimmedWellFormed(pre: string, sources: seq<Source>)
    requires WellFormed(pre, sources)
    ensures WellFormed(TrimStart(pre), TrimLast(sources))
    ensures Content(TrimLast(sources)) == Content(sources)
  {
    NoMarkerTrimStart(pre);
    var r := TrimLast(sources);
    if sources != [] { TrimmedSource(sources[|sources| - 1]); }
    assert forall i :: 0 <= i < |r| ==>
      r[i].id == sources[i].id && BodyWords(r[i]) == BodyWords(sources[i]) && NoMarker(Part(r[i]));
    SameContent(r, sources);
  }

  lemma {:induction false} NoMarkerTrimStart(s: string)
    requires NoMarker(s)
    ensures NoMarker(TrimStart(s))
  {
    if s != "" && IsWhite(s[0]) {
      NoMarkerPart(s, 1, |s|);
      assert s[1..|s|] == s[1..];
      NoMarkerTrimStart(s[1..]);
    }
  }

  // ---- The canonical form of a well-formed document ----

  lemma SourceParts(pre: string, sources: seq<Source>)
    requires WellFormed(pre, sources) && sources != []
    ensures Split(Trim(Compose(pre, sources))) == [TrimStart(pre)] + Map(Part, TrimLast(sources))
  {
    DocumentTrim(pre, sources);
    TrimmedWellFormed(pre, sources);
    SplitUnsplit([TrimStart(pre)] + Map(Part, TrimLast(sources)));
  }

  lemma SectionWordsById(sources: seq<Source>)
    requires DistinctIds(sources) && forall i :: 0 <= i < |sources| ==> IsId(sources[i].id)
    ensures Map(Tokens, SortBy(Map(Tag, Map(Part, sources)), StrLe)) == Map(SourceWords, SortBy(sources, ById))
  {
    MapTwice(Part, Tag, TaggedPart, sources);
    SortById(sources);
    MapTwice(TaggedPart, Tokens, SourceWords, SortBy(sources, ById));
  }

  lemma SourceDocumentWords(pre: string, sources: seq<Source>)
    requires WellFormed(pre, sources)
    ensures PreambleWords(Compose(pre, sources)) == Tokens(pre)
    ensures SectionWords(Compose(pre, sources)) == Map(SourceWords, SortBy(TrimLast(sources), ById))
  {
    if sources == [] {
      NoMarkerTrim(pre);
      SplitNone(Trim(pre));
      TokensTrim(pre);
    } else {
      var parts := [TrimStart(pre)] + Map(Part, TrimLast(sources));
      SourceParts(pre, sources);
      TokensTrimStart(pre);
      TrimmedWellFormed(pre, sources);
      assert parts[1..] == Map(Part, TrimLast(sources));
      SectionWordsById(TrimLast(sources));
    }
  }

  lemma NoMarkerTrim(s: string)
    requires NoMarker(s)
    ensures NoMarker(Trim(s))
  {
    NoMarkerTrimStart(s);
    var t := TrimStart(s);
    TrimEndShape(t);
    NoMarkerPart(t, 0, |TrimEnd(t)|);
    assert t[0..|TrimEnd(t)|] == TrimEnd(t);
  }

  lemma OpeningWord(body: string)
    ensures Tokens("]" + body) == ["]" + body[..WordLen(body)]] + Tokens(body[WordLen(body)..])
  {
    assert IsWord("]");
    TokensGlue("]", body);
  }

  lemma WordsBehind(front: string, body: string)
    requires IsWord(front)
    ensures Tokens(front + ("]" + body)) == [front + ("]" + body[..WordLen(body)])] + Tokens(body[WordLen(body)..])
  {
    assert IsWord(front + "]");
    TokensGlue(front + "]", body);
    Assoc(front, "]", body);
    Assoc(front, "]", body[..WordLen(body)]);
  }

  /** A source's words determine, and are determined by, its id and its body's words. */
  lemma SourceWordsShape(x: Source)
    requires IsId(x.id)
    ensures BodyWords(x) != [] && "]" <= BodyWords(x)[0]
    ensures SourceWords(x) == [MARKER + x.id + BodyWords(x)[0]] + BodyWords(x)[1..]
  {
    OpeningWord(x.body);
    MarkerIsWord();
    WordsBehind(MARKER + x.id, x.body);
    Assoc(x.id, "]", x.body);
    Assoc(MARKER, x.id, "]" + x.body);
  }

  function IdEnd(s: string): nat {
    if s == "" || s[0] == ']' then 0 else 1 + IdEnd(s[1..])
  }

  lemma {:induction false} IdEndOf(a: string, s: string)
    requires IsId(a)
    ensures IdEnd(a + "]" + s) == |a|
  {
    if a == "" {
      assert (a + "]" + s)[0] == ']';
    } else {
      assert (a + "]" + s)[1..] == a[1..] + "]" + s;
      IdEndOf(a[1..], s);
    }
  }

  lemma ClosedIdInjective(a: string, b: string, s: string, t: string)
    requires IsId(a) && IsId(b) && a + "]" + s == b + "]" + t
    ensures a == b && s == t
  {
    var u, v := a + "]" + s, b + "]" + t;
    IdEndOf(a, s);
    IdEndOf(b, t);
    assert a == u[..|a|] && b == v[..|b|];
    assert s == u[|a| + 1..] && t == v[|b| + 1..];
  }

  lemma ConsInjective(u: string, us: seq<string>, v: string, vs: seq<string>)
    requires [u] + us == [v] + vs
    ensures u == v && us == vs
  {
    assert u == ([u] + us)[0] && us == ([u] + us)[1..];
    assert v == ([v] + vs)[0] && vs == ([v] + vs)[1..];
  }

  lemma SourceWordsInjective(x: Source, y: Source)
    requires IsId(x.id) && IsId(y.id) && SourceWords(x) == SourceWords(y)
    ensures x.id == y.id && BodyWords(x) == BodyWords(y)
  {
    SourceWordsShape(x);
    SourceWordsShape(y);
    var v, w := BodyWords(x), BodyWords(y);
    ConsInjective(MARKER + x.id + v[0], v[1..], MARKER + y.id + w[0], w[1..]);
    FirstWordInjective(x.id, y.id, v[0], w[0]);
    assert v == [v[0]] + v[1..] && w == [w[0]] + w[1..];
  }

  lemma FirstWordInjective(a: string, b: string, v: string, w: string)
    requires IsId(a) && IsId(b) && "]" <= v && "]" <= w
    requires MARKER + a + v == MARKER + b + w
    ensures a == b && v == w
  {
    assert (MARKER + a + v)[8..] == a + v && (MARKER + b + w)[8..] == b + w;
    assert v == "]" + v[1..] && w == "]" + w[1..];
    assert a + v == a + "]" + v[1..] && b + w == b + "]" + w[1..];
    ClosedIdInjective(a, b, v[1..], w[1..]);
  }

  // ---- Same content, same order of ids ----

  lemma ContentMember(sources: seq<Source>, id: string, ws: seq<string>) returns (i: nat)
    requires (id, ws) in Content(sources)
    ensures i < |sources| && sources[i].id == id && BodyWords(sources[i]) == ws
  {
    var x :| x in sources && (x.id, BodyWords(x)) == (id, ws);
    i :| 0 <= i < |sources| && sources[i] == x;
  }

  function Remove<T>(xs: seq<T>, i: nat): seq<T>
    requires i < |xs|
  {
    xs[..i] + xs[i + 1..]
  }

  lemma RemoveKeeps<T>(xs: seq<T>, i: nat)
    requires i < |xs|
    ensures multiset(xs) == multiset(Remove(xs, i)) + multiset{xs[i]}
    ensures forall k :: 0 <= k < |Remove(xs, i)| ==> Remove(xs, i)[k] == xs[if k < i then k else k + 1]
  {
    assert xs == xs[..i] + [xs[i]] + xs[i + 1..];
  }

  predicate Distinct(xs: seq<string>) { forall i, j :: 0 <= i < j < |xs| ==> xs[i] != xs[j] }

  lemma RemoveMembers(xs: seq<string>, i: nat)
    requires i < |xs| && Distinct(xs)
    ensures Distinct(Remove(xs, i))
    ensures forall z :: z in Remove(xs, i) <==> z in xs && z != xs[i]
  {
    RemoveKeeps(xs, i);
    var r := Remove(xs, i);
    forall z | z in xs && z != xs[i] ensures z in r {
      var m :| 0 <= m < |xs| && xs[m] == z;
      assert r[if m < i then m else m - 1] == z;
    }
    forall z | z in r ensures z in xs && z != xs[i] {
      var k :| 0 <= k < |r| && r[k] == z;
    }
  }

  lemma HeadIsMember(xs: seq<string>)
    ensures xs != [] ==> xs[0] in xs
  {}

  lemma {:induction false} SameMembers(xs: seq<string>, ys: seq<string>)
    requires Distinct(xs) && Distinct(ys)
    requires forall x :: x in xs <==> x in ys
    ensures multiset(xs) == multiset(ys)
    decreases |xs|
  {
    if xs == [] {
      HeadIsMember(ys);
    } else {
      assert xs[0] in xs;
      var i :| 0 <= i < |ys| && ys[i] == xs[0];
      RemoveKeeps(xs, 0);
      RemoveKeeps(ys, i);
      RemoveMembers(xs, 0);
      RemoveMembers(ys, i);
      SameMembers(Remove(xs, 0), Remove(ys, i));
    }
  }

  lemma IdKeysDistinct(sources: seq<Source>)
    requires DistinctIds(sources)
    ensures Distinct(Map(IdKey, sources))
  {
    forall i, j | 0 <= i < j < |sources| ensures Map(IdKey, sources)[i] != Map(IdKey, sources)[j] {
      if IdKey(sources[i]) == IdKey(sources[j]) { IdKeyInjective(sources[i], sources[j]); }
    }
  }

  lemma {:induction false} ContentIds(s: seq<Source>, t: seq<Source>)
    requires Content(s) <= Content(t)
    ensures forall k :: k in Map(IdKey, s) ==> k in Map(IdKey, t)
  {
    forall k | k in Map(IdKey, s) ensures k in Map(IdKey, t) {
      var i :| 0 <= i < |s| && Map(IdKey, s)[i] == k;
      assert s[i] in s;
      assert (s[i].id, BodyWords(s[i])) in Content(s);
      var j := ContentMember(t, s[i].id, BodyWords(s[i]));
      assert Map(IdKey, t)[j] == k;
    }
  }

  lemma SortedMembers(sources: seq<Source>, x: Source)
    ensures x in SortBy(sources, ById) <==> x in sources
  {
    assert x in multiset(SortBy(sources, ById)) <==> x in multiset(sources);
  }

  lemma IdKeyInjective(x: Source, y: Source)
    requires IdKey(x) == IdKey(y)
    ensures x.id == y.id
  {
    assert x.id == IdKey(x)[..|x.id|] && y.id == IdKey(y)[..|y.id|];
  }

  lemma {:induction false} SameContentSameKeys(s: seq<Source>, t: seq<Source>)
    requires DistinctIds(s) && DistinctIds(t)
    requires forall x :: x in s || x in t ==> IsId(x.id)
    requires Content(s) == Content(t)
    ensures Map(IdKey, SortBy(s, ById)) == Map(IdKey, SortBy(t, ById))
  {
    ContentIds(s, t);
    ContentIds(t, s);
    IdKeysDistinct(s);
    IdKeysDistinct(t);
    SameMembers(Map(IdKey, s), Map(IdKey, t));
    StrLeOrder();
    SortUnique(Map(IdKey, s), Map(IdKey, t), StrLe);
    forall i | 0 <= i < |s| ensures IsId(s[i].id) { assert s[i] in s; }
    forall i | 0 <= i < |t| ensures IsId(t[i].id) { assert t[i] in t; }
    SortById(s);
    SortById(t);
  }

  lemma SameIdSameWords(x: Source, y: Source, t: seq<Source>)
    requires DistinctIds(t) && y in t && IsId(y.id)
    requires (x.id, BodyWords(x)) in Content(t) && IdKey(x) == IdKey(y)
    ensures SourceWords(x) == SourceWords(y)
  {
    IdKeyInjective(x, y);
    var j := ContentMember(t, x.id, BodyWords(x));
    var k :| 0 <= k < |t| && t[k] == y;
    assert j == k;
    SourceWordsShape(x);
    SourceWordsShape(y);
  }

  lemma SameContentSameWords(s: seq<Source>, t: seq<Source>)
    requires DistinctIds(s) && DistinctIds(t)
    requires forall x :: x in s || x in t ==> IsId(x.id)
    requires Content(s) == Content(t)
    ensures Map(SourceWords, SortBy(s, ById)) == Map(SourceWords, SortBy(t, ById))
  {
    SameContentSameKeys(s, t);
    var a, b := SortBy(s, ById), SortBy(t, ById);
    assert |a| == |Map(IdKey, a)| == |Map(IdKey, b)| == |b|;
    forall i | 0 <= i < |a| ensures SourceWords(a[i]) == SourceWords(b[i]) {
      assert Map(IdKey, a)[i] == Map(IdKey, b)[i];
      assert a[i] in a && b[i] in b;
      SortedMembers(s, a[i]);
      SortedMembers(t, b[i]);
      assert (a[i].id, BodyWords(a[i])) in Content(s);
      SameIdSameWords(a[i], b[i], t);
    }
  }

  lemma SameWordsSubContent(s: seq<Source>, t: seq<Source>)
    requires forall x :: x in s || x in t ==> IsId(x.id)
    requires Map(SourceWords, SortBy(s, ById)) == Map(SourceWords, SortBy(t, ById))
    ensures Content(s) <= Content(t)
  {
    var a, b := SortBy(s, ById), SortBy(t, ById);
    assert |a| == |Map(SourceWords, a)| == |b|;
    forall x | x in s ensures (x.id, BodyWords(x)) in Content(t) {
      SortedMembers(s, x);
      var i :| 0 <= i < |a| && a[i] == x;
      assert b[i] in b;
      SortedMembers(t, b[i]);
      assert Map(SourceWords, a)[i] == Map(SourceWords, b)[i];
      SourceWordsInjective(a[i], b[i]);
    }
  }

  /** The document theorem. Two well-formed documents have the same canonical form if and
      only if their preambles agree up to whitespace and they hold the same sources, by id
      and by body up to whitespace, in any order. */
  lemma DocumentInvariance(p: string, s: seq<Source>, q: string, t: seq<Source>)
    requires WellFormed(p, s) && WellFormed(q, t)
    ensures Canonicalize(Document, Compose(p, s)) == Canonicalize(Document, Compose(q, t))
      <==> Tokens(p) == Tokens(q) && Content(s) == Content(t)
  {
    SourceDocumentWords(p, s);
    SourceDocumentWords(q, t);
    TrimmedWellFormed(p, s);
    TrimmedWellFormed(q, t);
    DocumentExact(Compose(p, s), Compose(q, t));
    var s', t' := TrimLast(s), TrimLast(t);
    assert forall x :: x in s' || x in t' ==> IsId(x.id);
    if Content(s) == Content(t) { SameContentSameWords(s', t'); }
    if SectionWords(Compose(p, s)) == SectionWords(Compose(q, t)) {
      SameWordsSubContent(s', t');
      SameWordsSubContent(t', s');
    }
  }

  lemma {:induction false} DistinctCounts(xs: seq<string>, v: string)
    requires Distinct(xs)
    ensures multiset(xs)[v] <= 1
  {
    if xs != [] {
      DistinctCounts(xs[1..], v);
      assert xs == [xs[0]] + xs[1..];
      assert xs[0] !in xs[1..];
      assert multiset(xs[1..])[xs[0]] == 0;
    }
  }

  lemma PermutationDistinct(xs: seq<string>, ys: seq<string>)
    requires Distinct(xs) && multiset(xs) == multiset(ys)
    ensures Distinct(ys)
  {
    forall i, j | 0 <= i < j < |ys| ensures ys[i] != ys[j] {
      DistinctCounts(xs, ys[i]);
      assert ys == ys[..j] + [ys[j]] + ys[j + 1..];
      assert ys[..j][i] in multiset(ys[..j]);
      assert multiset(ys) == multiset(ys[..j]) + multiset{ys[j]} + multiset(ys[j + 1..]);
    }
  }

  /** Sorting by id puts the ids in strictly increasing order. */
  lemma {:induction false} SortedIds(sources: seq<Source>, i: nat, j: nat)
    requires DistinctIds(sources) && (forall k :: 0 <= k < |sources| ==> IsId(sources[k].id))
    requires i < j < |sources|
    ensures var r := SortBy(sources, ById);
      IsId(r[i].id) && IsId(r[j].id) && r[i].id != r[j].id && ById(r[i], r[j])
  {
    var r := SortBy(sources, ById);
    var keys := Map(IdKey, sources);
    SortById(sources);
    StrLeOrder();
    SortSorts(keys, StrLe);
    IdKeysDistinct(sources);
    PermutationDistinct(keys, SortBy(keys, StrLe));
    assert Map(IdKey, r)[i] == IdKey(r[i]) && Map(IdKey, r)[j] == IdKey(r[j]);
    assert r[i] in r && r[j] in r;
    SortedMembers(sources, r[i]);
    SortedMembers(sources, r[j]);
  }

  /** A text that opens with a source's first word is ordered by that source's id. */
  lemma OpensWithSource(k: string, x: Source) returns (rest: string)
    requires IsId(x.id) && k != "" && !IsWhite(k[0]) && Tokens(k) == SourceWords(x)
    ensures k == MARKER + (x.id + "]" + rest)
  {
    SourceWordsShape(x);
    FirstToken(k);
    var w := BodyWords(x)[0];
    rest := w[1..] + k[WordLen(k)..];
    Reassociate(x.id, w, k[WordLen(k)..]);
  }

  lemma Reassociate(id: string, w: string, z: string)
    requires "]" <= w
    ensures MARKER + id + w + z == MARKER + (id + "]" + (w[1..] + z))
  {
    assert w == "]" + w[1..];
    var m := MARKER;
    assert m + id + w + z == m + (id + (w + z));
    assert id + (w + z) == id + "]" + (w[1..] + z);
  }

  /** Canonicalising a well-formed document twice is canonicalising it once. */
  lemma DocumentIdempotent(pre: string, sources: seq<Source>)
    requires WellFormed(pre, sources)
    ensures var c := Canonicalize(Document, Compose(pre, sources));
      Canonicalize(Document, c) == c
  {
    var d := Compose(pre, sources);
    var k := Settled(SectionWords(d));
    forall i, j | 0 <= i < j < |k| ensures StrLe(k[i], k[j]) { SettledInOrder(pre, sources, i, j); }
    DocumentIdempotentExactly(d);
  }

  lemma SettledInOrder(pre: string, sources: seq<Source>, i: nat, j: nat)
    requires WellFormed(pre, sources) && i < j < |SectionWords(Compose(pre, sources))|
    ensures var k := Settled(SectionWords(Compose(pre, sources))); StrLe(k[i], k[j])
  {
    var d, trimmed := Compose(pre, sources), TrimLast(sources);
    SourceDocumentWords(pre, sources);
    TrimmedWellFormed(pre, sources);
    SortedIds(trimmed, i, j);
    SettledShape(d, i);
    SettledShape(d, j);
    SortedWordsAt(d, trimmed, i);
    SortedWordsAt(d, trimmed, j);
    var k := Settled(SectionWords(d));
    CollapsedOrder(k[i], k[j], SortBy(trimmed, ById)[i], SortBy(trimmed, ById)[j]);
  }

  lemma SortedWordsAt(d: string, sources: seq<Source>, i: nat)
    requires SectionWords(d) == Map(SourceWords, SortBy(sources, ById)) && i < |SectionWords(d)|
    ensures i < |SortBy(sources, ById)| && SectionWords(d)[i] == SourceWords(SortBy(sources, ById)[i])
  {}

  lemma SettledShape(d: string, i: nat)
    requires i < |SectionWords(d)|
    ensures var k := Settled(SectionWords(d))[i];
      k != "" && !IsWhite(k[0]) && Tokens(k) == SectionWords(d)[i]
  {
    DocumentPartsClean(d);
    assert CleanGroup(SectionWords(d)[i]);
    JoinShape(SectionWords(d)[i]);
    ListedWords(SectionWords(d)[i]);
  }

  lemma CollapsedOrder(k: string, l: string, x: Source, y: Source)
    requires k != "" && !IsWhite(k[0]) && l != "" && !IsWhite(l[0])
    requires IsId(x.id) && IsId(y.id) && x.id != y.id && ById(x, y)
    requires Tokens(k) == SourceWords(x) && Tokens(l) == SourceWords(y)
    ensures StrLe(k, l)
  {
    var s := OpensWithSource(k, x);
    var t := OpensWithSource(l, y);
    StrLePrefix(MARKER, x.id + "]" + s, y.id + "]" + t);
    IdDecides(x.id, y.id, s, t);
  }
}
